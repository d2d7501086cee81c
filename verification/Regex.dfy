/** grep's matcher (grep.c) against the language its patterns stand for. */
module Regex {

  datatype Atom = Any | Lit(c: char)

  datatype Item = One(a: Atom) | Star(a: Atom)

  // The language of a pattern

  predicate Accepts(a: Atom, c: char) { a.Any? || a.c == c }

  predicate InItem(x: Item, w: string) {
    match x
    case One(a) => |w| == 1 && Accepts(a, w[0])
    case Star(a) => forall i :: 0 <= i < |w| ==> Accepts(a, w[i])
  }

  function Concat(pieces: seq<string>): (r: string) {
    if pieces == [] then "" else pieces[0] + Concat(pieces[1..])
  }

  /** w can be cut into one piece per item, each in the item's language. */
  ghost predicate Cuts(items: seq<Item>, pieces: seq<string>, w: string) {
    && |pieces| == |items| && Concat(pieces) == w
    && forall i :: 0 <= i < |items| ==> InItem(items[i], pieces[i])
  }

  ghost predicate InLanguage(items: seq<Item>, w: string) { exists pieces: seq<string> :: Cuts(items, pieces, w) }

  function AtomOf(c: char): (r: Atom) { if c == '.' then Any else Lit(c) }

  /** The pattern as items. A '$' is an anchor only as the very last character; a
      '*' is a repetition only after another character. */
  function Items(re: string): (r: seq<Item>) {
    if re == "" || re == "$" then []
    else if |re| >= 2 && re[1] == '*' then [Star(AtomOf(re[0]))] + Items(re[2..])
    else [One(AtomOf(re[0]))] + Items(re[1..])
  }

  predicate Anchored(re: string) {
    if re == "" then false
    else if |re| >= 2 && re[1] == '*' then Anchored(re[2..])
    else if re == "$" then true
    else Anchored(re[1..])
  }

  /** Some prefix of text (all of it, for an anchored pattern) is in the language. */
  ghost predicate MatchesHere(re: string, text: string) {
    exists n :: 0 <= n <= |text| && (Anchored(re) ==> n == |text|) && InLanguage(Items(re), text[..n])
  }

  ghost predicate MatchesAny(re: string, text: string) {
    if re != "" && re[0] == '^' then MatchesHere(re[1..], text)
    else exists i :: 0 <= i <= |text| && MatchesHere(re, text[i..])
  }

  // Taking a language apart

  lemma LanguageNone(w: string)
    ensures InLanguage([], w) <==> w == ""
  {
    if w == "" {
      assert Cuts([], [], w);
    }
  }

  /** The first piece, and the rest. */
  lemma LanguageFirst(x: Item, items: seq<Item>, w: string) returns (k: nat)
    requires InLanguage([x] + items, w)
    ensures k <= |w| && InItem(x, w[..k]) && InLanguage(items, w[k..])
  {
    var all := [x] + items;
    var pieces: seq<string> :| Cuts(all, pieces, w);
    k := |pieces[0]|;
    assert w[..k] == pieces[0] && w[k..] == Concat(pieces[1..]);
    forall i | 0 <= i < |items| ensures InItem(items[i], pieces[1..][i]) {
      assert items[i] == all[i + 1] && pieces[1..][i] == pieces[i + 1];
    }
    assert Cuts(items, pieces[1..], w[k..]);
  }

  lemma LanguageJoin(x: Item, items: seq<Item>, w: string, k: nat)
    requires k <= |w| && InItem(x, w[..k]) && InLanguage(items, w[k..])
    ensures InLanguage([x] + items, w)
  {
    var pieces: seq<string> :| Cuts(items, pieces, w[k..]);
    var all := [w[..k]] + pieces;
    assert all[1..] == pieces;
    assert Concat(all) == w[..k] + w[k..] == w;
    assert Cuts([x] + items, all, w);
  }

  // matchhere, case by case

  lemma HereNone(text: string)
    ensures MatchesHere("", text)
    ensures MatchesHere("$", text) <==> text == ""
  {
    assert text[..0] == "";
    LanguageNone(text[..0]);
    LanguageNone(text[..|text|]);
    assert text[..|text|] == text;
  }

  lemma HereOne(re: string, text: string)
    requires re != "" && re != "$" && !(|re| >= 2 && re[1] == '*')
    ensures MatchesHere(re, text) <==> text != "" && Accepts(AtomOf(re[0]), text[0]) && MatchesHere(re[1..], text[1..])
  {
    var x, items := One(AtomOf(re[0])), Items(re[1..]);
    assert Items(re) == [x] + items;
    if n :| 0 <= n <= |text| && (Anchored(re) ==> n == |text|) && InLanguage(Items(re), text[..n]) {
      var k := LanguageFirst(x, items, text[..n]);
      assert text[..n][0] == text[0];
      assert text[..n][1..] == text[1..][..n - 1];
    }
    if text != "" && Accepts(AtomOf(re[0]), text[0]) && MatchesHere(re[1..], text[1..]) {
      var n :| 0 <= n <= |text| - 1 && (Anchored(re[1..]) ==> n == |text| - 1) && InLanguage(items, text[1..][..n]);
      assert text[..n + 1][1..] == text[1..][..n];
      LanguageJoin(x, items, text[..n + 1], 1);
    }
  }

  /** k repetitions of c, then the rest of the pattern. */
  ghost predicate StarSplit(c: char, re: string, text: string, k: nat) {
    && k <= |text| && (forall i :: 0 <= i < k ==> Accepts(AtomOf(c), text[i]))
    && MatchesHere(re, text[k..])
  }

  lemma HereStar(re: string, text: string)
    requires |re| >= 2 && re[1] == '*'
    ensures MatchesHere(re, text) <==> exists k: nat :: StarSplit(re[0], re[2..], text, k)
  {
    var x, items := Star(AtomOf(re[0])), Items(re[2..]);
    assert Items(re) == [x] + items;
    if n :| 0 <= n <= |text| && (Anchored(re) ==> n == |text|) && InLanguage(Items(re), text[..n]) {
      var k := LanguageFirst(x, items, text[..n]);
      assert text[..n][k..] == text[k..][..n - k];
      forall i | 0 <= i < k ensures Accepts(AtomOf(re[0]), text[i]) {
        assert text[..n][..k][i] == text[i];
      }
      assert StarSplit(re[0], re[2..], text, k);
    }
    if k: nat :| StarSplit(re[0], re[2..], text, k) {
      var n :| 0 <= n <= |text| - k && (Anchored(re[2..]) ==> n == |text| - k) && InLanguage(items, text[k..][..n]);
      var w := text[..k + n];
      assert w[k..] == text[k..][..n];
      LanguageJoin(x, items, w, k);
    }
  }

  // Patterns of one kind only

  predicate Plain(re: string) { forall i :: 0 <= i < |re| ==> re[i] != '*' && re[i] != '$' }

  /** A dot stands for any character, any other for itself. */
  ghost predicate Fits(re: string, text: string) {
    |re| <= |text| && forall i :: 0 <= i < |re| ==> re[i] == '.' || re[i] == text[i]
  }

  lemma {:induction false} PlainHere(re: string, text: string)
    requires Plain(re)
    ensures MatchesHere(re, text) <==> Fits(re, text)
    ensures MatchesHere(re + "$", text) <==> Fits(re, text) && |re| == |text|
    decreases |re|
  {
    if re == "" {
      assert re + "$" == "$";
      HereNone(text);
    } else {
      assert (re + "$")[1..] == re[1..] + "$" && (|re| == 1 ==> (re + "$")[1] == '$');
      HereOne(re, text);
      HereOne(re + "$", text);
      if text != "" {
        PlainHere(re[1..], text[1..]);
        assert Fits(re, text) <==> (re[0] == '.' || re[0] == text[0]) && Fits(re[1..], text[1..]) by {
          FitsMore(re, text);
        }
      }
    }
  }

  lemma FitsMore(re: string, text: string)
    requires re != "" && text != ""
    ensures Fits(re, text) <==> (re[0] == '.' || re[0] == text[0]) && Fits(re[1..], text[1..])
  {
    if (re[0] == '.' || re[0] == text[0]) && Fits(re[1..], text[1..]) {
      forall i | 0 <= i < |re| ensures re[i] == '.' || re[i] == text[i] {
        assert i > 0 ==> re[i] == re[1..][i - 1] && text[i] == text[1..][i - 1];
      }
    }
    if Fits(re, text) {
      forall i | 0 <= i < |re[1..]| ensures re[1..][i] == '.' || re[1..][i] == text[1..][i] {
        assert re[1..][i] == re[i + 1] && text[1..][i] == text[i + 1];
      }
    }
  }

  /** Without special characters but dots, grep finds the lines that contain the
      pattern, ^ those that begin with it, $ those that end with it. A starred
      character alone between ^ and $ is the lines made of it. */
  lemma PlainMatches(re: string, c: char, text: string)
    requires Plain(re) && (re != "" ==> re[0] != '^')
    ensures MatchesAny(re, text) <==> exists i :: 0 <= i <= |text| && Fits(re, text[i..])
    ensures MatchesAny("^" + re, text) <==> Fits(re, text)
    ensures MatchesAny(re + "$", text) <==> |re| <= |text| && Fits(re, text[|text| - |re|..])
    ensures MatchesAny("^" + [c] + "*$", text) <==> forall i :: 0 <= i < |text| ==> c == '.' || text[i] == c
  {
    forall i | 0 <= i <= |text|
      ensures MatchesHere(re, text[i..]) <==> Fits(re, text[i..])
      ensures MatchesHere(re + "$", text[i..]) <==> Fits(re, text[i..]) && i == |text| - |re|
    {
      PlainHere(re, text[i..]);
    }
    PlainHere(re, text);
    assert ("^" + re)[1..] == re;
    if |re| <= |text| && Fits(re, text[|text| - |re|..]) {
      assert MatchesHere(re + "$", text[|text| - |re|..]);
    }
    Starred(c, text);
  }

  lemma Starred(c: char, text: string)
    ensures MatchesAny("^" + [c] + "*$", text) <==> forall i :: 0 <= i < |text| ==> c == '.' || text[i] == c
  {
    var re := [c] + "*$";
    assert ("^" + [c] + "*$")[1..] == re && re[2..] == "$";
    HereStar(re, text);
    forall k: nat | k <= |text| ensures MatchesHere("$", text[k..]) <==> k == |text| {
      HereNone(text[k..]);
    }
    if forall i :: 0 <= i < |text| ==> c == '.' || text[i] == c {
      assert StarSplit(c, "$", text, |text|);
    }
  }

  // The matcher

  /** Characters of C strings, with the NUL at the end. */
  function At(s: string, i: nat): (c: char) { if i < |s| then s[i] else 0 as char }

  ghost predicate CString(s: string) { forall i :: 0 <= i < |s| ==> s[i] as int != 0 }

  method MatchHere(re: string, text: string) returns (r: bool)
    requires CString(re) && CString(text)
    ensures r <==> MatchesHere(re, text)
    decreases |re|, 0
  {
    HereNone(text);
    if At(re, 0) as int == 0 {
      return true;
    }
    if At(re, 1) == '*' {
      HereStar(re, text);
      r := MatchStar(re[0], re[2..], text);
      return;
    }
    if At(re, 0) == '$' && At(re, 1) as int == 0 {
      assert re == "$";
      return At(text, 0) as int == 0;
    }
    HereOne(re, text);
    if At(text, 0) as int != 0 && (re[0] == '.' || re[0] == text[0]) {
      r := MatchHere(re[1..], text[1..]);
      return;
    }
    return false;
  }

  method MatchStar(c: char, re: string, text: string) returns (r: bool)
    requires CString(re) && CString(text)
    ensures r <==> exists k: nat :: StarSplit(c, re, text, k)
    decreases |re|, 1
  {
    var i := 0;
    while true
      invariant i <= |text| && forall j :: 0 <= j < i ==> Accepts(AtomOf(c), text[j])
      invariant forall k :: 0 <= k < i ==> !StarSplit(c, re, text, k)
      decreases |text| - i
    {
      var here := MatchHere(re, text[i..]);
      if here {
        assert StarSplit(c, re, text, i);
        return true;
      }
      if !(At(text, i) as int != 0 && (text[i] == c || c == '.')) {
        return false;
      }
      i := i + 1;
    }
  }

  method Match(re: string, text: string) returns (r: bool)
    requires CString(re) && CString(text)
    ensures r <==> MatchesAny(re, text)
  {
    if At(re, 0) == '^' {
      r := MatchHere(re[1..], text);
      return;
    }
    var i := 0;
    while true
      invariant i <= |text| && forall j :: 0 <= j < i ==> !MatchesHere(re, text[j..])
      decreases |text| - i
    {
      r := MatchHere(re, text[i..]);
      if r {
        return;
      }
      if At(text, i) as int == 0 {
        return false;
      }
      i := i + 1;
    }
  }
}
