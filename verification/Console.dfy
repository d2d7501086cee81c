/** The console's line discipline (console.c): a 128-character buffer with three
    wrapping indices, edited by consoleintr and drained by consoleread. */
module Console {
  import opened Counters

  const INPUT_BUF := 128

  type Byte = x: nat | x < 256

  const NEWLINE: Byte := 10
  const RETURN: Byte := 13
  const BACKSPACE: Byte := 8
  const DELETE: Byte := 127
  const EOT: Byte := 4
  const KILL: Byte := 21
  const DUMP: Byte := 16

  /** What the buffer stands for: all characters ever committed to readers, how many
      of them were consumed, the line being edited, and whether a reader sleeps. */
  datatype Input = Input(done: seq<Byte>, taken: nat, edit: seq<Byte>, asleep: bool)

  /** In indices: r <= w <= e <= r + 128. A full buffer is all committed, and the
      line being edited has no newline and no ^D. */
  ghost predicate Sound(l: Input) {
    && l.taken <= |l.done| && |l.done| + |l.edit| <= l.taken + INPUT_BUF
    && (|l.done| + |l.edit| == l.taken + INPUT_BUF ==> l.edit == [])
    && (forall i :: 0 <= i < |l.edit| ==> l.edit[i] != NEWLINE && l.edit[i] != EOT)
    && (l.asleep ==> l.taken == |l.done|)
  }

  /** One character from the keyboard. */
  function Press(l: Input, c: Byte): (r: Input)
    requires l.taken <= |l.done|
  {
    if c == DUMP then l
    else if c == KILL then l.(edit := [])
    else if c == BACKSPACE || c == DELETE then
      if l.edit == [] then l else l.(edit := l.edit[..|l.edit| - 1])
    else if c == 0 || |l.done| + |l.edit| - l.taken >= INPUT_BUF then l
    else
      var d := if c == RETURN then NEWLINE else c;
      var line := l.edit + [d];
      if d == NEWLINE || d == EOT || |l.done| + |line| == l.taken + INPUT_BUF
      then Input(l.done + line, l.taken, [], false)
      else l.(edit := line)
  }

  datatype Outcome = Done | Failed | Asleep

  /** A stretch of consoleread under the lock: `got` was read before, at most
      `target` in all. */
  function Drain(l: Input, got: seq<Byte>, target: nat, killed: bool): (r: (Input, seq<Byte>, Outcome))
    requires l.taken <= |l.done| && |got| <= target
    ensures |r.1| <= target && r.0.taken <= |r.0.done|
    decreases target - |got|
  {
    if |got| == target then (l, got, Done)
    else if l.taken == |l.done| then
      if killed then (l, got, Failed) else (l.(asleep := true), got, Asleep)
    else
      var c := l.done[l.taken];
      var next := l.(taken := l.taken + 1);
      if c == EOT then (if got != [] then l else next, got, Done)
      else if c == NEWLINE then (next, got + [c], Done)
      else Drain(next, got + [c], target, killed)
  }

  // What typing comes to

  predicate Erases(c: Byte) { c == BACKSPACE || c == DELETE }

  predicate Ends(c: Byte) { c == 10 || c == 13 || c == 4 }

  function CharOf(c: Byte): (r: Byte) { if c == 13 then 10 else c }

  /** The line that the keys leave, read from the last one back: a key that erases
      takes away the nearest character to its left that is not taken yet, ^U all of
      them, and ^P and NUL stand for nothing. */
  function Line(keys: seq<Byte>, erased: nat): (r: seq<Byte>)
    decreases |keys|
  {
    if keys == [] then []
    else
      var c, before := keys[|keys| - 1], keys[..|keys| - 1];
      if c == 21 then []
      else if c == 8 || c == 127 then Line(before, erased + 1)
      else if c == 16 || c == 0 then Line(before, erased)
      else if erased > 0 then Line(before, erased - 1)
      else Line(before, 0) + [c]
  }

  function Presses(l: Input, keys: seq<Byte>): (r: Input)
    requires l.taken <= |l.done|
    ensures r.taken <= |r.done|
    decreases |keys|
  {
    if keys == [] then l else Press(Presses(l, keys[..|keys| - 1]), keys[|keys| - 1])
  }

  function Shorter(s: seq<Byte>, n: nat): (r: seq<Byte>) { if n <= |s| then s[..|s| - n] else [] }

  lemma {:induction false} LineShorter(keys: seq<Byte>, n: nat)
    ensures Line(keys, n) == Shorter(Line(keys, 0), n) && |Line(keys, 0)| <= |keys|
    decreases |keys|
  {
    if keys != [] {
      var c, before := keys[|keys| - 1], keys[..|keys| - 1];
      LineShorter(before, n);
      LineShorter(before, n + 1);
      LineShorter(before, 1);
      if n > 0 {
        LineShorter(before, n - 1);
      }
      var x := Line(before, 0);
      assert Shorter(x, 0) == x && Shorter(Shorter(x, 1), n) == Shorter(x, n + 1);
      assert n > 0 ==> Shorter(x + [c], n) == Shorter(x, n - 1);
    }
  }

  lemma {:induction false} LinePlain(edit: seq<Byte>)
    requires forall i :: 0 <= i < |edit| ==> Typed(edit[i])
    ensures Line(edit, 0) == edit
    decreases |edit|
  {
    if edit != [] {
      LinePlain(edit[..|edit| - 1]);
    }
  }

  /** A character of a line, as opposed to a key that does something to it. */
  predicate Typed(c: Byte) { !Erases(c) && !Ends(c) && c != KILL && c != DUMP && c != 0 }

  ghost predicate AllTyped(s: seq<Byte>) { forall i :: 0 <= i < |s| ==> Typed(s[i]) }

  ghost predicate NoneEnds(s: seq<Byte>) { forall i :: 0 <= i < |s| ==> !Ends(s[i]) }

  /** With room in the buffer, keys that end no line leave the line that Line says, and
      nothing else changes. */
  lemma {:induction false} TypedLine(l: Input, keys: seq<Byte>)
    requires Sound(l) && AllTyped(l.edit) && NoneEnds(keys)
    requires |l.done| + |l.edit| + |keys| < l.taken + INPUT_BUF
    ensures Presses(l, keys) == l.(edit := Line(l.edit + keys, 0)) && |Line(l.edit + keys, 0)| <= |l.edit| + |keys|
    decreases |keys|
  {
    hide Press, Line, Ends;
    LineShorter(l.edit + keys, 0);
    if keys == [] {
      LinePlain(l.edit);
      assert l.edit + [] == l.edit;
    } else {
      var c, before := keys[|keys| - 1], keys[..|keys| - 1];
      TypedLine(l, before);
      assert l.edit + keys == l.edit + before + [c];
      LineKey(l.edit + before, c);
      PressLine(l.(edit := Line(l.edit + before, 0)), c);
    }
  }

  lemma LineKey(keys: seq<Byte>, c: Byte)
    ensures var x := Line(keys, 0);
            Line(keys + [c], 0) == if c == 21 then [] else if c == 8 || c == 127 then Shorter(x, 1)
                                   else if c == 16 || c == 0 then x else x + [c]
  {
    assert (keys + [c])[..|keys|] == keys;
    LineShorter(keys, 1);
  }

  lemma PressLine(l: Input, c: Byte)
    requires l.taken <= |l.done| && !Ends(c) && |l.done| + |l.edit| + 1 < l.taken + INPUT_BUF
    ensures Press(l, c) == l.(edit := if c == 21 then [] else if c == 8 || c == 127 then Shorter(l.edit, 1)
                                      else if c == 16 || c == 0 then l.edit else l.edit + [c])
  {
  }

  /** A key that ends the line commits it, with the newline or ^D, and wakes readers. */
  lemma TypedEnd(l: Input, keys: seq<Byte>, c: Byte)
    requires Sound(l) && AllTyped(l.edit) && NoneEnds(keys) && Ends(c)
    requires |l.done| + |l.edit| + |keys| < l.taken + INPUT_BUF
    ensures Presses(l, keys + [c]) == Input(l.done + (Line(l.edit + keys, 0) + [CharOf(c)]), l.taken, [], false)
  {
    hide Line, Press, Ends, CharOf;
    TypedLine(l, keys);
    assert (keys + [c])[..|keys|] == keys && (keys + [c])[|keys|] == c;
    PressEnd(Presses(l, keys), c);
  }

  lemma PressEnd(l: Input, c: Byte)
    requires l.taken <= |l.done| && Ends(c) && |l.done| + |l.edit| < l.taken + INPUT_BUF
    ensures Press(l, c) == Input(l.done + (l.edit + [CharOf(c)]), l.taken, [], false)
  {
  }

  /** Lines typed one after the other: the keys of each, and the key that ends it. */
  datatype Entry = Entry(keys: seq<Byte>, end: Byte)

  ghost predicate Entries(es: seq<Entry>) { forall i :: 0 <= i < |es| ==> NoneEnds(es[i].keys) && Ends(es[i].end) }

  function Stroke(es: seq<Entry>): (r: seq<Byte>) {
    if es == [] then [] else Stroke(es[..|es| - 1]) + (es[|es| - 1].keys + [es[|es| - 1].end])
  }

  function Lines(es: seq<Entry>): (r: seq<Byte>) {
    if es == [] then []
    else Lines(es[..|es| - 1]) + (Line(es[|es| - 1].keys, 0) + [CharOf(es[|es| - 1].end)])
  }

  lemma {:induction false} PressesMore(l: Input, a: seq<Byte>, b: seq<Byte>)
    requires l.taken <= |l.done|
    ensures Presses(l, a + b) == Presses(Presses(l, a), b)
    decreases |b|
  {
    if b == [] {
      assert a + b == a;
    } else {
      assert (a + b)[..|a + b| - 1] == a + b[..|b| - 1];
      PressesMore(l, a, b[..|b| - 1]);
    }
  }

  lemma NonePressed(l: Input)
    requires l.taken <= |l.done|
    ensures Presses(l, []) == l
  {
  }

  /** Over any lines that fit the buffer, readers are given exactly the edited lines. */
  lemma {:induction false} TypedLines(l: Input, es: seq<Entry>)
    requires l.taken <= |l.done| && Sound(l) && l.edit == [] && Entries(es)
    requires |l.done| + |Stroke(es)| <= l.taken + INPUT_BUF
    ensures Presses(l, Stroke(es)).done == l.done + Lines(es) && Presses(l, Stroke(es)).edit == []
    ensures |Lines(es)| <= |Stroke(es)| && Presses(l, Stroke(es)).taken == l.taken && Sound(Presses(l, Stroke(es)))
    decreases |es|
  {
    hide Line, Press, Presses, Ends, NoneEnds, CharOf, Sound;
    if es == [] {
      NonePressed(l);
      assert l.done + [] == l.done;
    } else {
      var e, before := es[|es| - 1], es[..|es| - 1];
      TypedLines(l, before);
      PressesMore(l, Stroke(before), e.keys + [e.end]);
      OneMoreLine(Presses(l, Stroke(before)), e);
      var line := Line(e.keys, 0) + [CharOf(e.end)];
      assert l.done + Lines(before) + line == l.done + Lines(es);
    }
  }

  lemma OneMoreLine(m: Input, e: Entry)
    requires m.taken <= |m.done| && Sound(m) && m.edit == [] && NoneEnds(e.keys) && Ends(e.end)
    requires |m.done| + |e.keys| + 1 <= m.taken + INPUT_BUF
    ensures Presses(m, e.keys + [e.end]) == Input(m.done + (Line(e.keys, 0) + [CharOf(e.end)]), m.taken, [], false)
    ensures Sound(Presses(m, e.keys + [e.end])) && |Line(e.keys, 0)| <= |e.keys|
  {
    hide Line, Press;
    assert [] + e.keys == e.keys;
    TypedEnd(m, e.keys, e.end);
    LineShorter(e.keys, 0);
    PressesSound(m, e.keys + [e.end]);
  }

  lemma {:induction false} PressesSound(l: Input, keys: seq<Byte>)
    requires Sound(l)
    ensures Sound(Presses(l, keys))
    decreases |keys|
  {
    if keys != [] {
      PressesSound(l, keys[..|keys| - 1]);
      PressSound(Presses(l, keys[..|keys| - 1]), keys[|keys| - 1]);
    }
  }

  /** What one key does to a full buffer and to one that it fills. */
  lemma FullBuffer(l: Input, c: Byte)
    requires Sound(l) && Typed(c)
    ensures |l.done| + |l.edit| == l.taken + INPUT_BUF ==> Press(l, c) == l
    ensures |l.done| + |l.edit| + 1 == l.taken + INPUT_BUF ==>
              Press(l, c) == Input(l.done + (l.edit + [c]), l.taken, [], false)
  {
  }

  /** A character and a key that erases it leave no trace, unless the character filled
      the buffer. */
  lemma EraseUndoes(l: Input, c: Byte, d: Byte)
    requires Sound(l) && Typed(c) && Erases(d)
    ensures Press(Press(l, c), d) == l <==>
            |l.done| + |l.edit| + 1 != l.taken + INPUT_BUF
  {
    assert (l.edit + [c])[..|l.edit|] == l.edit;
  }

  // What reading comes to

  /** consoleread by the characters in front of it: m of them are plain, and then
      comes a newline, a ^D, or nothing yet. */
  lemma {:induction false} DrainIs(l: Input, got: seq<Byte>, target: nat, killed: bool, m: nat)
    requires l.taken + m <= |l.done| && |got| <= target
    requires forall i :: l.taken <= i < l.taken + m ==> l.done[i] != NEWLINE && l.done[i] != EOT
    requires l.taken + m < |l.done| ==> l.done[l.taken + m] == NEWLINE || l.done[l.taken + m] == EOT
    ensures var t := l.taken + m;
            var all := got + l.done[l.taken..t];
            var r := Drain(l, got, target, killed);
            if |got| + m >= target then
              r == (l.(taken := l.taken + target - |got|), got + l.done[l.taken..l.taken + target - |got|], Done)
            else if t == |l.done| then
              r == (l.(taken := t, asleep := l.asleep || !killed), all, if killed then Failed else Asleep)
            else if l.done[t] == NEWLINE then r == (l.(taken := t + 1), all + [NEWLINE], Done)
            else r == (l.(taken := if all == [] then t + 1 else t), all, Done)
    decreases m
  {
    assert l.done[l.taken..l.taken] == [] && got + [] == got;
    if m > 0 && |got| < target {
      var c := l.done[l.taken];
      var next := l.(taken := l.taken + 1);
      DrainIs(next, got + [c], target, killed, m - 1);
      DrainTaken(l, got, l.taken + m);
      if |got| + m >= target {
        DrainTaken(l, got, l.taken + target - |got|);
      }
    }
  }

  lemma DrainTaken(l: Input, got: seq<Byte>, j: nat)
    requires l.taken < j <= |l.done|
    ensures got + [l.done[l.taken]] + l.done[l.taken + 1..j] == got + l.done[l.taken..j]
  {
    assert l.done[l.taken..j] == [l.done[l.taken]] + l.done[l.taken + 1..j];
  }

  // What editing keeps

  /** Typing keeps the buffer in order, and what was committed stays as it was. */
  lemma PressSound(l: Input, c: Byte)
    requires Sound(l)
    ensures Sound(Press(l, c)) && l.done <= Press(l, c).done && Press(l, c).taken == l.taken
  {
  }

  lemma {:induction false} DrainSound(l: Input, got: seq<Byte>, target: nat, killed: bool)
    requires Sound(l) && |got| <= target
    ensures Sound(Drain(l, got, target, killed).0)
    decreases target - |got|
  {
    if |got| < target && l.taken < |l.done| && l.done[l.taken] != EOT && l.done[l.taken] != NEWLINE {
      DrainSound(l.(taken := l.taken + 1), got + [l.done[l.taken]], target, killed);
    }
  }

  /** Characters other than ^D, in order. */
  function Text(s: seq<Byte>): (r: seq<Byte>) {
    if s == [] then [] else Text(s[..|s| - 1]) + (if s[|s| - 1] == EOT then [] else [s[|s| - 1]])
  }

  /** A reader moves on through the committed characters and changes nothing else. */
  lemma {:induction false} DrainFrame(l: Input, got: seq<Byte>, target: nat, killed: bool)
    requires l.taken <= |l.done| && |got| <= target
    ensures var l' := Drain(l, got, target, killed).0;
            l.taken <= l'.taken <= |l.done| && l'.done == l.done && l'.edit == l.edit
    decreases target - |got|
  {
    if |got| < target && l.taken < |l.done| && l.done[l.taken] != EOT && l.done[l.taken] != NEWLINE {
      DrainFrame(l.(taken := l.taken + 1), got + [l.done[l.taken]], target, killed);
    }
  }

  lemma TextOne(c: Byte)
    ensures Text([c]) == (if c == EOT then [] else [c]) && Text([]) == []
  {
    assert [c][..0] == [];
  }

  lemma TextCons(s: seq<Byte>, i: nat, j: nat)
    requires i < j <= |s|
    ensures Text(s[i..j]) == (if s[i] == EOT then [] else [s[i]]) + Text(s[i + 1..j])
  {
    assert s[i..j] == [s[i]] + s[i + 1..j];
    TextSplit([s[i]], s[i + 1..j]);
    TextOne(s[i]);
  }

  lemma OneOf(s: seq<Byte>, i: nat)
    requires i < |s|
    ensures s[i..i + 1] == [s[i]]
  {
  }

  /** A reader gets the committed characters in order, short of ^D, and no other. */
  lemma {:induction false} DrainGives(l: Input, got: seq<Byte>, target: nat, killed: bool)
    requires l.taken <= |l.done| && |got| <= target
    ensures var (l', all, _) := Drain(l, got, target, killed);
            l.taken <= l'.taken <= |l.done| && all == got + Text(l.done[l.taken..l'.taken])
    decreases target - |got|
  {
    hide Text;
    DrainFrame(l, got, target, killed);
    TextOne(0);
    var t := l.taken;
    assert l.done[t..t] == [] && got + [] == got;
    if |got| < target && t < |l.done| {
      var c := l.done[t];
      TextOne(c);
      OneOf(l.done, t);
      if c != EOT && c != NEWLINE {
        var next := l.(taken := t + 1);
        DrainFrame(next, got + [c], target, killed);
        var t' := Drain(next, got + [c], target, killed).0.taken;
        DrainGives(next, got + [c], target, killed);
        TextCons(l.done, t, t');
        assert got + [c] + Text(l.done[t + 1..t']) == got + ([c] + Text(l.done[t + 1..t']));
      }
    }
  }

  /** A ^D is consumed only for a result of length 0. */
  lemma {:induction false} DrainEof(l: Input, got: seq<Byte>, target: nat, killed: bool, k: nat)
    requires l.taken <= |l.done| && |got| <= target
    requires l.taken <= k < Drain(l, got, target, killed).0.taken && k < |l.done| && l.done[k] == EOT
    ensures Drain(l, got, target, killed).1 == []
    decreases target - |got|
  {
    if |got| < target && l.taken < |l.done| && l.done[l.taken] != EOT && l.done[l.taken] != NEWLINE {
      DrainEof(l.(taken := l.taken + 1), got + [l.done[l.taken]], target, killed, k);
    }
  }

  lemma {:induction false} TextSplit(a: seq<Byte>, b: seq<Byte>)
    ensures Text(a + b) == Text(a) + Text(b)
    decreases |b|
  {
    if b == [] {
      assert a + b == a && Text(a) + [] == Text(a);
    } else {
      var c := b[|b| - 1];
      assert (a + b)[..|a + b| - 1] == a + b[..|b| - 1];
      TextSplit(a, b[..|b| - 1]);
    }
  }

  /** A read that stops in front of a ^D with characters in hand leaves it, and the
      next read of anything returns 0 at once and consumes it. */
  lemma {:induction false} SavedEof(l: Input, got: seq<Byte>, target: nat, killed: bool, n: nat, killed': bool)
    requires l.taken <= |l.done| && |got| <= target && n > 0
    ensures var (l', all, r) := Drain(l, got, target, killed);
            r == Done && |all| < target && all != [] && all[|all| - 1] != NEWLINE
            && (got != [] ==> got[|got| - 1] != NEWLINE) ==>
              && l'.taken < |l'.done| && l'.done[l'.taken] == EOT
              && Drain(l', [], n, killed') == (l'.(taken := l'.taken + 1), [], Done)
    decreases target - |got|
  {
    if |got| < target && l.taken < |l.done| && l.done[l.taken] != EOT && l.done[l.taken] != NEWLINE {
      SavedEof(l.(taken := l.taken + 1), got + [l.done[l.taken]], target, killed, n, killed');
    }
  }

  ghost predicate EndsLine(s: seq<Byte>) { forall i :: 0 <= i < |s| - 1 ==> s[i] != NEWLINE }

  /** A whole result ends with its only newline, if it has one. */
  lemma {:induction false} OneLine(l: Input, got: seq<Byte>, target: nat, killed: bool)
    requires l.taken <= |l.done| && |got| <= target && forall i :: 0 <= i < |got| ==> got[i] != NEWLINE
    ensures EndsLine(Drain(l, got, target, killed).1)
    decreases target - |got|
  {
    if |got| < target && l.taken < |l.done| && l.done[l.taken] != EOT && l.done[l.taken] != NEWLINE {
      var next, more := l.(taken := l.taken + 1), got + [l.done[l.taken]];
      OneLine(next, more, target, killed);
      assert Drain(l, got, target, killed) == Drain(next, more, target, killed);
    } else if |got| < target && l.taken < |l.done| && l.done[l.taken] == NEWLINE {
      assert Drain(l, got, target, killed).1 == got + [NEWLINE];
    } else {
      assert Drain(l, got, target, killed).1 == got;
    }
  }

  // Every run

  /** Reads is one stretch of a consoleread that has `before` in hand; Leaves is a
      killed reader waking. */
  datatype Step = Key(c: Byte) | Reads(before: seq<Byte>, target: nat, killed: bool) | Leaves

  ghost predicate Sane(steps: seq<Step>) {
    forall i :: 0 <= i < |steps| && steps[i].Reads? ==> |steps[i].before| <= steps[i].target
  }

  function After(l: Input, a: Step): (r: Input)
    requires l.taken <= |l.done| && (a.Reads? ==> |a.before| <= a.target)
    ensures r.taken <= |r.done|
  {
    match a
    case Key(c) => Press(l, c)
    case Reads(before, target, killed) => Drain(l, before, target, killed).0
    case Leaves => l.(asleep := false)
  }

  /** The characters a step hands to its reader. */
  ghost function Given(l: Input, a: Step): (r: seq<Byte>)
    requires l.taken <= |l.done| && (a.Reads? ==> |a.before| <= a.target)
  {
    if a.Reads? then
      DrainGives(l, a.before, a.target, a.killed);
      Drain(l, a.before, a.target, a.killed).1[|a.before|..]
    else []
  }

  ghost function Runs(steps: seq<Step>): (r: Input)
    requires Sane(steps)
    ensures r.taken <= |r.done|
  {
    if steps == [] then Input([], 0, [], false) else After(Runs(steps[..|steps| - 1]), steps[|steps| - 1])
  }

  ghost function AllGiven(steps: seq<Step>): (r: seq<Byte>)
    requires Sane(steps)
  {
    if steps == [] then []
    else AllGiven(steps[..|steps| - 1]) + Given(Runs(steps[..|steps| - 1]), steps[|steps| - 1])
  }

  lemma StepGives(l: Input, a: Step)
    requires Sound(l) && (a.Reads? ==> |a.before| <= a.target)
    ensures var l' := After(l, a);
            Sound(l') && l.done <= l'.done && l.taken <= l'.taken <= |l'.done|
            && Text(l'.done[..l'.taken]) == Text(l.done[..l.taken]) + Given(l, a)
  {
    hide Text, Drain;
    var l' := After(l, a);
    TextOne(0);
    match a
    case Key(c) =>
      PressSound(l, c);
      assert l'.done[..l.taken] == l.done[..l.taken];
    case Reads(before, target, killed) =>
      DrainSound(l, before, target, killed);
      DrainFrame(l, before, target, killed);
      DrainGives(l, before, target, killed);
      TextSplit(l.done[..l.taken], l.done[l.taken..l'.taken]);
      assert l.done[..l.taken] + l.done[l.taken..l'.taken] == l'.done[..l'.taken];
    case Leaves =>
      assert Text(l.done[..l.taken]) + [] == Text(l.done[..l.taken]);
  }

  /** Over every run of key presses and reads, the buffer stays in order and the
      readers together have the consumed characters, without the ^Ds, in order. */
  lemma {:induction false} ReadInOrder(steps: seq<Step>)
    requires Sane(steps)
    ensures Sound(Runs(steps)) && AllGiven(steps) == Text(Runs(steps).done[..Runs(steps).taken])
    decreases |steps|
  {
    hide After, Given, Text;
    if steps == [] {
      TextOne(0);
    } else {
      ReadInOrder(steps[..|steps| - 1]);
      StepGives(Runs(steps[..|steps| - 1]), steps[|steps| - 1]);
    }
  }

  // The buffer

  /** The characters not yet consumed, committed or not, each where its number says. */
  ghost predicate Tied(buf: seq<Byte>, r: nat, w: nat, e: nat, done: seq<Byte>, taken: nat, edit: seq<Byte>) {
    && |buf| == INPUT_BUF
    && r == taken % WORD && w == |done| % WORD && e == (|done| + |edit|) % WORD
    && (forall k :: taken <= k < |done| ==> buf[k % INPUT_BUF] == done[k])
    && forall k :: |done| <= k < |done| + |edit| ==> buf[k % INPUT_BUF] == edit[k - |done|]
  }

  class Keyboard {
    var buf: array<Byte>
    var r: nat
    var w: nat
    var e: nat
    ghost var input: Input

    ghost predicate Valid()
      reads this, buf
    {
      Sound(input) && Tied(buf[..], r, w, e, input.done, input.taken, input.edit)
    }

    constructor ()
      ensures Valid() && fresh(buf) && input == Input([], 0, [], false)
    {
      buf := new Byte[INPUT_BUF](_ => 0);
      r, w, e := 0, 0, 0;
      input := Input([], 0, [], false);
    }

    /** input.e-- */
    method Erase()
      requires Valid() && input.edit != []
      modifies this
      ensures Valid() && buf == old(buf) && input == old(input).(edit := old(input).edit[..|old(input).edit| - 1])
    {
      Before(|input.done| + |input.edit|);
      e := (e + WORD - 1) % WORD;
      input := input.(edit := input.edit[..|input.edit| - 1]);
    }

    /** ^U. The newline that the loop looks for is never found short of w. */
    method KillLine()
      requires Valid()
      modifies this
      ensures Valid() && buf == old(buf) && input == old(input).(edit := [])
    {
      hide Tied, Sound;
      var more := MayErase();
      while more
        invariant Valid() && buf == old(buf) && (more <==> input.edit != [])
        invariant input == old(input).(edit := input.edit)
        decreases |input.edit|
      {
        Erase();
        more := MayErase();
      }
    }

    /** The loop test of ^U. */
    method MayErase() returns (more: bool)
      requires Valid()
      ensures more <==> input.edit != []
    {
      ghost var n := |input.done| + |input.edit|;
      Apart(|input.done|, n);
      if e == w {
        return false;
      }
      Before(n);
      SameSlot(n - 1, INPUT_BUF);
      assert buf[..][(n - 1) % INPUT_BUF] == input.edit[|input.edit| - 1];
      return buf[(e + WORD - 1) % WORD % INPUT_BUF] != NEWLINE;
    }

    /** consoleintr for one character. */
    method Intr(key: Byte)
      requires Valid()
      modifies this, buf
      ensures Valid() && buf == old(buf) && input == Press(old(input), key)
    {
      hide Tied;
      PressSound(input, key);
      if key == DUMP {
      } else if key == KILL {
        KillLine();
      } else if key == BACKSPACE || key == DELETE {
        var more := Edited();
        if more {
          Erase();
        }
      } else {
        var room := HasRoom();
        if key != 0 && room {
          var c := if key == RETURN then NEWLINE else key;
          Put(c);
          var full := FullWith(c);
          if c == NEWLINE || c == EOT || full {
            w := e;
            Committed(buf[..], r, w, e, input, c);
          }
          input := Press(input, key);
        }
      }
    }

    method Edited() returns (more: bool)
      requires Valid()
      ensures more <==> input.edit != []
    {
      Apart(|input.done|, |input.done| + |input.edit|);
      return e != w;
    }

    /** input.e - input.r < INPUT_BUF, in 32-bit arithmetic. */
    method HasRoom() returns (room: bool)
      requires Valid()
      ensures room <==> |input.done| + |input.edit| < input.taken + INPUT_BUF
    {
      Apart(input.taken, |input.done| + |input.edit|);
      return (e + WORD - r) % WORD < INPUT_BUF;
    }

    /** input.e == input.r + INPUT_BUF, after c went in. */
    method FullWith(ghost c: Byte) returns (full: bool)
      requires Tied(buf[..], r, w, e, input.done, input.taken, input.edit + [c])
      requires Sound(input) && |input.done| + |input.edit| < input.taken + INPUT_BUF
      ensures full <==> |input.done| + |input.edit| + 1 == input.taken + INPUT_BUF
    {
      Apart(input.taken, |input.done| + |input.edit| + 1);
      return e == (r + INPUT_BUF) % WORD;
    }

    /** consoleread between two sleeps. */
    method Read(before: seq<Byte>, target: nat, killed: bool) returns (got: seq<Byte>, result: Outcome)
      requires Valid() && |before| <= target
      modifies this
      ensures Valid() && buf == old(buf) && (input, got, result) == Drain(old(input), before, target, killed)
    {
      hide Tied;
      DrainSound(input, before, target, killed);
      got := before;
      ghost var goal := Drain(input, before, target, killed);
      while |got| < target
        invariant Valid() && buf == old(buf) && |got| <= target
        invariant Drain(input, got, target, killed) == goal
        decreases target - |got|
      {
        DrainSound(input, got, target, killed);
        var empty := NothingCommitted();
        if empty {
          if killed {
            return got, Failed;
          }
          input := input.(asleep := true);
          return got, Asleep;
        }
        var c := Fetch();
        if c == EOT {
          if got != [] {
            Unfetch();
          }
          return got, Done;
        }
        got := got + [c];
        if c == NEWLINE {
          return got, Done;
        }
      }
      return got, Done;
    }

    method NothingCommitted() returns (empty: bool)
      requires Valid()
      ensures empty <==> input.taken == |input.done|
    {
      Apart(input.taken, |input.done|);
      return r == w;
    }

    method Fetch() returns (c: Byte)
      requires Valid() && input.taken < |input.done|
      modifies this
      ensures Valid() && buf == old(buf) && input == old(input).(taken := old(input).taken + 1)
      ensures buf.Length == INPUT_BUF && c == input.done[input.taken - 1] == buf[(input.taken - 1) % INPUT_BUF]
              && !input.asleep
    {
      SameSlot(input.taken, INPUT_BUF);
      NextCount(input.taken);
      c := buf[r % INPUT_BUF];
      assert c == buf[..][input.taken % INPUT_BUF];
      r := (r + 1) % WORD;
      input := input.(taken := input.taken + 1);
    }

    /** input.r--, right after Fetch. */
    method Unfetch()
      requires Valid() && 0 < input.taken && !input.asleep
      requires buf.Length == INPUT_BUF && buf[(input.taken - 1) % INPUT_BUF] == input.done[input.taken - 1]
      requires |input.done| + |input.edit| < input.taken - 1 + INPUT_BUF
               || (input.edit == [] && |input.done| == input.taken - 1 + INPUT_BUF)
      modifies this
      ensures Valid() && buf == old(buf) && input == old(input).(taken := old(input).taken - 1)
    {
      Before(input.taken);
      r := (r + WORD - 1) % WORD;
      input := input.(taken := input.taken - 1);
    }

    /** buf[e++ % INPUT_BUF] = c */
    method Put(c: Byte)
      requires Valid() && |input.done| + |input.edit| < input.taken + INPUT_BUF
      modifies `e, buf
      ensures Tied(buf[..], r, w, e, input.done, input.taken, input.edit + [c])
    {
      ghost var n := |input.done| + |input.edit|;
      SameSlot(n, INPUT_BUF);
      NextCount(n);
      forall k | input.taken <= k < n ensures k % INPUT_BUF != n % INPUT_BUF { OtherSlot(k, n, INPUT_BUF); }
      buf[e % INPUT_BUF] := c;
      e := (e + 1) % WORD;
    }
  }

  /** input.w = input.e commits the line. */
  lemma Committed(buf: seq<Byte>, r: nat, w: nat, e: nat, l: Input, c: Byte)
    requires w == e && exists v :: Tied(buf, r, v, e, l.done, l.taken, l.edit + [c])
    ensures Tied(buf, r, w, e, l.done + (l.edit + [c]), l.taken, [])
  {
  }

  // Counters

  lemma Before(k: nat)
    requires k > 0
    ensures (k % WORD + WORD - 1) % WORD == (k - 1) % WORD
  {
  }

  /** Counts no more than a buffer apart are told apart by their low 32 bits, and
      their difference is that of those. */
  lemma Apart(a: nat, b: nat)
    requires a <= b <= a + INPUT_BUF
    ensures a % WORD == b % WORD <==> a == b
    ensures (b % WORD + WORD - a % WORD) % WORD == b - a
    ensures b % WORD == (a % WORD + INPUT_BUF) % WORD <==> b == a + INPUT_BUF
  {
  }
}
