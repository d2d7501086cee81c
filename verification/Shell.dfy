/** The shell's parser (sh.c): gettoken and peek over a character buffer, recursive
    descent on top of them, and nulterminate. Positions are indices into the
    command line; the terminating NUL is the position |text|. */
module Shell {

  const MAXARGS := 10

  // Tokens

  predicate Blank(c: char) { c == ' ' || c == '\t' || c == '\r' || c == '\n' || c as int == 11 }

  predicate Symbol(c: char) { c in "<|>&;()" }

  /** A character that words are made of. */
  predicate Plain(c: char) { !Blank(c) && !Symbol(c) && c as int != 0 }

  /** *s, with the NUL at the end. */
  function At(text: string, s: nat): (c: char)
    requires s <= |text|
  {
    if s < |text| then text[s] else 0 as char
  }

  datatype Span = Span(q: nat, eq: nat)

  /** `kind` is what gettoken returns: 'a' for a word, '+' for >>, else the symbol. */
  datatype Tok = Tok(kind: char, at: Span)

  function Skip(text: string, s: nat): (r: nat)
    requires s <= |text|
    ensures s <= r <= |text|
    decreases |text| - s
  {
    if s < |text| && Blank(text[s]) then Skip(text, s + 1) else s
  }

  function WordEnd(text: string, s: nat): (r: nat)
    requires s <= |text|
    ensures s <= r <= |text|
    ensures s < |text| && !Blank(text[s]) && !Symbol(text[s]) ==> s < r
    decreases |text| - s
  {
    if s < |text| && !Blank(text[s]) && !Symbol(text[s]) then WordEnd(text, s + 1) else s
  }

  /** The token that starts at q, which is no blank. */
  function TokAt(text: string, q: nat): (r: Tok)
    requires q < |text| && !Blank(text[q])
    ensures r.at.q == q && q < r.at.eq <= |text|
  {
    if text[q] == '>' && q + 1 < |text| && text[q + 1] == '>' then Tok('+', Span(q, q + 2))
    else if Symbol(text[q]) then Tok(text[q], Span(q, q + 1))
    else Tok('a', Span(q, WordEnd(text, q)))
  }

  lemma {:induction false} SkipStops(text: string, s: nat)
    requires s <= |text|
    ensures var r := Skip(text, s); r < |text| ==> !Blank(text[r])
    decreases |text| - s
  {
    if s < |text| && Blank(text[s]) {
      SkipStops(text, s + 1);
    }
  }

  /** All tokens from position s on. */
  function Lex(text: string, s: nat): (r: seq<Tok>)
    requires s <= |text|
    decreases |text| - s
  {
    SkipStops(text, s);
    var q := Skip(text, s);
    if q == |text| then [] else [TokAt(text, q)] + Lex(text, TokAt(text, q).at.eq)
  }

  lemma {:induction false} SkipTwice(text: string, s: nat)
    requires s <= |text|
    ensures Skip(text, Skip(text, s)) == Skip(text, s)
    decreases |text| - s
  {
    if s < |text| && Blank(text[s]) {
      SkipTwice(text, s + 1);
    }
  }

  lemma LexSkip(text: string, s: nat)
    requires s <= |text|
    ensures Lex(text, Skip(text, s)) == Lex(text, s)
  {
    SkipTwice(text, s);
  }

  /** Which characters come between words: blank, tab, carriage return, newline and
      vertical tab separate them, the seven symbols are tokens of their own, and any
      other is part of a word. */
  lemma Separators(c: char)
    ensures var ts, x := Lex("a" + [c] + "b", 0), c as int;
            if x == 32 || x == 9 || x == 13 || x == 10 || x == 11 then
              ts == [Tok('a', Span(0, 1)), Tok('a', Span(2, 3))]
            else if c == '<' || c == '|' || c == '>' || c == '&' || c == ';' || c == '(' || c == ')' then
              ts == [Tok('a', Span(0, 1)), Tok(c, Span(1, 2)), Tok('a', Span(2, 3))]
            else ts == [Tok('a', Span(0, 3))]
  {
    var text := "a" + [c] + "b";
    assert |text| == 3 && text[0] == 'a' && text[1] == c && text[2] == 'b';
    assert !Symbol('a') && !Blank('a') && !Symbol('b') && !Blank('b');
    assert Lex(text, 3) == [];
    assert WordEnd(text, 3) == 3 && WordEnd(text, 2) == 3;
    assert Lex(text, 2) == [Tok('a', Span(2, 3))];
    assert WordEnd(text, 1) == (if Blank(c) || Symbol(c) then 1 else 3);
    assert WordEnd(text, 0) == WordEnd(text, 1);
  }

  /** One of the source's three blank-skipping loops. */
  method SkipBlanks(text: string, s: nat) returns (r: nat)
    requires s <= |text|
    ensures s <= r <= |text| && r == Skip(text, s) && (r < |text| ==> !Blank(text[r]))
    ensures Lex(text, r) == Lex(text, s)
  {
    r := s;
    while r < |text| && Blank(text[r])
      invariant s <= r <= |text| && Skip(text, r) == Skip(text, s)
    {
      r := r + 1;
    }
    LexSkip(text, s);
  }

  /** gettoken: the next token, or kind NUL at the end, and the position after it
      and the blanks that follow. */
  method GetToken(text: string, ps: nat) returns (tok: Tok, s: nat)
    requires ps <= |text| && forall i :: 0 <= i < |text| ==> text[i] as int != 0
    ensures ps <= s <= |text|
    ensures Lex(text, ps) == [] ==> tok.kind as int == 0 && s == |text|
    ensures Lex(text, ps) != [] ==> tok == Lex(text, ps)[0] && tok.kind as int != 0
    ensures Lex(text, ps) != [] ==> Lex(text, s) == Lex(text, ps)[1..]
  {
    s := SkipBlanks(text, ps);
    var q := s;
    var kind := At(text, s);
    if kind as int == 0 {
    } else if kind == '|' || kind == '(' || kind == ')' || kind == ';' || kind == '&' || kind == '<' {
      s := s + 1;
    } else if kind == '>' {
      s := s + 1;
      if At(text, s) == '>' {
        kind := '+';
        s := s + 1;
      }
    } else {
      kind := 'a';
      while s < |text| && !Blank(text[s]) && !Symbol(text[s])
        invariant q <= s <= |text| && WordEnd(text, s) == WordEnd(text, q)
      {
        s := s + 1;
      }
    }
    tok := Tok(kind, Span(q, s));
    s := SkipBlanks(text, s);
  }

  /** The next token's first character is one of toks. */
  predicate Next(ts: seq<Tok>, toks: string) {
    ts != [] && (ts[0].kind in toks || (ts[0].kind == '+' && '>' in toks))
  }

  method Peek(text: string, ps: nat, toks: string) returns (s: nat, found: bool)
    requires ps <= |text| && forall i :: 0 <= i < |text| ==> text[i] as int != 0
    requires forall c :: c in toks ==> Symbol(c)
    ensures ps <= s <= |text| && Lex(text, s) == Lex(text, ps)
    ensures found <==> Next(Lex(text, ps), toks)
    ensures s == |text| <==> Lex(text, ps) == []
  {
    s := SkipBlanks(text, ps);
    SkipTwice(text, ps);
    found := At(text, s) as int != 0 && At(text, s) in toks;
  }

  // The grammar, on tokens

  datatype Cmd =
    | Exec(argv: seq<Span>)
    | Redir(cmd: Cmd, file: Span, input: bool)
    | Pipe(left: Cmd, right: Cmd)
    | List(left: Cmd, right: Cmd)
    | Back(cmd: Cmd)

  datatype Parsed<+R> = Ok(cmd: Cmd, rest: R) | Panic(message: string)

  function Redirs(cmd: Cmd, ts: seq<Tok>): (r: Parsed<seq<Tok>>)
    ensures r.Ok? ==> |r.rest| <= |ts|
    decreases |ts|
  {
    if !Next(ts, "<>") then Ok(cmd, ts)
    else if |ts| < 2 || ts[1].kind != 'a' then Panic("missing file for redirection")
    else Redirs(Redir(cmd, ts[1].at, ts[0].kind == '<'), ts[2..])
  }

  /** The EXEC node that a chain of redirections leads to, given its arguments. */
  function SetArgs(ret: Cmd, argv: seq<Span>): (r: Cmd) {
    match ret
    case Redir(cmd, file, input) => Redir(SetArgs(cmd, argv), file, input)
    case _ => Exec(argv)
  }

  function Args(ret: Cmd, argv: seq<Span>, ts: seq<Tok>): (r: Parsed<seq<Tok>>)
    ensures r.Ok? ==> |r.rest| <= |ts|
    decreases |ts|
  {
    if ts == [] || Next(ts, "|)&;") then Ok(SetArgs(ret, argv), ts)
    else if ts[0].kind != 'a' then Panic("syntax")
    else if |argv| + 1 >= MAXARGS then Panic("too many args")
    else
      var r := Redirs(ret, ts[1..]);
      if r.Panic? then r else Args(r.cmd, argv + [ts[0].at], r.rest)
  }

  function ParseExecTokens(ts: seq<Tok>): (r: Parsed<seq<Tok>>)
    ensures r.Ok? ==> |r.rest| <= |ts|
    decreases |ts|, 1
  {
    if Next(ts, "(") then ParseBlockTokens(ts)
    else
      var r := Redirs(Exec([]), ts);
      if r.Panic? then r else Args(r.cmd, [], r.rest)
  }

  function ParseBlockTokens(ts: seq<Tok>): (r: Parsed<seq<Tok>>)
    requires Next(ts, "(")
    ensures r.Ok? ==> |r.rest| < |ts|
    decreases |ts|, 0
  {
    var r := ParseLineTokens(ts[1..]);
    if r.Panic? then r
    else if !Next(r.rest, ")") then Panic("syntax - missing )")
    else Redirs(r.cmd, r.rest[1..])
  }

  function ParsePipeTokens(ts: seq<Tok>): (r: Parsed<seq<Tok>>)
    ensures r.Ok? ==> |r.rest| <= |ts|
    decreases |ts|, 2
  {
    var r := ParseExecTokens(ts);
    if r.Panic? || !Next(r.rest, "|") then r
    else
      var r' := ParsePipeTokens(r.rest[1..]);
      if r'.Panic? then r' else Ok(Pipe(r.cmd, r'.cmd), r'.rest)
  }

  function Backs(cmd: Cmd, ts: seq<Tok>): (r: Parsed<seq<Tok>>)
    ensures r.Ok? && |r.rest| <= |ts|
    decreases |ts|
  {
    if Next(ts, "&") then Backs(Back(cmd), ts[1..]) else Ok(cmd, ts)
  }

  function ParseLineTokens(ts: seq<Tok>): (r: Parsed<seq<Tok>>)
    ensures r.Ok? ==> |r.rest| <= |ts|
    decreases |ts|, 3
  {
    var p := ParsePipeTokens(ts);
    if p.Panic? then p
    else
      var r := Backs(p.cmd, p.rest);
      if !Next(r.rest, ";") then r
      else
        var r' := ParseLineTokens(r.rest[1..]);
        if r'.Panic? then r' else Ok(List(r.cmd, r'.cmd), r'.rest)
  }

  function ParseTokens(ts: seq<Tok>): (r: Parsed<seq<Tok>>) {
    var r := ParseLineTokens(ts);
    if r.Ok? && r.rest != [] then Panic("syntax") else r
  }

  // The parser, on the character buffer

  ghost predicate CString(text: string) { forall i :: 0 <= i < |text| ==> text[i] as int != 0 }

  /** A parse method's answer is that of the grammar on the tokens from ps on. */
  ghost predicate Agrees(text: string, ps: nat, r: Parsed<nat>, spec: Parsed<seq<Tok>>) {
    match spec
    case Panic(message) => r == Panic(message)
    case Ok(cmd, rest) => r.Ok? && r.cmd == cmd && ps <= r.rest <= |text| && Lex(text, r.rest) == rest
  }

  method ParseRedirs(cmd: Cmd, text: string, ps: nat) returns (r: Parsed<nat>)
    requires ps <= |text| && CString(text)
    ensures Agrees(text, ps, r, Redirs(cmd, Lex(text, ps)))
  {
    var c, s, more := cmd, ps, true;
    s, more := Peek(text, s, "<>");
    while more
      invariant ps <= s <= |text| && (more <==> Next(Lex(text, s), "<>"))
      invariant Redirs(c, Lex(text, s)) == Redirs(cmd, Lex(text, ps))
      decreases |Lex(text, s)|
    {
      var tok, file;
      tok, s := GetToken(text, s);
      file, s := GetToken(text, s);
      if file.kind != 'a' {
        return Panic("missing file for redirection");
      }
      c := Redir(c, file.at, tok.kind == '<');
      s, more := Peek(text, s, "<>");
    }
    return Ok(c, s);
  }

  method ParseBlock(text: string, ps: nat) returns (r: Parsed<nat>)
    requires ps <= |text| && CString(text) && Next(Lex(text, ps), "(")
    ensures Agrees(text, ps, r, ParseBlockTokens(Lex(text, ps)))
    decreases |Lex(text, ps)|, 0
  {
    var s, found, tok;
    s, found := Peek(text, ps, "(");
    tok, s := GetToken(text, s);
    r := ParseLine(text, s);
    if r.Panic? {
      return;
    }
    s, found := Peek(text, r.rest, ")");
    if !found {
      return Panic("syntax - missing )");
    }
    tok, s := GetToken(text, s);
    r := ParseRedirs(r.cmd, text, s);
  }

  method ParseExec(text: string, ps: nat) returns (r: Parsed<nat>)
    requires ps <= |text| && CString(text)
    ensures Agrees(text, ps, r, ParseExecTokens(Lex(text, ps)))
    decreases |Lex(text, ps)|, 1
  {
    var s, found := Peek(text, ps, "(");
    if found {
      r := ParseBlock(text, s);
      return;
    }
    r := ParseRedirs(Exec([]), text, s);
    if r.Panic? {
      return;
    }
    var argv: seq<Span> := [];
    s, found := Peek(text, r.rest, "|)&;");
    while !found
      invariant r.Ok? && ps <= s <= |text| && (found <==> Next(Lex(text, s), "|)&;"))
      invariant Args(r.cmd, argv, Lex(text, s)) == ParseExecTokens(Lex(text, ps))
      decreases |Lex(text, s)|, !found
    {
      var tok;
      tok, s := GetToken(text, s);
      if tok.kind as int == 0 {
        break;
      }
      if tok.kind != 'a' {
        return Panic("syntax");
      }
      argv := argv + [tok.at];
      if |argv| >= MAXARGS {
        return Panic("too many args");
      }
      r := ParseRedirs(r.cmd, text, s);
      if r.Panic? {
        return;
      }
      s, found := Peek(text, r.rest, "|)&;");
    }
    return Ok(SetArgs(r.cmd, argv), s);
  }

  method ParsePipe(text: string, ps: nat) returns (r: Parsed<nat>)
    requires ps <= |text| && CString(text)
    ensures Agrees(text, ps, r, ParsePipeTokens(Lex(text, ps)))
    decreases |Lex(text, ps)|, 2
  {
    r := ParseExec(text, ps);
    if r.Panic? {
      return;
    }
    var s, found, tok;
    s, found := Peek(text, r.rest, "|");
    if !found {
      return Ok(r.cmd, s);
    }
    tok, s := GetToken(text, s);
    var right := ParsePipe(text, s);
    if right.Panic? {
      return right;
    }
    return Ok(Pipe(r.cmd, right.cmd), right.rest);
  }

  method ParseLine(text: string, ps: nat) returns (r: Parsed<nat>)
    requires ps <= |text| && CString(text)
    ensures Agrees(text, ps, r, ParseLineTokens(Lex(text, ps)))
    decreases |Lex(text, ps)|, 3
  {
    r := ParsePipe(text, ps);
    if r.Panic? {
      return;
    }
    var cmd := r.cmd;
    var s, found, tok;
    s, found := Peek(text, r.rest, "&");
    while found
      invariant ps <= s <= |text| && (found <==> Next(Lex(text, s), "&"))
      invariant Backs(cmd, Lex(text, s)) == Backs(r.cmd, Lex(text, r.rest))
      decreases |Lex(text, s)|
    {
      tok, s := GetToken(text, s);
      cmd := Back(cmd);
      s, found := Peek(text, s, "&");
    }
    s, found := Peek(text, s, ";");
    if !found {
      return Ok(cmd, s);
    }
    tok, s := GetToken(text, s);
    var right := ParseLine(text, s);
    if right.Panic? {
      return right;
    }
    return Ok(List(cmd, right.cmd), right.rest);
  }

  /** parsecmd up to nulterminate. */
  method ParseCmd(text: string) returns (r: Parsed<nat>)
    requires CString(text)
    ensures Agrees(text, 0, r, ParseTokens(Lex(text, 0)))
  {
    r := ParseLine(text, 0);
    if r.Panic? {
      return;
    }
    var s, found := Peek(text, r.rest, "");
    if s != |text| {
      return Panic("syntax");
    }
    return Ok(r.cmd, s);
  }

  // Command trees

  /** A command with its words written out. */
  datatype Tree =
    | TExec(argv: seq<string>)
    | TRedir(cmd: Tree, file: string, input: bool)
    | TPipe(left: Tree, right: Tree)
    | TList(left: Tree, right: Tree)
    | TBack(cmd: Tree)

  predicate Word(w: string) { w != "" && forall i :: 0 <= i < |w| ==> Plain(w[i]) }

  /** What the grammar can express: proper words, fewer than MAXARGS arguments. */
  predicate Printable(t: Tree) {
    match t
    case TExec(argv) => |argv| < MAXARGS && forall i :: 0 <= i < |argv| ==> Word(argv[i])
    case TRedir(cmd, file, _) => Printable(cmd) && Word(file)
    case TPipe(left, right) => Printable(left) && Printable(right)
    case TList(left, right) => Printable(left) && Printable(right)
    case TBack(cmd) => Printable(cmd)
  }

  function Str(text: string, a: Span): (r: string)
    requires a.q <= a.eq <= |text|
  {
    text[a.q..a.eq]
  }

  ghost predicate SpanIn(text: string, a: Span) { a.q <= a.eq <= |text| }

  /** Command c, whose spans lie in text, spells the tree t. */
  ghost predicate Spells(text: string, c: Cmd, t: Tree) {
    match c
    case Exec(argv) =>
      && t.TExec? && |argv| == |t.argv|
      && forall i :: 0 <= i < |argv| ==> SpanIn(text, argv[i]) && Str(text, argv[i]) == t.argv[i]
    case Redir(cmd, file, input) =>
      t.TRedir? && Spells(text, cmd, t.cmd) && SpanIn(text, file) && Str(text, file) == t.file && input == t.input
    case Pipe(left, right) => t.TPipe? && Spells(text, left, t.left) && Spells(text, right, t.right)
    case List(left, right) => t.TList? && Spells(text, left, t.left) && Spells(text, right, t.right)
    case Back(cmd) => t.TBack? && Spells(text, cmd, t.cmd)
  }

  // Which words a parsed command holds

  /** c's words are among S and no EXEC has too many. */
  ghost predicate Fine(c: Cmd, S: set<Span>) {
    match c
    case Exec(argv) => |argv| < MAXARGS && forall i :: 0 <= i < |argv| ==> argv[i] in S
    case Redir(cmd, file, _) => Fine(cmd, S) && file in S
    case Pipe(left, right) => Fine(left, S) && Fine(right, S)
    case List(left, right) => Fine(left, S) && Fine(right, S)
    case Back(cmd) => Fine(cmd, S)
  }

  ghost predicate WordsIn(ts: seq<Tok>, S: set<Span>) {
    forall i :: 0 <= i < |ts| && ts[i].kind == 'a' ==> ts[i].at in S
  }

  ghost predicate FineResult(r: Parsed<seq<Tok>>, S: set<Span>) {
    r.Ok? ==> Fine(r.cmd, S) && WordsIn(r.rest, S)
  }

  lemma {:induction false} RedirsFine(cmd: Cmd, ts: seq<Tok>, S: set<Span>)
    requires Fine(cmd, S) && WordsIn(ts, S)
    ensures FineResult(Redirs(cmd, ts), S)
    decreases |ts|
  {
    if Next(ts, "<>") && |ts| >= 2 && ts[1].kind == 'a' {
      RedirsFine(Redir(cmd, ts[1].at, ts[0].kind == '<'), ts[2..], S);
    }
  }

  lemma {:induction false} SetArgsFine(ret: Cmd, argv: seq<Span>, S: set<Span>)
    requires Fine(ret, S) && Fine(Exec(argv), S)
    ensures Fine(SetArgs(ret, argv), S)
    decreases ret
  {
    match ret
    case Redir(cmd, file, input) => SetArgsFine(cmd, argv, S);
    case _ =>
  }

  lemma {:induction false} ArgsFine(ret: Cmd, argv: seq<Span>, ts: seq<Tok>, S: set<Span>)
    requires Fine(ret, S) && Fine(Exec(argv), S) && WordsIn(ts, S)
    ensures FineResult(Args(ret, argv, ts), S)
    decreases |ts|
  {
    if ts == [] || Next(ts, "|)&;") {
      SetArgsFine(ret, argv, S);
    } else if ts[0].kind == 'a' && |argv| + 1 < MAXARGS {
      RedirsFine(ret, ts[1..], S);
      var r := Redirs(ret, ts[1..]);
      if r.Ok? {
        ArgsFine(r.cmd, argv + [ts[0].at], r.rest, S);
      }
    }
  }

  lemma {:induction false} ExecFine(ts: seq<Tok>, S: set<Span>)
    requires WordsIn(ts, S)
    ensures FineResult(ParseExecTokens(ts), S)
    decreases |ts|, 1
  {
    if Next(ts, "(") {
      LineFine(ts[1..], S);
      var r := ParseLineTokens(ts[1..]);
      if r.Ok? && Next(r.rest, ")") {
        RedirsFine(r.cmd, r.rest[1..], S);
      }
    } else {
      RedirsFine(Exec([]), ts, S);
      var r := Redirs(Exec([]), ts);
      if r.Ok? {
        ArgsFine(r.cmd, [], r.rest, S);
      }
    }
  }

  lemma {:induction false} PipeFine(ts: seq<Tok>, S: set<Span>)
    requires WordsIn(ts, S)
    ensures FineResult(ParsePipeTokens(ts), S)
    decreases |ts|, 2
  {
    ExecFine(ts, S);
    var r := ParseExecTokens(ts);
    if r.Ok? && Next(r.rest, "|") {
      PipeFine(r.rest[1..], S);
    }
  }

  lemma {:induction false} BacksFine(cmd: Cmd, ts: seq<Tok>, S: set<Span>)
    requires Fine(cmd, S) && WordsIn(ts, S)
    ensures FineResult(Backs(cmd, ts), S)
    decreases |ts|
  {
    if Next(ts, "&") {
      BacksFine(Back(cmd), ts[1..], S);
    }
  }

  lemma {:induction false} LineFine(ts: seq<Tok>, S: set<Span>)
    requires WordsIn(ts, S)
    ensures FineResult(ParseLineTokens(ts), S)
    decreases |ts|, 3
  {
    PipeFine(ts, S);
    var p := ParsePipeTokens(ts);
    if p.Ok? {
      BacksFine(p.cmd, p.rest, S);
      var r := Backs(p.cmd, p.rest);
      if Next(r.rest, ";") {
        LineFine(r.rest[1..], S);
      }
    }
  }

  // Words in the buffer

  /** The words of a command line: maximal runs of plain characters. */
  ghost predicate IsWord(text: string, a: Span) {
    && a.q < a.eq <= |text|
    && (forall i :: a.q <= i < a.eq ==> !Blank(text[i]) && !Symbol(text[i]))
    && (a.eq < |text| ==> Blank(text[a.eq]) || Symbol(text[a.eq]))
    && (a.q > 0 ==> Blank(text[a.q - 1]) || Symbol(text[a.q - 1]))
  }

  ghost function WordSpans(ts: seq<Tok>): (r: set<Span>) { set i | 0 <= i < |ts| && ts[i].kind == 'a' :: ts[i].at }

  lemma {:induction false} WordEndIs(text: string, s: nat)
    requires s <= |text|
    ensures var e := WordEnd(text, s);
            && (forall i :: s <= i < e ==> !Blank(text[i]) && !Symbol(text[i]))
            && (e < |text| ==> Blank(text[e]) || Symbol(text[e]))
    decreases |text| - s
  {
    if s < |text| && !Blank(text[s]) && !Symbol(text[s]) {
      WordEndIs(text, s + 1);
    }
  }

  lemma {:induction false} SkipBefore(text: string, s: nat)
    requires s <= |text|
    ensures Skip(text, s) > s ==> Blank(text[Skip(text, s) - 1])
    decreases |text| - s
  {
    if s < |text| && Blank(text[s]) {
      SkipBefore(text, s + 1);
    }
  }

  /** A place where no word is under way. */
  ghost predicate Between(text: string, s: nat) {
    && s <= |text|
    && (0 < s ==> Blank(text[s - 1]) || Symbol(text[s - 1]) || s == |text| || Blank(text[s]) || Symbol(text[s]))
  }

  lemma {:induction false} LexWords(text: string, s: nat, i: nat)
    requires Between(text, s) && i < |Lex(text, s)| && Lex(text, s)[i].kind == 'a'
    ensures IsWord(text, Lex(text, s)[i].at)
    decreases |text| - s
  {
    SkipStops(text, s);
    SkipBefore(text, s);
    var q := Skip(text, s);
    var tok := TokAt(text, q);
    WordEndIs(text, q);
    if i > 0 {
      LexWords(text, tok.at.eq, i - 1);
    }
  }

  /** Two words of one line are the same or apart, with a character between them. */
  lemma WordsApart(text: string, a: Span, b: Span)
    requires IsWord(text, a) && IsWord(text, b)
    ensures a == b || a.eq < b.q || b.eq < a.q
  {
  }

  // nulterminate

  ghost predicate Inside(c: Cmd, n: nat) {
    match c
    case Exec(argv) => forall i :: 0 <= i < |argv| ==> argv[i].eq < n
    case Redir(cmd, file, _) => Inside(cmd, n) && file.eq < n
    case Pipe(left, right) => Inside(left, n) && Inside(right, n)
    case List(left, right) => Inside(left, n) && Inside(right, n)
    case Back(cmd) => Inside(cmd, n)
  }

  /** Position i is the end of one of c's words. */
  ghost predicate EndsAt(c: Cmd, i: nat) {
    match c
    case Exec(argv) => exists k :: 0 <= k < |argv| && argv[k].eq == i
    case Redir(cmd, file, _) => EndsAt(cmd, i) || file.eq == i
    case Pipe(left, right) => EndsAt(left, i) || EndsAt(right, i)
    case List(left, right) => EndsAt(left, i) || EndsAt(right, i)
    case Back(cmd) => EndsAt(cmd, i)
  }

  method NulTerminate(buf: array<char>, c: Cmd)
    requires Inside(c, buf.Length)
    modifies buf
    ensures forall i :: 0 <= i < buf.Length ==> buf[i] == if EndsAt(c, i) then 0 as char else old(buf[i])
    decreases c
  {
    match c
    case Exec(argv) =>
      var i := 0;
      while i < |argv|
        invariant 0 <= i <= |argv|
        invariant forall j :: 0 <= j < buf.Length ==>
                  buf[j] == if EndsAt(Exec(argv[..i]), j) then 0 as char else old(buf[j])
      {
        buf[argv[i].eq] := 0 as char;
        EndsMore(argv, i);
        i := i + 1;
      }
      assert argv[..|argv|] == argv;
    case Redir(cmd, file, _) =>
      NulTerminate(buf, cmd);
      buf[file.eq] := 0 as char;
    case Pipe(left, right) =>
      NulTerminate(buf, left);
      NulTerminate(buf, right);
    case List(left, right) =>
      NulTerminate(buf, left);
      NulTerminate(buf, right);
    case Back(cmd) =>
      NulTerminate(buf, cmd);
  }

  lemma EndsMore(argv: seq<Span>, i: nat)
    requires i < |argv|
    ensures forall j :: EndsAt(Exec(argv[..i + 1]), j) <==> EndsAt(Exec(argv[..i]), j) || argv[i].eq == j
  {
    forall j ensures EndsAt(Exec(argv[..i + 1]), j) <==> EndsAt(Exec(argv[..i]), j) || argv[i].eq == j {
      if k :| 0 <= k < i && argv[k].eq == j {
        assert argv[..i][k] == argv[k] && argv[..i + 1][k] == argv[k];
      } else if argv[i].eq == j {
        assert argv[..i + 1][i] == argv[i];
      }
    }
  }

  /** The C string at q. */
  function CStr(b: seq<char>, q: nat): (r: string)
    decreases |b| - q
  {
    if q < |b| && b[q] as int != 0 then [b[q]] + CStr(b, q + 1) else ""
  }

  /** The command as exec and open see it: strings up to their NUL. */
  function CTree(b: seq<char>, c: Cmd): (r: Tree) {
    match c
    case Exec(argv) => TExec(seq(|argv|, i requires 0 <= i < |argv| => CStr(b, argv[i].q)))
    case Redir(cmd, file, input) => TRedir(CTree(b, cmd), CStr(b, file.q), input)
    case Pipe(left, right) => TPipe(CTree(b, left), CTree(b, right))
    case List(left, right) => TList(CTree(b, left), CTree(b, right))
    case Back(cmd) => TBack(CTree(b, cmd))
  }

  /** b is the buffer of text after nulterminate(c). */
  ghost predicate Terminated(text: string, b: seq<char>, c: Cmd) {
    && |b| == |text| + 1
    && forall i :: 0 <= i < |b| ==> b[i] == if EndsAt(c, i) then 0 as char else At(text, i)
  }

  ghost predicate AllWords(text: string, S: set<Span>) { forall a :: a in S ==> IsWord(text, a) }

  /** An end of a word of c lies in no word. */
  lemma {:induction false} EndsOutside(text: string, S: set<Span>, c: Cmd, a: Span, i: nat)
    requires AllWords(text, S) && Fine(c, S) && a in S && EndsAt(c, i)
    ensures !(a.q <= i < a.eq)
    decreases c
  {
    match c
    case Exec(argv) =>
      var k :| 0 <= k < |argv| && argv[k].eq == i;
      WordsApart(text, a, argv[k]);
    case Redir(cmd, file, _) =>
      if file.eq == i {
        WordsApart(text, a, file);
      } else {
        EndsOutside(text, S, cmd, a, i);
      }
    case Pipe(left, right) =>
      if EndsAt(left, i) {
        EndsOutside(text, S, left, a, i);
      } else {
        EndsOutside(text, S, right, a, i);
      }
    case List(left, right) =>
      if EndsAt(left, i) {
        EndsOutside(text, S, left, a, i);
      } else {
        EndsOutside(text, S, right, a, i);
      }
    case Back(cmd) => EndsOutside(text, S, cmd, a, i);
  }

  lemma {:induction false} CStrIs(b: seq<char>, q: nat, e: nat, w: string)
    requires q <= e < |b| && b[e] as int == 0 && b[q..e] == w && forall i :: q <= i < e ==> b[i] as int != 0
    ensures CStr(b, q) == w
    decreases e - q
  {
    if q < e {
      CStrIs(b, q + 1, e, w[1..]);
      assert b[q + 1..e] == w[1..];
      assert [b[q]] + w[1..] == w;
    }
  }

  /** A word of c, once terminated, reads as exactly its token. */
  lemma WordReads(text: string, S: set<Span>, b: seq<char>, c: Cmd, a: Span)
    requires CString(text) && AllWords(text, S) && Fine(c, S) && Terminated(text, b, c)
    requires a in S && EndsAt(c, a.eq)
    ensures CStr(b, a.q) == text[a.q..a.eq]
  {
    assert IsWord(text, a);
    forall i | a.q <= i < a.eq ensures b[i] == text[i] {
      if EndsAt(c, i) {
        EndsOutside(text, S, c, a, i);
      }
    }
    assert b[a.q..a.eq] == text[a.q..a.eq];
    CStrIs(b, a.q, a.eq, text[a.q..a.eq]);
  }

  /** Every part of a terminated command spells, in the old text, what its C
      strings read in the new buffer. */
  lemma {:induction false} TreeReads(text: string, S: set<Span>, b: seq<char>, whole: Cmd, c: Cmd)
    requires CString(text) && AllWords(text, S) && Fine(whole, S) && Terminated(text, b, whole) && Fine(c, S)
    requires forall i :: EndsAt(c, i) ==> EndsAt(whole, i)
    ensures Spells(text, c, CTree(b, c))
    decreases c
  {
    match c
    case Exec(argv) =>
      forall i | 0 <= i < |argv| ensures SpanIn(text, argv[i]) && Str(text, argv[i]) == CStr(b, argv[i].q) {
        assert EndsAt(c, argv[i].eq);
        assert IsWord(text, argv[i]);
        WordReads(text, S, b, whole, argv[i]);
      }
    case Redir(cmd, file, _) =>
      assert EndsAt(c, file.eq);
      assert IsWord(text, file);
      WordReads(text, S, b, whole, file);
      TreeReads(text, S, b, whole, cmd);
    case Pipe(left, right) =>
      TreeReads(text, S, b, whole, left);
      TreeReads(text, S, b, whole, right);
    case List(left, right) =>
      TreeReads(text, S, b, whole, left);
      TreeReads(text, S, b, whole, right);
    case Back(cmd) => TreeReads(text, S, b, whole, cmd);
  }

  lemma {:induction false} FineInside(text: string, S: set<Span>, c: Cmd)
    requires AllWords(text, S) && Fine(c, S)
    ensures Inside(c, |text| + 1)
    decreases c
  {
    match c
    case Exec(argv) =>
      forall i | 0 <= i < |argv| ensures argv[i].eq < |text| + 1 {
        assert IsWord(text, argv[i]);
      }
    case Redir(cmd, file, _) =>
      assert IsWord(text, file);
      FineInside(text, S, cmd);
    case Pipe(left, right) => FineInside(text, S, left); FineInside(text, S, right);
    case List(left, right) => FineInside(text, S, left); FineInside(text, S, right);
    case Back(cmd) => FineInside(text, S, cmd);
  }

  /** What a successful parse returns is made of words of the line. */
  lemma ParsedFine(text: string)
    ensures AllWords(text, WordSpans(Lex(text, 0)))
    ensures FineResult(ParseTokens(Lex(text, 0)), WordSpans(Lex(text, 0)))
  {
    var ts := Lex(text, 0);
    forall a | a in WordSpans(ts) ensures IsWord(text, a) {
      var i :| 0 <= i < |ts| && ts[i].kind == 'a' && ts[i].at == a;
      LexWords(text, 0, i);
    }
    LineFine(ts, WordSpans(ts));
  }

  /** Every tree that a command made of words spells can be printed. */
  lemma {:induction false} SpeltPrintable(text: string, S: set<Span>, c: Cmd, t: Tree)
    requires CString(text) && AllWords(text, S) && Fine(c, S) && Spells(text, c, t)
    ensures Printable(t)
    decreases c
  {
    match c
    case Exec(argv) =>
      forall i | 0 <= i < |argv| ensures Word(t.argv[i]) {
        WordIs(text, argv[i]);
      }
    case Redir(cmd, file, _) =>
      WordIs(text, file);
      SpeltPrintable(text, S, cmd, t.cmd);
    case Pipe(left, right) => SpeltPrintable(text, S, left, t.left); SpeltPrintable(text, S, right, t.right);
    case List(left, right) => SpeltPrintable(text, S, left, t.left); SpeltPrintable(text, S, right, t.right);
    case Back(cmd) => SpeltPrintable(text, S, cmd, t.cmd);
  }

  lemma WordIs(text: string, a: Span)
    requires CString(text) && IsWord(text, a)
    ensures Word(text[a.q..a.eq])
  {
    var w := text[a.q..a.eq];
    forall i | 0 <= i < |w| ensures Plain(w[i]) {
      assert w[i] == text[a.q + i];
    }
  }

  /** parsecmd on its buffer: the command's strings, read as C strings afterwards,
      spell what the grammar finds in the line. */
  method ParseInPlace(buf: array<char>, ghost text: string) returns (r: Parsed<nat>)
    requires CString(text) && buf[..] == text + [0 as char]
    modifies buf
    ensures r.Panic? <==> ParseTokens(Lex(text, 0)).Panic?
    ensures r.Ok? ==> ParseTokens(Lex(text, 0)) == Ok(r.cmd, [])
    ensures r.Ok? ==> Spells(text, r.cmd, CTree(buf[..], r.cmd)) && Printable(CTree(buf[..], r.cmd))
  {
    var line := buf[..buf.Length - 1];
    assert line == text;
    r := ParseCmd(line);
    if r.Ok? {
      ghost var S := WordSpans(Lex(text, 0));
      ParsedFine(text);
      FineInside(text, S, r.cmd);
      NulTerminate(buf, r.cmd);
      assert Terminated(text, buf[..], r.cmd);
      TreeReads(text, S, buf[..], r.cmd, r.cmd);
      SpeltPrintable(text, S, r.cmd, CTree(buf[..], r.cmd));
    }
  }
}
