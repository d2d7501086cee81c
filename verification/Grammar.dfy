/** What command lines mean to the shell (sh.c): the grammar behind the parser's
    recursive descent, as written tokens with a meaning. The parser accepts exactly
    the lines of the grammar, and gives each the grammar's meaning. */
module Grammar {
  import opened Shell

  // Lines as they are written

  datatype Item = Arg(word: string) | To(op: string, file: string)

  /** Words and redirections in any order, or a line in parentheses and redirections
      after it. */
  datatype Simple = Words(items: seq<Item>) | Paren(line: Line, redirs: seq<Item>)

  datatype Pipeline = One(first: Simple) | Bar(first: Simple, more: Pipeline)

  /** A pipeline and its ampersands, and perhaps a semicolon and another line. */
  datatype Line = Last(pipe: Pipeline, amps: nat) | Semi(pipe: Pipeline, amps: nat, more: Line)

  function Arguments(items: seq<Item>): (r: seq<string>) {
    if items == [] then [] else (if items[0].Arg? then [items[0].word] else []) + Arguments(items[1..])
  }

  predicate ItemOk(i: Item) {
    match i
    case Arg(word) => Word(word)
    case To(op, file) => (op == "<" || op == ">" || op == ">>") && Word(file)
  }

  predicate ItemsOk(items: seq<Item>) { forall i :: 0 <= i < |items| ==> ItemOk(items[i]) }

  predicate SimpleOk(x: Simple) {
    match x
    case Words(items) => ItemsOk(items) && |Arguments(items)| < MAXARGS
    case Paren(line, redirs) => LineOk(line) && ItemsOk(redirs) && Arguments(redirs) == []
  }

  predicate PipelineOk(p: Pipeline) {
    match p
    case One(first) => SimpleOk(first)
    case Bar(first, more) => SimpleOk(first) && PipelineOk(more)
  }

  predicate LineOk(l: Line) {
    match l
    case Last(pipe, _) => PipelineOk(pipe)
    case Semi(pipe, _, more) => PipelineOk(pipe) && LineOk(more)
  }

  // Their tokens

  function WrittenItem(i: Item): (r: seq<string>) {
    match i
    case Arg(word) => [word]
    case To(op, file) => [op, file]
  }

  function WrittenItems(items: seq<Item>): (r: seq<string>) {
    if items == [] then [] else WrittenItem(items[0]) + WrittenItems(items[1..])
  }

  function Ampersands(n: nat): (r: seq<string>) { if n == 0 then [] else ["&"] + Ampersands(n - 1) }

  function WrittenSimple(x: Simple): (r: seq<string>) {
    match x
    case Words(items) => WrittenItems(items)
    case Paren(line, redirs) => ["("] + (Written(line) + ([")"] + WrittenItems(redirs)))
  }

  function WrittenPipe(p: Pipeline): (r: seq<string>) {
    match p
    case One(first) => WrittenSimple(first)
    case Bar(first, more) => WrittenSimple(first) + (["|"] + WrittenPipe(more))
  }

  function Written(l: Line): (r: seq<string>) {
    match l
    case Last(pipe, amps) => WrittenPipe(pipe) + Ampersands(amps)
    case Semi(pipe, amps, more) => WrittenPipe(pipe) + (Ampersands(amps) + ([";"] + Written(more)))
  }

  // Their meaning

  /** The redirections among the items, the first one innermost. */
  function Redirected(t: Tree, items: seq<Item>): (r: Tree)
    decreases |items|
  {
    if items == [] then t
    else if items[0].Arg? then Redirected(t, items[1..])
    else Redirected(TRedir(t, items[0].file, items[0].op == "<"), items[1..])
  }

  function Background(t: Tree, n: nat): (r: Tree)
    decreases n
  {
    if n == 0 then t else Background(TBack(t), n - 1)
  }

  function SimpleMeaning(x: Simple): (r: Tree) {
    match x
    case Words(items) => Redirected(TExec(Arguments(items)), items)
    case Paren(line, redirs) => Redirected(Meaning(line), redirs)
  }

  /** A pipeline groups to the right and binds tighter than & and ;. */
  function PipeMeaning(p: Pipeline): (r: Tree) {
    match p
    case One(first) => SimpleMeaning(first)
    case Bar(first, more) => TPipe(SimpleMeaning(first), PipeMeaning(more))
  }

  function Meaning(l: Line): (r: Tree) {
    match l
    case Last(pipe, amps) => Background(PipeMeaning(pipe), amps)
    case Semi(pipe, amps, more) => TList(Background(PipeMeaning(pipe), amps), Meaning(more))
  }

  // Reading tokens

  function Kind(k: string): (r: char) {
    if k == ">>" then '+' else if |k| == 1 && Symbol(k[0]) then k[0] else 'a'
  }

  ghost predicate ReadsTok(text: string, tok: Tok, k: string) {
    SpanIn(text, tok.at) && Str(text, tok.at) == k && tok.kind == Kind(k)
  }

  /** The tokens begin with those of ks. */
  ghost predicate Reads(text: string, ts: seq<Tok>, ks: seq<string>) {
    |ks| <= |ts| && forall i :: 0 <= i < |ks| ==> ReadsTok(text, ts[i], ks[i])
  }

  lemma ReadsParts(text: string, ts: seq<Tok>, a: seq<string>, b: seq<string>)
    requires Reads(text, ts, a + b)
    ensures Reads(text, ts, a) && Reads(text, ts[|a|..], b) && ts[|a|..][|b|..] == ts[|a + b|..]
  {
    forall i | 0 <= i < |a| ensures ReadsTok(text, ts[i], a[i]) {
      assert (a + b)[i] == a[i];
    }
    forall i | 0 <= i < |b| ensures ReadsTok(text, ts[|a|..][i], b[i]) {
      assert (a + b)[|a| + i] == b[i];
    }
  }

  lemma ReadsBoth(text: string, ts: seq<Tok>, a: seq<string>, b: seq<string>)
    requires Reads(text, ts, a) && Reads(text, ts[|a|..], b)
    ensures Reads(text, ts, a + b) && ts[|a|..][|b|..] == ts[|a + b|..]
  {
    forall i | 0 <= i < |a + b| ensures ReadsTok(text, ts[i], (a + b)[i]) {
      if i >= |a| {
        assert ts[|a|..][i - |a|] == ts[i];
      }
    }
  }

  lemma ReadsOne(text: string, ts: seq<Tok>, k: string)
    requires Reads(text, ts, [k])
    ensures ts != [] && ts[0].kind == Kind(k) && ReadsTok(text, ts[0], k)
  {
    assert ReadsTok(text, ts[0], [k][0]);
  }

  // Every line of the grammar parses to its meaning

  /** What may follow a simple command, a pipeline, a line. */
  ghost predicate AfterSimple(ts: seq<Tok>) { ts == [] || Next(ts, "|)&;") }

  ghost predicate AfterPipe(ts: seq<Tok>) { ts == [] || Next(ts, ")&;") }

  ghost predicate AfterLine(ts: seq<Tok>) { ts == [] || Next(ts, ")") }

  /** parseexec from inside: redirections, then words with redirections after each. */
  function Items(ret: Cmd, argv: seq<Span>, ts: seq<Tok>): (r: Parsed<seq<Tok>>) {
    var r := Redirs(ret, ts);
    if r.Panic? then r else Args(r.cmd, argv, r.rest)
  }

  function WithArgs(t: Tree, argv: seq<string>): (r: Tree) {
    match t
    case TRedir(cmd, file, input) => TRedir(WithArgs(cmd, argv), file, input)
    case _ => TExec(argv)
  }

  lemma {:induction false} SetArgsSpells(text: string, ret: Cmd, argv: seq<Span>, t: Tree, words: seq<string>)
    requires Spells(text, ret, t) && Spells(text, Exec(argv), TExec(words))
    ensures Spells(text, SetArgs(ret, argv), WithArgs(t, words))
    decreases ret
  {
    if ret.Redir? {
      SetArgsSpells(text, ret.cmd, argv, t.cmd, words);
    }
  }

  lemma SpellsMore(text: string, argv: seq<Span>, words: seq<string>, tok: Tok, w: string)
    requires Spells(text, Exec(argv), TExec(words)) && ReadsTok(text, tok, w)
    ensures Spells(text, Exec(argv + [tok.at]), TExec(words + [w]))
  {
  }

  lemma ItemRedir(ret: Cmd, argv: seq<Span>, ts: seq<Tok>)
    requires |ts| >= 2 && Next(ts, "<>") && ts[1].kind == 'a'
    ensures Redirs(ret, ts) == Redirs(Redir(ret, ts[1].at, ts[0].kind == '<'), ts[2..])
    ensures Items(ret, argv, ts) == Items(Redir(ret, ts[1].at, ts[0].kind == '<'), argv, ts[2..])
  {
  }

  lemma ItemArg(ret: Cmd, argv: seq<Span>, ts: seq<Tok>)
    requires ts != [] && ts[0].kind == 'a' && |argv| + 1 < MAXARGS
    ensures Items(ret, argv, ts) == Items(ret, argv + [ts[0].at], ts[1..])
  {
  }

  lemma ItemsEnd(ret: Cmd, argv: seq<Span>, ts: seq<Tok>)
    requires AfterSimple(ts)
    ensures Redirs(ret, ts) == Ok(ret, ts) && Items(ret, argv, ts) == Ok(SetArgs(ret, argv), ts)
  {
  }

  /** One redirection, read. */
  lemma ReadsTo(text: string, ts: seq<Tok>, ret: Cmd, t: Tree, i: Item)
    requires i.To? && ItemOk(i) && Reads(text, ts, WrittenItem(i)) && Spells(text, ret, t)
    ensures |ts| >= 2 && Next(ts, "<>") && ts[1].kind == 'a'
    ensures Spells(text, Redir(ret, ts[1].at, ts[0].kind == '<'), TRedir(t, i.file, i.op == "<"))
  {
    assert ReadsTok(text, ts[0], WrittenItem(i)[0]) && ReadsTok(text, ts[1], WrittenItem(i)[1]);
    assert Plain(i.file[0]);
  }

  lemma RedirectedStep(t: Tree, words: seq<string>, items: seq<Item>)
    requires items != []
    ensures match items[0]
            case Arg(word) =>
              Redirected(WithArgs(t, words + [word] + Arguments(items[1..])), items[1..])
              == Redirected(WithArgs(t, words + Arguments(items)), items)
            case To(op, file) =>
              Redirected(WithArgs(TRedir(t, file, op == "<"), words + Arguments(items[1..])), items[1..])
              == Redirected(WithArgs(t, words + Arguments(items)), items)
  {
    if items[0].Arg? {
      assert words + [items[0].word] + Arguments(items[1..]) == words + Arguments(items);
    } else {
      assert Arguments(items) == Arguments(items[1..]);
    }
  }

  lemma {:induction false} ItemsParse(text: string, ts: seq<Tok>, items: seq<Item>, ret: Cmd, argv: seq<Span>,
                                      t: Tree, words: seq<string>) returns (c: Cmd)
    requires ItemsOk(items) && |argv| + |Arguments(items)| < MAXARGS
    requires Reads(text, ts, WrittenItems(items)) && AfterSimple(ts[|WrittenItems(items)|..])
    requires Spells(text, ret, t) && Spells(text, Exec(argv), TExec(words))
    ensures Items(ret, argv, ts) == Ok(c, ts[|WrittenItems(items)|..])
    ensures Spells(text, c, Redirected(WithArgs(t, words + Arguments(items)), items))
    decreases |items|
  {
    hide Items, Spells, AfterSimple, Reads, ReadsTok, Next, ItemOk;
    if items == [] {
      assert ts[0..] == ts && words + [] == words;
      ItemsEnd(ret, argv, ts);
      c := SetArgs(ret, argv);
      SetArgsSpells(text, ret, argv, t, words);
    } else {
      var i := items[0];
      RedirectedStep(t, words, items);
      ReadsParts(text, ts, WrittenItem(i), WrittenItems(items[1..]));
      if i.To? {
        ReadsTo(text, ts, ret, t, i);
        ItemRedir(ret, argv, ts);
        c := ItemsParse(text, ts[2..], items[1..], Redir(ret, ts[1].at, ts[0].kind == '<'), argv,
                        TRedir(t, i.file, i.op == "<"), words);
      } else {
        ReadsOne(text, ts, i.word);
        assert ItemOk(i);
        WordKind(i);
        ItemArg(ret, argv, ts);
        SpellsMore(text, argv, words, ts[0], i.word);
        c := ItemsParse(text, ts[1..], items[1..], ret, argv + [ts[0].at], t, words + [i.word]);
      }
    }
  }

  lemma WordKind(i: Item)
    requires ItemOk(i) && i.Arg?
    ensures Kind(i.word) == 'a'
  {
    assert Plain(i.word[0]);
  }

  lemma {:induction false} RedirsParse(text: string, ts: seq<Tok>, items: seq<Item>, ret: Cmd, t: Tree) returns (c: Cmd)
    requires ItemsOk(items) && Arguments(items) == []
    requires Reads(text, ts, WrittenItems(items)) && AfterSimple(ts[|WrittenItems(items)|..])
    requires Spells(text, ret, t)
    ensures Redirs(ret, ts) == Ok(c, ts[|WrittenItems(items)|..])
    ensures Spells(text, c, Redirected(t, items))
    decreases |items|
  {
    hide Redirs, Spells, AfterSimple, Reads, ReadsTok, Next, ItemOk;
    if items == [] {
      assert ts[0..] == ts;
      ItemsEnd(ret, [], ts);
      c := ret;
    } else {
      var i := items[0];
      ReadsParts(text, ts, WrittenItem(i), WrittenItems(items[1..]));
      ReadsTo(text, ts, ret, t, i);
      ItemRedir(ret, [], ts);
      c := RedirsParse(text, ts[2..], items[1..], Redir(ret, ts[1].at, ts[0].kind == '<'),
                       TRedir(t, i.file, i.op == "<"));
    }
  }

  /** No simple command without parentheses begins with one. */
  lemma NoParen(text: string, ts: seq<Tok>, items: seq<Item>)
    requires ItemsOk(items) && Reads(text, ts, WrittenItems(items)) && AfterSimple(ts[|WrittenItems(items)|..])
    ensures !Next(ts, "(")
  {
    if items == [] {
      assert ts[0..] == ts;
    } else {
      assert ReadsTok(text, ts[0], WrittenItems(items)[0]);
      assert ItemOk(items[0]);
      if items[0].Arg? {
        WordKind(items[0]);
      }
    }
  }

  lemma SimpleParse(text: string, ts: seq<Tok>, x: Simple) returns (c: Cmd)
    requires SimpleOk(x) && Reads(text, ts, WrittenSimple(x)) && AfterSimple(ts[|WrittenSimple(x)|..])
    ensures ParseExecTokens(ts) == Ok(c, ts[|WrittenSimple(x)|..]) && Spells(text, c, SimpleMeaning(x))
    decreases x, 0
  {
    match x
    case Words(items) => c := WordsParse(text, ts, items);
    case Paren(line, redirs) =>
      hide Reads, Spells, AfterSimple, LineOk, ParseLineTokens, Redirs, Next;
      ReadsParts(text, ts, ["("], Written(line) + ([")"] + WrittenItems(redirs)));
      ReadsOne(text, ts, "(");
      var u := ts[1..];
      ReadsParts(text, u, Written(line), [")"] + WrittenItems(redirs));
      var v := u[|Written(line)|..];
      ReadsParts(text, v, [")"], WrittenItems(redirs));
      ReadsOne(text, v, ")");
      Closing(v);
      var d := LineParse(text, u, line);
      c := RedirsParse(text, v[1..], redirs, d, Meaning(line));
      Opened(ts, d, v);
  }

  lemma Closing(v: seq<Tok>)
    requires v != [] && v[0].kind == ')'
    ensures AfterLine(v) && Next(v, ")")
  {
  }

  lemma Opened(ts: seq<Tok>, d: Cmd, v: seq<Tok>)
    requires ts != [] && ts[0].kind == '(' && ParseLineTokens(ts[1..]) == Ok(d, v) && Next(v, ")")
    ensures ParseExecTokens(ts) == Redirs(d, v[1..])
  {
  }

  lemma WordsParse(text: string, ts: seq<Tok>, items: seq<Item>) returns (c: Cmd)
    requires ItemsOk(items) && |Arguments(items)| < MAXARGS
    requires Reads(text, ts, WrittenItems(items)) && AfterSimple(ts[|WrittenItems(items)|..])
    ensures ParseExecTokens(ts) == Ok(c, ts[|WrittenItems(items)|..])
    ensures Spells(text, c, Redirected(TExec(Arguments(items)), items))
  {
    c := ItemsParse(text, ts, items, Exec([]), [], TExec([]), []);
    assert [] + Arguments(items) == Arguments(items);
    NoParen(text, ts, items);
  }

  lemma PipeParse(text: string, ts: seq<Tok>, p: Pipeline) returns (c: Cmd)
    requires PipelineOk(p) && Reads(text, ts, WrittenPipe(p)) && AfterPipe(ts[|WrittenPipe(p)|..])
    ensures ParsePipeTokens(ts) == Ok(c, ts[|WrittenPipe(p)|..]) && Spells(text, c, PipeMeaning(p))
    decreases p, 0
  {
    hide Reads, ParseExecTokens, SimpleOk, WrittenSimple, SimpleMeaning;
    match p
    case One(first) => c := SimpleParse(text, ts, first);
    case Bar(first, more) =>
      ReadsParts(text, ts, WrittenSimple(first), ["|"] + WrittenPipe(more));
      var u := ts[|WrittenSimple(first)|..];
      ReadsParts(text, u, ["|"], WrittenPipe(more));
      ReadsOne(text, u, "|");
      var d := SimpleParse(text, ts, first);
      var e := PipeParse(text, u[1..], more);
      c := Pipe(d, e);
  }

  lemma {:induction false} AmpsParse(text: string, ts: seq<Tok>, n: nat, c: Cmd, t: Tree) returns (d: Cmd)
    requires Reads(text, ts, Ampersands(n)) && !Next(ts[|Ampersands(n)|..], "&") && Spells(text, c, t)
    ensures Backs(c, ts) == Ok(d, ts[|Ampersands(n)|..]) && Spells(text, d, Background(t, n))
    decreases n
  {
    if n == 0 {
      assert ts[0..] == ts;
      d := c;
    } else {
      hide Reads;
      ReadsParts(text, ts, ["&"], Ampersands(n - 1));
      ReadsOne(text, ts, "&");
      d := AmpsParse(text, ts[1..], n - 1, Back(c), TBack(t));
    }
  }

  /** What follows the pipeline of a line. */
  lemma AmpsFollow(text: string, ts: seq<Tok>, n: nat)
    requires Reads(text, ts, Ampersands(n))
    requires ts[|Ampersands(n)|..] == [] || Next(ts[|Ampersands(n)|..], ");")
    ensures AfterPipe(ts) && !Next(ts[|Ampersands(n)|..], "&")
  {
    if n == 0 {
      assert ts[0..] == ts;
    } else {
      ReadsParts(text, ts, ["&"], Ampersands(n - 1));
      ReadsOne(text, ts, "&");
    }
  }

  /** Pipeline and ampersands, with what follows them. */
  lemma AndParse(text: string, ts: seq<Tok>, p: Pipeline, n: nat) returns (c: Cmd)
    requires PipelineOk(p) && Reads(text, ts, WrittenPipe(p) + Ampersands(n))
    requires var rest := ts[|WrittenPipe(p) + Ampersands(n)|..]; rest == [] || Next(rest, ");")
    ensures ParsePipeTokens(ts).Ok?
    ensures Backs(ParsePipeTokens(ts).cmd, ParsePipeTokens(ts).rest) == Ok(c, ts[|WrittenPipe(p) + Ampersands(n)|..])
    ensures Spells(text, c, Background(PipeMeaning(p), n))
    decreases p, 1
  {
    hide Reads, Next, Spells, PipelineOk, Backs, ParsePipeTokens;
    ReadsParts(text, ts, WrittenPipe(p), Ampersands(n));
    var u := ts[|WrittenPipe(p)|..];
    AmpsFollow(text, u, n);
    var d := PipeParse(text, ts, p);
    c := AmpsParse(text, u, n, d, PipeMeaning(p));
  }

  /** Every line of the grammar, followed by the end or a closing parenthesis, parses
      to its meaning. */
  lemma LineParse(text: string, ts: seq<Tok>, l: Line) returns (c: Cmd)
    requires LineOk(l) && Reads(text, ts, Written(l)) && AfterLine(ts[|Written(l)|..])
    ensures ParseLineTokens(ts) == Ok(c, ts[|Written(l)|..]) && Spells(text, c, Meaning(l))
    decreases l, 0
  {
    hide Reads, ParsePipeTokens, Backs, PipelineOk;
    match l
    case Last(pipe, amps) => c := AndParse(text, ts, pipe, amps);
    case Semi(pipe, amps, more) =>
      var a := WrittenPipe(pipe) + Ampersands(amps);
      assert Written(l) == a + ([";"] + Written(more));
      ReadsParts(text, ts, a, [";"] + Written(more));
      var u := ts[|a|..];
      ReadsParts(text, u, [";"], Written(more));
      ReadsOne(text, u, ";");
      var d := AndParse(text, ts, pipe, amps);
      var e := LineParse(text, u[1..], more);
      c := List(d, e);
  }

  // Every line that parses is one of the grammar

  predicate Lexeme(k: string) { Word(k) || k == ">>" || (|k| == 1 && Symbol(k[0])) }

  ghost predicate Lexed(text: string, tok: Tok) {
    SpanIn(text, tok.at) && Lexeme(Str(text, tok.at)) && tok.kind == Kind(Str(text, tok.at))
  }

  ghost predicate AllLexed(text: string, ts: seq<Tok>) { forall i :: 0 <= i < |ts| ==> Lexed(text, ts[i]) }

  lemma TokLexed(text: string, q: nat)
    requires CString(text) && q < |text| && !Blank(text[q])
    ensures Lexed(text, TokAt(text, q))
  {
    var k := Str(text, TokAt(text, q).at);
    if Symbol(text[q]) {
      assert k[0] == text[q];
    } else {
      WordEndIs(text, q);
      forall i | 0 <= i < |k| ensures Plain(k[i]) {
        assert k[i] == text[q + i];
      }
      assert Plain(k[0]);
    }
  }

  lemma {:induction false} LexLexed(text: string, s: nat)
    requires CString(text) && s <= |text|
    ensures AllLexed(text, Lex(text, s))
    decreases |text| - s
  {
    hide Lexed, TokAt;
    SkipStops(text, s);
    var q := Skip(text, s);
    if q < |text| {
      TokLexed(text, q);
      LexLexed(text, TokAt(text, q).at.eq);
    }
  }

  lemma WordLexed(text: string, ts: seq<Tok>) returns (w: string)
    requires ts != [] && AllLexed(text, ts) && ts[0].kind == 'a'
    ensures Word(w) && Reads(text, ts, [w]) && ReadsTok(text, ts[0], w)
  {
    assert Lexed(text, ts[0]);
    w := Str(text, ts[0].at);
  }

  lemma SymbolLexed(text: string, ts: seq<Tok>, c: char)
    requires ts != [] && AllLexed(text, ts) && ts[0].kind == c && Symbol(c)
    ensures Reads(text, ts, [[c]])
  {
    assert Lexed(text, ts[0]);
    assert Str(text, ts[0].at) == [c];
  }

  /** The redirection that the first two tokens are. */
  lemma ToLexed(text: string, ts: seq<Tok>, ret: Cmd, t: Tree) returns (i: Item)
    requires AllLexed(text, ts) && |ts| >= 2 && Next(ts, "<>") && ts[1].kind == 'a' && Spells(text, ret, t)
    ensures i.To? && ItemOk(i) && Reads(text, ts, WrittenItem(i))
    ensures Spells(text, Redir(ret, ts[1].at, ts[0].kind == '<'), TRedir(t, i.file, i.op == "<"))
  {
    assert Lexed(text, ts[0]) && Lexed(text, ts[1]);
    i := To(Str(text, ts[0].at), Str(text, ts[1].at));
  }

  lemma {:induction false} RedirsWritten(text: string, ts: seq<Tok>, ret: Cmd, t: Tree) returns (items: seq<Item>)
    requires AllLexed(text, ts) && Redirs(ret, ts).Ok? && Spells(text, ret, t)
    ensures ItemsOk(items) && Arguments(items) == [] && Reads(text, ts, WrittenItems(items))
    ensures Redirs(ret, ts).rest == ts[|WrittenItems(items)|..]
    ensures Spells(text, Redirs(ret, ts).cmd, Redirected(t, items))
    decreases |ts|
  {
    hide Spells, Next, ItemOk, Lexed, ReadsTok;
    if !Next(ts, "<>") {
      items := [];
      assert ts[0..] == ts;
    } else {
      var i := ToLexed(text, ts, ret, t);
      var more := RedirsWritten(text, ts[2..], Redir(ret, ts[1].at, ts[0].kind == '<'), TRedir(t, i.file, i.op == "<"));
      items := [i] + more;
      assert items[1..] == more;
      ReadsBoth(text, ts, WrittenItem(i), WrittenItems(more));
    }
  }

  lemma {:induction false} ItemsWritten(text: string, ts: seq<Tok>, ret: Cmd, argv: seq<Span>,
                                        t: Tree, words: seq<string>) returns (items: seq<Item>)
    requires AllLexed(text, ts) && Items(ret, argv, ts).Ok? && |argv| < MAXARGS
    requires Spells(text, ret, t) && Spells(text, Exec(argv), TExec(words))
    ensures ItemsOk(items) && |argv| + |Arguments(items)| < MAXARGS && Reads(text, ts, WrittenItems(items))
    ensures Items(ret, argv, ts).rest == ts[|WrittenItems(items)|..]
    ensures Spells(text, Items(ret, argv, ts).cmd, Redirected(WithArgs(t, words + Arguments(items)), items))
    decreases |ts|
  {
    hide Items, Spells, ItemOk, Lexed, ReadsTok;
    ItemsCases(ret, argv, ts);
    if AfterSimple(ts) {
      items := [];
      assert ts[0..] == ts && words + [] == words;
      ItemsEnd(ret, argv, ts);
      SetArgsSpells(text, ret, argv, t, words);
    } else if Next(ts, "<>") {
      var i := ToLexed(text, ts, ret, t);
      ItemRedir(ret, argv, ts);
      var more := ItemsWritten(text, ts[2..], Redir(ret, ts[1].at, ts[0].kind == '<'), argv,
                               TRedir(t, i.file, i.op == "<"), words);
      items := [i] + more;
      assert items[1..] == more;
      RedirectedStep(t, words, items);
      ReadsBoth(text, ts, WrittenItem(i), WrittenItems(more));
    } else {
      var w := WordLexed(text, ts);
      ItemArg(ret, argv, ts);
      SpellsMore(text, argv, words, ts[0], w);
      var more := ItemsWritten(text, ts[1..], ret, argv + [ts[0].at], t, words + [w]);
      items := ArgFirst(text, ts, w, more);
      RedirectedStep(t, words, items);
    }
  }

  lemma ArgFirst(text: string, ts: seq<Tok>, w: string, more: seq<Item>) returns (items: seq<Item>)
    requires Word(w) && ItemsOk(more) && Reads(text, ts, [w]) && Reads(text, ts[1..], WrittenItems(more))
    ensures items != [] && items[0] == Arg(w) && items[1..] == more
    ensures ItemsOk(items) && Reads(text, ts, WrittenItems(items)) && Arguments(items) == [w] + Arguments(more)
    ensures ts[1..][|WrittenItems(more)|..] == ts[|WrittenItems(items)|..]
  {
    hide ReadsTok;
    items := [Arg(w)] + more;
    assert items[1..] == more;
    ReadsBoth(text, ts, [w], WrittenItems(more));
  }

  /** Where parseexec goes from here, if it does not panic. */
  lemma ItemsCases(ret: Cmd, argv: seq<Span>, ts: seq<Tok>)
    requires Items(ret, argv, ts).Ok?
    ensures AfterSimple(ts)
            || (|ts| >= 2 && Next(ts, "<>") && ts[1].kind == 'a')
            || (ts != [] && !Next(ts, "<>") && ts[0].kind == 'a' && |argv| + 1 < MAXARGS)
  {
  }

  lemma SimpleWritten(text: string, ts: seq<Tok>) returns (x: Simple)
    requires AllLexed(text, ts) && ParseExecTokens(ts).Ok?
    ensures SimpleOk(x) && Reads(text, ts, WrittenSimple(x))
    ensures ParseExecTokens(ts).rest == ts[|WrittenSimple(x)|..]
    ensures Spells(text, ParseExecTokens(ts).cmd, SimpleMeaning(x))
    decreases |ts|, 0
  {
    if !Next(ts, "(") {
      var items := ItemsWritten(text, ts, Exec([]), [], TExec([]), []);
      x := Words(items);
      assert [] + Arguments(items) == Arguments(items);
    } else {
      hide Lexed, ReadsTok, Spells, LineOk, ParseLineTokens, Redirs, Meaning;
      SymbolLexed(text, ts, '(');
      var line := LineWritten(text, ts[1..]);
      var v := ParseLineTokens(ts[1..]).rest;
      SymbolLexed(text, v, ')');
      var redirs := RedirsWritten(text, v[1..], ParseLineTokens(ts[1..]).cmd, Meaning(line));
      x := Paren(line, redirs);
      ReadsBoth(text, v, [")"], WrittenItems(redirs));
      ReadsBoth(text, ts[1..], Written(line), [")"] + WrittenItems(redirs));
      ReadsBoth(text, ts, ["("], Written(line) + ([")"] + WrittenItems(redirs)));
    }
  }

  lemma PipeWritten(text: string, ts: seq<Tok>) returns (p: Pipeline)
    requires AllLexed(text, ts) && ParsePipeTokens(ts).Ok?
    ensures PipelineOk(p) && Reads(text, ts, WrittenPipe(p))
    ensures ParsePipeTokens(ts).rest == ts[|WrittenPipe(p)|..]
    ensures Spells(text, ParsePipeTokens(ts).cmd, PipeMeaning(p))
    decreases |ts|, 1
  {
    hide Lexed, ReadsTok, ParseExecTokens, SimpleOk, WrittenSimple, SimpleMeaning;
    var x := SimpleWritten(text, ts);
    var u := ParseExecTokens(ts).rest;
    if !Next(u, "|") {
      p := One(x);
    } else {
      SymbolLexed(text, u, '|');
      var more := PipeWritten(text, u[1..]);
      p := Bar(x, more);
      ReadsBoth(text, u, ["|"], WrittenPipe(more));
      ReadsBoth(text, ts, WrittenSimple(x), ["|"] + WrittenPipe(more));
    }
  }

  lemma {:induction false} AmpsWritten(text: string, ts: seq<Tok>, c: Cmd, t: Tree) returns (n: nat)
    requires AllLexed(text, ts) && Spells(text, c, t)
    ensures Reads(text, ts, Ampersands(n)) && Backs(c, ts).rest == ts[|Ampersands(n)|..]
    ensures Spells(text, Backs(c, ts).cmd, Background(t, n))
    decreases |ts|
  {
    if !Next(ts, "&") {
      n := 0;
      assert ts[0..] == ts;
    } else {
      hide Lexed, ReadsTok;
      SymbolLexed(text, ts, '&');
      var m := AmpsWritten(text, ts[1..], Back(c), TBack(t));
      n := m + 1;
      ReadsBoth(text, ts, ["&"], Ampersands(m));
    }
  }

  /** Every parsed line is one of the grammar, with its meaning. */
  lemma LineWritten(text: string, ts: seq<Tok>) returns (l: Line)
    requires AllLexed(text, ts) && ParseLineTokens(ts).Ok?
    ensures LineOk(l) && Reads(text, ts, Written(l))
    ensures ParseLineTokens(ts).rest == ts[|Written(l)|..]
    ensures Spells(text, ParseLineTokens(ts).cmd, Meaning(l))
    decreases |ts|, 2
  {
    hide Lexed, ReadsTok, ParsePipeTokens, Backs, PipelineOk, WrittenPipe, PipeMeaning;
    var p := PipeWritten(text, ts);
    var u := ParsePipeTokens(ts).rest;
    var n := AmpsWritten(text, u, ParsePipeTokens(ts).cmd, PipeMeaning(p));
    var v := Backs(ParsePipeTokens(ts).cmd, u).rest;
    if !Next(v, ";") {
      l := Last(p, n);
      ReadsBoth(text, ts, WrittenPipe(p), Ampersands(n));
    } else {
      SymbolLexed(text, v, ';');
      var more := LineWritten(text, v[1..]);
      l := Semi(p, n, more);
      ReadsBoth(text, v, [";"], Written(more));
      ReadsBoth(text, u, Ampersands(n), [";"] + Written(more));
      ReadsBoth(text, ts, WrittenPipe(p), Ampersands(n) + ([";"] + Written(more)));
    }
  }

  // The parser is the grammar

  ghost predicate Parses(text: string, t: Tree) {
    exists c :: ParseTokens(Lex(text, 0)) == Ok(c, []) && Spells(text, c, t)
  }

  /** The tokens of text are those of the line l. */
  ghost predicate IsLine(text: string, l: Line) {
    LineOk(l) && |Lex(text, 0)| == |Written(l)| && Reads(text, Lex(text, 0), Written(l))
  }

  /** A command line parses to a tree just when it is a line of the grammar that means
      this tree. */
  lemma ParsesIff(text: string, t: Tree)
    requires CString(text)
    ensures Parses(text, t) <==> exists l :: IsLine(text, l) && Meaning(l) == t
  {
    hide Reads, AllLexed, Lex, LineOk, Meaning, Spells, ParseLineTokens;
    var ts := Lex(text, 0);
    if l :| IsLine(text, l) && Meaning(l) == t {
      assert ts[|Written(l)|..] == [];
      var c := LineParse(text, ts, l);
    }
    if c :| ParseTokens(ts) == Ok(c, []) && Spells(text, c, t) {
      LexLexed(text, 0);
      var l := LineWritten(text, ts);
      SpellsOnce(text, c, t, Meaning(l));
      ReadsWhole(text, ts, Written(l));
      assert IsLine(text, l);
    }
  }

  /** It panics on all other lines. */
  lemma PanicsIff(text: string)
    requires CString(text)
    ensures ParseTokens(Lex(text, 0)).Panic? <==> forall l :: !IsLine(text, l)
  {
    hide Reads, AllLexed, Lex, LineOk, Meaning, Spells, ParseLineTokens;
    var ts := Lex(text, 0);
    if l :| IsLine(text, l) {
      assert ts[|Written(l)|..] == [];
      var c := LineParse(text, ts, l);
    }
    if ParseTokens(ts).Ok? {
      LexLexed(text, 0);
      var l := LineWritten(text, ts);
      ReadsWhole(text, ts, Written(l));
      assert IsLine(text, l);
    }
  }

  lemma ReadsWhole(text: string, ts: seq<Tok>, ks: seq<string>)
    requires Reads(text, ts, ks) && ts[|ks|..] == []
    ensures |ts| == |ks|
  {
  }

  lemma {:induction false} SpellsOnce(text: string, c: Cmd, t: Tree, u: Tree)
    requires Spells(text, c, t) && Spells(text, c, u)
    ensures t == u
    decreases c
  {
    match c
    case Exec(argv) => assert t.argv == u.argv;
    case Redir(cmd, _, _) => SpellsOnce(text, cmd, t.cmd, u.cmd);
    case Pipe(left, right) => SpellsOnce(text, left, t.left, u.left); SpellsOnce(text, right, t.right, u.right);
    case List(left, right) => SpellsOnce(text, left, t.left, u.left); SpellsOnce(text, right, t.right, u.right);
    case Back(cmd) => SpellsOnce(text, cmd, t.cmd, u.cmd);
  }

  // Writing lines out

  function Render(ks: seq<string>): (r: string) { if ks == [] then "" else ks[0] + " " + Render(ks[1..]) }

  /** text has w at position s. */
  ghost predicate Has(text: string, s: nat, w: string) { s + |w| <= |text| && text[s..s + |w|] == w }

  lemma HasParts(text: string, s: nat, a: string, b: string)
    requires Has(text, s, a + b)
    ensures Has(text, s, a) && Has(text, s + |a|, b)
  {
    var w := text[s..s + |a + b|];
    assert w[..|a|] == a && w[|a|..] == b;
  }

  lemma {:induction false} WordEndAt(text: string, s: nat, w: string, k: nat)
    requires Has(text, s, w) && Word(w) && k <= |w| && s + |w| < |text| && Blank(text[s + |w|])
    ensures WordEnd(text, s + k) == s + |w|
    decreases |w| - k
  {
    if k < |w| {
      assert text[s + k] == text[s..s + |w|][k];
      WordEndAt(text, s, w, k + 1);
    }
  }

  lemma TokIs(text: string, s: nat, k: string)
    requires Has(text, s, k) && Lexeme(k) && s + |k| < |text| && text[s + |k|] == ' '
    ensures !Blank(text[s]) && TokAt(text, s) == Tok(Kind(k), Span(s, s + |k|))
  {
    assert text[s] == text[s..s + |k|][0];
    if Word(k) {
      WordEndAt(text, s, k, 0);
      assert Plain(k[0]);
    } else if k == ">>" {
      assert text[s + 1] == text[s..s + |k|][1];
    }
  }

  lemma LexOne(text: string, s: nat, k: string)
    requires Has(text, s, k + " ") && Lexeme(k)
    ensures var tok := Tok(Kind(k), Span(s, s + |k|));
            ReadsTok(text, tok, k) && Lex(text, s) == [tok] + Lex(text, s + |k| + 1)
  {
    HasParts(text, s, k, " ");
    assert text[s + |k|] == text[s + |k|..s + |k| + 1][0];
    TokIs(text, s, k);
    assert Skip(text, s) == s;
    assert Lex(text, s + |k|) == Lex(text, s + |k| + 1);
  }

  lemma {:induction false} LexRender(text: string, s: nat, ks: seq<string>)
    requires Has(text, s, Render(ks)) && s + |Render(ks)| == |text|
    requires forall i :: 0 <= i < |ks| ==> Lexeme(ks[i])
    ensures |Lex(text, s)| == |ks| && Reads(text, Lex(text, s), ks)
    decreases |ks|
  {
    hide Has, Lexeme, ReadsTok, Lex, Kind;
    if ks == [] {
      assert Lex(text, |text|) == [] by { LexEnd(text); }
    } else {
      HasParts(text, s, ks[0] + " ", Render(ks[1..]));
      LexOne(text, s, ks[0]);
      LexRender(text, s + |ks[0]| + 1, ks[1..]);
      assert ks == [ks[0]] + ks[1..];
    }
  }

  lemma LexEnd(text: string)
    ensures Lex(text, |text|) == []
  {
  }

  ghost predicate AllLexemes(ks: seq<string>) { forall i :: 0 <= i < |ks| ==> Lexeme(ks[i]) }

  lemma {:induction false} ItemLexemes(items: seq<Item>)
    requires ItemsOk(items)
    ensures AllLexemes(WrittenItems(items))
    decreases |items|
  {
    if items != [] {
      ItemLexemes(items[1..]);
      assert ItemOk(items[0]);
    }
  }

  lemma {:induction false} AmpLexemes(n: nat)
    ensures AllLexemes(Ampersands(n))
  {
    if n > 0 {
      AmpLexemes(n - 1);
    }
  }

  lemma SimpleLexemes(x: Simple)
    requires SimpleOk(x)
    ensures AllLexemes(WrittenSimple(x))
    decreases x
  {
    match x
    case Words(items) => ItemLexemes(items);
    case Paren(line, redirs) =>
      LineLexemes(line);
      ItemLexemes(redirs);
  }

  lemma PipeLexemes(p: Pipeline)
    requires PipelineOk(p)
    ensures AllLexemes(WrittenPipe(p))
    decreases p
  {
    SimpleLexemes(p.first);
    if p.Bar? {
      PipeLexemes(p.more);
    }
  }

  lemma LineLexemes(l: Line)
    requires LineOk(l)
    ensures AllLexemes(Written(l))
    decreases l
  {
    PipeLexemes(l.pipe);
    AmpLexemes(l.amps);
    if l.Semi? {
      LineLexemes(l.more);
    }
  }

  /** Every line of the grammar, written out, is read as that line. */
  lemma RenderIsLine(l: Line)
    requires LineOk(l)
    ensures IsLine(Render(Written(l)), l)
  {
    var text := Render(Written(l));
    LineLexemes(l);
    assert text[0..|text|] == text;
    LexRender(text, 0, Written(l));
  }

  lemma LineParses(text: string, l: Line) returns (c: Cmd)
    requires IsLine(text, l)
    ensures ParseTokens(Lex(text, 0)) == Ok(c, []) && Spells(text, c, Meaning(l))
  {
    hide Reads, Lex, LineOk, Meaning, Spells, ParseLineTokens;
    assert Lex(text, 0)[|Written(l)|..] == [];
    c := LineParse(text, Lex(text, 0), l);
  }

  /** The grammar is not ambiguous: lines written alike mean the same. */
  lemma Unambiguous(l: Line, m: Line)
    requires LineOk(l) && LineOk(m) && Written(l) == Written(m)
    ensures Meaning(l) == Meaning(m)
  {
    hide Meaning, Written, LineOk, Reads, Lex, Spells, ParseTokens;
    var text := Render(Written(l));
    RenderIsLine(l);
    RenderIsLine(m);
    var c := LineParses(text, l);
    var d := LineParses(text, m);
    SpellsOnce(text, c, Meaning(l), Meaning(m));
  }

  // Every tree can be written

  function Size(t: Tree): (n: nat) {
    match t
    case TExec(_) => 1
    case TRedir(cmd, _, _) => Size(cmd) + 1
    case TPipe(left, right) => Size(left) + Size(right) + 1
    case TList(left, right) => Size(left) + Size(right) + 1
    case TBack(cmd) => Size(cmd) + 1
  }

  /** A tree without the redirections around it, and those redirections. */
  function Core(t: Tree): (r: Tree)
    ensures !r.TRedir? && Size(r) <= Size(t) && (t.TRedir? ==> Size(r) < Size(t))
  {
    if t.TRedir? then Core(t.cmd) else t
  }

  function Around(t: Tree): (r: seq<Item>) {
    if t.TRedir? then Around(t.cmd) + [To(if t.input then "<" else ">", t.file)] else []
  }

  /** A tree without the ampersands after it, and their number. */
  function Fore(t: Tree): (r: Tree)
    ensures !r.TBack? && Size(r) <= Size(t) && (t.TBack? ==> Size(r) < Size(t))
  {
    if t.TBack? then Fore(t.cmd) else t
  }

  function Amps(t: Tree): (n: nat) { if t.TBack? then Amps(t.cmd) + 1 else 0 }

  function Plainly(argv: seq<string>): (r: seq<Item>) { seq(|argv|, i requires 0 <= i < |argv| => Arg(argv[i])) }

  // Parentheses go only where a tree is not of the shape its place asks for.

  function AsSimple(t: Tree): (r: Simple)
    decreases Size(t), if t.TPipe? then 3 else if t.TList? || t.TBack? then 2 else 1
  {
    var core := Core(t);
    if core.TExec? then Words(Plainly(core.argv) + Around(t)) else Paren(AsLine(core), Around(t))
  }

  function AsPipe(t: Tree): (r: Pipeline)
    decreases Size(t), if t.TPipe? then 1 else if t.TList? || t.TBack? then 3 else 2
  {
    if t.TPipe? then Bar(AsSimple(t.left), AsPipe(t.right)) else One(AsSimple(t))
  }

  function AsLine(t: Tree): (r: Line)
    decreases Size(t), if t.TPipe? then 2 else if t.TList? || t.TBack? then 1 else 3
  {
    if t.TList? then Semi(AsPipe(Fore(t.left)), Amps(t.left), AsLine(t.right))
    else Last(AsPipe(Fore(t)), Amps(t))
  }

  lemma {:induction false} ForeAmps(t: Tree, n: nat)
    ensures Background(Fore(t), Amps(t) + n) == Background(t, n)
    decreases t
  {
    if t.TBack? {
      ForeAmps(t.cmd, n + 1);
    }
  }

  lemma {:induction false} RedirectedMore(t: Tree, a: seq<Item>, b: seq<Item>)
    ensures Redirected(t, a + b) == Redirected(Redirected(t, a), b)
    ensures Arguments(a + b) == Arguments(a) + Arguments(b)
    decreases |a|
  {
    if a == [] {
      assert a + b == b;
    } else {
      assert (a + b)[1..] == a[1..] + b;
      RedirectedMore(if a[0].Arg? then t else TRedir(t, a[0].file, a[0].op == "<"), a[1..], b);
    }
  }

  lemma {:induction false} CoreAround(t: Tree)
    requires Printable(t)
    ensures Redirected(Core(t), Around(t)) == t
    ensures ItemsOk(Around(t)) && Arguments(Around(t)) == [] && Printable(Core(t))
    decreases t
  {
    if t.TRedir? {
      var to := To(if t.input then "<" else ">", t.file);
      CoreAround(t.cmd);
      RedirectedMore(Core(t), Around(t.cmd), [to]);
      assert Redirected(t.cmd, [to]) == t && Arguments([to]) == [];
    }
  }

  lemma {:induction false} PlainlyWritten(t: Tree, argv: seq<string>)
    ensures Arguments(Plainly(argv)) == argv && Redirected(t, Plainly(argv)) == t
    decreases |argv|
  {
    if argv != [] {
      PlainlyWritten(t, argv[1..]);
      assert Plainly(argv)[1..] == Plainly(argv[1..]);
    }
  }

  lemma {:induction false} ForePrintable(t: Tree)
    requires Printable(t)
    ensures Printable(Fore(t))
    decreases t
  {
    if t.TBack? {
      ForePrintable(t.cmd);
    }
  }

  lemma AsSimpleOk(t: Tree)
    requires Printable(t)
    ensures SimpleOk(AsSimple(t)) && SimpleMeaning(AsSimple(t)) == t
    decreases Size(t), if t.TPipe? then 3 else if t.TList? || t.TBack? then 2 else 1
  {
    CoreAround(t);
    var core := Core(t);
    if core.TExec? {
      PlainlyWritten(core, core.argv);
      RedirectedMore(core, Plainly(core.argv), Around(t));
      assert core.argv + [] == core.argv;
      assert core == TExec(core.argv);
    } else {
      AsLineOk(core);
    }
  }

  lemma AsPipeOk(t: Tree)
    requires Printable(t)
    ensures PipelineOk(AsPipe(t)) && PipeMeaning(AsPipe(t)) == t
    decreases Size(t), if t.TPipe? then 1 else if t.TList? || t.TBack? then 3 else 2
  {
    if t.TPipe? {
      AsSimpleOk(t.left);
      AsPipeOk(t.right);
    } else {
      AsSimpleOk(t);
    }
  }

  /** Every printable tree is the meaning of the line written for it. */
  lemma AsLineOk(t: Tree)
    requires Printable(t)
    ensures LineOk(AsLine(t)) && Meaning(AsLine(t)) == t
    decreases Size(t), if t.TPipe? then 2 else if t.TList? || t.TBack? then 1 else 3
  {
    var u := if t.TList? then t.left else t;
    ForePrintable(u);
    ForeAmps(u, 0);
    AsPipeOk(Fore(u));
    if t.TList? {
      AsLineOk(t.right);
    }
  }

  function Print(t: Tree): (r: string) { Render(Written(AsLine(t))) }

  /** Round trip: every printable tree, printed and parsed, comes back. */
  lemma PrintThenParse(t: Tree) returns (c: Cmd)
    requires Printable(t)
    ensures ParseTokens(Lex(Print(t), 0)) == Ok(c, []) && Spells(Print(t), c, t)
  {
    hide IsLine;
    AsLineOk(t);
    RenderIsLine(AsLine(t));
    c := LineParses(Print(t), AsLine(t));
  }

  /** Printing what was parsed, and parsing that, gives the same tree again. */
  lemma ParsePrintParse(text: string, c: Cmd, t: Tree) returns (d: Cmd)
    requires CString(text) && ParseTokens(Lex(text, 0)) == Ok(c, []) && Spells(text, c, t)
    ensures ParseTokens(Lex(Print(t), 0)) == Ok(d, []) && Spells(Print(t), d, t)
  {
    hide Print;
    ParsedFine(text);
    SpeltPrintable(text, WordSpans(Lex(text, 0)), c, t);
    d := PrintThenParse(t);
  }
}
