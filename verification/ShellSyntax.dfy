/** Exactly which texts the shell accepts, and as what: the grammar of user/sh.c as trees of tokens, proved
    equivalent to the parser in both directions. */
module ShellSyntax {
  import opened ShellGrammar
  import opened ShellLayout

  // ---------- the grammar ----------

  /** A word and the redirections after it. */
  datatype Arg = Arg(word: string, redirs: seq<Redirection>)

  /** Redirections and words, or a line in parentheses and redirections. */
  datatype ExecTree = Simple(first: seq<Redirection>, args: seq<Arg>)
    | Block(inside: LineTree, redirs: seq<Redirection>)

  /** Commands with | between them. */
  datatype PipeTree = Last(e: ExecTree) | Then(e: ExecTree, more: PipeTree)

  /** A pipe, any number of &, and possibly ; and another line. */
  datatype LineTree = Only(p: PipeTree, amps: nat) | Before(p: PipeTree, amps: nat, next: LineTree)

  function RedirsTokens(rs: seq<Redirection>): seq<Token> {
    if rs == [] then [] else [SignOf(rs[0].mode), Word(rs[0].file)] + RedirsTokens(rs[1..])
  }

  function ArgsTokens(args: seq<Arg>): seq<Token> {
    if args == [] then [] else [Word(args[0].word)] + RedirsTokens(args[0].redirs) + ArgsTokens(args[1..])
  }

  function ExecTokens(e: ExecTree): seq<Token> {
    match e
    case Simple(first, args) => RedirsTokens(first) + ArgsTokens(args)
    case Block(inside, redirs) => [Sym('(')] + LineTokens(inside) + [Sym(')')] + RedirsTokens(redirs)
  }

  function PipeTokens(p: PipeTree): seq<Token> {
    match p
    case Last(e) => ExecTokens(e)
    case Then(e, more) => ExecTokens(e) + [Sym('|')] + PipeTokens(more)
  }

  function Amps(n: nat): seq<Token> {
    if n == 0 then [] else [Sym('&')] + Amps(n - 1)
  }

  function LineTokens(l: LineTree): seq<Token> {
    match l
    case Only(p, amps) => PipeTokens(p) + Amps(amps)
    case Before(p, amps, next) => PipeTokens(p) + Amps(amps) + [Sym(';')] + LineTokens(next)
  }

  // ---------- what it means ----------

  function WordsOf(args: seq<Arg>): seq<string> {
    if args == [] then [] else [args[0].word] + WordsOf(args[1..])
  }

  function RedirsOf(args: seq<Arg>): seq<Redirection> {
    if args == [] then [] else args[0].redirs + RedirsOf(args[1..])
  }

  function ExecCmd(e: ExecTree): Cmd<string> {
    match e
    case Simple(first, args) => Wrap(Exec(WordsOf(args)), first + RedirsOf(args))
    case Block(inside, redirs) => Wrap(LineCmd(inside), redirs)
  }

  function PipeCmd(p: PipeTree): Cmd<string> {
    match p
    case Last(e) => ExecCmd(e)
    case Then(e, more) => Pipe(ExecCmd(e), PipeCmd(more))
  }

  function Backs(c: Cmd<string>, n: nat): Cmd<string>
    decreases n
  {
    if n == 0 then c else Backs(Back(c), n - 1)
  }

  function LineCmd(l: LineTree): Cmd<string> {
    match l
    case Only(p, amps) => Backs(PipeCmd(p), amps)
    case Before(p, amps, next) => List(Backs(PipeCmd(p), amps), LineCmd(next))
  }

  /** No command has MAXARGS words or more. */
  predicate ExecOk(e: ExecTree) {
    match e
    case Simple(_, args) => |args| < MAXARGS
    case Block(inside, _) => LineOk(inside)
  }

  predicate PipeOk(p: PipeTree) {
    match p
    case Last(e) => ExecOk(e)
    case Then(e, more) => ExecOk(e) && PipeOk(more)
  }

  predicate LineOk(l: LineTree) {
    match l
    case Only(p, _) => PipeOk(p)
    case Before(p, _, next) => PipeOk(p) && LineOk(next)
  }

  // ---------- reading a token ----------

  /** s is read as toks and then as rest is. */
  ghost predicate From(s: string, toks: seq<Token>, rest: string) {
    Tokens(s) == toks + Tokens(rest) && Tail(s) == Tail(rest)
  }

  lemma FromNone(s: string, rest: string)
    requires Alike(s, rest)
    ensures From(s, [], rest)
  {
  }

  lemma FromCat(s: string, a: seq<Token>, t: string, b: seq<Token>, rest: string)
    requires From(s, a, t) && From(t, b, rest)
    ensures From(s, a + b, rest)
  {
    hide Tokens, Tail;
  }

  lemma FromToken(s: string)
    requires GetToken(s).tok != End
    ensures From(s, [GetToken(s).tok], GetToken(s).rest)
  {
    hide GetToken;
  }

  lemma PeekSym(s: string, c: char)
    requires Symbol(c) && c != '>' && Peek(s, {c})
    ensures GetToken(s).tok == Sym(c) && From(s, [Sym(c)], GetToken(s).rest)
  {
    PeekSees(s, {c});
    FromToken(s);
    hide GetToken, Peek;
  }

  // ---------- what is parsed is in the grammar ----------

  lemma PeekMode(s: string)
    requires Peek(s, {'<', '>'})
    ensures GetToken(s).tok == SignOf(ModeOf(GetToken(s).tok))
  {
    PeekSees(s, {'<', '>'});
    hide GetToken, Peek;
  }

  lemma {:induction false} RedirsSound(s: string)
    requires ParseRedirs(s).Ok?
    ensures From(s, RedirsTokens(ParseRedirs(s).value), ParseRedirs(s).rest)
    decreases |s|
  {
    hide GetToken, Peek, Skip, From;
    if Peek(s, {'<', '>'}) {
      var op := GetToken(s);
      PeekMode(s);
      FromToken(s);
      var file := GetToken(op.rest);
      FromToken(op.rest);
      RedirsSound(file.rest);
      var r := ParseRedirs(file.rest);
      FromCat(s, [op.tok], op.rest, [file.tok], file.rest);
      assert [op.tok] + [file.tok] == [op.tok, file.tok];
      FromCat(s, [op.tok, file.tok], file.rest, RedirsTokens(r.value), r.rest);
      assert ([Redirection(file.tok.w, ModeOf(op.tok))] + r.value)[1..] == r.value;
    } else {
      AlikeSkip(s);
      FromNone(s, Skip(s));
    }
  }

  lemma {:induction false} ArgsSound(s: string, argc: nat) returns (args: seq<Arg>)
    requires ParseArgs(s, argc).Ok? && argc < MAXARGS
    ensures
      var r := ParseArgs(s, argc);
      && From(s, ArgsTokens(args), r.rest) && WordsOf(args) == r.value.argv && RedirsOf(args) == r.value.redirs
      && argc + |args| < MAXARGS
    decreases |s|
  {
    hide GetToken, Peek, Skip, From, ParseRedirs;
    args := [];
    if Peek(s, {'|', ')', '&', ';'}) {
      AlikeSkip(s);
      FromNone(s, Skip(s));
    } else {
      var t := GetToken(s);
      if t.tok == End {
        EndRest(s);
        FromNone(s, t.rest);
      } else {
        FromToken(s);
        RedirsSound(t.rest);
        var r := ParseRedirs(t.rest);
        var more := ArgsSound(r.rest, argc + 1);
        args := [Arg(t.tok.w, r.value)] + more;
        assert args[1..] == more;
        FromCat(s, [t.tok], t.rest, RedirsTokens(r.value), r.rest);
        FromCat(s, [t.tok] + RedirsTokens(r.value), r.rest, ArgsTokens(more), ParseArgs(s, argc).rest);
      }
    }
  }

  lemma EndRest(s: string)
    requires GetToken(s).tok == End
    ensures Alike(s, GetToken(s).rest) && Skip(s) == GetToken(s).rest
  {
    SkipTwice(s);
    AlikeSkip(s);
  }

  lemma {:induction false} ExecSound(s: string) returns (e: ExecTree)
    requires ParseExec(s).Ok?
    ensures From(s, ExecTokens(e), ParseExec(s).rest) && ExecCmd(e) == ParseExec(s).value && ExecOk(e)
    decreases |s|, 2
  {
    hide GetToken, Peek, Skip, From, ParseRedirs, ParseArgs, ParseLine, Wrap;
    if Peek(s, {'('}) {
      e := BlockSound(s);
    } else {
      var r := ParseRedirs(s);
      RedirsSound(s);
      var args := ArgsSound(r.rest, 0);
      e := Simple(r.value, args);
      FromCat(s, RedirsTokens(r.value), r.rest, ArgsTokens(args), ParseArgs(r.rest, 0).rest);
    }
  }

  lemma {:induction false} BlockSound(s: string) returns (e: ExecTree)
    requires Peek(s, {'('}) && ParseBlock(s).Ok?
    ensures From(s, ExecTokens(e), ParseBlock(s).rest) && ExecCmd(e) == ParseBlock(s).value && ExecOk(e)
    decreases |s|, 1
  {
    hide GetToken, Peek, Skip, From, ParseRedirs, ParseLine, Wrap;
    PeekSym(s, '(');
    PeekToken(s, {'('});
    var r := ParseLine(GetToken(s).rest);
    var l := LineSound(GetToken(s).rest);
    PeekSym(r.rest, ')');
    var last := GetToken(r.rest).rest;
    RedirsSound(last);
    var rs := ParseRedirs(last);
    e := Block(l, rs.value);
    FromCat(s, [Sym('(')], GetToken(s).rest, LineTokens(l), r.rest);
    FromCat(s, [Sym('(')] + LineTokens(l), r.rest, [Sym(')')], last);
    FromCat(s, [Sym('(')] + LineTokens(l) + [Sym(')')], last, RedirsTokens(rs.value), rs.rest);
  }

  lemma {:induction false} PipeSound(s: string) returns (p: PipeTree)
    requires ParsePipe(s).Ok?
    ensures From(s, PipeTokens(p), ParsePipe(s).rest) && PipeCmd(p) == ParsePipe(s).value && PipeOk(p)
    decreases |s|, 3
  {
    hide GetToken, Peek, Skip, From, ParseExec;
    var r := ParseExec(s);
    var e := ExecSound(s);
    if Peek(r.rest, {'|'}) {
      PeekSym(r.rest, '|');
      PeekToken(r.rest, {'|'});
      var next := GetToken(r.rest).rest;
      var more := PipeSound(next);
      p := Then(e, more);
      FromCat(s, ExecTokens(e), r.rest, [Sym('|')], next);
      FromCat(s, ExecTokens(e) + [Sym('|')], next, PipeTokens(more), ParsePipe(next).rest);
    } else {
      p := Last(e);
    }
  }

  lemma {:induction false} BacksSound(c: Cmd<string>, s: string) returns (n: nat)
    ensures From(s, Amps(n), ParseBacks(c, s).rest) && Backs(c, n) == ParseBacks(c, s).value
    decreases |s|
  {
    hide GetToken, Peek, Skip, From;
    if Peek(s, {'&'}) {
      PeekSym(s, '&');
      PeekToken(s, {'&'});
      n := BacksSound(Back(c), GetToken(s).rest);
      FromCat(s, [Sym('&')], GetToken(s).rest, Amps(n), ParseBacks(c, s).rest);
      n := n + 1;
    } else {
      n := 0;
      AlikeSkip(s);
      FromNone(s, Skip(s));
    }
  }

  lemma {:induction false} LineSound(s: string) returns (l: LineTree)
    requires ParseLine(s).Ok?
    ensures From(s, LineTokens(l), ParseLine(s).rest) && LineCmd(l) == ParseLine(s).value && LineOk(l)
    decreases |s|, 4
  {
    hide GetToken, Peek, Skip, From, ParsePipe, ParseBacks;
    var r := ParsePipe(s);
    var p := PipeSound(s);
    var b := ParseBacks(r.value, r.rest);
    var n := BacksSound(r.value, r.rest);
    FromCat(s, PipeTokens(p), r.rest, Amps(n), b.rest);
    if Peek(b.rest, {';'}) {
      PeekSym(b.rest, ';');
      PeekToken(b.rest, {';'});
      var next := GetToken(b.rest).rest;
      var more := LineSound(next);
      l := Before(p, n, more);
      FromCat(s, PipeTokens(p) + Amps(n), b.rest, [Sym(';')], next);
      FromCat(s, PipeTokens(p) + Amps(n) + [Sym(';')], next, LineTokens(more), ParseLine(next).rest);
    } else {
      l := Only(p, n);
    }
  }

  // ---------- what is in the grammar is parsed ----------

  /** Nothing follows, or a sign of cs. */
  predicate Next(toks: seq<Token>, cs: set<char>) {
    toks != [] ==> toks[0].Sym? && toks[0].c in cs
  }

  /** The parser has read what it should and left the rest. */
  ghost predicate Left<T>(r: Result<T>, v: T, s: string, rest: seq<Token>) {
    r.Ok? && r.value == v && Tokens(r.rest) == rest && Tail(r.rest) == Tail(s)
  }

  lemma TokenIs(s: string, t: Token, rest: seq<Token>)
    requires Tokens(s) == [t] + rest
    ensures GetToken(s).tok == t && t != End && Tokens(GetToken(s).rest) == rest && Tail(GetToken(s).rest) == Tail(s)
  {
    hide GetToken;
    assert Tokens(s)[1..] == rest;
  }

  lemma NoToken(s: string)
    requires Tokens(s) == []
    ensures GetToken(s).tok == End
  {
    hide GetToken;
  }

  /** peek, from the tokens. */
  lemma PeekIs(s: string, cs: set<char>)
    requires Symbols(cs)
    ensures Peek(s, cs) <==> Tokens(s) != [] && exists c :: c in cs && Begins(Tokens(s)[0], c)
  {
    PeekSees(s, cs);
    hide GetToken, Peek;
    if Tokens(s) == [] { NoToken(s); }
  }

  lemma PeekNext(s: string, cs: set<char>, ds: set<char>)
    requires Symbols(cs) && '>' !in cs && Next(Tokens(s), ds)
    ensures Peek(s, cs) <==> Tokens(s) != [] && Tokens(s)[0].c in cs
  {
    PeekIs(s, cs);
    hide Peek, Tokens;
    if Tokens(s) != [] && Tokens(s)[0].c in cs { assert Begins(Tokens(s)[0], Tokens(s)[0].c); }
  }

  lemma PeekWord(s: string, cs: set<char>)
    requires Symbols(cs) && Tokens(s) != [] && Tokens(s)[0].Word?
    ensures !Peek(s, cs)
  {
    PeekIs(s, cs);
  }

  lemma Skipped(s: string)
    ensures Tokens(Skip(s)) == Tokens(s) && Tail(Skip(s)) == Tail(s)
  {
    AlikeSkip(s);
  }

  lemma ModePeeks(s: string, m: Mode, rest: seq<Token>)
    requires Tokens(s) == [SignOf(m)] + rest
    ensures Peek(s, {'<', '>'}) && ModeOf(SignOf(m)) == m
  {
    PeekIs(s, {'<', '>'});
    assert Begins(SignOf(m), if m == In then '<' else '>');
  }

  /** What may follow redirections: no redirection. */
  predicate NoSign(toks: seq<Token>) {
    toks != [] ==> toks[0].Word? || (toks[0].Sym? && toks[0].c != '<' && toks[0].c != '>')
  }

  lemma NoSignPeek(s: string)
    requires NoSign(Tokens(s))
    ensures !Peek(s, {'<', '>'})
  {
    PeekIs(s, {'<', '>'});
  }

  lemma {:induction false} RedirsComplete(rs: seq<Redirection>, s: string, rest: seq<Token>)
    requires Tokens(s) == RedirsTokens(rs) + rest && NoSign(rest)
    ensures Left(ParseRedirs(s), rs, s, rest)
    decreases |rs|
  {
    hide GetToken, Peek, Skip, Tokens, Tail;
    if rs == [] {
      NoSignPeek(s);
      Skipped(s);
    } else {
      var more := RedirsTokens(rs[1..]) + rest;
      assert Tokens(s) == [SignOf(rs[0].mode)] + ([Word(rs[0].file)] + more);
      ModePeeks(s, rs[0].mode, [Word(rs[0].file)] + more);
      TokenIs(s, SignOf(rs[0].mode), [Word(rs[0].file)] + more);
      var op := GetToken(s);
      TokenIs(op.rest, Word(rs[0].file), more);
      RedirsComplete(rs[1..], GetToken(op.rest).rest, rest);
      assert [Redirection(rs[0].file, rs[0].mode)] + rs[1..] == rs;
    }
  }

  lemma ArgsEnd(s: string, argc: nat)
    requires Next(Tokens(s), STOPS)
    ensures Left(ParseArgs(s, argc), Args([], []), s, Tokens(s))
  {
    PeekNext(s, STOPS, STOPS);
    Skipped(s);
    hide Peek, Tokens, Tail;
    if Tokens(s) == [] {
      NoToken(s);
      EndRest(s);
    }
  }

  lemma ArgsFirst(args: seq<Arg>, rest: seq<Token>)
    requires Next(rest, STOPS)
    ensures NoSign(ArgsTokens(args) + rest)
  {
    if args == [] { assert ArgsTokens(args) + rest == rest; }
  }

  lemma ArgsSplit(args: seq<Arg>, rest: seq<Token>)
    ensures ArgsTokens(args) + rest == if args == [] then rest
      else [Word(args[0].word)] + (RedirsTokens(args[0].redirs) + (ArgsTokens(args[1..]) + rest))
  {
  }

  lemma {:induction false} ArgsComplete(args: seq<Arg>, s: string, rest: seq<Token>, argc: nat)
    requires Tokens(s) == ArgsTokens(args) + rest && Next(rest, STOPS) && argc + |args| < MAXARGS
    ensures Left(ParseArgs(s, argc), Args(WordsOf(args), RedirsOf(args)), s, rest)
    decreases |args|
  {
    hide GetToken, Peek, Skip, Tokens, Tail, ParseRedirs, ArgsTokens, RedirsTokens;
    ArgsSplit(args, rest);
    if args == [] {
      ArgsEnd(s, argc);
    } else {
      var a, more := args[0], ArgsTokens(args[1..]) + rest;
      PeekWord(s, STOPS);
      TokenIs(s, Word(a.word), RedirsTokens(a.redirs) + more);
      ArgsFirst(args[1..], rest);
      RedirsComplete(a.redirs, GetToken(s).rest, more);
      ArgsComplete(args[1..], ParseRedirs(GetToken(s).rest).rest, rest, argc + 1);
    }
  }

  lemma FirstSigns(first: seq<Redirection>, args: seq<Arg>, s: string, rest: seq<Token>)
    requires Tokens(s) == RedirsTokens(first) + ArgsTokens(args) + rest && Next(rest, STOPS)
    ensures !Peek(s, {'('})
  {
    PeekIs(s, {'('});
    hide Tokens, Peek;
    if first == [] && args == [] { assert Tokens(s) == rest; }
  }

  lemma {:induction false} ExecComplete(e: ExecTree, s: string, rest: seq<Token>)
    requires ExecOk(e) && Tokens(s) == ExecTokens(e) + rest && Next(rest, STOPS)
    ensures Left(ParseExec(s), ExecCmd(e), s, rest)
    decreases e, 0
  {
    hide GetToken, Peek, Skip, Tokens, Tail, ParseRedirs, ParseArgs, ParseLine, Wrap;
    match e {
      case Simple(first, args) =>
        FirstSigns(first, args, s, rest);
        assert Tokens(s) == RedirsTokens(first) + (ArgsTokens(args) + rest);
        ArgsFirst(args, rest);
        RedirsComplete(first, s, ArgsTokens(args) + rest);
        ArgsComplete(args, ParseRedirs(s).rest, rest, 0);
      case Block(inside, redirs) =>
        var more := RedirsTokens(redirs) + rest;
        assert Tokens(s) == [Sym('(')] + (LineTokens(inside) + ([Sym(')')] + more));
        OpenIs(s, '(', LineTokens(inside) + ([Sym(')')] + more));
        var s1 := GetToken(s).rest;
        LineComplete(inside, s1, [Sym(')')] + more);
        var s2 := ParseLine(s1).rest;
        OpenIs(s2, ')', more);
        RedirsComplete(redirs, GetToken(s2).rest, rest);
    }
  }

  lemma OpenIs(s: string, c: char, rest: seq<Token>)
    requires Tokens(s) == [Sym(c)] + rest && Symbol(c)
    ensures Peek(s, {c}) && Tokens(GetToken(s).rest) == rest && Tail(GetToken(s).rest) == Tail(s)
  {
    PeekIs(s, {c});
    TokenIs(s, Sym(c), rest);
    hide Tokens, Tail, GetToken, Peek;
    assert Begins(Sym(c), c);
  }

  lemma {:induction false} PipeComplete(p: PipeTree, s: string, rest: seq<Token>)
    requires PipeOk(p) && Tokens(s) == PipeTokens(p) + rest && Next(rest, {')', '&', ';'})
    ensures Left(ParsePipe(s), PipeCmd(p), s, rest)
    decreases p, 1
  {
    hide GetToken, Peek, Skip, Tokens, Tail, ParseExec;
    match p {
      case Last(e) =>
        ExecComplete(e, s, rest);
        PeekNext(ParseExec(s).rest, {'|'}, {')', '&', ';'});
      case Then(e, more) =>
        var after := [Sym('|')] + (PipeTokens(more) + rest);
        assert Tokens(s) == ExecTokens(e) + after;
        ExecComplete(e, s, after);
        var s1 := ParseExec(s).rest;
        OpenIs(s1, '|', PipeTokens(more) + rest);
        PipeComplete(more, GetToken(s1).rest, rest);
    }
  }

  lemma {:induction false} BacksComplete(c: Cmd<string>, n: nat, s: string, rest: seq<Token>)
    requires Tokens(s) == Amps(n) + rest && Next(rest, {')', ';'})
    ensures Left(ParseBacks(c, s), Backs(c, n), s, rest)
    decreases n
  {
    hide GetToken, Peek, Skip, Tokens, Tail;
    if n == 0 {
      assert Tokens(s) == rest;
      PeekNext(s, {'&'}, {')', ';'});
      Skipped(s);
    } else {
      assert Tokens(s) == [Sym('&')] + (Amps(n - 1) + rest);
      OpenIs(s, '&', Amps(n - 1) + rest);
      BacksComplete(Back(c), n - 1, GetToken(s).rest, rest);
    }
  }

  lemma AmpsFirst(n: nat, rest: seq<Token>)
    requires Next(rest, {')', ';'})
    ensures Next(Amps(n) + rest, {')', '&', ';'})
  {
    if n == 0 { assert Amps(n) + rest == rest; }
  }

  lemma {:induction false} LineComplete(l: LineTree, s: string, rest: seq<Token>)
    requires LineOk(l) && Tokens(s) == LineTokens(l) + rest && Next(rest, {')'})
    ensures Left(ParseLine(s), LineCmd(l), s, rest)
    decreases l, 2
  {
    hide GetToken, Peek, Skip, Tokens, Tail, ParsePipe, ParseBacks;
    var after := if l.Only? then rest else [Sym(';')] + (LineTokens(l.next) + rest);
    assert Tokens(s) == PipeTokens(l.p) + (Amps(l.amps) + after);
    AmpsFirst(l.amps, after);
    PipeComplete(l.p, s, Amps(l.amps) + after);
    var s1 := ParsePipe(s).rest;
    BacksComplete(PipeCmd(l.p), l.amps, s1, after);
    var s2 := ParseBacks(PipeCmd(l.p), s1).rest;
    if l.Only? {
      PeekNext(s2, {';'}, {')'});
    } else {
      OpenIs(s2, ';', LineTokens(l.next) + rest);
      LineComplete(l.next, GetToken(s2).rest, rest);
    }
  }

  // ---------- exactly the grammar ----------

  /** The text spells tree l and nothing else. */
  ghost predicate Spells(s: string, l: LineTree) {
    LineOk(l) && Tokens(s) == LineTokens(l) && Tail(s) == ""
  }

  /** A text is accepted, as command c, if and only if its tokens are those of some tree of the grammar that means c. */
  lemma ParsesExactly(s: string, c: Cmd<string>)
    ensures ParseCmd(s) == Ok(c, []) <==> exists l :: Spells(s, l) && LineCmd(l) == c
  {
    hide Tokens, Tail, ParseLine, LineTokens, LineOk, LineCmd;
    if ParseCmd(s) == Ok(c, []) {
      var l := LineSound(s);
      EmptyText();
      assert Spells(s, l) && LineCmd(l) == c;
    }
    if exists l :: Spells(s, l) && LineCmd(l) == c {
      var l :| Spells(s, l) && LineCmd(l) == c;
      assert LineTokens(l) + [] == LineTokens(l);
      LineComplete(l, s, []);
      EmptyText();
      AlikeEmpty(ParseLine(s).rest);
    }
  }

  // ---------- which error ----------

  /** A line that fails has no tree. */
  lemma FailsExactly(s: string)
    ensures ParseCmd(s).Fail? <==> forall l :: !Spells(s, l)
  {
    hide ParseLine, Spells, LineCmd;
    if ParseCmd(s).Ok? {
      ParsesExactly(s, ParseCmd(s).value);
    } else {
      forall l ensures !Spells(s, l) { ParsesExactly(s, LineCmd(l)); }
    }
  }

  /** What is opened and never closed. */
  lemma Unclosed(c: Cmd<string>)
    requires Typed(c)
    ensures ParseCmd("(" + Show(c, 3)) == Fail(MissingParen)
  {
    hide Show, GetToken, ParseRedirs, ParseArgs;
    TypedPrintable(c);
    LineBack(c, "");
    assert Show(c, 3) + "" == Show(c, 3);
    SymToken('(', Show(c, 3));
    ShowClean(c, 3);
    SkipSame(Show(c, 3));
    hide ParseLine;
    BlockFails("(" + Show(c, 3), MissingParen);
  }

  lemma BlockFails(s: string, e: Error)
    requires Peek(s, {'('}) && ParseBlock(s) == Fail(e)
    ensures ParseCmd(s) == Fail(e)
  {
    hide ParseBlock, ParseRedirs, ParseArgs;
    assert ParseExec(s) == Fail(e);
    assert ParsePipe(s) == Fail(e);
    assert ParseLine(s) == Fail(e);
  }

  /** What is closed and was never opened. */
  lemma Unopened(c: Cmd<string>, more: string)
    requires Typed(c)
    ensures ParseCmd(Show(c, 3) + (")" + more)) == Fail(Leftovers)
  {
    hide Show, ParseLine;
    TypedPrintable(c);
    LineBack(c, ")" + more);
  }

  lemma SimpleFails(s: string, e: Error)
    requires !Peek(s, {'('}) && ParseRedirs(s) == Ok([], s) && ParseArgs(s, 0) == Fail(e)
    ensures ParseCmd(s) == Fail(e)
  {
    hide ParseArgs, ParseRedirs;
    assert ParseExec(s) == Fail(e);
    assert ParsePipe(s) == Fail(e);
    assert ParseLine(s) == Fail(e);
  }

  /** After some words, something that makes the rest fail. */
  lemma {:induction false} WordsThen(argv: seq<string>, more: string, argc: nat, e: Error)
    requires argv != [] && (forall i :: 0 <= i < |argv| ==> WordOk(argv[i])) && argc + |argv| < MAXARGS
    requires more != [] ==> !Blank(more[0])
    requires match ParseRedirs(more)
             case Fail(e') => e' == e
             case Ok(rs, rest) => ParseArgs(rest, argc + |argv|) == Fail(e)
    ensures ParseArgs(ShowWords(argv) + more, argc) == Fail(e)
    decreases |argv|
  {
    hide ParseArgs, ParseRedirs, WordOk;
    WordsSplit(argv, more);
    if |argv| == 1 {
      assert ShowWords(argv[1..]) + more == more;
      ArgThen(argv[0], more, argc, e);
    } else {
      var tail := ShowWords(argv[1..]) + more;
      WordsFirst(argv[1..], more);
      NoRedirs(tail);
      WordsThen(argv[1..], more, argc + 1, e);
      ArgThen(argv[0], tail, argc, e);
    }
  }

  lemma ArgThen(w: string, tail: string, argc: nat, e: Error)
    requires WordOk(w) && argc + 1 < MAXARGS && (tail != [] ==> !Blank(tail[0]))
    requires match ParseRedirs(tail)
             case Fail(e') => e' == e
             case Ok(rs, rest) => ParseArgs(rest, argc + 1) == Fail(e)
    ensures ParseArgs(w + (" " + tail), argc) == Fail(e)
  {
    hide GetToken, ParseRedirs, Skip;
    WordToken(w, " " + tail);
    SkipBlank(tail);
    SkipSame(tail);
    assert Plain(w[0]) && (w + (" " + tail))[0] == w[0];
  }

  lemma WordsFail(argv: seq<string>, more: string, e: Error)
    requires argv != [] && (forall i :: 0 <= i < |argv| ==> WordOk(argv[i]))
    requires ParseArgs(ShowWords(argv) + more, 0) == Fail(e)
    ensures ParseCmd(ShowWords(argv) + more) == Fail(e)
  {
    hide ParseArgs, WordOk;
    WordsFirst(argv, more);
    SkipSame(ShowWords(argv) + more);
    NoRedirs(ShowWords(argv) + more);
    SimpleFails(ShowWords(argv) + more, e);
  }

  /** A redirection without a file. */
  lemma NoFile(argv: seq<string>, m: Mode)
    requires Typed(Exec(argv)) && argv != []
    ensures ParseCmd(ShowWords(argv) + ShowMode(m)) == Fail(MissingFile)
  {
    forall i | 0 <= i < |argv| ensures WordOk(argv[i]) { TypeablePlain(argv[i]); }
    hide ParseArgs, WordOk;
    SignAlone(m);
    WordsThen(argv, ShowMode(m), 0, MissingFile);
    WordsFail(argv, ShowMode(m), MissingFile);
  }

  lemma SignAlone(m: Mode)
    ensures ParseRedirs(ShowMode(m)) == Fail(MissingFile) && !Blank(ShowMode(m)[0])
  {
    ShellGrammar.ModeToken(m, "");
    assert ShowMode(m) + "" == ShowMode(m);
    hide ModeOf, Peek;
  }

  /** A parenthesis after a word. */
  lemma Misplaced(argv: seq<string>, more: string)
    requires Typed(Exec(argv)) && argv != []
    ensures ParseCmd(ShowWords(argv) + ("(" + more)) == Fail(Syntax)
  {
    forall i | 0 <= i < |argv| ensures WordOk(argv[i]) { TypeablePlain(argv[i]); }
    hide WordOk;
    ParenAlone(more, |argv|);
    hide ParseArgs, ParseRedirs;
    WordsThen(argv, "(" + more, 0, Syntax);
    WordsFail(argv, "(" + more, Syntax);
  }

  lemma ParenAlone(more: string, argc: nat)
    ensures ParseRedirs("(" + more) == Ok([], "(" + more) && ParseArgs("(" + more, argc) == Fail(Syntax)
  {
    SymToken('(', more);
    hide GetToken;
  }

  /** One word too many. */
  lemma TooMany(argv: seq<string>, more: string)
    requires |argv| == MAXARGS && forall i :: 0 <= i < |argv| ==> Typeable(argv[i])
    ensures ParseCmd(ShowWords(argv) + more) == Fail(TooManyArgs)
  {
    forall i | 0 <= i < |argv| ensures WordOk(argv[i]) { TypeablePlain(argv[i]); }
    hide WordOk, ParseArgs, ParseRedirs;
    var n := MAXARGS - 1;
    var last := ShowWords(argv[n..]) + more;
    WordsJoin(argv, n, more);
    WordsFirst(argv[n..], more);
    NoRedirs(last);
    LastWord(argv[n], last, argv[n..], more);
    WordsThen(argv[..n], last, 0, TooManyArgs);
    WordsFail(argv, more, TooManyArgs);
  }

  lemma LastWord(w: string, s: string, ws: seq<string>, more: string)
    requires ws == [w] && WordOk(w) && s == ShowWords(ws) + more
    ensures ParseArgs(s, MAXARGS - 1) == Fail(TooManyArgs)
  {
    WordsSplit(ws, more);
    WordToken(w, " " + (ShowWords(ws[1..]) + more));
    assert Plain(w[0]) && s[0] == w[0];
    hide GetToken, ParseRedirs;
  }

  lemma {:induction false} WordsJoin(argv: seq<string>, n: nat, more: string)
    requires n <= |argv|
    ensures ShowWords(argv) + more == ShowWords(argv[..n]) + (ShowWords(argv[n..]) + more)
    decreases n
  {
    if n == 0 {
      assert argv[0..] == argv;
    } else {
      WordsJoin(argv[1..], n - 1, more);
      assert argv[..n][1..] == argv[1..][..n - 1] && argv[1..][n - 1..] == argv[n..];
      WordsSplit(argv, more);
      WordsSplit(argv[..n], ShowWords(argv[n..]) + more);
    }
  }
}
