/** The shell's parser as it runs: a cursor moving over the command line, words kept as a start and an
    end in that line, and the line cut into strings in place once the whole of it has been parsed. */
module Shell {
  import opened ShellGrammar

  /** A word: the characters of the line from q up to eq. */
  datatype Span = Span(q: nat, eq: nat)

  ghost predicate SpanOk(t: string, s: Span) {
    s.q < s.eq <= |t| && (forall i :: s.q <= i < s.eq ==> Plain(t[i])) && (s.eq < |t| ==> !Plain(t[s.eq]))
  }

  ghost predicate SpansOk(t: string, c: Cmd<Span>) {
    match c
    case Exec(argv) => forall i :: 0 <= i < |argv| ==> SpanOk(t, argv[i])
    case Redir(d, file, _) => SpanOk(t, file) && SpansOk(t, d)
    case Pipe(l, r) => SpansOk(t, l) && SpansOk(t, r)
    case List(l, r) => SpansOk(t, l) && SpansOk(t, r)
    case Back(d) => SpansOk(t, d)
  }

  function At(t: string, s: Span): string {
    if s.q <= s.eq <= |t| then t[s.q..s.eq] else []
  }

  function Words(t: string, ss: seq<Span>): (r: seq<string>)
    ensures |r| == |ss| && forall i :: 0 <= i < |ss| ==> r[i] == At(t, ss[i])
  {
    if ss == [] then [] else [At(t, ss[0])] + Words(t, ss[1..])
  }

  /** The command that spans stand for. */
  function Text(t: string, c: Cmd<Span>): Cmd<string> {
    match c
    case Exec(argv) => Exec(Words(t, argv))
    case Redir(d, file, mode) => Redir(Text(t, d), At(t, file), mode)
    case Pipe(l, r) => Pipe(Text(t, l), Text(t, r))
    case List(l, r) => List(Text(t, l), Text(t, r))
    case Back(d) => Back(Text(t, d))
  }

  // ---------- the scanner ----------

  method SkipBlanks(t: string, i: nat) returns (j: nat)
    requires i <= |t|
    ensures i <= j <= |t| && t[j..] == Skip(t[i..])
  {
    j := i;
    while j < |t| && Blank(t[j])
      invariant i <= j <= |t| && Skip(t[j..]) == Skip(t[i..])
    {
      assert t[j..][1..] == t[j + 1..];
      j := j + 1;
    }
  }

  /** Skip blanks and say whether one of toks comes next. */
  method PeekAt(t: string, i: nat, toks: set<char>) returns (yes: bool, j: nat)
    requires i <= |t|
    ensures i <= j <= |t| && t[j..] == Skip(t[i..]) && yes == Peek(t[i..], toks)
  {
    j := SkipBlanks(t, i);
    assert j < |t| ==> t[j..][0] == t[j];
    yes := j < |t| && t[j] in toks;
  }

  method WordEnd(t: string, i: nat) returns (j: nat)
    requires i <= |t|
    ensures i <= j <= |t| && j == i + WordLen(t[i..])
    ensures (forall k :: i <= k < j ==> Plain(t[k])) && (j < |t| ==> !Plain(t[j]))
  {
    j := i;
    while j < |t| && Plain(t[j])
      invariant i <= j <= |t| && WordLen(t[i..]) == j - i + WordLen(t[j..])
      invariant forall k :: i <= k < j ==> Plain(t[k])
    {
      assert t[j..][1..] == t[j + 1..];
      j := j + 1;
    }
  }

  /** What the returned code and span say in terms of tokens. */
  ghost predicate Codes(t: string, ret: char, s: Span, tok: Token) {
    match tok
    case End => ret == '\0'
    case Sym(c) => ret == c && Symbol(c)
    case Double => ret == '+'
    case Word(w) => ret == 'a' && SpanOk(t, s) && At(t, s) == w
  }

  lemma LexEnd(s: string)
    requires Skip(s) == [] || Skip(s)[0] == '\0'
    ensures GetToken(s) == Lexed(End, Skip(Skip(s)))
  {
  }

  lemma LexGreater(s: string, u: string)
    requires Skip(s) == ">" + u
    ensures GetToken(s) == if u != [] && u[0] == '>' then Lexed(Double, Skip(u[1..])) else Lexed(Sym('>'), Skip(u))
  {
    var t := ">" + u;
    assert t[1..] == u && (u != [] ==> t[2..] == u[1..]);
  }

  lemma LexSymbol(s: string, c: char, u: string)
    requires Skip(s) == [c] + u && Symbol(c) && c != '>'
    ensures GetToken(s) == Lexed(Sym(c), Skip(u))
  {
    assert ([c] + u)[1..] == u;
  }

  lemma LexWord(s: string, w: string, u: string)
    requires Skip(s) == w + u && w != [] && Plain(w[0]) && WordLen(Skip(s)) == |w|
    ensures GetToken(s) == Lexed(Word(w), Skip(u))
  {
    assert (w + u)[..|w|] == w && (w + u)[|w|..] == u;
  }

  method NextToken(t: string, i: nat) returns (ret: char, s: Span, j: nat)
    requires i <= |t|
    ensures i <= j <= |t| && t[j..] == GetToken(t[i..]).rest
    ensures Codes(t, ret, s, GetToken(t[i..]).tok)
  {
    hide GetToken, Skip, WordLen;
    var q := SkipBlanks(t, i);
    var e := q;
    if q == |t| || t[q] == '\0' {
      ret := '\0';
      LexEnd(t[i..]);
    } else if t[q] == '>' {
      e := q + 1;
      ret := '>';
      assert t[q..] == ">" + t[e..];
      LexGreater(t[i..], t[e..]);
      if e < |t| && t[e] == '>' {
        assert t[e..][1..] == t[e + 1..];
        ret := '+';
        e := e + 1;
      }
    } else if Symbol(t[q]) {
      ret := t[q];
      e := q + 1;
      assert t[q..] == [t[q]] + t[e..];
      LexSymbol(t[i..], t[q], t[e..]);
    } else {
      ret := 'a';
      e := WordEnd(t, q);
      assert t[q..] == t[q..e] + t[e..] && t[q..][0] == t[q];
      SkipStart(t[i..]);
      LexWord(t[i..], t[q..e], t[e..]);
    }
    s := Span(q, e);
    j := SkipBlanks(t, e);
  }

  lemma SkipStart(s: string)
    ensures Skip(s) != [] ==> !Blank(Skip(s)[0])
  {
  }

  // ---------- redirections ----------

  datatype RedirSpan = RedirSpan(file: Span, mode: Mode)

  ghost predicate RedirsOk(t: string, rs: seq<RedirSpan>) {
    forall i :: 0 <= i < |rs| ==> SpanOk(t, rs[i].file)
  }

  function RedirTexts(t: string, rs: seq<RedirSpan>): (r: seq<Redirection>)
    ensures |r| == |rs| && forall i :: 0 <= i < |rs| ==> r[i] == Redirection(At(t, rs[i].file), rs[i].mode)
  {
    if rs == [] then [] else [Redirection(At(t, rs[0].file), rs[0].mode)] + RedirTexts(t, rs[1..])
  }

  function WrapSpans(c: Cmd<Span>, rs: seq<RedirSpan>): Cmd<Span> {
    if rs == [] then c else Redir(WrapSpans(c, rs[..|rs| - 1]), rs[|rs| - 1].file, rs[|rs| - 1].mode)
  }

  lemma {:induction false} WrapText(t: string, c: Cmd<Span>, rs: seq<RedirSpan>)
    requires SpansOk(t, c) && RedirsOk(t, rs)
    ensures SpansOk(t, WrapSpans(c, rs)) && Text(t, WrapSpans(c, rs)) == Wrap(Text(t, c), RedirTexts(t, rs))
  {
    if rs != [] {
      var n := |rs| - 1;
      WrapText(t, c, rs[..n]);
      assert RedirTexts(t, rs)[..n] == RedirTexts(t, rs[..n]);
    }
  }

  /** The redirections rs and then those of r. */
  function After(rs: seq<Redirection>, r: Result<seq<Redirection>>): Result<seq<Redirection>> {
    match r
    case Fail(e) => Fail(e)
    case Ok(more, rest) => Ok(rs + more, rest)
  }

  /** Redirections from i on; !ok is the panic on a missing file name. */
  method Parseredirs(t: string, i: nat) returns (ok: bool, rs: seq<RedirSpan>, j: nat)
    requires i <= |t|
    ensures i <= j <= |t| && RedirsOk(t, rs)
    ensures ParseRedirs(t[i..]) == if ok then Ok(RedirTexts(t, rs), t[j..]) else Fail(MissingFile)
  {
    hide GetToken, Skip, ParseRedirs, Peek;
    rs, ok := [], true;
    var more;
    AfterNone(ParseRedirs(t[i..]));
    RedirsSkip(t[i..]);
    ghost var at := i;
    more, j := PeekAt(t, i, {'<', '>'});
    while more
      invariant i <= at <= j <= |t| && RedirsOk(t, rs) && ok
      invariant more == Peek(t[at..], {'<', '>'}) && t[j..] == Skip(t[at..])
      invariant ParseRedirs(t[i..]) == After(RedirTexts(t, rs), ParseRedirs(t[at..]))
      decreases |t| - at
    {
      var tok, s0, k, ret, file, l;
      SkipTwice(t[at..], {'<', '>'});
      tok, s0, k := NextToken(t, j);
      ret, file, l := NextToken(t, k);
      RedirOne(t, at, j, k, l, tok, ret, s0, file);
      if ret != 'a' {
        ok := false;
        return;
      }
      var mode := if tok == '<' then In else if tok == '>' then Out else Append;
      AfterOne(t, rs, RedirSpan(file, mode), ParseRedirs(t[l..]));
      rs := rs + [RedirSpan(file, mode)];
      at := l;
      more, j := PeekAt(t, l, {'<', '>'});
    }
    NoMore(t[at..]);
    assert RedirTexts(t, rs) + [] == RedirTexts(t, rs);
  }

  lemma AfterNone(r: Result<seq<Redirection>>)
    ensures After([], r) == r
  {
    if r.Ok? { assert [] + r.value == r.value; }
  }

  lemma AfterOne(t: string, rs: seq<RedirSpan>, x: RedirSpan, r: Result<seq<Redirection>>)
    ensures After(RedirTexts(t, rs), After([Redirection(At(t, x.file), x.mode)], r)) ==
        After(RedirTexts(t, rs + [x]), r)
  {
    assert RedirTexts(t, rs + [x]) == RedirTexts(t, rs) + [Redirection(At(t, x.file), x.mode)];
    if r.Ok? {
      assert RedirTexts(t, rs) + ([Redirection(At(t, x.file), x.mode)] + r.value) ==
          RedirTexts(t, rs) + [Redirection(At(t, x.file), x.mode)] + r.value;
    }
  }

  lemma NoMore(s: string)
    requires !Peek(s, {'<', '>'})
    ensures ParseRedirs(s) == Ok([], Skip(s))
  {
  }

  lemma RedirsSkip(s: string)
    ensures Skip(Skip(s)) == Skip(s)
  {
    SkipSame(Skip(s));
  }

  lemma SkipTwice(s: string, toks: set<char>)
    ensures Skip(Skip(s)) == Skip(s) && GetToken(Skip(s)) == GetToken(s) && Peek(Skip(s), toks) == Peek(s, toks)
  {
    SkipSame(Skip(s));
  }

  lemma RedirOne(t: string, at: nat, j: nat, k: nat, l: nat, tok: char, ret: char, s0: Span, file: Span)
    requires at <= j <= k <= l <= |t| && Peek(t[at..], {'<', '>'}) && t[j..] == Skip(t[at..])
    requires GetToken(t[j..]) == GetToken(t[at..])
    requires t[k..] == GetToken(t[j..]).rest && Codes(t, tok, s0, GetToken(t[j..]).tok)
    requires t[l..] == GetToken(t[k..]).rest && Codes(t, ret, file, GetToken(t[k..]).tok)
    ensures l > at
    ensures ret != 'a' ==> ParseRedirs(t[at..]) == Fail(MissingFile)
    ensures ret == 'a' ==> SpanOk(t, file)
    ensures ret == 'a' ==>
        ParseRedirs(t[at..]) ==
        After([Redirection(At(t, file), if tok == '<' then In else if tok == '>' then Out else Append)],
        ParseRedirs(t[l..]))
  {
    RedirTok(t[at..]);
    hide Skip, SpanOk, At;
  }

  /** A token that starts with < or > is one of the three redirections. */
  lemma RedirTok(s: string)
    requires Peek(s, {'<', '>'})
    ensures GetToken(s).tok == Sym('<') || GetToken(s).tok == Sym('>') || GetToken(s).tok == Double
    ensures |GetToken(s).rest| < |s|
  {
  }

  // ---------- simple commands ----------

  datatype Outcome = Failed(error: Error) | Parsed(cmd: Cmd<Span>, next: nat)

  /** The parser's outcome from i on is what the grammar says. */
  ghost predicate Agrees(t: string, i: nat, out: Outcome, r: Result<Cmd<string>>) {
    match out
    case Failed(e) => r == Fail(e)
    case Parsed(c, j) => i <= j <= |t| && SpansOk(t, c) && r == Ok(Text(t, c), t[j..])
  }

  function AfterArgs(a: Args, r: Result<Args>): Result<Args> {
    match r
    case Fail(e) => Fail(e)
    case Ok(more, rest) => Ok(Args(a.argv + more.argv, a.redirs + more.redirs), rest)
  }

  ghost predicate WordsOk(t: string, argv: seq<Span>) {
    forall i :: 0 <= i < |argv| ==> SpanOk(t, argv[i])
  }

  function ArgsText(t: string, argv: seq<Span>, rs: seq<RedirSpan>): Args {
    Args(Words(t, argv), RedirTexts(t, rs))
  }

  /** Words and redirections from i on, up to |, ), &, ; or the end. */
  method Parseargs(t: string, i: nat) returns (err: seq<Error>, argv: seq<Span>, rs: seq<RedirSpan>, j: nat)
    requires i <= |t|
    ensures i <= j <= |t| && WordsOk(t, argv) && RedirsOk(t, rs) && |err| <= 1
    ensures ParseArgs(t[i..], 0) == if err == [] then Ok(ArgsText(t, argv, rs), t[j..]) else Fail(err[0])
  {
    hide GetToken, Skip, ParseArgs, ParseRedirs, Peek;
    err, argv, rs := [], [], [];
    ArgsStart(t, ParseArgs(t[i..], 0));
    var stop;
    ghost var at := i;
    SkipTwice(t[at..], STOPS);
    stop, j := PeekAt(t, i, STOPS);
    while !stop
      invariant i <= at <= j <= |t| && WordsOk(t, argv) && RedirsOk(t, rs) && err == []
      invariant stop == Peek(t[at..], STOPS) && t[j..] == Skip(t[at..])
      invariant ParseArgs(t[i..], 0) == AfterArgs(ArgsText(t, argv, rs), ParseArgs(t[at..], |argv|))
      decreases |t| - at
    {
      SkipTwice(t[at..], STOPS);
      var tok, w, k := NextToken(t, j);
      if tok == '\0' {
        ArgsEnd(t, at, j, k, tok, w, |argv|);
        j := k;
        ArgsDone(t, argv, rs, t[j..]);
        return;
      }
      if tok != 'a' {
        ArgsBad(t, at, j, k, tok, w, |argv|);
        err := [Syntax];
        return;
      }
      if |argv| + 1 >= MAXARGS {
        ArgsFull(t, at, j, k, tok, w, |argv|);
        err := [TooManyArgs];
        return;
      }
      var ok, more, l := Parseredirs(t, k);
      if !ok {
        ArgsNoFile(t, at, j, k, tok, w, |argv|);
        err := [MissingFile];
        return;
      }
      ArgsOne(t, at, j, k, l, tok, w, more, argv, rs);
      argv, rs := argv + [w], rs + more;
      at := l;
      stop, j := PeekAt(t, l, STOPS);
    }
    ArgsStop(t[at..], |argv|);
    ArgsDone(t, argv, rs, t[j..]);
  }

  lemma ArgsStart(t: string, r: Result<Args>)
    ensures AfterArgs(ArgsText(t, [], []), r) == r
  {
    if r.Ok? { assert [] + r.value.argv == r.value.argv && [] + r.value.redirs == r.value.redirs; }
  }

  lemma ArgsDone(t: string, argv: seq<Span>, rs: seq<RedirSpan>, rest: string)
    ensures AfterArgs(ArgsText(t, argv, rs), Ok(Args([], []), rest)) == Ok(ArgsText(t, argv, rs), rest)
  {
    assert Words(t, argv) + [] == Words(t, argv) && RedirTexts(t, rs) + [] == RedirTexts(t, rs);
  }

  lemma ArgsStop(s: string, argc: nat)
    requires Peek(s, STOPS)
    ensures ParseArgs(s, argc) == Ok(Args([], []), Skip(s))
  {
  }

  /** The next token, from the cursor j that has skipped the blanks at at. */
  ghost predicate Next(t: string, at: nat, j: nat, k: nat, tok: char, w: Span) {
    && at <= j <= k <= |t| && t[j..] == Skip(t[at..]) && GetToken(t[j..]) == GetToken(t[at..])
    && t[k..] == GetToken(t[j..]).rest && Codes(t, tok, w, GetToken(t[j..]).tok)
    && !Peek(t[at..], STOPS)
  }

  lemma ArgsEnd(t: string, at: nat, j: nat, k: nat, tok: char, w: Span, argc: nat)
    requires Next(t, at, j, k, tok, w) && tok == '\0'
    ensures ParseArgs(t[at..], argc) == Ok(Args([], []), t[k..])
  {
    hide Skip, GetToken, Peek;
  }

  lemma ArgsBad(t: string, at: nat, j: nat, k: nat, tok: char, w: Span, argc: nat)
    requires Next(t, at, j, k, tok, w) && tok != '\0' && tok != 'a'
    ensures ParseArgs(t[at..], argc) == Fail(Syntax)
  {
    hide Skip, GetToken, Peek;
  }

  lemma ArgsFull(t: string, at: nat, j: nat, k: nat, tok: char, w: Span, argc: nat)
    requires Next(t, at, j, k, tok, w) && tok == 'a' && argc + 1 >= MAXARGS
    ensures ParseArgs(t[at..], argc) == Fail(TooManyArgs)
  {
    hide Skip, GetToken, Peek;
  }

  lemma ArgsNoFile(t: string, at: nat, j: nat, k: nat, tok: char, w: Span, argc: nat)
    requires Next(t, at, j, k, tok, w) && tok == 'a' && argc + 1 < MAXARGS && ParseRedirs(t[k..]) == Fail(MissingFile)
    ensures ParseArgs(t[at..], argc) == Fail(MissingFile)
  {
    hide Skip, GetToken, Peek, ParseRedirs;
  }

  lemma ArgsWord(t: string, at: nat, j: nat, k: nat, l: nat, tok: char, w: Span, more: seq<RedirSpan>, argc: nat)
    requires Next(t, at, j, k, tok, w) && tok == 'a' && argc + 1 < MAXARGS
    requires k <= l <= |t| && ParseRedirs(t[k..]) == Ok(RedirTexts(t, more), t[l..])
    ensures l > at && SpanOk(t, w)
    ensures ParseArgs(t[at..], argc) == AfterArgs(Args([At(t, w)], RedirTexts(t, more)), ParseArgs(t[l..], argc + 1))
  {
    hide Skip, GetToken, Peek, ParseRedirs, SpanOk, At, RedirTexts;
  }

  lemma AfterBoth(a: Args, b: Args, r: Result<Args>)
    ensures AfterArgs(a, AfterArgs(b, r)) == AfterArgs(Args(a.argv + b.argv, a.redirs + b.redirs), r)
  {
    if r.Ok? {
      assert a.argv + (b.argv + r.value.argv) == a.argv + b.argv + r.value.argv;
      assert a.redirs + (b.redirs + r.value.redirs) == a.redirs + b.redirs + r.value.redirs;
    }
  }

  lemma ArgsTextMore(t: string, argv: seq<Span>, rs: seq<RedirSpan>, w: Span, more: seq<RedirSpan>)
    ensures ArgsText(t, argv + [w], rs + more) ==
        Args(Words(t, argv) + [At(t, w)], RedirTexts(t, rs) + RedirTexts(t, more))
  {
    assert Words(t, argv + [w]) == Words(t, argv) + [At(t, w)];
    assert RedirTexts(t, rs + more) == RedirTexts(t, rs) + RedirTexts(t, more);
  }

  lemma ArgsOne(t: string, at: nat, j: nat, k: nat, l: nat, tok: char, w: Span, more: seq<RedirSpan>,
          argv: seq<Span>, rs: seq<RedirSpan>)
    requires Next(t, at, j, k, tok, w) && tok == 'a' && |argv| + 1 < MAXARGS
    requires k <= l <= |t| && ParseRedirs(t[k..]) == Ok(RedirTexts(t, more), t[l..])
    ensures l > at && SpanOk(t, w)
    ensures AfterArgs(ArgsText(t, argv, rs), ParseArgs(t[at..], |argv|)) ==
      AfterArgs(ArgsText(t, argv + [w], rs + more), ParseArgs(t[l..], |argv + [w]|))
  {
    hide ParseArgs, Next, ParseRedirs, SpanOk, At, RedirTexts, AfterArgs, Words;
    ArgsWord(t, at, j, k, l, tok, w, more, |argv|);
    AfterBoth(ArgsText(t, argv, rs), Args([At(t, w)], RedirTexts(t, more)), ParseArgs(t[l..], |argv| + 1));
    ArgsTextMore(t, argv, rs, w, more);
  }

  // ---------- the grammar's levels ----------

  method Parseexec(t: string, i: nat) returns (out: Outcome)
    requires i <= |t|
    ensures Agrees(t, i, out, ParseExec(t[i..]))
    decreases |t| - i, 2
  {
    hide GetToken, Skip, ParseArgs, ParseRedirs, ParseBlock, SpansOk, RedirsOk, WordsOk, Text, WrapSpans, Peek;
    var block, j := PeekAt(t, i, {'('});
    if block {
      out := Parseblock(t, i);
      return;
    }
    var ok, rs, k := Parseredirs(t, i);
    if !ok {
      return Failed(MissingFile);
    }
    var err, argv, more, l := Parseargs(t, k);
    if err != [] {
      return Failed(err[0]);
    }
    ExecDone(t, i, k, l, rs, argv, more);
    out := Parsed(WrapSpans(Exec(argv), rs + more), l);
  }

  lemma ExecDone(t: string, i: nat, k: nat, l: nat, rs: seq<RedirSpan>, argv: seq<Span>, more: seq<RedirSpan>)
    requires i <= k <= l <= |t| && !Peek(t[i..], {'('}) && WordsOk(t, argv) && RedirsOk(t, rs) && RedirsOk(t, more)
    requires ParseRedirs(t[i..]) == Ok(RedirTexts(t, rs), t[k..])
        && ParseArgs(t[k..], 0) == Ok(ArgsText(t, argv, more), t[l..])
    ensures Agrees(t, i, Parsed(WrapSpans(Exec(argv), rs + more), l), ParseExec(t[i..]))
  {
    hide ParseArgs, ParseRedirs, Peek, WrapSpans, Wrap, SpanOk;
    RedirTextsCat(t, rs, more);
    WrapText(t, Exec(argv), rs + more);
  }

  lemma RedirTextsCat(t: string, rs: seq<RedirSpan>, more: seq<RedirSpan>)
    ensures RedirTexts(t, rs + more) == RedirTexts(t, rs) + RedirTexts(t, more)
  {
  }

  method Parseblock(t: string, i: nat) returns (out: Outcome)
    requires i <= |t| && Peek(t[i..], {'('})
    ensures Agrees(t, i, out, ParseBlock(t[i..]))
    decreases |t| - i, 1
  {
    hide GetToken, Skip, ParseLine, ParseRedirs, Wrap, WrapSpans;
    var tok, s, j := NextToken(t, i);
    PeekToken(t[i..], {'('});
    out := Parseline(t, j);
    if out.Failed? {
      return;
    }
    var c, k := out.cmd, out.next;
    var closed, k' := PeekAt(t, k, {')'});
    if !closed {
      return Failed(MissingParen);
    }
    tok, s, k := NextToken(t, k);
    var ok, rs, l := Parseredirs(t, k);
    if !ok {
      return Failed(MissingFile);
    }
    WrapText(t, c, rs);
    out := Parsed(WrapSpans(c, rs), l);
  }

  method Parsepipe(t: string, i: nat) returns (out: Outcome)
    requires i <= |t|
    ensures Agrees(t, i, out, ParsePipe(t[i..]))
    decreases |t| - i, 3
  {
    hide GetToken, Skip, ParseExec, Peek;
    out := Parseexec(t, i);
    if out.Failed? {
      return;
    }
    var c, j := out.cmd, out.next;
    var more, j' := PeekAt(t, j, {'|'});
    if more {
      PeekToken(t[j..], {'|'});
      var tok, s, k := NextToken(t, j);
      out := Parsepipe(t, k);
      if out.Parsed? {
        out := Parsed(Pipe(c, out.cmd), out.next);
      }
    }
  }

  /** c followed by the &s from i on. */
  method Parsebacks(t: string, c: Cmd<Span>, i: nat) returns (d: Cmd<Span>, j: nat)
    requires i <= |t| && SpansOk(t, c)
    ensures i <= j <= |t| && SpansOk(t, d) && ParseBacks(Text(t, c), t[i..]) == Ok(Text(t, d), t[j..])
  {
    hide GetToken, Skip, Peek;
    d := c;
    var more;
    ghost var at := i;
    more, j := PeekAt(t, i, {'&'});
    while more
      invariant i <= at <= j <= |t| && SpansOk(t, d) && more == Peek(t[at..], {'&'}) && t[j..] == Skip(t[at..])
      invariant ParseBacks(Text(t, c), t[i..]) == ParseBacks(Text(t, d), t[at..])
      decreases |t| - at
    {
      PeekToken(t[at..], {'&'});
      SkipTwice(t[at..], {'&'});
      var tok, s, k := NextToken(t, j);
      d := Back(d);
      at := k;
      more, j := PeekAt(t, k, {'&'});
    }
  }

  method Parseline(t: string, i: nat) returns (out: Outcome)
    requires i <= |t|
    ensures Agrees(t, i, out, ParseLine(t[i..]))
    decreases |t| - i, 4
  {
    hide GetToken, Skip, ParsePipe, ParseBacks, Peek;
    out := Parsepipe(t, i);
    if out.Failed? {
      return;
    }
    var c, j := Parsebacks(t, out.cmd, out.next);
    var more, j' := PeekAt(t, j, {';'});
    if more {
      PeekToken(t[j..], {';'});
      var tok, s, k := NextToken(t, j);
      out := Parseline(t, k);
      if out.Parsed? {
        out := Parsed(List(c, out.cmd), out.next);
      }
    } else {
      out := Parsed(c, j);
    }
  }

  // ---------- the line cut into strings ----------

  /** k is the end of some word of c. */
  ghost predicate EndOf(c: Cmd<Span>, k: nat) {
    match c
    case Exec(argv) => exists i :: 0 <= i < |argv| && argv[i].eq == k
    case Redir(d, file, _) => file.eq == k || EndOf(d, k)
    case Pipe(l, r) => EndOf(l, k) || EndOf(r, k)
    case List(l, r) => EndOf(l, k) || EndOf(r, k)
    case Back(d) => EndOf(d, k)
  }

  /** s is a word of c. */
  ghost predicate WordIn(c: Cmd<Span>, s: Span) {
    match c
    case Exec(argv) => s in argv
    case Redir(d, file, _) => s == file || WordIn(d, s)
    case Pipe(l, r) => WordIn(l, s) || WordIn(r, s)
    case List(l, r) => WordIn(l, s) || WordIn(r, s)
    case Back(d) => WordIn(d, s)
  }

  /** The C string at q: the characters up to the first NUL. */
  function CString(buf: seq<char>, q: nat): seq<char>
    requires q <= |buf|
    decreases |buf| - q
  {
    if q == |buf| || buf[q] == '\0' then [] else [buf[q]] + CString(buf, q + 1)
  }

  /** Write a NUL at the end of every word. */
  method Nulterminate(buf: array<char>, c: Cmd<Span>, ghost t: string)
    requires |t| < buf.Length && SpansOk(t, c)
    modifies buf
    ensures forall k: nat :: k < buf.Length ==> buf[k] == if EndOf(c, k) then '\0' else old(buf[k])
    decreases c
  {
    match c {
      case Exec(argv) =>
        var i := 0;
        while i < |argv|
          invariant 0 <= i <= |argv|
          invariant forall k: nat :: k < buf.Length ==> buf[k] == if EndOf(Exec(argv[..i]), k) then '\0'
              else old(buf[k])
        {
          assert SpanOk(t, argv[i]);
          EndsMore(argv, i);
          buf[argv[i].eq] := '\0';
          i := i + 1;
        }
        assert argv[..i] == argv;
      case Redir(d, file, _) =>
        Nulterminate(buf, d, t);
        buf[file.eq] := '\0';
      case Pipe(l, r) =>
        Nulterminate(buf, l, t);
        Nulterminate(buf, r, t);
      case List(l, r) =>
        Nulterminate(buf, l, t);
        Nulterminate(buf, r, t);
      case Back(d) =>
        Nulterminate(buf, d, t);
    }
  }

  lemma EndsMore(argv: seq<Span>, i: nat)
    requires i < |argv|
    ensures forall k: nat :: EndOf(Exec(argv[..i + 1]), k) <==> EndOf(Exec(argv[..i]), k) || argv[i].eq == k
  {
    forall k: nat ensures EndOf(Exec(argv[..i + 1]), k) <==> EndOf(Exec(argv[..i]), k) || argv[i].eq == k {
      var a, b := argv[..i], argv[..i + 1];
      assert forall j :: 0 <= j < i ==> a[j] == argv[j] && b[j] == argv[j];
      assert b[i] == argv[i];
      if EndOf(Exec(a), k) {
        var j :| 0 <= j < |a| && a[j].eq == k;
        assert b[j].eq == k;
      }
      if EndOf(Exec(b), k) && argv[i].eq != k {
        var j :| 0 <= j < |b| && b[j].eq == k;
        assert a[j].eq == k;
      }
    }
  }

  /** No word ends inside a word. */
  lemma {:induction false} EndsPlain(t: string, c: Cmd<Span>, k: nat)
    requires SpansOk(t, c) && EndOf(c, k)
    ensures k <= |t| && (k < |t| ==> !Plain(t[k]))
  {
    match c {
      case Exec(argv) =>
        var i :| 0 <= i < |argv| && argv[i].eq == k;
        assert SpanOk(t, argv[i]);
      case Redir(d, file, _) => if EndOf(d, k) { EndsPlain(t, d, k); }
      case Pipe(l, r) => if EndOf(l, k) { EndsPlain(t, l, k); } else { EndsPlain(t, r, k); }
      case List(l, r) => if EndOf(l, k) { EndsPlain(t, l, k); } else { EndsPlain(t, r, k); }
      case Back(d) => EndsPlain(t, d, k);
    }
  }

  lemma {:induction false} WordSpan(t: string, c: Cmd<Span>, s: Span)
    requires SpansOk(t, c) && WordIn(c, s)
    ensures SpanOk(t, s) && EndOf(c, s.eq)
  {
    match c {
      case Exec(argv) =>
        var i :| 0 <= i < |argv| && argv[i] == s;
      case Redir(d, file, _) => if WordIn(d, s) { WordSpan(t, d, s); }
      case Pipe(l, r) => if WordIn(l, s) { WordSpan(t, l, s); } else { WordSpan(t, r, s); }
      case List(l, r) => if WordIn(l, s) { WordSpan(t, l, s); } else { WordSpan(t, r, s); }
      case Back(d) => WordSpan(t, d, s);
    }
  }

  lemma {:induction false} CStringIs(buf: seq<char>, q: nat, e: nat)
    requires q <= e < |buf| && buf[e] == '\0' && forall k :: q <= k < e ==> buf[k] != '\0'
    ensures CString(buf, q) == buf[q..e]
    decreases e - q
  {
    if q < e {
      CStringIs(buf, q + 1, e);
      assert buf[q..e] == [buf[q]] + buf[q + 1..e];
    }
  }

  /** Once the line is cut, the string at the start of each word is that word and no more. */
  lemma WordsAreCut(t: string, c: Cmd<Span>, buf: seq<char>, s: Span)
    requires SpansOk(t, c) && WordIn(c, s) && |buf| > |t|
    requires forall k: nat :: k < |buf| ==> buf[k] == if EndOf(c, k) then '\0' else (if k < |t| then t[k] else '\0')
    ensures s.q <= |buf| && CString(buf, s.q) == At(t, s)
  {
    hide SpansOk, EndOf, WordIn, CString;
    WordSpan(t, c, s);
    forall k: nat | s.q <= k < s.eq ensures buf[k] == t[k] && buf[k] != '\0' {
      assert Plain(t[k]);
      if EndOf(c, k) { EndsPlain(t, c, k); }
    }
    CStringIs(buf, s.q, s.eq);
    assert buf[s.q..s.eq] == t[s.q..s.eq];
  }

  /** Parse the line in buf, which ends at the first NUL, and cut it into strings. */
  method Parsecmd(buf: array<char>, ghost t: string) returns (out: Outcome)
    requires buf.Length == |t| + 1 && buf[..|t|] == t && buf[|t|] == '\0' && forall i :: 0 <= i < |t| ==> t[i] != '\0'
    modifies buf
    ensures out.Failed? ==> ParseCmd(t) == Fail(out.error) && buf[..] == old(buf[..])
    ensures out.Parsed? ==> SpansOk(t, out.cmd) && ParseCmd(t) == Ok(Text(t, out.cmd), [])
    ensures out.Parsed? ==> forall s :: WordIn(out.cmd, s) ==> s.q <= |buf[..]| && CString(buf[..], s.q) == At(t, s)
  {
    hide ParseLine, Text, SpansOk, CString, At;
    var n := 0;
    while buf[n] != '\0'
      invariant 0 <= n <= |t|
      decreases |t| - n
    {
      assert n < |t| ==> buf[..|t|][n] == t[n];
      n := n + 1;
    }
    assert n == |t|;
    var text := buf[..n];
    assert text == t && t[0..] == t;
    out := Parseline(text, 0);
    if out.Parsed? {
      var more, j := PeekAt(text, out.next, {});
      LineSkipped(t, out.next);
      if j != n {
        return Failed(Leftovers);
      }
      assert t[n..] == [];
      Nulterminate(buf, out.cmd, t);
      forall s | WordIn(out.cmd, s) ensures s.q <= |buf[..]| && CString(buf[..], s.q) == At(t, s) {
        WordsAreCut(t, out.cmd, buf[..], s);
      }
    }
  }

  /** A parsed line leaves no blanks before what is left over. */
  lemma LineSkipped(t: string, j: nat)
    requires j <= |t| && ParseLine(t).Ok? && ParseLine(t).rest == t[j..]
    ensures Skip(t[j..]) == t[j..]
  {
  }
}
