/** The shell's command language: the parser as functions on the text that is left, a printer with as
    few parentheses as the grammar allows, and the law that parsing what is printed gives it back. */
module ShellGrammar {

  const MAXARGS: nat := 10

  /** What a redirection does: read from file on descriptor 0, or write, truncating or not, on 1. */
  datatype Mode = In | Out | Append

  /** A command whose words are of type W. */
  datatype Cmd<W> =
    | Exec(argv: seq<W>)
    | Redir(cmd: Cmd<W>, file: W, mode: Mode)
    | Pipe(left: Cmd<W>, right: Cmd<W>)
    | List(left: Cmd<W>, right: Cmd<W>)
    | Back(cmd: Cmd<W>)

  datatype Error = MissingFile | MissingParen | Syntax | TooManyArgs | Leftovers

  datatype Result<+T> = Fail(error: Error) | Ok(value: T, rest: string)

  predicate Blank(c: char) {
    c == ' ' || c == '\t' || c == '\r' || c == '\n' || c == '\U{0B}'
  }

  predicate Symbol(c: char) {
    c == '<' || c == '|' || c == '>' || c == '&' || c == ';' || c == '(' || c == ')'
  }

  /** The characters of words. */
  predicate Plain(c: char) {
    !Blank(c) && !Symbol(c) && c != '\0'
  }

  // ---------- tokens ----------

  function Skip(s: string): (r: string)
    ensures |r| <= |s| && (r != [] ==> !Blank(r[0]))
  {
    if s != [] && Blank(s[0]) then Skip(s[1..]) else s
  }

  /** The length of the word that s starts with. */
  function WordLen(s: string): (n: nat)
    ensures n <= |s| && (n > 0 <==> s != [] && Plain(s[0]))
  {
    if s != [] && Plain(s[0]) then 1 + WordLen(s[1..]) else 0
  }

  datatype Token = End | Sym(c: char) | Double | Word(w: string)

  datatype Lexed = Lexed(tok: Token, rest: string)

  function GetToken(s: string): (r: Lexed)
    ensures |r.rest| <= |s| && (r.tok != End ==> |r.rest| < |s|)
  {
    var t := Skip(s);
    if t == [] || t[0] == '\0' then Lexed(End, Skip(t))
    else if t[0] == '>' then
      if |t| > 1 && t[1] == '>' then Lexed(Double, Skip(t[2..])) else Lexed(Sym('>'), Skip(t[1..]))
    else if Symbol(t[0]) then Lexed(Sym(t[0]), Skip(t[1..]))
    else
      var n := WordLen(t);
      Lexed(Word(t[..n]), Skip(t[n..]))
  }

  predicate Peek(s: string, toks: set<char>) {
    var t := Skip(s);
    t != [] && t[0] in toks
  }

  // ---------- the grammar ----------

  datatype Redirection = Redirection(file: string, mode: Mode)

  function Wrap(c: Cmd<string>, rs: seq<Redirection>): Cmd<string> {
    if rs == [] then c else Redir(Wrap(c, rs[..|rs| - 1]), rs[|rs| - 1].file, rs[|rs| - 1].mode)
  }

  function ModeOf(tok: Token): Mode {
    if tok == Double then Append else if tok == Sym('<') then In else Out
  }

  function ParseRedirs(s: string): (r: Result<seq<Redirection>>)
    ensures r.Ok? ==> |r.rest| <= |s| && Skip(r.rest) == r.rest
    decreases |s|
  {
    if Peek(s, {'<', '>'}) then
      var op := GetToken(s);
      var file := GetToken(op.rest);
      if !file.tok.Word? then Fail(MissingFile)
      else
        match ParseRedirs(file.rest)
        case Fail(e) => Fail(e)
        case Ok(more, rest) => Ok([Redirection(file.tok.w, ModeOf(op.tok))] + more, rest)
    else Ok([], Skip(s))
  }

  datatype Args = Args(argv: seq<string>, redirs: seq<Redirection>)

  /** The words and redirections after the first argc words. */
  function ParseArgs(s: string, argc: nat): (r: Result<Args>)
    ensures r.Ok? ==> |r.rest| <= |s| && Skip(r.rest) == r.rest
    decreases |s|
  {
    if Peek(s, {'|', ')', '&', ';'}) then Ok(Args([], []), Skip(s))
    else
      var t := GetToken(s);
      if t.tok == End then Ok(Args([], []), t.rest)
      else if !t.tok.Word? then Fail(Syntax)
      else if argc + 1 >= MAXARGS then Fail(TooManyArgs)
      else
        match ParseRedirs(t.rest)
        case Fail(e) => Fail(e)
        case Ok(rs, rest) =>
          match ParseArgs(rest, argc + 1)
          case Fail(e) => Fail(e)
          case Ok(more, rest') => Ok(Args([t.tok.w] + more.argv, rs + more.redirs), rest')
  }

  function ParseExec(s: string): (r: Result<Cmd<string>>)
    ensures r.Ok? ==> |r.rest| <= |s| && Skip(r.rest) == r.rest
    decreases |s|, 2
  {
    if Peek(s, {'('}) then ParseBlock(s)
    else
      match ParseRedirs(s)
      case Fail(e) => Fail(e)
      case Ok(rs, rest) =>
        match ParseArgs(rest, 0)
        case Fail(e) => Fail(e)
        case Ok(args, rest') => Ok(Wrap(Exec(args.argv), rs + args.redirs), rest')
  }

  function ParseBlock(s: string): (r: Result<Cmd<string>>)
    requires Peek(s, {'('})
    ensures r.Ok? ==> |r.rest| <= |s| && Skip(r.rest) == r.rest
    decreases |s|, 1
  {
    match ParseLine(GetToken(s).rest)
    case Fail(e) => Fail(e)
    case Ok(c, rest) =>
      if !Peek(rest, {')'}) then Fail(MissingParen)
      else
        match ParseRedirs(GetToken(rest).rest)
        case Fail(e) => Fail(e)
        case Ok(rs, rest') => Ok(Wrap(c, rs), rest')
  }

  function ParsePipe(s: string): (r: Result<Cmd<string>>)
    ensures r.Ok? ==> |r.rest| <= |s| && Skip(r.rest) == r.rest
    decreases |s|, 3
  {
    match ParseExec(s)
    case Fail(e) => Fail(e)
    case Ok(c, rest) =>
      if Peek(rest, {'|'}) then
        match ParsePipe(GetToken(rest).rest)
        case Fail(e) => Fail(e)
        case Ok(d, rest') => Ok(Pipe(c, d), rest')
      else Ok(c, rest)
  }

  /** c followed by any number of &. */
  function ParseBacks(c: Cmd<string>, s: string): (r: Result<Cmd<string>>)
    ensures r.Ok? && |r.rest| <= |s| && Skip(r.rest) == r.rest
    decreases |s|
  {
    if Peek(s, {'&'}) then ParseBacks(Back(c), GetToken(s).rest) else Ok(c, Skip(s))
  }

  function ParseLine(s: string): (r: Result<Cmd<string>>)
    ensures r.Ok? ==> |r.rest| <= |s| && Skip(r.rest) == r.rest
    decreases |s|, 4
  {
    match ParsePipe(s)
    case Fail(e) => Fail(e)
    case Ok(c, rest) =>
      var b := ParseBacks(c, rest);
      if Peek(b.rest, {';'}) then
        match ParseLine(GetToken(b.rest).rest)
        case Fail(e) => Fail(e)
        case Ok(d, rest') => Ok(List(b.value, d), rest')
      else b
  }

  function ParseCmd(s: string): Result<Cmd<string>> {
    match ParseLine(s)
    case Fail(e) => Fail(e)
    case Ok(c, rest) => if rest != [] then Fail(Leftovers) else Ok(c, [])
  }

  // ---------- the printer ----------

  ghost predicate WordOk(w: string) {
    w != [] && forall i :: 0 <= i < |w| ==> Plain(w[i])
  }

  /** A command the shell can be asked for: words of plain characters, fewer than MAXARGS each. */
  ghost predicate Printable(c: Cmd<string>) {
    match c
    case Exec(argv) => |argv| < MAXARGS && forall i :: 0 <= i < |argv| ==> WordOk(argv[i])
    case Redir(d, file, _) => WordOk(file) && Printable(d)
    case Pipe(l, r) => Printable(l) && Printable(r)
    case List(l, r) => Printable(l) && Printable(r)
    case Back(d) => Printable(d)
  }

  function Level(c: Cmd<string>): nat {
    match c
    case Exec(_) => 0
    case Redir(_, _, _) => 0
    case Pipe(_, _) => 1
    case Back(_) => 2
    case List(_, _) => 3
  }

  function ShowWords(argv: seq<string>): string {
    if argv == [] then "" else argv[0] + " " + ShowWords(argv[1..])
  }

  function ShowMode(m: Mode): string {
    match m
    case In => "<"
    case Out => ">"
    case Append => ">>"
  }

  /** c where the grammar allows commands of level lvl; in parentheses if c is of a higher one. */
  function Show(c: Cmd<string>, lvl: nat): string
    decreases c, if Level(c) > lvl then 1 else 0
  {
    if Level(c) > lvl then "(" + Show(c, 3) + ")"
    else
      match c
      case Exec(argv) => ShowWords(argv)
      case Redir(d, file, mode) => Show(d, 0) + ShowMode(mode) + file
      case Pipe(l, r) => Show(l, 0) + "|" + Show(r, 1)
      case Back(d) => Show(d, 2) + "&"
      case List(l, r) => Show(l, 2) + ";" + Show(r, 3)
  }

  // ---------- tokens of printed text ----------

  /** What may follow: nothing, or a character of set cs. */
  predicate Follows(rest: string, cs: set<char>) {
    rest != [] ==> rest[0] in cs
  }

  lemma {:induction false} WordLenIs(w: string, rest: string)
    requires (forall i :: 0 <= i < |w| ==> Plain(w[i])) && (rest != [] ==> !Plain(rest[0]))
    ensures WordLen(w + rest) == |w|
  {
    if w == [] {
      assert w + rest == rest;
    } else {
      assert (w + rest)[1..] == w[1..] + rest;
      WordLenIs(w[1..], rest);
    }
  }

  lemma WordToken(w: string, rest: string)
    requires WordOk(w) && (rest != [] ==> !Plain(rest[0]))
    ensures GetToken(w + rest) == Lexed(Word(w), Skip(rest)) && Skip(w + rest) == w + rest
  {
    hide WordLen;
    WordLenIs(w, rest);
    assert Plain(w[0]) && (w + rest)[0] == w[0];
    assert (w + rest)[..|w|] == w && (w + rest)[|w|..] == rest;
  }

  lemma SymToken(c: char, rest: string)
    requires Symbol(c) && (c == '>' ==> rest != [] ==> rest[0] != '>')
    ensures GetToken([c] + rest) == Lexed(Sym(c), Skip(rest)) && Skip([c] + rest) == [c] + rest
  {
    assert ([c] + rest)[0] == c && ([c] + rest)[1..] == rest;
  }

  lemma ModeToken(m: Mode, rest: string)
    requires rest != [] ==> rest[0] != '>'
    ensures
      var t := GetToken(ShowMode(m) + rest);
      t.rest == Skip(rest) && ModeOf(t.tok) == m && Peek(ShowMode(m) + rest, {'<', '>'})
  {
    match m {
      case In => SymToken('<', rest);
      case Out => SymToken('>', rest);
      case Append =>
        var t := ShowMode(m) + rest;
        assert t[0] == '>' && t[1] == '>' && t[2..] == rest;
    }
  }

  // ---------- redirections and words come back ----------

  function ShowRedirs(rs: seq<Redirection>): string {
    if rs == [] then "" else ShowMode(rs[0].mode) + rs[0].file + ShowRedirs(rs[1..])
  }

  ghost predicate FilesOk(rs: seq<Redirection>) {
    forall i :: 0 <= i < |rs| ==> WordOk(rs[i].file)
  }

  const STOPS: set<char> := {'|', ')', '&', ';'}

  /** What may come after a word without a space. */
  predicate Ends(s: string) {
    s != [] ==> !Plain(s[0]) && !Blank(s[0])
  }

  lemma RedirStep(m: Mode, file: string, tail: string)
    requires WordOk(file) && Ends(tail)
    ensures ParseRedirs(ShowMode(m) + (file + tail)) ==
      match ParseRedirs(tail)
      case Fail(e) => Fail(e)
      case Ok(more, rest) => Ok([Redirection(file, m)] + more, rest)
  {
    hide GetToken, Skip, ShowMode, Peek, ModeOf;
    assert Plain(file[0]) && (file + tail)[0] == file[0];
    ModeToken(m, file + tail);
    WordToken(file, tail);
    SkipSame(tail);
  }

  lemma RedirsFirst(rs: seq<Redirection>, rest: string)
    requires Follows(rest, STOPS)
    ensures Ends(ShowRedirs(rs) + rest)
    ensures rs != [] ==> ShowRedirs(rs) != [] && ShowRedirs(rs)[0] in {'<', '>'}
  {
    if rs == [] {
      assert ShowRedirs(rs) + rest == rest;
    } else {
      assert ShowRedirs(rs)[0] == ShowMode(rs[0].mode)[0];
    }
  }

  lemma RedirsNone(rest: string)
    requires Follows(rest, STOPS)
    ensures ParseRedirs(rest) == Ok([], rest)
  {
    SkipSame(rest);
  }

  lemma {:induction false} RedirsBack(rs: seq<Redirection>, rest: string)
    requires FilesOk(rs) && Follows(rest, STOPS)
    ensures ParseRedirs(ShowRedirs(rs) + rest) == Ok(rs, rest)
  {
    hide ParseRedirs, ShowMode, WordOk, Follows;
    if rs == [] {
      assert ShowRedirs(rs) + rest == rest;
      RedirsNone(rest);
    } else {
      RedirsBack(rs[1..], rest);
      RedirsFirst(rs[1..], rest);
      var tail := ShowRedirs(rs[1..]) + rest;
      assert ShowRedirs(rs) + rest == ShowMode(rs[0].mode) + (rs[0].file + tail);
      RedirStep(rs[0].mode, rs[0].file, tail);
      assert [Redirection(rs[0].file, rs[0].mode)] + rs[1..] == rs;
    }
  }

  lemma SkipSame(s: string)
    requires s != [] ==> !Blank(s[0])
    ensures Skip(s) == s
  {
  }

  /** One word of a command and the redirections after it. */
  lemma ArgStep(w: string, tail: string, argc: nat, rs: seq<Redirection>, rest: string)
    requires WordOk(w) && argc + 1 < MAXARGS && (tail != [] ==> !Blank(tail[0])) && ParseRedirs(tail) == Ok(rs, rest)
    ensures ParseArgs(w + (" " + tail), argc) ==
      match ParseArgs(rest, argc + 1)
      case Fail(e) => Fail(e)
      case Ok(more, rest') => Ok(Args([w] + more.argv, rs + more.redirs), rest')
  {
    hide GetToken, ParseRedirs, Skip;
    WordToken(w, " " + tail);
    SkipBlank(tail);
    SkipSame(tail);
    assert Plain(w[0]) && (w + (" " + tail))[0] == w[0];
  }

  lemma SkipBlank(s: string)
    ensures Skip(" " + s) == Skip(s)
  {
    assert (" " + s)[1..] == s;
  }

  lemma ArgsNone(rest: string, argc: nat)
    requires Follows(rest, STOPS)
    ensures ParseArgs(rest, argc) == Ok(Args([], []), rest)
  {
    SkipSame(rest);
  }

  lemma WordsSplit(argv: seq<string>, more: string)
    requires argv != []
    ensures ShowWords(argv) + more == argv[0] + (" " + (ShowWords(argv[1..]) + more))
  {
  }

  lemma WordsFirst(argv: seq<string>, more: string)
    requires argv != [] && WordOk(argv[0])
    ensures ShowWords(argv) + more != [] && Plain((ShowWords(argv) + more)[0])
  {
    WordsSplit(argv, more);
    assert Plain(argv[0][0]);
  }

  lemma {:induction false} ArgsBack(argv: seq<string>, rs: seq<Redirection>, rest: string, argc: nat)
    requires (forall i :: 0 <= i < |argv| ==> WordOk(argv[i])) && FilesOk(rs) && Follows(rest, STOPS)
    requires argc + |argv| < MAXARGS && argv != []
    ensures ParseArgs(ShowWords(argv) + (ShowRedirs(rs) + rest), argc) == Ok(Args(argv, rs), rest)
  {
    hide ParseArgs, ParseRedirs, WordOk, ShowRedirs;
    var more := ShowRedirs(rs) + rest;
    WordsSplit(argv, more);
    RedirsFirst(rs, rest);
    if |argv| == 1 {
      assert ShowWords(argv[1..]) + more == more;
      RedirsBack(rs, rest);
      ArgStep(argv[0], more, argc, rs, rest);
      ArgsNone(rest, argc + 1);
      assert [argv[0]] + [] == argv && rs + [] == rs;
    } else {
      var tail := ShowWords(argv[1..]) + more;
      WordsFirst(argv[1..], more);
      NoRedirs(tail);
      ArgStep(argv[0], tail, argc, [], tail);
      ArgsBack(argv[1..], rs, rest, argc + 1);
      assert [argv[0]] + argv[1..] == argv && [] + rs == rs;
    }
  }

  lemma NoRedirs(s: string)
    requires s != [] && Plain(s[0])
    ensures ParseRedirs(s) == Ok([], s)
  {
    SkipSame(s);
  }

  // ---------- commands come back ----------

  /** The command inside all redirections of c, and those redirections, innermost first. */
  function Inner(c: Cmd<string>): Cmd<string> {
    if c.Redir? then Inner(c.cmd) else c
  }

  function Outer(c: Cmd<string>): seq<Redirection> {
    if c.Redir? then Outer(c.cmd) + [Redirection(c.file, c.mode)] else []
  }

  lemma {:induction false} ShowRedirsSnoc(rs: seq<Redirection>, r: Redirection)
    ensures ShowRedirs(rs + [r]) == ShowRedirs(rs) + (ShowMode(r.mode) + r.file)
  {
    hide ShowMode;
    if rs == [] {
      assert rs + [r] == [r] && [r][1..] == [];
      assert ShowRedirs([r]) == ShowMode(r.mode) + r.file + "";
    } else {
      ShowRedirsSnoc(rs[1..], r);
      assert (rs + [r])[1..] == rs[1..] + [r];
    }
  }

  lemma {:induction false} UnwrapOk(c: Cmd<string>)
    requires Printable(c)
    ensures Wrap(Inner(c), Outer(c)) == c
    ensures Printable(Inner(c)) && FilesOk(Outer(c)) && !Inner(c).Redir?
        && (if c.Redir? then Inner(c) < c else Inner(c) == c)
  {
    hide WordOk;
    if c.Redir? {
      UnwrapOk(c.cmd);
      assert Outer(c)[..|Outer(c)| - 1] == Outer(c.cmd);
    }
  }

  /** A command is what is inside its redirections, wrapped, and is printed that way. */
  lemma {:induction false} Unwrap(c: Cmd<string>)
    ensures Show(c, 0) == Show(Inner(c), 0) + ShowRedirs(Outer(c))
  {
    hide ShowWords, ShowMode, ShowRedirs;
    if c.Redir? {
      Unwrap(c.cmd);
      ShowRedirsSnoc(Outer(c.cmd), Redirection(c.file, c.mode));
      assert Show(c, 0) == Show(c.cmd, 0) + ShowMode(c.mode) + c.file;
    } else {
      assert ShowRedirs(Outer(c)) == "" by { ShowNone(); }
      assert Show(c, 0) + "" == Show(c, 0);
    }
  }

  lemma ShowNone()
    ensures ShowRedirs([]) == ""
  {
  }

  /** A simple command comes back. */
  lemma SimpleBack(argv: seq<string>, rs: seq<Redirection>, rest: string)
    requires Printable(Exec(argv)) && FilesOk(rs) && Follows(rest, STOPS)
    ensures ParseExec(ShowWords(argv) + (ShowRedirs(rs) + rest)) == Ok(Wrap(Exec(argv), rs), rest)
  {
    hide ParseArgs, ParseRedirs, ShowRedirs, Wrap, WordOk;
    var more := ShowRedirs(rs) + rest;
    var text := ShowWords(argv) + more;
    RedirsFirst(rs, rest);
    if argv == [] {
      assert text == more;
      FirstNotParen(more, rs, rest);
      RedirsBack(rs, rest);
      ArgsNone(rest, 0);
      assert rs + [] == rs;
    } else {
      WordsFirst(argv, more);
      SkipSame(text);
      NoRedirs(text);
      ArgsBack(argv, rs, rest, 0);
      assert [] + rs == rs;
    }
  }

  lemma FirstNotParen(more: string, rs: seq<Redirection>, rest: string)
    requires more == ShowRedirs(rs) + rest && Follows(rest, STOPS)
    ensures !Peek(more, {'('})
  {
    RedirsFirst(rs, rest);
    SkipSame(more);
    if rs == [] { assert more == rest; } else { assert more[0] == ShowRedirs(rs)[0]; }
  }

  /** A command in parentheses comes back. */
  lemma ParenBack(c: Cmd<string>, rs: seq<Redirection>, rest: string)
    requires FilesOk(rs) && Follows(rest, STOPS) && Clean(Show(c, 3))
    requires ParseLine(Show(c, 3) + (")" + (ShowRedirs(rs) + rest))) == Ok(c, ")" + (ShowRedirs(rs) + rest))
    ensures ParseExec("(" + (Show(c, 3) + (")" + (ShowRedirs(rs) + rest)))) == Ok(Wrap(c, rs), rest)
  {
    hide ParseLine, ParseRedirs, ShowRedirs, Wrap, Show, GetToken, Skip;
    var more := ShowRedirs(rs) + rest;
    var inside := Show(c, 3) + (")" + more);
    SymToken('(', inside);
    assert inside != [] && !Blank(inside[0]) by {
      if Show(c, 3) == [] { assert inside == ")" + more; } else { assert inside[0] == Show(c, 3)[0]; }
    }
    SkipSame(inside);
    SymToken(')', more);
    RedirsFirst(rs, rest);
    SkipSame(more);
    RedirsBack(rs, rest);
  }

  /** Printed text never starts with a blank. */
  ghost predicate Clean(s: string) {
    s != [] ==> !Blank(s[0])
  }

  lemma CleanCat(s: string, t: string)
    requires Clean(s) && Clean(t)
    ensures Clean(s + t)
  {
    if s == [] { assert s + t == t; }
  }

  lemma SymClean(c: char, s: string)
    requires Symbol(c)
    ensures Clean([c] + s)
  {
  }

  lemma ModeClean(m: Mode, s: string)
    ensures Clean(ShowMode(m) + s)
  {
  }

  lemma WordsClean(argv: seq<string>)
    requires argv != [] ==> WordOk(argv[0])
    ensures Clean(ShowWords(argv))
  {
    if argv != [] {
      WordsFirst(argv, "");
      assert ShowWords(argv) + "" == ShowWords(argv);
    }
  }

  lemma {:induction false} ShowClean(c: Cmd<string>, lvl: nat)
    requires Printable(c)
    ensures Clean(Show(c, lvl))
    decreases c, if Level(c) > lvl then 1 else 0
  {
    hide Clean, ShowWords, ShowMode, WordOk;
    if Level(c) > lvl {
      SymClean('(', Show(c, 3) + ")");
      assert Show(c, lvl) == "(" + (Show(c, 3) + ")");
    } else {
      match c {
        case Exec(argv) =>
          WordsClean(argv);
        case Redir(d, file, mode) =>
          ShowClean(d, 0);
          ModeClean(mode, file);
          CleanCat(Show(d, 0), ShowMode(mode) + file);
          assert Show(c, lvl) == Show(d, 0) + (ShowMode(mode) + file);
        case Pipe(l, r) =>
          ShowClean(l, 0);
          SymClean('|', Show(r, 1));
          CleanCat(Show(l, 0), "|" + Show(r, 1));
          assert Show(c, lvl) == Show(l, 0) + ("|" + Show(r, 1));
        case Back(d) =>
          ShowClean(d, 2);
          SymClean('&', "");
          CleanCat(Show(d, 2), "&" + "");
          assert Show(c, lvl) == Show(d, 2) + ("&" + "");
        case List(l, r) =>
          ShowClean(l, 2);
          SymClean(';', Show(r, 3));
          CleanCat(Show(l, 2), ";" + Show(r, 3));
          assert Show(c, lvl) == Show(l, 2) + (";" + Show(r, 3));
      }
    }
  }

  /** Proofs about c go down the levels to that of c, and up once if they start below it. */
  function Rank(c: Cmd<string>, lvl: nat): nat {
    if Level(c) > lvl then 10 + lvl else lvl
  }

  lemma {:induction false} ExecBack(c: Cmd<string>, rest: string)
    requires Printable(c) && Follows(rest, STOPS)
    ensures ParseExec(Show(c, 0) + rest) == Ok(c, rest)
    decreases c, Rank(c, 0)
  {
    hide ParseExec, ShowRedirs, Wrap, Inner, Outer, Clean, Follows;
    UnwrapOk(c);
    Unwrap(c);
    var d, rs := Inner(c), Outer(c);
    var more := ShowRedirs(rs) + rest;
    assert Show(c, 0) + rest == Show(d, 0) + more;
    if d.Exec? {
      SimpleBack(d.argv, rs, rest);
    } else {
      LineBack(d, ")" + more) by { FollowsParen(more); }
      ShowClean(d, 3);
      ParenBack(d, rs, rest);
      assert Show(d, 0) + more == "(" + (Show(d, 3) + (")" + more));
    }
  }

  lemma FollowsParen(more: string)
    ensures Follows(")" + more, {')'})
  {
  }

  lemma {:induction false} PipeBack(c: Cmd<string>, rest: string)
    requires Printable(c) && Follows(rest, {')', '&', ';'})
    ensures ParsePipe(Show(c, 1) + rest) == Ok(c, rest)
    decreases c, Rank(c, 1)
  {
    hide ParseExec, GetToken, Skip;
    SkipSame(rest);
    if c.Pipe? {
      var more := Show(c.right, 1) + rest;
      assert Show(c, 1) + rest == Show(c.left, 0) + ("|" + more);
      ExecBack(c.left, "|" + more);
      SymToken('|', more);
      ShowClean(c.right, 1);
      CleanCat(Show(c.right, 1), rest);
      SkipSame(more);
      PipeBack(c.right, rest);
    } else {
      assert Show(c, 1) == Show(c, 0);
      ExecBack(c, rest);
    }
  }

  /** At the level of & the text gives some command and the &s after it, which together are c. */
  lemma {:induction false} BackBack(c: Cmd<string>, rest: string)
    requires Printable(c) && Follows(rest, {')', '&', ';'})
    ensures var r := ParsePipe(Show(c, 2) + rest); r.Ok? && ParseBacks(r.value, r.rest) == ParseBacks(c, rest)
    decreases c, Rank(c, 2)
  {
    hide ParsePipe, GetToken, Skip;
    if c.Back? {
      assert Show(c, 2) + rest == Show(c.cmd, 2) + ("&" + rest);
      BackBack(c.cmd, "&" + rest);
      SymToken('&', rest);
      SkipSame(rest);
    } else {
      assert Show(c, 2) == Show(c, 1);
      PipeBack(c, rest);
    }
  }

  lemma {:induction false} LineBack(c: Cmd<string>, rest: string)
    requires Printable(c) && Follows(rest, {')'})
    ensures ParseLine(Show(c, 3) + rest) == Ok(c, rest)
    decreases c, Rank(c, 3)
  {
    hide ParsePipe, GetToken, Skip;
    SkipSame(rest);
    if c.List? {
      var more := Show(c.right, 3) + rest;
      assert Show(c, 3) + rest == Show(c.left, 2) + (";" + more);
      BackBack(c.left, ";" + more);
      SymToken(';', more);
      ShowClean(c.right, 3);
      CleanCat(Show(c.right, 3), rest);
      SkipSame(more);
      LineBack(c.right, rest);
    } else {
      assert Show(c, 3) == Show(c, 2);
      BackBack(c, rest);
    }
  }

  /** Whatever command is printed, parsing the text gives that command. */
  lemma RoundTrip(c: Cmd<string>)
    requires Printable(c)
    ensures ParseCmd(Show(c, 3)) == Ok(c, [])
  {
    hide ParseLine;
    LineBack(c, []);
    assert Show(c, 3) + [] == Show(c, 3);
  }

  /** A symbol that is seen is consumed. */
  lemma PeekToken(s: string, toks: set<char>)
    requires Peek(s, toks) && forall c :: c in toks ==> Symbol(c)
    ensures |GetToken(s).rest| < |s|
  {
  }

  // ---------- and nothing else is ever parsed ----------

  lemma {:induction false} WordLenPlain(s: string)
    ensures forall i :: 0 <= i < WordLen(s) ==> Plain(s[i])
  {
    if s != [] && Plain(s[0]) {
      WordLenPlain(s[1..]);
      forall i | 0 <= i < WordLen(s) ensures Plain(s[i]) {
        assert i > 0 ==> s[1..][i - 1] == s[i];
      }
    }
  }

  lemma TokenPlain(s: string)
    requires GetToken(s).tok.Word?
    ensures WordOk(GetToken(s).tok.w)
  {
    WordLenPlain(Skip(s));
  }

  lemma {:induction false} RedirsPlain(s: string)
    requires ParseRedirs(s).Ok?
    ensures FilesOk(ParseRedirs(s).value)
    decreases |s|
  {
    hide GetToken, WordOk;
    if Peek(s, {'<', '>'}) {
      var op := GetToken(s);
      TokenPlain(op.rest);
      RedirsPlain(GetToken(op.rest).rest);
    }
  }

  lemma {:induction false} ArgsPlain(s: string, argc: nat)
    requires ParseArgs(s, argc).Ok? && argc < MAXARGS
    ensures var a := ParseArgs(s, argc).value;
      argc + |a.argv| < MAXARGS && FilesOk(a.redirs) && forall i :: 0 <= i < |a.argv| ==> WordOk(a.argv[i])
    decreases |s|
  {
    hide GetToken, WordOk, ParseRedirs;
    var t := GetToken(s);
    if !Peek(s, {'|', ')', '&', ';'}) && t.tok.Word? {
      TokenPlain(s);
      RedirsPlain(t.rest);
      ArgsPlain(ParseRedirs(t.rest).rest, argc + 1);
    }
  }

  lemma {:induction false} WrapPlain(c: Cmd<string>, rs: seq<Redirection>)
    requires Printable(c) && FilesOk(rs)
    ensures Printable(Wrap(c, rs))
  {
    if rs != [] { WrapPlain(c, rs[..|rs| - 1]); }
  }

  lemma {:induction false} BacksPlain(c: Cmd<string>, s: string)
    requires Printable(c)
    ensures Printable(ParseBacks(c, s).value)
    decreases |s|
  {
    hide GetToken;
    if Peek(s, {'&'}) { PeekToken(s, {'&'}); BacksPlain(Back(c), GetToken(s).rest); }
  }

  lemma {:induction false} ExecPlain(s: string)
    requires ParseExec(s).Ok?
    ensures Printable(ParseExec(s).value)
    decreases |s|, 2
  {
    hide GetToken, ParseRedirs, ParseArgs, Wrap, WordOk;
    if Peek(s, {'('}) {
      PeekToken(s, {'('});
      LinePlain(GetToken(s).rest);
      var r := ParseLine(GetToken(s).rest);
      RedirsPlain(GetToken(r.rest).rest);
      WrapPlain(r.value, ParseRedirs(GetToken(r.rest).rest).value);
    } else {
      RedirsPlain(s);
      var r := ParseRedirs(s);
      ArgsPlain(r.rest, 0);
      var a := ParseArgs(r.rest, 0).value;
      WrapPlain(Exec(a.argv), r.value + a.redirs);
    }
  }

  lemma {:induction false} PipePlain(s: string)
    requires ParsePipe(s).Ok?
    ensures Printable(ParsePipe(s).value)
    decreases |s|, 3
  {
    hide GetToken, ParseExec;
    ExecPlain(s);
    var r := ParseExec(s);
    if Peek(r.rest, {'|'}) { PeekToken(r.rest, {'|'}); PipePlain(GetToken(r.rest).rest); }
  }

  /** Every command the parser returns is one the printer can print. */
  lemma {:induction false} LinePlain(s: string)
    requires ParseLine(s).Ok?
    ensures Printable(ParseLine(s).value)
    decreases |s|, 4
  {
    hide GetToken, ParsePipe, ParseBacks;
    PipePlain(s);
    var r := ParsePipe(s);
    BacksPlain(r.value, r.rest);
    var b := ParseBacks(r.value, r.rest);
    if Peek(b.rest, {';'}) { PeekToken(b.rest, {';'}); LinePlain(GetToken(b.rest).rest); }
  }
}
