/** What is between the words and signs of a command does not matter: the parser sees a text only as its tokens, and any
    text that spells the tokens of a command, with blanks, tabs, carriage returns, newlines and vertical tabs between
    them, is parsed to that command. */
module ShellLayout {
  import opened ShellGrammar

  // ---------- a text as its tokens ----------

  function Tokens(s: string): seq<Token>
    decreases |s|
  {
    var t := GetToken(s);
    if t.tok == End then [] else [t.tok] + Tokens(t.rest)
  }

  /** What is left when there is no further token. */
  function Tail(s: string): string
    decreases |s|
  {
    var t := GetToken(s);
    if t.tok == End then t.rest else Tail(t.rest)
  }

  ghost predicate Alike(s: string, s': string) {
    Tokens(s) == Tokens(s') && Tail(s) == Tail(s')
  }

  lemma AlikeToken(s: string, s': string)
    requires Alike(s, s')
    ensures
      var t, t' := GetToken(s), GetToken(s');
      t.tok == t'.tok && (if t.tok == End then t.rest == t'.rest else Alike(t.rest, t'.rest))
  {
    hide GetToken;
    var t, t' := GetToken(s), GetToken(s');
    if t.tok != End && t'.tok != End {
      assert Tokens(s)[1..] == Tokens(t.rest) && Tokens(s')[1..] == Tokens(t'.rest);
    }
  }

  lemma AlikeSkip(s: string)
    ensures Alike(s, Skip(s)) && GetToken(s) == GetToken(Skip(s))
  {
    SkipTwice(s);
    assert GetToken(s) == GetToken(Skip(s));
    hide GetToken;
  }

  lemma SkipTwice(s: string)
    ensures Skip(Skip(s)) == Skip(s)
  {
    SkipSame(Skip(s));
  }

  /** The character peek sees, as the token it begins. */
  predicate Begins(t: Token, c: char) {
    match t
    case End => false
    case Sym(x) => x == c
    case Double => c == '>'
    case Word(_) => false
  }

  ghost predicate Symbols(toks: set<char>) {
    forall c :: c in toks ==> Symbol(c)
  }

  lemma PeekSees(s: string, toks: set<char>)
    requires Symbols(toks)
    ensures Peek(s, toks) <==> exists c :: c in toks && Begins(GetToken(s).tok, c)
  {
    var t := Skip(s);
    if t != [] && Symbol(t[0]) {
      assert Begins(GetToken(s).tok, t[0]);
    }
  }

  lemma AlikePeek(s: string, s': string, toks: set<char>)
    requires Alike(s, s') && Symbols(toks)
    ensures Peek(s, toks) == Peek(s', toks)
  {
    AlikeToken(s, s');
    PeekSees(s, toks);
    PeekSees(s', toks);
    hide GetToken, Peek;
  }

  // ---------- the parser sees tokens alone ----------

  ghost predicate Agree<T>(r: Result<T>, r': Result<T>) {
    match r
    case Fail(e) => r' == Fail(e)
    case Ok(v, rest) => r'.Ok? && r'.value == v && Alike(rest, r'.rest)
  }

  lemma AlikeSkips(s: string, s': string)
    requires Alike(s, s')
    ensures Alike(Skip(s), Skip(s'))
  {
    AlikeSkip(s);
    AlikeSkip(s');
  }

  lemma {:induction false} RedirsAgree(s: string, s': string)
    requires Alike(s, s')
    ensures Agree(ParseRedirs(s), ParseRedirs(s'))
    decreases |s|
  {
    hide Alike, GetToken, Peek, Skip;
    AlikePeek(s, s', {'<', '>'});
    if Peek(s, {'<', '>'}) {
      AlikeToken(s, s');
      PeekToken(s, {'<', '>'});
      PeekSees(s, {'<', '>'});
      var op, op' := GetToken(s), GetToken(s');
      AlikeToken(op.rest, op'.rest);
      if GetToken(op.rest).tok.Word? {
        RedirsAgree(GetToken(op.rest).rest, GetToken(op'.rest).rest);
      }
    } else {
      AlikeSkips(s, s');
    }
  }

  lemma {:induction false} ArgsAgree(s: string, s': string, argc: nat)
    requires Alike(s, s')
    ensures Agree(ParseArgs(s, argc), ParseArgs(s', argc))
    decreases |s|
  {
    hide Alike, GetToken, Peek, Skip, ParseRedirs;
    AlikePeek(s, s', {'|', ')', '&', ';'});
    if Peek(s, {'|', ')', '&', ';'}) {
      AlikeSkips(s, s');
    } else {
      AlikeToken(s, s');
      var t, t' := GetToken(s), GetToken(s');
      if t.tok == End {
        AlikeSelf(t.rest);
      } else if t.tok.Word? && argc + 1 < MAXARGS {
        RedirsAgree(t.rest, t'.rest);
        if ParseRedirs(t.rest).Ok? { ArgsAgree(ParseRedirs(t.rest).rest, ParseRedirs(t'.rest).rest, argc + 1); }
      }
    }
  }

  lemma AlikeSelf(s: string)
    ensures Alike(s, s)
  {
  }

  lemma {:induction false} ExecAgree(s: string, s': string)
    requires Alike(s, s')
    ensures Agree(ParseExec(s), ParseExec(s'))
    decreases |s|, 2
  {
    hide Alike, GetToken, Peek, Skip, ParseRedirs, ParseArgs, ParseLine, Wrap;
    AlikePeek(s, s', {'('});
    if Peek(s, {'('}) {
      BlockAgree(s, s');
    } else {
      RedirsAgree(s, s');
      if ParseRedirs(s).Ok? { ArgsAgree(ParseRedirs(s).rest, ParseRedirs(s').rest, 0); }
    }
  }

  lemma Opened(s: string, s': string, c: char)
    requires Alike(s, s') && Symbol(c) && Peek(s, {c})
    ensures |GetToken(s).rest| < |s| && Peek(s', {c}) && Alike(GetToken(s).rest, GetToken(s').rest)
  {
    AlikePeek(s, s', {c});
    AlikeToken(s, s');
    PeekToken(s, {c});
    PeekSees(s, {c});
    hide Alike, GetToken, Peek;
  }

  lemma {:induction false} BlockAgree(s: string, s': string)
    requires Alike(s, s') && Peek(s, {'('}) && Peek(s', {'('})
    ensures Agree(ParseBlock(s), ParseBlock(s'))
    decreases |s|, 1
  {
    hide Alike, GetToken, Peek, Skip, ParseRedirs, ParseLine, Wrap;
    Opened(s, s', '(');
    LineAgree(GetToken(s).rest, GetToken(s').rest);
    var r, r' := ParseLine(GetToken(s).rest), ParseLine(GetToken(s').rest);
    if r.Ok? {
      AlikePeek(r.rest, r'.rest, {')'});
      if Peek(r.rest, {')'}) {
        Opened(r.rest, r'.rest, ')');
        RedirsAgree(GetToken(r.rest).rest, GetToken(r'.rest).rest);
      }
    }
  }

  lemma {:induction false} PipeAgree(s: string, s': string)
    requires Alike(s, s')
    ensures Agree(ParsePipe(s), ParsePipe(s'))
    decreases |s|, 3
  {
    hide Alike, GetToken, Peek, Skip, ParseExec;
    ExecAgree(s, s');
    var r, r' := ParseExec(s), ParseExec(s');
    if r.Ok? {
      AlikePeek(r.rest, r'.rest, {'|'});
      if Peek(r.rest, {'|'}) {
        Opened(r.rest, r'.rest, '|');
        PipeAgree(GetToken(r.rest).rest, GetToken(r'.rest).rest);
      }
    }
  }

  lemma {:induction false} BacksAgree(c: Cmd<string>, s: string, s': string)
    requires Alike(s, s')
    ensures Agree(ParseBacks(c, s), ParseBacks(c, s'))
    decreases |s|
  {
    hide Alike, GetToken, Peek, Skip;
    AlikePeek(s, s', {'&'});
    if Peek(s, {'&'}) {
      Opened(s, s', '&');
      BacksAgree(Back(c), GetToken(s).rest, GetToken(s').rest);
    } else {
      AlikeSkips(s, s');
    }
  }

  /** Texts with the same tokens are parsed alike, errors included. */
  lemma {:induction false} LineAgree(s: string, s': string)
    requires Alike(s, s')
    ensures Agree(ParseLine(s), ParseLine(s'))
    decreases |s|, 4
  {
    hide Alike, GetToken, Peek, Skip, ParsePipe, ParseBacks;
    PipeAgree(s, s');
    var r, r' := ParsePipe(s), ParsePipe(s');
    if r.Ok? {
      BacksAgree(r.value, r.rest, r'.rest);
      var b, b' := ParseBacks(r.value, r.rest), ParseBacks(r'.value, r'.rest);
      AlikePeek(b.rest, b'.rest, {';'});
      if Peek(b.rest, {';'}) {
        Opened(b.rest, b'.rest, ';');
        LineAgree(GetToken(b.rest).rest, GetToken(b'.rest).rest);
      }
    }
  }

  // ---------- the tokens of a command, spelt out with any layout ----------

  /** What may stand between tokens: user/sh.c's whitespace. */
  const LAYOUT: set<char> := {' ', '\t', '\r', '\n', '\U{0B}'}

  /** What ends a word besides. */
  const SIGNS: set<char> := {'<', '|', '>', '&', ';', '(', ')'}

  ghost predicate Typeable(w: string) {
    w != [] && forall i :: 0 <= i < |w| ==> w[i] !in LAYOUT && w[i] !in SIGNS && w[i] != '\0'
  }

  /** Every word can be typed, and no command has too many. */
  ghost predicate Typed(c: Cmd<string>) {
    match c
    case Exec(argv) => |argv| < MAXARGS && forall i :: 0 <= i < |argv| ==> Typeable(argv[i])
    case Redir(d, file, _) => Typeable(file) && Typed(d)
    case Pipe(l, r) => Typed(l) && Typed(r)
    case List(l, r) => Typed(l) && Typed(r)
    case Back(d) => Typed(d)
  }

  function SignOf(m: Mode): Token {
    match m
    case In => Sym('<')
    case Out => Sym('>')
    case Append => Double
  }

  /** The tokens of c where the grammar allows commands of level lvl. */
  function CmdTokens(c: Cmd<string>, lvl: nat): seq<Token>
    decreases c, if Level(c) > lvl then 1 else 0
  {
    if Level(c) > lvl then [Sym('(')] + CmdTokens(c, 3) + [Sym(')')]
    else
      match c
      case Exec(argv) => seq(|argv|, i requires 0 <= i < |argv| => Word(argv[i]))
      case Redir(d, file, mode) => CmdTokens(d, 0) + [SignOf(mode), Word(file)]
      case Pipe(l, r) => CmdTokens(l, 0) + [Sym('|')] + CmdTokens(r, 1)
      case Back(d) => CmdTokens(d, 2) + [Sym('&')]
      case List(l, r) => CmdTokens(l, 2) + [Sym(';')] + CmdTokens(r, 3)
  }

  function Spell(t: Token): string {
    match t
    case End => ""
    case Sym(c) => [c]
    case Double => ">>"
    case Word(w) => w
  }

  /** A gap, then the first token, and so on, with a gap at the end. */
  function Weave(gaps: seq<string>, toks: seq<Token>): string
    requires |gaps| == |toks| + 1
    decreases |toks|
  {
    if toks == [] then gaps[0] else gaps[0] + (Spell(toks[0]) + Weave(gaps[1..], toks[1..]))
  }

  ghost predicate IsGap(g: string) {
    forall i :: 0 <= i < |g| ==> g[i] in LAYOUT
  }

  /** The gaps are layout, with something between two words. */
  ghost predicate GapsOk(gaps: seq<string>, toks: seq<Token>) {
    && |gaps| == |toks| + 1 && (forall i :: 0 <= i < |gaps| ==> IsGap(gaps[i]))
    && forall i :: 0 < i < |toks| && toks[i - 1].Word? && toks[i].Word? ==> gaps[i] != ""
  }

  /** A token that can be typed. */
  ghost predicate TokenOk(t: Token) {
    match t
    case End => false
    case Sym(c) => c in SIGNS
    case Double => true
    case Word(w) => Typeable(w)
  }

  /** Every token can be typed, and no > runs into what follows it. */
  ghost predicate TokensOk(toks: seq<Token>) {
    && (forall i :: 0 <= i < |toks| ==> TokenOk(toks[i]))
    && forall i :: 0 < i < |toks| && toks[i - 1] == Sym('>') ==> toks[i].Word?
  }

  // ---------- what is spelt is read ----------

  lemma TypeablePlain(w: string)
    requires Typeable(w)
    ensures WordOk(w)
  {
  }

  lemma {:induction false} SkipGap(g: string, s: string)
    requires IsGap(g)
    ensures Skip(g + s) == Skip(s)
  {
    if g == [] {
      assert g + s == s;
    } else {
      assert (g + s)[1..] == g[1..] + s && (g + s)[0] == g[0];
      SkipGap(g[1..], s);
    }
  }

  /** What follows a word is no part of it, and what follows > is no >. */
  ghost predicate Parts(t: Token, s: string) {
    && (t.Word? && s != [] ==> !Plain(s[0]))
    && (t == Sym('>') && s != [] ==> s[0] != '>')
  }

  lemma SpeltToken(t: Token, s: string)
    requires TokenOk(t) && Parts(t, s)
    ensures GetToken(Spell(t) + s) == Lexed(t, Skip(s)) && t != End
  {
    match t {
      case Sym(c) => SymToken(c, s);
      case Double =>
        var x := ">>" + s;
        assert x[0] == '>' && x[1] == '>' && x[2..] == s;
      case Word(w) =>
        TypeablePlain(w);
        WordToken(w, s);
    }
  }

  lemma WeaveParts(gaps: seq<string>, toks: seq<Token>)
    requires toks != [] && GapsOk(gaps, toks) && TokensOk(toks)
    ensures Parts(toks[0], Weave(gaps[1..], toks[1..]))
  {
    var s := Weave(gaps[1..], toks[1..]);
    if gaps[1] != "" {
      assert s[0] == gaps[1][0];
    } else if |toks| > 1 {
      assert s == Spell(toks[1]) + Weave(gaps[1..][1..], toks[1..][1..]);
      assert TokenOk(toks[1]) && s[0] == Spell(toks[1])[0];
    }
  }

  lemma SameSkip(s: string, t: string)
    requires Skip(s) == Skip(t)
    ensures GetToken(s) == GetToken(t)
  {
    AlikeSkip(s);
    AlikeSkip(t);
  }

  lemma SameRead(s: string, t: string)
    requires GetToken(s) == GetToken(t)
    ensures Tokens(s) == Tokens(t) && Tail(s) == Tail(t)
  {
    hide GetToken;
  }

  lemma TokenThen(t: Token, s: string)
    requires TokenOk(t) && Parts(t, s)
    ensures Tokens(Spell(t) + s) == [t] + Tokens(s) && Tail(Spell(t) + s) == Tail(s)
  {
    SpeltToken(t, s);
    AlikeSkip(s);
    hide GetToken, Skip;
  }

  lemma EmptyText()
    ensures Tokens("") == [] && Tail("") == ""
  {
  }

  lemma {:induction false} WeaveTokens(gaps: seq<string>, toks: seq<Token>)
    requires GapsOk(gaps, toks) && TokensOk(toks)
    ensures Tokens(Weave(gaps, toks)) == toks && Tail(Weave(gaps, toks)) == ""
    decreases |toks|
  {
    hide TokenOk, Parts, Spell, Tokens, Tail, GetToken, Skip;
    if toks == [] {
      SkipGap(gaps[0], "");
      assert gaps[0] + "" == gaps[0];
      SameSkip(gaps[0], "");
      SameRead(gaps[0], "");
      EmptyText();
    } else {
      var rest := Weave(gaps[1..], toks[1..]);
      var text := Spell(toks[0]) + rest;
      WeaveParts(gaps, toks);
      TokenThen(toks[0], rest);
      SkipGap(gaps[0], text);
      SameSkip(gaps[0] + text, text);
      SameRead(gaps[0] + text, text);
      WeaveTokens(gaps[1..], toks[1..]);
      assert toks == [toks[0]] + toks[1..];
    }
  }

  // ---------- the printer's own layout is one ----------

  /** The text is read as these tokens before whatever s is. */
  ghost predicate Reads(text: string, toks: seq<Token>, s: string) {
    Tokens(text + s) == toks + Tokens(s) && Tail(text + s) == Tail(s)
  }

  lemma ReadsCat(a: string, ta: seq<Token>, b: string, tb: seq<Token>, s: string)
    requires Reads(a, ta, b + s) && Reads(b, tb, s)
    ensures Reads(a + b, ta + tb, s)
  {
    hide Tokens, Tail;
    assert (a + b) + s == a + (b + s);
  }

  lemma {:induction false} WordsTokens(argv: seq<string>, s: string)
    requires forall i :: 0 <= i < |argv| ==> Typeable(argv[i])
    ensures Reads(ShowWords(argv), CmdTokens(Exec(argv), 0), s)
  {
    hide Tokens, Tail, Typeable;
    if argv == [] {
      assert ShowWords(argv) + s == s;
    } else {
      var more := ShowWords(argv[1..]) + s;
      WordsSplit(argv, s);
      TokenThen(Word(argv[0]), " " + more);
      SkipBlank(more);
      SameSkip(" " + more, more);
      SameRead(" " + more, more);
      WordsTokens(argv[1..], s);
      assert CmdTokens(Exec(argv), 0) == [Word(argv[0])] + CmdTokens(Exec(argv[1..]), 0);
    }
  }

  lemma SignTokens(c: char, s: string)
    requires c in SIGNS && c != '>'
    ensures Reads([c], [Sym(c)], s)
  {
    hide Tokens, Tail;
    TokenThen(Sym(c), s);
  }

  lemma ModeTokens(m: Mode, file: string, s: string)
    requires Typeable(file) && (s != [] ==> !Plain(s[0]))
    ensures Reads(ShowMode(m) + file, [SignOf(m), Word(file)], s)
  {
    hide Tokens, Tail;
    assert (file + s)[0] == file[0];
    TokenThen(SignOf(m), file + s);
    assert Spell(SignOf(m)) == ShowMode(m);
    TokenThen(Word(file), s);
    assert (ShowMode(m) + file) + s == ShowMode(m) + (file + s);
  }

  /** What follows is no part of a word. */
  ghost predicate Stops(s: string) {
    s != [] ==> !Plain(s[0])
  }

  lemma SignStops(c: char, s: string)
    requires c in SIGNS
    ensures Stops([c] + s)
  {
  }

  lemma TwoSides(a: string, ta: seq<Token>, c: char, b: string, tb: seq<Token>, s: string)
    requires c in SIGNS && c != '>' && Reads(a, ta, [c] + (b + s)) && Reads(b, tb, s)
    ensures Reads(a + [c] + b, ta + [Sym(c)] + tb, s)
  {
    hide Reads;
    SignTokens(c, b + s);
    ReadsCat([c], [Sym(c)], b, tb, s);
    assert [c] + b + s == [c] + (b + s);
    ReadsCat(a, ta, [c] + b, [Sym(c)] + tb, s);
    assert a + ([c] + b) == a + [c] + b && ta + ([Sym(c)] + tb) == ta + [Sym(c)] + tb;
  }

  lemma {:induction false} ShowTokens(c: Cmd<string>, lvl: nat, s: string)
    requires Typed(c) && Stops(s)
    ensures Reads(Show(c, lvl), CmdTokens(c, lvl), s)
    decreases c, if Level(c) > lvl then 1 else 0
  {
    hide Reads, ShowWords, ShowMode, Typeable, Stops;
    if Level(c) > lvl {
      SignStops(')', s);
      ShowTokens(c, 3, ")" + s);
      SignTokens(')', s);
      ReadsCat(Show(c, 3), CmdTokens(c, 3), ")", [Sym(')')], s);
      SignTokens('(', Show(c, 3) + ")" + s);
      ReadsCat("(", [Sym('(')], Show(c, 3) + ")", CmdTokens(c, 3) + [Sym(')')], s);
      assert "(" + (Show(c, 3) + ")") == "(" + Show(c, 3) + ")";
      assert [Sym('(')] + (CmdTokens(c, 3) + [Sym(')')]) == [Sym('(')] + CmdTokens(c, 3) + [Sym(')')];
    } else {
      match c {
        case Exec(argv) =>
          WordsTokens(argv, s);
        case Redir(d, file, mode) =>
          RedirTokens(d, file, mode, s);
        case Pipe(l, r) =>
          SignStops('|', Show(r, 1) + s);
          ShowTokens(r, 1, s);
          ShowTokens(l, 0, "|" + (Show(r, 1) + s));
          TwoSides(Show(l, 0), CmdTokens(l, 0), '|', Show(r, 1), CmdTokens(r, 1), s);
        case Back(d) =>
          SignStops('&', s);
          SignTokens('&', s);
          ShowTokens(d, 2, "&" + s);
          ReadsCat(Show(d, 2), CmdTokens(d, 2), "&", [Sym('&')], s);
        case List(l, r) =>
          SignStops(';', Show(r, 3) + s);
          ShowTokens(r, 3, s);
          ShowTokens(l, 2, ";" + (Show(r, 3) + s));
          TwoSides(Show(l, 2), CmdTokens(l, 2), ';', Show(r, 3), CmdTokens(r, 3), s);
      }
    }
  }

  lemma {:induction false} RedirTokens(d: Cmd<string>, file: string, mode: Mode, s: string)
    requires Typed(d) && Typeable(file) && Stops(s)
    ensures Reads(Show(d, 0) + ShowMode(mode) + file, CmdTokens(d, 0) + [SignOf(mode), Word(file)], s)
    decreases d, 2
  {
    hide Reads, Typeable;
    ModeFirst(mode, file + s);
    hide ShowMode;
    assert ShowMode(mode) + file + s == ShowMode(mode) + (file + s);
    ShowTokens(d, 0, ShowMode(mode) + file + s);
    ModeTokens(mode, file, s);
    ReadsCat(Show(d, 0), CmdTokens(d, 0), ShowMode(mode) + file, [SignOf(mode), Word(file)], s);
    assert Show(d, 0) + (ShowMode(mode) + file) == Show(d, 0) + ShowMode(mode) + file;
  }

  lemma ModeFirst(m: Mode, s: string)
    ensures ShowMode(m) + s != [] && !Plain((ShowMode(m) + s)[0])
  {
  }

  lemma {:induction false} TypedPrintable(c: Cmd<string>)
    requires Typed(c)
    ensures Printable(c)
  {
    match c {
      case Exec(argv) =>
        forall i | 0 <= i < |argv| ensures WordOk(argv[i]) { TypeablePlain(argv[i]); }
      case Redir(d, file, _) =>
        TypeablePlain(file);
        TypedPrintable(d);
      case Pipe(l, r) =>
        TypedPrintable(l);
        TypedPrintable(r);
      case List(l, r) =>
        TypedPrintable(l);
        TypedPrintable(r);
      case Back(d) =>
        TypedPrintable(d);
    }
  }

  /** Tokens that can be typed and do not end in >. */
  ghost predicate Closed(toks: seq<Token>) {
    TokensOk(toks) && (toks != [] ==> toks[|toks| - 1] != Sym('>'))
  }

  lemma ClosedCat(a: seq<Token>, b: seq<Token>)
    requires Closed(a) && Closed(b)
    ensures Closed(a + b)
  {
    hide TokenOk;
    var ab := a + b;
    forall i | 0 < i < |ab| && ab[i - 1] == Sym('>') ensures ab[i].Word? {
      if i < |a| { assert a[i - 1] == ab[i - 1]; } else if i > |a| { assert b[i - |a| - 1] == ab[i - 1]; }
    }
  }

  lemma ClosedSign(c: char)
    requires c in SIGNS && c != '>'
    ensures Closed([Sym(c)])
  {
  }

  lemma ClosedSides(a: seq<Token>, c: char, b: seq<Token>)
    requires Closed(a) && Closed(b) && c in SIGNS && c != '>'
    ensures Closed(a + [Sym(c)] + b)
  {
    hide Closed;
    ClosedSign(c);
    ClosedCat(a, [Sym(c)]);
    ClosedCat(a + [Sym(c)], b);
  }

  lemma {:induction false} CmdTokensOk(c: Cmd<string>, lvl: nat)
    requires Typed(c)
    ensures Closed(CmdTokens(c, lvl))
    decreases c, if Level(c) > lvl then 1 else 0
  {
    if Level(c) > lvl {
      hide Closed, Typed;
      CmdTokensOk(c, 3);
      ClosedSign('(');
      ClosedSign(')');
      ClosedCat([Sym('(')], CmdTokens(c, 3));
      ClosedCat([Sym('(')] + CmdTokens(c, 3), [Sym(')')]);
    } else {
      match c {
        case Exec(argv) =>
        case Redir(d, file, mode) =>
          CmdTokensOk(d, 0);
          assert Closed([SignOf(mode), Word(file)]);
          ClosedCat(CmdTokens(d, 0), [SignOf(mode), Word(file)]);
        case Pipe(l, r) =>
          CmdTokensOk(l, 0);
          CmdTokensOk(r, 1);
          ClosedSides(CmdTokens(l, 0), '|', CmdTokens(r, 1));
        case Back(d) =>
          CmdTokensOk(d, 2);
          ClosedSign('&');
          ClosedCat(CmdTokens(d, 2), [Sym('&')]);
        case List(l, r) =>
          CmdTokensOk(l, 2);
          CmdTokensOk(r, 3);
          ClosedSides(CmdTokens(l, 2), ';', CmdTokens(r, 3));
      }
    }
  }

  // ---------- any layout ----------

  /** Whatever command is typed, with whatever layout before, between and after its words and signs, as long as there is
      some between two words, parsing the text gives that command. */
  lemma AnyLayout(c: Cmd<string>, gaps: seq<string>)
    requires Typed(c) && GapsOk(gaps, CmdTokens(c, 3))
    ensures ParseCmd(Weave(gaps, CmdTokens(c, 3))) == Ok(c, [])
  {
    hide Tokens, Tail, ParseLine, CmdTokens, Weave, Show, TokensOk;
    CmdTokensOk(c, 3);
    WeaveTokens(gaps, CmdTokens(c, 3));
    ShowTokens(c, 3, "");
    assert Show(c, 3) + "" == Show(c, 3);
    EmptyText();
    SameParse(Show(c, 3), Weave(gaps, CmdTokens(c, 3)), c);
  }

  lemma SameParse(s: string, s': string, c: Cmd<string>)
    requires Typed(c) && s == Show(c, 3) && Tokens(s') == Tokens(s) && Tail(s') == Tail(s) == ""
    ensures ParseCmd(s') == Ok(c, [])
  {
    hide Tokens, Tail, ParseLine, Show;
    TypedPrintable(c);
    RoundTrip(c);
    LineAgree(s, s');
    AlikeEmpty(ParseLine(s').rest);
  }

  /** Text with no token and nothing left is blank; once skipped, nothing. */
  lemma AlikeEmpty(s: string)
    requires Alike("", s) && Skip(s) == s
    ensures s == ""
  {
    EmptyText();
  }

  /** The line as the shell reads it: with its newline. */
  lemma LineAsRead(c: Cmd<string>)
    requires Typed(c)
    ensures ParseCmd(Show(c, 3) + "\n") == Ok(c, [])
  {
    hide Tokens, Tail, ParseLine, Show;
    ShowTokens(c, 3, "");
    ShowTokens(c, 3, "\n");
    assert Show(c, 3) + "" == Show(c, 3);
    EmptyText();
    SkipGap("\n", "");
    assert "\n" + "" == "\n";
    SameSkip("\n", "");
    SameRead("\n", "");
    SameParse(Show(c, 3), Show(c, 3) + "\n", c);
  }
}
