/** grep's matcher, and the language of its patterns. */
module Grep {

  /** One item of a pattern: a character, '.' standing for any, perhaps starred. */
  datatype Item = Item(c: char, star: bool)

  /** What a pattern without a leading '^' means: items, and whether '$' ends it. */
  datatype Pattern = Pattern(items: seq<Item>, dollar: bool)

  predicate Fits(c: char, x: char) {
    c == '.' || c == x
  }

  /** A pattern read from left to right: a star binds to whatever character is before it, and '$' is
      special only as the last character. */
  function Parse(re: string): Pattern {
    if re == "" then Pattern([], false)
    else if |re| >= 2 && re[1] == '*' then var p := Parse(re[2..]); Pattern([Item(re[0], true)] + p.items, p.dollar)
    else if re == "$" then Pattern([], true)
    else var p := Parse(re[1..]); Pattern([Item(re[0], false)] + p.items, p.dollar)
  }

  /** Every character of s fits c. */
  ghost predicate AllFit(c: char, s: string) {
    forall i :: 0 <= i < |s| ==> Fits(c, s[i])
  }

  /** s is a word of the language of the items. */
  ghost predicate Lang(items: seq<Item>, s: string) {
    if items == [] then s == []
    else if items[0].star then exists m :: 0 <= m <= |s| && Stars(items, s, m)
    else s != [] && Fits(items[0].c, s[0]) && Lang(items[1..], s[1..])
  }

  /** The first m characters of s are for the starred first item and the rest for the others. */
  ghost predicate Stars(items: seq<Item>, s: string, m: nat)
    requires items != []
  {
    m <= |s| && AllFit(items[0].c, s[..m]) && Lang(items[1..], s[m..])
  }

  /** Some prefix of text, all of it if '$' ends the pattern, is in the language. */
  ghost predicate Here(p: Pattern, text: string) {
    exists n :: 0 <= n <= |text| && PrefixIn(p, text, n)
  }

  ghost predicate PrefixIn(p: Pattern, text: string, n: nat) {
    n <= |text| && Lang(p.items, text[..n]) && (p.dollar ==> n == |text|)
  }

  /** Some substring of text is in the language: one at the start if the pattern starts with '^', one
      at the end if it ends with '$'. */
  ghost predicate Matches(re: string, text: string) {
    if re != "" && re[0] == '^' then Here(Parse(re[1..]), text)
    else exists k: nat :: HereFrom(re, text, k)
  }

  ghost predicate HereFrom(re: string, text: string, k: nat) {
    k <= |text| && Here(Parse(re), text[k..])
  }

  // ---------- the equations the code goes by ----------

  lemma HereEmpty(dollar: bool, text: string)
    ensures Here(Pattern([], dollar), text) <==> (dollar ==> text == [])
  {
    var p := Pattern([], dollar);
    if dollar ==> text == [] {
      assert text[..0] == [];
      assert PrefixIn(p, text, 0);
    } else {
      forall n | 0 <= n <= |text| ensures !PrefixIn(p, text, n) {
      }
    }
  }

  lemma HereOne(c: char, p: Pattern, text: string)
    ensures Here(Pattern([Item(c, false)] + p.items, p.dollar), text) <==>
      text != [] && Fits(c, text[0]) && Here(p, text[1..])
  {
    var q := Pattern([Item(c, false)] + p.items, p.dollar);
    assert q.items[1..] == p.items;
    if Here(q, text) {
      var n :| 0 <= n <= |text| && PrefixIn(q, text, n);
      assert text[..n][1..] == text[1..][..n - 1];
      assert PrefixIn(p, text[1..], n - 1);
    }
    if text != [] && Fits(c, text[0]) && Here(p, text[1..]) {
      var n :| 0 <= n <= |text[1..]| && PrefixIn(p, text[1..], n);
      assert text[..n + 1][1..] == text[1..][..n];
      assert PrefixIn(q, text, n + 1);
    }
  }

  /** A starred item matches m characters for some m, and the rest of the pattern what follows. */
  lemma HereStar(c: char, p: Pattern, text: string)
    ensures Here(Pattern([Item(c, true)] + p.items, p.dollar), text) <==> SomeStar(c, p, text)
  {
    var q := Pattern([Item(c, true)] + p.items, p.dollar);
    assert q.items[1..] == p.items;
    if Here(q, text) {
      var n :| 0 <= n <= |text| && PrefixIn(q, text, n);
      assert q.items[0].star && Lang(q.items, text[..n]);
      var m :| 0 <= m <= |text[..n]| && Stars(q.items, text[..n], m);
      assert text[..n][..m] == text[..m] && text[..n][m..] == text[m..][..n - m];
      assert PrefixIn(p, text[m..], n - m);
      assert StarAt(c, p, text, m);
    }
    if SomeStar(c, p, text) {
      var m: nat :| StarAt(c, p, text, m);
      var n :| 0 <= n <= |text[m..]| && PrefixIn(p, text[m..], n);
      var s := text[..m + n];
      assert s[..m] == text[..m] && s[m..] == text[m..][..n];
      assert Stars(q.items, s, m);
      assert PrefixIn(q, text, m + n);
    }
  }

  ghost predicate StarAt(c: char, p: Pattern, text: string, m: nat) {
    m <= |text| && AllFit(c, text[..m]) && Here(p, text[m..])
  }

  ghost predicate SomeStar(c: char, p: Pattern, text: string) {
    exists m: nat :: StarAt(c, p, text, m)
  }

  // ---------- the code ----------

  method Match(re: string, text: string) returns (yes: bool)
    ensures yes <==> Matches(re, text)
  {
    hide Here;
    if re != "" && re[0] == '^' {
      yes := Matchhere(re[1..], text);
      return;
    }
    var k := 0;
    while true
      invariant 0 <= k <= |text| && forall j: nat :: j < k ==> !HereFrom(re, text, j)
      decreases |text| - k
    {
      yes := Matchhere(re, text[k..]);
      if yes {
        assert HereFrom(re, text, k);
        return;
      }
      if k == |text| {
        return;
      }
      k := k + 1;
    }
  }

  method Matchhere(re: string, text: string) returns (yes: bool)
    ensures yes <==> Here(Parse(re), text)
    decreases |re|, 0
  {
    hide Here;
    if re == "" {
      HereEmpty(false, text);
      return true;
    }
    if |re| >= 2 && re[1] == '*' {
      HereStar(re[0], Parse(re[2..]), text);
      assert Parse(re) == Pattern([Item(re[0], true)] + Parse(re[2..]).items, Parse(re[2..]).dollar);
      yes := Matchstar(re[0], re[2..], text);
      return;
    }
    if re == "$" {
      HereEmpty(true, text);
      return text == [];
    }
    HereOne(re[0], Parse(re[1..]), text);
    if text != [] && (re[0] == '.' || re[0] == text[0]) {
      yes := Matchhere(re[1..], text[1..]);
      return;
    }
    yes := false;
  }

  method Matchstar(c: char, re: string, text: string) returns (yes: bool)
    ensures yes <==> SomeStar(c, Parse(re), text)
    decreases |re|, 1
  {
    hide Here;
    var m := 0;
    while true
      invariant 0 <= m <= |text| && AllFit(c, text[..m])
      invariant forall j: nat :: j < m ==> !StarAt(c, Parse(re), text, j)
      decreases |text| - m
    {
      yes := Matchhere(re, text[m..]);
      if yes {
        assert StarAt(c, Parse(re), text, m);
        return;
      }
      if m == |text| {
        return;
      }
      if text[m] != c && c != '.' {
        forall j: nat | m < j ensures !StarAt(c, Parse(re), text, j) {
          if j <= |text| { assert text[..j][m] == text[m]; }
        }
        return;
      }
      assert text[..m + 1] == text[..m] + [text[m]];
      m := m + 1;
    }
  }

  predicate Caret(re: string) {
    re != "" && re[0] == '^'
  }

  function Body(re: string): Pattern {
    Parse(if Caret(re) then re[1..] else re)
  }

  /** The law: a match is an anchored substring in the language of the items. */
  lemma MatchesMeans(re: string, text: string)
    ensures Matches(re, text) <==> exists k: nat, n: nat :: Occurs(Body(re), Caret(re), text, k, n)
  {
    if Matches(re, text) {
      if Caret(re) {
        assert text[0..] == text;
        HereOccurs(Body(re), Caret(re), text, 0);
      } else {
        var k: nat :| HereFrom(re, text, k);
        HereOccurs(Body(re), Caret(re), text, k);
      }
    }
    if k: nat, n: nat :| Occurs(Body(re), Caret(re), text, k, n) {
      OccursMatches(re, text, k, n);
    }
  }

  lemma OccursMatches(re: string, text: string, k: nat, n: nat)
    requires Occurs(Body(re), Caret(re), text, k, n)
    ensures Matches(re, text)
  {
    assert text[k..][..n] == text[k..k + n];
    assert PrefixIn(Body(re), text[k..], n);
    assert Here(Body(re), text[k..]);
    if Caret(re) {
      assert text[0..] == text;
    } else {
      assert HereFrom(re, text, k);
    }
  }

  lemma HereOccurs(p: Pattern, caret: bool, text: string, k: nat)
    requires k <= |text| && (caret ==> k == 0) && Here(p, text[k..])
    ensures exists n: nat :: Occurs(p, caret, text, k, n)
  {
    var n :| 0 <= n <= |text[k..]| && PrefixIn(p, text[k..], n);
    assert text[k..][..n] == text[k..k + n];
    assert Occurs(p, caret, text, k, n);
  }

  /** The n characters of text at k are in the language, and where the anchors want them. */
  ghost predicate Occurs(p: Pattern, caret: bool, text: string, k: nat, n: nat) {
    k + n <= |text| && Lang(p.items, text[k..k + n]) && (caret ==> k == 0) && (p.dollar ==> k + n == |text|)
  }
}
