/** Sizes of finite sets and of sequences without repeats. */
module Counting {

  ghost function Below(n: nat): (s: set<nat>)
    ensures |s| == n && forall x: nat :: x in s <==> x < n
  {
    if n == 0 then {} else Below(n - 1) + {n - 1}
  }

  lemma {:induction false} SubsetCard(a: set<nat>, b: set<nat>)
    requires a <= b
    ensures |a| <= |b|
  {
    if a != {} {
      var x :| x in a;
      SubsetCard(a - {x}, b - {x});
    }
  }

  /** No element twice. */
  ghost predicate Once<T(!new)>(s: seq<T>) {
    forall i, j :: 0 <= i < j < |s| ==> s[i] != s[j]
  }

  ghost function Elements(s: seq<nat>): set<nat> {
    set x | x in s
  }

  lemma {:induction false} OnceCard(s: seq<nat>)
    requires Once(s)
    ensures |Elements(s)| == |s|
  {
    if s != [] {
      var r := s[1..];
      OnceCard(r);
      assert s == [s[0]] + r && s[0] !in r;
      assert Elements(s) == Elements(r) + {s[0]};
    }
  }

  /** Different numbers below n are no more than n. */
  lemma Pigeons(s: seq<nat>, n: nat)
    requires Once(s) && forall i :: 0 <= i < |s| ==> s[i] < n
    ensures |s| <= n
  {
    OnceCard(s);
    assert Elements(s) <= Below(n);
    SubsetCard(Elements(s), Below(n));
  }
}
