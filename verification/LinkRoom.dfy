/** How many links a directory can have: its own place and one for each directory in it. */
module LinkRoom {
  import opened Counting
  import opened LinkCounts
  import opened LinkRuns

  /** Entries from the third on that name d. */
  function Places(es: seq<Entry>, d: nat): nat {
    if |es| <= 2 then 0 else Places(es[..|es| - 1], d) + One(Links(es[|es| - 1], d))
  }

  /** A directory's links to d are its ".." and its entries for d. */
  lemma {:induction false} NamesSplit(es: seq<Entry>, x: nat, d: nat)
    requires |es| >= 2 && es[0] == Entry(x, ".") && es[1].name == ".." && d != 0
    ensures Names(es, d) == One(es[1].inum == d) + Places(es, d)
  {
    var n := |es| - 1;
    if n == 1 {
      assert es[..1][..0] == [];
      assert Names(es[..1], d) == Names([], d) + One(Links(es[0], d));
    } else {
      NamesSplit(es[..n], x, d);
    }
  }

  /** No entry names d: no places. One entry alone does: one. */
  lemma {:induction false} FewPlaces(es: seq<Entry>, d: nat, k: nat)
    requires d != 0 && forall j :: 2 <= j < |es| && j != k ==> es[j].inum != d
    ensures Places(es, d) <= One(2 <= k < |es|)
  {
    if |es| > 2 { FewPlaces(es[..|es| - 1], d, k); }
  }

  predicate Child(inodes: seq<Inode>, p: nat, d: nat) {
    p < |inodes| && p != ROOT && Live(inodes[p]) && |inodes[p].entries| >= 2 && inodes[p].entries[1].inum == d
  }

  /** How many of the first n inodes are directories in d. */
  function Children(inodes: seq<Inode>, d: nat, n: nat): nat {
    if n == 0 then 0 else Children(inodes, d, n - 1) + One(Child(inodes, n - 1, d))
  }

  /** Each of them has an entry of its own in d. */
  lemma {:induction false} Slots(inodes: seq<Inode>, refs: seq<nat>, d: nat, n: nat) returns (slots: seq<nat>)
    requires Inv(inodes, refs) && d < |inodes| && n <= |inodes|
    ensures |slots| == Children(inodes, d, n) && Once(slots)
    ensures forall i :: 0 <= i < |slots| ==>
      && slots[i] + 2 < |inodes[d].entries| && inodes[d].entries[slots[i] + 2].inum < n
  {
    hide Count, DirOk, EntryOk, CountsOk, UseOk, DeadsOk;
    if n == 0 {
      slots := [];
    } else {
      slots := Slots(inodes, refs, d, n - 1);
      if Child(inodes, n - 1, d) {
        assert PlaceOk(inodes, n - 1);
        var k :| 2 <= k < |inodes[d].entries| && inodes[d].entries[k].inum == n - 1;
        slots := slots + [k - 2];
      }
    }
  }

  lemma ChildrenFit(inodes: seq<Inode>, refs: seq<nat>, d: nat)
    requires Inv(inodes, refs) && d < |inodes| && |inodes[d].entries| >= 2
    ensures Children(inodes, d, |inodes|) <= |inodes[d].entries| - 2
  {
    hide Inv;
    var slots := Slots(inodes, refs, d, |inodes|);
    Pigeons(slots, |inodes[d].entries| - 2);
  }

  /** p is where d has its place; the root's is its own "..". */
  predicate Above(inodes: seq<Inode>, d: nat, p: nat) {
    d < |inodes| && |inodes[d].entries| >= 2 && inodes[d].entries[1].inum == p
  }

  /** What inode p holds in links to d. */
  lemma RefsOf(inodes: seq<Inode>, refs: seq<nat>, d: nat, p: nat)
    requires Inv(inodes, refs) && 0 < d < |inodes| && Live(inodes[d]) && p < |inodes|
    ensures Refs(inodes[p], d) <= One(Child(inodes, p, d)) + One(Above(inodes, d, p))
  {
    hide CountsOk, DeadsOk, Count, Names, Places;
    if Live(inodes[p]) {
      DirAt(inodes, p);
      DirAt(inodes, d);
      var es := inodes[p].entries;
      NamesSplit(es, p, d);
      if k :| 2 <= k < |es| && es[k].inum == d {
        TreeAt(inodes, p, k);
        FewPlaces(es, d, k);
      } else {
        FewPlaces(es, d, 0);
      }
    }
  }

  lemma {:induction false} CountFew(inodes: seq<Inode>, refs: seq<nat>, d: nat, n: nat)
    requires Inv(inodes, refs) && 0 < d < |inodes| && Live(inodes[d]) && |inodes[d].entries| >= 2 && n <= |inodes|
    ensures Count(inodes[..n], d) <= Children(inodes, d, n) + One(inodes[d].entries[1].inum < n)
  {
    hide Inv, Refs, Child, Live;
    if n > 0 {
      CountFew(inodes, refs, d, n - 1);
      RefsOf(inodes, refs, d, n - 1);
      assert inodes[..n][..n - 1] == inodes[..n - 1];
    }
  }

  /** A directory has fewer links than entries. */
  lemma DirLinks(inodes: seq<Inode>, refs: seq<nat>, d: nat)
    requires Inv(inodes, refs) && 0 < d < |inodes| && Live(inodes[d])
    ensures inodes[d].nlink < |inodes[d].entries|
  {
    hide Count, TreeOk, DeadsOk, UseOk;
    DirAt(inodes, d);
    CountFew(inodes, refs, d, |inodes|);
    ChildrenFit(inodes, refs, d);
    assert inodes[..|inodes|] == inodes;
  }

  /** So making a directory never wraps the count of one that is not longer than a directory can be. */
  lemma MkdirNeverWraps(s: State, op: Op)
    requires Sound(s) && Allowed(s, op) && op.Create? && |s.inodes[op.d].entries| <= MAXENTRIES
    ensures Counted(s, op)
  {
    DirLinks(s.inodes, s.refs, op.d);
  }
}
