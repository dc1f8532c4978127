/** The panic in unlink is reachable: enough links to one file wrap its count. */
module LinkWrap {
  import opened LinkCounts
  import opened LinkRuns

  /** Names of two bytes, different for different n. */
  function Name(n: nat): (s: string)
    requires n < MAXENTRIES
    ensures |s| == 2
  {
    [(65 + n / 150) as char, (65 + n % 150) as char]
  }

  lemma NamesDiffer(m: nat, n: nat)
    requires m < MAXENTRIES && n < MAXENTRIES && m != n
    ensures Name(m) != Name(n)
  {
    assert m / 150 != n / 150 || m % 150 != n % 150;
    assert Name(m)[0] != Name(n)[0] || Name(m)[1] != Name(n)[1];
  }

  lemma NameIsPlain(n: nat)
    requires n < MAXENTRIES
    ensures Name(n) != "." && Name(n) != ".."
  {
    assert Name(n)[0] >= 'A';
  }

  /** Directory d, found under ROOT, with n links to inode 2. */
  function Entries(d: nat, n: nat): (es: seq<Entry>)
    requires n + 2 <= MAXENTRIES
    ensures |es| == n + 2
  {
    seq(n + 2, x requires 0 <= x < n + 2 => if x == 0 then Entry(d, ".") else if x == 1 then Entry(ROOT, "..")
      else Entry(2, Name(x - 2)))
  }

  lemma EntriesOk(m: nat, d: nat, n: nat)
    requires n + 2 <= MAXENTRIES && d < m && m > 2
    ensures DirOk(m, d, Entries(d, n)) && (d != 0 ==> FirstFree(Entries(d, n)) == n + 2)
  {
    var es := Entries(d, n);
    forall j, k | 0 <= j < k < |es| && es[j].inum != 0 && es[k].inum != 0 ensures es[j].name != es[k].name {
      if k >= 2 { NameIsPlain(k - 2); }
      if j >= 2 { NamesDiffer(j - 2, k - 2); }
    }
    if d != 0 { FirstFreeIs(es, n + 2); }
  }

  lemma EntriesAbsent(d: nat, n: nat, m: nat)
    requires n + 2 <= MAXENTRIES && n <= m < MAXENTRIES
    ensures Absent(Entries(d, n), Name(m))
  {
    var es := Entries(d, n);
    forall k | 0 <= k < |es| && es[k].inum != 0 ensures es[k].name != Name(m) {
      NameIsPlain(m);
      if k >= 2 { NamesDiffer(k - 2, m); }
    }
  }

  /** d holds n links to file 2. */
  ghost predicate Holding(s: State, d: nat, n: nat) {
    && Clean(s) && 2 < d < |s.inodes| && n + 2 <= MAXENTRIES && s.inodes[d] == Inode(Dir, 1, Entries(d, n))
    && s.inodes[2].kind == File && s.inodes[2].nlink >= 1
  }

  /** s with one link more in d. */
  ghost predicate More(s: State, d: nat, n: nat, s': State) {
    && Holding(s, d, n) && n + 3 <= MAXENTRIES && s'.refs == s.refs
    && s'.inodes == s.inodes[2 := s.inodes[2].(nlink := Wrap(s.inodes[2].nlink + 1))][d := Inode(Dir, 1,
      Entries(d, n + 1))]
  }

  lemma LinkOne(s: State, d: nat, n: nat)
    requires Holding(s, d, n) && n + 3 <= MAXENTRIES
    ensures var op := Link(2, d, Name(n), true);
      Allowed(s, op) && Reply(s, op) == Done && More(s, d, n, Effect(s, op))
  {
    EntriesOk(|s.inodes|, d, n);
    EntriesAbsent(d, n, n);
    hide Entries, DirOk, Absent, FirstFree, Clean;
    assert Put(Entries(d, n), n + 2, Entry(2, Name(n))) == Entries(d, n + 1) by { EntriesGrow(d, n); }
  }

  lemma EntriesGrow(d: nat, n: nat)
    requires n + 3 <= MAXENTRIES
    ensures Put(Entries(d, n), n + 2, Entry(2, Name(n))) == Entries(d, n + 1)
  {
  }

  lemma MoreHolds(s: State, d: nat, n: nat, s': State)
    requires More(s, d, n, s') && s.inodes[2].nlink < MAXLINK
    ensures Holding(s', d, n + 1)
  {
    hide Entries;
  }

  // ---------- joining runs ----------

  lemma {:induction false} RunsJoin(s: State, a: seq<Op>, b: seq<Op>)
    requires Fits(s, a) && Panicked !in Replies(s, a) && Fits(After(s, a), b)
    ensures Fits(s, a + b) && After(s, a + b) == After(After(s, a), b)
    ensures Replies(s, a + b) == Replies(s, a) + Replies(After(s, a), b)
    decreases |a|
  {
    hide Effect, Reply, Allowed;
    if a == [] {
      assert a + b == b;
    } else {
      assert (a + b)[1..] == a[1..] + b;
      assert Replies(s, a)[0] == Reply(s, a[0]) && Replies(s, a)[1..] == Replies(Effect(s, a[0]), a[1..]);
      RunsJoin(Effect(s, a[0]), a[1..], b);
    }
  }

  /** One call that does not panic. */
  lemma Single(s: State, op: Op)
    requires Allowed(s, op) && Reply(s, op) != Panicked
    ensures Fits(s, [op]) && After(s, [op]) == Effect(s, op) && Replies(s, [op]) == [Reply(s, op)]
  {
    hide Effect, Reply, Allowed;
    assert After(Effect(s, op), []) == Effect(s, op);
  }

  /** Up to m links in d, if the count has room for them. */
  lemma {:induction false} Fill(s: State, d: nat, n: nat, m: nat) returns (ops: seq<Op>)
    requires Holding(s, d, n) && n <= m && m + 2 <= MAXENTRIES && s.inodes[2].nlink + m - n <= MAXLINK
    ensures Fits(s, ops) && Panicked !in Replies(s, ops) && Filled(s, d, n, m, After(s, ops))
    decreases m - n
  {
    hide Effect, Reply, Allowed, More, Entries, Clean;
    if n == m {
      ops := [];
      assert s.inodes[2 := s.inodes[2].(nlink := s.inodes[2].nlink + 0)][d := Inode(Dir, 1, Entries(d, m))] == s.inodes;
    } else {
      var op := Link(2, d, Name(n), true);
      LinkOne(s, d, n);
      Single(s, op);
      var s1 := Effect(s, op);
      MoreHolds(s, d, n, s1);
      MoreIs(s, d, n, s1);
      var rest := Fill(s1, d, n + 1, m);
      FilledOn(s, d, n, m, s1, After(s1, rest));
      RunsJoin(s, [op], rest);
      ops := [op] + rest;
    }
  }

  ghost predicate Filled(s: State, d: nat, n: nat, m: nat, s': State) {
    && Holding(s, d, n) && n <= m && m + 2 <= MAXENTRIES && s.inodes[2].nlink + m - n <= MAXLINK && Holding(s', d, m)
    && s'.inodes == s.inodes[2 := s.inodes[2].(nlink := s.inodes[2].nlink + m - n)][d := Inode(Dir, 1, Entries(d, m))]
  }

  lemma MoreIs(s: State, d: nat, n: nat, s': State)
    requires More(s, d, n, s') && s.inodes[2].nlink < MAXLINK
    ensures |s'.inodes| == |s.inodes| && s'.inodes[2] == s.inodes[2].(nlink := s.inodes[2].nlink + 1)
    ensures forall x :: 0 <= x < |s.inodes| && x != 2 && x != d ==> s'.inodes[x] == s.inodes[x]
  {
  }

  lemma FilledOn(s: State, d: nat, n: nat, m: nat, s1: State, s': State)
    requires Holding(s, d, n) && n < m && m + 2 <= MAXENTRIES && s.inodes[2].nlink + m - n <= MAXLINK
    requires |s1.inodes| == |s.inodes| && s1.inodes[2] == s.inodes[2].(nlink := s.inodes[2].nlink + 1)
    requires forall x :: 0 <= x < |s.inodes| && x != 2 && x != d ==> s1.inodes[x] == s.inodes[x]
    requires Filled(s1, d, n + 1, m, s')
    ensures Filled(s, d, n, m, s')
  {
    hide Entries;
    var want := s.inodes[2 := s.inodes[2].(nlink := s.inodes[2].nlink + m - n)][d := Inode(Dir, 1, Entries(d, m))];
    assert forall x :: 0 <= x < |want| ==> want[x] == s'.inodes[x];
  }

  // ---------- the file system to start from ----------

  const NewRoot := Inode(Dir, 1, [Entry(ROOT, "."), Entry(ROOT, "..")])

  function Start(): State {
    State([FREE, NewRoot, FREE, FREE, FREE], [0, 0, 0, 0, 0])
  }

  function NewDir(d: nat): Inode {
    Inode(Dir, 1, [Entry(d, "."), Entry(ROOT, "..")])
  }

  /** A file in the root, then a directory, then another. */
  function WithFile(): State {
    State([FREE, Inode(Dir, 1, [Entry(ROOT, "."), Entry(ROOT, ".."), Entry(2, "f")]), Inode(File, 1, []), FREE,
      FREE], [0, 0, 1, 0, 0])
  }

  function WithDir(): State {
    var root := Inode(Dir, 2, [Entry(ROOT, "."), Entry(ROOT, ".."), Entry(2, "f"), Entry(3, "a")]);
    State([FREE, root, Inode(File, 1, []), NewDir(3), FREE], [0, 0, 1, 1, 0])
  }

  function Prepared(): State {
    var root := Inode(Dir, 3, [Entry(ROOT, "."), Entry(ROOT, ".."), Entry(2, "f"), Entry(3, "a"), Entry(4, "b")]);
    State([FREE, root, Inode(File, 1, []), NewDir(3), NewDir(4)], [0, 0, 1, 1, 1])
  }

  lemma MakesOne(s: State, name: string, kind: Kind, i: nat, s': State)
    requires Clean(s) && |s.inodes| > ROOT && Parent(s, ROOT) && Absent(s.inodes[ROOT].entries, name) && kind != None
    requires 0 < i < |s.inodes| && s.inodes[i].kind == None && forall x :: 1 <= x < i ==> s.inodes[x].kind != None
    requires s'.inodes == Created(s.inodes, ROOT, FirstFree(s.inodes[ROOT].entries), i, name, kind)
    requires s'.refs == s.refs[i := s.refs[i] + 1]
    ensures var op := Create(ROOT, name, kind, true, true, true);
      && Fits(s, [op]) && Panicked !in Replies(s, [op]) && After(s, [op]) == s'
  {
    hide Created, Absent, FirstFree, DirOk, Clean;
    FreeInodeIs(s.inodes, 1, i);
    var op := Create(ROOT, name, kind, true, true, true);
    assert Reply(s, op) == Got(i);
    Single(s, op);
  }

  lemma MakesFile()
    ensures var ops := [Create(ROOT, "f", File, true, true, true)];
      Fits(Start(), ops) && Panicked !in Replies(Start(), ops) && After(Start(), ops) == WithFile()
  {
    hide Fits, After, Replies;
    FirstFreeIs(NewRoot.entries, 2);
    assert NewRoot.entries + [Entry(2, "f")] == WithFile().inodes[ROOT].entries;
    MakesOne(Start(), "f", File, 2, WithFile());
  }

  lemma MakesDir()
    ensures var ops := [Create(ROOT, "a", Dir, true, true, true)];
      Fits(WithFile(), ops) && Panicked !in Replies(WithFile(), ops) && After(WithFile(), ops) == WithDir()
  {
    hide Fits, After, Replies;
    FirstFreeIs(WithFile().inodes[ROOT].entries, 3);
    assert WithFile().inodes[ROOT].entries + [Entry(3, "a")] == WithDir().inodes[ROOT].entries;
    MakesOne(WithFile(), "a", Dir, 3, WithDir());
  }

  lemma MakesAnother()
    ensures var ops := [Create(ROOT, "b", Dir, true, true, true)];
      Fits(WithDir(), ops) && Panicked !in Replies(WithDir(), ops) && After(WithDir(), ops) == Prepared()
  {
    hide Fits, After, Replies;
    FirstFreeIs(WithDir().inodes[ROOT].entries, 4);
    assert WithDir().inodes[ROOT].entries + [Entry(4, "b")] == Prepared().inodes[ROOT].entries;
    MakesOne(WithDir(), "b", Dir, 4, Prepared());
  }

  lemma Prepare() returns (ops: seq<Op>)
    ensures Fits(Start(), ops) && Panicked !in Replies(Start(), ops) && After(Start(), ops) == Prepared()
  {
    hide Fits, After, Replies, Start, WithFile, WithDir, Prepared;
    MakesFile();
    MakesDir();
    MakesAnother();
    var c1, c2 := Create(ROOT, "f", File, true, true, true), Create(ROOT, "a", Dir, true, true, true);
    var c3 := Create(ROOT, "b", Dir, true, true, true);
    JoinThree(Start(), [c1], [c2], [c3]);
    ops := [c1] + [c2] + [c3];
  }

  lemma JoinThree(s: State, a: seq<Op>, b: seq<Op>, c: seq<Op>)
    requires Fits(s, a) && Panicked !in Replies(s, a) && Fits(After(s, a), b) && Panicked !in Replies(After(s, a), b)
    requires Fits(After(After(s, a), b), c)
    ensures Fits(s, a + b + c) && After(s, a + b + c) == After(After(After(s, a), b), c)
    ensures Replies(s, a + b + c) == Replies(s, a) + Replies(After(s, a), b) + Replies(After(After(s, a), b), c)
  {
    hide Fits, After, Replies;
    RunsJoin(s, a, b);
    RunsJoin(s, a + b, c);
  }

  /** The last two calls: one link too many, and its removal. */
  lemma Overflow(s: State, d: nat, n: nat)
    requires Holding(s, d, n) && n + 3 <= MAXENTRIES && s.inodes[2].nlink == MAXLINK
    ensures var ops := [Link(2, d, Name(n), true), Unlink(d, Name(n))];
      && Fits(s, ops) && Replies(s, ops) == [Done, Panicked] && |After(s, ops).inodes| == |s.inodes|
      && After(s, ops).inodes[d].entries == Entries(d, n + 1) && After(s, ops).inodes[2].entries == s.inodes[2].entries
      && forall x :: 0 <= x < |s.inodes| && x != 2 && x != d ==> After(s, ops).inodes[x] == s.inodes[x]
  {
    hide Effect, Allowed, Reply, Entries;
    var a, b := Link(2, d, Name(n), true), Unlink(d, Name(n));
    LinkOne(s, d, n);
    var s1 := Effect(s, a);
    UnlinkPanics(s, d, n, s1);
    Single(s, a);
    Last(s1, b);
    RunsJoin(s, [a], [b]);
    assert [a] + [b] == [a, b];
  }

  lemma Last(s: State, op: Op)
    requires Allowed(s, op)
    ensures Fits(s, [op]) && After(s, [op]) == Effect(s, op) && Replies(s, [op]) == [Reply(s, op)]
  {
    hide Effect, Reply, Allowed;
    assert After(Effect(s, op), []) == Effect(s, op);
  }

  lemma UnlinkPanics(s: State, d: nat, n: nat, s1: State)
    requires More(s, d, n, s1) && s.inodes[2].nlink == MAXLINK
    ensures var op := Unlink(d, Name(n)); Allowed(s1, op) && Reply(s1, op) == Panicked && Effect(s1, op) == s1
  {
    EntriesOk(|s.inodes|, d, n + 1);
    NameIsPlain(n);
    assert s1.inodes[d].entries[n + 2] == Entry(2, Name(n));
    forall x | 0 <= x < n + 2 ensures !Called(s1.inodes[d].entries[x], Name(n)) {
      if x >= 2 { NamesDiffer(x - 2, n); }
    }
    SlotOfIs(s1.inodes[d].entries, Name(n), n + 2);
    hide Entries, DirOk, SlotOf;
  }

  /** From the file system mkfs makes, calls that keep every directory within its size lead to the panic. */
  lemma PanicReachable() returns (ops: seq<Op>)
    ensures Initial(Start().inodes) && Fits(Start(), ops) && ops != [] && Replies(Start(), ops)[|ops| - 1] == Panicked
    ensures forall x :: 0 <= x < |After(Start(), ops).inodes| ==> |After(Start(), ops).inodes[x].entries| <= MAXENTRIES
  {
    hide Fits, After, Replies, Effect, Allowed, Reply, Entries, Clean, FirstFree;
    var first := Prepare();
    var s := Prepared();
    PreparedHolds();
    var one := Fill(s, 3, 0, 17150);
    var s1 := After(s, one);
    AlsoHolding(s, s1);
    var two := Fill(s1, 4, 0, 15616);
    var s2 := After(s1, two);
    var end := [Link(2, 4, Name(15616), true), Unlink(4, Name(15616))];
    Overflow(s2, 4, 15616);
    JoinThree(Start(), first, one, two);
    NoPanicJoined(Replies(Start(), first), Replies(s, one), Replies(s1, two));
    RunsJoin(Start(), first + one + two, end);
    ops := first + one + two + end;
    Bounded(s, s1, s2, After(s2, end));
  }

  lemma Bounded(s: State, s1: State, s2: State, s3: State)
    requires s == Prepared() && Filled(s, 3, 0, 17150, s1) && Filled(s1, 4, 0, 15616, s2)
    requires |s3.inodes| == |s2.inodes| && s3.inodes[4].entries == Entries(4, 15617)
        && s3.inodes[2].entries == s2.inodes[2].entries
    requires forall x :: 0 <= x < |s2.inodes| && x != 2 && x != 4 ==> s3.inodes[x] == s2.inodes[x]
    ensures forall x :: 0 <= x < |s3.inodes| ==> |s3.inodes[x].entries| <= MAXENTRIES
  {
    hide Entries, Clean;
  }

  lemma NoPanicJoined(a: seq<Answer>, b: seq<Answer>, c: seq<Answer>)
    requires Panicked !in a && Panicked !in b && Panicked !in c
    ensures Panicked !in a + b + c
  {
  }

  lemma PreparedHolds()
    ensures Holding(Prepared(), 3, 0) && Prepared().inodes[4] == Inode(Dir, 1, Entries(4, 0))
  {
    assert Entries(3, 0) == [Entry(3, "."), Entry(ROOT, "..")];
    assert Entries(4, 0) == [Entry(4, "."), Entry(ROOT, "..")];
  }

  lemma AlsoHolding(s: State, s1: State)
    requires s == Prepared() && s.inodes[4] == Inode(Dir, 1, Entries(4, 0)) && Filled(s, 3, 0, 17150, s1)
    ensures Holding(s1, 4, 0) && s1.inodes[2].nlink == 17151
  {
    hide Entries, Clean;
  }
}
