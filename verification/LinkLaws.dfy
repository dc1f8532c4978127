/** When create, link and unlink succeed and what they leave behind, in terms of the directory and the inodes alone:
    a name that was made can be looked up, and one that was unlinked is gone and nothing else with it. */
module LinkLaws {
  import opened LinkCounts
  import opened LinkRuns

  /** Looking up name gives inode i. */
  ghost predicate Finds(es: seq<Entry>, name: string, i: nat) {
    i != 0 && exists k :: 0 <= k < |es| && es[k] == Entry(i, name)
  }

  /** Some entry after the first two is in use. */
  ghost predicate Occupied(es: seq<Entry>) {
    exists k :: 2 <= k < |es| && es[k].inum != 0
  }

  /** Apart from what is called name, the entries in use are the same, in the same places. */
  ghost predicate SameBut(es: seq<Entry>, es': seq<Entry>, name: string) {
    && (forall k :: 0 <= k < |es| && es[k].inum != 0 && es[k].name != name ==> k < |es'| && es'[k] == es[k])
    && (forall k :: 0 <= k < |es'| && es'[k].inum != 0 && es'[k].name != name ==> k < |es| && es[k] == es'[k])
  }

  /** The entries in use are the same, in the same places. */
  ghost predicate SameInUse(es: seq<Entry>, es': seq<Entry>) {
    && (forall k :: 0 <= k < |es| && es[k].inum != 0 ==> k < |es'| && es'[k] == es[k])
    && (forall k :: 0 <= k < |es'| && es'[k].inum != 0 ==> k < |es| && es[k] == es'[k])
  }

  /** Inodes other than d and i are as they were. */
  ghost predicate OthersAre(s: State, s': State, d: nat, i: nat) {
    && |s'.inodes| == |s.inodes| && |s'.refs| == |s.refs|
    && (forall x :: 0 <= x < |s.inodes| && x != d && x != i ==> s'.inodes[x] == s.inodes[x])
    && (forall x :: 0 <= x < |s.refs| && x != i ==> s'.refs[x] == s.refs[x])
  }

  /** There is room for one more entry. */
  ghost predicate Roomy(es: seq<Entry>, room: bool) {
    room || exists k :: 0 <= k < |es| && es[k].inum == 0
  }

  lemma FreeOrNot(es: seq<Entry>)
    ensures FirstFree(es) < |es| <==> exists k :: 0 <= k < |es| && es[k].inum == 0
  {
    var k := FirstFree(es);
    assert k < |es| ==> es[k].inum == 0;
  }

  lemma FoundAt(es: seq<Entry>, name: string, i: nat, n: nat, d: nat)
    requires DirOk(n, d, es) && Finds(es, name, i)
    ensures SlotOf(es, name) < |es| && es[SlotOf(es, name)] == Entry(i, name) && !Absent(es, name)
  {
    var k :| 0 <= k < |es| && es[k] == Entry(i, name);
    var j := SlotOf(es, name);
    assert Called(es[k], name);
    assert j <= k && es[j].name == es[k].name;
  }

  /** A name is absent, or finds exactly one inode. */
  lemma OneOrNone(s: State, d: nat, name: string) returns (i: nat)
    requires Sound(s) && 0 < d < |s.inodes| && Live(s.inodes[d])
    ensures Absent(s.inodes[d].entries, name) <==> i == 0
    ensures i != 0 ==> i < |s.inodes| && Finds(s.inodes[d].entries, name, i)
    ensures forall j: nat :: Finds(s.inodes[d].entries, name, j) ==> j == i
  {
    SoundDir(s, d);
    var es := s.inodes[d].entries;
    var k := SlotOf(es, name);
    i := if k < |es| then es[k].inum else 0;
    forall j: nat | Finds(es, name, j) ensures j == i { FoundAt(es, name, j, |s.inodes|, d); }
  }

  /** In a sound state every call can be made: in any directory that is linked, of anything in use. */
  lemma CallsAllowed(s: State, d: nat, i: nat, name: string, kind: Kind, room: bool)
    requires Sound(s) && 0 < d < |s.inodes| && Live(s.inodes[d])
    ensures Allowed(s, Unlink(d, name))
    ensures kind != None ==> Allowed(s, Create(d, name, kind, room, room, room))
    ensures 0 < i < |s.inodes| && s.inodes[i].nlink >= 1 && s.inodes[i].kind != None ==>
      Allowed(s, Link(i, d, name, room))
    ensures 0 < i < |s.inodes| && s.inodes[i].kind != None ==> Allowed(s, Open(i))
    ensures 0 < i < |s.refs| && s.refs[i] >= 1 ==> Allowed(s, Close(i))
  {
    hide CountsOk, TreeOk, DeadsOk;
    SoundDir(s, d);
  }

  // ---------- unlink ----------

  /** What the unlink of a name that finds e leaves of e and of the directory. */
  ghost predicate Gone(s: State, s': State, d: nat, name: string, e: nat)
    requires d < |s.inodes| && e < |s.inodes| && e < |s.refs|
  {
    && OthersAre(s, s', d, e) && s'.refs == s.refs
    && Absent(s'.inodes[d].entries, name) && SameBut(s.inodes[d].entries, s'.inodes[d].entries, name)
    && s'.inodes[d].kind == s.inodes[d].kind
    && s'.inodes[d].nlink == s.inodes[d].nlink - (if s.inodes[e].kind == Dir then 1 else 0)
    && if s.inodes[e].nlink == 1 && s.refs[e] == 0 then s'.inodes[e] == FREE
       else
         && s'.inodes[e].nlink == s.inodes[e].nlink - 1
         && s'.inodes[e].kind == s.inodes[e].kind && s'.inodes[e].entries == s.inodes[e].entries
  }

  /** The name finds e and is not "." or "..", and e is no directory with something in it. */
  ghost predicate Removable(s: State, name: string, e: nat) {
    && 0 < e < |s.inodes| && name != "." && name != ".."
    && !(s.inodes[e].kind == Dir && Occupied(s.inodes[e].entries))
  }

  lemma WrapFits(n: int)
    requires -32768 <= n <= 32767
    ensures Wrap(n) == n
  {
  }

  /** What unlink finds at the name's slot. */
  lemma UnlinkFound(s: State, d: nat, name: string, e: nat)
    requires Sound(s) && Parent(s, d) && Finds(s.inodes[d].entries, name, e) && name != "." && name != ".."
    ensures
      var k := SlotOf(s.inodes[d].entries, name);
      && 2 <= k < |s.inodes[d].entries| && s.inodes[d].entries[k] == Entry(e, name)
      && e < |s.inodes| && s.inodes[e].nlink >= 1 && (Removable(s, name, e) ==> e != d)
      && (UnlinkAnswer(s, d, name) == if Removable(s, name, e) then Done else Failed)
  {
    hide CountsOk, DeadsOk, UseOk, TreeOk;
    var es := s.inodes[d].entries;
    FoundAt(es, name, e, |s.inodes|, d);
    var k := SlotOf(es, name);
    assert es[0].name == "." && es[1].name == "..";
    EntryAllocated(s.inodes, s.refs, d, k);
    assert EmptyDir(s.inodes[e].entries) <==> !Occupied(s.inodes[e].entries);
    assert Occupied(es);
  }

  lemma ClearedEntry(n: nat, d: nat, es: seq<Entry>, name: string)
    requires DirOk(n, d, es) && SlotOf(es, name) < |es|
    ensures var es' := es[SlotOf(es, name) := Entry(0, "")];
      Absent(es', name) && SameBut(es, es', name)
  {
    var k := SlotOf(es, name);
    var es' := es[k := Entry(0, "")];
    forall j | 0 <= j < |es'| && es'[j].inum != 0 ensures es'[j].name != name {
      assert j < k ==> es[j].name != es[k].name;
      assert k < j ==> es[k].name != es[j].name;
    }
  }

  /** unlink succeeds if and only if the name is there, is not "." or "..", and is not that of a directory with
      something in it. Then the name is gone, every other entry is as it was, and what it named has one link less, or
      is free if that was the last and nobody has it open. Otherwise nothing changes. */
  lemma UnlinkWorks(s: State, d: nat, name: string, e: nat)
    requires Sound(s) && Allowed(s, Unlink(d, name)) && (e == 0 <==> Absent(s.inodes[d].entries, name))
    requires e != 0 ==> Finds(s.inodes[d].entries, name, e)
    ensures e < |s.inodes| == |s.refs|
    ensures Reply(s, Unlink(d, name)) == if Removable(s, name, e) then Done else Failed
    ensures
      var s' := Effect(s, Unlink(d, name));
      if Removable(s, name, e) then Gone(s, s', d, name, e) else s' == s
  {
    hide Sound, Absent, DirOk, SameBut;
    var es := s.inodes[d].entries;
    if e != 0 && name != "." && name != ".." {
      UnlinkFound(s, d, name, e);
      SlotIs(s, d, name);
      ClearedEntry(|s.inodes|, d, es, name);
      WrapFits(s.inodes[e].nlink - 1);
      WrapFits(s.inodes[d].nlink - One(s.inodes[e].kind == Dir));
    } else {
      NotNamed(s, d, name, e);
    }
  }

  lemma SlotIs(s: State, d: nat, name: string)
    requires Parent(s, d)
    ensures SlotOf(s.inodes[d].entries, name) == |s.inodes[d].entries| <==> Absent(s.inodes[d].entries, name)
    ensures DirOk(|s.inodes|, d, s.inodes[d].entries)
  {
  }

  lemma NotNamed(s: State, d: nat, name: string, e: nat)
    requires Parent(s, d) && (e == 0 <==> Absent(s.inodes[d].entries, name))
    requires e != 0 ==> Finds(s.inodes[d].entries, name, e)
    ensures e < |s.inodes| && (e == 0 ==> UnlinkAnswer(s, d, name) == Failed)
  {
    if e != 0 { FoundAt(s.inodes[d].entries, name, e, |s.inodes|, d); }
  }

  // ---------- create and link ----------

  /** The directory has a new entry (name, i) and keeps every other. */
  ghost predicate Added(es: seq<Entry>, es': seq<Entry>, name: string, i: nat) {
    Absent(es, name) && Finds(es', name, i) && SameBut(es, es', name)
  }

  lemma PutAdds(es: seq<Entry>, name: string, i: nat)
    requires Absent(es, name) && i != 0
    ensures Added(es, Put(es, FirstFree(es), Entry(i, name)), name, i)
  {
    var k := FirstFree(es);
    var es' := Put(es, k, Entry(i, name));
    assert es'[k] == Entry(i, name);
  }

  /** A new inode i of the given kind under the name, with one link and one reference. */
  ghost predicate Made(s: State, s': State, d: nat, name: string, kind: Kind, i: nat)
    requires d < |s.inodes|
  {
    && 0 < i < |s.inodes| && i != d && OthersAre(s, s', d, i) && d < |s'.inodes| && i < |s'.refs|
    && s.inodes[i] == FREE && s'.refs[i] == 1
    && s'.inodes[i] == Inode(kind, 1, if kind == Dir then [Entry(i, "."), Entry(d, "..")] else [])
    && Added(s.inodes[d].entries, s'.inodes[d].entries, name, i) && s'.inodes[d].kind == Dir
    && (s.inodes[d].nlink < MAXLINK || kind != Dir ==>
          s'.inodes[d].nlink == s.inodes[d].nlink + if kind == Dir then 1 else 0)
  }

  /** create of a name that is not there makes an inode if and only if one is free and the directory has room for the
      entry, and a new directory for its own two; then looking up the name gives it. Otherwise nothing changes. */
  lemma CreateWorks(s: State, op: Op)
    requires Sound(s) && op.Create? && Allowed(s, op) && Absent(s.inodes[op.d].entries, op.name)
    ensures
      var can := (exists x :: 0 < x < |s.inodes| && s.inodes[x].kind == None) && Roomy(s.inodes[op.d].entries, op.room)
        && (op.kind == Dir ==> op.dot && op.dotdot);
      if can then Reply(s, op).Got? && Made(s, Effect(s, op), op.d, op.name, op.kind, Reply(s, op).i)
      else Reply(s, op) == Failed && Effect(s, op) == s
  {
    hide Absent, DirOk, SameBut, Put, CountsOk, TreeOk, DeadsOk;
    var es, i := s.inodes[op.d].entries, FreeInode(s.inodes, 1);
    SlotIs(s, op.d, op.name);
    FreeOrNot(es);
    if i != 0 {
      PutAdds(es, op.name, i);
      WrapSum(s.inodes[op.d].nlink, One(op.kind == Dir));
    }
  }

  lemma WrapSum(n: Short, k: nat)
    requires k <= 1
    ensures n < MAXLINK || k == 0 ==> Wrap(n + k) == n + k
  {
  }

  /** create of a name that is there opens what it finds if and only if a file was asked for and a file or device is
      there. */
  lemma CreateFinds(s: State, op: Op, e: nat)
    requires Sound(s) && op.Create? && Allowed(s, op) && Finds(s.inodes[op.d].entries, op.name, e)
    ensures e < |s.inodes| == |s.refs|
    ensures
      if op.kind == File && (s.inodes[e].kind == File || s.inodes[e].kind == Device)
      then Reply(s, op) == Got(e) && Effect(s, op) == s.(refs := s.refs[e := s.refs[e] + 1])
      else Reply(s, op) == Failed && Effect(s, op) == s
  {
    hide Absent, CountsOk, TreeOk, DeadsOk;
    FoundAt(s.inodes[op.d].entries, op.name, e, |s.inodes|, op.d);
  }

  /** link succeeds if and only if the name is not there, the inode is no directory and there is room; then looking up
      the name gives the inode, which has one link more. Otherwise nothing changes. */
  lemma LinkWorks(s: State, op: Op)
    requires Sound(s) && op.Link? && Allowed(s, op)
    ensures
      var es, s' := s.inodes[op.d].entries, Effect(s, op);
      if Absent(es, op.name) && s.inodes[op.i].kind != Dir && Roomy(es, op.room)
      then
        && Reply(s, op) == Done && op.i != op.d && OthersAre(s, s', op.d, op.i) && s'.refs == s.refs
        && Added(es, s'.inodes[op.d].entries, op.name, op.i)
        && s'.inodes[op.d] == s.inodes[op.d].(entries := s'.inodes[op.d].entries)
        && s'.inodes[op.i] == s.inodes[op.i].(nlink := s'.inodes[op.i].nlink)
        && (s.inodes[op.i].nlink < MAXLINK ==> s'.inodes[op.i].nlink == s.inodes[op.i].nlink + 1)
      else Reply(s, op) == Failed && s' == s
  {
    hide Absent, DirOk, SameBut, Put, CountsOk, TreeOk, DeadsOk;
    var es := s.inodes[op.d].entries;
    FreeOrNot(es);
    if Absent(es, op.name) { PutAdds(es, op.name, op.i); }
    WrapSum(s.inodes[op.i].nlink, 1);
  }

  // ---------- there and back ----------

  lemma AddedGone(es: seq<Entry>, es1: seq<Entry>, es2: seq<Entry>, name: string, i: nat)
    requires Added(es, es1, name, i) && Absent(es2, name) && SameBut(es1, es2, name)
    ensures SameInUse(es, es2)
  {
    forall k | 0 <= k < |es| && es[k].inum != 0 ensures k < |es2| && es2[k] == es[k] {
      assert es[k].name != name && k < |es1| && es1[k] == es[k];
    }
    forall k | 0 <= k < |es2| && es2[k].inum != 0 ensures k < |es| && es[k] == es2[k] {
      assert es2[k].name != name && k < |es1| && es1[k] == es2[k];
    }
  }

  /** create of a new name, close of what it made and unlink of the name: every inode is as it was, with the same
      entries in use, for files, devices and directories alike. */
  lemma CreateUnlink(s: State, op: Op)
    requires Sound(s) && op.Create? && Allowed(s, op) && Absent(s.inodes[op.d].entries, op.name)
    requires Reply(s, op).Got? && Counted(s, op)
    ensures
      var i := Reply(s, op).i;
      var ops := [op, Close(i), Unlink(op.d, op.name)];
      && Fits(s, ops) && Replies(s, ops) == [Got(i), Done, Done]
      && var s' := After(s, ops);
         && s'.refs == s.refs && |s'.inodes| == |s.inodes|
         && (forall x :: 0 <= x < |s.inodes| && x != op.d ==> s'.inodes[x] == s.inodes[x])
         && s'.inodes[op.d] == s.inodes[op.d].(entries := s'.inodes[op.d].entries)
         && SameInUse(s.inodes[op.d].entries, s'.inodes[op.d].entries)
  {
    hide Sound, Allowed, Effect, Reply, Counted, Absent, Made, Gone, SameInUse, Added;
    var i, d := Reply(s, op).i, op.d;
    var s1 := Effect(s, op);
    CreateWorks(s, op);
    StepKeeps(s, op);
    CreateStarts(s, op);
    MadeCloses(s, s1, op, i);
    var s2 := Effect(s1, Close(i));
    StepKeeps(s1, Close(i));
    MadeUnlinks(s, s1, s2, op, i);
    UnlinkWorks(s2, d, op.name, i);
    Unmade(s, s1, s2, Effect(s2, Unlink(d, op.name)), op, i);
    Three(s, op, Close(i), Unlink(d, op.name));
  }

  lemma CreateStarts(s: State, op: Op)
    requires Sound(s) && op.Create? && Allowed(s, op) && Absent(s.inodes[op.d].entries, op.name)
    requires Reply(s, op).Got? && Counted(s, op)
    ensures op.d < |s.inodes| && Live(s.inodes[op.d]) && op.name != "." && op.name != ".."
    ensures op.kind == Dir ==> s.inodes[op.d].nlink < MAXLINK
    ensures Reply(s, op).i < |s.refs| && s.refs[Reply(s, op).i] == 0
  {
    hide CountsOk, TreeOk, DeadsOk;
    assert s.inodes[op.d].entries[0].name == "." && s.inodes[op.d].entries[1].name == "..";
  }

  lemma Three(s: State, a: Op, b: Op, c: Op)
    requires Allowed(s, a) && Reply(s, a) != Panicked
    requires Allowed(Effect(s, a), b) && Reply(Effect(s, a), b) != Panicked
    requires Allowed(Effect(Effect(s, a), b), c) && Reply(Effect(Effect(s, a), b), c) != Panicked
    ensures Fits(s, [a, b, c]) && After(s, [a, b, c]) == Effect(Effect(Effect(s, a), b), c)
    ensures Replies(s, [a, b, c]) == [Reply(s, a), Reply(Effect(s, a), b), Reply(Effect(Effect(s, a), b), c)]
  {
    hide Allowed, Effect, Reply;
    var s1 := Effect(s, a);
    var s2 := Effect(s1, b);
    FirstOf(s2, c, []);
    FirstOf(s1, b, [c]);
    FirstOf(s, a, [b, c]);
    assert [c] + [] == [c] && [b] + [c] == [b, c] && [a] + [b, c] == [a, b, c];
    assert After(Effect(s2, c), []) == Effect(s2, c) && Replies(Effect(s2, c), []) == [];
  }

  lemma FirstOf(s: State, a: Op, ops: seq<Op>)
    requires Allowed(s, a) && Reply(s, a) != Panicked && Fits(Effect(s, a), ops)
    ensures Fits(s, [a] + ops) && After(s, [a] + ops) == After(Effect(s, a), ops)
    ensures Replies(s, [a] + ops) == [Reply(s, a)] + Replies(Effect(s, a), ops)
  {
    hide Allowed, Effect, Reply;
    assert ([a] + ops)[1..] == ops;
  }

  lemma MadeCloses(s: State, s1: State, op: Op, i: nat)
    requires Sound(s1) && op.Create? && op.d < |s.inodes| && Made(s, s1, op.d, op.name, op.kind, i)
    ensures Allowed(s1, Close(i)) && Reply(s1, Close(i)) == Done && Counted(s1, Close(i))
    ensures Effect(s1, Close(i)) == s1.(refs := s1.refs[i := 0])
  {
    hide Added, CountsOk, TreeOk, DeadsOk;
  }

  lemma MadeUnlinks(s: State, s1: State, s2: State, op: Op, i: nat)
    requires op.Create? && op.d < |s.inodes| && Live(s.inodes[op.d]) && Made(s, s1, op.d, op.name, op.kind, i)
    requires op.kind == Dir ==> s.inodes[op.d].nlink < MAXLINK
    requires Sound(s2) && s2 == s1.(refs := s1.refs[i := 0]) && op.name != "." && op.name != ".."
    ensures Allowed(s2, Unlink(op.d, op.name)) && Finds(s2.inodes[op.d].entries, op.name, i)
    ensures !Absent(s2.inodes[op.d].entries, op.name) && Removable(s2, op.name, i)
  {
    hide SameBut, CountsOk, TreeOk, DeadsOk;
    SoundDir(s2, op.d);
    FoundAt(s2.inodes[op.d].entries, op.name, i, |s2.inodes|, op.d);
  }

  lemma Unmade(s: State, s1: State, s2: State, s3: State, op: Op, i: nat)
    requires op.Create? && op.d < |s.inodes| && Made(s, s1, op.d, op.name, op.kind, i) && i < |s.refs| && s.refs[i] == 0
    requires s2 == s1.(refs := s1.refs[i := 0]) && i < |s2.inodes| && i < |s2.refs| && Gone(s2, s3, op.d, op.name, i)
    requires s.inodes[op.d].kind == Dir && (op.kind == Dir ==> s.inodes[op.d].nlink < MAXLINK)
    ensures s3.refs == s.refs && |s3.inodes| == |s.inodes|
    ensures forall x :: 0 <= x < |s.inodes| && x != op.d ==> s3.inodes[x] == s.inodes[x]
    ensures s3.inodes[op.d] == s.inodes[op.d].(entries := s3.inodes[op.d].entries)
    ensures SameInUse(s.inodes[op.d].entries, s3.inodes[op.d].entries)
  {
    hide Added, SameBut, Absent, SameInUse;
    AddedGone(s.inodes[op.d].entries, s1.inodes[op.d].entries, s3.inodes[op.d].entries, op.name, i);
  }
}
