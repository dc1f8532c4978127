/** create, link, unlink, open and close as functions of the whole state, and runs of them. */
module LinkRuns {
  import opened LinkCounts

  /** refs are the in-memory references: open files, current directories, calls in progress. */
  datatype State = State(inodes: seq<Inode>, refs: seq<nat>)

  /** One system call: d is the parent directory its path leads to. The flags say whether a directory that
      has to grow can. */
  datatype Op =
    | Create(d: nat, name: string, kind: Kind, dot: bool, dotdot: bool, room: bool)
    | Link(i: nat, d: nat, name: string, room: bool)
    | Unlink(d: nat, name: string)
    | Open(i: nat)
    | Close(i: nat)

  datatype Answer = Failed | Done | Got(i: nat) | Panicked

  // ---------- looking things up ----------

  /** The first slot from j on that is free, or the end. */
  function FreeFrom(es: seq<Entry>, j: nat): (k: nat)
    requires j <= |es|
    ensures j <= k && Slot(es, k) && forall x :: j <= x < k ==> es[x].inum != 0
    decreases |es| - j
  {
    if j == |es| || es[j].inum == 0 then j else FreeFrom(es, j + 1)
  }

  function FirstFree(es: seq<Entry>): (k: nat)
    ensures Slot(es, k) && forall x :: 0 <= x < k ==> es[x].inum != 0
  {
    FreeFrom(es, 0)
  }

  lemma FirstFreeIs(es: seq<Entry>, k: nat)
    requires Slot(es, k) && forall j :: 0 <= j < k ==> es[j].inum != 0
    ensures FirstFree(es) == k
  {
  }

  predicate Called(e: Entry, name: string) {
    e.inum != 0 && e.name == name
  }

  /** The first slot from j on that is called name, or the end. */
  function SlotFrom(es: seq<Entry>, name: string, j: nat): (k: nat)
    requires j <= |es|
    ensures j <= k <= |es| && (k < |es| ==> Called(es[k], name)) && forall x :: j <= x < k ==> !Called(es[x], name)
    decreases |es| - j
  {
    if j == |es| || Called(es[j], name) then j else SlotFrom(es, name, j + 1)
  }

  function SlotOf(es: seq<Entry>, name: string): (k: nat)
    ensures k <= |es| && (k < |es| ==> Called(es[k], name))
    ensures k == |es| <==> Absent(es, name)
    ensures forall x :: 0 <= x < k ==> !Called(es[x], name)
  {
    var k := SlotFrom(es, name, 0);
    assert k < |es| ==> Called(es[k], name);
    assert Absent(es, name) <==> forall x :: 0 <= x < |es| ==> !Called(es[x], name);
    k
  }

  lemma SlotOfIs(es: seq<Entry>, name: string, k: nat)
    requires k <= |es| && (k < |es| ==> Called(es[k], name)) && forall x :: 0 <= x < k ==> !Called(es[x], name)
    ensures SlotOf(es, name) == k
  {
  }

  /** The first free inode from j on, or 0. */
  function FreeInode(inodes: seq<Inode>, j: nat): (i: nat)
    ensures i != 0 ==> j <= i < |inodes| && inodes[i].kind == None
    ensures i == 0 ==> forall x: nat :: 0 < x < |inodes| && j <= x ==> inodes[x].kind != None
    decreases |inodes| - j
  {
    if j >= |inodes| then 0 else if j > 0 && inodes[j].kind == None then j else FreeInode(inodes, j + 1)
  }

  lemma {:induction false} FreeInodeIs(inodes: seq<Inode>, j: nat, i: nat)
    requires 0 < j <= i <= |inodes| && forall x :: j <= x < i ==> inodes[x].kind != None
    requires i < |inodes| ==> inodes[i].kind == None
    ensures FreeInode(inodes, j) == if i < |inodes| then i else 0
    decreases i - j
  {
    if j < i { FreeInodeIs(inodes, j + 1, i); }
  }

  predicate EmptyDir(es: seq<Entry>) {
    forall j :: 2 <= j < |es| ==> es[j].inum == 0
  }

  // ---------- when a call can be made ----------

  /** What iput and ialloc leave of an inode that is not in use. */
  ghost predicate Clean(s: State) {
    && |s.refs| == |s.inodes|
    && forall i: nat :: i < |s.inodes| && s.inodes[i].kind == None ==> s.inodes[i] == FREE && s.refs[i] == 0
  }

  /** A directory with a link to it, as a path leads to one. */
  ghost predicate Parent(s: State, d: nat) {
    0 < d < |s.inodes| && Live(s.inodes[d]) && DirOk(|s.inodes|, d, s.inodes[d].entries)
  }

  ghost predicate Allowed(s: State, op: Op) {
    Clean(s) && match op
    case Create(d, _, kind, _, _, _) => Parent(s, d) && kind != None
    case Link(i, d, _, _) => Parent(s, d) && 0 < i < |s.inodes| && s.inodes[i].kind != None && s.inodes[i].nlink >= 1
    case Unlink(d, _) => Parent(s, d)
    case Open(i) => i < |s.inodes| && s.inodes[i].kind != None
    case Close(i) => 0 < i < |s.inodes| && s.refs[i] >= 1
  }

  // ---------- what it answers and what it does ----------

  /** create finds a file of that name, finds something else, or makes an inode unless there is none or a
      directory cannot grow. */
  ghost function CreateAnswer(s: State, d: nat, name: string, kind: Kind, dot: bool, dotdot: bool, room: bool): Answer
    requires Parent(s, d)
  {
    var es := s.inodes[d].entries;
    var k, i := SlotOf(es, name), FreeInode(s.inodes, 1);
    if k < |es| then
      var there := s.inodes[es[k].inum].kind;
      if kind == File && (there == File || there == Device) then Got(es[k].inum) else Failed
    else if i == 0 || (kind == Dir && !(dot && dotdot)) || (FirstFree(es) == |es| && !room) then Failed
    else Got(i)
  }

  ghost function LinkAnswer(s: State, i: nat, d: nat, name: string, room: bool): Answer
    requires Parent(s, d) && i < |s.inodes|
  {
    var es := s.inodes[d].entries;
    if s.inodes[i].kind == Dir || !Absent(es, name) || (FirstFree(es) == |es| && !room) then Failed else Done
  }

  ghost function UnlinkAnswer(s: State, d: nat, name: string): Answer
    requires Parent(s, d)
  {
    var es := s.inodes[d].entries;
    var k := SlotOf(es, name);
    if name == "." || name == ".." || k == |es| then Failed
    else
      var x := s.inodes[es[k].inum];
      if x.nlink < 1 then Panicked
      else if x.kind == Dir && !EmptyDir(x.entries) then Failed
      else Done
  }

  ghost function Reply(s: State, op: Op): Answer
    requires Allowed(s, op)
  {
    match op
    case Create(d, name, kind, dot, dotdot, room) => CreateAnswer(s, d, name, kind, dot, dotdot, room)
    case Link(i, d, name, room) => LinkAnswer(s, i, d, name, room)
    case Unlink(d, name) => UnlinkAnswer(s, d, name)
    case Open(i) => Got(i)
    case Close(i) => Done
  }

  function Opened(s: State, i: nat): State
    requires i < |s.refs|
  {
    s.(refs := s.refs[i := s.refs[i] + 1])
  }

  function Closed(s: State, i: nat): State
    requires i < |s.inodes| && i < |s.refs| && s.refs[i] >= 1
  {
    State(Dropped(s.inodes, s.refs, i), s.refs[i := s.refs[i] - 1])
  }

  ghost function Effect(s: State, op: Op): State
    requires Allowed(s, op)
  {
    var a := Reply(s, op);
    if a == Failed || a == Panicked then s
    else match op
      case Create(d, name, kind, _, _, _) =>
        var es := s.inodes[d].entries;
        if Absent(es, name) then Opened(s.(inodes := Created(s.inodes, d, FirstFree(es), a.i, name, kind)), a.i)
        else Opened(s, a.i)
      case Link(i, d, name, _) => s.(inodes := Linked(s.inodes, d, FirstFree(s.inodes[d].entries), i, name))
      case Unlink(d, name) =>
        var k := SlotOf(s.inodes[d].entries, name);
        var e := s.inodes[d].entries[k].inum;
        SlotIsNamed(s, d, name);
        Closed(Opened(s.(inodes := Unlinked(s.inodes, d, k)), e), e)
      case Open(i) => Opened(s, i)
      case Close(i) => Closed(s, i)
  }

  /** An entry that can be unlinked is not "." or "..", and not the directory itself. */
  lemma SlotIsNamed(s: State, d: nat, name: string)
    requires Parent(s, d) && UnlinkAnswer(s, d, name) == Done
    ensures 2 <= SlotOf(s.inodes[d].entries, name) < |s.inodes[d].entries|
    ensures 0 < s.inodes[d].entries[SlotOf(s.inodes[d].entries, name)].inum < |s.inodes|
    ensures s.inodes[d].entries[SlotOf(s.inodes[d].entries, name)].inum != d
  {
    var es := s.inodes[d].entries;
    var k := SlotOf(es, name);
    assert es[0].name == "." && es[1].name == "..";
  }

  // ---------- what every call keeps ----------

  /** No link count wraps: link's file and mkdir's parent have room for one more. */
  ghost predicate Counted(s: State, op: Op)
    requires Allowed(s, op)
  {
    match op
    case Create(d, name, kind, _, _, _) =>
      Reply(s, op).Got? && Absent(s.inodes[d].entries, name) && kind == Dir ==> s.inodes[d].nlink < MAXLINK
    case Link(i, _, _, _) => Reply(s, op) == Done ==> s.inodes[i].nlink < MAXLINK
    case _ => true
  }

  ghost predicate Sound(s: State) {
    Inv(s.inodes, s.refs)
  }

  lemma SoundDir(s: State, d: nat)
    requires Sound(s) && 0 < d < |s.inodes| && Live(s.inodes[d])
    ensures Parent(s, d) && !Absent(s.inodes[d].entries, ".")
  {
    hide CountsOk, DeadsOk, UseOk;
    DirAt(s.inodes, d);
    assert s.inodes[d].entries[0] == Entry(d, ".");
  }

  lemma CreateStep(s: State, op: Op)
    requires Sound(s) && op.Create? && Allowed(s, op)
    ensures Reply(s, op) != Panicked && (Sound(Effect(s, op)) <==> Counted(s, op))
  {
    hide Inv, Created, Put;
    var es, a := s.inodes[op.d].entries, Reply(s, op);
    SoundDir(s, op.d);
    if a.Got? && Absent(es, op.name) {
      CreateKeepsCountsToo(s, op, a.i);
    } else if a.Got? {
      SoundRef(s, a.i);
    }
  }

  lemma SoundRef(s: State, i: nat)
    requires Sound(s) && i < |s.inodes| && s.inodes[i].kind != None
    ensures |s.refs| == |s.inodes| && Sound(Opened(s, i))
  {
    hide CountsOk, TreeOk, DeadsOk;
  }

  lemma CreateKeepsCountsToo(s: State, op: Op, i: nat)
    requires Sound(s) && op.Create? && Allowed(s, op) && Reply(s, op) == Got(i)
        && Absent(s.inodes[op.d].entries, op.name)
    requires op.name != "."
    ensures Sound(Effect(s, op)) <==> Counted(s, op)
  {
    hide CountsOk, TreeOk, DeadsOk, Put;
    var k := FirstFree(s.inodes[op.d].entries);
    var made := Created(s.inodes, op.d, k, i, op.name, op.kind);
    CreateKeepsCounts(s.inodes, s.refs, op.d, k, i, op.name, op.kind);
    if Counted(s, op) {
      CreateKeeps(s.inodes, s.refs, op.d, k, i, op.name, op.kind);
      SoundRef(State(made, s.refs), i);
    }
  }

  lemma LinkStep(s: State, op: Op)
    requires Sound(s) && op.Link? && Allowed(s, op)
    ensures Reply(s, op) != Panicked && (Sound(Effect(s, op)) <==> Counted(s, op))
  {
    hide CountsOk, TreeOk, DeadsOk, Put;
    SoundDir(s, op.d);
    if Reply(s, op) == Done {
      var k := FirstFree(s.inodes[op.d].entries);
      LinkKeepsCounts(s.inodes, s.refs, op.d, k, op.i, op.name);
      if Counted(s, op) { LinkKeeps(s.inodes, s.refs, op.d, k, op.i, op.name); }
    }
  }

  lemma UnlinkStep(s: State, op: Op)
    requires Sound(s) && op.Unlink? && Allowed(s, op)
    ensures Reply(s, op) != Panicked && Sound(Effect(s, op))
  {
    hide CountsOk, TreeOk, DeadsOk, UseOk, Unlinked;
    var es := s.inodes[op.d].entries;
    var k := SlotOf(es, op.name);
    if op.name != "." && op.name != ".." && k < |es| {
      assert es[0].name == "." && es[1].name == "..";
      EntryAllocated(s.inodes, s.refs, op.d, k);
    }
    if Reply(s, op) == Done {
      SlotIsNamed(s, op.d, op.name);
      var e := es[k].inum;
      var cut := Opened(s.(inodes := Unlinked(s.inodes, op.d, k)), e);
      UnlinkKeeps(s.inodes, s.refs, op.d, k, cut.refs);
      DropKeeps(cut.inodes, cut.refs, e);
    }
  }

  /** From a sound state no call panics, and the state after it is sound if and only if no count wraps. */
  lemma StepKeeps(s: State, op: Op)
    requires Sound(s) && Allowed(s, op)
    ensures Reply(s, op) != Panicked && (Sound(Effect(s, op)) <==> Counted(s, op))
  {
    hide Sound;
    match op {
      case Create(_, _, _, _, _, _) => CreateStep(s, op);
      case Link(_, _, _, _) => LinkStep(s, op);
      case Unlink(_, _) => UnlinkStep(s, op);
      case Open(i) => SoundRef(s, i);
      case Close(i) => CloseStep(s, i);
    }
  }

  lemma CloseStep(s: State, i: nat)
    requires Sound(s) && 0 < i < |s.inodes| && i < |s.refs| && s.refs[i] >= 1
    ensures Sound(Closed(s, i))
  {
    hide CountsOk, TreeOk, DeadsOk, UseOk;
    DropKeeps(s.inodes, s.refs, i);
  }

  // ---------- runs ----------

  /** Each call can be made when its turn comes; nothing runs after a panic. */
  ghost predicate Fits(s: State, ops: seq<Op>)
    decreases |ops|
  {
    ops != [] ==>
      && Allowed(s, ops[0]) && (Reply(s, ops[0]) == Panicked ==> |ops| == 1)
      && Fits(Effect(s, ops[0]), ops[1..])
  }

  ghost function After(s: State, ops: seq<Op>): State
    requires Fits(s, ops)
    decreases |ops|
  {
    if ops == [] then s else After(Effect(s, ops[0]), ops[1..])
  }

  ghost function Replies(s: State, ops: seq<Op>): (rs: seq<Answer>)
    requires Fits(s, ops)
    ensures |rs| == |ops|
    decreases |ops|
  {
    if ops == [] then [] else [Reply(s, ops[0])] + Replies(Effect(s, ops[0]), ops[1..])
  }

  /** No count wraps anywhere in the run. */
  ghost predicate AllCounted(s: State, ops: seq<Op>)
    requires Fits(s, ops)
    decreases |ops|
  {
    ops != [] ==> Counted(s, ops[0]) && AllCounted(Effect(s, ops[0]), ops[1..])
  }

  /** Whatever calls are made in whatever order, in directories that are themselves linked, link counts are
      right, names do not repeat and no panic is reached, as long as no count wraps. */
  lemma {:induction false} RunKeeps(s: State, ops: seq<Op>)
    requires Sound(s) && Fits(s, ops) && AllCounted(s, ops)
    ensures Sound(After(s, ops)) && Panicked !in Replies(s, ops)
    decreases |ops|
  {
    hide Sound, Effect, Reply, Counted, Allowed;
    if ops != [] {
      StepKeeps(s, ops[0]);
      RunKeeps(Effect(s, ops[0]), ops[1..]);
    }
  }

  /** The first call that wraps a count leaves an unsound state. */
  lemma WrapBreaks(s: State, ops: seq<Op>, op: Op)
    requires Sound(s) && Fits(s, ops) && AllCounted(s, ops) && Allowed(After(s, ops), op) && !Counted(After(s, ops), op)
    ensures !Sound(Effect(After(s, ops), op))
  {
    hide Sound, Effect, Reply, Counted, Allowed, Fits;
    RunKeeps(s, ops);
    StepKeeps(After(s, ops), op);
  }
}
