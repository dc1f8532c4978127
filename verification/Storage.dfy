/** The storage stack of kernel/bio.c and kernel/log.c as one step machine.

    Any number of threads run transactions through the shared cache; the last end_op of a
    group commits, one disk write per step, while other threads may go on reading. Two
    specification fields ride along: logical, the contents callers have logged so far, and
    durable, the logical contents as of the latest header write. */
module Storage {
  import opened Blocks
  import opened Counting
  import opened Options
  import opened CacheModel
  import opened Recovery
  import opened CommitSteps

  /** Progress of commit(); Idle when log.committing is 0. */
  datatype Phase = Idle | Logging(t: nat) | Installing(t: nat) | Finished

  datatype State = State(
    layout: Layout,
    disk: seq<Block>,
    cache: Cache,
    users: seq<nat>,            // threads between bget and the end of brelse, per buffer
    holder: seq<Option<nat>>,   // thread holding the buffer's sleep lock
    dirty: seq<bool>,           // changed by its holder and not yet logged
    lh: seq<nat>,               // log.lh.block[..log.lh.n]
    ops: map<nat, nat>,         // outstanding operations, with the blocks each has added
    phase: Phase,
    logical: seq<Block>,
    durable: seq<Block>)

  datatype Action =
    | BeginOp(tid: nat)
    | EndOp(tid: nat)
    | GetBuf(blockno: nat)
    | LockBuf(tid: nat, i: Slot)
    | Modify(tid: nat, i: Slot, data: Block)
    | LogWrite(tid: nat, i: Slot)
    | UnlockBuf(tid: nat, i: Slot)
    | DropBuf(i: Slot)
    | CommitStep

  /** Blocks that log_write has pinned and commit has not yet installed. */
  function Pinned(s: State): seq<nat> {
    if s.phase.Installing? && s.phase.t <= |s.lh| then s.lh[s.phase.t..] else s.lh
  }

  // ---------- the steps ----------

  /** log_write's two checks that end in a panic; they come before the absorption scan. */
  predicate LogWritePanics(size: nat, n: nat, outstanding: nat) {
    n >= LOGSIZE || n + 1 >= size || outstanding < 1
  }

  ghost predicate Shaped(s: State) {
    && CacheOk(s.cache)
    && |s.users| == |s.holder| == |s.dirty| == NBUF
    && |s.logical| == |s.durable| == |s.disk|
    && DiskOk(s.layout, s.disk)
    && Loggable(s.layout, |s.disk|, s.lh)
    && (forall i: Slot :: s.cache.bufs[i].dev == ROOTDEV ==> s.cache.bufs[i].blockno < |s.disk|)
  }

  /** The sleep lock of the buffer caching block b, if there is one, is free. */
  ghost predicate Unlocked(s: State, b: nat)
    requires |s.cache.bufs| == |s.holder| == NBUF
  {
    forall i: Slot :: Keyed(s.cache.bufs[i], ROOTDEV, b) ==> s.holder[i].None?
  }

  function AfterLog(s: State, r: Outcome): State
    requires s.phase.Logging? && r.Wrote?
  {
    s.(disk := r.disk, cache := r.cache, phase := Logging(s.phase.t + 1))
  }

  function AfterHead(s: State, r: Outcome): State
    requires r.Wrote?
  {
    s.(disk := r.disk, cache := r.cache, durable := s.logical, phase := Installing(0))
  }

  function AfterInstall(s: State, r: Outcome): State
    requires s.phase.Installing? && r.Wrote?
  {
    s.(disk := r.disk, cache := r.cache, phase := Installing(s.phase.t + 1))
  }

  function AfterClear(s: State, r: Outcome): State
    requires r.Wrote?
  {
    s.(disk := r.disk, cache := r.cache, lh := [], phase := Finished)
  }

  /** write_log's next iteration. */
  ghost predicate LogStep(s: State, s': State)
    requires Shaped(s) && s.phase.Logging? && s.phase.t < |s.lh|
  {
    var r := LogOne(s.disk, s.cache, s.lh[s.phase.t], s.layout.start + 1 + s.phase.t);
    r.Wrote? && Unlocked(s, s.lh[s.phase.t]) && s' == AfterLog(s, r)
  }

  /** The header write that commits the transaction. */
  ghost predicate HeadStep(s: State, s': State)
    requires Shaped(s)
  {
    var r := HeadOne(s.layout, s.disk, s.cache, s.lh);
    r.Wrote? && s' == AfterHead(s, r)
  }

  /** install_trans's next iteration. */
  ghost predicate InstallStep(s: State, s': State)
    requires Shaped(s) && s.phase.Installing? && s.phase.t < |s.lh|
  {
    var r := InstallOne(s.disk, s.cache, s.lh[s.phase.t], s.layout.start + 1 + s.phase.t, false);
    r.Wrote? && Unlocked(s, s.lh[s.phase.t]) && s' == AfterInstall(s, r)
  }

  /** The header write that empties the log. */
  ghost predicate ClearStep(s: State, s': State)
    requires Shaped(s)
  {
    var r := HeadOne(s.layout, s.disk, s.cache, []);
    r.Wrote? && s' == AfterClear(s, r)
  }

  /** One step of commit(). */
  ghost predicate Commit(s: State, s': State)
    requires Shaped(s)
  {
    match s.phase
    case Idle => false
    case Finished => s' == s.(phase := Idle)
    case Logging(t) =>
      if t < |s.lh| then LogStep(s, s')
      else if |s.lh| == 0 then s' == s.(phase := Finished)
      else HeadStep(s, s')
    case Installing(t) =>
      if t < |s.lh| then InstallStep(s, s') else ClearStep(s, s')
  }

  ghost predicate Begin(s: State, tid: nat, s': State) {
    && tid !in s.ops && s.phase.Idle? && |s.lh| + (|s.ops| + 1) * MAXOPBLOCKS <= LOGSIZE
    && s' == s.(ops := s.ops[tid := 0])
  }

  ghost predicate End(s: State, tid: nat, s': State)
    requires Shaped(s)
  {
    var ops := s.ops - {tid};
    && tid in s.ops && (forall i: Slot :: s.holder[i] == Some(tid) ==> !s.dirty[i])
    && s' == s.(ops := ops, phase := if ops == map[] then Logging(0) else s.phase)
  }

  /** bget's critical section. */
  ghost predicate GetBuffer(s: State, b: nat, s': State)
    requires Shaped(s)
  {
    var r := Get(s.cache, ROOTDEV, b);
    && r.Got? && b < |s.disk| && !InLog(s.layout, b)
    && s' == s.(cache := r.cache, users := s.users[r.slot := s.users[r.slot] + 1])
  }

  /** acquiresleep succeeds; bread then reads the disk if the buffer is not valid. */
  ghost predicate LockBuffer(s: State, tid: nat, i: Slot, s': State)
    requires Shaped(s)
  {
    && s.users[i] > 0 && s.holder[i].None? && s.cache.bufs[i].dev == ROOTDEV
    && s' == s.(cache := Fill(s.cache, s.disk, i), holder := s.holder[i := Some(tid)])
  }

  ghost predicate ModifyBuffer(s: State, tid: nat, i: Slot, data: Block, s': State)
    requires Shaped(s)
  {
    && s.holder[i] == Some(tid) && tid in s.ops
    && s' == s.(cache := SetData(s.cache, i, data), dirty := s.dirty[i := true])
  }

  /** log_write: a block already in the header is absorbed, a new one is added and pinned. */
  ghost predicate LogBuffer(s: State, tid: nat, i: Slot, s': State)
    requires Shaped(s)
  {
    var b := s.cache.bufs[i].blockno;
    && s.holder[i] == Some(tid) && tid in s.ops && s.cache.bufs[i].dev == ROOTDEV
    && !LogWritePanics(s.layout.size, |s.lh|, |s.ops|)
    && var s1 := s.(logical := s.logical[b := s.cache.bufs[i].data], dirty := s.dirty[i := false]);
       s' == if b in s.lh then s1
             else s1.(lh := s.lh + [b], cache := AddRef(s.cache, i, 1), ops := s.ops[tid := s.ops[tid] + 1])
  }

  ghost predicate UnlockBuffer(s: State, tid: nat, i: Slot, s': State)
    requires Shaped(s)
  {
    s.holder[i] == Some(tid) && !s.dirty[i] && s' == s.(holder := s.holder[i := None])
  }

  /** brelse's critical section. */
  ghost predicate DropBuffer(s: State, i: Slot, s': State)
    requires Shaped(s)
  {
    && s.users[i] > (if s.holder[i].Some? then 1 else 0) && s.cache.bufs[i].refcnt > 0
    && s' == s.(cache := Release(s.cache, i), users := s.users[i := s.users[i] - 1])
  }

  /** One step of a thread. A step that would have to wait or panic is not enabled, and callers
      keep their rules: only home blocks are read, only an operation changes a buffer, and a
      changed buffer is logged before it is unlocked or the operation ends. */
  ghost predicate Next(s: State, a: Action, s': State)
    requires Shaped(s)
  {
    match a
    case BeginOp(tid) => Begin(s, tid, s')
    case EndOp(tid) => End(s, tid, s')
    case GetBuf(b) => GetBuffer(s, b, s')
    case LockBuf(tid, i) => LockBuffer(s, tid, i, s')
    case Modify(tid, i, data) => ModifyBuffer(s, tid, i, data, s')
    case LogWrite(tid, i) => LogBuffer(s, tid, i, s')
    case UnlockBuf(tid, i) => UnlockBuffer(s, tid, i, s')
    case DropBuf(i) => DropBuffer(s, i, s')
    case CommitStep => Commit(s, s')
  }

  // ---------- the invariant ----------

  /** Every buffer's reference count is its users plus one if the log pins it, and its data,
      once read, is what the callers last logged (or the disk's copy, inside the log). */
  ghost predicate BufOk(s: State, i: Slot)
    requires Shaped(s)
  {
    var b := s.cache.bufs[i];
    && (b.dev == 0 || b.dev == ROOTDEV)
    && (b.dev == 0 ==> b.refcnt == 0 && !b.valid)
    && b.refcnt == s.users[i] + (if b.dev == ROOTDEV && b.blockno in Pinned(s) then 1 else 0)
    && (s.users[i] > 0 ==> !InLog(s.layout, b.blockno))
    && (s.holder[i].Some? ==> s.users[i] > 0 && b.valid)
    && (s.dirty[i] ==> s.holder[i].Some? && s.holder[i].value in s.ops)
    && (b.valid && InLog(s.layout, b.blockno) ==> b.data == s.disk[b.blockno])
    && (b.valid && !InLog(s.layout, b.blockno) && !s.dirty[i] ==> b.data == s.logical[b.blockno])
  }

  ghost predicate CachedAt(s: State, i: Slot, b: nat)
    requires |s.cache.bufs| == NBUF
  {
    Keyed(s.cache.bufs[i], ROOTDEV, b) && s.cache.bufs[i].valid
  }

  ghost predicate PinsCached(s: State)
    requires |s.cache.bufs| == NBUF
  {
    forall b :: b in Pinned(s) ==> exists i: Slot :: CachedAt(s, i, b)
  }

  /** Home block b: what the disk, the log and the specification say about it. */
  ghost predicate HomeOk(s: State, b: nat)
    requires Shaped(s) && b < |s.disk|
  {
    match s.phase
    case Installing(t) => s.durable[b] == s.logical[b] && (b !in Pinned(s) ==> s.disk[b] == s.logical[b])
    case _ => s.disk[b] == s.durable[b] && (b !in s.lh ==> s.durable[b] == s.logical[b])
  }

  /** The disk's log area during commit. */
  ghost predicate LogAreaOk(s: State)
    requires Shaped(s)
  {
    match s.phase
    case Idle => s.disk[s.layout.start][0] == 0
    case Finished => s.disk[s.layout.start][0] == 0 && s.lh == [] && s.ops == map[]
    case Logging(t) =>
      && s.disk[s.layout.start][0] == 0 && s.ops == map[] && t <= |s.lh|
      && forall u :: 0 <= u < t ==> s.disk[s.layout.start + 1 + u] == s.logical[s.lh[u]]
    case Installing(t) =>
      && ReadHeader(s.disk[s.layout.start]) == s.lh && s.ops == map[] && t <= |s.lh|
      && forall u :: 0 <= u < |s.lh| ==> s.disk[s.layout.start + 1 + u] == s.logical[s.lh[u]]
  }

  ghost predicate Inv(s: State) {
    && Shaped(s)
    && (forall i: Slot :: BufOk(s, i))
    && PinsCached(s)
    && LogAreaOk(s)
    && forall b :: 0 <= b < |s.disk| && !InLog(s.layout, b) ==> HomeOk(s, b)
  }

  /** An unreferenced buffer that holds nothing, or a copy of its disk block. */
  predicate Clean(b: Buf, d: seq<Block>) {
    && b.refcnt == 0 && (b.dev == 0 || (b.dev == ROOTDEV && b.blockno < |d|))
    && (b.valid ==> b.dev == ROOTDEV && b.data == d[b.blockno])
  }

  /** A booted system: the disk recovered, the log empty, and only clean buffers in the cache. */
  ghost predicate Init(s: State) {
    && Shaped(s) && s.disk[s.layout.start][0] == 0
    && (forall i: Slot :: Clean(s.cache.bufs[i], s.disk) && s.users[i] == 0 && s.holder[i].None? && !s.dirty[i])
    && s.lh == [] && s.ops == map[] && s.phase == Idle
    && s.logical == s.disk && s.durable == s.disk
  }

  // ---------- every step keeps the invariant ----------

  /** A referenced buffer keeps its block and its data stays readable. */
  ghost predicate Kept(b: Buf, b': Buf) {
    b.refcnt > 0 ==> b'.dev == b.dev && b'.blockno == b.blockno && (b.valid ==> b'.valid)
  }

  lemma PinsStay(s: State, s': State)
    requires Shaped(s) && Shaped(s') && PinsCached(s) && (forall k: Slot :: BufOk(s, k))
    requires s'.lh == s.lh && s'.phase == s.phase
    requires forall k: Slot :: Kept(s.cache.bufs[k], s'.cache.bufs[k])
    ensures PinsCached(s')
  {
    hide ListOk, UniqueKeys, DiskOk, Loggable;
    assert Pinned(s') == Pinned(s);
    forall p | p in Pinned(s') ensures exists k: Slot :: CachedAt(s', k, p) {
      var k: Slot :| CachedAt(s, k, p);
      assert BufOk(s, k) && Kept(s.cache.bufs[k], s'.cache.bufs[k]);
      assert CachedAt(s', k, p);
    }
  }

  /** A step that touches only buffers keeps the invariant if it keeps it buffer by buffer. */
  lemma BufferOnly(s: State, s': State)
    requires Inv(s) && Shaped(s')
    requires s' == s.(cache := s'.cache, users := s'.users, holder := s'.holder, dirty := s'.dirty)
    requires forall k: Slot :: BufOk(s', k)
    requires forall k: Slot :: Kept(s.cache.bufs[k], s'.cache.bufs[k])
    ensures Inv(s')
  {
    hide ListOk, UniqueKeys, DiskOk, Loggable;
    PinsStay(s, s');
    forall h | 0 <= h < |s'.disk| && !InLog(s'.layout, h) ensures HomeOk(s', h) { assert HomeOk(s, h); }
  }

  lemma GetKeeps(s: State, b: nat, s': State)
    requires Inv(s) && GetBuffer(s, b, s')
    ensures Inv(s')
  {
    GetSpec(s.cache, ROOTDEV, b);
    hide Get, DiskOk, Loggable, ListOk;
    var Got(c, i) := Get(s.cache, ROOTDEV, b);
    assert BufOk(s, i);
    if b in Pinned(s) {
      var k: Slot :| CachedAt(s, k, b);
      assert Keyed(s.cache.bufs[i], ROOTDEV, b);
    }
    assert Pinned(s') == Pinned(s);
    assert BufOk(s', i);
    forall k: Slot ensures BufOk(s', k) && Kept(s.cache.bufs[k], s'.cache.bufs[k]) { assert BufOk(s, k); }
    BufferOnly(s, s');
  }

  lemma LockKeeps(s: State, tid: nat, i: Slot, s': State)
    requires Inv(s) && LockBuffer(s, tid, i, s')
    ensures Inv(s')
  {
    SameKeys(s.cache.bufs, s'.cache.bufs);
    var b := s.cache.bufs[i].blockno;
    assert BufOk(s, i) && HomeOk(s, b);
    if b in Pinned(s) {
      var k: Slot :| CachedAt(s, k, b);
      assert !Clash(s.cache.bufs, i, k);
    }
    assert Pinned(s') == Pinned(s);
    assert BufOk(s', i);
    forall k: Slot ensures BufOk(s', k) && Kept(s.cache.bufs[k], s'.cache.bufs[k]) { assert BufOk(s, k); }
    BufferOnly(s, s');
  }

  lemma ModifyKeeps(s: State, tid: nat, i: Slot, data: Block, s': State)
    requires Inv(s) && ModifyBuffer(s, tid, i, data, s')
    ensures Inv(s')
  {
    SameKeys(s.cache.bufs, s'.cache.bufs);
    assert Pinned(s') == Pinned(s);
    forall k: Slot ensures BufOk(s', k) && Kept(s.cache.bufs[k], s'.cache.bufs[k]) { assert BufOk(s, k); }
    BufferOnly(s, s');
  }

  lemma UnlockKeeps(s: State, tid: nat, i: Slot, s': State)
    requires Inv(s) && UnlockBuffer(s, tid, i, s')
    ensures Inv(s')
  {
    assert Pinned(s') == Pinned(s);
    forall k: Slot ensures BufOk(s', k) && Kept(s.cache.bufs[k], s'.cache.bufs[k]) { assert BufOk(s, k); }
    BufferOnly(s, s');
  }

  lemma DropKeeps(s: State, i: Slot, s': State)
    requires Inv(s) && DropBuffer(s, i, s')
    ensures Inv(s')
  {
    ReleaseSpec(s.cache, i);
    assert Pinned(s') == Pinned(s);
    forall k: Slot ensures BufOk(s', k) && Kept(s.cache.bufs[k], s'.cache.bufs[k]) { assert BufOk(s, k); }
    BufferOnly(s, s');
  }

  lemma OpsKeep(s: State, tid: nat, s': State)
    requires Inv(s) && (Begin(s, tid, s') || End(s, tid, s'))
    ensures Inv(s')
  {
    assert Pinned(s') == Pinned(s);
    forall k: Slot ensures BufOk(s', k) { assert BufOk(s, k); }
    forall p | p in Pinned(s') ensures exists k: Slot :: CachedAt(s', k, p) {
      var k: Slot :| CachedAt(s, k, p);
      assert CachedAt(s', k, p);
    }
    forall h | 0 <= h < |s'.disk| && !InLog(s'.layout, h) ensures HomeOk(s', h) { assert HomeOk(s, h); }
  }

  lemma LogBufferKeeps(s: State, tid: nat, i: Slot, s': State)
    requires Inv(s) && LogBuffer(s, tid, i, s')
    ensures Inv(s')
  {
    SameKeys(s.cache.bufs, s'.cache.bufs);
    var b := s.cache.bufs[i].blockno;
    assert BufOk(s, i);
    assert s.phase.Idle?;
    forall k: Slot ensures BufOk(s', k) {
      assert BufOk(s, k);
      assert !Clash(s.cache.bufs, i, k);
    }
    forall p | p in Pinned(s') ensures exists k: Slot :: CachedAt(s', k, p) {
      if p == b {
        assert CachedAt(s', i, p);
      } else {
        assert p in Pinned(s);
        var k: Slot :| CachedAt(s, k, p);
        assert CachedAt(s', k, p);
      }
    }
    forall h | 0 <= h < |s'.disk| && !InLog(s'.layout, h) ensures HomeOk(s', h) { assert HomeOk(s, h); }
  }

  /** The slot of a pinned block: referenced, valid, and holding what was logged. */
  lemma PinnedSlot(s: State, b: nat) returns (j: Slot)
    requires Inv(s) && b in Pinned(s) && s.ops == map[]
    ensures CachedAt(s, j, b) && s.cache.bufs[j].refcnt >= 1
    ensures !InLog(s.layout, b) ==> s.cache.bufs[j].data == s.logical[b]
  {
    j :| CachedAt(s, j, b);
    assert BufOk(s, j);
  }

  /** What no step of commit() touches. */
  ghost predicate CommitFrame(s: State, s': State) {
    && s'.layout == s.layout && s'.users == s.users && s'.holder == s.holder && s'.dirty == s.dirty
    && s'.ops == s.ops && s'.logical == s.logical
  }

  /** Writing block b of the log area through slot i disturbs no other buffer. */
  lemma LogAreaWrite(s: State, s': State, b: nat, i: Slot)
    requires Inv(s) && Shaped(s') && InLog(s.layout, b) && WroteLogArea(s, s', b, i)
    requires s.ops == map[] && Pinned(s') == Pinned(s)
    requires CommitFrame(s, s')
    ensures forall k: Slot :: BufOk(s', k) && Kept(s.cache.bufs[k], s'.cache.bufs[k])
  {
    assert BufOk(s, i);
    forall k: Slot ensures BufOk(s', k) && Kept(s.cache.bufs[k], s'.cache.bufs[k]) {
      assert BufOk(s, k);
      if k != i {
        assert !Clash(s'.cache.bufs, i, k);
        assert s'.cache.bufs[k] == s.cache.bufs[k];
      }
    }
  }

  /** Slot i took log-area block b with the data now on disk; nothing else in the cache moved. */
  ghost predicate WroteLogArea(s: State, s': State, b: nat, i: Slot)
    requires |s.cache.bufs| == NBUF
  {
    && CacheOk(s'.cache) && Spare(s.cache, i, b) && b < |s.disk|
    && |s'.disk| == |s.disk| && s'.disk == s.disk[b := s'.disk[b]]
    && Changed(s.cache.bufs, s'.cache.bufs, {i})
    && s'.cache.bufs[i] == Buf(true, ROOTDEV, b, s.cache.bufs[i].refcnt, s'.disk[b])
  }

  lemma AfterLogOk(s: State, r: Outcome, i: Slot)
    requires Inv(s) && s.phase.Logging? && s.phase.t < |s.lh| && r.Wrote?
    requires WroteLogArea(s, AfterLog(s, r), s.layout.start + 1 + s.phase.t, i)
    requires r.disk[s.layout.start + 1 + s.phase.t] == s.logical[s.lh[s.phase.t]]
    ensures Inv(AfterLog(s, r))
  {
    var s' := AfterLog(s, r);
    assert Pinned(s') == Pinned(s);
    LogAreaWrite(s, s', s.layout.start + 1 + s.phase.t, i);
    forall h | 0 <= h < |s.disk| && !InLog(s.layout, h) ensures HomeOk(s', h) { assert HomeOk(s, h); }
    CommitCarries(s, s');
  }

  lemma LogStepKeeps(s: State, s': State)
    requires Inv(s) && s.phase.Logging? && s.phase.t < |s.lh| && LogStep(s, s')
    ensures Inv(s')
  {
    hide LogOne;
    var r := LogOne(s.disk, s.cache, s.lh[s.phase.t], s.layout.start + 1 + s.phase.t);
    var j := PinnedSlot(s, s.lh[s.phase.t]);
    var i := LogOneSpec(s.disk, s.cache, s.lh[s.phase.t], s.layout.start + 1 + s.phase.t, j, r);
    AfterLogOk(s, r, i);
  }

  /** The parts of the invariant a commit step on the log area carries over. */
  lemma CommitCarries(s: State, s': State)
    requires Inv(s) && Shaped(s') && LogAreaOk(s')
    requires CommitFrame(s, s') && |s'.disk| == |s.disk|
    requires s.ops == map[] && (forall b | b in Pinned(s') :: b in Pinned(s))
    requires forall k: Slot :: BufOk(s', k)
    requires forall k: Slot :: Kept(s.cache.bufs[k], s'.cache.bufs[k])
    requires forall h :: 0 <= h < |s.disk| && !InLog(s.layout, h) ==> HomeOk(s', h)
    ensures Inv(s')
  {
    forall p | p in Pinned(s') ensures exists k: Slot :: CachedAt(s', k, p) {
      var k: Slot :| CachedAt(s, k, p);
      assert BufOk(s, k) && Kept(s.cache.bufs[k], s'.cache.bufs[k]);
      assert CachedAt(s', k, p);
    }
  }

  /** A cached log-area block agrees with the disk. */
  lemma LogAreaCached(s: State, b: nat)
    requires Inv(s) && InLog(s.layout, b)
    ensures forall k: Slot :: Keyed(s.cache.bufs[k], ROOTDEV, b) && s.cache.bufs[k].valid ==>
        s.cache.bufs[k].data == s.disk[b]
  {
    forall k: Slot | Keyed(s.cache.bufs[k], ROOTDEV, b) && s.cache.bufs[k].valid
        ensures s.cache.bufs[k].data == s.disk[b] {
      assert BufOk(s, k);
    }
  }

  lemma AfterHeadOk(s: State, r: Outcome, i: Slot)
    requires Inv(s) && s.phase == Logging(|s.lh|) && r.Wrote?
    requires WroteLogArea(s, AfterHead(s, r), s.layout.start, i)
    requires r.disk[s.layout.start] == WriteHeader(s.disk[s.layout.start], s.lh)
    ensures Inv(AfterHead(s, r))
  {
    var s' := AfterHead(s, r);
    HeaderRoundTrip(s.disk[s.layout.start], s.lh);
    assert Pinned(s') == Pinned(s);
    LogAreaWrite(s, s', s.layout.start, i);
    forall h | 0 <= h < |s.disk| && !InLog(s.layout, h) ensures HomeOk(s', h) { assert HomeOk(s, h); }
    CommitCarries(s, s');
  }

  lemma HeadStepKeeps(s: State, s': State)
    requires Inv(s) && s.phase == Logging(|s.lh|) && HeadStep(s, s')
    ensures Inv(s')
  {
    hide HeadOne;
    var r := HeadOne(s.layout, s.disk, s.cache, s.lh);
    LogAreaCached(s, s.layout.start);
    var i := HeadOneSpec(s.layout, s.disk, s.cache, s.lh, r);
    AfterHeadOk(s, r, i);
  }

  lemma AfterClearOk(s: State, r: Outcome, i: Slot)
    requires Inv(s) && s.phase == Installing(|s.lh|) && r.Wrote?
    requires WroteLogArea(s, AfterClear(s, r), s.layout.start, i)
    requires r.disk[s.layout.start] == WriteHeader(s.disk[s.layout.start], [])
    ensures Inv(AfterClear(s, r))
  {
    var s' := AfterClear(s, r);
    HeaderRoundTrip(s.disk[s.layout.start], []);
    assert Pinned(s') == Pinned(s) == [];
    LogAreaWrite(s, s', s.layout.start, i);
    forall h | 0 <= h < |s.disk| && !InLog(s.layout, h) ensures HomeOk(s', h) { assert HomeOk(s, h); }
    CommitCarries(s, s');
  }

  lemma ClearStepKeeps(s: State, s': State)
    requires Inv(s) && s.phase == Installing(|s.lh|) && ClearStep(s, s')
    ensures Inv(s')
  {
    hide HeadOne;
    var r := HeadOne(s.layout, s.disk, s.cache, []);
    LogAreaCached(s, s.layout.start);
    var i := HeadOneSpec(s.layout, s.disk, s.cache, [], r);
    AfterClearOk(s, r, i);
  }

  /** What an install_trans iteration on home block lh[t], cached in slot j, leaves behind. */
  ghost predicate Installed(s: State, s': State, i: Slot, j: Slot)
    requires Shaped(s) && s.phase.Installing? && s.phase.t < |s.lh|
  {
    var b := s.layout.start + 1 + s.phase.t;
    var home := s.lh[s.phase.t];
    && CacheOk(s'.cache) && i != j && Spare(s.cache, i, b)
    && CachedAt(s, j, home) && s.cache.bufs[j].refcnt >= 1
    && s'.disk == s.disk[home := s.disk[b]]
    && Changed(s.cache.bufs, s'.cache.bufs, {i, j})
    && s'.cache.bufs[i] == Buf(true, ROOTDEV, b, s.cache.bufs[i].refcnt, s.disk[b])
    && s'.cache.bufs[j] == s.cache.bufs[j].(refcnt := s.cache.bufs[j].refcnt - 1, data := s.disk[b])
  }

  /** Installing a block unpins exactly that block. */
  lemma Unpins(s: State, b: nat)
    requires Shaped(s) && s.phase.Installing? && s.phase.t < |s.lh|
    ensures b in s.lh[s.phase.t + 1..] <==> b in Pinned(s) && b != s.lh[s.phase.t]
  {
    assert Pinned(s) == [s.lh[s.phase.t]] + s.lh[s.phase.t + 1..];
    if b in s.lh[s.phase.t + 1..] {
      var k := IndexOf(s.lh[s.phase.t + 1..], b);
      assert s.lh[s.phase.t] != s.lh[s.phase.t + 1 + k];
    }
  }

  lemma LogAreaUnpinned(s: State, b: nat)
    requires Shaped(s) && InLog(s.layout, b)
    ensures b !in Pinned(s)
  {
    forall k | 0 <= k < |s.lh| ensures s.lh[k] != b {}
  }

  /** An install_trans iteration keeps each buffer consistent: the log block it copies is what
      the cache already holds for the home block. */
  lemma InstallBuf(s: State, s': State, i: Slot, j: Slot, k: Slot)
    requires Shaped(s) && s.phase.Installing? && s.phase.t < |s.lh| && Shaped(s') && CommitFrame(s, s')
    requires BufOk(s, i) && BufOk(s, j) && BufOk(s, k) && s.ops == map[]
    requires s.disk[s.layout.start + 1 + s.phase.t] == s.logical[s.lh[s.phase.t]]
    requires s'.phase == Installing(s.phase.t + 1) && s'.lh == s.lh && Installed(s, s', i, j)
    ensures BufOk(s', k) && (k != j ==> Kept(s.cache.bufs[k], s'.cache.bufs[k]))
  {
    var b := s.layout.start + 1 + s.phase.t;
    LogAreaUnpinned(s, b);
    LogAreaUnpinned(s', b);
    hide DiskOk, Loggable, ListOk;
    if k == j {
      Unpins(s, s.lh[s.phase.t]);
    } else if k != i {
      assert s'.cache.bufs[k] == s.cache.bufs[k];
      Unpins(s, s.cache.bufs[k].blockno);
      assert !Clash(s'.cache.bufs, i, k);
      assert !Clash(s'.cache.bufs, j, k);
    }
  }

  lemma InstallPins(s: State, s': State, i: Slot, j: Slot)
    requires Shaped(s) && s.phase.Installing? && s.phase.t < |s.lh| && Shaped(s') && PinsCached(s)
    requires s'.phase == Installing(s.phase.t + 1) && s'.lh == s.lh && Installed(s, s', i, j)
    requires forall k: Slot :: BufOk(s, k)
    requires forall k: Slot :: k != j ==> Kept(s.cache.bufs[k], s'.cache.bufs[k])
    ensures PinsCached(s')
  {
    hide DiskOk, Loggable, ListOk;
    forall p | p in Pinned(s') ensures exists k: Slot :: CachedAt(s', k, p) {
      Unpins(s, p);
      var k: Slot :| CachedAt(s, k, p);
      assert BufOk(s, k);
      assert CachedAt(s', k, p);
    }
  }

  lemma InstallLogArea(s: State, r: Outcome, i: Slot, j: Slot)
    requires Shaped(s) && LogAreaOk(s) && s.phase.Installing? && s.phase.t < |s.lh| && r.Wrote?
    requires Installed(s, AfterInstall(s, r), i, j)
    ensures Shaped(AfterInstall(s, r)) && LogAreaOk(AfterInstall(s, r))
  {
    var s' := AfterInstall(s, r);
    assert s'.disk[s.layout.start] == s.disk[s.layout.start];
    forall u | 0 <= u < |s.lh| ensures s'.disk[s.layout.start + 1 + u] == s.logical[s.lh[u]] {}
  }

  lemma LogHolds(s: State)
    requires Shaped(s) && LogAreaOk(s) && s.phase.Installing? && s.phase.t < |s.lh|
    ensures s.disk[s.layout.start + 1 + s.phase.t] == s.logical[s.lh[s.phase.t]] && s.ops == map[]
  {
  }

  lemma InstallBufs(s: State, r: Outcome, i: Slot, j: Slot)
    requires Inv(s) && s.phase.Installing? && s.phase.t < |s.lh| && r.Wrote?
    requires Installed(s, AfterInstall(s, r), i, j) && Shaped(AfterInstall(s, r))
    ensures forall k: Slot :: BufOk(AfterInstall(s, r), k)
    ensures forall k: Slot :: k != j ==> Kept(s.cache.bufs[k], AfterInstall(s, r).cache.bufs[k])
  {
    LogHolds(s);
    hide BufOk, Kept, Shaped, Installed, HomeOk, PinsCached;
    var s' := AfterInstall(s, r);
    forall k: Slot ensures BufOk(s', k) && (k != j ==> Kept(s.cache.bufs[k], s'.cache.bufs[k])) {
      InstallBuf(s, s', i, j, k);
    }
  }

  lemma InstallHome(s: State, r: Outcome, i: Slot, j: Slot, h: nat)
    requires Shaped(s) && LogAreaOk(s) && s.phase.Installing? && s.phase.t < |s.lh| && r.Wrote?
    requires Installed(s, AfterInstall(s, r), i, j) && Shaped(AfterInstall(s, r))
    requires h < |s.disk| && HomeOk(s, h)
    ensures HomeOk(AfterInstall(s, r), h)
  {
    Unpins(s, h);
  }

  lemma AfterInstallOk(s: State, r: Outcome, i: Slot, j: Slot)
    requires Inv(s) && s.phase.Installing? && s.phase.t < |s.lh| && r.Wrote?
    requires Installed(s, AfterInstall(s, r), i, j)
    ensures Inv(AfterInstall(s, r))
  {
    var s' := AfterInstall(s, r);
    assert |s'.disk| == |s.disk|;
    hide BufOk, HomeOk, LogAreaOk, PinsCached, Shaped, Kept, Installed;
    InstallLogArea(s, r, i, j);
    InstallBufs(s, r, i, j);
    InstallPins(s, s', i, j);
    forall h | 0 <= h < |s'.disk| && !InLog(s.layout, h) ensures HomeOk(s', h) {
      InstallHome(s, r, i, j, h);
    }
  }

  lemma InstallStepKeeps(s: State, s': State)
    requires Inv(s) && s.phase.Installing? && s.phase.t < |s.lh| && InstallStep(s, s')
    ensures Inv(s')
  {
    hide InstallOne, BufOk, HomeOk, PinsCached, ListOk;
    var r := InstallOne(s.disk, s.cache, s.lh[s.phase.t], s.layout.start + 1 + s.phase.t, false);
    var j := PinnedSlot(s, s.lh[s.phase.t]);
    LogAreaCached(s, s.layout.start + 1 + s.phase.t);
    var i := InstallOneSpec(s.disk, s.cache, s.lh[s.phase.t], s.layout.start + 1 + s.phase.t, j, r);
    AfterInstallOk(s, r, i, j);
  }

  lemma CommitKeeps(s: State, s': State)
    requires Inv(s) && Commit(s, s')
    ensures Inv(s')
  {
    if s.phase.Logging? && s.phase.t < |s.lh| {
      LogStepKeeps(s, s');
    } else if s.phase.Logging? && |s.lh| > 0 {
      HeadStepKeeps(s, s');
    } else if s.phase.Installing? && s.phase.t < |s.lh| {
      InstallStepKeeps(s, s');
    } else if s.phase.Installing? {
      ClearStepKeeps(s, s');
    } else {
      PhaseOnly(s, s');
    }
  }

  /** The steps around a commit that only move the phase along. */
  lemma PhaseOnly(s: State, s': State)
    requires Inv(s)
    requires if s.phase.Finished? then s' == s.(phase := Idle)
             else s.phase == Logging(0) && s.lh == [] && s' == s.(phase := Finished)
    ensures Inv(s')
  {
    assert Pinned(s') == Pinned(s);
    forall k: Slot ensures BufOk(s', k) { assert BufOk(s, k); }
    forall h | 0 <= h < |s'.disk| && !InLog(s'.layout, h) ensures HomeOk(s', h) { assert HomeOk(s, h); }
  }

  /** Every step of every thread, and every disk write of a commit, keeps the invariant. */
  lemma NextKeeps(s: State, a: Action, s': State)
    requires Inv(s) && Next(s, a, s')
    ensures Inv(s')
  {
    hide Inv, Begin, End, GetBuffer, LockBuffer, ModifyBuffer, LogBuffer, UnlockBuffer, DropBuffer, Commit;
    match a
    case BeginOp(tid) => OpsKeep(s, tid, s');
    case EndOp(tid) => OpsKeep(s, tid, s');
    case GetBuf(b) => GetKeeps(s, b, s');
    case LockBuf(tid, i) => LockKeeps(s, tid, i, s');
    case Modify(tid, i, data) => ModifyKeeps(s, tid, i, data, s');
    case LogWrite(tid, i) => LogBufferKeeps(s, tid, i, s');
    case UnlockBuf(tid, i) => UnlockKeeps(s, tid, i, s');
    case DropBuf(i) => DropKeeps(s, i, s');
    case CommitStep => CommitKeeps(s, s');
  }

  lemma InitOk(s: State)
    requires Init(s)
    ensures Inv(s)
  {
  }

  // ---------- what holds in every run ----------

  ghost predicate StepBy(s: State, s': State) {
    Shaped(s) && exists a: Action :: Next(s, a, s')
  }

  ghost predicate Run(run: seq<State>) {
    |run| > 0 && Init(run[0]) && forall i :: 0 <= i < |run| - 1 ==> StepBy(run[i], run[i + 1])
  }

  lemma {:induction false} RunKeeps(run: seq<State>, i: nat)
    requires Run(run) && i < |run|
    ensures Inv(run[i])
  {
    hide Inv, Init, Next;
    if i == 0 {
      InitOk(run[0]);
    } else {
      RunKeeps(run, i - 1);
      assert StepBy(run[i - 1], run[i - 1 + 1]);
      var a: Action :| Next(run[i - 1], a, run[i]);
      NextKeeps(run[i - 1], a, run[i]);
    }
  }

  /** Transparency: when bread hands a buffer to its caller, its data is the block as of the
      latest log_write, whatever the cache recycled or commit wrote in the meantime. */
  lemma BreadIsTransparent(run: seq<State>, i: nat, tid: nat, slot: Slot)
    requires Run(run) && i + 1 < |run| && Shaped(run[i]) && LockBuffer(run[i], tid, slot, run[i + 1])
    ensures Shaped(run[i + 1])
    ensures var b := run[i + 1].cache.bufs[slot];
      b.valid && b.dev == ROOTDEV && b.data == run[i + 1].logical[b.blockno]
  {
    RunKeeps(run, i);
    RunKeeps(run, i + 1);
    assert BufOk(run[i], slot) && BufOk(run[i + 1], slot);
  }

  /** A block that log_write pinned stays cached, with the logged data once its user is done,
      until commit has installed it. */
  lemma PinnedStaysCached(run: seq<State>, i: nat, b: nat) returns (slot: Slot)
    requires Run(run) && i < |run| && Shaped(run[i]) && b in Pinned(run[i])
    ensures CachedAt(run[i], slot, b) && run[i].cache.bufs[slot].refcnt == run[i].users[slot] + 1
    ensures b < |run[i].logical|
    ensures !run[i].dirty[slot] ==> run[i].cache.bufs[slot].data == run[i].logical[b]
  {
    RunKeeps(run, i);
    var s := run[i];
    slot :| CachedAt(s, slot, b);
    assert BufOk(s, slot);
    if InLog(s.layout, b) { LogAreaUnpinned(s, b); }
  }

  /** bunpin never underflows: an install step is held up only by a lack of buffers. */
  lemma UnpinIsSafe(s: State)
    requires Inv(s) && s.phase.Installing? && s.phase.t < |s.lh|
    requires ReadPair(s.cache, s.disk, s.layout.start + 1 + s.phase.t, s.lh[s.phase.t]).Pair?
    ensures InstallOne(s.disk, s.cache, s.lh[s.phase.t], s.layout.start + 1 + s.phase.t, false).Wrote?
  {
    hide ReadPair, InstallFinish, HomeOk, BufOk;
    var home, b := s.lh[s.phase.t], s.layout.start + 1 + s.phase.t;
    var j := PinnedSlot(s, home);
    var Pair(c2, lbuf, dbuf) := ReadPair(s.cache, s.disk, b, home);
    ReadPairCached(s.cache, s.disk, b, home, j, c2, lbuf, dbuf);
    InstallFinishes(c2, lbuf, dbuf);
  }

  lemma InstallFinishes(c: Cache, lbuf: Slot, dbuf: Slot)
    requires CacheOk(c) && lbuf != dbuf && c.bufs[lbuf].refcnt >= 1 && c.bufs[dbuf].refcnt >= 2
    ensures InstallFinish(c, lbuf, dbuf, false).Some?
  {
  }

  /** In every reachable state, recovery from the disk as it stands would restore exactly the
      durable contents of every home block. */
  lemma CrashSafe(s: State, b: nat)
    requires Inv(s) && b < |s.disk| && !InLog(s.layout, b)
    ensures Recover(s.layout, s.disk)[b] == s.durable[b]
  {
    hide BufOk, PinsCached, LogAreaOk, HomeOk;
    RecoversHome(s, b);
  }

  lemma RecoversHome(s: State, b: nat)
    requires Shaped(s) && LogAreaOk(s) && b < |s.disk| && !InLog(s.layout, b) && HomeOk(s, b)
    ensures Recover(s.layout, s.disk)[b] == s.durable[b]
  {
    hide CacheOk, Recover, Once, WriteHeader;
    RecoverAt(s.layout, s.disk, b);
    if s.phase.Installing? && b in s.lh {
      var t := IndexOf(s.lh, b);
      assert s.disk[s.layout.start + 1 + t] == s.logical[s.lh[t]];
    } else if s.phase.Installing? {
      assert b !in Pinned(s);
    }
  }

  /** Once commit has finished, everything logged so far is durable. */
  lemma CommittedIsDurable(s: State, b: nat)
    requires Inv(s) && s.phase.Finished? && b < |s.disk| && !InLog(s.layout, b)
    ensures s.durable[b] == s.logical[b] == s.disk[b]
  {
    assert HomeOk(s, b);
  }

  /** durable moves only at the header write, when no operation is outstanding. */
  lemma DurableMoves(s: State, a: Action, s': State)
    requires Inv(s) && Next(s, a, s')
    ensures s'.durable == s.durable || (s'.durable == s'.logical && s'.ops == map[])
  {
    hide BufOk, HomeOk, PinsCached, LogOne, HeadOne, InstallOne, Shaped;
  }

  lemma {:induction false} LatestCommit(run: seq<State>, i: nat) returns (j: nat)
    requires Run(run) && i < |run|
    ensures j <= i && run[j].ops == map[] && run[j].durable == run[j].logical
    ensures forall k :: j <= k <= i ==> run[k].durable == run[j].durable
  {
    hide Inv, Next, Shaped;
    if i == 0 {
      j := 0;
    } else {
      RunKeeps(run, i - 1);
      assert StepBy(run[i - 1], run[i - 1 + 1]);
      var a: Action :| Next(run[i - 1], a, run[i]);
      DurableMoves(run[i - 1], a, run[i]);
      if run[i].durable == run[i - 1].durable {
        j := LatestCommit(run, i - 1);
      } else {
        j := i;
      }
    }
  }

  /** Crash atomicity. Stop any run at any point, between any two disk writes, and let any number
      of further crashes interrupt the recovery: the recovery that completes leaves the log empty
      and every home block as the callers had logged it at the latest commit, a moment at which
      no operation was in progress. So each group of operations is on disk entirely or not at all. */
  lemma CrashAtomicity(run: seq<State>, i: nat, ds: seq<seq<Block>>) returns (j: nat)
    requires Run(run) && i < |run|
    requires var l := run[i].layout; CrashChain(l, ds) && ds[0] == run[i].disk
    ensures j <= i && run[j].ops == map[] && run[j].durable == run[j].logical
    ensures forall k :: j <= k <= i ==> run[k].durable == run[j].logical
    ensures var l := run[i].layout; var last := ds[|ds| - 1];
      && DiskOk(l, last) && |last| == |run[j].logical|
      && ReadHeader(Recover(l, last)[l.start]) == []
      && forall b :: 0 <= b < |last| && !InLog(l, b) ==> Recover(l, last)[b] == run[j].logical[b]
  {
    hide Recover, CrashesInto, HomeOk, BufOk, PinsCached;
    RunKeeps(run, i);
    var s := run[i];
    j := LatestCommit(run, i);
    RecoverySurvivesCrashes(s.layout, ds);
    var last := ds[|ds| - 1];
    assert |Recover(s.layout, last)| == |Recover(s.layout, s.disk)|;
    assert s.durable == run[j].logical;
    forall b | 0 <= b < |last| && !InLog(s.layout, b) ensures Recover(s.layout, last)[b] == s.durable[b] {
      CrashSafe(s, b);
    }
  }
}
