/** When a commit finds the buffers it needs. write_log, write_head and install_trans each want an unreferenced
    buffer for a block of the log area, and every logged block keeps one buffer pinned. */
module LogRoom {
  import opened Blocks
  import opened Counting
  import opened Options
  import opened CacheModel
  import opened Recovery
  import opened CommitSteps
  import opened Storage
  import opened LogCode

  /** Nobody is between bread and brelse. */
  ghost predicate NoUsers(s: State) {
    |s.users| == |s.holder| == NBUF && forall i: Slot :: s.users[i] == 0 && s.holder[i].None?
  }

  /** Each slot of a full cache holds one of the logged blocks, and which one. */
  ghost predicate Pins(s: State, at: seq<nat>, i: nat)
    requires |s.cache.bufs| == NBUF
  {
    i < |at| && i < NBUF && at[i] < |s.lh| && Keyed(s.cache.bufs[i], ROOTDEV, s.lh[at[i]])
  }

  lemma {:induction false} FullSlots(s: State, n: nat) returns (at: seq<nat>)
    requires Inv(s) && !s.phase.Installing? && NoUsers(s) && !AnyFree(s.cache) && n <= NBUF
    ensures |at| == n && Once(at) && |s.cache.bufs| == NBUF && forall i: nat :: i < n ==> Pins(s, at, i)
  {
    if n == 0 {
      at := [];
    } else {
      var rest := FullSlots(s, n - 1);
      assert BufOk(s, n - 1);
      hide Inv, AnyFree;
      var t :| 0 <= t < |s.lh| && s.lh[t] == s.cache.bufs[n - 1].blockno;
      at := rest + [t];
      forall i: nat | i < n ensures Pins(s, at, i) {
        if i < n - 1 { assert Pins(s, rest, i); }
      }
      forall i: nat | i < n - 1 ensures rest[i] != t {
        assert Pins(s, rest, i);
        assert !Clash(s.cache.bufs, i, n - 1);
      }
    }
  }

  /** While nobody uses a buffer, a commit gets through if and only if fewer blocks are logged than there are
      buffers; always, then, if the log area has no more than LOGSIZE blocks. */
  lemma CommitRoom(s: State)
    requires Inv(s) && !s.phase.Installing? && NoUsers(s)
    ensures AnyFree(s.cache) <==> |s.lh| < NBUF
    ensures s.layout.size <= LOGSIZE ==> AnyFree(s.cache)
  {
    if |s.lh| == NBUF {
      FullLogStuck(s);
    } else if !AnyFree(s.cache) {
      var at := FullSlots(s, NBUF);
      forall i: nat | i < NBUF ensures at[i] < |s.lh| { assert Pins(s, at, i); }
      Pigeons(at, |s.lh|);
    }
  }

  lemma Idles(s: State)
    requires NoUsers(s)
    ensures NoneLocked(s) && forall b: nat :: |s.cache.bufs| == NBUF ==> Unlocked(s, b)
  {
  }

  /** The k blocks from base on, in order. */
  function From(base: nat, k: nat): (r: seq<nat>)
    ensures |r| == k && forall j :: 0 <= j < k ==> r[j] == base + j
  {
    seq(k, j => base + j)
  }

  /** The home blocks base..base+k lie inside the disk and outside the log. */
  predicate Homes(l: Layout, size: nat, base: nat, k: nat) {
    base + k <= size && (base + k <= l.start || l.start + l.size <= base)
  }

  /** How many of the first k blocks operation t logs, when each logs ten in turn. */
  function Share(k: nat, t: nat): nat {
    if k <= t * MAXOPBLOCKS then 0 else if k <= (t + 1) * MAXOPBLOCKS then k - t * MAXOPBLOCKS else MAXOPBLOCKS
  }

  function Shares(k: nat): map<nat, nat> {
    map[0 := Share(k, 0), 1 := Share(k, 1), 2 := Share(k, 2)]
  }

  /** Three operations are under way and have logged the first k blocks from base on. */
  ghost predicate Filled(s: State, base: nat, k: nat) {
    NoUsers(s) && s.phase == Idle && s.ops == Shares(k) && s.lh == From(base, k)
  }

  /** A log with no operation under way. */
  ghost predicate Quiet(s: State) {
    NoUsers(s) && s.ops == map[] && s.phase == Idle && s.lh == []
  }

  /** Three operations begin together. */
  method BeginThree(log: Log, ghost base: nat)
    requires log.Valid() && Quiet(log.Now())
    modifies log`outstanding, log`path
    ensures log.Valid() && Filled(log.Now(), base, 0)
  {
    hide Inv, Path, BufferCache.BufferCache.Valid;
    assert log.n == 0 by { assert |log.block[..log.n]| == 0; }
    ghost var s := log.Now();
    InvShape(s);
    var admitted := log.BeginOp(0);
    InvShape(log.Now());
    admitted := log.BeginOp(1);
    InvShape(log.Now());
    admitted := log.BeginOp(2);
    assert log.Now() == s.(ops := map[0 := 0, 1 := 0, 2 := 0]);
  }

  lemma FilledOn(s: State, base: nat, k: nat, s': State)
    requires Filled(s, base, k) && k < LOGSIZE
    requires Adds(s.lh, s.ops, k / MAXOPBLOCKS, base + k, s'.lh, s'.ops)
    requires s'.users == s.users && s'.holder == s.holder && s'.phase == s.phase
    ensures Filled(s', base, k + 1)
  {
    assert base + k !in From(base, k);
    assert s'.lh == From(base, k + 1);
    assert s'.ops == Shares(k + 1);
  }

  lemma FilledRoom(s: State, base: nat, k: nat)
    requires Inv(s) && Filled(s, base, k) && k < LOGSIZE
    ensures Shaped(s) && AnyFree(s.cache) && Unlocked(s, base + k) && k / MAXOPBLOCKS in s.ops
    ensures |s.ops| == 3 && |s.lh| == k
  {
    CommitRoom(s);
    Idles(s);
    hide Inv;
    assert s.ops.Keys == {0, 1, 2};
  }

  /** Each operation logs MAXOPBLOCKS blocks. */
  method FillBlocks(log: Log, base: nat, data: Block)
    requires log.Valid() && Filled(log.Now(), base, 0)
    requires LOGSIZE < log.layout.size && Homes(log.layout, |log.disk|, base, LOGSIZE)
    modifies log.block, log`n, log`path, log.cache, log.cache.buf, log.cache.next, log.cache.prev
    ensures log.cache.buf == old(log.cache.buf) && log.cache.next == old(log.cache.next)
        && log.cache.prev == old(log.cache.prev)
    ensures log.Valid() && Filled(log.Now(), base, LOGSIZE)
  {
    hide Inv, Path, BufferCache.BufferCache.Valid, AnyFree, SameOps, Shaped, Filled, Adds, Unlocked;
    for k := 0 to LOGSIZE
      invariant log.cache.buf == old(log.cache.buf) && log.cache.next == old(log.cache.next)
          && log.cache.prev == old(log.cache.prev)
      invariant log.Valid() && Filled(log.Now(), base, k)
    {
      ghost var s := log.Now();
      FilledRoom(s, base, k);
      var ok := log.WriteBlock(k / MAXOPBLOCKS, base + k, data);
      assert ok;
      FilledOn(s, base, k, log.Now());
    }
  }

  /** With a log area larger than LOGSIZE three operations, none of which exceeds MAXOPBLOCKS, can log as many
      blocks as there are buffers. The commit at the last end_op then finds none and panics. */
  method FillLog(log: Log, base: nat, data: Block) returns (ok: bool)
    requires log.Valid() && Quiet(log.Now())
    requires LOGSIZE < log.layout.size && Homes(log.layout, |log.disk|, base, LOGSIZE)
    modifies log, log.block, log.cache, log.cache.buf, log.cache.next, log.cache.prev
    ensures !ok
  {
    hide Inv, Path, BufferCache.BufferCache.Valid, AnyFree, Settles;
    BeginThree(log, base);
    FillBlocks(log, base, data);
    ghost var s := log.Now();
    InvShape(s);
    Idles(s);
    CommitRoom(s);
    ok := log.EndOp(0);
    ok := log.EndOp(1);
    ok := log.EndOp(2);
  }
}
