/** kernel/log.c as it is written, over the linked buffer cache: loops that copy, write and
    release one block at a time. Every operation is proved to take steps of the storage machine,
    and recovery to perform exactly the writes that Recovery reasons about. */
module LogCode {
  import opened Blocks
  import opened Counting
  import opened Options
  import opened CacheModel
  import opened Recovery
  import opened CommitSteps
  import opened Storage
  import BufferCache

  /** Steps of the storage machine, one after another. */
  ghost predicate Path(p: seq<State>) {
    |p| > 0 && forall i :: 0 <= i < |p| - 1 ==> StepBy(p[i], p[i + 1])
  }

  lemma PathExtends(p: seq<State>, s: State)
    requires Path(p) && StepBy(p[|p| - 1], s)
    ensures Path(p + [s])
  {
    hide StepBy;
    var q := p + [s];
    forall i | 0 <= i < |q| - 1 ensures StepBy(q[i], q[i + 1]) {
      if i < |p| - 1 { assert StepBy(p[i], p[i + 1]); }
    }
  }

  class Log {
    const layout: Layout
    const cache: BufferCache.BufferCache
    const block: array<nat>      // log.lh.block
    var n: nat                   // log.lh.n
    var outstanding: nat
    var committing: bool
    var disk: seq<Block>
    ghost var path: seq<State>   // the machine states passed through so far

    ghost function Now(): State
      reads this
      requires |path| > 0
    {
      path[|path| - 1]
    }

    ghost predicate Sound()
      reads this, cache, cache.buf, cache.next, cache.prev, block
    {
      && cache.Valid() && block.Length == LOGSIZE && n <= LOGSIZE
      && block != cache.next && block != cache.prev
    }

    /** The fields hold machine state s. */
    ghost predicate Is(s: State)
      reads this, cache, cache.buf, cache.next, cache.prev, block
    {
      && Sound()
      && s.layout == layout && s.disk == disk && s.cache == cache.Model()
      && s.lh == block[..n] && |s.ops| == outstanding
      && (committing <==> !s.phase.Idle?)
    }

    /** The fields hold the machine's current state, and the machine's invariant holds. */
    ghost predicate Valid()
      reads this, cache, cache.buf, cache.next, cache.prev, block
    {
      |path| > 0 && Path(path) && Inv(Now()) && Is(Now())
    }

    /** The machine takes a step to the state the fields now hold. */
    ghost method Record(s: State, a: Action)
      requires |path| > 0 && Path(path) && Inv(Now()) && Next(Now(), a, s) && Is(s)
      modifies `path
      ensures Valid() && path == old(path) + [s] && Now() == s
    {
      assert Shaped(Now());
      hide Next, Inv, Shaped;
      NextKeeps(Now(), a, s);
      assert StepBy(Now(), s);
      PathExtends(path, s);
      path := path + [s];
    }

    /** A machine just switched on: the disk as the last crash left it and an empty cache. */
    constructor (l: Layout, image: seq<Block>, zero: Block)
      ensures layout == l && disk == image && n == 0 && outstanding == 0 && !committing
      ensures Sound() && fresh(cache) && fresh(cache.buf) && fresh(cache.next) && fresh(cache.prev) && fresh(block)
      ensures cache.Model().bufs == seq(NBUF, _ => Buf(false, 0, 0, 0, zero))
    {
      layout := l;
      cache := new BufferCache.BufferCache(zero);
      block := new nat[LOGSIZE](_ => 0);
      n, outstanding, committing, disk, path := 0, 0, false, image, [];
    }

    // ---------- what a caller of the log does with buffers ----------

    /** bget for a home block; None is its panic. */
    method GetBuffer(b: nat) returns (r: Option<Slot>)
      requires Valid() && b < |disk| && !InLog(layout, b)
      modifies `path, cache.buf
      ensures Valid()
      ensures r.None? <==>
        !AnyFree(old(cache.Model())) && forall j: Slot :: !Keyed(old(cache.Model()).bufs[j], ROOTDEV, b)
      ensures r.None? ==> path == old(path)
      ensures r.Some? ==>
        && Shaped(old(Now())) && Next(old(Now()), GetBuf(b), Now()) && path == old(path) + [Now()]
        && Get(old(Now()).cache, ROOTDEV, b).Got? && Get(old(Now()).cache, ROOTDEV, b).slot == r.value
    {
      hide Inv, Path, BufferCache.BufferCache.Valid, CacheOk, Next, Get, AnyFree, Shaped;
      ghost var s := Now();
      ShapedNow(s);
      GetTaken(s, b);
      r := cache.Bget(ROOTDEV, b);
      if r.Some? {
        Record(s.(cache := cache.Model(), users := s.users[r.value := s.users[r.value] + 1]), GetBuf(b));
      }
    }

    lemma BufAt(i: Slot)
      requires Valid()
      ensures cache.buf.Length == NBUF && |Now().cache.bufs| == NBUF && cache.buf[i] == Now().cache.bufs[i]
    {
      hide Inv, Path;
    }

    /** acquiresleep has returned; an invalid buffer is now read. */
    method LockBuffer(tid: nat, i: Slot)
      requires Valid() && Shaped(Now()) && Now().users[i] > 0 && Now().holder[i].None? && cache.buf[i].dev == ROOTDEV
      modifies `path, cache.buf
      ensures Valid() && Shaped(old(Now())) && Next(old(Now()), LockBuf(tid, i), Now()) && path == old(path) + [Now()]
    {
      hide Inv, Path, BufferCache.Linked, ListOk, DiskOk;
      ghost var s := Now();
      if !cache.buf[i].valid {
        cache.buf[i] := cache.buf[i].(valid := true, data := disk[cache.buf[i].blockno]);
      }
      Record(s.(cache := Fill(s.cache, s.disk, i), holder := s.holder[i := Some(tid)]), LockBuf(tid, i));
    }

    /** A thread inside an operation changes a buffer it has locked. */
    method ModifyBuffer(tid: nat, i: Slot, data: Block)
      requires Valid() && Shaped(Now()) && Now().holder[i] == Some(tid) && tid in Now().ops
      modifies `path, cache.buf
      ensures Valid() && Shaped(old(Now())) && Next(old(Now()), Modify(tid, i, data), Now())
          && path == old(path) + [Now()]
    {
      hide Inv, Path, BufferCache.Linked, ListOk, DiskOk;
      ghost var s := Now();
      cache.buf[i] := cache.buf[i].(data := data);
      Record(s.(cache := SetData(s.cache, i, data), dirty := s.dirty[i := true]), Modify(tid, i, data));
    }

    /** brelse: the sleep lock goes, then the reference. */
    method ReleaseBuffer(tid: nat, i: Slot)
      requires Valid() && Shaped(Now()) && Now().holder[i] == Some(tid) && !Now().dirty[i]
      modifies `path, cache, cache.buf, cache.next, cache.prev
      ensures cache.buf == old(cache.buf) && cache.next == old(cache.next) && cache.prev == old(cache.prev)
      ensures Valid() && Shaped(old(Now())) && |path| == |old(path)| + 2 && old(path) <= path
      ensures
        var s := path[|path| - 2];
        Shaped(s) && Next(old(Now()), UnlockBuf(tid, i), s) && Next(s, DropBuf(i), Now())
    {
      hide Path, BufferCache.Linked, ListOk, DiskOk, Release;
      ghost var s := Now();
      HeldCounted(s, i);
      hide Inv;
      ghost var s1 := s.(holder := s.holder[i := None]);
      Record(s1, UnlockBuf(tid, i));
      InvShape(s1);
      cache.Brelse(i);
      Record(s1.(cache := cache.Model(), users := s1.users[i := s1.users[i] - 1]), DropBuf(i));
    }

    /** bread of a home block whose sleep lock is free: the caller sees the contents last logged. */
    method ReadBuffer(tid: nat, b: nat) returns (r: Option<Slot>)
      requires Valid() && b < |disk| && !InLog(layout, b) && Shaped(Now()) && Unlocked(Now(), b)
      modifies `path, cache.buf
      ensures Valid() && Shaped(Now()) && old(path) <= path
      ensures r.None? <==>
        !AnyFree(old(cache.Model())) && forall j: Slot :: !Keyed(old(cache.Model()).bufs[j], ROOTDEV, b)
      ensures r.None? ==> path == old(path)
      ensures r.Some? ==>
        && Held(old(Now()), Now(), r.value, Some(tid)) && Now().logical == old(Now()).logical
          && Now().dirty == old(Now()).dirty
        && UsersAt(old(Now()), Now(), r.value, 1) && SameOps(old(path), path)
        && old(Now()).holder[r.value].None?
        && Keyed(cache.buf[r.value], ROOTDEV, b) && cache.buf[r.value].data == Now().logical[b]
    {
      hide Inv, Path, CacheOk, BufferCache.BufferCache.Valid, Next, Shaped, Get, SameOps;
      ghost var s := Now();
      SameOpsSelf(path);
      r := GetBuffer(b);
      if r.Some? {
        ghost var s1 := Now();
        GotReady(s, b, r.value, s1);
        GotUsers(s, b, r.value, s1);
        SameOpsOn(old(path), old(path), s1);
        BufAt(r.value);
        LockBuffer(tid, r.value);
        LockedReady(s1, tid, r.value, b, Now());
        SameOpsOn(old(path), old(path) + [s1], Now());
        BufAt(r.value);
      }
      ShapedNow(Now());
    }

    /** What every change to a home block is made of: bread, the change, log_write and brelse. It does not get
        through only if bget or log_write panics. */
    method WriteBlock(tid: nat, b: nat, data: Block) returns (ok: bool)
      requires Valid() && b < |disk| && !InLog(layout, b) && Shaped(Now()) && Unlocked(Now(), b) && tid in Now().ops
      modifies block, `n, `path, cache, cache.buf, cache.next, cache.prev
      ensures cache.buf == old(cache.buf) && cache.next == old(cache.next) && cache.prev == old(cache.prev)
      ensures
        var stuck := !AnyFree(old(cache.Model())) && forall j: Slot :: !Keyed(old(cache.Model()).bufs[j], ROOTDEV, b);
        ok <==> !stuck && !LogWritePanics(layout.size, old(n), outstanding)
      ensures ok ==>
        && Valid() && Shaped(Now()) && Now().logical == old(Now()).logical[b := data]
        && Adds(old(Now()).lh, old(Now()).ops, tid, b, Now().lh, Now().ops)
        && Now().holder == old(Now()).holder && Now().users == old(Now()).users && Now().phase == old(Now()).phase
        && SameOps(old(path), path)
    {
      hide Inv, Path, CacheOk, BufferCache.BufferCache.Valid, Next, Shaped, Get, AnyFree, SameOps, Adds;
      ok := false;
      ghost var s := Now();
      var r := ReadBuffer(tid, b);
      if r.None? { return; }
      var i := r.value;
      ghost var s1 := Now();
      BufAt(i);
      ModifyBuffer(tid, i, data);
      ghost var s2 := Now();
      ModifiedReady(s1, tid, i, data, s2);
      SameOpsOn(old(path), path[..|path| - 1], s2);
      BufAt(i);
      ghost var p := path;
      var panicked := LogWrite(tid, i);
      if panicked { return; }
      LoggedReady(s2, tid, i, Now(), b, data);
      ghost var s3 := Now();
      SameOpsOn(old(path), p, s3);
      p := path;
      ReleaseBuffer(tid, i);
      ReleasedReady(s3, tid, i, path[|path| - 2], Now());
      SameOpsOn(old(path), p, path[|path| - 2]);
      SameOpsOn(old(path), p + [path[|path| - 2]], Now());
      assert path == p + [path[|path| - 2]] + [Now()];
      ok := true;
    }

    /** bread. */
    method Bread(b: nat) returns (r: Option<Slot>)
      requires Sound() && CacheOk(cache.Model()) && b < |disk|
      modifies cache.buf
      ensures Sound()
      ensures match Read(old(cache.Model()), disk, ROOTDEV, b)
              case Got(c, i) => r == Some(i) && cache.Model() == c
              case NoBuffers => r == None
    {
      GetSpec(cache.Model(), ROOTDEV, b);
      r := cache.Bget(ROOTDEV, b);
      if r.Some? {
        var i := r.value;
        if !cache.buf[i].valid {
          cache.buf[i] := cache.buf[i].(valid := true, data := disk[b]);
        }
      }
    }

    /** One pass through the loop of write_log; false stands for bget's panic. */
    method WriteLogBlock(tail: nat) returns (ok: bool)
      requires Sound() && CacheOk(cache.Model()) && tail < n
      requires layout.start + tail + 1 < |disk| && block[tail] < |disk| && block[tail] != layout.start + tail + 1
      modifies `disk, cache, cache.buf, cache.next, cache.prev
      ensures cache.buf == old(cache.buf) && cache.next == old(cache.next) && cache.prev == old(cache.prev)
      ensures ok ==> Sound()
      ensures match LogOne(old(disk), old(cache.Model()), block[tail], layout.start + 1 + tail)
              case Stuck => !ok
              case Wrote(d, c) => ok && disk == d && cache.Model() == c
    {
      hide Read, ListOk, BufferCache.Linked, LogFinish, InstallFinish;
      ok := false;
      ghost var c0 := cache.Model();
      ReadSpec(c0, disk, layout.start + 1 + tail);
      var to := Bread(layout.start + tail + 1);
      if to.None? { return; }
      ghost var c1 := cache.Model();
      var from := Bread(block[tail]);
      if from.None? { return; }
      ghost var c2 := cache.Model();
      ReadPairOk(c0, disk, layout.start + 1 + tail, block[tail], c2, to.value, from.value);
      disk := disk[layout.start + tail + 1 := cache.buf[from.value].data];
      CopyToLog(to.value, from.value);
      ok := true;
    }

    /** The copy and the two releases in the loop of write_log. */
    method CopyToLog(to: Slot, from: Slot)
      requires Sound() && CacheOk(cache.Model()) && to != from
      requires cache.buf[to].refcnt >= 1 && cache.buf[from].refcnt >= 1
      modifies cache, cache.buf, cache.next, cache.prev
      ensures cache.buf == old(cache.buf) && cache.next == old(cache.next) && cache.prev == old(cache.prev)
      ensures Sound() && cache.Model() == LogFinish(old(cache.Model()), to, from)
    {
      hide ListOk, BufferCache.Linked;
      ghost var c := cache.Model();
      cache.buf[to] := cache.buf[to].(data := cache.buf[from].data);
      SameKeys(c.bufs, cache.Model().bufs);
      ReleaseSpec(cache.Model(), from);
      cache.Brelse(from);
      cache.Brelse(to);
    }

    /** One pass through the loop of install_trans. */
    method InstallBlock(tail: nat, recovering: bool) returns (ok: bool)
      requires Sound() && CacheOk(cache.Model()) && tail < n
      requires layout.start + tail + 1 < |disk| && block[tail] < |disk| && block[tail] != layout.start + tail + 1
      modifies `disk, cache, cache.buf, cache.next, cache.prev
      ensures cache.buf == old(cache.buf) && cache.next == old(cache.next) && cache.prev == old(cache.prev)
      ensures ok ==> Sound()
      ensures match InstallOne(old(disk), old(cache.Model()), block[tail], layout.start + 1 + tail, recovering)
              case Stuck => !ok
              case Wrote(d, c) => ok && disk == d && cache.Model() == c
    {
      hide Read, ListOk, BufferCache.Linked, LogFinish, InstallFinish;
      ok := false;
      ghost var c0 := cache.Model();
      ReadSpec(c0, disk, layout.start + 1 + tail);
      var lbuf := Bread(layout.start + tail + 1);
      if lbuf.None? { return; }
      var dbuf := Bread(block[tail]);
      if dbuf.None? { return; }
      ReadPairOk(c0, disk, layout.start + 1 + tail, block[tail], cache.Model(), lbuf.value, dbuf.value);
      disk := disk[block[tail] := cache.buf[lbuf.value].data];
      ok := CopyAndRelease(lbuf.value, dbuf.value, recovering);
    }

    /** The copy, the unpinning and the two releases in the loop of install_trans. */
    method CopyAndRelease(lbuf: Slot, dbuf: Slot, recovering: bool) returns (ok: bool)
      requires Sound() && CacheOk(cache.Model()) && lbuf != dbuf
      requires cache.buf[lbuf].refcnt >= 1 && cache.buf[dbuf].refcnt >= 1
      modifies cache, cache.buf, cache.next, cache.prev
      ensures cache.buf == old(cache.buf) && cache.next == old(cache.next) && cache.prev == old(cache.prev)
      ensures ok ==> Sound()
      ensures match InstallFinish(old(cache.Model()), lbuf, dbuf, recovering)
              case None => !ok
              case Some(c) => ok && cache.Model() == c
    {
      ok := false;
      ghost var c := cache.Model();
      cache.buf[dbuf] := cache.buf[dbuf].(data := cache.buf[lbuf].data);
      SameKeys(c.bufs, cache.Model().bufs);
      if !recovering {
        if cache.buf[dbuf].refcnt < 2 { return; }
        cache.Bunpin(dbuf);
        SameKeys(c.bufs, cache.Model().bufs);
      }
      ReleaseSpec(cache.Model(), lbuf);
      cache.Brelse(lbuf);
      cache.Brelse(dbuf);
      ok := true;
    }

    /** The copying loop of write_head. */
    method FillHeader(was: Block) returns (data: Block)
      requires block.Length == LOGSIZE && n <= LOGSIZE
      ensures data == WriteHeader(was, block[..n])
    {
      data := was[0 := n];
      for i := 0 to n
        invariant data == [n] + block[..i] + was[1 + i..]
      {
        assert data[1 + i := block[i]] == [n] + block[..i + 1] + was[2 + i..];
        data := data[1 + i := block[i]];
      }
    }

    /** write_head. */
    method WriteHead() returns (ok: bool)
      requires Sound() && CacheOk(cache.Model()) && layout.start < |disk|
      modifies `disk, cache, cache.buf, cache.next, cache.prev
      ensures cache.buf == old(cache.buf) && cache.next == old(cache.next) && cache.prev == old(cache.prev)
      ensures ok ==> Sound()
      ensures match HeadOne(layout, old(disk), old(cache.Model()), block[..n])
              case Stuck => !ok
              case Wrote(d, c) => ok && disk == d && cache.Model() == c
    {
      ok := false;
      ReadSpec(cache.Model(), disk, layout.start);
      var r := Bread(layout.start);
      if r.None? { return; }
      hide WriteHeader, ListOk, BufferCache.Linked;
      var data := FillHeader(cache.buf[r.value].data);
      cache.buf[r.value] := cache.buf[r.value].(data := data);
      disk := disk[layout.start := data];
      cache.Brelse(r.value);
      ok := true;
    }

    /** write_log: one machine step per block. */
    method WriteLog() returns (ok: bool)
      requires Valid() && Now().phase == Logging(0) && NoneLocked(Now())
      modifies `disk, `path, cache, cache.buf, cache.next, cache.prev
      ensures cache.buf == old(cache.buf) && cache.next == old(cache.next) && cache.prev == old(cache.prev)
      ensures ok <==> n == 0 || AnyFree(old(cache.Model()))
      ensures ok ==> Valid() && Now().phase == Logging(n) && Continues(old(path), path)
      ensures ok && n > 0 ==> AnyFree(cache.Model())
    {
      hide Inv, Path, Next, LogOne, CacheOk, BufferCache.Linked, ListOk, NoneLocked, Continues, CommitFrame, AnyFree;
      ok := true;
      ContinuesSelf(path);
      for tail := 0 to n
        modifies `disk, `path, cache, cache.buf, cache.next, cache.prev
        invariant cache.buf == old(cache.buf) && cache.next == old(cache.next) && cache.prev == old(cache.prev)
        invariant Valid() && Now().phase == Logging(tail) && Continues(old(path), path) && NoneLocked(Now()) && ok
        invariant AnyFree(old(cache.Model())) <==> AnyFree(cache.Model())
        invariant tail > 0 ==> AnyFree(cache.Model())
      {
        ghost var s := Now();
        LogTarget(s, tail);
        LogRuns(s, tail);
        ok := WriteLogBlock(tail);
        if !ok { return; }
        LogTaken(s, tail, disk, cache.Model());
        ContinuesOn(old(path), path, AfterLog(s, Wrote(disk, cache.Model())));
        Record(AfterLog(s, Wrote(disk, cache.Model())), CommitStep);
      }
    }

    /** install_trans(0): one machine step per block. */
    method InstallTrans() returns (ok: bool)
      requires Valid() && Now().phase == Installing(0) && NoneLocked(Now())
      modifies `disk, `path, cache, cache.buf, cache.next, cache.prev
      ensures cache.buf == old(cache.buf) && cache.next == old(cache.next) && cache.prev == old(cache.prev)
      ensures ok <==> n == 0 || AnyFree(old(cache.Model()))
      ensures ok ==> Valid() && Now().phase == Installing(n) && Continues(old(path), path)
      ensures ok && n > 0 ==> AnyFree(cache.Model())
    {
      hide Inv, Path, Next, InstallOne, CacheOk, BufferCache.Linked, ListOk, NoneLocked, Continues, CommitFrame,
        AnyFree;
      ok := true;
      ContinuesSelf(path);
      for tail := 0 to n
        modifies `disk, `path, cache, cache.buf, cache.next, cache.prev
        invariant cache.buf == old(cache.buf) && cache.next == old(cache.next) && cache.prev == old(cache.prev)
        invariant Valid() && Now().phase == Installing(tail) && Continues(old(path), path) && NoneLocked(Now()) && ok
        invariant AnyFree(old(cache.Model())) <==> AnyFree(cache.Model())
        invariant tail > 0 ==> AnyFree(cache.Model())
      {
        ghost var s := Now();
        LogTarget(s, tail);
        InstallRuns(s, tail);
        ok := InstallBlock(tail, false);
        if !ok { return; }
        InstallTaken(s, tail, disk, cache.Model());
        ContinuesOn(old(path), path, AfterInstall(s, Wrote(disk, cache.Model())));
        Record(AfterInstall(s, Wrote(disk, cache.Model())), CommitStep);
      }
    }

    /** The write_head that commits. */
    method CommitHead() returns (ok: bool)
      requires Valid() && Now().phase == Logging(n) && n > 0
      modifies `disk, `path, cache, cache.buf, cache.next, cache.prev
      ensures cache.buf == old(cache.buf) && cache.next == old(cache.next) && cache.prev == old(cache.prev)
      ensures ok <==> AnyFree(old(cache.Model()))
      ensures ok ==> Valid() && Now().phase == Installing(0) && Continues(old(path), path) && AnyFree(cache.Model())
    {
      hide Inv, Path, Next, HeadOne, CacheOk, BufferCache.Linked, ListOk, Continues, CommitFrame, AnyFree;
      ContinuesSelf(path);
      ghost var s := Now();
      HeadTarget(s);
      HeadRuns(s, s.lh);
      ok := WriteHead();
      if !ok { return; }
      HeadTaken(s, disk, cache.Model());
      ContinuesOn(old(path), path, AfterHead(s, Wrote(disk, cache.Model())));
      Record(AfterHead(s, Wrote(disk, cache.Model())), CommitStep);
    }

    /** log.lh.n = 0 and the write_head that erases the transaction. */
    method ClearHead() returns (ok: bool)
      requires Valid() && Now().phase == Installing(n)
      modifies `disk, `path, `n, cache, cache.buf, cache.next, cache.prev
      ensures cache.buf == old(cache.buf) && cache.next == old(cache.next) && cache.prev == old(cache.prev)
      ensures ok <==> AnyFree(old(cache.Model()))
      ensures ok ==> Valid() && Now().phase == Finished && n == 0 && Continues(old(path), path)
    {
      hide Inv, Path, Next, HeadOne, CacheOk, BufferCache.Linked, ListOk, Continues, CommitFrame, AnyFree;
      ContinuesSelf(path);
      ghost var s := Now();
      HeadTarget(s);
      HeadRuns(s, []);
      n := 0;
      assert block[..n] == [];
      ok := WriteHead();
      if !ok { return; }
      ClearTaken(s, disk, cache.Model());
      ContinuesOn(old(path), path, AfterClear(s, Wrote(disk, cache.Model())));
      Record(AfterClear(s, Wrote(disk, cache.Model())), CommitStep);
    }

    /** commit: every disk write is one step of the machine, in the order the machine allows. It gets through,
        unless bget panics: if and only if nothing was logged or some buffer is unreferenced. */
    method CommitTransaction() returns (ok: bool)
      requires Valid() && Now().phase == Logging(0) && NoneLocked(Now())
      modifies `disk, `path, `n, cache, cache.buf, cache.next, cache.prev
      ensures cache.buf == old(cache.buf) && cache.next == old(cache.next) && cache.prev == old(cache.prev)
      ensures ok <==> old(n) == 0 || AnyFree(old(cache.Model()))
      ensures ok ==> Valid() && Now().phase == Finished && n == 0 && Continues(old(path), path)
    {
      hide Inv, Path, Next, CacheOk, BufferCache.Linked, ListOk, BufferCache.BufferCache.Valid, AnyFree;
      ok := true;
      if n > 0 {
        ok := WriteLog();
        if !ok { return; }
        ok := CommitHead();
        if !ok { return; }
        ok := InstallTrans();
        if !ok { return; }
        ok := ClearHead();
      } else {
        ghost var s := Now();
        NothingToCommit(s);
        Record(s.(phase := Finished), CommitStep);
      }
    }

    /** begin_op's test; a caller that is not admitted sleeps and tries again. */
    method BeginOp(tid: nat) returns (admitted: bool)
      requires Valid() && tid !in Now().ops
      modifies `outstanding, `path
      ensures Valid()
      ensures admitted <==> !committing && n + (old(outstanding) + 1) * MAXOPBLOCKS <= LOGSIZE
      ensures admitted ==> Next(old(Now()), Storage.BeginOp(tid), Now()) && path == old(path) + [Now()]
      ensures !admitted ==> path == old(path)
    {
      hide Inv, Path, CacheOk, BufferCache.BufferCache.Valid;
      admitted := false;
      if committing {
      } else if n + (outstanding + 1) * MAXOPBLOCKS > LOGSIZE {
      } else {
        ghost var s := Now();
        outstanding := outstanding + 1;
        Record(s.(ops := s.ops[tid := 0]), Storage.BeginOp(tid));
        admitted := true;
      }
    }

    /** log_write, with its scan for absorption. */
    method LogWrite(tid: nat, b: Slot) returns (panicked: bool)
      requires Valid() && |Now().holder| == NBUF && Now().holder[b] == Some(tid) && tid in Now().ops
      requires cache.buf[b].dev == ROOTDEV
      modifies block, `n, `path, cache.buf
      ensures panicked <==> LogWritePanics(layout.size, old(n), outstanding)
      ensures panicked ==> path == old(path) && Valid()
      ensures !panicked ==> Valid() && Next(old(Now()), Storage.LogWrite(tid, b), Now()) && path == old(path) + [Now()]
    {
      hide Inv, Path, CacheOk, BufferCache.Linked, ListOk;
      ghost var s := Now();
      InvShape(s);
      panicked := true;
      if n >= LOGSIZE || n >= layout.size - 1 { return; }
      if outstanding < 1 { return; }
      panicked := false;
      var i := 0;
      while i < n && block[i] != cache.buf[b].blockno
        invariant i <= n && forall k :: 0 <= k < i ==> block[k] != cache.buf[b].blockno
      {
        i := i + 1;
      }
      ghost var lh := block[..n];
      assert cache.buf[b].blockno in lh <==> i < n;
      block[i] := cache.buf[b].blockno;
      assert i < n ==> block[..n] == lh;
      if i == n {
        cache.Bpin(b);
        n := n + 1;
        assert block[..n] == lh + [cache.buf[b].blockno];
      }
      ghost var s' := Logged(s, tid, b);
      Record(s', Storage.LogWrite(tid, b));
    }

    /** end_op. The check for a commit in progress cannot fail. When the last operation ends, the
        commit leaves every home block on disk as it was last logged. */
    method EndOp(tid: nat) returns (ok: bool)
      requires Valid() && tid in Now().ops && |Now().holder| == |Now().dirty| == NBUF
      requires forall i: Slot :: Now().holder[i] == Some(tid) ==> !Now().dirty[i]
      requires outstanding == 1 ==> NoneLocked(Now())
      modifies `outstanding, `committing, `disk, `path, `n, cache, cache.buf, cache.next, cache.prev
      ensures cache.buf == old(cache.buf) && cache.next == old(cache.next) && cache.prev == old(cache.prev)
      ensures old(!committing)
      ensures ok <==> old(outstanding) > 1 || old(n) == 0 || AnyFree(old(cache.Model()))
      ensures old(outstanding) > 1 ==>
        Valid() && Next(old(Now()), Storage.EndOp(tid), Now()) && path == old(path) + [Now()]
      ensures ok && old(outstanding) == 1 ==>
        && Valid() && !committing && outstanding == 0 && n == 0
        && |disk| == |old(Now().logical)|
        && (forall h :: 0 <= h < |disk| && !InLog(layout, h) ==> disk[h] == old(Now().logical)[h])
        && Settles(old(path), path)
    {
      hide Inv, Path, CacheOk, BufferCache.BufferCache.Valid, Next, AnyFree;
      ghost var s := Now();
      InvShape(s);
      EndingOp(s, tid);
      var doCommit := false;
      outstanding := outstanding - 1;
      assert !committing;
      if outstanding == 0 {
        doCommit := true;
        committing := true;
      }
      Record(Ended(s, tid), Storage.EndOp(tid));
      ok := true;
      if doCommit {
        ok := CommitTransaction();
        if !ok { return; }
        ghost var f := Now();
        CommitEnds(s, f);
        committing := false;
        Record(f.(phase := Idle), CommitStep);
      }
    }

    /** read_head. */
    method ReadHead()
      requires Sound() && DiskOk(layout, disk) && AllClean(cache.Model(), disk)
      modifies block, `n, cache, cache.buf, cache.next, cache.prev
      ensures cache.buf == old(cache.buf) && cache.next == old(cache.next) && cache.prev == old(cache.prev)
      ensures Sound() && AllClean(cache.Model(), disk)
      ensures block[..n] == ReadHeader(disk[layout.start])
    {
      hide Read, ListOk, BufferCache.Linked;
      CleanRead(cache.Model(), disk, layout.start);
      var r := Bread(layout.start);
      var data := cache.buf[r.value].data;
      n := data[0];
      for i := 0 to n
        modifies block
        invariant block[..i] == data[1..1 + i]
      {
        block[i] := data[1 + i];
      }
      CleanRelease(cache.Model(), disk, r.value);
      cache.Brelse(r.value);
    }

    /** recover_from_log. It never panics, passes through exactly the disk images of Recovery, and
        leaves the machine in an initial state. */
    method RecoverFromLog() returns (ghost images: seq<seq<Block>>)
      requires Sound() && DiskOk(layout, disk) && AllClean(cache.Model(), disk)
      requires outstanding == 0 && !committing
      modifies this, block, cache, cache.buf, cache.next, cache.prev
      ensures cache.buf == old(cache.buf) && cache.next == old(cache.next) && cache.prev == old(cache.prev)
      ensures |images| == |RecoveryWrites(layout, old(disk))| + 1
      ensures forall k :: 0 <= k < |images| ==> images[k] == CrashedRecovery(layout, old(disk), k)
      ensures disk == images[|images| - 1] == Recover(layout, old(disk))
      ensures n == 0 && Valid() && |path| == 1 && Init(Now())
    {
      hide Read, Recover, CrashedRecovery, RecoveryWrites, ListOk, BufferCache.Linked, InstallOne, HeadOne, AllClean,
        Inv, Init;
      ghost var d0 := disk;
      ReadHead();
      ghost var lh := block[..n];
      images := [d0];
      RecoveryImage(layout, d0, 0);
      for tail := 0 to n
        modifies `disk, cache, cache.buf, cache.next, cache.prev
        invariant cache.buf == old(cache.buf) && cache.next == old(cache.next) && cache.prev == old(cache.prev)
        invariant Sound() && AllClean(cache.Model(), disk)
        invariant |images| == tail + 1 && disk == images[tail]
        invariant tail <= |RecoveryWrites(layout, d0)|
        invariant forall k :: 0 <= k < |images| ==> images[k] == CrashedRecovery(layout, d0, k)
      {
        RecoveryImage(layout, d0, tail);
        RecoveryInstall(layout, d0, disk, cache.Model(), tail);
        var ok := InstallBlock(tail, true);
        assert ok;
        images := images + [disk];
      }
      RecoveryImage(layout, d0, n);
      ghost var m := n;
      n := 0;
      assert block[..n] == [];
      RecoveryClear(layout, d0, disk, cache.Model());
      var ok := WriteHead();
      assert ok;
      images := images + [disk];
      Booted(layout, disk, cache.Model());
      path := [Boot(layout, disk, cache.Model())];
      InitOk(Now());
    }
  }

  /** From s to s' only who holds slot i has changed, as far as callers can tell. */
  ghost predicate Held(s: State, s': State, i: Slot, who: Option<nat>) {
    && |s.holder| == NBUF && s'.holder == s.holder[i := who] && s'.ops == s.ops && s'.lh == s.lh && s'.phase == s.phase
    && s'.layout == s.layout && |s'.disk| == |s.disk|
  }

  /** Operation tid logs block b: absorbed if it is there already, and otherwise added and counted. */
  ghost predicate Adds(lh: seq<nat>, ops: map<nat, nat>, tid: nat, b: nat, lh': seq<nat>, ops': map<nat, nat>) {
    tid in ops && if b in lh then lh' == lh && ops' == ops else lh' == lh + [b] && ops' == ops[tid := ops[tid] + 1]
  }

  /** Slot i has n users more, or fewer, in s' than in s; every other slot has as many. */
  ghost predicate UsersAt(s: State, s': State, i: Slot, n: int) {
    |s.users| == NBUF && s.users[i] + n >= 0 && s'.users == s.users[i := s.users[i] + n]
  }

  /** A longer path with the same beginning, on which the same operations stay outstanding. */
  ghost predicate SameOps(p: seq<State>, q: seq<State>) {
    |p| > 0 && p <= q && forall k :: |p| <= k < |q| ==> q[k].ops.Keys == p[|p| - 1].ops.Keys
  }

  lemma SameOpsSelf(p: seq<State>)
    requires |p| > 0
    ensures SameOps(p, p)
  {
  }

  lemma SameOpsOn(p: seq<State>, q: seq<State>, s: State)
    requires SameOps(p, q) && s.ops.Keys == q[|q| - 1].ops.Keys
    ensures SameOps(p, q + [s])
  {
    assert q[|q| - 1].ops.Keys == p[|p| - 1].ops.Keys;
  }

  lemma SameOpsTrans(p: seq<State>, q: seq<State>, r: seq<State>)
    requires SameOps(p, q) && SameOps(q, r)
    ensures SameOps(p, r)
  {
    assert q[|q| - 1].ops.Keys == p[|p| - 1].ops.Keys;
  }

  lemma ShapedNow(s: State)
    requires Inv(s)
    ensures Shaped(s)
  {
  }

  /** A held buffer is referenced. */
  lemma HeldCounted(s: State, i: Slot)
    requires Inv(s) && s.holder[i].Some?
    ensures s.users[i] >= 1 && s.cache.bufs[i].refcnt >= 1
  {
    assert BufOk(s, i);
  }

  lemma GetTaken(s: State, b: nat)
    requires Shaped(s) && b < |s.disk| && !InLog(s.layout, b)
    ensures |s.users| == NBUF && |s.cache.bufs| == NBUF
    ensures var r := Get(s.cache, ROOTDEV, b);
      && (r.NoBuffers? <==> !AnyFree(s.cache) && forall j: Slot :: !Keyed(s.cache.bufs[j], ROOTDEV, b))
      && (r.Got? ==> Next(s, GetBuf(b), s.(cache := r.cache, users := s.users[r.slot := s.users[r.slot] + 1])))
  {
    hide DiskOk, ListOk, LeastRecent;
    ReadStuck(s.cache, s.disk, b);
  }

  /** After bget, a buffer that nobody had locked is ready to be locked. */
  lemma GotReady(s: State, b: nat, i: Slot, s': State)
    requires Inv(s) && Inv(s') && Shaped(s) && Next(s, GetBuf(b), s') && Unlocked(s, b)
    requires Get(s.cache, ROOTDEV, b).Got? && Get(s.cache, ROOTDEV, b).slot == i
    ensures Shaped(s') && s'.users[i] > 0 && s.holder[i].None? && s'.holder[i].None?
        && Keyed(s'.cache.bufs[i], ROOTDEV, b)
    ensures s'.holder == s.holder && s'.ops == s.ops && s'.lh == s.lh && s'.phase == s.phase
        && s'.logical == s.logical && s'.dirty == s.dirty
    ensures s'.layout == s.layout && |s'.disk| == |s.disk|
  {
    GetSpec(s.cache, ROOTDEV, b);
    hide DiskOk, HomeOk, Get, ListOk, LeastRecent;
    assert BufOk(s, i);
  }

  lemma GotUsers(s: State, b: nat, i: Slot, s': State)
    requires Shaped(s) && Next(s, GetBuf(b), s') && Get(s.cache, ROOTDEV, b).slot == i
    ensures UsersAt(s, s', i, 1)
  {
    hide CacheOk, DiskOk, Get;
  }

  /** What bread hands over. */
  lemma LockedReady(s: State, tid: nat, i: Slot, b: nat, s': State)
    requires Inv(s') && Shaped(s) && Next(s, LockBuf(tid, i), s') && Keyed(s.cache.bufs[i], ROOTDEV, b) && Inv(s)
    ensures Shaped(s') && Held(s, s', i, Some(tid)) && s'.logical == s.logical && s'.dirty == s.dirty
    ensures s'.users == s.users
    ensures Keyed(s'.cache.bufs[i], ROOTDEV, b) && b < |s'.logical| && s'.cache.bufs[i].data == s'.logical[b]
  {
    hide DiskOk, HomeOk, ListOk;
    assert BufOk(s, i) && BufOk(s', i);
  }

  lemma ModifiedReady(s: State, tid: nat, i: Slot, data: Block, s': State)
    requires Inv(s') && Shaped(s) && Next(s, Modify(tid, i, data), s')
    ensures Shaped(s') && Held(s, s', i, s.holder[i]) && s'.holder[i] == Some(tid) && s'.logical == s.logical
    ensures s'.users == s.users
    ensures s'.cache.bufs[i] == s.cache.bufs[i].(data := data)
  {
    hide DiskOk, HomeOk, ListOk;
  }

  lemma LoggedReady(s: State, tid: nat, i: Slot, s': State, b: nat, data: Block)
    requires Inv(s') && Shaped(s) && Next(s, LogWrite(tid, i), s') && s.cache.bufs[i].blockno == b
        && s.cache.bufs[i].data == data
    ensures Shaped(s') && b < |s.logical| && s'.logical == s.logical[b := data] && !s'.dirty[i]
    ensures Adds(s.lh, s.ops, tid, b, s'.lh, s'.ops) && s'.ops.Keys == s.ops.Keys
    ensures s'.holder == s.holder && s'.users == s.users && s'.phase == s.phase
  {
    hide DiskOk, HomeOk, ListOk;
  }

  lemma ReleasedReady(s: State, tid: nat, i: Slot, s1: State, s': State)
    requires Inv(s') && Shaped(s) && Shaped(s1) && Next(s, UnlockBuf(tid, i), s1) && Next(s1, DropBuf(i), s')
    ensures Shaped(s') && s'.holder == s.holder[i := None] && s'.logical == s.logical && s'.lh == s.lh
        && s'.phase == s.phase
    ensures UsersAt(s, s', i, -1) && s1.ops == s'.ops == s.ops
  {
    hide DiskOk, HomeOk, ListOk;
  }

  ghost predicate NoneLocked(s: State) {
    |s.holder| == NBUF && forall i: Slot :: s.holder[i].None?
  }

  /** A longer path with the same beginning, on which nobody logs anything; at its end threads hold the same buffers. */
  ghost predicate Continues(p: seq<State>, q: seq<State>) {
    |p| > 0 && p <= q && CommitFrame(p[|p| - 1], q[|q| - 1])
      && forall k :: |p| <= k < |q| ==> q[k].logical == p[|p| - 1].logical
  }

  /** A longer path with the same beginning, on which nobody logs anything and every operation has ended at its end. */
  ghost predicate Settles(p: seq<State>, q: seq<State>) {
    && |p| > 0 && p <= q && (forall k :: |p| <= k < |q| ==> q[k].logical == p[|p| - 1].logical)
    && q[|q| - 1].ops == map[] && q[|q| - 1].phase == Idle && q[|q| - 1].lh == []
    && q[|q| - 1].users == p[|p| - 1].users && q[|q| - 1].holder == p[|p| - 1].holder
  }

  lemma ContinuesSelf(p: seq<State>)
    requires |p| > 0
    ensures Continues(p, p)
  {
  }

  lemma ContinuesOn(p: seq<State>, q: seq<State>, s: State)
    requires Continues(p, q) && CommitFrame(q[|q| - 1], s)
    ensures Continues(p, q + [s])
  {
  }

  // ---------- when a commit finds its buffers ----------

  /** The log's own blocks are cached by nobody's leave and unreferenced. */
  lemma LogUnreferenced(s: State, b: nat)
    requires Inv(s) && InLog(s.layout, b)
    ensures Unreferenced(s.cache, b)
    ensures forall k: Slot :: Keyed(s.cache.bufs[k], ROOTDEV, b) && s.cache.bufs[k].valid ==>
        b < |s.disk| && s.cache.bufs[k].data == s.disk[b]
  {
    hide DiskOk, HomeOk, PinsCached, LogAreaOk;
    forall k: Slot | Keyed(s.cache.bufs[k], ROOTDEV, b)
      ensures s.cache.bufs[k].refcnt == 0 && b < |s.disk|
          && (s.cache.bufs[k].valid ==> s.cache.bufs[k].data == s.disk[b])
    {
      assert BufOk(s, k);
    }
  }

  lemma LogRuns(s: State, t: nat)
    requires Inv(s) && s.phase == Logging(t) && t < |s.lh| && CacheOk(s.cache)
    requires s.layout.start + 1 + t < |s.disk| && s.lh[t] < |s.disk| && s.lh[t] != s.layout.start + 1 + t
    ensures var r := LogOne(s.disk, s.cache, s.lh[t], s.layout.start + 1 + t);
      (r.Wrote? <==> AnyFree(s.cache)) && (r.Wrote? ==> AnyFree(r.cache))
  {
    hide LogOne, AnyFree, CacheOk, Inv, Unreferenced;
    InvShape(s);
    LogPlace(s, t);
    LogUnreferenced(s, s.layout.start + 1 + t);
    var j := PinnedSlot(s, s.lh[t]);
    LogOneRuns(s.disk, s.cache, s.lh[t], s.layout.start + 1 + t, j);
  }

  lemma InstallRuns(s: State, t: nat)
    requires Inv(s) && s.phase == Installing(t) && t < |s.lh| && CacheOk(s.cache)
    requires s.layout.start + 1 + t < |s.disk| && s.lh[t] < |s.disk| && s.lh[t] != s.layout.start + 1 + t
    ensures var r := InstallOne(s.disk, s.cache, s.lh[t], s.layout.start + 1 + t, false);
      (r.Wrote? <==> AnyFree(s.cache)) && (r.Wrote? ==> AnyFree(r.cache))
  {
    hide InstallOne, AnyFree, CacheOk, Inv, Unreferenced;
    InvShape(s);
    LogPlace(s, t);
    LogUnreferenced(s, s.layout.start + 1 + t);
    assert s.lh[t..][0] == s.lh[t];
    var j := PinnedSlot(s, s.lh[t]);
    InstallOneRuns(s.disk, s.cache, s.lh[t], s.layout.start + 1 + t, j);
  }

  lemma HeadRuns(s: State, lh: seq<nat>)
    requires Inv(s) && CacheOk(s.cache) && s.layout.start < |s.disk| && |lh| <= LOGSIZE
    ensures var r := HeadOne(s.layout, s.disk, s.cache, lh);
      (r.Wrote? <==> AnyFree(s.cache)) && (r.Wrote? ==> AnyFree(r.cache))
  {
    hide HeadOne, AnyFree, CacheOk, Inv, Unreferenced;
    HeadPlace(s);
    LogUnreferenced(s, s.layout.start);
    HeadOneRuns(s.layout, s.disk, s.cache, lh);
  }

  lemma LogPlace(s: State, t: nat)
    requires Inv(s) && t < |s.lh|
    ensures InLog(s.layout, s.layout.start + 1 + t)
  {
  }

  lemma HeadPlace(s: State)
    requires Inv(s)
    ensures InLog(s.layout, s.layout.start)
  {
  }

  /** With as many blocks logged as there are buffers every buffer is pinned, and the commit cannot start. */
  lemma FullLogStuck(s: State)
    requires Inv(s) && !s.phase.Installing? && |s.lh| == NBUF
    ensures !AnyFree(s.cache)
  {
    var slots := PinnedSlots(s, NBUF);
    forall k | 0 <= k < NBUF ensures slots[k] < NBUF { assert PinnedAt(s, slots, k); }
    hide Inv;
    forall i: Slot ensures s.cache.bufs[i].refcnt > 0 {
      if i !in slots { Pigeons(slots + [i], NBUF); }
      var k :| 0 <= k < NBUF && slots[k] == i;
      assert PinnedAt(s, slots, k);
    }
  }

  ghost predicate PinnedAt(s: State, slots: seq<nat>, k: nat)
    requires |s.cache.bufs| == NBUF
  {
    k < |slots| && k < |s.lh| && slots[k] < NBUF && Keyed(s.cache.bufs[slots[k]], ROOTDEV, s.lh[k])
      && s.cache.bufs[slots[k]].refcnt >= 1
  }

  lemma {:induction false} PinnedSlots(s: State, n: nat) returns (slots: seq<nat>)
    requires Inv(s) && !s.phase.Installing? && n <= |s.lh|
    ensures |slots| == n && Once(slots) && |s.cache.bufs| == NBUF && forall k: nat :: k < n ==> PinnedAt(s, slots, k)
  {
    if n == 0 {
      slots := [];
    } else {
      var rest := PinnedSlots(s, n - 1);
      assert s.lh[n - 1] in Pinned(s);
      var j: Slot :| CachedAt(s, j, s.lh[n - 1]);
      assert BufOk(s, j);
      slots := rest + [j];
      forall k: nat | k < n ensures PinnedAt(s, slots, k) {
        if k < n - 1 { assert PinnedAt(s, rest, k); }
      }
      assert Once(s.lh);
      forall k | 0 <= k < n - 1 ensures rest[k] != j { assert PinnedAt(s, rest, k); }
    }
  }

  /** Where write_log and install_trans read and write. */
  lemma LogTarget(s: State, t: nat)
    requires Inv(s) && t < |s.lh|
    ensures CacheOk(s.cache)
    ensures s.layout.start + 1 + t < |s.disk| && s.lh[t] < |s.disk| && s.lh[t] != s.layout.start + 1 + t
  {
  }

  lemma LogTaken(s: State, t: nat, d: seq<Block>, c: Cache)
    requires Inv(s) && s.phase == Logging(t) && t < |s.lh| && NoneLocked(s) && CacheOk(s.cache)
    requires s.layout.start + 1 + t < |s.disk| && s.lh[t] < |s.disk| && s.lh[t] != s.layout.start + 1 + t
    requires LogOne(s.disk, s.cache, s.lh[t], s.layout.start + 1 + t) == Wrote(d, c)
    ensures var s' := AfterLog(s, Wrote(d, c));
      Next(s, CommitStep, s') && s'.phase == Logging(t + 1) && CommitFrame(s, s') && NoneLocked(s')
  {
    hide LogOne, DiskOk, BufOk, HomeOk;
  }

  lemma InstallTaken(s: State, t: nat, d: seq<Block>, c: Cache)
    requires Inv(s) && s.phase == Installing(t) && t < |s.lh| && NoneLocked(s) && CacheOk(s.cache)
    requires s.layout.start + 1 + t < |s.disk| && s.lh[t] < |s.disk| && s.lh[t] != s.layout.start + 1 + t
    requires InstallOne(s.disk, s.cache, s.lh[t], s.layout.start + 1 + t, false) == Wrote(d, c)
    ensures var s' := AfterInstall(s, Wrote(d, c));
      Next(s, CommitStep, s') && s'.phase == Installing(t + 1) && CommitFrame(s, s') && NoneLocked(s')
  {
    hide InstallOne, DiskOk, BufOk, HomeOk;
  }

  lemma HeadTarget(s: State)
    requires Inv(s)
    ensures CacheOk(s.cache) && s.layout.start < |s.disk| && |s.lh| <= LOGSIZE
  {
  }

  lemma HeadTaken(s: State, d: seq<Block>, c: Cache)
    requires Inv(s) && s.phase == Logging(|s.lh|) && |s.lh| > 0
    requires CacheOk(s.cache) && s.layout.start < |s.disk| && |s.lh| <= LOGSIZE
    requires HeadOne(s.layout, s.disk, s.cache, s.lh) == Wrote(d, c)
    ensures var s' := AfterHead(s, Wrote(d, c)); Next(s, CommitStep, s') && CommitFrame(s, s')
  {
    hide HeadOne, DiskOk, BufOk, HomeOk;
  }

  lemma ClearTaken(s: State, d: seq<Block>, c: Cache)
    requires Inv(s) && s.phase == Installing(|s.lh|)
    requires CacheOk(s.cache) && s.layout.start < |s.disk|
    requires HeadOne(s.layout, s.disk, s.cache, []) == Wrote(d, c)
    ensures var s' := AfterClear(s, Wrote(d, c)); Next(s, CommitStep, s') && CommitFrame(s, s')
  {
    hide HeadOne, DiskOk, BufOk, HomeOk;
  }

  lemma NothingToCommit(s: State)
    requires Inv(s) && s.phase == Logging(0) && s.lh == []
    ensures Next(s, CommitStep, s.(phase := Finished)) && CommitFrame(s, s.(phase := Finished))
  {
    hide DiskOk, BufOk, HomeOk;
  }

  lemma InvShape(s: State)
    requires Inv(s)
    ensures Shaped(s) && (s.ops != map[] ==> s.phase.Idle?) && |s.lh| <= LOGSIZE
  {
    hide DiskOk, BufOk, HomeOk;
  }

  /** The state after log_write of slot i. */
  ghost function Logged(s: State, tid: nat, i: Slot): State
    requires Shaped(s) && tid in s.ops && s.cache.bufs[i].dev == ROOTDEV
  {
    var b := s.cache.bufs[i].blockno;
    var s1 := s.(logical := s.logical[b := s.cache.bufs[i].data], dirty := s.dirty[i := false]);
    if b in s.lh then s1
    else s1.(lh := s.lh + [b], cache := AddRef(s.cache, i, 1), ops := s.ops[tid := s.ops[tid] + 1])
  }

  ghost function Ended(s: State, tid: nat): State {
    var ops := s.ops - {tid};
    s.(ops := ops, phase := if ops == map[] then Logging(0) else s.phase)
  }

  lemma EndingOp(s: State, tid: nat)
    requires Shaped(s) && tid in s.ops && s.phase.Idle?
    requires forall i: Slot :: s.holder[i] == Some(tid) ==> !s.dirty[i]
    ensures |s.ops| >= 1 && |Ended(s, tid).ops| == |s.ops| - 1
    ensures |s.ops| == 1 <==> Ended(s, tid).phase == Logging(0)
    ensures Next(s, EndOp(tid), Ended(s, tid))
  {
    hide Shaped;
    assert (s.ops - {tid}).Keys == s.ops.Keys - {tid};
    assert |(s.ops - {tid}).Keys| == |s.ops.Keys| - 1;
    assert s.ops - {tid} == map[] <==> (s.ops - {tid}).Keys == {};
  }

  /** A finished commit has put every home block on disk as it was logged before it. */
  lemma CommitEnds(s: State, f: State)
    requires Shaped(s) && Inv(f) && f.phase == Finished && f.logical == s.logical && f.layout == s.layout
    ensures Next(f, CommitStep, f.(phase := Idle)) && |f.disk| == |s.logical|
    ensures forall h :: 0 <= h < |f.disk| && !InLog(f.layout, h) ==> f.disk[h] == s.logical[h]
  {
    hide DiskOk, BufOk;
    forall h | 0 <= h < |f.disk| && !InLog(f.layout, h) ensures f.disk[h] == s.logical[h] {
      CommittedIsDurable(f, h);
    }
  }

  // ---------- recovery on a clean cache ----------

  ghost predicate AllClean(c: Cache, d: seq<Block>) {
    CacheOk(c) && forall i: Slot :: Clean(c.bufs[i], d)
  }

  /** With no buffer in use, bread succeeds and returns the disk's copy. */
  lemma CleanRead(c: Cache, d: seq<Block>, b: nat)
    requires AllClean(c, d) && b < |d|
    ensures var r := Read(c, d, ROOTDEV, b);
      && r.Got? && CacheOk(r.cache) && Changed(c.bufs, r.cache.bufs, {r.slot}) && Spare(c, r.slot, b)
      && r.cache.bufs[r.slot] == Buf(true, ROOTDEV, b, 1, d[b])
  {
    GetSpec(c, ROOTDEV, b);
    assert c.bufs[0].refcnt == 0;
    var r := Read(c, d, ROOTDEV, b);
    ReadLoads(c, d, b, r.cache, r.slot);
    assert Clean(c.bufs[r.slot], d);
  }

  lemma CleanRelease(c: Cache, d: seq<Block>, i: Slot)
    requires CacheOk(c) && c.bufs[i].refcnt == 1 && Clean(c.bufs[i].(refcnt := 0), d)
    requires forall k: Slot :: k != i ==> Clean(c.bufs[k], d)
    ensures AllClean(Release(c, i), d)
  {
    ReleaseSpec(c, i);
  }

  /** A second bread on an otherwise clean cache. */
  lemma CleanReadPair(c: Cache, d: seq<Block>, a: nat, b: nat)
    requires AllClean(c, d) && a < |d| && b < |d| && a != b
    ensures var r := ReadPair(c, d, a, b);
      && r.Pair? && CacheOk(r.cache) && r.first != r.second && Changed(c.bufs, r.cache.bufs, {r.first, r.second})
      && r.cache.bufs[r.first] == Buf(true, ROOTDEV, a, 1, d[a])
      && r.cache.bufs[r.second] == Buf(true, ROOTDEV, b, 1, d[b])
  {
    hide LeastRecent, ListOk;
    CleanRead(c, d, a);
    var r1 := Read(c, d, ROOTDEV, a);
    var c1, i := r1.cache, r1.slot;
    GetSpec(c1, ROOTDEV, b);
    var other: Slot := if i == 0 then 1 else 0;
    assert c1.bufs[other] == c.bufs[other] && Clean(c.bufs[other], d);
    var r2 := Read(c1, d, ROOTDEV, b);
    ReadLoads(c1, d, b, r2.cache, r2.slot);
    assert Clean(c.bufs[r2.slot], d);
  }

  lemma CleanInstall(c: Cache, d: seq<Block>, home: nat, b: nat)
    requires CacheOk(c) && AllClean(c, d) && home < |d| && b < |d| && home != b
    ensures var r := InstallOne(d, c, home, b, true);
      r.Wrote? && r.disk == d[home := d[b]] && AllClean(r.cache, r.disk)
  {
    hide ReadPair, InstallFinish, CacheOk, AllClean;
    CleanReadPair(c, d, b, home);
    var Pair(c2, lbuf, dbuf) := ReadPair(c, d, b, home);
    InstallFinishRecovering(c2, lbuf, dbuf);
    var c3 := InstallFinish(c2, lbuf, dbuf, true).value;
    CleanElsewhere(c, d, c3, d[home := d[b]], {lbuf, dbuf}, dbuf, home);
  }

  /** Changing one block, cached only in slot j, leaves the other buffers clean. */
  lemma CleanElsewhere(c: Cache, d: seq<Block>, c': Cache, d': seq<Block>, slots: set<Slot>, j: Slot, b: nat)
    requires AllClean(c, d) && CacheOk(c') && Changed(c.bufs, c'.bufs, slots) && b < |d| && |d'| == |d|
    requires j in slots && Keyed(c'.bufs[j], ROOTDEV, b)
    requires forall k :: 0 <= k < |d| && k != b ==> d'[k] == d[k]
    requires forall k: Slot :: k in slots ==> Clean(c'.bufs[k], d')
    ensures AllClean(c', d')
  {
    hide ListOk;
    forall k: Slot ensures Clean(c'.bufs[k], d') {
      assert Clean(c.bufs[k], d);
      assert !Clash(c'.bufs, j, k);
    }
  }

  lemma CleanHead(l: Layout, c: Cache, d: seq<Block>, lh: seq<nat>)
    requires CacheOk(c) && AllClean(c, d) && l.start < |d| && |lh| <= LOGSIZE
    ensures var r := HeadOne(l, d, c, lh);
      r.Wrote? && r.disk == d[l.start := WriteHeader(d[l.start], lh)] && AllClean(r.cache, r.disk)
  {
    hide ListOk, Read, AllClean;
    CleanRead(c, d, l.start);
    var r1 := Read(c, d, ROOTDEV, l.start);
    var data := WriteHeader(d[l.start], lh);
    var c2 := SetData(r1.cache, r1.slot, data);
    SameKeys(r1.cache.bufs, c2.bufs);
    ReleaseSpec(c2, r1.slot);
    hide CacheOk, Release;
    CleanElsewhere(c, d, Release(c2, r1.slot), d[l.start := data], {r1.slot}, r1.slot, l.start);
  }

  /** The disk after k of recovery's installs: the log area is still as the crash left it. */
  lemma RecoveryImage(l: Layout, d: seq<Block>, k: nat)
    requires DiskOk(l, d) && k <= |ReadHeader(d[l.start])|
    ensures k <= |RecoveryWrites(l, d)| && |RecoveryWrites(l, d)| == |ReadHeader(d[l.start])| + 1
    ensures k == 0 ==> CrashedRecovery(l, d, k) == d
    ensures forall b: nat :: b < |d| && InLog(l, b) ==> CrashedRecovery(l, d, k)[b] == d[b]
  {
    var lh := ReadHeader(d[l.start]);
    var ws := RecoveryWrites(l, d);
    assert ws[..k] == InstallWrites(l, d, lh)[..k];
    forall b: nat | b < |d| && InLog(l, b) ensures CrashedRecovery(l, d, k)[b] == d[b] {
      InstallPrefix(l, d, lh, k, b);
    }
  }

  lemma RecoveryInstall(l: Layout, d0: seq<Block>, d: seq<Block>, c: Cache, k: nat)
    requires DiskOk(l, d0) && k < |ReadHeader(d0[l.start])| && k + 1 < |RecoveryWrites(l, d0)|
    requires d == CrashedRecovery(l, d0, k) && AllClean(c, d)
    ensures var lh := ReadHeader(d0[l.start]);
      && CacheOk(c) && lh[k] < |d| && l.start + 1 + k < |d| && lh[k] != l.start + 1 + k
      && var r := InstallOne(d, c, lh[k], l.start + 1 + k, true);
         r.Wrote? && AllClean(r.cache, r.disk) && r.disk == CrashedRecovery(l, d0, k + 1)
  {
    hide ListOk, Clean, InstallOne;
    var lh := ReadHeader(d0[l.start]);
    RecoveryImage(l, d0, k);
    CleanInstall(c, d, lh[k], l.start + 1 + k);
    var ws := RecoveryWrites(l, d0);
    assert ws[..k + 1][..k] == ws[..k] && ws[..k + 1][k] == ws[k];
    assert ws[k] == Write(lh[k], d0[l.start + 1 + k]);
  }

  lemma RecoveryClear(l: Layout, d0: seq<Block>, d: seq<Block>, c: Cache)
    requires DiskOk(l, d0) && d == CrashedRecovery(l, d0, |RecoveryWrites(l, d0)| - 1) && AllClean(c, d)
    ensures CacheOk(c) && l.start < |d|
    ensures var r := HeadOne(l, d, c, []);
      && r.Wrote? && AllClean(r.cache, r.disk)
      && r.disk == CrashedRecovery(l, d0, |RecoveryWrites(l, d0)|) == Recover(l, d0)
      && DiskOk(l, r.disk) && r.disk[l.start][0] == 0
  {
    hide ListOk, Clean, HeadOne;
    var ws := RecoveryWrites(l, d0);
    var n := |ws| - 1;
    RecoveryImage(l, d0, n);
    CleanHead(l, c, d, []);
    assert ws[..n + 1] == ws && ws[..n + 1][..n] == ws[..n];
    assert ws[n] == Write(l.start, WriteHeader(d0[l.start], []));
    HeaderRoundTrip(d0[l.start], []);
    RecoverAt(l, d0, l.start);
  }

  /** The machine state of a freshly recovered system. */
  ghost function Boot(l: Layout, d: seq<Block>, c: Cache): State {
    State(l, d, c, seq(NBUF, _ => 0), seq(NBUF, _ => None), seq(NBUF, _ => false), [], map[], Idle, d, d)
  }

  lemma Booted(l: Layout, d: seq<Block>, c: Cache)
    requires DiskOk(l, d) && d[l.start][0] == 0 && AllClean(c, d)
    ensures Init(Boot(l, d, c))
  {
    hide ListOk;
    forall i: Slot ensures Clean(c.bufs[i], d) {}
  }
}
