/** What bread, brelse and the disk-writing loop bodies of kernel/log.c do to the cache and
    the disk, on values. */
module CommitSteps {
  import opened Blocks
  import opened Options
  import opened CacheModel
  import opened Recovery

  /** What bread does to a well-formed cache. */
  lemma ReadSpec(c: Cache, d: seq<Block>, b: nat)
    requires CacheOk(c) && b < |d|
    ensures var r := Read(c, d, ROOTDEV, b);
      r.Got? ==>
        var c', i := r.cache, r.slot;
        && CacheOk(c') && c'.order == c.order
        && (if Keyed(c.bufs[i], ROOTDEV, b)
            then c'.bufs == c.bufs[i := Buf(true, ROOTDEV, b, c.bufs[i].refcnt + 1, if c.bufs[i].valid
              then c.bufs[i].data else d[b])]
            else
              && (forall j: Slot :: !Keyed(c.bufs[j], ROOTDEV, b))
              && c.bufs[i].refcnt == 0
              && c'.bufs == c.bufs[i := Buf(true, ROOTDEV, b, 1, d[b])])
  {
    GetSpec(c, ROOTDEV, b);
    if Get(c, ROOTDEV, b).Got? {
      var Got(c1, i) := Get(c, ROOTDEV, b);
      SameKeys(c1.bufs, Fill(c1, d, i).bufs);
    }
  }

  lemma ReleaseSpec(c: Cache, i: Slot)
    requires CacheOk(c) && c.bufs[i].refcnt >= 1
    ensures CacheOk(Release(c, i))
    ensures Release(c, i).bufs == c.bufs[i := c.bufs[i].(refcnt := c.bufs[i].refcnt - 1)]
  {
    ListHolds(c.order, i);
    SameKeys(c.bufs, Release(c, i).bufs);
  }

  /** Two buffer arrays that agree outside the given slots. */
  ghost predicate Changed(bufs: seq<Buf>, bufs': seq<Buf>, slots: set<Slot>) {
    |bufs'| == |bufs| == NBUF && forall k: Slot :: k !in slots ==> bufs'[k] == bufs[k]
  }

  datatype Pair = NoPair | Pair(cache: Cache, first: Slot, second: Slot)

  /** Two breads in a row. */
  ghost function ReadPair(c: Cache, d: seq<Block>, a: nat, b: nat): Pair
    requires CacheOk(c) && a < |d| && b < |d|
  {
    ReadSpec(c, d, a);
    match Read(c, d, ROOTDEV, a)
    case NoBuffers => NoPair
    case Got(c1, i) =>
      match Read(c1, d, ROOTDEV, b)
      case NoBuffers => NoPair
      case Got(c2, j) => Pair(c2, i, j)
  }

  /** Slot i may come to hold block b: it already does, or b is uncached and i is unreferenced. */
  ghost predicate Spare(c: Cache, i: Slot, b: nat)
    requires |c.bufs| == NBUF
  {
    Keyed(c.bufs[i], ROOTDEV, b) || (c.bufs[i].refcnt == 0 && forall j: Slot :: !Keyed(c.bufs[j], ROOTDEV, b))
  }

  /** What a bread of b leaves in slot i. */
  function Loaded(buf: Buf, d: seq<Block>, b: nat): Buf
    requires b < |d|
  {
    Buf(true, ROOTDEV, b, buf.refcnt + 1, if Keyed(buf, ROOTDEV, b) && buf.valid then buf.data else d[b])
  }

  lemma ReadLoads(c: Cache, d: seq<Block>, b: nat, c': Cache, i: Slot)
    requires CacheOk(c) && b < |d| && Read(c, d, ROOTDEV, b) == Got(c', i)
    ensures CacheOk(c') && c'.order == c.order && Spare(c, i, b) && c'.bufs == c.bufs[i := Loaded(c.bufs[i], d, b)]
  {
    ReadSpec(c, d, b);
  }

  /** A second bread finds a block that is already cached and referenced where it was. */
  lemma ReadPairCached(c: Cache, d: seq<Block>, a: nat, b: nat, j: Slot, c2: Cache, i: Slot, k: Slot)
    requires CacheOk(c) && a < |d| && b < |d| && a != b && ReadPair(c, d, a, b) == Pair(c2, i, k)
    requires Keyed(c.bufs[j], ROOTDEV, b) && c.bufs[j].valid && c.bufs[j].refcnt >= 1
    ensures k == j && i != j && Spare(c, i, a) && CacheOk(c2)
    ensures Changed(c.bufs, c2.bufs, {i, j})
    ensures c2.bufs[i] == Loaded(c.bufs[i], d, a) && c2.bufs[j] == c.bufs[j].(refcnt := c.bufs[j].refcnt + 1)
  {
    var Got(c1, i1) := Read(c, d, ROOTDEV, a);
    ReadLoads(c, d, a, c1, i1);
    assert i1 != j;
    assert Keyed(c1.bufs[j], ROOTDEV, b);
    ReadLoads(c1, d, b, c2, k);
    assert !Clash(c1.bufs, k, j);
  }

  /** The rest of a write_log iteration, once both buffers are locked. */
  ghost function LogFinish(c: Cache, to: Slot, from: Slot): Cache
    requires CacheOk(c) && to != from && c.bufs[to].refcnt >= 1 && c.bufs[from].refcnt >= 1
  {
    var c1 := SetData(c, to, c.bufs[from].data);
    SameKeys(c.bufs, c1.bufs);
    ReleaseSpec(c1, from);
    Release(Release(c1, from), to)
  }

  /** The rest of an install_trans iteration; None if bunpin would underflow the count. */
  ghost function InstallFinish(c: Cache, lbuf: Slot, dbuf: Slot, recovering: bool): Option<Cache>
    requires CacheOk(c) && lbuf != dbuf && c.bufs[lbuf].refcnt >= 1 && c.bufs[dbuf].refcnt >= 1
  {
    var c1 := SetData(c, dbuf, c.bufs[lbuf].data);
    SameKeys(c.bufs, c1.bufs);
    if recovering then
      ReleaseSpec(c1, lbuf);
      Some(Release(Release(c1, lbuf), dbuf))
    else if c.bufs[dbuf].refcnt < 2 then None
    else
      var c2 := AddRef(c1, dbuf, -1);
      SameKeys(c.bufs, c2.bufs);
      ReleaseSpec(c2, lbuf);
      Some(Release(Release(c2, lbuf), dbuf))
  }

  lemma ReadPairOk(c: Cache, d: seq<Block>, a: nat, b: nat, c2: Cache, i: Slot, j: Slot)
    requires CacheOk(c) && a < |d| && b < |d| && a != b && ReadPair(c, d, a, b) == Pair(c2, i, j)
    ensures CacheOk(c2) && i != j && c2.bufs[i].refcnt >= 1 && c2.bufs[j].refcnt >= 1
  {
    var Got(c1, i1) := Read(c, d, ROOTDEV, a);
    ReadLoads(c, d, a, c1, i1);
    ReadLoads(c1, d, b, c2, j);
  }

  /** The disk and the cache after a loop body; Stuck stands for a panic. */
  datatype Outcome = Stuck | Wrote(disk: seq<Block>, cache: Cache)

  /** One iteration of write_log: copy a cached home block to log block b and write it. */
  ghost function LogOne(d: seq<Block>, c: Cache, home: nat, b: nat): Outcome
    requires CacheOk(c) && b < |d| && home < |d| && home != b
  {
    match ReadPair(c, d, b, home)
    case NoPair => Stuck
    case Pair(c2, to, from) =>
      ReadPairOk(c, d, b, home, c2, to, from);
      Wrote(d[b := c2.bufs[from].data], LogFinish(c2, to, from))
  }

  /** One iteration of install_trans: copy log block b to its home block and write it. */
  ghost function InstallOne(d: seq<Block>, c: Cache, home: nat, b: nat, recovering: bool): Outcome
    requires CacheOk(c) && b < |d| && home < |d| && home != b
  {
    match ReadPair(c, d, b, home)
    case NoPair => Stuck
    case Pair(c2, lbuf, dbuf) =>
      ReadPairOk(c, d, b, home, c2, lbuf, dbuf);
      match InstallFinish(c2, lbuf, dbuf, recovering)
      case None => Stuck
      case Some(c3) => Wrote(d[home := c2.bufs[lbuf].data], c3)
  }

  /** write_head: put the block list into the header block and write it. */
  ghost function HeadOne(l: Layout, d: seq<Block>, c: Cache, lh: seq<nat>): Outcome
    requires CacheOk(c) && l.start < |d| && |lh| <= LOGSIZE
  {
    ReadSpec(c, d, l.start);
    match Read(c, d, ROOTDEV, l.start)
    case NoBuffers => Stuck
    case Got(c1, i) =>
      var data := WriteHeader(c1.bufs[i].data, lh);
      Wrote(d[l.start := data], Release(SetData(c1, i, data), i))
  }

  lemma LogFinishSpec(c: Cache, to: Slot, from: Slot)
    requires CacheOk(c) && to != from && c.bufs[to].refcnt >= 1 && c.bufs[from].refcnt >= 1
    ensures CacheOk(LogFinish(c, to, from))
    ensures var r := LogFinish(c, to, from).bufs;
      && Changed(c.bufs, r, {to, from})
      && r[to] == c.bufs[to].(refcnt := c.bufs[to].refcnt - 1, data := c.bufs[from].data)
      && r[from] == c.bufs[from].(refcnt := c.bufs[from].refcnt - 1)
  {
    var c1 := SetData(c, to, c.bufs[from].data);
    SameKeys(c.bufs, c1.bufs);
    ReleaseSpec(c1, from);
    ReleaseSpec(Release(c1, from), to);
  }

  lemma InstallFinishSpec(c: Cache, lbuf: Slot, dbuf: Slot)
    requires CacheOk(c) && lbuf != dbuf && c.bufs[lbuf].refcnt >= 1 && c.bufs[dbuf].refcnt >= 1
    ensures InstallFinish(c, lbuf, dbuf, false).Some? ==>
      var r := InstallFinish(c, lbuf, dbuf, false).value;
      && CacheOk(r) && c.bufs[dbuf].refcnt >= 2
      && Changed(c.bufs, r.bufs, {lbuf, dbuf})
      && r.bufs[lbuf] == c.bufs[lbuf].(refcnt := c.bufs[lbuf].refcnt - 1)
      && r.bufs[dbuf] == c.bufs[dbuf].(refcnt := c.bufs[dbuf].refcnt - 2, data := c.bufs[lbuf].data)
  {
    if c.bufs[dbuf].refcnt >= 2 {
      var c2 := AddRef(SetData(c, dbuf, c.bufs[lbuf].data), dbuf, -1);
      SameKeys(c.bufs, c2.bufs);
      ReleaseSpec(c2, lbuf);
      ReleaseSpec(Release(c2, lbuf), dbuf);
    }
  }

  lemma InstallFinishRecovering(c: Cache, lbuf: Slot, dbuf: Slot)
    requires CacheOk(c) && lbuf != dbuf && c.bufs[lbuf].refcnt >= 1 && c.bufs[dbuf].refcnt >= 1
    ensures InstallFinish(c, lbuf, dbuf, true).Some?
    ensures var r := InstallFinish(c, lbuf, dbuf, true).value;
      && CacheOk(r) && Changed(c.bufs, r.bufs, {lbuf, dbuf})
      && r.bufs[lbuf] == c.bufs[lbuf].(refcnt := c.bufs[lbuf].refcnt - 1)
      && r.bufs[dbuf] == c.bufs[dbuf].(refcnt := c.bufs[dbuf].refcnt - 1, data := c.bufs[lbuf].data)
  {
    var c1 := SetData(c, dbuf, c.bufs[lbuf].data);
    SameKeys(c.bufs, c1.bufs);
    ReleaseSpec(c1, lbuf);
    ReleaseSpec(Release(c1, lbuf), dbuf);
  }

  /** Net effect of a write_log iteration when the home block is cached in slot j: one other
      slot i now holds the log block; everything else is untouched. */
  lemma LogOneSpec(d: seq<Block>, c: Cache, home: nat, b: nat, j: Slot, r: Outcome) returns (i: Slot)
    requires CacheOk(c) && b < |d| && home < |d| && home != b && r == LogOne(d, c, home, b) && r.Wrote?
    requires Keyed(c.bufs[j], ROOTDEV, home) && c.bufs[j].valid && c.bufs[j].refcnt >= 1
    ensures CacheOk(r.cache) && i != j && Spare(c, i, b)
    ensures r.disk == d[b := c.bufs[j].data]
    ensures Changed(c.bufs, r.cache.bufs, {i})
        && r.cache.bufs[i] == Buf(true, ROOTDEV, b, c.bufs[i].refcnt, c.bufs[j].data)
  {
    var Pair(c2, to, from) := ReadPair(c, d, b, home);
    ReadPairCached(c, d, b, home, j, c2, to, from);
    LogFinishSpec(c2, to, from);
    i := to;
    assert r.cache.bufs[j] == c.bufs[j];
  }

  lemma HeadOneSpec(l: Layout, d: seq<Block>, c: Cache, lh: seq<nat>, r: Outcome) returns (i: Slot)
    requires CacheOk(c) && l.start < |d| && |lh| <= LOGSIZE && r == HeadOne(l, d, c, lh) && r.Wrote?
    requires forall k: Slot :: Keyed(c.bufs[k], ROOTDEV, l.start) && c.bufs[k].valid ==> c.bufs[k].data == d[l.start]
    ensures CacheOk(r.cache) && Spare(c, i, l.start)
    ensures r.disk == d[l.start := WriteHeader(d[l.start], lh)]
    ensures Changed(c.bufs, r.cache.bufs, {i})
        && r.cache.bufs[i] == Buf(true, ROOTDEV, l.start, c.bufs[i].refcnt, WriteHeader(d[l.start], lh))
  {
    var Got(c1, k) := Read(c, d, ROOTDEV, l.start);
    ReadLoads(c, d, l.start, c1, k);
    i := k;
    SameKeys(c1.bufs, SetData(c1, k, WriteHeader(c1.bufs[k].data, lh)).bufs);
    ReleaseSpec(SetData(c1, k, WriteHeader(c1.bufs[k].data, lh)), k);
  }

  /** Net effect of an install_trans iteration of a commit: the home buffer j loses its pin and
      takes the log's data, and one other slot i holds the log block. */
  lemma InstallOneSpec(d: seq<Block>, c: Cache, home: nat, b: nat, j: Slot, r: Outcome) returns (i: Slot)
    requires CacheOk(c) && b < |d| && home < |d| && home != b && r == InstallOne(d, c, home, b, false) && r.Wrote?
    requires Keyed(c.bufs[j], ROOTDEV, home) && c.bufs[j].valid && c.bufs[j].refcnt >= 1
    requires forall k: Slot :: Keyed(c.bufs[k], ROOTDEV, b) && c.bufs[k].valid ==> c.bufs[k].data == d[b]
    ensures CacheOk(r.cache) && i != j && Spare(c, i, b)
    ensures r.disk == d[home := d[b]]
    ensures Changed(c.bufs, r.cache.bufs, {i, j})
    ensures r.cache.bufs[i] == Buf(true, ROOTDEV, b, c.bufs[i].refcnt, d[b])
    ensures r.cache.bufs[j] == c.bufs[j].(refcnt := c.bufs[j].refcnt - 1, data := d[b])
  {
    var Pair(c2, lbuf, dbuf) := ReadPair(c, d, b, home);
    ReadPairCached(c, d, b, home, j, c2, lbuf, dbuf);
    InstallFinishSpec(c2, lbuf, dbuf);
    i := lbuf;
  }

  // ---------- when there is a buffer for it ----------

  /** Some buffer is unreferenced, so bget can recycle it. */
  ghost predicate AnyFree(c: Cache) {
    |c.bufs| == NBUF && exists i: Slot :: c.bufs[i].refcnt == 0
  }

  /** bread panics if and only if the block is not cached and every buffer is referenced. */
  lemma ReadStuck(c: Cache, d: seq<Block>, b: nat)
    requires CacheOk(c) && b < |d|
    ensures Read(c, d, ROOTDEV, b).NoBuffers? <==> !AnyFree(c) && forall j: Slot :: !Keyed(c.bufs[j], ROOTDEV, b)
  {
    GetSpec(c, ROOTDEV, b);
    if Get(c, ROOTDEV, b).Got? {
      var i := Get(c, ROOTDEV, b).slot;
      assert Keyed(c.bufs[i], ROOTDEV, b) || c.bufs[i].refcnt == 0;
    }
  }

  /** Block b may be cached, but nobody references it. */
  ghost predicate Unreferenced(c: Cache, b: nat)
    requires |c.bufs| == NBUF
  {
    forall k: Slot :: Keyed(c.bufs[k], ROOTDEV, b) ==> c.bufs[k].refcnt == 0
  }

  /** A log block and a cached home block can both be had if and only if some buffer is unreferenced. */
  lemma PairRuns(c: Cache, d: seq<Block>, b: nat, home: nat, j: Slot)
    requires CacheOk(c) && b < |d| && home < |d| && home != b && Unreferenced(c, b)
    requires Keyed(c.bufs[j], ROOTDEV, home) && c.bufs[j].refcnt >= 1
    ensures ReadPair(c, d, b, home).Pair? <==> AnyFree(c)
  {
    ReadStuck(c, d, b);
    if Read(c, d, ROOTDEV, b).Got? {
      var Got(c1, i) := Read(c, d, ROOTDEV, b);
      ReadLoads(c, d, b, c1, i);
      assert i != j && Keyed(c1.bufs[j], ROOTDEV, home);
      ReadStuck(c1, d, home);
      assert c.bufs[i].refcnt == 0;
    } else {
      assert !AnyFree(c);
    }
  }

  lemma LogOneRuns(d: seq<Block>, c: Cache, home: nat, b: nat, j: Slot)
    requires CacheOk(c) && b < |d| && home < |d| && home != b && Unreferenced(c, b)
    requires Keyed(c.bufs[j], ROOTDEV, home) && c.bufs[j].valid && c.bufs[j].refcnt >= 1
    ensures LogOne(d, c, home, b).Wrote? <==> AnyFree(c)
    ensures LogOne(d, c, home, b).Wrote? ==> AnyFree(LogOne(d, c, home, b).cache)
  {
    PairRuns(c, d, b, home, j);
    if AnyFree(c) {
      var i := LogOneSpec(d, c, home, b, j, LogOne(d, c, home, b));
      assert LogOne(d, c, home, b).cache.bufs[i].refcnt == 0;
    }
  }

  lemma InstallOneRuns(d: seq<Block>, c: Cache, home: nat, b: nat, j: Slot)
    requires CacheOk(c) && b < |d| && home < |d| && home != b && Unreferenced(c, b)
    requires Keyed(c.bufs[j], ROOTDEV, home) && c.bufs[j].valid && c.bufs[j].refcnt >= 1
    requires forall k: Slot :: Keyed(c.bufs[k], ROOTDEV, b) && c.bufs[k].valid ==> c.bufs[k].data == d[b]
    ensures InstallOne(d, c, home, b, false).Wrote? <==> AnyFree(c)
    ensures InstallOne(d, c, home, b, false).Wrote? ==> AnyFree(InstallOne(d, c, home, b, false).cache)
  {
    PairRuns(c, d, b, home, j);
    if AnyFree(c) {
      var Pair(c2, lbuf, dbuf) := ReadPair(c, d, b, home);
      ReadPairCached(c, d, b, home, j, c2, lbuf, dbuf);
      assert InstallOne(d, c, home, b, false).Wrote?;
      var i := InstallOneSpec(d, c, home, b, j, InstallOne(d, c, home, b, false));
      assert InstallOne(d, c, home, b, false).cache.bufs[i].refcnt == 0;
    }
  }

  lemma HeadOneRuns(l: Layout, d: seq<Block>, c: Cache, lh: seq<nat>)
    requires CacheOk(c) && l.start < |d| && |lh| <= LOGSIZE && Unreferenced(c, l.start)
    requires forall k: Slot :: Keyed(c.bufs[k], ROOTDEV, l.start) && c.bufs[k].valid ==> c.bufs[k].data == d[l.start]
    ensures HeadOne(l, d, c, lh).Wrote? <==> AnyFree(c)
    ensures HeadOne(l, d, c, lh).Wrote? ==> AnyFree(HeadOne(l, d, c, lh).cache)
  {
    ReadStuck(c, d, l.start);
    if HeadOne(l, d, c, lh).Wrote? {
      var i := HeadOneSpec(l, d, c, lh, HeadOne(l, d, c, lh));
      assert HeadOne(l, d, c, lh).cache.bufs[i].refcnt == 0;
      assert c.bufs[i].refcnt == 0;
    }
  }
}
