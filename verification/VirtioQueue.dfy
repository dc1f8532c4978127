/** The virtio block driver's queue (section 2.6 of the Virtio 1.1 specification) and its requests
    (section 5.2): descriptors, the avail and used rings with their 16-bit indices, and what driver,
    interrupt handler and device do to them. */
module VirtioQueue {
  import opened Counting
  import opened DiskModel
  import opened Options

  const NUM: nat := 8
  const WRAP: nat := 0x1_0000     // the ring indices are 16 bits wide

  /** What a descriptor can point to. */
  datatype Addr = Null | Request(i: nat) | Data(buf: nat) | Status(i: nat)

  datatype Desc = Desc(addr: Addr, next: nat, more: bool, write: bool)   // more: F_NEXT, write: F_WRITE

  const NODESC: Desc := Desc(Null, 0, false, false)

  datatype Op = Op(out: bool, sector: nat)         // struct virtio_blk_req
  datatype Info = Info(buf: nat, status: nat)      // in-flight bookkeeping

  /** The driver's data and the rings, which the device shares. */
  datatype Disk = Disk(free: seq<bool>, desc: seq<Desc>, info: seq<Info>, ops: seq<Op>,
                       availRing: seq<nat>, availIdx: nat, usedRing: seq<nat>, usedIdx: nat, seenIdx: nat)

  // ---------- a request in flight ----------

  /** The chain that starts at a head: its other two descriptors and what it is for. */
  datatype Chain = Chain(i1: nat, i2: nat, buf: nat, write: bool, phase: Phase)

  /** Where the queue stands: chains by head, which chain each descriptor belongs to, the heads still
      to be fetched and those completed but not seen, and the counters behind the indices. */
  datatype Ghost = Ghost(chains: map<nat, Chain>, owner: seq<Option<nat>>, pub: seq<nat>, done: seq<nat>,
          fetched: nat, seen: nat)

  ghost predicate Sizes(d: Disk) {
    |d.free| == NUM && |d.desc| == NUM && |d.info| == NUM && |d.ops| == NUM && |d.availRing| == NUM
      && |d.usedRing| == NUM
  }

  ghost predicate ChainOk(owner: seq<Option<nat>>, h: nat, c: Chain) {
    && h < NUM && c.i1 < NUM && c.i2 < NUM && h != c.i1 && h != c.i2 && c.i1 != c.i2 && |owner| == NUM
    && owner[h] == Some(h) && owner[c.i1] == Some(h) && owner[c.i2] == Some(h)
  }

  /** Every descriptor is free or part of exactly one chain. */
  ghost predicate Partition(d: Disk, g: Ghost) {
    && |g.owner| == NUM && |d.free| == NUM
    && (forall i: nat :: i < NUM ==> (d.free[i] <==> g.owner[i] == None))
    && (forall h :: h in g.chains ==> ChainOk(g.owner, h, g.chains[h]))
    && (forall i: nat :: i < NUM && g.owner[i].Some? ==>
          g.owner[i].value in g.chains && Part(g.owner[i].value, g.chains[g.owner[i].value], i))
  }

  predicate Part(h: nat, c: Chain, i: nat) {
    i == h || i == c.i1 || i == c.i2
  }

  /** The three descriptors of a chain say what the request says. */
  ghost predicate Format(d: Disk, h: nat, c: Chain, blockno: nat)
    requires Sizes(d)
  {
    && h < NUM && c.i1 < NUM && c.i2 < NUM
    && d.desc[h] == Desc(Request(h), c.i1, true, false)
    && d.desc[c.i1] == Desc(Data(c.buf), c.i2, true, !c.write)
    && d.desc[c.i2] == Desc(Status(h), 0, false, true)
    && d.ops[h] == Op(c.write, blockno * 2) && d.info[h].buf == c.buf
    && (c.phase == Done || c.phase == Seen ==> d.info[h].status == 0)
  }

  /** Slots from count on, going round, hold s. */
  ghost predicate Ring(ring: seq<nat>, count: nat, s: seq<nat>) {
    |ring| == NUM && forall k: nat :: k < |s| ==> ring[(count + k) % NUM] == s[k]
  }

  ghost predicate Windows(d: Disk, g: Ghost) {
    Once(g.pub) && Once(g.done) && Ring(d.availRing, g.fetched, g.pub) && Ring(d.usedRing, g.seen, g.done)
  }

  predicate Counters(d: Disk, g: Ghost) {
    d.availIdx == (g.fetched + |g.pub|) % WRAP && d.usedIdx == (g.seen + |g.done|) % WRAP && d.seenIdx == g.seen % WRAP
  }

  ghost predicate Members(g: Ghost) {
    && (forall h :: h in g.pub <==> h in g.chains && g.chains[h].phase == Published)
    && (forall h :: h in g.done <==> h in g.chains && g.chains[h].phase == Done)
  }

  /** The rings hold the heads that are to be fetched and to be seen; the indices count them. */
  ghost predicate Rings(d: Disk, g: Ghost) {
    Windows(d, g) && Counters(d, g) && Members(g)
  }

  /** Requests have different buffers and different blocks; a buffer is marked as the disk's until its
      completion has been seen; and what is done is done: buffer and disk agree. */
  ghost predicate Requests(d: Disk, g: Ghost, bufs: map<nat, Buf>, store: seq<seq<nat>>)
    requires Sizes(d)
  {
    && (forall h :: h in g.chains ==>
          g.chains[h].buf in bufs && RequestOk(d, h, g.chains[h], bufs[g.chains[h].buf], store))
    && (forall h, k :: h in g.chains && k in g.chains && h != k ==> Apart(g.chains[h], g.chains[k], bufs))
  }

  ghost predicate RequestOk(d: Disk, h: nat, c: Chain, b: Buf, store: seq<seq<nat>>)
    requires Sizes(d)
  {
    && Format(d, h, c, b.blockno) && b.blockno < |store| && (b.disk <==> c.phase != Seen)
    && (c.phase == Done || c.phase == Seen ==> b.data == store[b.blockno])
  }

  ghost predicate Apart(c: Chain, e: Chain, bufs: map<nat, Buf>) {
    c.buf != e.buf && (c.buf in bufs && e.buf in bufs ==> bufs[c.buf].blockno != bufs[e.buf].blockno)
  }

  ghost predicate Inv(d: Disk, g: Ghost, bufs: map<nat, Buf>, store: seq<seq<nat>>) {
    Sizes(d) && Partition(d, g) && Rings(d, g) && Requests(d, g, bufs, store)
  }

  // ---------- rings ----------

  /** Ring slots of different entries are different. */
  lemma SlotsDiffer(count: nat, j: nat, k: nat)
    requires j < k < j + NUM
    ensures (count + j) % NUM != (count + k) % NUM
  {
  }

  lemma RingPush(ring: seq<nat>, count: nat, s: seq<nat>, x: nat)
    requires Ring(ring, count, s) && |s| < NUM
    ensures Ring(ring[(count + |s|) % NUM := x], count, s + [x])
  {
    var ring' := ring[(count + |s|) % NUM := x];
    forall k: nat | k < |s + [x]| ensures ring'[(count + k) % NUM] == (s + [x])[k] {
      if k < |s| { SlotsDiffer(count, k, |s|); }
    }
  }

  lemma RingPop(ring: seq<nat>, count: nat, s: seq<nat>)
    requires Ring(ring, count, s) && s != []
    ensures ring[count % NUM] == s[0] && Ring(ring, count + 1, s[1..])
  {
    assert (count + 0) % NUM == count % NUM;
    forall k: nat | k < |s[1..]| ensures ring[(count + 1 + k) % NUM] == s[1..][k] {
      assert count + 1 + k == count + (k + 1);
    }
  }

  /** The 16-bit index picks the ring slot the full count would. */
  lemma WrapSlot(n: nat)
    ensures n % WRAP % NUM == n % NUM
  {
  }

  /** As long as fewer than 2^16 entries wait, equal indices mean none does. */
  lemma WrapEqual(n: nat, k: nat)
    requires k < WRAP
    ensures n % WRAP == (n + k) % WRAP <==> k == 0
  {
  }

  // ---------- a request is published ----------

  function Marked(owner: seq<Option<nat>>, h: nat, i1: nat, i2: nat, o: Option<nat>): (r: seq<Option<nat>>)
    requires h < |owner| && i1 < |owner| && i2 < |owner|
    ensures |r| == |owner| && forall i: nat :: i < |owner| ==> r[i] == if i == h || i == i1 || i == i2 then o
        else owner[i]
  {
    owner[h := o][i1 := o][i2 := o]
  }

  ghost predicate Three(d: Disk, h: nat, i1: nat, i2: nat) {
    |d.free| == NUM && h < NUM && i1 < NUM && i2 < NUM && h != i1 && h != i2 && i1 != i2
  }

  ghost predicate FreeIs(free: seq<bool>, free': seq<bool>, h: nat, i1: nat, i2: nat, v: bool) {
    |free'| == |free| && forall i: nat :: i < |free| ==> free'[i] == if i == h || i == i1 || i == i2 then v else free[i]
  }

  lemma PublishPartition(d: Disk, g: Ghost, d': Disk, h: nat, c: Chain, g': Ghost)
    requires Partition(d, g) && Three(d, h, c.i1, c.i2) && d.free[h] && d.free[c.i1] && d.free[c.i2]
    requires FreeIs(d.free, d'.free, h, c.i1, c.i2, false)
    requires g'.owner == Marked(g.owner, h, c.i1, c.i2, Some(h)) && g'.chains == g.chains[h := c]
    ensures h !in g.chains && Partition(d', g')
  {
    hide Marked;
    assert h in g.chains ==> ChainOk(g.owner, h, g.chains[h]);
    forall k | k in g'.chains ensures ChainOk(g'.owner, k, g'.chains[k]) {
      if k != h { assert ChainOk(g.owner, k, g.chains[k]); }
    }
    hide ChainOk;
    forall i: nat | i < NUM && g'.owner[i].Some?
        ensures g'.owner[i].value in g'.chains && Part(g'.owner[i].value, g'.chains[g'.owner[i].value], i) {
      if !Part(h, c, i) { assert Part(g.owner[i].value, g.chains[g.owner[i].value], i); }
    }
  }

  /** The heads to be fetched are different descriptors. */
  lemma HeadsFit(d: Disk, g: Ghost, h: nat)
    requires Partition(d, g) && Once(g.pub) && h !in g.pub && h < NUM && forall k :: k in g.pub ==> k in g.chains
    ensures |g.pub| < NUM && Once(g.pub + [h])
  {
    var s := g.pub + [h];
    forall k | 0 <= k < |s| ensures s[k] < NUM {
      if k < |g.pub| { assert g.pub[k] in g.chains && ChainOk(g.owner, g.pub[k], g.chains[g.pub[k]]); }
    }
    Pigeons(s, NUM);
  }

  lemma PublishRings(d: Disk, g: Ghost, d': Disk, h: nat, c: Chain, g': Ghost)
    requires Rings(d, g) && Partition(d, g) && h !in g.chains && c.phase == Published && h < NUM
    requires g'.chains == g.chains[h := c] && g'.pub == g.pub + [h] && g'.done == g.done && g'.fetched == g.fetched
        && g'.seen == g.seen
    requires |d.availRing| == NUM && d'.availRing == d.availRing[d.availIdx % NUM := h]
        && d'.availIdx == (d.availIdx + 1) % WRAP
    requires d'.usedRing == d.usedRing && d'.usedIdx == d.usedIdx && d'.seenIdx == d.seenIdx
    ensures Rings(d', g')
  {
    hide Ring, Once, Partition, Members;
    MembersAt(g, h);
    HeadsFit(d, g, h);
    RingPush(d.availRing, g.fetched, g.pub, h);
    WrapSlot(g.fetched + |g.pub|);
    PublishMembers(g, g', h, c);
  }

  /** The descriptors and bookkeeping of chain c are the same. */
  ghost predicate SameChain(d: Disk, d': Disk, h: nat, c: Chain) {
    && Sizes(d) && Sizes(d') && h < NUM && c.i1 < NUM && c.i2 < NUM
    && d'.desc[h] == d.desc[h] && d'.desc[c.i1] == d.desc[c.i1] && d'.desc[c.i2] == d.desc[c.i2]
    && d'.ops[h] == d.ops[h] && d'.info[h] == d.info[h]
  }

  /** A step for the request with head h, buffer b and block n leaves the other requests alone. */
  lemma OthersOk(d: Disk, g: Ghost, bufs: map<nat, Buf>, store: seq<seq<nat>>, d': Disk, g': Ghost,
          bufs': map<nat, Buf>, store': seq<seq<nat>>, h: nat, b: nat, n: nat)
    requires Sizes(d) && Sizes(d') && Requests(d, g, bufs, store) && |store'| == |store|
    requires forall k :: k != h ==>
      && (k in g'.chains <==> k in g.chains)
      && (k in g.chains ==> g'.chains[k] == g.chains[k] && SameChain(d, d', k, g.chains[k]))
    requires forall x :: x != b ==> (x in bufs' <==> x in bufs) && (x in bufs ==> bufs'[x] == bufs[x])
    requires forall x: nat :: x < |store| && x != n ==> store'[x] == store[x]
    requires forall k :: k in g.chains && k != h ==>
        g.chains[k].buf != b && (g.chains[k].buf in bufs ==> bufs[g.chains[k].buf].blockno != n)
    requires h in g'.chains ==>
      && g'.chains[h].buf == b && b in bufs' && bufs'[b].blockno == n
      && RequestOk(d', h, g'.chains[h], bufs'[b], store')
    ensures Requests(d', g', bufs', store')
  {
    hide Sizes, Apart, RequestOk, SameChain;
    forall k | k in g'.chains && k != h
        ensures g'.chains[k].buf in bufs' && RequestOk(d', k, g'.chains[k], bufs'[g'.chains[k].buf], store') {
      RequestKept(d, d', k, g.chains[k], bufs[g.chains[k].buf], store, store', n);
    }
    forall j, k | j in g'.chains && k in g'.chains && j != k ensures Apart(g'.chains[j], g'.chains[k], bufs') {
      if j != h && k != h {
        ApartKept(g, bufs, g', bufs', b, j, k);
      } else {
        ApartNew(g', bufs', g, bufs, h, b, n, j, k);
      }
    }
  }

  lemma RequestKept(d: Disk, d': Disk, k: nat, c: Chain, b: Buf, store: seq<seq<nat>>, store': seq<seq<nat>>, n: nat)
    requires Sizes(d) && Sizes(d') && RequestOk(d, k, c, b, store) && SameChain(d, d', k, c)
    requires |store'| == |store| && b.blockno != n && forall x: nat :: x < |store| && x != n ==> store'[x] == store[x]
    ensures RequestOk(d', k, c, b, store')
  {
  }

  lemma ApartKept(g: Ghost, bufs: map<nat, Buf>, g': Ghost, bufs': map<nat, Buf>, b: nat, j: nat, k: nat)
    requires j in g.chains && k in g.chains && Apart(g.chains[j], g.chains[k], bufs) && j in g'.chains && k in g'.chains
    requires g'.chains[j] == g.chains[j] && g'.chains[k] == g.chains[k] && g.chains[j].buf != b && g.chains[k].buf != b
    requires forall x :: x != b ==> (x in bufs' <==> x in bufs) && (x in bufs ==> bufs'[x] == bufs[x])
    ensures Apart(g'.chains[j], g'.chains[k], bufs')
  {
  }

  lemma ApartNew(g': Ghost, bufs': map<nat, Buf>, g: Ghost, bufs: map<nat, Buf>, h: nat, b: nat, n: nat, j: nat, k: nat)
    requires j in g'.chains && k in g'.chains && j != k && (j == h || k == h) && h in g'.chains
    requires g'.chains[h].buf == b && b in bufs' && bufs'[b].blockno == n
    requires forall x :: x != h && x in g'.chains ==> x in g.chains && g'.chains[x] == g.chains[x]
    requires forall x :: x != b ==> (x in bufs' <==> x in bufs) && (x in bufs ==> bufs'[x] == bufs[x])
    requires forall x :: x in g.chains && x != h ==>
        g.chains[x].buf != b && (g.chains[x].buf in bufs ==> bufs[g.chains[x].buf].blockno != n)
    ensures Apart(g'.chains[j], g'.chains[k], bufs')
  {
  }

  /** A free descriptor is part of no chain. */
  lemma Untouched(d: Disk, g: Ghost, k: nat, i: nat)
    requires Partition(d, g) && k in g.chains && i < NUM && d.free[i]
    ensures k != i && g.chains[k].i1 != i && g.chains[k].i2 != i && k < NUM && g.chains[k].i1 < NUM
        && g.chains[k].i2 < NUM
  {
    assert ChainOk(g.owner, k, g.chains[k]);
  }

  /** Chains share no descriptors. */
  lemma Disjoint(d: Disk, g: Ghost, k: nat, h: nat, i: nat)
    requires Partition(d, g) && k in g.chains && h in g.chains && k != h && Part(h, g.chains[h], i)
    ensures i < NUM && k != i && g.chains[k].i1 != i && g.chains[k].i2 != i && k < NUM && g.chains[k].i1 < NUM
        && g.chains[k].i2 < NUM
  {
    assert ChainOk(g.owner, k, g.chains[k]) && ChainOk(g.owner, h, g.chains[h]);
  }

  /** What a free descriptor holds does not matter. */
  lemma FreeIgnored(d: Disk, g: Ghost, bufs: map<nat, Buf>, store: seq<seq<nat>>, d': Disk)
    requires Inv(d, g, bufs, store) && d' == d.(desc := d'.desc) && |d'.desc| == NUM
    requires forall i: nat :: i < NUM && !d.free[i] ==> d'.desc[i] == d.desc[i]
    ensures Inv(d', g, bufs, store)
  {
    forall k | k in g.chains ensures RequestOk(d', k, g.chains[k], bufs[g.chains[k].buf], store) {
      assert ChainOk(g.owner, k, g.chains[k]) && RequestOk(d, k, g.chains[k], bufs[g.chains[k].buf], store);
    }
  }

  // ---------- a request's phase changes ----------

  /** Only the phase of chain h changes. */
  ghost predicate PhaseStep(g: Ghost, g': Ghost, h: nat, phase: Phase) {
    h in g.chains && g'.chains == g.chains[h := g.chains[h].(phase := phase)] && g'.owner == g.owner
  }

  lemma PhasePartition(d: Disk, g: Ghost, d': Disk, g': Ghost, h: nat, phase: Phase)
    requires Partition(d, g) && PhaseStep(g, g', h, phase) && d'.free == d.free
    ensures Partition(d', g')
  {
    forall k | k in g'.chains ensures ChainOk(g'.owner, k, g'.chains[k]) {
      assert ChainOk(g.owner, k, g.chains[k]);
    }
    hide ChainOk;
  }

  /** The device takes the first published head. */
  lemma FetchRings(d: Disk, g: Ghost, g': Ghost, h: nat)
    requires Rings(d, g) && g.pub != [] && h == g.pub[0] && PhaseStep(g, g', h, Working)
    requires g'.pub == g.pub[1..] && g'.done == g.done && g'.fetched == g.fetched + 1 && g'.seen == g.seen
    ensures Rings(d, g') && d.availRing[g.fetched % NUM] == h
  {
    hide Ring, Once, Members;
    RingPop(d.availRing, g.fetched, g.pub);
    Tail(g.pub);
    FetchMembers(g, g', h);
  }

  lemma FetchMembers(g: Ghost, g': Ghost, h: nat)
    requires Members(g) && g.pub != [] && h == g.pub[0] && PhaseStep(g, g', h, Working) && g'.done == g.done
    requires g'.pub == g.pub[1..] && h !in g.pub[1..] && forall x :: x in g.pub <==> x == h || x in g.pub[1..]
    ensures Members(g')
  {
  }

  lemma DoneFit(d: Disk, g: Ghost, h: nat)
    requires Partition(d, g) && Once(g.done) && h !in g.done && h in g.chains && forall k :: k in g.done ==>
        k in g.chains
    ensures |g.done| < NUM && Once(g.done + [h]) && h < NUM
  {
    var s := g.done + [h];
    assert ChainOk(g.owner, h, g.chains[h]);
    forall k | 0 <= k < |s| ensures s[k] < NUM {
      if k < |g.done| { assert g.done[k] in g.chains && ChainOk(g.owner, g.done[k], g.chains[g.done[k]]); }
    }
    Pigeons(s, NUM);
  }

  /** The device puts a head it has worked on in the used ring. */
  lemma CompleteRings(d: Disk, g: Ghost, d': Disk, g': Ghost, h: nat)
    requires Rings(d, g) && Partition(d, g) && PhaseStep(g, g', h, Done) && g.chains[h].phase == Working
    requires g'.pub == g.pub && g'.done == g.done + [h] && g'.fetched == g.fetched && g'.seen == g.seen
    requires |d.usedRing| == NUM && d'.usedRing == d.usedRing[d.usedIdx % NUM := h]
        && d'.usedIdx == (d.usedIdx + 1) % WRAP
    requires d'.availRing == d.availRing && d'.availIdx == d.availIdx && d'.seenIdx == d.seenIdx
    ensures Rings(d', g')
  {
    hide Ring, Once, Partition, Members, Counters;
    MembersAt(g, h);
    DoneFit(d, g, h);
    UsedSlot(d, g);
    RingPush(d.usedRing, g.seen, g.done, h);
    DoneCounters(d, g, d', g', h);
    DoneMembers(g, g', h);
  }

  lemma UsedSlot(d: Disk, g: Ghost)
    requires Counters(d, g)
    ensures d.usedIdx % NUM == (g.seen + |g.done|) % NUM
  {
    WrapSlot(g.seen + |g.done|);
  }

  lemma DoneCounters(d: Disk, g: Ghost, d': Disk, g': Ghost, h: nat)
    requires Counters(d, g) && g'.pub == g.pub && g'.done == g.done + [h] && g'.fetched == g.fetched
        && g'.seen == g.seen
    requires d'.usedIdx == (d.usedIdx + 1) % WRAP && d'.availIdx == d.availIdx && d'.seenIdx == d.seenIdx
    ensures Counters(d', g')
  {
  }

  lemma MembersAt(g: Ghost, h: nat)
    requires Members(g)
    ensures h in g.done <==> h in g.chains && g.chains[h].phase == Done
    ensures h in g.pub <==> h in g.chains && g.chains[h].phase == Published
    ensures forall k :: k in g.done || k in g.pub ==> k in g.chains
  {
  }

  lemma DoneMembers(g: Ghost, g': Ghost, h: nat)
    requires Members(g) && PhaseStep(g, g', h, Done) && g.chains[h].phase == Working && g'.pub == g.pub
        && g'.done == g.done + [h]
    ensures Members(g')
  {
  }

  lemma PublishMembers(g: Ghost, g': Ghost, h: nat, c: Chain)
    requires Members(g) && h !in g.chains && g'.chains == g.chains[h := c] && c.phase == Published
        && g'.pub == g.pub + [h] && g'.done == g.done
    ensures Members(g')
  {
  }

  /** The interrupt handler takes the first completed head. */
  lemma SeenRings(d: Disk, g: Ghost, d': Disk, g': Ghost, h: nat)
    requires Rings(d, g) && g.done != [] && h == g.done[0] && PhaseStep(g, g', h, Seen)
    requires g'.pub == g.pub && g'.done == g.done[1..] && g'.fetched == g.fetched && g'.seen == g.seen + 1
    requires d' == d.(seenIdx := (d.seenIdx + 1) % WRAP)
    ensures Rings(d', g')
  {
    hide Ring, Once, Members, Counters;
    RingPop(d.usedRing, g.seen, g.done);
    Tail(g.done);
    SeenMembers(g, g', h);
    SeenCounters(d, g, d', g');
  }

  lemma SeenMembers(g: Ghost, g': Ghost, h: nat)
    requires Members(g) && g.done != [] && h == g.done[0] && PhaseStep(g, g', h, Seen) && g'.pub == g.pub
    requires g'.done == g.done[1..] && h !in g.done[1..] && forall x :: x in g.done <==> x == h || x in g.done[1..]
    ensures Members(g')
  {
  }

  lemma SeenCounters(d: Disk, g: Ghost, d': Disk, g': Ghost)
    requires Counters(d, g) && g.done != [] && g'.pub == g.pub && g'.done == g.done[1..] && g'.fetched == g.fetched
    requires g'.seen == g.seen + 1 && d' == d.(seenIdx := (d.seenIdx + 1) % WRAP)
    ensures Counters(d', g')
  {
  }

  /** What the handler reads at its index is the first completed head. */
  lemma SeenHead(d: Disk, g: Ghost)
    requires Rings(d, g) && Partition(d, g)
    ensures d.seenIdx == d.usedIdx <==> g.done == []
    ensures g.done != [] ==>
      && |d.usedRing| == NUM && d.usedRing[d.seenIdx % NUM] == g.done[0] && g.done[0] in g.chains
      && g.chains[g.done[0]].phase == Done && g.done[0] < NUM
  {
    forall k | 0 <= k < |g.done| ensures g.done[k] < NUM {
      assert g.done[k] in g.done && ChainOk(g.owner, g.done[k], g.chains[g.done[k]]);
    }
    Pigeons(g.done, NUM);
    WrapEqual(g.seen, |g.done|);
    WrapSlot(g.seen);
    if g.done != [] {
      RingPop(d.usedRing, g.seen, g.done);
      assert g.done[0] in g.done;
    }
  }

  // ---------- a chain is freed ----------

  lemma FinishPartition(d: Disk, g: Ghost, d': Disk, g': Ghost, h: nat)
    requires Partition(d, g) && h in g.chains && FreeIs(d.free, d'.free, h, g.chains[h].i1, g.chains[h].i2, true)
    requires h < NUM && g.chains[h].i1 < NUM && g.chains[h].i2 < NUM
    requires g'.owner == Marked(g.owner, h, g.chains[h].i1, g.chains[h].i2, None) && g'.chains == g.chains - {h}
    ensures Partition(d', g')
  {
    hide Marked;
    forall k | k in g'.chains ensures ChainOk(g'.owner, k, g'.chains[k]) {
      assert ChainOk(g.owner, k, g.chains[k]) && ChainOk(g.owner, h, g.chains[h]);
    }
    hide ChainOk;
    forall i: nat | i < NUM && g'.owner[i].Some?
        ensures g'.owner[i].value in g'.chains && Part(g'.owner[i].value, g'.chains[g'.owner[i].value], i) {
      assert Part(g.owner[i].value, g.chains[g.owner[i].value], i);
    }
  }

  lemma FinishRings(d: Disk, g: Ghost, d': Disk, g': Ghost, h: nat)
    requires Rings(d, g) && h in g.chains && g.chains[h].phase == Seen && g'.chains == g.chains - {h}
    requires g'.pub == g.pub && g'.done == g.done && g'.fetched == g.fetched && g'.seen == g.seen
    requires d'.availRing == d.availRing && d'.availIdx == d.availIdx && d'.usedRing == d.usedRing
        && d'.usedIdx == d.usedIdx && d'.seenIdx == d.seenIdx
    ensures Rings(d', g')
  {
    hide Ring, Once;
  }
}
