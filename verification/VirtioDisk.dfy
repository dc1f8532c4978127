/** The virtio disk driver as it runs, the interrupt handler, and the device it talks to. */
module VirtioDisk {
  import opened Counting
  import opened DiskModel
  import opened Options
  import opened VirtioQueue

  function Publish(d: Disk, h: nat, i1: nat, i2: nat, buf: nat, write: bool, blockno: nat): Disk
    requires Sizes(d) && h < NUM && i1 < NUM && i2 < NUM
  {
    d.(ops := d.ops[h := Op(write, blockno * 2)],
       desc := d.desc[h := Desc(Request(h), i1, true, false)][i1 := Desc(Data(buf), i2, true,
         !write)][i2 := Desc(Status(h), 0, false, true)],
       info := d.info[h := Info(buf, 0xff)],
       availRing := d.availRing[d.availIdx % NUM := h], availIdx := (d.availIdx + 1) % WRAP)
  }

  ghost function WithChain(g: Ghost, h: nat, c: Chain): Ghost
    requires |g.owner| == NUM && h < NUM && c.i1 < NUM && c.i2 < NUM
  {
    g.(chains := g.chains[h := c], owner := Marked(g.owner, h, c.i1, c.i2, Some(h)), pub := g.pub + [h])
  }

  /** Buffer b is in no request and its block in none either. */
  ghost predicate Idle(g: Ghost, bufs: map<nat, Buf>, b: nat) {
    b in bufs && forall h :: h in g.chains ==>
      g.chains[h].buf != b && (g.chains[h].buf in bufs ==> bufs[g.chains[h].buf].blockno != bufs[b].blockno)
  }

  lemma PublishKeeps(d: Disk, g: Ghost, bufs: map<nat, Buf>, store: seq<seq<nat>>, d1: Disk, h: nat, c: Chain)
    requires Inv(d, g, bufs, store) && Three(d, h, c.i1, c.i2) && d.free[h] && d.free[c.i1] && d.free[c.i2]
        && c.phase == Published
    requires d1 == d.(free := d1.free) && FreeIs(d.free, d1.free, h, c.i1, c.i2, false)
    requires Idle(g, bufs, c.buf) && bufs[c.buf].blockno < |store|
    ensures h !in g.chains && |g.owner| == NUM && Sizes(d1)
    ensures Inv(Publish(d1, h, c.i1, c.i2, c.buf, c.write, bufs[c.buf].blockno), WithChain(g, h, c),
        bufs[c.buf := bufs[c.buf].(disk := true)], store)
  {
    hide Partition, Rings, Requests, RequestOk, Marked;
    var b := c.buf;
    assert |g.owner| == NUM by { OwnerSize(d, g); }
    var d' := Publish(d1, h, c.i1, c.i2, b, c.write, bufs[b].blockno);
    var g', bufs' := WithChain(g, h, c), bufs[b := bufs[b].(disk := true)];
    PublishPartition(d, g, d', h, c, g');
    PublishRings(d, g, d', h, c, g');
    forall k | k != h && k in g.chains ensures SameChain(d, d', k, g.chains[k]) {
      Untouched(d, g, k, h);
      Untouched(d, g, k, c.i1);
      Untouched(d, g, k, c.i2);
    }
    assert RequestOk(d', h, c, bufs'[b], store) by { NewRequest(d1, h, c, bufs[b], store); }
    OthersOk(d, g, bufs, store, d', g', bufs', store, h, b, bufs[b].blockno);
  }

  lemma OwnerSize(d: Disk, g: Ghost)
    requires Partition(d, g)
    ensures |g.owner| == NUM
  {
  }

  lemma NewRequest(d: Disk, h: nat, c: Chain, b: Buf, store: seq<seq<nat>>)
    requires Sizes(d) && Three(d, h, c.i1, c.i2) && c.phase == Published && b.blockno < |store|
    ensures RequestOk(Publish(d, h, c.i1, c.i2, c.buf, c.write, b.blockno), h, c, b.(disk := true), store)
  {
  }

  /** free' is free without the descriptors idx, which were free. */
  ghost predicate TakenFrom(free: seq<bool>, free': seq<bool>, idx: seq<nat>) {
    && |free| == NUM && |free'| == NUM && Once(idx) && (forall i :: i in idx ==> i < NUM && free[i])
    && forall k: nat :: k < NUM ==> (free'[k] <==> free[k] && k !in idx)
  }

  lemma TakeOne(free: seq<bool>, free': seq<bool>, idx: seq<nat>, i: nat)
    requires TakenFrom(free, free', idx) && i < NUM && free'[i]
    ensures TakenFrom(free, free'[i := false], idx + [i])
  {
    assert forall k :: k in idx + [i] <==> k in idx || k == i;
  }

  lemma GiveOne(free: seq<bool>, free': seq<bool>, idx: seq<nat>)
    requires TakenFrom(free, free', idx) && idx != []
    ensures idx[0] < NUM && free[idx[0]] && !free'[idx[0]] && TakenFrom(free, free'[idx[0] := true], idx[1..])
  {
    assert idx == [idx[0]] + idx[1..] && idx[0] in idx;
    assert forall k :: 0 <= k < |idx[1..]| ==> idx[1..][k] == idx[k + 1];
    assert idx[0] !in idx[1..];
    assert forall k :: k in idx <==> k == idx[0] || k in idx[1..];
  }

  /** What the device finds at its index is the first published head. */
  lemma FetchHead(d: Disk, g: Ghost)
    requires Rings(d, g) && Partition(d, g)
    ensures g.fetched % WRAP == d.availIdx <==> g.pub == []
    ensures g.pub != [] ==>
      && |d.availRing| == NUM && d.availRing[g.fetched % WRAP % NUM] == g.pub[0] && g.pub[0] in g.chains
      && g.chains[g.pub[0]].phase == Published
  {
    forall k | 0 <= k < |g.pub| ensures g.pub[k] < NUM {
      assert g.pub[k] in g.pub && ChainOk(g.owner, g.pub[k], g.chains[g.pub[k]]);
    }
    Pigeons(g.pub, NUM);
    WrapEqual(g.fetched, |g.pub|);
    WrapSlot(g.fetched);
    if g.pub != [] {
      RingPop(d.availRing, g.fetched, g.pub);
      assert g.pub[0] in g.pub;
    }
  }

  lemma FetchKeeps(d: Disk, g: Ghost, bufs: map<nat, Buf>, store: seq<seq<nat>>, g': Ghost, h: nat)
    requires Inv(d, g, bufs, store) && g.pub != [] && h == g.pub[0] && PhaseStep(g, g', h, Working)
        && g.chains[h].phase == Published
    requires g'.pub == g.pub[1..] && g'.done == g.done && g'.fetched == g.fetched + 1 && g'.seen == g.seen
    ensures Inv(d, g', bufs, store)
  {
    hide Partition, Rings, Requests, RequestOk;
    PhasePartition(d, g, d, g', h, Working);
    FetchRings(d, g, g', h);
    OthersApart(d, g, bufs, store, h);
    assert RequestOk(d, h, g'.chains[h], bufs[g.chains[h].buf],
        store) by { StillFormat(d, h, g.chains[h], bufs[g.chains[h].buf], store); }
    PhaseRequests(d, g, bufs, store, d, g', bufs, store, h, Working);
  }

  lemma StillFormat(d: Disk, h: nat, c: Chain, b: Buf, store: seq<seq<nat>>)
    requires Sizes(d) && RequestOk(d, h, c, b, store) && c.phase == Published
    ensures RequestOk(d, h, c.(phase := Working), b, store)
  {
  }

  /** No other request has the buffer or the block of request h. */
  lemma OthersApart(d: Disk, g: Ghost, bufs: map<nat, Buf>, store: seq<seq<nat>>, h: nat)
    requires Sizes(d) && Requests(d, g, bufs, store) && h in g.chains
    ensures g.chains[h].buf in bufs && RequestOk(d, h, g.chains[h], bufs[g.chains[h].buf], store)
    ensures forall k :: k in g.chains && k != h ==>
      && g.chains[k].buf != g.chains[h].buf
      && (g.chains[k].buf in bufs ==> bufs[g.chains[k].buf].blockno != bufs[g.chains[h].buf].blockno)
  {
    hide RequestOk;
    forall k | k in g.chains && k != h ensures Apart(g.chains[k], g.chains[h], bufs) {
    }
  }

  /** A request's phase, its status and its buffer change; nobody else's. */
  lemma PhaseRequests(d: Disk, g: Ghost, bufs: map<nat, Buf>, store: seq<seq<nat>>, d': Disk, g': Ghost,
          bufs': map<nat, Buf>, store': seq<seq<nat>>, h: nat, phase: Phase)
    requires Sizes(d) && Partition(d, g) && Requests(d, g, bufs, store) && PhaseStep(g, g', h, phase)
    requires Sizes(d') && d'.desc == d.desc && d'.ops == d.ops && |store'| == |store|
    requires forall k: nat :: k < NUM && k != h ==> d'.info[k] == d.info[k]
    requires var b := g.chains[h].buf;
      b in bufs && b in bufs' && bufs' == bufs[b := bufs'[b]] && bufs'[b].blockno == bufs[b].blockno
    requires forall x: nat :: x < |store| && x != bufs[g.chains[h].buf].blockno ==> store'[x] == store[x]
    requires RequestOk(d', h, g'.chains[h], bufs'[g.chains[h].buf], store')
    ensures Requests(d', g', bufs', store')
  {
    hide RequestOk, Requests;
    OthersApart(d, g, bufs, store, h);
    forall k | k in g.chains && k != h ensures SameChain(d, d', k, g.chains[k]) {
      assert ChainOk(g.owner, k, g.chains[k]);
    }
    OthersOk(d, g, bufs, store, d', g', bufs', store', h, g.chains[h].buf, bufs[g.chains[h].buf].blockno);
  }

  lemma CompleteKeeps(d: Disk, g: Ghost, bufs: map<nat, Buf>, store: seq<seq<nat>>, d': Disk, g': Ghost,
          bufs': map<nat, Buf>, store': seq<seq<nat>>, h: nat)
    requires Inv(d, g, bufs, store) && h in g.chains && g.chains[h].phase == Working
    requires h < NUM && g' == g.(chains := g.chains[h := g.chains[h].(phase := Done)], done := g.done + [h])
    requires d' == d.(info := d.info[h := d.info[h].(status := 0)], usedRing := d.usedRing[d.usedIdx % NUM := h],
        usedIdx := (d.usedIdx + 1) % WRAP)
    requires
      var c := g.chains[h];
      c.buf in bufs && var b := bufs[c.buf];
      b.blockno < |store| &&
      if c.write then store' == store[b.blockno := b.data] && bufs' == bufs
      else store' == store && bufs' == bufs[c.buf := b.(data := store[b.blockno])]
    ensures Inv(d', g', bufs', store')
  {
    hide Partition, Rings, Requests, RequestOk;
    PhasePartition(d, g, d', g', h, Done);
    CompleteRings(d, g, d', g', h);
    OthersApart(d, g, bufs, store, h);
    assert RequestOk(d', h, g'.chains[h], bufs'[g.chains[h].buf],
        store') by { DoneRequest(d, h, g.chains[h], bufs[g.chains[h].buf], store, d', bufs'[g.chains[h].buf], store'); }
    PhaseRequests(d, g, bufs, store, d', g', bufs', store', h, Done);
  }

  lemma DoneRequest(d: Disk, h: nat, c: Chain, b: Buf, store: seq<seq<nat>>, d': Disk, b': Buf, store': seq<seq<nat>>)
    requires Sizes(d) && Sizes(d') && RequestOk(d, h, c, b, store) && c.phase == Working && |store'| == |store|
    requires d'.desc == d.desc && d'.ops == d.ops && d'.info[h] == d.info[h].(status := 0)
    requires b'.blockno == b.blockno && b'.disk == b.disk && b'.data == store'[b.blockno]
    ensures RequestOk(d', h, c.(phase := Done), b', store')
  {
  }

  lemma SeenKeeps(d: Disk, g: Ghost, bufs: map<nat, Buf>, store: seq<seq<nat>>, d': Disk, g': Ghost,
          bufs': map<nat, Buf>, h: nat)
    requires Inv(d, g, bufs, store) && g.done != [] && h == g.done[0] && h in g.chains && g.chains[h].phase == Done
    requires g' == g.(chains := g.chains[h := g.chains[h].(phase := Seen)], done := g.done[1..], seen := g.seen + 1)
    requires d' == d.(seenIdx := (d.seenIdx + 1) % WRAP)
    requires var b := g.chains[h].buf; b in bufs && bufs' == bufs[b := bufs[b].(disk := false)]
    ensures Inv(d', g', bufs', store)
  {
    hide Partition, Rings, Requests, RequestOk;
    PhasePartition(d, g, d', g', h, Seen);
    SeenRings(d, g, d', g', h);
    OthersApart(d, g, bufs, store, h);
    assert RequestOk(d', h, g'.chains[h], bufs'[g.chains[h].buf],
        store) by { SeenRequest(d, h, g.chains[h], bufs[g.chains[h].buf], store, d'); }
    PhaseRequests(d, g, bufs, store, d', g', bufs', store, h, Seen);
  }

  lemma SeenRequest(d: Disk, h: nat, c: Chain, b: Buf, store: seq<seq<nat>>, d': Disk)
    requires Sizes(d) && Sizes(d') && RequestOk(d, h, c, b, store) && c.phase == Done && d' == d.(seenIdx := d'.seenIdx)
    ensures RequestOk(d', h, c.(phase := Seen), b.(disk := false), store)
  {
  }

  lemma CollectKeeps(d: Disk, g: Ghost, bufs: map<nat, Buf>, store: seq<seq<nat>>, d': Disk, g': Ghost, h: nat)
    requires Inv(d, g, bufs, store) && h in g.chains && g.chains[h].phase == Seen && ChainOk(g.owner, h, g.chains[h])
    requires g' == g.(chains := g.chains - {h}, owner := Marked(g.owner, h, g.chains[h].i1, g.chains[h].i2, None))
    requires Sizes(d') && d' == d.(free := d'.free, desc := d'.desc, info := d'.info)
        && FreeIs(d.free, d'.free, h, g.chains[h].i1, g.chains[h].i2, true)
    requires forall k: nat :: k < NUM && !Part(h, g.chains[h], k) ==> d'.desc[k] == d.desc[k]
    requires forall k: nat :: k < NUM && k != h ==> d'.info[k] == d.info[k]
    ensures Inv(d', g', bufs, store)
  {
    hide Partition, Rings, Requests, RequestOk, Marked, ChainOk;
    assert h < NUM && g.chains[h].i1 < NUM && g.chains[h].i2 < NUM by { Bounds(g.owner, h, g.chains[h]); }
    FinishPartition(d, g, d', g', h);
    FinishRings(d, g, d', g', h);
    OthersApart(d, g, bufs, store, h);
    forall k | k != h && k in g.chains ensures SameChain(d, d', k, g.chains[k]) {
      Disjoint(d, g, k, h, h);
      Disjoint(d, g, k, h, g.chains[h].i1);
      Disjoint(d, g, k, h, g.chains[h].i2);
    }
    OthersOk(d, g, bufs, store, d', g', bufs, store, h, g.chains[h].buf, bufs[g.chains[h].buf].blockno);
  }

  /** A chain's descriptors are in use. */
  lemma ChainTaken(d: Disk, g: Ghost, h: nat)
    requires Sizes(d) && Partition(d, g) && h in g.chains
    ensures
      var c := g.chains[h];
      ChainOk(g.owner, h, c) && Three(d, h, c.i1, c.i2) && !d.free[h] && !d.free[c.i1] && !d.free[c.i2]
  {
    assert ChainOk(g.owner, h, g.chains[h]);
  }

  lemma Bounds(owner: seq<Option<nat>>, h: nat, c: Chain)
    requires ChainOk(owner, h, c)
    ensures h < NUM && c.i1 < NUM && c.i2 < NUM
  {
  }

  // ---------- how many requests there can be ----------

  /** With three free descriptors there is at most one chain. */
  lemma ThreeFree(d: Disk, g: Ghost, h: nat, i1: nat, i2: nat)
    requires Partition(d, g) && Three(d, h, i1, i2) && d.free[h] && d.free[i1] && d.free[i2]
    ensures |g.chains| < MAXREQS
  {
    if |g.chains| >= 2 {
      var a, b := TwoOf(g.chains.Keys);
      assert ChainOk(g.owner, a, g.chains[a]) && ChainOk(g.owner, b, g.chains[b]);
      NinePigeons(g.owner, [h, i1, i2], a, g.chains[a], b, g.chains[b]);
    }
  }

  lemma TwoOf(s: set<nat>) returns (a: nat, b: nat)
    requires |s| >= 2
    ensures a in s && b in s && a != b
  {
    a :| a in s;
    assert |s - {a}| == |s| - 1;
    b :| b in s - {a};
  }

  /** Two chains and three other descriptors are more than there are. */
  lemma NinePigeons(owner: seq<Option<nat>>, three: seq<nat>, a: nat, c: Chain, b: nat, e: Chain)
    requires ChainOk(owner, a, c) && ChainOk(owner, b, e) && a != b && |three| == 3 && Once(three)
    requires forall k :: 0 <= k < 3 ==> three[k] < NUM
    ensures exists k :: 0 <= k < 3 && owner[three[k]].Some?
  {
    if forall k :: 0 <= k < 3 ==> owner[three[k]] == None {
      Pigeons(three + [a, c.i1, c.i2, b, e.i1, e.i2], NUM);
    }
  }

  /** With fewer there are two. */
  lemma FewFree(d: Disk, g: Ghost, few: set<nat>)
    requires Partition(d, g) && |few| < 3 && forall k: nat :: k < NUM && d.free[k] ==> k in few
    ensures |g.chains| >= MAXREQS
  {
    if |g.chains| < 2 {
      var used := UsedBy(d, g);
      assert forall k: nat :: k < NUM && !d.free[k] ==> k in used;
      TooSmall(few, used);
    }
  }

  lemma UsedBy(d: Disk, g: Ghost) returns (used: set<nat>)
    requires Partition(d, g) && |g.chains| < 2
    ensures |used| <= 3 && forall k: nat :: k < NUM && !d.free[k] ==> k in used
  {
    used := {};
    if g.chains != map[] {
      var a :| a in g.chains;
      OnlyOne(g.chains, a);
      used := {a, g.chains[a].i1, g.chains[a].i2};
    }
    forall k: nat | k < NUM && !d.free[k] ensures k in used {
      assert Part(g.owner[k].value, g.chains[g.owner[k].value], k);
    }
  }

  lemma TooSmall(a: set<nat>, b: set<nat>)
    requires |a| < 3 && |b| <= 3
    ensures exists k: nat :: k < NUM && k !in a && k !in b
  {
    if forall k: nat :: k < NUM ==> k in a || k in b {
      assert a + b == a + (b - a);
      SubsetCard(b - a, b);
      SubsetCard(Below(NUM), a + b);
    }
  }

  lemma OnlyOne(m: map<nat, Chain>, a: nat)
    requires a in m && |m| < 2
    ensures forall b :: b in m ==> b == a
  {
    assert (m - {a}).Keys == m.Keys - {a};
    assert |m.Keys - {a}| == |m.Keys| - 1;
    assert m.Keys - {a} == {};
  }

  // ---------- what callers see of it ----------

  /** The heads hs are those of the requests for the buffers bs. */
  ghost predicate Names(chains: map<nat, Chain>, hs: seq<nat>, bs: seq<nat>) {
    |bs| == |hs| && forall k :: 0 <= k < |hs| ==> hs[k] in chains && chains[hs[k]].buf == bs[k]
  }

  ghost predicate HeadOk(waiting: map<nat, nat>, chains: map<nat, Chain>, h: nat) {
    h in chains && chains[h].buf in waiting && waiting[chains[h].buf] == h
  }

  ghost predicate Waits(reqs: map<nat, Req>, h: nat, chains: map<nat, Chain>, b: nat) {
    h in chains && chains[h].buf == b && b in reqs && reqs[b] == Req(chains[h].write, chains[h].phase)
  }

  /** Each request's thread knows its head, and what is said of the request is what its chain says. */
  ghost predicate Match(reqs: map<nat, Req>, waiting: map<nat, nat>, chains: map<nat, Chain>) {
    && |reqs| == |chains| && reqs.Keys == waiting.Keys
    && (forall h :: h in chains ==> HeadOk(waiting, chains, h))
    && (forall b :: b in waiting ==> Waits(reqs, waiting[b], chains, b))
  }

  ghost predicate Shows(v: View, waiting: map<nat, nat>, g: Ghost) {
    Match(v.reqs, waiting, g.chains) && Names(g.chains, g.pub, v.queued) && Names(g.chains, g.done, v.done)
  }

  /** What Submit asks for is what the view says. */
  lemma IdleIs(v: View, waiting: map<nat, nat>, g: Ghost, b: nat, write: bool)
    requires Shows(v, waiting, g) && Possible(v, Submit(b, write))
    ensures Idle(g, v.bufs, b) && |v.reqs| == |g.chains|
  {
    forall h | h in g.chains
        ensures g.chains[h].buf != b
        && (g.chains[h].buf in v.bufs ==> v.bufs[g.chains[h].buf].blockno != v.bufs[b].blockno) {
      assert HeadOk(waiting, g.chains, h);
      assert g.chains[h].buf in v.reqs;
    }
  }

  lemma MatchAdd(reqs: map<nat, Req>, waiting: map<nat, nat>, chains: map<nat, Chain>, b: nat, h: nat, c: Chain)
    requires Match(reqs, waiting, chains) && b !in reqs && h !in chains && c.buf == b
    ensures Match(reqs[b := Req(c.write, c.phase)], waiting[b := h], chains[h := c])
  {
    var reqs', waiting', chains' := reqs[b := Req(c.write, c.phase)], waiting[b := h], chains[h := c];
    forall k | k in chains' ensures HeadOk(waiting', chains', k) {
      if k != h { assert HeadOk(waiting, chains, k); }
    }
    forall x | x in waiting' ensures Waits(reqs', waiting'[x], chains', x) {
      if x != b { assert Waits(reqs, waiting[x], chains, x); }
    }
  }

  lemma MatchPhase(reqs: map<nat, Req>, waiting: map<nat, nat>, chains: map<nat, Chain>, h: nat, phase: Phase)
    requires Match(reqs, waiting, chains) && h in chains
    ensures chains[h].buf in reqs && chains[h].buf in waiting && waiting[chains[h].buf] == h
    ensures Match(reqs[chains[h].buf := reqs[chains[h].buf].(phase := phase)], waiting,
        chains[h := chains[h].(phase := phase)])
  {
    assert HeadOk(waiting, chains, h);
    var b := chains[h].buf;
    var reqs', chains' := reqs[b := reqs[b].(phase := phase)], chains[h := chains[h].(phase := phase)];
    assert reqs'.Keys == reqs.Keys && chains'.Keys == chains.Keys;
    forall k | k in chains' ensures HeadOk(waiting, chains', k) { assert HeadOk(waiting, chains, k); }
    forall x | x in waiting ensures Waits(reqs', waiting[x], chains', x) { assert Waits(reqs, waiting[x], chains, x); }
  }

  lemma MatchDrop(reqs: map<nat, Req>, waiting: map<nat, nat>, chains: map<nat, Chain>, b: nat)
    requires Match(reqs, waiting, chains) && b in waiting
    ensures waiting[b] in chains && Match(reqs - {b}, waiting - {b}, chains - {waiting[b]})
  {
    var h := waiting[b];
    assert Waits(reqs, h, chains, b);
    var reqs', waiting', chains' := reqs - {b}, waiting - {b}, chains - {h};
    assert reqs'.Keys == reqs.Keys - {b} && chains'.Keys == chains.Keys - {h} && waiting'.Keys == waiting.Keys - {b};
    assert |reqs'.Keys| == |reqs.Keys| - 1 && |chains'.Keys| == |chains.Keys| - 1;
    forall k | k in chains' ensures HeadOk(waiting', chains', k) { assert HeadOk(waiting, chains, k); }
    forall x | x in waiting'
        ensures Waits(reqs', waiting'[x], chains', x) { assert Waits(reqs, waiting[x], chains, x); }
  }

  lemma NamesPhase(chains: map<nat, Chain>, hs: seq<nat>, bs: seq<nat>, h: nat, phase: Phase)
    requires Names(chains, hs, bs) && h in chains
    ensures Names(chains[h := chains[h].(phase := phase)], hs, bs)
    ensures (hs == [] <==> bs == []) && (hs != [] ==> hs[0] in chains && chains[hs[0]].buf == bs[0])
    ensures hs != [] ==> Names(chains[h := chains[h].(phase := phase)], hs[1..], bs[1..])
    ensures Names(chains[h := chains[h].(phase := phase)], hs + [h], bs + [chains[h].buf])
  {
  }

  lemma NamesAdd(chains: map<nat, Chain>, hs: seq<nat>, bs: seq<nat>, h: nat, c: Chain)
    requires Names(chains, hs, bs) && h !in chains
    ensures Names(chains[h := c], hs, bs) && Names(chains[h := c], hs + [h], bs + [c.buf])
  {
  }

  /** A request that is neither queued nor done can go. */
  lemma NamesDrop(chains: map<nat, Chain>, hs: seq<nat>, bs: seq<nat>, h: nat)
    requires Names(chains, hs, bs) && h !in hs
    ensures Names(chains - {h}, hs, bs)
  {
  }

  lemma LoadKeeps(d: Disk, g: Ghost, bufs: map<nat, Buf>, store: seq<seq<nat>>, b: nat, buf: Buf)
    requires Inv(d, g, bufs, store) && forall h :: h in g.chains ==> g.chains[h].buf != b
    ensures Inv(d, g, bufs[b := buf], store)
  {
    hide Partition, Rings, RequestOk;
  }

  class Driver {
    var disk: Disk
    var bufs: map<nat, Buf>
    var store: seq<seq<nat>>      // the medium, by block
    var fetchIdx: nat             // the device's place in the avail ring
    var waiting: map<nat, nat>    // the head each waiting thread keeps in its idx[0], by buffer
    ghost var g: Ghost
    ghost var view: View

    ghost predicate Valid()
      reads this
    {
      Inv(disk, g, bufs, store) && fetchIdx == g.fetched % WRAP
    }

    /** The view is what callers see. */
    ghost predicate Agrees()
      reads this
    {
      Valid() && view.bufs == bufs && view.store == store && Ok(view) && Shows(view, waiting, g)
    }

    constructor (bufs: map<nat, Buf>, store: seq<seq<nat>>)
      ensures Agrees() && view == View(bufs, store, map[], [], [])
    {
      this.bufs, this.store, fetchIdx, waiting := bufs, store, 0, map[];
      view := View(bufs, store, map[], [], []);
      disk := Disk(seq(NUM, _ => true), seq(NUM, _ => NODESC), seq(NUM, _ => Info(0, 0)), seq(NUM, _ => Op(false, 0)),
                   seq(NUM, _ => 0), 0, seq(NUM, _ => 0), 0, 0);
      g := Ghost(map[], seq(NUM, _ => None), [], [], 0, 0);
    }

    /** The first free descriptor, marked as taken. */
    method AllocDesc() returns (i: int)
      requires Sizes(disk)
      modifies this`disk
      ensures i == -1 ==> disk == old(disk) && forall k: nat :: k < NUM ==> !disk.free[k]
      ensures i != -1 ==>
        && 0 <= i < NUM && old(disk).free[i] && disk == old(disk).(free := old(disk).free[i := false])
        && Sizes(disk)
    {
      i := 0;
      while i < NUM
        invariant 0 <= i <= NUM && disk == old(disk) && forall k: nat :: k < i ==> !disk.free[k]
      {
        if disk.free[i] {
          disk := disk.(free := disk.free[i := false]);
          return;
        }
        i := i + 1;
      }
      i := -1;
    }

    method FreeDesc(i: nat)
      requires Sizes(disk) && i < NUM && !disk.free[i]    // panic("free_desc 1"), panic("free_desc 2")
      modifies this`disk
      ensures Sizes(disk) && disk == old(disk).(desc := old(disk).desc[i := NODESC], free := old(disk).free[i := true])
    {
      disk := disk.(desc := disk.desc[i := NODESC], free := disk.free[i := true]);
    }

    /** Three different free descriptors; or none taken at all, if and only if fewer are free. */
    method Alloc3Desc() returns (ok: bool, h: nat, i1: nat, i2: nat, ghost few: set<nat>)
      requires Sizes(disk)
      modifies this`disk
      ensures Sizes(disk)
      ensures ok ==> Three(old(disk), h, i1, i2) && old(disk).free[h] && old(disk).free[i1] && old(disk).free[i2]
      ensures ok ==> disk == old(disk).(free := disk.free) && FreeIs(old(disk).free, disk.free, h, i1, i2, false)
      ensures !ok ==> disk == old(disk).(desc := disk.desc) && forall i: nat :: i < NUM && !disk.free[i] ==>
          disk.desc[i] == old(disk).desc[i]
      ensures !ok ==> |few| < 3 && forall k: nat :: k < NUM && old(disk).free[k] ==> k in few
    {
      h, i1, i2, few := 0, 0, 0, {};
      var idx: seq<nat> := [];
      while |idx| < 3
        invariant |idx| <= 3 && Sizes(disk) && disk == old(disk).(free := disk.free)
            && TakenFrom(old(disk).free, disk.free, idx)
        decreases 3 - |idx|
      {
        ghost var before := disk.free;
        var i := AllocDesc();
        if i < 0 {
          ok, few := false, Elements(idx);
          OnceCard(idx);
          Rollback(idx, old(disk));
          return;
        }
        TakeOne(old(disk).free, before, idx, i);
        idx := idx + [i];
      }
      assert idx[0] in idx && idx[1] in idx && idx[2] in idx;
      ok, h, i1, i2 := true, idx[0], idx[1], idx[2];
    }

    /** Give back descriptors just taken. */
    method Rollback(idx: seq<nat>, ghost d0: Disk)
      requires Sizes(disk) && Sizes(d0) && disk == d0.(free := disk.free) && TakenFrom(d0.free, disk.free, idx)
      modifies this`disk
      ensures Sizes(disk) && disk == d0.(desc := disk.desc) && forall i: nat :: i < NUM && !disk.free[i] ==>
          disk.desc[i] == d0.desc[i]
    {
      var j := 0;
      while j < |idx|
        invariant 0 <= j <= |idx| && Sizes(disk) && disk == d0.(free := disk.free, desc := disk.desc)
            && TakenFrom(d0.free, disk.free, idx[j..])
        invariant forall i: nat :: i < NUM && i !in idx[..j] ==> disk.desc[i] == d0.desc[i]
        invariant forall i :: i in idx[..j] ==> i < NUM && d0.free[i]
      {
        assert idx[..j + 1] == idx[..j] + [idx[j]];
        assert idx[j..][1..] == idx[j + 1..] && idx[j..][0] == idx[j];
        GiveOne(d0.free, disk.free, idx[j..]);
        FreeDesc(idx[j]);
        j := j + 1;
      }
      assert disk.free == d0.free;
    }

    /** Queue a request for buffer b, unless two are in flight. */
    method Submit(b: nat, write: bool) returns (ok: bool, h: nat)
      requires Valid() && Idle(g, bufs, b) && bufs[b].blockno < |store|
      modifies this
      ensures Valid() && store == old(store) && waiting == old(waiting) && view == old(view)
      ensures ok <==> old(|g.chains|) < MAXREQS
      ensures !ok ==> bufs == old(bufs) && g == old(g)
      ensures ok ==>
        && h !in old(g.chains) && h in g.chains && g.chains == old(g.chains)[h := g.chains[h]]
        && g.chains[h].buf == b && g.chains[h].write == write
      ensures ok ==> g.chains[h].phase == Published && bufs == old(bufs)[b := old(bufs[b]).(disk := true)]
      ensures ok ==> g.pub == old(g.pub) + [h] && g.done == old(g.done)
    {
      hide Partition, Rings, Requests, Marked;
      var i1, i2;
      ghost var few;
      ok, h, i1, i2, few := Alloc3Desc();
      if !ok {
        FewFree(old(disk), g, few);
        FreeIgnored(old(disk), g, bufs, store, disk);
        return;
      }
      ThreeFree(old(disk), g, h, i1, i2);
      ghost var c := Chain(i1, i2, b, write, Published);
      PublishKeeps(old(disk), g, bufs, store, disk, h, c);
      disk := Publish(disk, h, i1, i2, b, write, bufs[b].blockno);
      bufs := bufs[b := bufs[b].(disk := true)];
      g := WithChain(g, h, c);
    }

    /** The device takes the next request off the avail ring, if there is one. */
    method Fetch() returns (ok: bool, h: nat)
      requires Valid()
      modifies this
      ensures Valid() && store == old(store) && bufs == old(bufs) && disk == old(disk) && waiting == old(waiting)
          && view == old(view)
      ensures ok == (old(g.pub) != [])
      ensures ok ==> g.pub == old(g.pub)[1..] && g.done == old(g.done)
      ensures ok ==>
        && h == old(g.pub)[0] && h in old(g.chains) && old(g.chains[h].phase) == Published
        && g.chains == old(g.chains)[h := old(g.chains[h]).(phase := Working)]
      ensures !ok ==> g == old(g)
    {
      hide Partition, Rings, Requests;
      h := 0;
      FetchHead(disk, g);
      ok := fetchIdx != disk.availIdx;
      if ok {
        h := disk.availRing[fetchIdx % NUM];
        ghost var g' := g.(chains := g.chains[h := g.chains[h].(phase := Working)], pub := g.pub[1..],
            fetched := g.fetched + 1);
        FetchKeeps(disk, g, bufs, store, g', h);
        fetchIdx := (fetchIdx + 1) % WRAP;
        g := g';
      }
    }

    /** The device carries out a request it has fetched, following the descriptors, and puts its head
        in the used ring. Requests may complete in any order. */
    method Complete(h: nat)
      requires Valid() && h in g.chains && g.chains[h].phase == Working
      modifies this
      ensures Valid() && g.chains == old(g.chains)[h := old(g.chains[h]).(phase := Done)] && waiting == old(waiting)
          && view == old(view)
      ensures g.pub == old(g.pub) && g.done == old(g.done) + [h]
      ensures
        var c := old(g.chains[h]);
        c.buf in old(bufs) && var b := old(bufs[c.buf]);
        b.blockno < |old(store)| &&
        if c.write then store == old(store)[b.blockno := b.data] && bufs == old(bufs)
        else store == old(store) && bufs == old(bufs)[c.buf := b.(data := old(store)[b.blockno])]
    {
      hide Partition, Rings, Requests;
      OthersApart(disk, g, bufs, store, h);
      var request := disk.desc[h];
      var op := disk.ops[request.addr.i];
      var data := disk.desc[request.next];
      var status := disk.desc[data.next];
      var blk := op.sector / 2;
      if op.out {
        store := store[blk := bufs[data.addr.buf].data];
      } else {
        bufs := bufs[data.addr.buf := bufs[data.addr.buf].(data := store[blk])];
      }
      var i := status.addr.i;
      var d1 := disk.(info := disk.info[i := disk.info[i].(status := 0)]);
      disk := d1.(usedRing := d1.usedRing[d1.usedIdx % NUM := h], usedIdx := (d1.usedIdx + 1) % WRAP);
      ghost var g0 := g;
      g := g.(chains := g.chains[h := g.chains[h].(phase := Done)], done := g.done + [h]);
      CompleteKeeps(old(disk), g0, old(bufs), old(store), disk, g, bufs, store, h);
    }

    /** One turn of the interrupt handler's loop. */
    method HandleOne() returns (ok: bool, ghost h: nat)
      requires Valid()
      modifies this
      ensures Valid() && store == old(store) && ok == (old(g.done) != []) && waiting == old(waiting)
          && view == old(view) && g.pub == old(g.pub)
      ensures !ok ==> g == old(g) && disk == old(disk) && bufs == old(bufs)
      ensures ok ==>
        && h == old(g.done)[0] && h in old(g.chains) && old(g.chains[h].phase) == Done
        && g.done == old(g.done)[1..]
      ensures ok ==> g.chains == old(g.chains)[h := old(g.chains[h]).(phase := Seen)]
      ensures ok ==>
        var b := old(g.chains[h].buf);
        b in old(bufs) && bufs == old(bufs)[b := old(bufs[b]).(disk := false)]
    {
      hide Partition, Rings, Requests;
      SeenHead(disk, g);
      h := 0;
      ok := disk.seenIdx != disk.usedIdx;
      if ok {
        var id := disk.usedRing[disk.seenIdx % NUM];
        h := id;
        OthersApart(disk, g, bufs, store, id);
        assert disk.info[id].status == 0;   // panic("virtio_disk_intr status")
        var b := disk.info[id].buf;
        bufs := bufs[b := bufs[b].(disk := false)];
        disk := disk.(seenIdx := (disk.seenIdx + 1) % WRAP);
        ghost var g0 := g;
        g := g.(chains := g.chains[h := g.chains[h].(phase := Seen)], done := g.done[1..], seen := g.seen + 1);
        SeenKeeps(old(disk), g0, old(bufs), store, disk, g, bufs, h);
      }
    }

    /** The interrupt handler: every completed request is seen. */
    method Intr()
      requires Valid()
      modifies this
      ensures Valid() && store == old(store) && g.done == []
    {
      hide Inv;
      var more := true;
      while more
        invariant Valid() && store == old(store) && (!more ==> g.done == [])
        decreases more, |g.done|
      {
        ghost var h;
        more, h := HandleOne();
      }
    }

    /** Free the descriptors of a chain, following it. */
    method FreeChain(h: nat, ghost c: Chain)
      requires Sizes(disk) && Three(disk, h, c.i1, c.i2) && !disk.free[h] && !disk.free[c.i1] && !disk.free[c.i2]
      requires disk.desc[h].more && disk.desc[h].next == c.i1 && disk.desc[c.i1].more && disk.desc[c.i1].next == c.i2
          && !disk.desc[c.i2].more
      modifies this`disk
      ensures Sizes(disk) && disk == old(disk).(free := disk.free, desc := disk.desc)
          && FreeIs(old(disk).free, disk.free, h, c.i1, c.i2, true)
      ensures forall k: nat :: k < NUM && k != h && k != c.i1 && k != c.i2 ==> disk.desc[k] == old(disk).desc[k]
    {
      ghost var path := [h, c.i1, c.i2];
      ghost var n := 0;
      var i := h;
      while true
        invariant 0 <= n < 3 && i == path[n] && Sizes(disk) && disk == old(disk).(free := disk.free, desc := disk.desc)
        invariant forall k: nat :: k < NUM && k !in path[..n] ==> disk.desc[k] == old(disk).desc[k]
        invariant forall k: nat :: k < NUM ==> disk.free[k] == (old(disk).free[k] || k in path[..n])
        decreases 3 - n
      {
        var more, next := disk.desc[i].more, disk.desc[i].next;
        FreeDesc(i);
        assert path[..n + 1] == path[..n] + [path[n]];
        assert forall k: nat :: k < NUM ==> disk.free[k] == (old(disk).free[k] || k in path[..n + 1]);
        n := n + 1;
        if more {
          i := next;
        } else {
          break;
        }
      }
      assert n == 3 && path[..n] == path;
      assert forall k :: k in path <==> k == h || k == c.i1 || k == c.i2;
    }

    /** The thread whose request has been seen frees its descriptors; buffer and disk agree. */
    method Collect(h: nat)
      requires Valid() && h in g.chains && g.chains[h].phase == Seen
      modifies this
      ensures Valid() && store == old(store) && bufs == old(bufs) && g.chains == old(g.chains) - {h}
          && waiting == old(waiting) && view == old(view)
      ensures g.pub == old(g.pub) && g.done == old(g.done)
      ensures
        var b := old(g.chains[h].buf);
        b in bufs && !bufs[b].disk && bufs[b].blockno < |store| && bufs[b].data == store[bufs[b].blockno]
    {
      hide Rings, Requests, Marked, Partition;
      OthersApart(disk, g, bufs, store, h);
      ghost var c := g.chains[h];
      ChainTaken(disk, g, h);
      disk := disk.(info := disk.info[h := disk.info[h].(buf := 0)]);
      FreeChain(h, c);
      ghost var g0 := g;
      g := g.(chains := g.chains - {h}, owner := Marked(g.owner, h, c.i1, c.i2, None));
      CollectKeeps(old(disk), g0, bufs, store, disk, g, h);
    }

    // ---------- against the view ----------

    /** A thread asks for a transfer; it sleeps if it is refused. */
    method OnSubmit(b: nat, write: bool) returns (ok: bool)
      requires Agrees() && Possible(view, DiskModel.Submit(b, write))
      modifies this
      ensures Agrees() && view == Effect(old(view), DiskModel.Submit(b, write))
      ensures Acted(ok) == Reply(old(view), DiskModel.Submit(b, write))
    {
      hide Inv, Ok, Match, Names;
      IdleIs(view, waiting, g, b, write);
      SubmitOk(view, b, write);
      var h;
      ok, h := Submit(b, write);
      if ok {
        MatchAdd(view.reqs, waiting, old(g).chains, b, h, g.chains[h]);
        NamesAdd(old(g).chains, old(g).pub, view.queued, h, g.chains[h]);
        NamesAdd(old(g).chains, old(g).done, view.done, h, g.chains[h]);
        waiting := waiting[b := h];
      }
      view := Effect(view, DiskModel.Submit(b, write));
    }

    method OnFetch() returns (ok: bool)
      requires Agrees()
      modifies this
      ensures Agrees() && view == Effect(old(view), DiskModel.Fetch) && Acted(ok) == Reply(old(view), DiskModel.Fetch)
    {
      hide Inv, Ok, Match, Names, Effect;
      var h;
      ok, h := Fetch();
      EffectOk(view, DiskModel.Fetch);
      NamesLength(old(g).chains, old(g).pub, view.queued);
      if ok {
        NamesPhase(old(g).chains, old(g).pub, view.queued, h, Working);
        NamesPhase(old(g).chains, old(g).done, view.done, h, Working);
        MatchPhase(view.reqs, waiting, old(g).chains, h, Working);
        FetchIs(view);
      } else {
        NoFetch(view);
      }
      view := Effect(view, DiskModel.Fetch);
    }

    /** The device completes the request for buffer b. */
    method OnComplete(b: nat)
      requires Agrees() && Possible(view, DiskModel.Complete(b))
      modifies this
      ensures Agrees() && view == Effect(old(view), DiskModel.Complete(b))
    {
      hide Inv, Ok, Names, Match;
      WaitsAt(view.reqs, waiting, g.chains, b);
      var h := waiting[b];
      Complete(h);
      EffectOk(view, DiskModel.Complete(b));
      NamesPhase(old(g).chains, old(g).pub, view.queued, h, Done);
      NamesPhase(old(g).chains, old(g).done, view.done, h, Done);
      MatchPhase(view.reqs, waiting, old(g).chains, h, Done);
      view := Effect(view, DiskModel.Complete(b));
    }

    method OnHandle() returns (ok: bool)
      requires Agrees()
      modifies this
      ensures Agrees() && view == Effect(old(view), DiskModel.Handle) && Acted(ok) == Reply(old(view), DiskModel.Handle)
    {
      hide Inv, Ok, Match, Names, Effect;
      ghost var h;
      ok, h := HandleOne();
      EffectOk(view, DiskModel.Handle);
      NamesLength(old(g).chains, old(g).done, view.done);
      if ok {
        NamesPhase(old(g).chains, old(g).pub, view.queued, h, Seen);
        NamesPhase(old(g).chains, old(g).done, view.done, h, Seen);
        MatchPhase(view.reqs, waiting, old(g).chains, h, Seen);
        HandleIs(view);
      } else {
        NoHandle(view);
      }
      view := Effect(view, DiskModel.Handle);
    }

    /** A thread finds its buffer no longer the disk's. */
    method OnCollect(b: nat) returns (data: seq<nat>)
      requires Agrees() && Possible(view, DiskModel.Collect(b))
      modifies this
      ensures Agrees() && view == Effect(old(view), DiskModel.Collect(b))
          && Transferred(data) == Reply(old(view), DiskModel.Collect(b))
    {
      hide Inv, Ok, Names, Match;
      WaitsAt(view.reqs, waiting, g.chains, b);
      var h := waiting[b];
      MembersOf(disk, g, bufs, store);
      assert h !in g.pub && h !in g.done;
      Collect(h);
      data := bufs[b].data;
      EffectOk(view, DiskModel.Collect(b));
      NamesDrop(old(g).chains, g.pub, view.queued, h);
      NamesDrop(old(g).chains, g.done, view.done, h);
      MatchDrop(view.reqs, waiting, old(g).chains, b);
      waiting := waiting - {b};
      view := Effect(view, DiskModel.Collect(b));
    }

    /** The owner of a buffer that is not in flight uses it. */
    method OnLoad(b: nat, blockno: nat, data: seq<nat>)
      requires Agrees() && Possible(view, DiskModel.Load(b, blockno, data))
      modifies this
      ensures Agrees() && view == Effect(old(view), DiskModel.Load(b, blockno, data))
    {
      hide Ok, Inv, Match, Names;
      NotInChains(view.reqs, waiting, g.chains, b);
      EffectOk(view, DiskModel.Load(b, blockno, data));
      LoadKeeps(disk, g, bufs, store, b, Buf(blockno, data, false));
      bufs := bufs[b := Buf(blockno, data, false)];
      view := Effect(view, DiskModel.Load(b, blockno, data));
    }

    method Serve(e: Event) returns (a: Answer)
      requires Agrees() && Possible(view, e)
      modifies this
      ensures Agrees() && view == Effect(old(view), e) && a == Reply(old(view), e)
    {
      hide Agrees, Possible;
      match e {
        case Submit(b, write) => var ok := OnSubmit(b, write); a := Acted(ok);
        case Fetch => var ok := OnFetch(); a := Acted(ok);
        case Complete(b) => OnComplete(b); a := Acted(true);
        case Handle => var ok := OnHandle(); a := Acted(ok);
        case Collect(b) => var data := OnCollect(b); a := Transferred(data);
        case Load(b, blockno, data) => OnLoad(b, blockno, data); a := Acted(true);
      }
    }

    /** Whatever requests are made, and in whatever order driver, device and handler get to act, rings and
        descriptors do what DiskModel says, and no panic is reached. */
    method Operate(events: seq<Event>) returns (answers: seq<Answer>)
      requires Agrees() && Fits(view, events)
      modifies this
      ensures Agrees() && view == After(old(view), events) && answers == Replies(old(view), events)
    {
      hide Effect, Reply, Possible, Ok, Inv, Shows;
      answers := [];
      var n := 0;
      assert events[0..] == events;
      while n < |events|
        invariant 0 <= n <= |events| && Agrees() && Fits(view, events[n..])
        invariant After(old(view), events) == After(view, events[n..])
        invariant Replies(old(view), events) == answers + Replies(view, events[n..])
      {
        assert events[n..][0] == events[n] && events[n..][1..] == events[n + 1..];
        var a := Serve(events[n]);
        answers := answers + [a];
        n := n + 1;
      }
    }
  }

  lemma WaitsAt(reqs: map<nat, Req>, waiting: map<nat, nat>, chains: map<nat, Chain>, b: nat)
    requires Match(reqs, waiting, chains) && b in reqs
    ensures b in waiting && waiting[b] in chains && chains[waiting[b]].buf == b
    ensures chains[waiting[b]].phase == reqs[b].phase && chains[waiting[b]].write == reqs[b].write
  {
    assert b in waiting.Keys;
    assert Waits(reqs, waiting[b], chains, b);
  }

  lemma NotInChains(reqs: map<nat, Req>, waiting: map<nat, nat>, chains: map<nat, Chain>, b: nat)
    requires Match(reqs, waiting, chains) && b !in reqs
    ensures forall h :: h in chains ==> chains[h].buf != b
  {
    forall h | h in chains ensures chains[h].buf != b {
      assert HeadOk(waiting, chains, h);
      assert chains[h].buf in reqs.Keys;
    }
  }

  lemma NamesLength(chains: map<nat, Chain>, hs: seq<nat>, bs: seq<nat>)
    requires Names(chains, hs, bs)
    ensures hs == [] <==> bs == []
  {
  }

  lemma NoFetch(v: View)
    requires v.queued == []
    ensures Effect(v, DiskModel.Fetch) == v
  {
  }

  lemma NoHandle(v: View)
    requires v.done == []
    ensures Effect(v, DiskModel.Handle) == v
  {
  }

  lemma MembersOf(d: Disk, g: Ghost, bufs: map<nat, Buf>, store: seq<seq<nat>>)
    requires Inv(d, g, bufs, store)
    ensures Members(g)
  {
  }
}
