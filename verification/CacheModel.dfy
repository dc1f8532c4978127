/** The buffer cache of kernel/bio.c on values: NBUF buffers and the order in which
    the circular list visits them, most recently released first. */
module CacheModel {
  import opened Blocks
  import opened Options

  type Slot = i: nat | i < NBUF

  datatype Buf = Buf(valid: bool, dev: nat, blockno: nat, refcnt: nat, data: Block)

  datatype Cache = Cache(bufs: seq<Buf>, order: seq<Slot>)

  /** Outcome of bget and bread; NoBuffers stands for the panic when every buffer is referenced. */
  datatype Fetch = NoBuffers | Got(cache: Cache, slot: Slot)

  function AllSlots(): seq<Slot> {
    seq(NBUF, i requires 0 <= i < NBUF => i)
  }

  /** The list holds every buffer exactly once. */
  ghost predicate ListOk(order: seq<Slot>) {
    multiset(order) == multiset(AllSlots())
  }

  lemma ListHolds(order: seq<Slot>, i: Slot)
    requires ListOk(order)
    ensures i in order
  {
    assert AllSlots()[i] == i;
    assert i in multiset(AllSlots());
  }

  predicate Keyed(b: Buf, dev: nat, blockno: nat) {
    b.dev == dev && b.blockno == blockno
  }

  /** Two different buffers for one block. Fresh buffers all carry device 0, which is no device. */
  ghost predicate Clash(bufs: seq<Buf>, i: Slot, j: Slot)
    requires |bufs| == NBUF
  {
    i != j && bufs[i].dev != 0 && bufs[i].dev == bufs[j].dev && bufs[i].blockno == bufs[j].blockno
  }

  ghost predicate UniqueKeys(bufs: seq<Buf>)
    requires |bufs| == NBUF
  {
    forall i: Slot, j: Slot {:trigger Clash(bufs, i, j)} :: !Clash(bufs, i, j)
  }

  ghost predicate CacheOk(c: Cache) {
    |c.bufs| == NBUF && ListOk(c.order) && UniqueKeys(c.bufs)
  }

  /** The first buffer from the front of the list that caches the block. */
  function FindKey(bufs: seq<Buf>, order: seq<Slot>, dev: nat, blockno: nat): (r: Option<Slot>)
    requires |bufs| == NBUF
    ensures r.Some? ==> r.value in order && Keyed(bufs[r.value], dev, blockno)
    ensures r.None? ==> forall i: Slot :: i in order ==> !Keyed(bufs[i], dev, blockno)
  {
    if order == [] then None
    else if Keyed(bufs[order[0]], dev, blockno) then Some(order[0])
    else FindKey(bufs, order[1..], dev, blockno)
  }

  /** The first unreferenced buffer from the back of the list. */
  function FindFree(bufs: seq<Buf>, order: seq<Slot>): (r: Option<Slot>)
    requires |bufs| == NBUF
    ensures r.Some? ==> r.value in order && bufs[r.value].refcnt == 0
    ensures r.None? ==> forall i: Slot :: i in order ==> bufs[i].refcnt > 0
  {
    if order == [] then None
    else if bufs[order[|order| - 1]].refcnt == 0 then Some(order[|order| - 1])
    else FindFree(bufs, order[..|order| - 1])
  }

  /** Slot i is unreferenced, and the list's order from i on has no other such buffer: of those that can be
      recycled it is the least recently used. */
  ghost predicate LeastRecent(bufs: seq<Buf>, order: seq<Slot>, i: Slot)
    requires |bufs| == NBUF
  {
    exists k :: 0 <= k < |order| && order[k] == i && bufs[i].refcnt == 0 && AllHeld(bufs, order[k + 1..])
  }

  ghost predicate AllHeld(bufs: seq<Buf>, order: seq<Slot>)
    requires |bufs| == NBUF
  {
    forall m :: 0 <= m < |order| ==> bufs[order[m]].refcnt > 0
  }

  lemma {:induction false} FreeIsLeastRecent(bufs: seq<Buf>, order: seq<Slot>, k: nat)
    requires |bufs| == NBUF && k <= |order| && AllHeld(bufs, order[k..]) && FindFree(bufs, order[..k]).Some?
    ensures LeastRecent(bufs, order, FindFree(bufs, order[..k]).value)
  {
    var n := k - 1;
    assert order[..k][..n] == order[..n] && order[..k][n] == order[n];
    if bufs[order[n]].refcnt > 0 {
      assert order[n..] == [order[n]] + order[k..];
      FreeIsLeastRecent(bufs, order, n);
    }
  }

  /** bget: the buffer for a block, recycled if need be. */
  function Get(c: Cache, dev: nat, blockno: nat): (r: Fetch)
    requires |c.bufs| == NBUF
  {
    match FindKey(c.bufs, c.order, dev, blockno)
    case Some(i) => Got(AddRef(c, i, 1), i)
    case None =>
      match FindFree(c.bufs, c.order)
      case Some(i) => Got(c.(bufs := c.bufs[i := Buf(false, dev, blockno, 1, c.bufs[i].data)]), i)
      case None => NoBuffers
  }

  /** bread: bget, then fill an invalid buffer from the disk. */
  function Read(c: Cache, disk: seq<Block>, dev: nat, blockno: nat): Fetch
    requires |c.bufs| == NBUF && blockno < |disk|
  {
    match Get(c, dev, blockno)
    case NoBuffers => NoBuffers
    case Got(c1, i) => Got(Fill(c1, disk, i), i)
  }

  function Fill(c: Cache, disk: seq<Block>, i: Slot): (r: Cache)
    requires |c.bufs| == NBUF && c.bufs[i].blockno < |disk|
    ensures r.order == c.order && |r.bufs| == NBUF
  {
    if c.bufs[i].valid then c
    else c.(bufs := c.bufs[i := c.bufs[i].(valid := true, data := disk[c.bufs[i].blockno])])
  }

  function SetData(c: Cache, i: Slot, data: Block): (r: Cache)
    requires |c.bufs| == NBUF
    ensures r.order == c.order && |r.bufs| == NBUF
  {
    c.(bufs := c.bufs[i := c.bufs[i].(data := data)])
  }

  function AddRef(c: Cache, i: Slot, delta: int): (r: Cache)
    requires |c.bufs| == NBUF && c.bufs[i].refcnt + delta >= 0
    ensures r.order == c.order && |r.bufs| == NBUF
  {
    c.(bufs := c.bufs[i := c.bufs[i].(refcnt := c.bufs[i].refcnt + delta)])
  }

  /** Moves an element of the list to its front. */
  function ToFront(order: seq<Slot>, i: Slot): (r: seq<Slot>)
    ensures multiset(r) == if i in order then multiset(order) else multiset(order) + multiset{i}
  {
    if i in order then
      var k := IndexOf(order, i);
      assert order == order[..k] + [i] + order[k + 1..];
      [i] + order[..k] + order[k + 1..]
    else [i] + order
  }

  /** brelse: drop a reference; an unreferenced buffer becomes the most recently used. */
  function Release(c: Cache, i: Slot): (r: Cache)
    requires |c.bufs| == NBUF && c.bufs[i].refcnt >= 1
    ensures |r.bufs| == NBUF
  {
    var c1 := AddRef(c, i, -1);
    if c1.bufs[i].refcnt == 0 then c1.(order := ToFront(c1.order, i)) else c1
  }

  /** What bget does to a well-formed cache. */
  lemma GetSpec(c: Cache, dev: nat, blockno: nat)
    requires CacheOk(c) && dev != 0
    ensures var r := Get(c, dev, blockno);
      && (r.NoBuffers? ==> forall i: Slot :: !Keyed(c.bufs[i], dev, blockno) && c.bufs[i].refcnt > 0)
      && (r.Got? ==>
            var c', i := r.cache, r.slot;
            && CacheOk(c') && c'.order == c.order
            && (if Keyed(c.bufs[i], dev, blockno)
                then c'.bufs == c.bufs[i := c.bufs[i].(refcnt := c.bufs[i].refcnt + 1)]
                else
                  && (forall j: Slot :: !Keyed(c.bufs[j], dev, blockno))
                  && c.bufs[i].refcnt == 0 && LeastRecent(c.bufs, c.order, i)
                  && c'.bufs == c.bufs[i := Buf(false, dev, blockno, 1, c.bufs[i].data)]))
  {
    forall i: Slot ensures i in c.order { ListHolds(c.order, i); }
    var r := Get(c, dev, blockno);
    if r.Got? {
      assert c.order[..|c.order|] == c.order;
      if FindKey(c.bufs, c.order, dev, blockno).None? { FreeIsLeastRecent(c.bufs, c.order, |c.order|); }
      forall i: Slot, j: Slot ensures !Clash(r.cache.bufs, i, j) {
        assert !Clash(c.bufs, i, j);
        assert !Clash(c.bufs, j, i);
      }
    }
  }

  /** Operations that keep every key keep uniqueness. */
  lemma SameKeys(bufs: seq<Buf>, bufs': seq<Buf>)
    requires |bufs| == |bufs'| == NBUF && UniqueKeys(bufs)
    requires forall i: Slot :: bufs'[i].dev == bufs[i].dev && bufs'[i].blockno == bufs[i].blockno
    ensures UniqueKeys(bufs')
  {
    forall i: Slot, j: Slot ensures !Clash(bufs', i, j) {
      assert !Clash(bufs, i, j);
    }
  }
}
