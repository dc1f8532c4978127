/** kernel/bio.c as it is written: buffers in an array, threaded on a circular doubly linked
    list that brelse relinks in place. Each operation is proved to do what CacheModel says. */
module BufferCache {
  import opened Blocks
  import opened Counting
  import opened Options
  import opened CacheModel

  // Index NBUF of the link arrays is the list head, bcache.head.
  const HEAD: nat := NBUF

  /** The nodes in list order, from the head round to the head again. */
  ghost function Ring(order: seq<Slot>): (r: seq<nat>)
    ensures |r| == |order| + 2 && forall k :: 0 <= k < |r| ==> r[k] <= NBUF
  {
    [HEAD] + order + [HEAD]
  }

  /** Nodes k and k + 1 of the ring point at each other. */
  ghost predicate Tied(next: seq<nat>, prev: seq<nat>, order: seq<Slot>, k: nat)
    requires |next| == |prev| == NBUF + 1 && k <= |order|
  {
    var r := Ring(order);
    next[r[k]] == r[k + 1] && prev[r[k + 1]] == r[k]
  }

  /** The links spell out exactly the given order, forwards and backwards. */
  ghost predicate Linked(next: seq<nat>, prev: seq<nat>, order: seq<Slot>)
    requires |next| == |prev| == NBUF + 1
  {
    forall k: nat :: k <= |order| ==> Tied(next, prev, order, k)
  }

  lemma ListOnce(order: seq<Slot>)
    requires ListOk(order)
    ensures |order| == NBUF && Once(order)
  {
    assert |order| == |multiset(order)| == |multiset(AllSlots())| == |AllSlots()|;
    forall i, j | 0 <= i < j < |order| ensures order[i] != order[j] {
      var x := order[i];
      SlotOnce(x);
      assert order == order[..j] + [order[j]] + order[j + 1..];
      assert multiset(order) == multiset(order[..j]) + multiset{order[j]} + multiset(order[j + 1..]);
      assert order[..j][i] == x;
      assert multiset(order[..j])[x] >= 1;
    }
  }

  lemma SlotOnce(x: Slot)
    ensures multiset(AllSlots())[x] == 1
  {
    var s := AllSlots();
    assert s == s[..x] + [x] + s[x + 1..];
    assert multiset(s) == multiset(s[..x]) + multiset{x} + multiset(s[x + 1..]);
    assert x !in s[..x];
    assert x !in s[x + 1..];
  }

  /** Taking the node at position k out of the list. */
  lemma UnlinkOk(next: seq<nat>, prev: seq<nat>, order: seq<Slot>, k: nat)
    requires |next| == |prev| == NBUF + 1 && Linked(next, prev, order) && Once(order) && k < |order|
    requires next[order[k]] <= NBUF && prev[order[k]] <= NBUF
    ensures var n, q := next[order[k]], prev[order[k]];
      Linked(next[q := n], prev[n := q], order[..k] + order[k + 1..])
  {
    var r := Ring(order);
    var rest := order[..k] + order[k + 1..];
    var r' := Ring(rest);
    assert r[k + 1] == order[k];
    assert Tied(next, prev, order, k) && Tied(next, prev, order, k + 1);
    var next', prev' := next[r[k] := r[k + 2]], prev[r[k + 2] := r[k]];
    forall m: nat | m <= |rest| ensures Tied(next', prev', rest, m) {
      var a := if m <= k then m else m + 1;
      assert r'[m] == r[a];
      assert r'[m + 1] == r[if m + 1 <= k then m + 1 else m + 2];
      assert Tied(next, prev, order, a);
      if m != k {
        assert r[a] != r[k];
        assert r[a + 1] != r[k + 2];
      }
    }
  }

  ghost function FrontNext(next: seq<nat>, i: Slot): (r: seq<nat>)
    requires |next| == NBUF + 1
  {
    next[i := next[HEAD]][HEAD := i]
  }

  ghost function FrontPrev(next: seq<nat>, prev: seq<nat>, i: Slot): (r: seq<nat>)
    requires |next| == |prev| == NBUF + 1 && next[HEAD] <= NBUF
  {
    prev[i := HEAD][next[HEAD] := i]
  }

  /** Putting a node that is not in the list at its front. */
  lemma LinkFrontOk(next: seq<nat>, prev: seq<nat>, order: seq<Slot>, i: Slot)
    requires |next| == |prev| == NBUF + 1 && Linked(next, prev, order) && Once(order) && i !in order
    requires next[HEAD] <= NBUF
    ensures Linked(FrontNext(next, i), FrontPrev(next, prev, i), [i] + order)
  {
    var r := Ring(order);
    var r' := Ring([i] + order);
    assert Tied(next, prev, order, 0);
    var next', prev' := FrontNext(next, i), FrontPrev(next, prev, i);
    forall m: nat | m <= |order| + 1 ensures Tied(next', prev', [i] + order, m) {
      if m >= 1 {
        assert r'[m + 1] == r[m];
        if m >= 2 {
          assert r'[m] == r[m - 1];
          assert Tied(next, prev, order, m - 1);
          assert r[m - 1] == order[m - 2];
          assert r[m] != r[1];
        }
      }
    }
  }

  lemma MovedToFront(was: seq<Slot>, b: Slot, now: seq<Slot>)
    requires ListOk(was) && b in was
    requires var k := IndexOf(was, b); now == [b] + (was[..k] + was[k + 1..])
    ensures now == ToFront(was, b) && ListOk(now)
  {
    hide AllSlots, IndexOf;
    var k := IndexOf(was, b);
    assert now == [b] + was[..k] + was[k + 1..];
  }

  lemma FindKeyStep(bufs: seq<Buf>, order: seq<Slot>, dev: nat, blockno: nat, k: nat)
    requires |bufs| == NBUF && k <= |order|
    ensures FindKey(bufs, order[k..], dev, blockno) ==
      if k == |order| then None
      else if Keyed(bufs[order[k]], dev, blockno) then Some(order[k])
      else FindKey(bufs, order[k + 1..], dev, blockno)
  {
    if k < |order| { assert order[k..][1..] == order[k + 1..]; }
  }

  /** struct bcache. */
  class BufferCache {
    var buf: array<Buf>
    var next: array<nat>
    var prev: array<nat>
    ghost var order: seq<Slot>

    ghost predicate Valid()
      reads this, buf, next, prev
    {
      && buf.Length == NBUF && next.Length == prev.Length == NBUF + 1 && next != prev
      && ListOk(order) && Linked(next[..], prev[..], order)
    }

    ghost function Model(): Cache
      reads this, buf
    {
      Cache(buf[..], order)
    }

    /** The list is sound and holds the given buffers, no matter which. */
    ghost predicate Threaded()
      reads this, next, prev
    {
      && next.Length == prev.Length == NBUF + 1 && next != prev
      && Once(order) && Linked(next[..], prev[..], order)
    }

    /** The four stores that put a buffer behind the head. */
    method LinkFront(b: Slot)
      requires Threaded() && b !in order
      modifies next, prev, `order
      ensures Threaded() && order == [b] + old(order)
    {
      ghost var nx, pv := next[..], prev[..];
      assert Tied(nx, pv, order, 0);
      LinkFrontOk(nx, pv, order, b);
      next[b] := next[HEAD];
      prev[b] := HEAD;
      prev[next[HEAD]] := b;
      next[HEAD] := b;
      assert next[..] == FrontNext(nx, b);
      assert prev[..] == FrontPrev(nx, pv, b);
      order := [b] + order;
    }

    /** The two stores that take a buffer out of the list. */
    method Unlink(b: Slot)
      requires Threaded() && b in order
      modifies next, prev, `order
      ensures Threaded() && b !in order
      ensures var k := IndexOf(old(order), b); order == old(order)[..k] + old(order)[k + 1..]
    {
      ghost var k := IndexOf(order, b);
      ghost var nx, pv := next[..], prev[..];
      assert Tied(nx, pv, order, k) && Tied(nx, pv, order, k + 1);
      UnlinkOk(nx, pv, order, k);
      prev[next[b]] := prev[b];
      next[prev[b]] := next[b];
      assert next[..] == nx[pv[b] := nx[b]];
      assert prev[..] == pv[nx[b] := pv[b]];
      order := order[..k] + order[k + 1..];
    }

    /** binit: thread every buffer on the list, each at the front. */
    constructor (zero: Block)
      ensures Valid() && fresh(buf) && fresh(next) && fresh(prev)
      ensures Model().bufs == seq(NBUF, _ => Buf(false, 0, 0, 0, zero))
      ensures |order| == NBUF && forall k :: 0 <= k < NBUF ==> order[k] == NBUF - 1 - k
    {
      buf := new Buf[NBUF](_ => Buf(false, 0, 0, 0, zero));
      next := new nat[NBUF + 1](_ => HEAD);
      prev := new nat[NBUF + 1](_ => HEAD);
      order := [];
      new;
      for b := 0 to NBUF
        modifies next, prev, `order
        invariant |order| == b && (forall k :: 0 <= k < b ==> order[k] == b - 1 - k)
        invariant Threaded()
      {
        LinkFront(b);
      }
      AllBuffersListed(order);
    }

    /** bget's first loop: forwards from the most recently used, for the block. */
    method FindCached(dev: nat, blockno: nat) returns (r: Option<Slot>)
      requires Valid()
      ensures r == FindKey(buf[..], order, dev, blockno)
    {
      ListOnce(order);
      hide ListOk, Once, FindKey;
      ghost var ring := Ring(order);
      ghost var k := 1;
      assert Tied(next[..], prev[..], order, 0);
      var b := next[HEAD];
      assert order[0..] == order;
      while b != HEAD
        invariant 1 <= k <= NBUF + 1 && b == ring[k]
        invariant FindKey(buf[..], order, dev, blockno) == FindKey(buf[..], order[k - 1..], dev, blockno)
        decreases NBUF + 1 - k
      {
        FindKeyStep(buf[..], order, dev, blockno, k - 1);
        if buf[b].dev == dev && buf[b].blockno == blockno {
          return Some(b);
        }
        assert Tied(next[..], prev[..], order, k);
        b := next[b];
        k := k + 1;
      }
      FindKeyStep(buf[..], order, dev, blockno, NBUF);
      r := None;
    }

    /** bget's second loop: backwards from the least recently used, for an unreferenced buffer. */
    method FindUnused() returns (r: Option<Slot>)
      requires Valid()
      ensures r == FindFree(buf[..], order)
    {
      ListOnce(order);
      ghost var ring := Ring(order);
      ghost var k := NBUF;
      assert Tied(next[..], prev[..], order, NBUF);
      var b := prev[HEAD];
      assert order[..NBUF] == order;
      while b != HEAD
        invariant 0 <= k <= NBUF && b == ring[k]
        invariant FindFree(buf[..], order) == FindFree(buf[..], order[..k])
        decreases k
      {
        assert k >= 1;
        assert order[..k][k - 1] == b && order[..k][..k - 1] == order[..k - 1];
        if buf[b].refcnt == 0 {
          return Some(b);
        }
        assert Tied(next[..], prev[..], order, k - 1);
        b := prev[b];
        k := k - 1;
      }
      assert order[..k] == [];
      r := None;
    }

    /** bget: the cached buffer, else the least recently used one that nobody references. */
    method Bget(dev: nat, blockno: nat) returns (r: Option<Slot>)
      requires Valid()
      modifies buf
      ensures Valid()
      ensures match Get(old(Model()), dev, blockno)
              case Got(c, i) => r == Some(i) && Model() == c
              case NoBuffers => r == None && Model() == old(Model())
    {
      r := FindCached(dev, blockno);
      if r.Some? {
        buf[r.value] := buf[r.value].(refcnt := buf[r.value].refcnt + 1);
        return;
      }
      r := FindUnused();
      if r.Some? {
        buf[r.value] := Buf(false, dev, blockno, 1, buf[r.value].data);
      }
    }

    method MoveToFront(b: Slot)
      requires Valid()
      modifies next, prev, `order
      ensures Valid() && order == ToFront(old(order), b)
    {
      hide Linked, Once, ListOk, ToFront;
      ListOnce(order);
      ListHolds(order, b);
      ghost var was, k := order, IndexOf(order, b);
      Unlink(b);
      LinkFront(b);
      MovedToFront(was, b, order);
    }

    /** brelse, after the sleep lock has been released. */
    method Brelse(b: Slot)
      requires Valid() && buf[b].refcnt >= 1
      modifies buf, next, prev, `order
      ensures Valid() && Model() == Release(old(Model()), b)
    {
      hide Linked, ListOk;
      buf[b] := buf[b].(refcnt := buf[b].refcnt - 1);
      if buf[b].refcnt == 0 {
        MoveToFront(b);
      }
    }

    method Bpin(b: Slot)
      requires Valid()
      modifies buf
      ensures Valid() && Model() == AddRef(old(Model()), b, 1)
    {
      buf[b] := buf[b].(refcnt := buf[b].refcnt + 1);
    }

    method Bunpin(b: Slot)
      requires Valid() && buf[b].refcnt >= 1
      modifies buf
      ensures Valid() && Model() == AddRef(old(Model()), b, -1)
    {
      buf[b] := buf[b].(refcnt := buf[b].refcnt - 1);
    }
  }

  lemma AllBuffersListed(order: seq<Slot>)
    requires |order| == NBUF && forall k :: 0 <= k < NBUF ==> order[k] == NBUF - 1 - k
    ensures ListOk(order)
  {
    ReversedSlots(order, NBUF);
    assert AllSlots()[..NBUF] == AllSlots() && order[0..] == order;
  }

  lemma {:induction false} ReversedSlots(order: seq<Slot>, n: nat)
    requires |order| == NBUF && n <= NBUF && forall k :: 0 <= k < NBUF ==> order[k] == NBUF - 1 - k
    ensures multiset(order[NBUF - n..]) == multiset(AllSlots()[..n])
  {
    if n > 0 {
      ReversedSlots(order, n - 1);
      assert order[NBUF - n..] == [order[NBUF - n]] + order[NBUF - (n - 1)..];
      assert AllSlots()[..n] == AllSlots()[..n - 1] + [AllSlots()[n - 1]];
    }
  }
}
