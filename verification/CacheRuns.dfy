/** Runs of the buffer cache: the buffer that bget recycles is the one that was released longest ago. */
module CacheRuns {
  import opened Blocks
  import opened Options
  import opened CacheModel

  /** What callers and the log do to the cache. */
  datatype Op = Take(dev: nat, blockno: nat) | Drop(i: Slot) | Pin(i: Slot) | Unpin(i: Slot)

  /** The cache, and for each buffer when its last reference was last dropped: 0 for never. */
  datatype State = State(cache: Cache, last: seq<nat>, now: nat)

  /** A buffer is dropped by who has it; bunpin comes before the brelse of a reference taken for it. */
  ghost predicate Possible(s: State, op: Op)
    requires |s.cache.bufs| == NBUF
  {
    match op
    case Take(dev, blockno) => dev != 0 && Get(s.cache, dev, blockno).Got?
    case Drop(i) => s.cache.bufs[i].refcnt >= 1
    case Pin(i) => s.cache.bufs[i].refcnt >= 1
    case Unpin(i) => s.cache.bufs[i].refcnt >= 2
  }

  ghost function Step(s: State, op: Op): State
    requires |s.cache.bufs| == NBUF && |s.last| == NBUF && Possible(s, op)
  {
    match op
    case Take(dev, blockno) => State(Get(s.cache, dev, blockno).cache, s.last, s.now + 1)
    case Drop(i) =>
      var c := Release(s.cache, i);
      State(c, if c.bufs[i].refcnt == 0 then s.last[i := s.now] else s.last, s.now + 1)
    case Pin(i) => State(AddRef(s.cache, i, 1), s.last, s.now + 1)
    case Unpin(i) => State(AddRef(s.cache, i, -1), s.last, s.now + 1)
  }

  /** i comes before j in the list. */
  ghost predicate Before(order: seq<Slot>, i: Slot, j: Slot) {
    exists a, b :: 0 <= a < b < |order| && order[a] == i && order[b] == j
  }

  /** Of two unreferenced buffers the one released later comes first. */
  ghost predicate ByRelease(s: State, i: Slot, j: Slot)
    requires |s.cache.bufs| == NBUF && |s.last| == NBUF
  {
    s.cache.bufs[i].refcnt == 0 && s.cache.bufs[j].refcnt == 0 && s.last[i] > s.last[j] ==> Before(s.cache.order, i, j)
  }

  ghost predicate Lru(s: State) {
    && CacheOk(s.cache) && |s.last| == NBUF
    && (forall i: Slot :: s.last[i] < s.now)
    && forall i: Slot, j: Slot :: ByRelease(s, i, j)
  }

  // ---------- what every step keeps ----------

  /** The list stays, and no buffer becomes unreferenced. */
  lemma SameOrder(s: State, s': State)
    requires Lru(s) && CacheOk(s'.cache) && s'.cache.order == s.cache.order && s'.last == s.last && s'.now == s.now + 1
    requires forall i: Slot :: s'.cache.bufs[i].refcnt == 0 ==> s.cache.bufs[i].refcnt == 0
    ensures Lru(s')
  {
    hide ListOk, UniqueKeys, Before;
    forall i: Slot, j: Slot ensures ByRelease(s', i, j) { assert ByRelease(s, i, j); }
  }

  lemma FrontFirst(order: seq<Slot>, i: Slot, j: Slot)
    requires j in order && i != j
    ensures Before(ToFront(order, i), i, j)
  {
    var r := ToFront(order, i);
    assert j in multiset(order);
    assert j in multiset(r);
    assert j in r;
    var b :| 0 <= b < |r| && r[b] == j;
    assert r[0] == i;
  }

  lemma FrontKeeps(order: seq<Slot>, i: Slot, j: Slot, k: Slot)
    requires Before(order, j, k) && i != j && i != k
    ensures Before(ToFront(order, i), j, k)
  {
    var a, b :| 0 <= a < b < |order| && order[a] == j && order[b] == k;
    var a' := FrontAt(order, i, a);
    var b' := FrontAt(order, i, b);
    hide ToFront;
    FrontAbove(order, i, a, b, a', b');
  }

  /** Where the element at place a goes. */
  ghost function Shifted(order: seq<Slot>, i: Slot, a: nat): nat {
    if i in order && a > IndexOf(order, i) then a else a + 1
  }

  lemma FrontAt(order: seq<Slot>, i: Slot, a: nat) returns (a': nat)
    requires a < |order| && order[a] != i
    ensures a' == Shifted(order, i, a) < |ToFront(order, i)| && ToFront(order, i)[a'] == order[a]
  {
    hide IndexOf;
    a' := Shifted(order, i, a);
    if i in order { Pieces(order, IndexOf(order, i), i, a); }
  }

  lemma Pieces<T>(s: seq<T>, k: nat, x: T, a: nat)
    requires k < |s| && a < |s| && a != k
    ensures |[x] + s[..k] + s[k + 1..]| == |s|
    ensures ([x] + s[..k] + s[k + 1..])[if a > k then a else a + 1] == s[a]
  {
  }

  lemma FrontAbove(order: seq<Slot>, i: Slot, a: nat, b: nat, a': nat, b': nat)
    requires a < b < |order| && a' == Shifted(order, i, a) && b' == Shifted(order, i, b)
    requires order[a] != i && order[b] != i
    ensures a' < b'
  {
    if i in order { var m := IndexOf(order, i); }
  }

  /** The buffer whose last reference goes moves to the front. */
  lemma ToFrontKeeps(s: State, s': State, i: Slot)
    requires Lru(s) && CacheOk(s'.cache) && s'.cache.order == ToFront(s.cache.order, i)
    requires s'.last == s.last[i := s.now] && s'.now == s.now + 1
    requires forall j: Slot :: j != i ==> s'.cache.bufs[j] == s.cache.bufs[j]
    ensures Lru(s')
  {
    hide Before, ToFront;
    forall j: Slot, k: Slot ensures ByRelease(s', j, k) {
      assert ByRelease(s, j, k);
      if s'.cache.bufs[j].refcnt == 0 && s'.cache.bufs[k].refcnt == 0 && s'.last[j] > s'.last[k] {
        if j == i {
          ListHolds(s.cache.order, k);
          FrontFirst(s.cache.order, i, k);
        } else {
          assert k != i;
          FrontKeeps(s.cache.order, i, j, k);
        }
      }
    }
  }

  lemma ReleaseOk(c: Cache, i: Slot)
    requires CacheOk(c) && c.bufs[i].refcnt >= 1
    ensures var r := Release(c, i);
      && CacheOk(r) && r.bufs == c.bufs[i := c.bufs[i].(refcnt := c.bufs[i].refcnt - 1)]
      && r.order == if c.bufs[i].refcnt == 1 then ToFront(c.order, i) else c.order
  {
    ListHolds(c.order, i);
    SameKeys(c.bufs, Release(c, i).bufs);
  }

  lemma StepKeeps(s: State, op: Op)
    requires Lru(s) && Possible(s, op)
    ensures Lru(Step(s, op))
  {
    hide ToFront, Get, ListOk, ByRelease;
    var s' := Step(s, op);
    match op {
      case Take(dev, blockno) =>
        GetSpec(s.cache, dev, blockno);
        SameOrder(s, s');
      case Drop(i) =>
        ReleaseOk(s.cache, i);
        if s.cache.bufs[i].refcnt == 1 { ToFrontKeeps(s, s', i); } else { SameOrder(s, s'); }
      case Pin(i) =>
        SameKeys(s.cache.bufs, s'.cache.bufs);
        SameOrder(s, s');
      case Unpin(i) =>
        SameKeys(s.cache.bufs, s'.cache.bufs);
        SameOrder(s, s');
    }
  }

  // ---------- runs ----------

  ghost predicate Run(states: seq<State>, ops: seq<Op>) {
    && |states| == |ops| + 1
    && Fresh(states[0])
    && forall k :: 0 <= k < |ops| ==>
         && |states[k].cache.bufs| == NBUF && |states[k].last| == NBUF
         && Possible(states[k], ops[k]) && states[k + 1] == Step(states[k], ops[k])
  }

  /** Nothing has been released yet. */
  ghost predicate Fresh(s: State) {
    CacheOk(s.cache) && s.last == seq(NBUF, _ => 0) && s.now == 1
  }

  lemma {:induction false} RunKeeps(states: seq<State>, ops: seq<Op>, k: nat)
    requires Run(states, ops) && k < |states|
    ensures Lru(states[k])
  {
    hide Lru, Possible, Step;
    if k == 0 {
      FreshLru(states[0]);
    } else {
      RunKeeps(states, ops, k - 1);
      StepKeeps(states[k - 1], ops[k - 1]);
    }
  }

  lemma FreshLru(s: State)
    requires Fresh(s)
    ensures Lru(s)
  {
    hide CacheOk;
  }

  /** In every run, when bget takes an unreferenced buffer for another block, no unreferenced buffer was released
      before it. */
  lemma RecyclesOldest(states: seq<State>, ops: seq<Op>, k: nat, j: Slot)
    requires Run(states, ops) && k < |ops| && ops[k].Take? && states[k].cache.bufs[j].refcnt == 0
    requires !Keyed(states[k].cache.bufs[j], ops[k].dev, ops[k].blockno)
    ensures
      var s := states[k];
      var r := Get(s.cache, ops[k].dev, ops[k].blockno);
      && |s.last| == NBUF && r.Got?
      && (!Keyed(s.cache.bufs[r.slot], ops[k].dev, ops[k].blockno) ==> s.last[r.slot] <= s.last[j])
  {
    hide Get;
    RunKeeps(states, ops, k);
    var s := states[k];
    var i := Get(s.cache, ops[k].dev, ops[k].blockno).slot;
    GetSpec(s.cache, ops[k].dev, ops[k].blockno);
    if !Keyed(s.cache.bufs[i], ops[k].dev, ops[k].blockno) && s.last[i] > s.last[j] {
      assert ByRelease(s, i, j);
      LastIsLast(s.cache, i, j);
    }
  }

  /** No unreferenced buffer comes after the one bget finds. */
  lemma LastIsLast(c: Cache, i: Slot, j: Slot)
    requires CacheOk(c) && LeastRecent(c.bufs, c.order, i) && c.bufs[j].refcnt == 0
    ensures !Before(c.order, i, j)
  {
    if Before(c.order, i, j) {
      var a, b :| 0 <= a < b < |c.order| && c.order[a] == i && c.order[b] == j;
      HeldAfter(c, i, a, b);
    }
  }

  lemma HeldAfter(c: Cache, i: Slot, a: nat, b: nat)
    requires CacheOk(c) && LeastRecent(c.bufs, c.order, i) && a < b < |c.order| && c.order[a] == i
    ensures c.bufs[c.order[b]].refcnt > 0
  {
    var k :| 0 <= k < |c.order| && c.order[k] == i && c.bufs[i].refcnt == 0 && AllHeld(c.bufs, c.order[k + 1..]);
    AtOnce(c.order, a, k);
    assert c.order[k + 1..][b - k - 1] == c.order[b];
  }

  /** A buffer is in one place of the list. */
  lemma AtOnce(order: seq<Slot>, a: nat, b: nat)
    requires ListOk(order) && a < |order| && b < |order| && order[a] == order[b]
    ensures a == b
  {
    if a < b { Twice(order, a, b); } else if b < a { Twice(order, b, a); }
  }

  lemma Twice(order: seq<Slot>, a: nat, b: nat)
    requires a < b < |order| && order[a] == order[b]
    ensures !ListOk(order)
  {
    var i := order[a];
    assert order == order[..a] + [i] + order[a + 1..b] + [i] + order[b + 1..];
    assert multiset(order)[i] >= 2;
    OneEach(i);
  }

  lemma OneEach(i: Slot)
    ensures multiset(AllSlots())[i] == 1
  {
    var s := AllSlots();
    assert s == s[..i] + [i] + s[i + 1..];
    assert i !in s[..i] && i !in s[i + 1..];
  }
}
