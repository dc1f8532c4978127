/** The user-level allocator: one circular free list in address order, with neighbouring free blocks
    merged. Addresses count units of sizeof(Header) bytes. */
module Umalloc {

  import opened Options

  const HEADER: nat := 16      // sizeof(Header)
  const MINCORE: nat := 4096

  // ---------- the list ----------

  ghost predicate Sorted(order: seq<nat>) {
    forall i, j :: 0 <= i < j < |order| ==> order[i] < order[j]
  }

  ghost function Succ(order: seq<nat>, i: nat): nat
    requires i < |order|
  {
    if i + 1 < |order| then order[i + 1] else order[0]
  }

  ghost predicate LinkOk(order: seq<nat>, ptr: map<nat, nat>, i: nat) {
    i < |order| ==> order[i] in ptr && ptr[order[i]] == Succ(order, i)
  }

  /** The pointers lead from each block to the next and from the last to the first. */
  ghost predicate Linked(order: seq<nat>, ptr: map<nat, nat>) {
    forall i: nat :: i < |order| ==> LinkOk(order, ptr, i)
  }

  function At(m: map<nat, nat>, b: nat): nat {
    if b in m then m[b] else 0
  }

  /** Block i ends before block i + 1 starts; exactly there it may end only where loose allows it. */
  ghost predicate GapOk(order: seq<nat>, size: map<nat, nat>, loose: set<nat>, i: nat) {
    i + 1 < |order| ==> order[i] + At(size, order[i]) < order[i + 1] + if i in loose then 1 else 0
  }

  ghost predicate Gaps(order: seq<nat>, size: map<nat, nat>, loose: set<nat>) {
    forall i: nat :: i < |order| ==> GapOk(order, size, loose, i)
  }

  // ---------- who has which unit ----------

  ghost predicate Has(owner: map<nat, nat>, b: nat, n: nat) {
    forall u :: b <= u < b + n ==> u in owner && owner[u] == b
  }

  /** u lies in the block that owner says, and that block is in use or on the list. */
  ghost predicate InBlock(base: nat, order: seq<nat>, size: map<nat, nat>, used: map<nat, nat>, b: nat, u: nat) {
    b <= u < b + At(size, b) && (b in used || (b in order && b != base))
  }

  /** Blocks in use and blocks on the list tile the arena, which is the domain of owner. */
  ghost predicate Tiled(base: nat, order: seq<nat>, size: map<nat, nat>, used: map<nat, nat>, owner: map<nat, nat>) {
    && (forall u :: u in owner ==> base < u && InBlock(base, order, size, used, owner[u], u))
    && (forall b :: b in used ==>
          b !in order && base < b && used[b] > 0 && At(size, b) == used[b] && Has(owner, b, used[b]))
    && (forall b :: b in order && b != base ==> base < b && At(size, b) > 0 && Has(owner, b, At(size, b)))
    && At(size, base) == 0
  }

  ghost predicate Core(base: nat, order: seq<nat>, size: map<nat, nat>, used: map<nat, nat>, owner: map<nat, nat>,
          loose: set<nat>) {
    order != [] && order[0] == base && Sorted(order) && Gaps(order, size, loose)
      && Tiled(base, order, size, used, owner)
  }

  // ---------- where a block belongs ----------

  ghost predicate Between(order: seq<nat>, k: nat, b: nat) {
    k < |order| && order[k] < b && (k + 1 < |order| ==> b < order[k + 1])
  }

  lemma {:induction false} Position(order: seq<nat>, b: nat, n: nat) returns (k: nat)
    requires Sorted(order) && 0 < n <= |order| && order[0] < b && b !in order
    requires n < |order| ==> b < order[n]
    ensures Between(order, k, b)
    decreases n
  {
    if order[n - 1] < b {
      k := n - 1;
    } else {
      assert order[n - 1] != b;
      k := Position(order, b, n - 1);
    }
  }

  function Inserted(order: seq<nat>, k: nat, b: nat): seq<nat>
    requires k < |order|
  {
    order[..k + 1] + [b] + order[k + 1..]
  }

  function Without(order: seq<nat>, i: nat): seq<nat>
    requires i < |order|
  {
    order[..i] + order[i + 1..]
  }

  lemma LinkInsert(order: seq<nat>, ptr: map<nat, nat>, k: nat, b: nat)
    requires Sorted(order) && Linked(order, ptr) && k < |order| && b !in order
    ensures Linked(Inserted(order, k, b), ptr[b := Succ(order, k)][order[k] := b])
  {
    var order', ptr' := Inserted(order, k, b), ptr[b := Succ(order, k)][order[k] := b];
    forall i: nat | i < |order'| ensures LinkOk(order', ptr', i) {
      if i < k {
        assert LinkOk(order, ptr, i);
      } else if i > k + 1 {
        assert LinkOk(order, ptr, i - 1);
      }
    }
  }

  lemma LinkRemove(order: seq<nat>, ptr: map<nat, nat>, i: nat)
    requires Sorted(order) && Linked(order, ptr) && i + 1 < |order|
    ensures order[i + 1] in ptr && Linked(Without(order, i + 1), ptr[order[i] := ptr[order[i + 1]]])
  {
    assert LinkOk(order, ptr, i + 1);
    var order', ptr' := Without(order, i + 1), ptr[order[i] := ptr[order[i + 1]]];
    forall j: nat | j < |order'| ensures LinkOk(order', ptr', j) {
      if j < i {
        assert LinkOk(order, ptr, j);
      } else if j > i {
        assert LinkOk(order, ptr, j + 1);
      }
    }
  }

  // ---------- freeing: put the block in, then merge ----------

  /** The block goes on the list where it belongs; for now it may touch its neighbours. */
  lemma CoreInsert(base: nat, order: seq<nat>, size: map<nat, nat>, used: map<nat, nat>, owner: map<nat, nat>,
          k: nat, b: nat)
    requires Core(base, order, size, used, owner, {}) && b in used && Between(order, k, b)
    ensures Core(base, Inserted(order, k, b), size, used - {b}, owner, {k, k + 1})
  {
    var order' := Inserted(order, k, b);
    InsertedElems(order, k, b);
    InsertGaps(base, order, size, used, owner, k, b);
    InsertTiled(base, order, size, used, owner, k, b);
    assert Sorted(order');
  }

  lemma InsertedElems(order: seq<nat>, k: nat, b: nat)
    requires k < |order|
    ensures forall x :: x in Inserted(order, k, b) <==> x in order || x == b
    ensures |Inserted(order, k, b)| == |order| + 1 && Inserted(order, k, b)[0] == order[0]
  {
    var order' := Inserted(order, k, b);
    forall x | x in order ensures x in order' {
      var i :| 0 <= i < |order| && order[i] == x;
      assert order'[if i <= k then i else i + 1] == x;
    }
    assert order'[k + 1] == b;
  }

  lemma WithoutElems(order: seq<nat>, i: nat)
    requires i < |order| && Sorted(order)
    ensures forall x :: x in Without(order, i) <==> x in order && x != order[i]
    ensures |Without(order, i)| == |order| - 1 && (i > 0 ==> Without(order, i)[0] == order[0])
  {
    var order' := Without(order, i);
    forall x | x in order && x != order[i] ensures x in order' {
      var j :| 0 <= j < |order| && order[j] == x;
      assert order'[if j < i then j else j - 1] == x;
    }
  }

  /** Blocks do not overlap: a block that starts below another ends no later than that one starts. */
  lemma NoOverlap(base: nat, order: seq<nat>, size: map<nat, nat>, used: map<nat, nat>, owner: map<nat, nat>, a: nat,
          b: nat)
    requires Tiled(base, order, size, used, owner) && a < b
    requires (a in order || a in used) && (b in order || b in used)
    ensures a + At(size, a) <= b
  {
    assert Has(owner, b, At(size, b)) && b in owner && owner[b] == b;
    assert a != base ==> Has(owner, a, At(size, a));
  }

  lemma InsertGaps(base: nat, order: seq<nat>, size: map<nat, nat>, used: map<nat, nat>, owner: map<nat, nat>,
          k: nat, b: nat)
    requires Core(base, order, size, used, owner, {}) && b in used && Between(order, k, b)
    ensures Gaps(Inserted(order, k, b), size, {k, k + 1})
  {
    var order' := Inserted(order, k, b);
    NoOverlap(base, order, size, used, owner, order[k], b);
    if k + 1 < |order| { NoOverlap(base, order, size, used, owner, b, order[k + 1]); }
    hide Tiled, Sorted;
    var loose := {k, k + 1};
    forall i: nat | i < |order'| ensures GapOk(order', size, loose, i) {
      if i < k {
        assert GapOk(order, size, {}, i);
      } else if i > k + 1 {
        assert GapOk(order, size, {}, i - 1);
      }
    }
  }

  lemma InsertTiled(base: nat, order: seq<nat>, size: map<nat, nat>, used: map<nat, nat>, owner: map<nat, nat>,
          k: nat, b: nat)
    requires Tiled(base, order, size, used, owner) && b in used && k < |order|
    ensures Tiled(base, Inserted(order, k, b), size, used - {b}, owner)
  {
    hide Has, Inserted, At;
    InsertedElems(order, k, b);
  }

  /** A gap that is there need not be allowed to be missing. */
  lemma Tighten(base: nat, order: seq<nat>, size: map<nat, nat>, used: map<nat, nat>, owner: map<nat, nat>,
          loose: set<nat>, i: nat)
    requires Core(base, order, size, used, owner, loose)
        && (i + 1 < |order| ==> order[i] + At(size, order[i]) != order[i + 1])
    ensures Core(base, order, size, used, owner, loose - {i})
  {
    hide Tiled, Sorted;
    var tight := loose - {i};
    forall j: nat | j < |order| ensures GapOk(order, size, tight, j) {
      assert GapOk(order, size, loose, j);
    }
  }

  /** The units in [lo, hi) get a new owner. */
  ghost function Reown(owner: map<nat, nat>, lo: nat, hi: nat, b: nat): (r: map<nat, nat>)
    ensures r.Keys == owner.Keys
    ensures forall u :: u in owner ==> r[u] == if lo <= u < hi then b else owner[u]
  {
    map u | u in owner :: if lo <= u < hi then b else owner[u]
  }

  function Joined(size: map<nat, nat>, a: nat, b: nat): map<nat, nat> {
    size[a := At(size, a) + At(size, b)]
  }

  lemma MergeGaps(order: seq<nat>, size: map<nat, nat>, loose: set<nat>, i: nat)
    requires Sorted(order) && Gaps(order, size, loose) && i + 1 < |order|
        && order[i] + At(size, order[i]) == order[i + 1]
    requires forall j :: j in loose ==> j <= i
    ensures Gaps(Without(order, i + 1), Joined(size, order[i], order[i + 1]), loose - {i})
  {
    var order', size', loose' := Without(order, i + 1), Joined(size, order[i], order[i + 1]), loose - {i};
    forall j: nat | j < |order'| ensures GapOk(order', size', loose', j) {
      if j < i {
        assert GapOk(order, size, loose, j);
      } else {
        assert GapOk(order, size, loose, j + 1);
      }
    }
  }

  /** a and its right neighbour b become one block. */
  ghost predicate Merging(base: nat, order: seq<nat>, size: map<nat, nat>, used: map<nat, nat>, owner: map<nat, nat>,
          order': seq<nat>, size': map<nat, nat>, owner': map<nat, nat>, a: nat, b: nat) {
    && a in order && b in order && a != base && b != base && a + At(size, a) == b
    && (forall x :: x in order' <==> x in order && x != b)
    && (forall x :: At(size', x) == if x == a then At(size, a) + At(size, b) else At(size, x))
    && owner'.Keys == owner.Keys
    && (forall u :: u in owner ==> owner'[u] == if b <= u < b + At(size, b) then a else owner[u])
  }

  lemma MergeUnits(base: nat, order: seq<nat>, size: map<nat, nat>, used: map<nat, nat>, owner: map<nat, nat>,
          order': seq<nat>, size': map<nat, nat>, owner': map<nat, nat>, a: nat, b: nat)
    requires Tiled(base, order, size, used, owner)
        && Merging(base, order, size, used, owner, order', size', owner', a, b)
    ensures forall u :: u in owner' ==> base < u && InBlock(base, order', size', used, owner'[u], u)
  {
    hide At;
    assert Has(owner, b, At(size, b));
    forall u | u in owner' ensures base < u && InBlock(base, order', size', used, owner'[u], u) {
      assert InBlock(base, order, size, used, owner[u], u);
    }
  }

  lemma MergeBlocks(base: nat, order: seq<nat>, size: map<nat, nat>, used: map<nat, nat>, owner: map<nat, nat>,
          order': seq<nat>, size': map<nat, nat>, owner': map<nat, nat>, a: nat, b: nat)
    requires Tiled(base, order, size, used, owner)
        && Merging(base, order, size, used, owner, order', size', owner', a, b)
    ensures forall x :: x in used ==>
      && x !in order' && base < x && used[x] > 0 && At(size', x) == used[x] && Has(owner', x, used[x])
    ensures forall x :: x in order' && x != base ==> base < x && At(size', x) > 0 && Has(owner', x, At(size', x))
    ensures At(size', base) == 0
  {
    hide At, InBlock;
    assert Has(owner, a, At(size, a)) && Has(owner, b, At(size, b));
    forall x | x in used ensures Has(owner', x, used[x]) {
      assert Has(owner, x, used[x]);
    }
    forall x | x in order' && x != base ensures Has(owner', x, At(size', x)) {
      assert Has(owner, x, At(size, x));
    }
  }

  lemma MergeTiled(base: nat, order: seq<nat>, size: map<nat, nat>, used: map<nat, nat>, owner: map<nat, nat>, i: nat)
    requires Sorted(order) && Tiled(base, order, size, used, owner) && 0 < i && i + 1 < |order| && order[0] == base
    requires order[i] + At(size, order[i]) == order[i + 1]
    ensures
      var a, b := order[i], order[i + 1];
      Tiled(base, Without(order, i + 1), Joined(size, a, b), used, Reown(owner, b, b + At(size, b), a))
  {
    hide Without, Reown, Has, InBlock;
    WithoutElems(order, i + 1);
    var a, b := order[i], order[i + 1];
    var order', size', owner' := Without(order, i + 1), Joined(size, a, b), Reown(owner, b, b + At(size, b), a);
    assert Merging(base, order, size, used, owner, order', size', owner', a, b);
    MergeUnits(base, order, size, used, owner, order', size', owner', a, b);
    MergeBlocks(base, order, size, used, owner, order', size', owner', a, b);
  }

  lemma CoreMerge(base: nat, order: seq<nat>, size: map<nat, nat>, used: map<nat, nat>, owner: map<nat, nat>,
          loose: set<nat>, i: nat)
    requires Core(base, order, size, used, owner, loose) && 0 < i && i + 1 < |order|
    requires order[i] + At(size, order[i]) == order[i + 1] && forall j :: j in loose ==> j <= i
    ensures
      var a, b := order[i], order[i + 1];
      Core(base, Without(order, i + 1), Joined(size, a, b), used, Reown(owner, b, b + At(size, b), a), loose - {i})
  {
    hide Tiled, Gaps;
    WithoutElems(order, i + 1);
    MergeGaps(order, size, loose, i);
    MergeTiled(base, order, size, used, owner, i);
  }

  // ---------- allocating: take a block off the list, or its tail ----------

  lemma TakeGaps(order: seq<nat>, size: map<nat, nat>, i: nat)
    requires Sorted(order) && Gaps(order, size, {}) && 0 < i < |order|
    ensures Gaps(Without(order, i), size, {})
  {
    var order', none: set<nat> := Without(order, i), {};
    forall j: nat | j < |order'| ensures GapOk(order', size, none, j) {
      assert GapOk(order, size, none, j);
      if j >= i { assert GapOk(order, size, none, j + 1); }
    }
  }

  lemma CoreTake(base: nat, order: seq<nat>, size: map<nat, nat>, used: map<nat, nat>, owner: map<nat, nat>, i: nat)
    requires Core(base, order, size, used, owner, {}) && 0 < i < |order|
    ensures order[i] !in used
    ensures Core(base, Without(order, i), size, used[order[i] := At(size, order[i])], owner, {})
  {
    WithoutElems(order, i);
    TakeGaps(order, size, i);
    assert Sorted(Without(order, i));
    TakeTiled(base, order, Without(order, i), size, used, owner, order[i]);
  }

  lemma TakeTiled(base: nat, order: seq<nat>, order': seq<nat>, size: map<nat, nat>, used: map<nat, nat>,
          owner: map<nat, nat>, b: nat)
    requires Tiled(base, order, size, used, owner) && b in order && b != base
    requires forall x :: x in order' <==> x in order && x != b
    ensures Tiled(base, order', size, used[b := At(size, b)], owner)
  {
    hide At, Has;
  }

  /** Every block owns the unit it starts at. */
  lemma StartOwned(base: nat, order: seq<nat>, size: map<nat, nat>, used: map<nat, nat>, owner: map<nat, nat>, x: nat)
    requires Tiled(base, order, size, used, owner) && (x in used || (x in order && x != base))
    ensures x in owner && owner[x] == x && Has(owner, x, At(size, x))
  {
    hide At, InBlock;
    assert x in used ==> Has(owner, x, used[x]);
    assert x in order && x != base ==> Has(owner, x, At(size, x));
  }

  /** Block t is in use with n units, and block b keeps the rest of what it had. */
  ghost predicate Carving(size: map<nat, nat>, used: map<nat, nat>, owner: map<nat, nat>, size': map<nat, nat>,
          used': map<nat, nat>, owner': map<nat, nat>, b: nat, rest: nat, t: nat, n: nat) {
    && (forall x :: At(size', x) == if x == t then n else if x == b then rest else At(size, x))
    && (forall x :: x in used' <==> x in used || x == t)
    && (forall x :: x in used' ==> used'[x] == if x == t then n else used[x])
    && (forall u :: u in owner' <==> u in owner || t <= u < t + n)
    && (forall u :: u in owner' ==> owner'[u] == if t <= u < t + n then t else owner[u])
  }

  lemma CarveUnits(base: nat, order: seq<nat>, size: map<nat, nat>, used: map<nat, nat>, owner: map<nat, nat>,
          size': map<nat, nat>, used': map<nat, nat>, owner': map<nat, nat>, b: nat, rest: nat, t: nat, n: nat)
    requires Tiled(base, order, size, used, owner) && Carving(size, used, owner, size', used', owner', b, rest, t, n)
    requires base < t && t !in used && t !in order && t != b && n > 0
    requires forall u :: t <= u < t + n && u in owner ==> owner[u] == b
    requires forall u :: u in owner && owner[u] == b && !(t <= u < t + n) ==> b <= u < b + rest
    ensures forall u :: u in owner' ==> base < u && InBlock(base, order, size', used', owner'[u], u)
  {
    hide At, Has;
    forall u | u in owner' ensures base < u && InBlock(base, order, size', used', owner'[u], u) {
      if !(t <= u < t + n) { assert InBlock(base, order, size, used, owner[u], u); }
    }
  }

  lemma CarveBlocks(base: nat, order: seq<nat>, size: map<nat, nat>, used: map<nat, nat>, owner: map<nat, nat>,
          size': map<nat, nat>, used': map<nat, nat>, owner': map<nat, nat>, b: nat, rest: nat, t: nat, n: nat)
    requires Tiled(base, order, size, used, owner) && Carving(size, used, owner, size', used', owner', b, rest, t, n)
    requires base < t && t !in used && t !in order && t != b && n > 0 && b !in used
    requires b in order && b != base ==> 0 < rest <= At(size, b) && b + rest <= t
    requires b == base ==> rest == 0
    requires forall u :: t <= u < t + n && u in owner ==> owner[u] == b
    ensures forall x :: x in used' ==>
      && x !in order && base < x && used'[x] > 0 && At(size', x) == used'[x] && Has(owner', x, used'[x])
    ensures forall x :: x in order && x != base ==> base < x && At(size', x) > 0 && Has(owner', x, At(size', x))
    ensures At(size', base) == 0
  {
    hide At, InBlock, Has;
    HasAll(owner', t, n);
    forall x | x in used' ensures Has(owner', x, used'[x]) {
      if x != t {
        assert Has(owner, x, used[x]);
        HasKept(owner, owner', b, t, n, x, used[x], used[x]);
      }
    }
    forall x | x in order && x != base ensures Has(owner', x, At(size', x)) {
      assert Has(owner, x, At(size, x));
      HasKept(owner, owner', b, t, n, x, At(size, x), At(size', x));
    }
  }

  lemma HasAll(owner: map<nat, nat>, t: nat, n: nat)
    requires forall u :: t <= u < t + n ==> u in owner && owner[u] == t
    ensures Has(owner, t, n)
  {
  }

  lemma HasKept(owner: map<nat, nat>, owner': map<nat, nat>, b: nat, t: nat, n: nat, x: nat, m: nat, m': nat)
    requires Has(owner, x, m) && m' <= m && (x != b || x + m' <= t)
    requires forall u :: t <= u < t + n && u in owner ==> owner[u] == b
    requires forall u :: u in owner ==> u in owner' && owner'[u] == if t <= u < t + n then t else owner[u]
    ensures Has(owner', x, m')
  {
    forall u | x <= u < x + m' ensures u in owner' && owner'[u] == x {
      assert u in owner && owner[u] == x;
    }
  }

  /** The last n units of block b, which is larger, become a block in use. */
  lemma SplitTiled(base: nat, order: seq<nat>, size: map<nat, nat>, used: map<nat, nat>, owner: map<nat, nat>,
          b: nat, n: nat, t: nat)
    requires Tiled(base, order, size, used, owner) && b in order && b != base && 0 < n < At(size, b)
        && t == b + At(size, b) - n
    ensures t !in used && t !in order
    ensures Tiled(base, order, size[b := At(size, b) - n][t := n], used[t := n], Reown(owner, t, t + n, t))
  {
    hide Reown, InBlock;
    StartOwned(base, order, size, used, owner, b);
    assert owner[t] == b && t != base;
    if t in used || t in order { StartOwned(base, order, size, used, owner, t); }
    var size', used', owner' := size[b := At(size, b) - n][t := n], used[t := n], Reown(owner, t, t + n, t);
    assert forall u :: u in owner && owner[u] == b ==>
        b <= u < b + At(size, b) by { UnitIn(base, order, size, used, owner); }
    assert Carving(size, used, owner, size', used', owner', b, At(size, b) - n, t, n);
    CarveUnits(base, order, size, used, owner, size', used', owner', b, At(size, b) - n, t, n);
    CarveBlocks(base, order, size, used, owner, size', used', owner', b, At(size, b) - n, t, n);
  }

  lemma UnitIn(base: nat, order: seq<nat>, size: map<nat, nat>, used: map<nat, nat>, owner: map<nat, nat>)
    requires Tiled(base, order, size, used, owner)
    ensures forall u :: u in owner ==> owner[u] <= u < owner[u] + At(size, owner[u])
  {
    hide Has, At;
  }

  lemma CoreSplit(base: nat, order: seq<nat>, size: map<nat, nat>, used: map<nat, nat>, owner: map<nat, nat>, i: nat,
          n: nat)
    requires Core(base, order, size, used, owner, {}) && 0 < i < |order| && 0 < n < At(size, order[i])
    ensures
      var b := order[i];
      var t := b + At(size, b) - n;
      && t !in used && t !in order
      && Core(base, order, size[b := At(size, b) - n][t := n], used[t := n], Reown(owner, t, t + n, t), {})
  {
    hide Tiled, Reown;
    var b := order[i];
    var t := b + At(size, b) - n;
    SplitTiled(base, order, size, used, owner, b, n, t);
    var size', none: set<nat> := size[b := At(size, b) - n][t := n], {};
    forall j: nat | j < |order| ensures GapOk(order, size', none, j) {
      assert GapOk(order, size, none, j);
    }
  }

  // ---------- more core ----------

  ghost function Span(g: nat, n: nat): (s: set<nat>)
    ensures forall u :: u in s <==> g <= u < g + n
  {
    if n == 0 then {} else Span(g, n - 1) + {g + n - 1}
  }

  ghost function Granted(owner: map<nat, nat>, g: nat, n: nat): (r: map<nat, nat>)
    ensures r.Keys == owner.Keys + Span(g, n)
    ensures forall u :: u in r ==> r[u] == if g <= u < g + n then g else owner[u]
  {
    map u | u in owner.Keys + Span(g, n) :: if g <= u < g + n then g else owner[u]
  }

  ghost predicate Unclaimed(owner: map<nat, nat>, g: nat, n: nat) {
    forall u :: g <= u < g + n ==> u !in owner
  }

  lemma GrantTiled(base: nat, order: seq<nat>, size: map<nat, nat>, used: map<nat, nat>, owner: map<nat, nat>,
          g: nat, n: nat)
    requires Tiled(base, order, size, used, owner) && base < g && n > 0 && Unclaimed(owner, g, n)
    ensures g !in order && g !in used
    ensures Tiled(base, order, size[g := n], used[g := n], Granted(owner, g, n))
  {
    hide Granted, InBlock, Span;
    if g in order || g in used { StartOwned(base, order, size, used, owner, g); }
    var size', used', owner' := size[g := n], used[g := n], Granted(owner, g, n);
    assert forall u :: u in owner ==> owner[u] != base by { UnitIn(base, order, size, used, owner); }
    assert Carving(size, used, owner, size', used', owner', base, 0, g, n);
    CarveUnits(base, order, size, used, owner, size', used', owner', base, 0, g, n);
    CarveBlocks(base, order, size, used, owner, size', used', owner', base, 0, g, n);
  }

  lemma CoreGrant(base: nat, order: seq<nat>, size: map<nat, nat>, used: map<nat, nat>, owner: map<nat, nat>, g: nat,
          n: nat)
    requires Core(base, order, size, used, owner, {}) && base < g && n > 0 && Unclaimed(owner, g, n)
    ensures g !in order && g !in used
    ensures Core(base, order, size[g := n], used[g := n], Granted(owner, g, n), {})
  {
    hide Tiled, Granted;
    GrantTiled(base, order, size, used, owner, g, n);
    var size', none: set<nat> := size[g := n], {};
    forall j: nat | j < |order| ensures GapOk(order, size', none, j) {
      assert GapOk(order, size, none, j);
    }
  }

  // ---------- what the list is ----------

  /** A unit of the arena that is in no block in use. */
  ghost predicate FreeUnit(used: map<nat, nat>, owner: map<nat, nat>, u: nat) {
    u in owner && owner[u] !in used
  }

  /** The blocks on the list are exactly the maximal runs of free units: a unit starts a block if and
      only if it is free and the unit before it is not. */
  lemma ListIsCanonical(base: nat, order: seq<nat>, size: map<nat, nat>, used: map<nat, nat>, owner: map<nat, nat>,
          u: nat)
    requires Core(base, order, size, used, owner, {})
    ensures (u in order && u != base) <==> FreeUnit(used, owner, u) && (u > 0 ==> !FreeUnit(used, owner, u - 1))
  {
    if u in order && u != base {
      StartOwned(base, order, size, used, owner, u);
      if FreeUnit(used, owner, u - 1) {
        var b := owner[u - 1];
        UnitIn(base, order, size, used, owner);
        assert InBlock(base, order, size, used, b, u - 1);
        Separate(base, order, size, used, owner, b, u);
        assert false;
      }
    } else if FreeUnit(used, owner, u) {
      var b := owner[u];
      assert InBlock(base, order, size, used, b, u);
      StartOwned(base, order, size, used, owner, b);
      assert owner[u - 1] == b;
    }
  }

  /** Free blocks never touch. */
  lemma Separate(base: nat, order: seq<nat>, size: map<nat, nat>, used: map<nat, nat>, owner: map<nat, nat>, a: nat,
          b: nat)
    requires Core(base, order, size, used, owner, {}) && a in order && b in order && a < b
    ensures a + At(size, a) < b
  {
    hide Tiled;
    var i :| 0 <= i < |order| && order[i] == a;
    var j :| 0 <= j < |order| && order[j] == b;
    assert GapOk(order, size, {}, i);
  }

  /** Blocks in use never overlap. */
  lemma LiveBlocksDisjoint(base: nat, order: seq<nat>, size: map<nat, nat>, used: map<nat, nat>,
          owner: map<nat, nat>, a: nat, b: nat)
    requires Core(base, order, size, used, owner, {}) && a in used && b in used && a != b
    ensures a + used[a] <= b || b + used[b] <= a
  {
    hide Sorted, Gaps;
    if a < b {
      NoOverlap(base, order, size, used, owner, a, b);
    } else {
      NoOverlap(base, order, size, used, owner, b, a);
    }
  }

  // ---------- the code ----------

  /** The number of units for a request: header included, rounded up. */
  function Units(nbytes: nat): (n: nat)
    ensures n >= 1 && (n - 1) * HEADER >= nbytes && (n - 1) * HEADER < nbytes + HEADER
  {
    (nbytes + HEADER - 1) / HEADER + 1
  }

  /** What reaches sbrk, whose parameter is an int, when x bytes are asked for. */
  function AsInt(x: nat): int {
    var y := x % 0x1_0000_0000;
    if y < 0x8000_0000 then y else y - 0x1_0000_0000
  }

  function CoreUnits(n: nat): nat {
    if n < MINCORE then MINCORE else n
  }

  /** For n units sbrk is asked for as much as they take. */
  predicate Exact(n: nat) {
    AsInt(CoreUnits(n) * HEADER) == CoreUnits(n) * HEADER
  }

  /** sbrk is asked for what is needed if and only if that is less than 2^27 units. */
  lemma RequestExact(nbytes: nat)
    requires nbytes < 0x1_0000_0000
    ensures Exact(Units(nbytes)) <==> Units(nbytes) < 0x800_0000
  {
  }

  /** The largest request makes sbrk be asked for 16 bytes. */
  lemma RequestWraps()
    ensures AsInt(CoreUnits(Units(0xFFFF_FFFF)) * HEADER) == 16
  {
  }

  /** The scan in free stops exactly at the block after which b belongs. */
  lemma ScanStop(order: seq<nat>, ptr: map<nat, nat>, j: nat, k: nat, b: nat)
    requires Sorted(order) && Linked(order, ptr) && j < |order| && Between(order, k, b) && order[0] < b
    ensures order[j] in ptr && ptr[order[j]] == Succ(order, j)
    ensures
      var p, next := order[j], Succ(order, j);
      (b > p && b < next) || (p >= next && (b > p || b < next)) <==> j == k
  {
    assert LinkOk(order, ptr, j);
  }

  /** The first half of free: b is put after block k and takes over the block it touches behind it. */
  lemma PutIn(base: nat, order: seq<nat>, size: map<nat, nat>, used: map<nat, nat>, owner: map<nat, nat>,
          ptr: map<nat, nat>, k: nat, b: nat)
    returns (order': seq<nat>, owner': map<nat, nat>)
    requires Core(base, order, size, used, owner, {}) && Linked(order, ptr) && b in used && Between(order, k, b)
    ensures
      var next := Succ(order, k);
      var touches := b + At(size, b) == next;
      && (touches ==> next in ptr && next != b)
      && Core(base, order', if touches then Joined(size, b, next) else size, used - {b}, owner', {k})
      && Linked(order', ptr[b := if touches then ptr[next] else next][order[k] := b])
    ensures k + 1 < |order'| && order'[k] == order[k] && order'[k + 1] == b && owner'.Keys == owner.Keys
  {
    hide Core, Linked, Reown, Inserted, Joined;
    UsedApart(base, order, size, used, owner, b);
    CoreSorted(base, order, size, used, owner);
    CoreInsert(base, order, size, used, owner, k, b);
    LinkInsert(order, ptr, k, b);
    InsertedAt(order, k, b);
    BehindAbove(base, order, size, used, owner, k, b);
    var next := Succ(order, k);
    var order1, ptr1 := Inserted(order, k, b), ptr[b := next][order[k] := b];
    assert {k, k + 1} - {k + 1} == {k};
    if b + At(size, b) == next {
      TakeOver(base, order1, size, used - {b}, owner, ptr1, k);
      order', owner' := Without(order1, k + 2), Reown(owner, next, next + At(size, next), b);
      assert ptr1[b := ptr1[next]] == ptr[b := ptr[next]][order[k] := b];
    } else {
      Tighten(base, order1, size, used - {b}, owner, {k, k + 1}, k + 1);
      order', owner' := order1, owner;
    }
  }

  lemma InsertedAt(order: seq<nat>, k: nat, b: nat)
    requires k < |order|
    ensures |Inserted(order, k, b)| == |order| + 1 && Inserted(order, k, b)[k] == order[k]
        && Inserted(order, k, b)[k + 1] == b
    ensures k + 1 < |order| ==> Inserted(order, k, b)[k + 2] == order[k + 1]
  {
  }

  /** Only a block further on can touch b from behind. */
  lemma BehindAbove(base: nat, order: seq<nat>, size: map<nat, nat>, used: map<nat, nat>, owner: map<nat, nat>,
          k: nat, b: nat)
    requires Core(base, order, size, used, owner, {}) && b in used && Between(order, k, b)
    ensures b + At(size, b) == Succ(order, k) ==>
      && k + 1 < |order| && Succ(order, k) == order[k + 1] && order[k] < b < order[k + 1]
  {
    hide Gaps;
  }

  lemma TakeOver(base: nat, order: seq<nat>, size: map<nat, nat>, used: map<nat, nat>, owner: map<nat, nat>,
          ptr: map<nat, nat>, k: nat)
    requires Core(base, order, size, used, owner, {k, k + 1}) && Linked(order, ptr) && k + 2 < |order|
    requires order[k + 1] + At(size, order[k + 1]) == order[k + 2]
    ensures
      var b, next := order[k + 1], order[k + 2];
      && next in ptr && Linked(Without(order, k + 2), ptr[b := ptr[next]])
      && Core(base, Without(order, k + 2), Joined(size, b, next), used, Reown(owner, next, next + At(size, next), b),
        {k, k + 1} - {k + 1})
    ensures |Without(order, k + 2)| == |order| - 1 && Without(order, k + 2)[k] == order[k]
        && Without(order, k + 2)[k + 1] == order[k + 1]
  {
    hide Tiled, Gaps, Linked, Reown;
    CoreMerge(base, order, size, used, owner, {k, k + 1}, k + 1);
    LinkRemove(order, ptr, k + 1);
  }

  lemma UsedApart(base: nat, order: seq<nat>, size: map<nat, nat>, used: map<nat, nat>, owner: map<nat, nat>, b: nat)
    requires Core(base, order, size, used, owner, {}) && b in used
    ensures b !in order && base < b && b in size && size[b] == used[b]
  {
  }

  /** The second half: the block before b takes b over if they touch. */
  lemma JoinBack(base: nat, order: seq<nat>, size: map<nat, nat>, used: map<nat, nat>, owner: map<nat, nat>,
          ptr: map<nat, nat>, k: nat)
    returns (order': seq<nat>, owner': map<nat, nat>)
    requires Core(base, order, size, used, owner, {k}) && Linked(order, ptr) && k + 1 < |order|
    ensures
      var p, b := order[k], order[k + 1];
      var touches := p + At(size, p) == b;
      && b in ptr && p in order'
      && Core(base, order', if touches then Joined(size, p, b) else size, used, owner', {})
      && Linked(order', if touches then ptr[p := ptr[b]] else ptr)
    ensures owner'.Keys == owner.Keys
  {
    hide Tiled, Gaps, Linked, Reown;
    var p, b := order[k], order[k + 1];
    assert {k} - {k} == {};
    LinkRemove(order, ptr, k);
    if p + At(size, p) == b {
      BaseApart(base, order, size, used, owner, k);
      CoreMerge(base, order, size, used, owner, {k}, k);
      WithoutElems(order, k + 1);
      order', owner' := Without(order, k + 1), Reown(owner, b, b + At(size, b), p);
    } else {
      Tighten(base, order, size, used, owner, {k}, k);
      order', owner' := order, owner;
    }
  }

  lemma BaseApart(base: nat, order: seq<nat>, size: map<nat, nat>, used: map<nat, nat>, owner: map<nat, nat>, k: nat)
    requires Core(base, order, size, used, owner, {k}) && k + 1 < |order|
        && order[k] + At(size, order[k]) == order[k + 1]
    ensures k > 0
  {
  }

  /** The index s places on from f around a list of n blocks. */
  function Cyc(f: nat, s: nat, n: nat): (c: nat)
    requires f < n && s <= n
    ensures c < n && (s < n && c == f ==> s == 0) && (s == n ==> c == f)
  {
    if f + s < n then f + s else f + s - n
  }

  /** The s blocks after block f are all smaller than n. */
  ghost predicate TooSmall(order: seq<nat>, size: map<nat, nat>, f: nat, s: nat, n: nat)
    requires f < |order| && s <= |order|
  {
    forall x :: 1 <= x <= s ==> At(size, order[Cyc(f, x, |order|)]) < n
  }

  /** A block of at least n units is on the list. */
  ghost predicate Fits(order: seq<nat>, size: map<nat, nat>, n: nat) {
    exists b :: b in order && At(size, b) >= n
  }

  /** All the way round is every block. */
  lemma AllSmall(order: seq<nat>, size: map<nat, nat>, f: nat, n: nat)
    requires f < |order| && TooSmall(order, size, f, |order|, n)
    ensures !Fits(order, size, n)
  {
    forall b | b in order ensures At(size, b) < n {
      var i :| 0 <= i < |order| && order[i] == b;
      var x := if i > f then i - f else i + |order| - f;
      assert Cyc(f, x, |order|) == i;
    }
  }

  lemma StepLink(order: seq<nat>, ptr: map<nat, nat>, f: nat, s: nat)
    requires Linked(order, ptr) && f < |order| && s < |order|
    ensures var b := order[Cyc(f, s, |order|)]; b in ptr && ptr[b] == order[Cyc(f, s + 1, |order|)]
  {
    assert LinkOk(order, ptr, Cyc(f, s, |order|));
  }

  /** Free units in a row are in one block. */
  lemma {:induction false} RunInOneBlock(base: nat, order: seq<nat>, size: map<nat, nat>, used: map<nat, nat>,
          owner: map<nat, nat>, g: nat, n: nat)
    requires Core(base, order, size, used, owner, {}) && n > 0 && forall u :: g <= u < g + n ==>
        FreeUnit(used, owner, u)
    ensures g in owner && g + n - 1 in owner && owner[g] in order && owner[g + n - 1] == owner[g]
        && At(size, owner[g]) >= n
  {
    UnitIn(base, order, size, used, owner);
    assert FreeUnit(used, owner, g) && FreeUnit(used, owner, g + n - 1);
    assert InBlock(base, order, size, used, owner[g], g)
        && InBlock(base, order, size, used, owner[g + n - 1], g + n - 1);
    if n > 1 {
      RunInOneBlock(base, order, size, used, owner, g, n - 1);
      var u := g + n - 1;
      ListIsCanonical(base, order, size, used, owner, u);
      assert owner[u] != u by {
        assert FreeUnit(used, owner, u - 1);
      }
      StartOwned(base, order, size, used, owner, owner[u]);
    }
  }

  class Heap {
    const base: nat
    var ptr: map<nat, nat>
    var size: map<nat, nat>
    var freep: nat
    ghost var order: seq<nat>
    ghost var used: map<nat, nat>
    ghost var owner: map<nat, nat>

    constructor (base: nat)
      requires base > 0
      ensures Valid() && this.base == base && freep == 0 && used == map[] && owner == map[]
    {
      this.base, ptr, size, freep := base, map[], map[], 0;
      order, used, owner := [], map[], map[];
    }

    ghost predicate Valid()
      reads this
    {
      base > 0 && if freep == 0 then used == map[] && owner == map[] else Ready()
    }

    ghost predicate Ready()
      reads this
    {
      base > 0 && freep in order && Core(base, order, size, used, owner, {}) && Linked(order, ptr)
    }

    /** The block after which b belongs. */
    method FindPlace(b: nat) returns (p: nat, ghost k: nat)
      requires Ready() && b in used
      ensures Between(order, k, b) && p == order[k] && p >= base && p in ptr && ptr[p] == Succ(order, k)
    {
      hide Linked, Tiled, Gaps;
      UsedApart(base, order, size, used, owner, b);
      k := Position(order, b, |order|);
      p := freep;
      ghost var j :| 0 <= j < |order| && order[j] == p;
      ScanStop(order, ptr, j, k, b);
      while !(b > p && b < ptr[p])
        invariant 0 <= j < |order| && order[j] == p && p in ptr && ptr[p] == Succ(order, j)
        invariant (b > p && b < ptr[p]) || (p >= ptr[p] && (b > p || b < ptr[p])) <==> j == k
        decreases if j <= k then k - j else k + |order| - j
      {
        if p >= ptr[p] && (b > p || b < ptr[p]) {
          break;
        }
        p := ptr[p];
        j := if j + 1 < |order| then j + 1 else 0;
        ScanStop(order, ptr, j, k, b);
      }
    }

    /** Put block b, which is in use, back on the list and merge it with the blocks it touches. */
    method Free(b: nat)
      requires Valid() && b in used
      modifies this
      ensures Ready() && freep != 0
      ensures used == old(used) - {b} && owner.Keys == old(owner.Keys)
    {
      hide Core, Linked, Joined;
      UsedApart(base, order, size, used, owner, b);
      var p;
      ghost var k;
      p, k := FindPlace(b);
      ghost var order1, owner1 := PutIn(base, order, size, used, owner, ptr, k, b);
      var next := ptr[p];
      if b + size[b] == next {
        size := Joined(size, b, next);
        ptr := ptr[b := ptr[next]];
      } else {
        ptr := ptr[b := next];
      }
      used := used - {b};
      ghost var order2, owner2 := JoinBack(base, order1, size, used, owner1, ptr[p := b], k);
      if p + At(size, p) == b {
        size := Joined(size, p, b);
        assert ptr[p := b][p := ptr[p := b][b]] == ptr[p := ptr[b]];
        ptr := ptr[p := ptr[b]];
      } else {
        ptr := ptr[p := b];
      }
      order, owner := order2, owner2;
      freep := p;
    }
  
    /** Ask the system for nu units, or 4096 if that is more, and put what it grants on the list. If sbrk has been
        asked for another amount, short says so and the list is left alone: the header would claim memory that was
        not granted. */
    method Morecore(nu: nat, grant: Option<nat>) returns (p: nat, short: bool)
      requires Ready() && freep != 0 && 0 < nu
      requires grant.Some? && Exact(nu) ==> base < grant.value && Unclaimed(owner, grant.value, CoreUnits(nu))
      modifies this
      ensures Ready() && used == old(used) && (short <==> grant.Some? && !Exact(nu))
      ensures grant.None? || short ==>
        && p == 0 && freep == old(freep) && order == old(order) && size == old(size) && owner == old(owner)
      ensures grant.Some? && !short ==>
          p == freep && p != 0 && owner.Keys == old(owner.Keys) + Span(grant.value, CoreUnits(nu))
          && Fits(order, size, nu)
    {
      hide Core, Linked, Granted;
      var n := CoreUnits(nu);
      if grant.None? {
        return 0, false;
      }
      if AsInt(n * HEADER) != n * HEADER {
        return 0, true;
      }
      var g := grant.value;
      CoreGrant(base, order, size, used, owner, g, n);
      size := size[g := n];
      used := used[g := n];
      owner := Granted(owner, g, n);
      Free(g);
      assert used == old(used);
      FitsGrant(base, order, size, used, owner, old(order), old(size), old(owner), g, n);
      p, short := freep, false;
    }

    /** The first block after freep of at least n units, and the block before it; freep itself is
        looked at last. */
    method Search(n: nat) returns (prevp: nat, p: nat, found: bool, ghost f: nat, ghost s: nat)
      requires Ready() && n > 0
      ensures f < |order| && order[f] == freep && s < |order| && TooSmall(order, size, f, s, n)
      ensures found == Fits(order, size, n)
      ensures found ==> prevp == order[Cyc(f, s, |order|)] && p == order[Cyc(f, s + 1, |order|)] && At(size, p) >= n
    {
      hide Core, Fits;
      f :| 0 <= f < |order| && order[f] == freep;
      s := 0;
      prevp := freep;
      StepLink(order, ptr, f, 0);
      p := ptr[prevp];
      while true
        invariant f < |order| && order[f] == freep && s < |order| && TooSmall(order, size, f, s, n)
        invariant prevp == order[Cyc(f, s, |order|)] && p == order[Cyc(f, s + 1, |order|)]
        decreases |order| - s
      {
        if At(size, p) >= n {
          FitsAt(order, size, p, n);
          found := true;
          return;
        }
        assert TooSmall(order, size, f, s + 1, n);
        if p == freep {
          Around(base, order, size, used, owner, f, s);
          AllSmall(order, size, f, n);
          found := false;
          return;
        }
        Onward(base, order, size, used, owner, f, s);
        s := s + 1;
        StepLink(order, ptr, f, s);
        prevp, p := p, ptr[p];
      }
    }
  
    /** Take n units from block p: all of it off the list, or its tail. */
    method Carve(prevp: nat, p: nat, n: nat, ghost i: nat) returns (b: nat)
      requires Ready() && n > 0 && i + 1 <= |order| && p in order && At(size, p) >= n
      requires prevp == order[i] && p == Succ(order, i)
      modifies this
      ensures Ready() && freep == prevp && b == p + old(At(size, p)) - n
      ensures b !in old(used) && used == old(used)[b := n] && owner.Keys == old(owner.Keys)
    {
      hide Core, Linked, Reown;
      Chosen(base, order, size, used, owner, i, n);
      if size[p] == n {
        CoreTake(base, order, size, used, owner, i + 1);
        LinkRemove(order, ptr, i) by { CoreSorted(base, order, size, used, owner); }
        TakeElems(base, order, size, used, owner, i);
        ptr := ptr[prevp := ptr[p]];
        order := Without(order, i + 1);
        b := p;
      } else {
        CoreSplit(base, order, size, used, owner, i + 1, n);
        size := size[p := size[p] - n];
        b := p + size[p];
        size := size[b := n];
        owner := Reown(owner, b, b + n, b);
      }
      used := used[b := n];
      freep := prevp;
    }

    /** nbytes of fresh memory, or 0 exactly when no block is large enough and the system grants no
        more; grant is what sbrk would answer. short if sbrk has granted another amount than is needed. */
    method Malloc(nbytes: nat, grant: Option<nat>) returns (addr: nat, short: bool)
      requires Valid()
      requires grant.Some? && Exact(Units(nbytes)) ==>
        base < grant.value && Unclaimed(owner, grant.value, CoreUnits(Units(nbytes)))
      modifies this
      ensures Ready() && freep != 0
      ensures
        var fits := old(freep != 0 && Fits(order, size, Units(nbytes)));
        && (short <==> !fits && grant.Some? && !Exact(Units(nbytes)))
        && (addr == 0 <==> short || (!fits && grant.None?))
        && owner.Keys ==
             old(owner.Keys) + (if fits || addr == 0 then {} else Span(grant.value, CoreUnits(Units(nbytes))))
        && (addr != 0 && fits ==> NextFit(old(order), old(size), old(freep), freep, addr - 1, Units(nbytes)))
      ensures addr == 0 ==> used == old(used)
      ensures addr != 0 ==> addr - 1 !in old(used) && used == old(used)[addr - 1 := Units(nbytes)]
    {
      hide Core, Linked, Fits, Reown;
      var nunits := Units(nbytes);
      if freep == 0 {
        ptr, freep := ptr[base := base], base;
        size := size[base := 0];
        order := [base];
        Starts(base, size, ptr);
        NoFit(size, base, nunits);
      }
      ghost var f, s;
      var prevp, p, found;
      prevp, p, found, f, s := Search(nunits);
      if !found {
        p, short := Morecore(nunits, grant);
        if p == 0 {
          return 0, short;
        }
        prevp, p, found, f, s := Search(nunits);
      }
      ghost var i := Cyc(f, s, |order|);
      NextOf(order, f, s);
      addr := Carve(prevp, p, nunits, i);
      ListAbove(base, order, size, used, owner, freep);
      addr, short := addr + 1, false;
    }
  }

  /** Block b of n units is the tail of the first block after start that is large enough. */
  ghost predicate NextFit(order: seq<nat>, size: map<nat, nat>, start: nat, before: nat, b: nat, n: nat) {
    exists f: nat, s: nat :: f < |order| && order[f] == start && s < |order| && TooSmall(order, size, f, s, n) &&
      before == order[Cyc(f, s, |order|)] && At(size, order[Cyc(f, s + 1, |order|)]) >= n &&
      b == order[Cyc(f, s + 1, |order|)] + At(size, order[Cyc(f, s + 1, |order|)]) - n
  }

  lemma Starts(base: nat, size: map<nat, nat>, ptr: map<nat, nat>)
    requires At(size, base) == 0 && base in ptr && ptr[base] == base
    ensures Core(base, [base], size, map[], map[], {}) && Linked([base], ptr)
  {
  }

  lemma NoFit(size: map<nat, nat>, base: nat, n: nat)
    requires At(size, base) == 0 && n > 0
    ensures !Fits([base], size, n)
  {
  }

  lemma NextOf(order: seq<nat>, f: nat, s: nat)
    requires f < |order| && s < |order|
    ensures order[Cyc(f, s + 1, |order|)] == Succ(order, Cyc(f, s, |order|))
  {
  }

  /** A block large enough is not the base, and so follows block i directly. */
  lemma Chosen(base: nat, order: seq<nat>, size: map<nat, nat>, used: map<nat, nat>, owner: map<nat, nat>, i: nat,
          n: nat)
    requires Core(base, order, size, used, owner, {}) && i < |order| && n > 0 && At(size, Succ(order, i)) >= n
    ensures i + 1 < |order| && Succ(order, i) == order[i + 1] && order[i] in order && order[i + 1] in size
  {
    hide Gaps;
  }

  lemma ListAbove(base: nat, order: seq<nat>, size: map<nat, nat>, used: map<nat, nat>, owner: map<nat, nat>, x: nat)
    requires Core(base, order, size, used, owner, {}) && x in order
    ensures x >= base
  {
  }

  lemma CoreSorted(base: nat, order: seq<nat>, size: map<nat, nat>, used: map<nat, nat>, owner: map<nat, nat>)
    requires Core(base, order, size, used, owner, {})
    ensures Sorted(order)
  {
  }

  lemma TakeElems(base: nat, order: seq<nat>, size: map<nat, nat>, used: map<nat, nat>, owner: map<nat, nat>, i: nat)
    requires Core(base, order, size, used, owner, {}) && i + 1 < |order|
    ensures order[i] in Without(order, i + 1)
  {
    WithoutElems(order, i + 1);
    assert order[i] != order[i + 1];
  }

  lemma FitsAt(order: seq<nat>, size: map<nat, nat>, p: nat, n: nat)
    requires p in order && At(size, p) >= n
    ensures Fits(order, size, n)
  {
  }

  lemma Around(base: nat, order: seq<nat>, size: map<nat, nat>, used: map<nat, nat>, owner: map<nat, nat>, f: nat,
          s: nat)
    requires Core(base, order, size, used, owner, {}) && f < |order| && s < |order|
        && order[Cyc(f, s + 1, |order|)] == order[f]
    ensures s + 1 == |order|
  {
    hide Tiled, Gaps;
  }

  lemma Onward(base: nat, order: seq<nat>, size: map<nat, nat>, used: map<nat, nat>, owner: map<nat, nat>, f: nat,
          s: nat)
    requires Core(base, order, size, used, owner, {}) && f < |order| && s < |order|
        && order[Cyc(f, s + 1, |order|)] != order[f]
    ensures s + 1 < |order|
  {
    hide Tiled, Gaps;
  }

  lemma FitsGrant(base: nat, order: seq<nat>, size: map<nat, nat>, used: map<nat, nat>, owner: map<nat, nat>,
          order0: seq<nat>, size0: map<nat, nat>, owner0: map<nat, nat>, g: nat, n: nat)
    requires Core(base, order, size, used, owner, {}) && n > 0
    requires owner.Keys == owner0.Keys + Span(g, n) && Unclaimed(owner0, g, n)
    requires Core(base, order0, size0, used, owner0, {})
    ensures Fits(order, size, n)
  {
    forall u | g <= u < g + n ensures FreeUnit(used, owner, u) {
      assert u in owner.Keys;
      assert InBlock(base, order, size, used, owner[u], u);
      assert owner[u] in used ==> Has(owner0, owner[u], used[owner[u]]);
    }
    RunInOneBlock(base, order, size, used, owner, g, n);
  }
}
