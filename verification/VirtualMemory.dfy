/** The page allocator and the page-table code as the kernel runs them, on one physical memory. */
module VirtualMemory {
  import opened Counting
  import opened Machine
  import opened Options
  import opened PageTree
  import opened PteBits

  const MAXPAGES: nat := 0x8000               // (PHYSTOP - KERNBASE) / PGSIZE
  const TRAMPOLINE: nat := MAXVPN - 1         // virtual page numbers
  const TRAPFRAME: nat := MAXVPN - 2

  function PagesUp(sz: nat): nat {
    (sz + PGSIZE - 1) / PGSIZE
  }

  /** memset of a page. */
  function Filled(b: nat): Page {
    Data(seq(PGSIZE, _ => b))
  }

  // ---------- the free list ----------

  /** The pages of the list that starts at head, in order, are free and all different. */
  ghost predicate FreeOk(page: seq<Page>, head: nat, free: seq<nat>)
    decreases |free|
  {
    if free == [] then head == 0
    else
      && head == free[0] && 0 < head < |page| && page[head].Free? && head !in free[1..]
      && FreeOk(page, page[head].next, free[1..])
  }

  lemma {:induction false} FreeFrame(page: seq<Page>, page': seq<Page>, head: nat, free: seq<nat>)
    requires FreeOk(page, head, free) && |page'| == |page|
    requires forall p :: p in free && p < |page| ==> page'[p] == page[p]
    ensures FreeOk(page', head, free)
    decreases |free|
  {
    if free != [] {
      assert forall p :: p in free[1..] ==> p in free;
      FreeFrame(page, page', page[head].next, free[1..]);
    }
  }

  lemma {:induction false} FreeOnce(page: seq<Page>, head: nat, free: seq<nat>)
    requires FreeOk(page, head, free)
    ensures Once(free)
    decreases |free|
  {
    if free != [] {
      FreeOnce(page, page[head].next, free[1..]);
      assert free == [free[0]] + free[1..];
    }
  }

  /** Every page is exactly one of: free, part of an address space, handed out by kalloc. */
  ghost predicate Partition(all: set<nat>, free: seq<nat>, role: map<nat, Role>, held: set<nat>) {
    && (forall p :: p in all <==> p in free || p in role || p in held)
    && (forall p :: p in free ==> p !in role && p !in held)
    && (forall p :: p in held ==> p !in role)
  }

  /** How many pages are free is determined by which are in use. */
  lemma SameFree(all: set<nat>, page: seq<Page>, head: nat, free: seq<nat>, role: map<nat, Role>, held: set<nat>,
          page': seq<Page>, head': nat, free': seq<nat>, role': map<nat, Role>)
    requires FreeOk(page, head, free) && FreeOk(page', head', free')
    requires Partition(all, free, role, held) && Partition(all, free', role', held) && role'.Keys == role.Keys
    ensures |free'| == |free|
  {
    FreeOnce(page, head, free);
    FreeOnce(page', head', free');
    OnceCard(free);
    OnceCard(free');
    hide FreeOk;
    forall p ensures p in free <==> p in free' {
      assert p in role.Keys <==> p in role'.Keys;
    }
    assert Elements(free) == Elements(free');
  }

  /** The state of memory: the free list, the address spaces, and who has each page. */
  ghost predicate MemOk(all: set<nat>, page: seq<Page>, head: nat, free: seq<nat>, role: map<nat, Role>,
          foreign: set<Spot>, hole: Hole, held: set<nat>) {
    && FreeOk(page, head, free)
    && TreeOk(page, role, foreign, hole)
    && Partition(all, free, role, held)
    && |all| <= MAXPAGES && (forall p :: p in all ==> 0 < p < |page|)
  }

  /** A page with no role that is not on the free list may be overwritten. */
  lemma HeldChange(page: seq<Page>, head: nat, free: seq<nat>, role: map<nat, Role>, foreign: set<Spot>, hole: Hole,
          p: nat, content: Page)
    requires FreeOk(page, head, free) && TreeOk(page, role, foreign, hole) && p < |page| && p !in free && p !in role
    ensures FreeOk(page[p := content], head, free) && TreeOk(page[p := content], role, foreign, hole)
  {
    hide FreeOk, TreeOk;
    FreeFrame(page, page[p := content], head, free);
    TreeFrame(page, page[p := content], role, foreign, hole);
  }

  lemma FreeHead(page: seq<Page>, head: nat, free: seq<nat>)
    requires FreeOk(page, head, free)
    ensures (head == 0) == (free == [])
    ensures head != 0 ==>
      && free == [head] + free[1..] && head in free && head !in free[1..]
      && head < |page| && page[head].Free? && FreeOk(page, page[head].next, free[1..])
  {
  }

  lemma FreePush(page: seq<Page>, head: nat, free: seq<nat>, p: nat)
    requires FreeOk(page, head, free) && p !in free && 0 < p < |page|
    ensures FreeOk(page[p := Free(head)], p, [p] + free)
  {
    hide FreeOk;
    FreeFrame(page, page[p := Free(head)], head, free);
    assert ([p] + free)[1..] == free;
    FreeCons(page[p := Free(head)], head, free, p);
  }

  lemma FreeCons(page: seq<Page>, head: nat, free: seq<nat>, p: nat)
    requires FreeOk(page, head, free) && p !in free && 0 < p < |page| && page[p] == Free(head)
    ensures FreeOk(page, p, [p] + free)
  {
    assert ([p] + free)[1..] == free;
  }

  lemma PartPop(all: set<nat>, head: nat, free: seq<nat>, role: map<nat, Role>, held: set<nat>)
    requires Partition(all, free, role, held) && free != [] && head == free[0] && head !in free[1..]
    ensures Partition(all, free[1..], role, held + {head}) && head !in role && head !in held
  {
    assert free == [head] + free[1..];
  }

  lemma PartPush(all: set<nat>, free: seq<nat>, role: map<nat, Role>, held: set<nat>, p: nat)
    requires Partition(all, free, role, held) && p in held
    ensures Partition(all, [p] + free, role, held - {p}) && p in all && p !in free && p !in role
  {
  }

  lemma Pop(all: set<nat>, page: seq<Page>, head: nat, free: seq<nat>, role: map<nat, Role>, foreign: set<Spot>,
          hole: Hole, held: set<nat>, content: Page)
    requires MemOk(all, page, head, free, role, foreign, hole, held) && head != 0
    ensures free != [] && head == free[0] && head in free && head < |page| && page[head].Free? && head !in role
        && head !in held
    ensures [head] + free[1..] == free
    ensures MemOk(all, page[head := content], page[head].next, free[1..], role, foreign, hole, held + {head})
  {
    hide FreeOk, TreeOk, Partition;
    FreeHead(page, head, free);
    PartPop(all, head, free, role, held);
    HeldChange(page, page[head].next, free[1..], role, foreign, hole, head, content);
  }

  lemma Push(all: set<nat>, page: seq<Page>, head: nat, free: seq<nat>, role: map<nat, Role>, foreign: set<Spot>,
          hole: Hole, held: set<nat>, p: nat)
    requires MemOk(all, page, head, free, role, foreign, hole, held) && p in held
    ensures p < |page| && p !in role
        && MemOk(all, page[p := Free(head)], p, [p] + free, role, foreign, hole, held - {p})
  {
    hide FreeOk, TreeOk, Partition;
    PartPush(all, free, role, held, p);
    HeldChange(page, head, free, role, foreign, hole, p, Free(head));
    FreePush(page, head, free, p);
  }

  /** Writing an entry of a table leaves the free list alone. */
  lemma FreeSetPte(page: seq<Page>, head: nat, free: seq<nat>, t: nat, k: nat, e: Pte)
    requires FreeOk(page, head, free) && IsTable(page, t) && k < ENTRIES && t !in free
    ensures FreeOk(SetPte(page, t, k, e), head, free)
  {
    hide FreeOk, SetPte;
    FreeFrame(page, SetPte(page, t, k, e), head, free);
  }

  lemma RolePage(all: set<nat>, page: seq<Page>, head: nat, free: seq<nat>, role: map<nat, Role>, foreign: set<Spot>,
          hole: Hole, held: set<nat>, t: nat)
    requires MemOk(all, page, head, free, role, foreign, hole, held) && t in role
    ensures t !in free && t !in held && 0 < t < |page| && (role[t].depth < 3 ==> IsTable(page, t))
        && (role[t].depth == 3 ==> page[t].Data?)
  {
    assert ShapeOk(page, t, role[t]);
  }

  /** A page handed out by kalloc becomes a page of an address space. */
  lemma PartGive(all: set<nat>, free: seq<nat>, role: map<nat, Role>, held: set<nat>, c: nat, r: Role)
    requires Partition(all, free, role, held) && c in held
    ensures Partition(all, free, role[c := r], held - {c})
  {
  }

  /** A page of an address space is taken back. */
  lemma PartTake(all: set<nat>, free: seq<nat>, role: map<nat, Role>, held: set<nat>, c: nat)
    requires Partition(all, free, role, held) && c in role
    ensures Partition(all, free, role - {c}, held + {c})
  {
  }

  lemma GiveTable(all: set<nat>, page: seq<Page>, head: nat, free: seq<nat>, role: map<nat, Role>,
          foreign: set<Spot>, hole: Hole, held: set<nat>, t: nat, k: nat, c: nat)
    requires MemOk(all, page, head, free, role, foreign, hole, held) && hole == NoHole && c in held
        && BlankTable(page, c)
    requires t in role && role[t].depth < 2 && k < ENTRIES && !Entry(page, t, k).v && Bounded(ChildRole(role[t], t, k))
    ensures IsTable(page, t)
    ensures
      var page', role' := SetPte(page, t, k, Pointer(c)), role[c := ChildRole(role[t], t, k)];
      MemOk(all, page', head, free, role', foreign, hole, held - {c})
        && Extends(page, role, foreign, page', role', role[t].root)
  {
    hide FreeOk, TreeOk, Entry, SetPte, Extends;
    RolePage(all, page, head, free, role, foreign, hole, held, t);
    AttachTable(page, role, foreign, t, k, c);
    FreeSetPte(page, head, free, t, k, Pointer(c));
    ExtendsAttach(page, role, foreign, t, k, c);
    PartGive(all, free, role, held, c, ChildRole(role[t], t, k));
  }

  lemma GiveLeaf(all: set<nat>, page: seq<Page>, head: nat, free: seq<nat>, role: map<nat, Role>, foreign: set<Spot>,
          hole: Hole, held: set<nat>, t: nat, k: nat, e: Pte)
    requires MemOk(all, page, head, free, role, foreign, hole, held) && hole == NoHole && e.ppn in held && Leaf(e)
    requires e.ppn < |page| && page[e.ppn].Data?
    requires t in role && role[t].depth == 2 && k < ENTRIES && !Entry(page, t, k).v && Bounded(ChildRole(role[t], t, k))
    requires Spot(role[t].root, role[t].pfx * ENTRIES + k) !in foreign
    ensures IsTable(page, t) && CanAttach(page, role, t, k, e.ppn)
    ensures
      var page', role' := SetPte(page, t, k, e), role[e.ppn := ChildRole(role[t], t, k)];
      MemOk(all, page', head, free, role', foreign, hole, held - {e.ppn})
        && Grows(page, role, foreign, page', role', foreign, role[t].root)
  {
    hide FreeOk, TreeOk, Entry, SetPte, Grows;
    RolePage(all, page, head, free, role, foreign, hole, held, t);
    AttachLeaf(page, role, foreign, t, k, e);
    FreeSetPte(page, head, free, t, k, e);
    GrowsLeaf(page, role, foreign, t, k, e);
    PartGive(all, free, role, held, e.ppn, ChildRole(role[t], t, k));
  }

  lemma GiveForeign(all: set<nat>, page: seq<Page>, head: nat, free: seq<nat>, role: map<nat, Role>,
          foreign: set<Spot>, hole: Hole, held: set<nat>, t: nat, k: nat, e: Pte)
    requires MemOk(all, page, head, free, role, foreign, hole, held) && hole == NoHole && Leaf(e)
    requires t in role && role[t].depth == 2 && k < ENTRIES && !Entry(page, t, k).v
    ensures IsTable(page, t)
    ensures
      var page', foreign' := SetPte(page, t, k, e), foreign + {Spot(role[t].root, role[t].pfx * ENTRIES + k)};
      MemOk(all, page', head, free, role, foreign', hole, held)
        && Grows(page, role, foreign, page', role, foreign', role[t].root)
  {
    hide FreeOk, TreeOk, Entry, SetPte, Grows;
    RolePage(all, page, head, free, role, foreign, hole, held, t);
    AttachForeign(page, role, foreign, t, k, e);
    FreeSetPte(page, head, free, t, k, e);
    GrowsForeign(page, role, foreign, t, k, e);
  }

  lemma TakeForeign(all: set<nat>, page: seq<Page>, head: nat, free: seq<nat>, role: map<nat, Role>,
          foreign: set<Spot>, hole: Hole, held: set<nat>, t: nat, k: nat)
    requires MemOk(all, page, head, free, role, foreign, hole, held) && hole == NoHole
    requires t in role && role[t].depth == 2 && k < ENTRIES && Spot(role[t].root, role[t].pfx * ENTRIES + k) in foreign
    ensures IsTable(page, t)
    ensures
      var page', foreign' := SetPte(page, t, k, NOPTE), foreign - {Spot(role[t].root, role[t].pfx * ENTRIES + k)};
      MemOk(all, page', head, free, role, foreign', hole, held)
        && Shrinks(page, role, foreign, page', role, foreign', role[t].root)
  {
    hide FreeOk, TreeOk, Entry, SetPte, Shrinks;
    RolePage(all, page, head, free, role, foreign, hole, held, t);
    DetachForeign(page, role, foreign, t, k);
    FreeSetPte(page, head, free, t, k, NOPTE);
    ShrinksForeign(page, role, foreign, t, k);
  }

  /** An address space has no more pages than memory has. */
  lemma RoomBelow(all: set<nat>, page: seq<Page>, head: nat, free: seq<nat>, role: map<nat, Role>,
          foreign: set<Spot>, hole: Hole, held: set<nat>, root: nat, n: nat, top: nat)
    requires MemOk(all, page, head, free, role, foreign, hole, held) && hole == NoHole
        && Sized(page, role, foreign, root, n, top)
    ensures n <= MAXPAGES
  {
    hide FreeOk, TreeOk, Sized;
    SizeFits(page, role, foreign, root, n, top, n);
    SubsetCard(UserPages(role, root, n), all);
  }

  /** Virtual page v of root maps, with flags perm, a page of its own that holds content. */
  ghost predicate MapsTo(page: seq<Page>, role: map<nat, Role>, root: nat, v: nat, perm: Pte, content: Page) {
    var e := Translate(page, root, v);
    e.Some? && e.value == perm.(ppn := e.value.ppn) && e.value.ppn in role && role[e.value.ppn].depth == 3
      && e.value.ppn < |page| && page[e.value.ppn] == content
  }

  lemma SizedRoot(page: seq<Page>, role: map<nat, Role>, foreign: set<Spot>, root: nat, n: nat)
    requires Sized(page, role, foreign, root, n, TRAPFRAME)
    ensures root in role && role[root].depth == 0
  {
  }

  lemma SameMapZero(page: seq<Page>, page': seq<Page>, root: nat, a: nat)
    requires SameMapBut(page, page', root, a, a)
    ensures SameMapBut(page, page', root, 0, 0)
  {
    hide Translate;
  }

  /** PTE_R | PTE_U | xperm | PTE_V */
  function UserPte(xperm: Pte): Pte {
    xperm.(v := true, r := true, u := true)
  }

  lemma GrowsOnly(page: seq<Page>, role: map<nat, Role>, foreign: set<Spot>, page': seq<Page>, role': map<nat, Role>,
          foreign': set<Spot>, root: nat)
    requires Grows(page, role, foreign, page', role', foreign', root)
    ensures OnlyRoot(page, role, foreign, page', role', foreign', root) && DataKept(page, role, page', role')
  {
  }

  lemma SizedClear(page: seq<Page>, role: map<nat, Role>, foreign: set<Spot>, root: nat, n: nat, a: nat)
    requires Sized(page, role, foreign, root, n, TRAPFRAME) && a <= TRAPFRAME
    ensures forall v: nat :: n <= v < a ==> Translate(page, root, v) == None
  {
    hide Translate;
  }

  /** Pages mapped below a stay mapped to the same contents when page a is added. */
  lemma MapsKept(page: seq<Page>, role: map<nat, Role>, page': seq<Page>, role': map<nat, Role>, foreign: set<Spot>,
          root: nat, start: nat, a: nat, perm: Pte, content: Page)
    requires Grows(page, role, foreign, page', role', foreign, root) && SameMapBut(page, page', root, a, a + 1)
        && a <= MAXVPN
    requires forall v: nat :: start <= v < a ==> MapsTo(page, role, root, v, perm, content)
    ensures forall v: nat :: start <= v < a ==> MapsTo(page', role', root, v, perm, content)
  {
    hide Translate;
    forall v: nat | start <= v < a ensures MapsTo(page', role', root, v, perm, content) {
      assert MapsTo(page, role, root, v, perm, content);
    }
  }

  /** Virtual page v of dst is a copy, with the same flags, of what v of src was in memory page0. */
  ghost predicate Copied(page0: seq<Page>, page: seq<Page>, role: map<nat, Role>, src: nat, dst: nat, v: nat) {
    var e := Translate(page0, src, v);
    e.Some? && e.value.ppn < |page0| && MapsTo(page, role, dst, v, e.value, page0[e.value.ppn])
  }

  lemma TreeOf(all: set<nat>, page: seq<Page>, head: nat, free: seq<nat>, role: map<nat, Role>, foreign: set<Spot>,
          hole: Hole, held: set<nat>)
    requires MemOk(all, page, head, free, role, foreign, hole, held)
    ensures TreeOk(page, role, foreign, hole)
  {
  }

  lemma SizedOwned(page: seq<Page>, role: map<nat, Role>, foreign: set<Spot>, root: nat, n: nat)
    requires Sized(page, role, foreign, root, n, TRAPFRAME)
    ensures n <= MAXVPN && root in role && role[root].depth == 0
    ensures forall v: nat :: v < n ==> Translate(page, root, v).Some? && Spot(root, v) !in foreign
  {
    hide Translate;
  }

  /** While dst grows, src keeps its pages and their contents. */
  lemma SourceKept(page0: seq<Page>, role0: map<nat, Role>, page: seq<Page>, role: map<nat, Role>,
          foreign: set<Spot>, src: nat, dst: nat, n: nat, v: nat)
    requires TreeOk(page0, role0, foreign, NoHole) && Grows(page0, role0, foreign, page, role, foreign, dst)
        && src != dst
    requires Sized(page0, role0, foreign, src, n, TRAPFRAME) && v < n
    ensures src in role && role[src].depth == 0 && v < MAXVPN && Spot(src, v) !in foreign
    ensures Translate(page, src, v) == Translate(page0, src, v) && Translate(page, src, v).Some?
    ensures
      var p := Translate(page0, src, v).value.ppn;
      p < |page0| && |page| == |page0| && page[p] == page0[p]
  {
    hide TreeOk, Translate, WalkTo;
    OthersTranslate(page0, role0, foreign, page, role, foreign, dst, src);
    OwnedPage(page0, role0, foreign, src, v);
    TreePages(page0, role0, foreign, NoHole);
  }

  lemma CopyMade(page0: seq<Page>, page: seq<Page>, role: map<nat, Role>, src: nat, dst: nat, v: nat, e: Pte,
          content: Page)
    requires Translate(page0, src, v) == Some(e) && e.ppn < |page0| && content == page0[e.ppn]
    requires MapsTo(page, role, dst, v, e, content)
    ensures Copied(page0, page, role, src, dst, v)
  {
  }

  lemma CopyKept(page0: seq<Page>, page: seq<Page>, role: map<nat, Role>, page': seq<Page>, role': map<nat, Role>,
          foreign: set<Spot>, src: nat, dst: nat, a: nat)
    requires Grows(page, role, foreign, page', role', foreign, dst) && SameMapBut(page, page', dst, a, a + 1)
        && a <= MAXVPN
    requires forall v: nat :: v < a ==> Copied(page0, page, role, src, dst, v)
    ensures forall v: nat :: v < a ==> Copied(page0, page', role', src, dst, v)
  {
    hide Translate;
    forall v: nat | v < a ensures Copied(page0, page', role', src, dst, v) {
      assert Copied(page0, page, role, src, dst, v);
    }
  }

  /** The entry that leads to a page with role r. */
  function Above(r: Role): Hole {
    if r.depth == 0 then NoHole else Hole(r.parent, r.pfx % ENTRIES)
  }

  /** No page hangs from the entry in the hole. */
  ghost predicate HoleBare(role: map<nat, Role>, hole: Hole) {
    hole.Hole? ==> Bare(role, hole.table, hole.index)
  }

  lemma EntryLeft(page: seq<Page>, role: map<nat, Role>, page': seq<Page>, role': map<nat, Role>, t: nat, i: nat)
    requires t in role && ClearedTo(page, role, page', role', t, i) && i < ENTRIES
    ensures Entry(page', t, i) == Entry(page, t, i)
  {
    hide Entry, Under, Slot;
  }

  /** Once the subtree below entry i is freed, t is as it was and only that entry dangles. */
  lemma TableLeft(all: set<nat>, page0: seq<Page>, role0: map<nat, Role>, page1: seq<Page>, role1: map<nat, Role>,
          page: seq<Page>, head: nat, free: seq<nat>, role: map<nat, Role>, foreign: set<Spot>, hole: Hole,
          held: set<nat>, t: nat, i: nat)
    requires t in role0 && t in role1 && i < ENTRIES && 0 < t < |page0| && role0[t].depth < 3 && role1[t] == role0[t]
    requires ClearedTo(page0, role0, page1, role1, t, i) && TookOut(page1, role1, page, role, ChildRole(role0[t], t, i))
    requires MemOk(all, page, head, free, role, foreign, hole, held)
    ensures t in role && t !in held && role[t] == role0[t] && IsTable(page, t)
    ensures ClearedTo(page0, role0, SetPte(page, t, i, NOPTE), role, t, i + 1)
  {
    hide MemOk, SetPte, ClearedTo, Slot, Up;
    UnderChild(role0[t], role0[t], t, i);
    RolePage(all, page, head, free, role, foreign, hole, held, t);
    ClearedChild(page0, role0, page1, role1, page, role, t, i);
  }

  /** A table that is nobody's parent leaves the tree while the entry above still points to it. */
  lemma TakeTable(all: set<nat>, page: seq<Page>, head: nat, free: seq<nat>, role: map<nat, Role>,
          foreign: set<Spot>, hole: Hole, held: set<nat>, t: nat)
    requires MemOk(all, page, head, free, role, foreign, hole, held) && hole == NoHole && t in role
    requires forall p :: p in role && role[p].depth > 0 ==> role[p].parent != t
    ensures t !in held && MemOk(all, page, head, free, role - {t}, foreign, Above(role[t]), held + {t})
    ensures HoleBare(role - {t}, Above(role[t]))
  {
    hide FreeOk, TreeOk, Entry, Partition;
    RolePage(all, page, head, free, role, foreign, hole, held, t);
    PartTake(all, free, role, held, t);
    if role[t].depth == 0 {
      DropRoot(page, role, foreign, t);
    } else {
      TreeUp(page, role, foreign, t);
      PunchHole(page, role, foreign, role[t].parent, role[t].pfx % ENTRIES, t);
    }
  }

  lemma TreeUp(page: seq<Page>, role: map<nat, Role>, foreign: set<Spot>, t: nat)
    requires TreeOk(page, role, foreign, NoHole) && t in role && role[t].depth > 0
    ensures role[t].parent in role && role[t] == ChildRole(role[role[t].parent], role[t].parent, role[t].pfx % ENTRIES)
  {
    assert UpOk(page, role, t);
  }

  lemma Rooted(all: set<nat>, page: seq<Page>, head: nat, free: seq<nat>, role: map<nat, Role>, foreign: set<Spot>,
          hole: Hole, held: set<nat>, c: nat)
    requires MemOk(all, page, head, free, role, foreign, hole, held) && hole == NoHole && c in held && c < |page|
        && page[c] == Blank()
    requires forall s: Spot :: s in foreign ==> s.root != c
    ensures MemOk(all, page, head, free, role[c := Role(c, 0, 0, 0)], foreign, hole, held - {c})
    ensures Sized(page, role[c := Role(c, 0, 0, 0)], foreign, c, 0, MAXVPN)
  {
    hide FreeOk, TreeOk, Translate;
    NewRoot(page, role, foreign, c);
    PartGive(all, free, role, held, c, Role(c, 0, 0, 0));
  }

  lemma OnlyNew(page: seq<Page>, role: map<nat, Role>, foreign: set<Spot>, page': seq<Page>, foreign': set<Spot>,
          root: nat)
    requires TreeOk(page, role, foreign, NoHole) && root !in role && root < |page|
    requires |page'| == |page| && page' == page[root := page'[root]] && forall s: Spot :: s.root != root ==>
        (s in foreign' <==> s in foreign)
    ensures OnlyRoot(page, role, foreign, page', role[root := Role(root, 0, 0, 0)], foreign', root)
  {
    hide Entry, UpOk, DownOk, OwnedOk;
    forall p | p in role ensures role[p].root != root {
      RootOf(page, role, foreign, p);
    }
  }

  lemma SizedAll(page: seq<Page>, role: map<nat, Role>, foreign: set<Spot>, root: nat, n: nat, top: nat)
    requires Sized(page, role, foreign, root, n, top)
    ensures n <= MAXVPN && root in role && role[root].depth == 0
    ensures forall v: nat :: v < n ==> Translate(page, root, v).Some? && Spot(root, v) !in foreign
  {
    hide Translate;
  }

  lemma SizedNothing(page: seq<Page>, role: map<nat, Role>, foreign: set<Spot>, root: nat)
    requires Sized(page, role, foreign, root, 0, MAXVPN)
    ensures forall v: nat :: v < MAXVPN ==> Translate(page, root, v) == None
  {
    hide Translate;
  }

  lemma GoneShrunk(page: seq<Page>, role: map<nat, Role>, foreign: set<Spot>, page1: seq<Page>,
          role1: map<nat, Role>, page2: seq<Page>, role2: map<nat, Role>, root: nat)
    requires TreeOk(page, role, foreign, NoHole) && Shrinks(page, role, foreign, page1, role1, foreign, root)
        && Gone(page1, role1, page2, role2, root)
    ensures Gone(page, role, page2, role2, root)
  {
    hide TreeOk;
    TreePages(page, role, foreign, NoHole);
    GoneAfter(page, role, foreign, page1, role1, foreign, page2, role2, root);
  }

  lemma NoRoot(page: seq<Page>, role: map<nat, Role>, foreign: set<Spot>)
    requires TreeOk(page, role, foreign, NoHole)
    ensures 0 !in role && OnlyRoot(page, role, foreign, page, role, foreign, 0) && forall p :: p in role ==>
        role[p].root != 0
  {
    hide TreeOk;
    TreePages(page, role, foreign, NoHole);
    forall p | p in role ensures role[p].root != 0 {
      RootOf(page, role, foreign, p);
    }
  }

  lemma ShrinksOnly(page: seq<Page>, role: map<nat, Role>, foreign: set<Spot>, page': seq<Page>,
          role': map<nat, Role>, foreign': set<Spot>, root: nat)
    requires Shrinks(page, role, foreign, page', role', foreign', root)
    ensures OnlyRoot(page, role, foreign, page', role', foreign', root) && DataKept(page, role, page', role')
  {
  }

  lemma SizedForeignAt(page: seq<Page>, role: map<nat, Role>, foreign: set<Spot>, root: nat, n: nat, top: nat, v: nat)
    requires Sized(page, role, foreign, root, n, top) && Spot(root, v) in foreign
    ensures root in role && role[root].depth == 0 && Translate(page, root, v).Some?
  {
    hide Translate;
  }

  lemma SizedSpots(page: seq<Page>, role: map<nat, Role>, foreign: set<Spot>, root: nat, n: nat, top: nat)
    requires Sized(page, role, foreign, root, n, top)
    ensures forall v: nat :: Spot(root, v) in foreign ==> top <= v < MAXVPN
  {
    hide Translate;
  }

  ghost function Range(lo: nat, n: nat): (s: set<nat>)
    requires lo <= n
    ensures (forall p: nat :: p in s <==> lo <= p < n) && |s| == n - lo
    decreases n
  {
    if lo == n then {} else Range(lo, n - 1) + {n - 1}
  }

  /** Pages handed out by kalloc hold what they held. */
  ghost predicate HeldSame(page: seq<Page>, page': seq<Page>, held: set<nat>) {
    |page'| == |page| && forall p :: p in held && p < |page| ==> page'[p] == page[p]
  }

  /** A user page leaves its address space while its entry still points to it. */
  lemma TakeLeaf(all: set<nat>, page: seq<Page>, head: nat, free: seq<nat>, role: map<nat, Role>, foreign: set<Spot>,
          hole: Hole, held: set<nat>, t: nat, k: nat)
    requires MemOk(all, page, head, free, role, foreign, hole, held) && hole == NoHole
    requires t in role && role[t].depth == 2 && k < ENTRIES && Entry(page, t, k).v
        && Spot(role[t].root, role[t].pfx * ENTRIES + k) !in foreign
    ensures
      var c := Entry(page, t, k).ppn;
      && c in role && role[c] == ChildRole(role[t], t, k) && c != t && c !in held
      && MemOk(all, page, head, free, role - {c}, foreign, Hole(t, k), held + {c})
      && Bare(role - {c}, t, k)
  {
    hide FreeOk, TreeOk, Entry, SetPte, Partition;
    var c := Entry(page, t, k).ppn;
    TreeDown(page, role, foreign, t, k);
    RolePage(all, page, head, free, role, foreign, hole, held, c);
    Childless(page, role, foreign, c);
    PunchHole(page, role, foreign, t, k, c);
    PartTake(all, free, role, held, c);
  }

  lemma TreeDown(page: seq<Page>, role: map<nat, Role>, foreign: set<Spot>, t: nat, k: nat)
    requires TreeOk(page, role, foreign, NoHole) && t in role && role[t].depth == 2 && k < ENTRIES
    requires Entry(page, t, k).v && Spot(role[t].root, role[t].pfx * ENTRIES + k) !in foreign
    ensures Leaf(Entry(page, t, k)) && Entry(page, t, k).ppn in role
        && role[Entry(page, t, k).ppn] == ChildRole(role[t], t, k)
  {
    assert DownOk(page, role, foreign, t, k);
  }

  lemma LeafAt(page: seq<Page>, role: map<nat, Role>, foreign: set<Spot>, t: nat, k: nat)
    requires TreeOk(page, role, foreign, NoHole) && t in role && role[t].depth == 2 && k < ENTRIES
        && Entry(page, t, k).v
    ensures Leaf(Entry(page, t, k))
  {
    assert DownOk(page, role, foreign, t, k);
  }

  /** The entry is cleared and memory is whole again. */
  lemma ClearEntry(all: set<nat>, page: seq<Page>, head: nat, free: seq<nat>, role: map<nat, Role>,
          foreign: set<Spot>, hole: Hole, held: set<nat>, t: nat, k: nat)
    requires MemOk(all, page, head, free, role, foreign, hole, held) && hole == Hole(t, k)
    requires t in role && role[t].depth < 3 && k < ENTRIES
    requires Bare(role, t, k)
    ensures IsTable(page, t) && MemOk(all, SetPte(page, t, k, NOPTE), head, free, role, foreign, NoHole, held)
  {
    hide FreeOk, TreeOk, Entry, SetPte;
    RolePage(all, page, head, free, role, foreign, hole, held, t);
    CloseHole(page, role, foreign, t, k);
    FreeSetPte(page, head, free, t, k, NOPTE);
  }

  /** Freeing the page of an entry and clearing the entry unmaps that page and nothing else. */
  lemma Unmapped(page: seq<Page>, role: map<nat, Role>, foreign: set<Spot>, root: nat, vpn: nat, t: nat, c: nat,
          page': seq<Page>)
    requires TreeOk(page, role, foreign, NoHole) && vpn < MAXVPN && IsTable(page, t)
    requires t in role && role[t].root == root && role[t].depth == 2 && role[t].pfx == vpn / ENTRIES
    requires c in role && role[c].root == root && role[c].depth == 3 && c < |page|
    requires |page'| == |page| && TreeOk(page', role - {c}, foreign, NoHole)
    requires forall p: nat :: p < |page| && p != c ==> page'[p] == SetPte(page, t, vpn % ENTRIES, NOPTE)[p]
    ensures SameMapBut(page, page', root, vpn, vpn + 1) && Translate(page', root, vpn) == None
    ensures Shrinks(page, role, foreign, page', role - {c}, foreign, root)
  {
    hide TreeOk, Translate, SetPte, Entry;
    var page1 := SetPte(page, t, vpn % ENTRIES, NOPTE);
    LeafMaps(page, role, foreign, root, vpn, t, NOPTE);
    EntryOf(page, role, foreign, root, vpn, t);
    forall v: nat | v < MAXVPN ensures Translate(page', root, v) == Translate(page1, root, v) {
      TranslateFrame(page', page1, role - {c}, foreign, root, v);
    }
  }

  class Vm {
    ghost const all: set<nat>
    var page: seq<Page>
    var freelist: nat
    ghost var free: seq<nat>
    ghost var role: map<nat, Role>
    ghost var foreign: set<Spot>
    ghost var held: set<nat>
    ghost var hole: Hole    // an entry whose page has just been freed

    ghost predicate Valid()
      reads this
    {
      ValidBut() && hole == NoHole
    }

    /** Valid up to the entry in the hole. */
    ghost predicate ValidBut()
      reads this
    {
      MemOk(all, page, freelist, free, role, foreign, hole, held)
    }

    ghost predicate Root(root: nat)
      reads this
    {
      root in role && role[root].depth == 0
    }

    /** Every page from number lo on is put on the free list. */
    constructor (lo: nat, n: nat)
      requires 0 < lo <= n && n - lo <= MAXPAGES
      ensures Valid() && role == map[] && foreign == {} && held == {}
      ensures forall p: nat :: p in all <==> lo <= p < n
    {
      page, freelist := seq(n, _ => Filled(0)), 0;
      free, role, foreign, hole := [], map[], {}, NoHole;
      held := Range(lo, n);
      all := Range(lo, n);
      new;
      var p := lo;
      while p < n
        invariant lo <= p <= n && Valid() && role == map[] && foreign == {} && hole == NoHole && |page| == n
        invariant forall q: nat :: q in held <==> p <= q < n
      {
        Kfree(p);
        p := p + 1;
      }
    }

    /** Take a page off the free list and fill it with junk. */
    method Kalloc() returns (p: nat)
      requires Valid()
      modifies this
      ensures Valid() && role == old(role) && foreign == old(foreign) && |page| == old(|page|)
      ensures p == 0 ==> old(free) == [] && free == [] && page == old(page) && held == old(held)
      ensures p != 0 ==>
        && p in old(free) && p < |page| && [p] + free == old(free) && held == old(held) + {p}
        && p !in old(held) && p !in role && page == old(page)[p := Filled(5)]
    {
      hide FreeOk, TreeOk, Partition;
      FreeHead(page, freelist, free);
      p := freelist;
      if p != 0 {
        Pop(all, page, freelist, free, role, foreign, hole, held, Filled(5));
        freelist := page[p].next;
        free := free[1..];
        held := held + {p};
        page := page[p := Filled(5)];
      }
    }

    /** Put a page that kalloc handed out back at the head of the free list. */
    method Kfree(p: nat)
      requires ValidBut() && p in held
      modifies this
      ensures ValidBut() && hole == old(hole) && role == old(role) && foreign == old(foreign) && |page| == old(|page|)
      ensures free == [p] + old(free) && held == old(held) - {p} && p !in role
      ensures forall q: nat :: q < |page| && q != p ==> page[q] == old(page)[q]
    {
      hide FreeOk, TreeOk, Partition;
      Push(all, page, freelist, free, role, foreign, hole, held, p);
      page := page[p := Free(freelist)];
      freelist := p;
      free := [p] + free;
      held := held - {p};
    }

    /** Fill a page that kalloc handed out. */
    method Fill(p: nat, content: Page)
      requires Valid() && p in held
      modifies this`page
      ensures Valid() && p < old(|page|) && page == old(page)[p := content]
    {
      hide FreeOk, TreeOk;
      HeldChange(page, freelist, free, role, foreign, hole, p, content);
      page := page[p := content];
    }
  
    /** A fresh table at entry k of table t. */
    method NewTable(t: nat, k: nat) returns (c: nat)
      requires Valid() && t in role && role[t].depth < 2 && k < ENTRIES && !Entry(page, t, k).v
          && Bounded(ChildRole(role[t], t, k))
      modifies this
      ensures Valid() && held == old(held) && foreign == old(foreign) && HeldSame(old(page), page, held)
      ensures Extends(old(page), old(role), foreign, page, role, old(role[t].root))
      ensures c == 0 ==> free == [] && old(free) == [] && page == old(page) && role == old(role)
      ensures |free| + 1 >= old(|free|)
      ensures c != 0 ==> c in role && role[c] == ChildRole(old(role[t]), t, k)
    {
      hide FreeOk, TreeOk, Partition, Extends, SetPte, PutWord, Pack, FromAddress;
      RolePage(all, page, freelist, free, role, foreign, hole, held, t);
      ExtendsFrame(page, role, foreign, page, role[t].root);
      c := Kalloc();
      if c != 0 {
        Fill(c, Blank());
        assert page == old(page)[c := Blank()];
        ExtendsFrame(old(page), role, foreign, page, role[t].root);
        GiveTable(all, page, freelist, free, role, foreign, hole, held, t, k, c);
        ghost var page1 := page;
        PutsEntry(page, t, k, Pointer(c));
        page := PutWord(page, t, k, FromAddress(c * PGSIZE) + Pack(Pointer(0)));
        held := held - {c};
        role := role[c := ChildRole(role[t], t, k)];
        ExtendsTrans(old(page), old(role), foreign, page1, old(role), page, role, role[t].root);
      }
    }

    /** The table that holds the last-level entry for vpn; with alloc, tables that are missing are
        made. 0 if there is none, or no memory for one. */
    method Walk(root: nat, vpn: nat, alloc: bool) returns (t: nat)
      requires Valid() && Root(root) && vpn < MAXVPN
      modifies this
      ensures Valid() && held == old(held) && foreign == old(foreign) && HeldSame(old(page), page, held)
      ensures Extends(old(page), old(role), foreign, page, role, root)
      ensures t != 0 ==> t in role && role[t].root == root && role[t].depth == 2 && role[t].pfx == vpn / ENTRIES
      ensures t == 0 && alloc ==> free == [] && old(|free|) <= 1
      ensures |free| + 2 >= old(|free|)
      ensures !alloc ==> page == old(page) && role == old(role) && free == old(free) && freelist == old(freelist)
      ensures !alloc && t == 0 ==> Translate(page, root, vpn) == None
    {
      hide MemOk, TreeOk, Extends, Entry, Translate;
      t := root;
      Starts(root);
      var level := 2;
      while level > 0
        invariant 0 <= level <= 2
        invariant Valid() && held == old(held) && foreign == old(foreign) && HeldSame(old(page), page, held)
        invariant Extends(old(page), old(role), foreign, page, role, root)
        invariant t in role && role[t].root == root && role[t].depth == 2 - level && role[t].pfx == Pfx(2 - level, vpn)
        invariant !alloc ==> page == old(page) && role == old(role) && free == old(free) && freelist == old(freelist)
        invariant |free| + 2 - level >= old(|free|)
        decreases level
      {
        var k := Ix(2 - level, vpn);
        PfxStep(2 - level, vpn);
        var e := ReadEntry(t, k);
        if e.v {
          Descend(t, k);
          t := e.ppn;
        } else {
          if !alloc {
            Stops(t, vpn);
            t := 0;
            return;
          }
          ghost var page1, role1 := page, role;
          t := NewTable(t, k);
          ExtendsTrans(old(page), old(role), foreign, page1, role1, page, role, root);
          if t == 0 {
            return;
          }
        }
        level := level - 1;
      }
      RolePage(all, page, freelist, free, role, foreign, hole, held, t);
    }

    /** The entry at index k of table t. */
    method ReadEntry(t: nat, k: nat) returns (e: Pte)
      requires Valid() && t in role && role[t].depth < 3 && k < ENTRIES
      ensures e == Entry(page, t, k)
    {
      RolePage(all, page, freelist, free, role, foreign, hole, held, t);
      e := Unpack(page[t].words[k]);
    }

    ghost method Starts(root: nat)
      requires Valid() && Root(root)
      ensures role[root] == Role(root, 0, 0, 0) && TreeOk(page, role, foreign, NoHole)
      ensures Extends(page, role, foreign, page, role, root)
    {
      assert UpOk(page, role, root);
      ExtendsFrame(page, role, foreign, page, root);
    }

    ghost method Descend(t: nat, k: nat)
      requires Valid() && t in role && role[t].depth < 2 && k < ENTRIES && Entry(page, t, k).v
      ensures Entry(page, t, k).ppn in role && role[Entry(page, t, k).ppn] == ChildRole(role[t], t, k)
    {
      assert DownOk(page, role, foreign, t, k);
    }

    ghost method Stops(t: nat, vpn: nat)
      requires Valid() && t in role && role[t].depth < 2 && role[t].pfx == Pfx(role[t].depth, vpn) && vpn < MAXVPN
      requires !Entry(page, t, Ix(role[t].depth, vpn)).v
      ensures Translate(page, role[t].root, vpn) == None
    {
      RoleWalk(page, role, foreign, vpn, t);
      hide TreeOk;
      assert WalkTo(page, role[t].root, vpn, role[t].depth + 1) == 0;
      assert WalkTo(page, role[t].root, vpn, 2) == 0;
    }
  
    /** Write the entry for vpn, which is not mapped. With own, the space takes over the page. */
    method MapPage(root: nat, vpn: nat, e: Pte, ghost own: bool) returns (ok: bool)
      requires Valid() && Root(root) && vpn < MAXVPN && Leaf(e) && Translate(page, root, vpn) == None
          && Spot(root, vpn) !in foreign
      requires own ==> e.ppn in held && e.ppn < |page| && page[e.ppn].Data?
      modifies this
      ensures Valid() && Root(root)
      ensures Grows(old(page), old(role), old(foreign), page, role, foreign, root) && HeldSame(old(page), page, held)
      ensures ok ==> SameMapBut(old(page), page, root, vpn, vpn + 1) && Translate(page, root, vpn) == Some(e)
      ensures ok ==>
        && held == old(held) - (if own then {e.ppn} else {})
        && foreign == old(foreign) + (if own then {} else {Spot(root, vpn)})
      ensures ok && own ==> e.ppn in role && role[e.ppn].depth == 3 && page[e.ppn] == old(page)[e.ppn]
      ensures |free| + 2 >= old(|free|)
      ensures !ok ==>
        && free == [] && old(|free|) <= 1 && SameMapBut(old(page), page, root, 0, 0) && held == old(held)
        && foreign == old(foreign)
    {
      hide FreeOk, TreeOk, Partition, Entry, Translate, Extends, Grows, SetPte, PutWord, Pack, FromAddress, SameMapBut;
      var t := Walk(root, vpn, true);
      ExtendsGrows(old(page), old(role), foreign, page, role, root);
      ExtendsAt(old(page), old(role), foreign, page, role, root, vpn);
      ok := t != 0;
      if ok {
        ghost var page1, role1 := page, role;
        RolePage(all, page, freelist, free, role, foreign, hole, held, t);
        EntryOf(page, role, foreign, root, vpn, t);
        assert !Entry(page, t, vpn % ENTRIES).v;   // panic("mappages: remap")
        LeafMaps(page, role, foreign, root, vpn, t, e);
        if own {
          GiveLeaf(all, page, freelist, free, role, foreign, hole, held, t, vpn % ENTRIES, e);
          role := role[e.ppn := ChildRole(role[t], t, vpn % ENTRIES)];
          held := held - {e.ppn};
        } else {
          GiveForeign(all, page, freelist, free, role, foreign, hole, held, t, vpn % ENTRIES, e);
          foreign := foreign + {Spot(root, vpn)};
        }
        PutsEntry(page, t, vpn % ENTRIES, e);
        page := PutWord(page, t, vpn % ENTRIES, FromAddress(e.ppn * PGSIZE) + Pack(e.(ppn := 0)));
        GrowsTrans(old(page), old(role), old(foreign), page1, role1, old(foreign), page, role, foreign, root);
        SameMapNone(old(page), page1, root, vpn);
        SameMapTrans(old(page), page1, page, root, vpn, vpn, vpn + 1);
      }
    }
  
    /** Map n pages from vpn on to the physical pages from ppn on. Stops, with the first m mapped,
        when there is no memory for a table. */
    method Mappages(root: nat, vpn: nat, n: nat, ppn: nat, perm: Pte, ghost own: bool) returns (ok: bool, ghost m: nat)
      requires Valid() && Root(root) && n > 0 && vpn + n <= MAXVPN && Leaf(perm)
      requires forall v: nat :: vpn <= v < vpn + n ==> Translate(page, root, v) == None && Spot(root, v) !in foreign
      requires own ==> n == 1 && ppn in held && ppn < |page| && page[ppn].Data?
      modifies this
      ensures Valid() && Root(root)
      ensures Grows(old(page), old(role), old(foreign), page, role, foreign, root) && HeldSame(old(page), page, held)
      ensures if ok then m == n else m < n && free == [] && old(|free|) <= 2 * m + 1
      ensures SameMapBut(old(page), page, root, vpn, vpn + m)
      ensures forall v: nat :: vpn <= v < vpn + m ==> Translate(page, root, v) == Some(perm.(ppn := ppn + v - vpn))
      ensures held == old(held) - (if own && ok then {ppn} else {})
      ensures forall s: Spot :: s in foreign <==>
          s in old(foreign) || (!own && s.root == root && vpn <= s.vpn < vpn + m)
      ensures ok && own ==> ppn in role && role[ppn].depth == 3 && page[ppn] == old(page)[ppn]
      ensures |free| + 2 * n >= old(|free|)
    {
      hide MemOk, Translate, Grows, SameMapBut;
      m := 0;
      GrowsStart(root);
      SameMapStart(page, root, vpn);
      var a, pa, last := vpn, ppn, vpn + n - 1;
      ok := true;
      while true
        invariant Valid() && Root(root) && vpn <= a <= last && pa == ppn + a - vpn && m == a - vpn && ok
        invariant Grows(old(page), old(role), old(foreign), page, role, foreign, root)
            && HeldSame(old(page), page, held)
        invariant SameMapBut(old(page), page, root, vpn, a)
        invariant forall v: nat :: vpn <= v < a ==> Translate(page, root, v) == Some(perm.(ppn := ppn + v - vpn))
        invariant held == old(held) && |free| + 2 * (a - vpn) >= old(|free|)
        invariant forall s: Spot :: s in foreign <==> s in old(foreign) || (!own && s.root == root && vpn <= s.vpn < a)
        decreases last - a
      {
        ghost var page1, role1, foreign1 := page, role, foreign;
        SameMapAt(old(page), page, root, vpn, a, a);
        ok := MapPage(root, a, perm.(ppn := pa), own);
        GrowsTrans(old(page), old(role), old(foreign), page1, role1, foreign1, page, role, foreign, root);
        if !ok {
          SameMapNone(page1, page, root, a);
          SameMapTrans(old(page), page1, page, root, vpn, a, a);
          break;
        }
        SameMapTrans(old(page), page1, page, root, vpn, a, a + 1);
        m := m + 1;
        if a == last {
          break;
        }
        a, pa := a + 1, pa + 1;
      }
    }

    ghost method GrowsStart(root: nat)
      requires Valid()
      ensures Grows(page, role, foreign, page, role, foreign, root)
          && Shrinks(page, role, foreign, page, role, foreign, root)
    {
    }

    /** Clear the entry for vpn, which is mapped; with dofree, free its page first. */
    method UnmapPage(root: nat, vpn: nat, dofree: bool)
      requires Valid() && Root(root) && vpn < MAXVPN && Translate(page, root, vpn).Some?
          && (dofree <==> Spot(root, vpn) !in foreign)
      modifies this
      ensures Valid() && Root(root) && held == old(held)
      ensures Shrinks(old(page), old(role), old(foreign), page, role, foreign, root) && HeldSame(old(page), page, held)
      ensures SameMapBut(old(page), page, root, vpn, vpn + 1) && Translate(page, root, vpn) == None
      ensures foreign == old(foreign) - (if dofree then {} else {Spot(root, vpn)})
      ensures dofree ==>
        && old(Translate(page, root, vpn)).value.ppn in old(role)
        && free == [old(Translate(page, root, vpn)).value.ppn] + old(free)
      ensures !dofree ==> free == old(free) && role == old(role)
    {
      hide FreeOk, TreeOk, Partition, Entry, Translate, Extends, Shrinks, SetPte, PutWord, Pack, FromAddress,
        SameMapBut;
      var t := Walk(root, vpn, false);
      assert t != 0;   // panic("uvmunmap: walk")
      RolePage(all, page, freelist, free, role, foreign, hole, held, t);
      EntryOf(page, role, foreign, root, vpn, t);
      var k := vpn % ENTRIES;
      var e := ReadEntry(t, k);
      LeafAt(page, role, foreign, t, k);
      assert e.v && (e.r || e.w || e.x || e.u
          || e.rest != 0);   // panic("uvmunmap: not mapped"), panic("uvmunmap: not a leaf")
      assert old(Translate(page, root, vpn)) == Some(e);
      if dofree {
        TakeLeaf(all, page, freelist, free, role, foreign, hole, held, t, k);
        ghost var c := e.ppn;
        RolePage(all, page, freelist, free, role, foreign, hole, held, c);
        role, hole, held := role - {c}, Hole(t, k), held + {c};
        Kfree(e.ppn);
        ClearEntry(all, page, freelist, free, role, foreign, hole, held, t, k);
        SetPteFrame(old(page), page, t, k, NOPTE, c);
        PutsNone(page, t, k);
        page := PutWord(page, t, k, 0);
        hole := NoHole;
        Unmapped(old(page), old(role), foreign, root, vpn, t, c, page);
      } else {
        TakeForeign(all, page, freelist, free, role, foreign, hole, held, t, k);
        LeafMaps(page, role, foreign, root, vpn, t, NOPTE);
        foreign := foreign - {Spot(root, vpn)};
        PutsNone(page, t, k);
        page := PutWord(page, t, k, 0);
      }
    }
  
    /** Unmap n pages from vpn on. */
    method Uvmunmap(root: nat, vpn: nat, n: nat, dofree: bool)
      requires Valid() && Root(root) && vpn + n <= MAXVPN
      requires forall v: nat :: vpn <= v < vpn + n ==>
        && Translate(page, root, v).Some? && (dofree <==> Spot(root, v) !in foreign)
      modifies this
      ensures Valid() && Root(root) && held == old(held)
      ensures Shrinks(old(page), old(role), old(foreign), page, role, foreign, root) && HeldSame(old(page), page, held)
      ensures SameMapBut(old(page), page, root, vpn, vpn + n)
      ensures forall v: nat :: vpn <= v < vpn + n ==> Translate(page, root, v) == None
      ensures forall s: Spot :: s in foreign <==>
          s in old(foreign) && !(!dofree && s.root == root && vpn <= s.vpn < vpn + n)
      ensures |free| == old(|free|) + (if dofree then n else 0) && (!dofree ==> role == old(role))
    {
      hide MemOk, Translate, Shrinks, SameMapBut;
      GrowsStart(root);
      SameMapStart(page, root, vpn);
      var a := vpn;
      while a < vpn + n
        invariant Valid() && Root(root) && vpn <= a <= vpn + n && held == old(held)
        invariant Shrinks(old(page), old(role), old(foreign), page, role, foreign, root)
            && HeldSame(old(page), page, held)
        invariant SameMapBut(old(page), page, root, vpn, a)
        invariant forall v: nat :: vpn <= v < a ==> Translate(page, root, v) == None
        invariant forall s: Spot :: s in foreign <==>
            s in old(foreign) && !(!dofree && s.root == root && vpn <= s.vpn < a)
        invariant |free| == old(|free|) + (if dofree then a - vpn else 0) && (!dofree ==> role == old(role))
      {
        ghost var page1, role1, foreign1 := page, role, foreign;
        SameMapAt(old(page), page, root, vpn, a, a);
        UnmapPage(root, a, dofree);
        ShrinksTrans(old(page), old(role), old(foreign), page1, role1, foreign1, page, role, foreign, root);
        SameMapTrans(old(page), page1, page, root, vpn, a, a + 1);
        a := a + 1;
      }
    }

    ghost predicate SizedAt(root: nat, n: nat)
      reads this
    {
      Sized(page, role, foreign, root, n, TRAPFRAME)
    }

    /** Give back the user pages beyond newsz. */
    method Uvmdealloc(root: nat, oldsz: nat, newsz: nat) returns (sz: nat)
      requires Valid() && SizedAt(root, PagesUp(oldsz)) && PagesUp(oldsz) <= TRAPFRAME
      modifies this
      ensures Valid() && SizedAt(root, PagesUp(sz)) && held == old(held) && foreign == old(foreign)
      ensures sz == if newsz < oldsz then newsz else oldsz
      ensures Shrinks(old(page), old(role), foreign, page, role, foreign, root) && HeldSame(old(page), page, held)
      ensures SameMapBut(old(page), page, root, PagesUp(sz), PagesUp(oldsz))
      ensures forall v: nat :: PagesUp(sz) <= v < PagesUp(oldsz) ==> Translate(page, root, v) == None
      ensures |free| == old(|free|) + PagesUp(oldsz) - PagesUp(sz)
    {
      hide MemOk, Translate, Shrinks, SameMapBut;
      GrowsStart(root);
      SameMapStart(page, root, PagesUp(oldsz));
      if newsz >= oldsz {
        return oldsz;
      }
      if PagesUp(newsz) < PagesUp(oldsz) {
        var npages := PagesUp(oldsz) - PagesUp(newsz);
        Uvmunmap(root, PagesUp(newsz), npages, true);
        assert foreign == old(foreign);
        SizedShrink(old(page), old(role), foreign, page, role, root, PagesUp(newsz), PagesUp(oldsz), TRAPFRAME);
      }
      return newsz;
    }
  
    /** Allocate a page, fill it, and map it just after the last user page. */
    method AddPage(root: nat, a: nat, content: Page, perm: Pte) returns (ok: bool)
      requires Valid() && SizedAt(root, a) && content.Data? && Leaf(perm)
      modifies this
      ensures Valid() && held == old(held) && foreign == old(foreign) && HeldSame(old(page), page, held)
      ensures Grows(old(page), old(role), foreign, page, role, foreign, root)
      ensures ok ==>
        && SizedAt(root, a + 1) && a < MAXPAGES && SameMapBut(old(page), page, root, a, a + 1)
        && |free| + 3 >= old(|free|)
      ensures ok ==> MapsTo(page, role, root, a, perm, content)
      ensures !ok ==> SizedAt(root, a) && SameMapBut(old(page), page, root, 0, 0) && old(|free|) <= 2
    {
      hide FreeOk, TreeOk, Partition, Translate, Grows, SameMapBut, Sized;
      SizedRoot(page, role, foreign, root, a);
      RoomBelow(all, page, freelist, free, role, foreign, hole, held, root, a, TRAPFRAME);
      ExtendsFrame(page, role, foreign, page, root);
      ExtendsGrows(page, role, foreign, page, role, root);
      var mem := Kalloc();
      if mem == 0 {
        return false;
      }
      Fill(mem, content);
      assert page == old(page)[mem := content];
      ExtendsFrame(old(page), role, foreign, page, root);
      ExtendsGrows(old(page), role, foreign, page, role, root);
      SizedSame(old(page), role, foreign, page, role, root, a, TRAPFRAME);
      SizedGap(page, role, foreign, root, a, TRAPFRAME, a);
      ghost var page1 := page;
      ghost var m;
      ok, m := Mappages(root, a, 1, mem, perm, true);
      assert foreign == old(foreign);
      GrowsTrans(old(page), old(role), foreign, page1, old(role), foreign, page, role, foreign, root);
      if ok {
        SizedGrow(page1, old(role), foreign, page, role, root, a, TRAPFRAME);
        SameMapNone(old(page), page1, root, a);
        SameMapTrans(old(page), page1, page, root, a, a, a + 1);
        RoomBelow(all, page, freelist, free, role, foreign, hole, held, root, a + 1, TRAPFRAME);
      } else {
        SameMapZero(page1, page, root, a);
        SameMapTrans(old(page), page1, page, root, 0, 0, 0);
        ghost var page2 := page;
        Kfree(mem);
        ExtendsFrame(page2, role, foreign, page, root);
        ExtendsGrows(page2, role, foreign, page, role, root);
        GrowsTrans(old(page), old(role), foreign, page2, role, foreign, page, role, foreign, root);
        SameMapTrans(old(page), page2, page, root, 0, 0, 0);
        SizedSame(old(page), old(role), foreign, page, role, root, a, TRAPFRAME);
      }
    }
  
    /** Grow an address space to newsz bytes with zeroed pages, or, if memory runs out, leave every
        translation as it was and return 0. */
    method Uvmalloc(root: nat, oldsz: nat, newsz: nat, xperm: Pte) returns (sz: nat)
      requires Valid() && SizedAt(root, PagesUp(oldsz))
      modifies this
      ensures Valid() && held == old(held) && foreign == old(foreign) && HeldSame(old(page), page, held)
      ensures OnlyRoot(old(page), old(role), foreign, page, role, foreign, root)
          && DataKept(old(page), old(role), page, role)
      ensures sz == 0 || sz == if newsz < oldsz then oldsz else newsz
      ensures sz != 0 ==> SizedAt(root, PagesUp(sz)) && SameMapBut(old(page), page, root, PagesUp(oldsz), PagesUp(sz))
      ensures sz != 0 ==> forall v: nat :: PagesUp(oldsz) <= v < PagesUp(sz) ==>
          MapsTo(page, role, root, v, UserPte(xperm), Filled(0))
      ensures sz == 0 ==> SizedAt(root, PagesUp(oldsz)) && SameMapBut(old(page), page, root, 0, 0)
      ensures sz == 0 && newsz > 0 ==> oldsz <= newsz && old(|free|) < 3 * (PagesUp(newsz) - PagesUp(oldsz))
      ensures sz != 0 ==> old(|free|) <= |free| + 3 * (PagesUp(sz) - PagesUp(oldsz))
    {
      hide MemOk, Translate, Grows, Shrinks, SameMapBut, Sized, OnlyRoot, DataKept, MapsTo;
      RoomBelow(all, page, freelist, free, role, foreign, hole, held, root, PagesUp(oldsz), TRAPFRAME);
      GrowsStart(root);
      SameMapStart(page, root, PagesUp(oldsz));
      SameMapStart(page, root, 0);
      GrowsOnly(page, role, foreign, page, role, foreign, root);
      if newsz < oldsz {
        return oldsz;
      }
      var start := PagesUp(oldsz);
      var a := start;
      while a * PGSIZE < newsz
        invariant start <= a <= MAXPAGES && (a == start || a <= PagesUp(newsz))
        invariant Valid() && held == old(held) && foreign == old(foreign) && HeldSame(old(page), page, held)
        invariant Grows(old(page), old(role), foreign, page, role, foreign, root)
        invariant SizedAt(root, a) && SameMapBut(old(page), page, root, start, a)
        invariant forall v: nat :: start <= v < a ==> MapsTo(page, role, root, v, UserPte(xperm), Filled(0))
        invariant |free| + 3 * (a - start) >= old(|free|)
        decreases newsz - a * PGSIZE
      {
        ghost var page1, role1 := page, role;
        var ok := AddPage(root, a, Filled(0), UserPte(xperm));
        GrowsTrans(old(page), old(role), foreign, page1, role1, foreign, page, role, foreign, root);
        if !ok {
          SameMapNone(page1, page, root, a);
          SameMapTrans(old(page), page1, page, root, start, a, a);
          ghost var page2, role2 := page, role;
          var back := Uvmdealloc(root, a * PGSIZE, start * PGSIZE);
          assert PagesUp(a * PGSIZE) == a && PagesUp(start * PGSIZE) == start;
          GrowShrink(old(page), old(role), foreign, page2, role2, foreign, page, role, foreign, root);
          SizedClear(old(page), old(role), foreign, root, start, a);
          SameMapUndo(old(page), page2, page, root, start, a);
          return 0;
        }
        MapsKept(page1, role1, page, role, foreign, root, start, a, UserPte(xperm), Filled(0));
        SameMapTrans(old(page), page1, page, root, start, a, a + 1);
        a := a + 1;
      }
      GrowsOnly(old(page), old(role), foreign, page, role, foreign, root);
      assert a == PagesUp(newsz);
      return newsz;
    }
  
    /** The entry and the contents of a page an address space owns. */
    method ReadUser(root: nat, v: nat) returns (e: Pte, content: Page)
      requires Valid() && Root(root) && v < MAXVPN && Translate(page, root, v).Some? && Spot(root, v) !in foreign
      modifies this
      ensures page == old(page) && role == old(role) && free == old(free) && freelist == old(freelist)
          && foreign == old(foreign) && held == old(held) && hole == old(hole)
      ensures Translate(page, root, v) == Some(e) && Leaf(e) && e.ppn < |page| && content == page[e.ppn]
          && content.Data?
    {
      hide FreeOk, TreeOk, Partition, Translate, Entry, Extends;
      var t := Walk(root, v, false);
      assert t != 0;   // panic("uvmcopy: pte should exist"), panic("uvmcopy: page not present")
      EntryOf(page, role, foreign, root, v, t);
      e := ReadEntry(t, v % ENTRIES);
      TreeDown(page, role, foreign, t, v % ENTRIES);
      RolePage(all, page, freelist, free, role, foreign, hole, held, e.ppn);
      content := page[e.ppn];
    }

    /** Copy the user pages of one address space into another, which has none; or, if memory runs
        out, leave every translation as it was. */
    method Uvmcopy(src: nat, dst: nat, sz: nat) returns (ok: bool)
      requires Valid() && SizedAt(src, PagesUp(sz)) && SizedAt(dst, 0) && src != dst
      modifies this
      ensures Valid() && held == old(held) && foreign == old(foreign) && HeldSame(old(page), page, held)
      ensures OnlyRoot(old(page), old(role), foreign, page, role, foreign, dst)
          && DataKept(old(page), old(role), page, role)
      ensures ok ==> SizedAt(dst, PagesUp(sz)) && forall v: nat :: v < PagesUp(sz) ==>
          Copied(old(page), page, role, src, dst, v)
      ensures !ok ==> SizedAt(dst, 0) && SameMapBut(old(page), page, dst, 0, 0) && old(|free|) < 3 * PagesUp(sz)
      ensures ok ==> old(|free|) <= |free| + 3 * PagesUp(sz) && SameMapBut(old(page), page, dst, 0, PagesUp(sz))
    {
      hide MemOk, TreeOk, Translate, Grows, Shrinks, SameMapBut, Sized, OnlyRoot, DataKept, MapsTo, Copied;
      RoomBelow(all, page, freelist, free, role, foreign, hole, held, src, PagesUp(sz), TRAPFRAME);
      SizedRoot(page, role, foreign, src, PagesUp(sz));
      GrowsStart(dst);
      SameMapStart(page, dst, 0);
      TreeOf(all, page, freelist, free, role, foreign, hole, held);
      var i := 0;
      while i * PGSIZE < sz
        invariant 0 <= i <= PagesUp(sz)
        invariant Valid() && held == old(held) && foreign == old(foreign) && HeldSame(old(page), page, held)
        invariant Grows(old(page), old(role), foreign, page, role, foreign, dst)
        invariant SizedAt(dst, i) && SameMapBut(old(page), page, dst, 0, i)
        invariant forall v: nat :: v < i ==> Copied(old(page), page, role, src, dst, v)
        invariant |free| + 3 * i >= old(|free|)
        decreases sz - i * PGSIZE
      {
        SourceKept(old(page), old(role), page, role, foreign, src, dst, PagesUp(sz), i);
        var e, content := ReadUser(src, i);
        ghost var page1, role1 := page, role;
        ok := AddPage(dst, i, content, e);
        GrowsTrans(old(page), old(role), foreign, page1, role1, foreign, page, role, foreign, dst);
        if !ok {
          SameMapNone(page1, page, dst, i);
          SameMapTrans(old(page), page1, page, dst, 0, i, i);
          ghost var page2, role2 := page, role;
          SizedOwned(page, role, foreign, dst, i);
          Uvmunmap(dst, 0, i, true);
          assert foreign == old(foreign);
          GrowShrink(old(page), old(role), foreign, page2, role2, foreign, page, role, foreign, dst);
          SizedShrink(page2, role2, foreign, page, role, dst, 0, i, TRAPFRAME);
          SizedClear(old(page), old(role), foreign, dst, 0, i);
          SameMapUndo(old(page), page2, page, dst, 0, i);
          return false;
        }
        CopyKept(old(page), page1, role1, page, role, foreign, src, dst, i);
        CopyMade(old(page), page, role, src, dst, i, e, content);
        SameMapTrans(old(page), page1, page, dst, 0, i, i + 1);
        i := i + 1;
      }
      GrowsOnly(old(page), old(role), foreign, page, role, foreign, dst);
      assert i == PagesUp(sz);
      ok := true;
    }
  
    /** Free the tables at and below t, none of which maps a page. The entry that led to t, if any,
        is left for the caller to clear. */
    method Freewalk(t: nat)
      requires Valid() && t in role && role[t].depth < 3 && Leafless(page, role, role[t])
      modifies this
      ensures ValidBut() && held == old(held) && foreign == old(foreign) && HeldSame(old(page), page, held)
      ensures TookOut(old(page), old(role), page, role, old(role[t]))
      ensures hole == Above(old(role[t]))
      ensures HoleBare(role, hole)
      decreases 3 - role[t].depth
    {
      hide FreeOk, TreeOk, Partition, Entry, ClearedTo, TookOut, Leafless, SetPte;
      ghost var r := role[t];
      RolePage(all, page, freelist, free, role, foreign, hole, held, t);
      ClearedStart(page, role, t);
      var i := 0;
      while i < ENTRIES
        invariant 0 <= i <= ENTRIES
        invariant Valid() && held == old(held) && foreign == old(foreign) && HeldSame(old(page), page, held)
        invariant t in role && role[t] == r && ClearedTo(old(page), old(role), page, role, t, i)
      {
        var pte := ReadEntry(t, i);
        if pte.v {
          ChildReady(old(page), old(role), page, role, foreign, t, i);
        }
        if pte.v && !pte.r && !pte.w && !pte.x {
          ghost var page1, role1 := page, role;
          Freewalk(pte.ppn);
          TableLeft(all, old(page), old(role), page1, role1, page, freelist, free, role, foreign, hole, held, t, i);
          ClearEntry(all, page, freelist, free, role, foreign, hole, held, t, i);
          PutsNone(page, t, i);
          page := PutWord(page, t, i, 0);
          hole := NoHole;
        } else if pte.v {
          assert false;   // panic("freewalk: leaf")
        } else {
          EntryLeft(old(page), old(role), page, role, t, i);
          ClearedSkip(old(page), old(role), page, role, foreign, t, i);
        }
        i := i + 1;
      }
      ClearedAll(old(page), old(role), page, role, foreign, t);
      TakeTable(all, page, freelist, free, role, foreign, hole, held, t);
      ghost var page1, role1 := page, role;
      role, hole, held := role - {t}, Above(r), held + {t};
      Kfree(t);
      TookOutAll(old(page), old(role), page1, role1, page, t);
    }
  
    /** Make an empty address space. */
    method Uvmcreate() returns (root: nat)
      requires Valid()
      modifies this
      ensures Valid() && held == old(held) && HeldSame(old(page), page, held) && |free| + 1 >= old(|free|)
      ensures root == 0 ==> old(free) == [] && page == old(page) && role == old(role) && foreign == old(foreign)
      ensures root != 0 ==> root !in old(role) && Sized(page, role, foreign, root, 0, MAXVPN)
      ensures root != 0 ==> OnlyRoot(old(page), old(role), old(foreign), page, role, foreign, root)
    {
      hide FreeOk, TreeOk, Partition, Translate, Entry, Sized, OnlyRoot;
      root := Kalloc();
      if root == 0 {
        return;
      }
      Fill(root, Blank());
      assert page == old(page)[root := Blank()];
      ghost var was := foreign;
      foreign := set s: Spot | s in foreign && s.root != root;
      ForeignClean(page, role, was, foreign, root);
      Rooted(all, page, freelist, free, role, foreign, hole, held, root);
      OnlyNew(old(page), role, was, page, foreign, root);
      held := held - {root};
      role := role[root := Role(root, 0, 0, 0)];
    }

    /** Free the user pages of an address space that has no foreign ones, and then its tables. */
    method Uvmfree(root: nat, sz: nat)
      requires Valid() && Sized(page, role, foreign, root, PagesUp(sz), MAXVPN)
      modifies this
      ensures Valid() && held == old(held) && foreign == old(foreign) && HeldSame(old(page), page, held)
      ensures Gone(old(page), old(role), page, role, root)
    {
      hide MemOk, TreeOk, Translate, Shrinks, SameMapBut, Sized, OnlyRoot, Gone, Leafless, TookOut;
      TreeOf(all, page, freelist, free, role, foreign, hole, held);
      SizedAll(page, role, foreign, root, PagesUp(sz), MAXVPN);
      GrowsStart(root);
      SameMapStart(page, root, 0);
      if sz > 0 {
        Uvmunmap(root, 0, PagesUp(sz), true);
      }
      ghost var page1, role1 := page, role;
      assert foreign == old(foreign);
      SizedShrink(old(page), old(role), foreign, page, role, root, 0, PagesUp(sz), MAXVPN);
      SizedNothing(page, role, foreign, root);
      TreeOf(all, page, freelist, free, role, foreign, hole, held);
      EmptyLeafless(page, role, foreign, root);
      RootSelf(page, role, foreign, root);
      Freewalk(root);
      TookOutRoot(page1, role1, foreign, page, role, root);
      GoneShrunk(old(page), old(role), foreign, page1, role1, page, role, root);
    }
  
    /** An address space of a process: n user pages, the trampoline and the trapframe. */
    ghost predicate Process(root: nat, n: nat)
      reads this
    {
      SizedAt(root, n) && Spot(root, TRAMPOLINE) in foreign && Spot(root, TRAPFRAME) in foreign
    }

    /** Make the address space of a new process, or nothing. x is the page tried as its root. */
    method ProcPagetable(trampoline: nat, trapframe: nat) returns (root: nat, ghost x: nat)
      requires Valid()
      modifies this
      ensures Valid() && held == old(held) && HeldSame(old(page), page, held)
      ensures x !in old(role) && OnlyRoot(old(page), old(role), old(foreign), page, role, foreign, x)
      ensures root != 0 ==> x == root && Process(root, 0) && |free| + 5 >= old(|free|)
      ensures root != 0 ==>
          Translate(page, root, TRAMPOLINE) == Some(Pte(true, true, false, true, false, 0, trampoline))
      ensures root != 0 ==> Translate(page, root, TRAPFRAME) == Some(Pte(true, true, true, false, false, 0, trapframe))
      ensures root == 0 ==> old(|free|) <= 4 && forall p :: p in role ==> role[p].root != x
    {
      hide MemOk, TreeOk, Translate, Grows, Shrinks, SameMapBut, Sized, OnlyRoot, Gone;
      TreeOf(all, page, freelist, free, role, foreign, hole, held);
      root := Uvmcreate();
      x := root;
      if root == 0 {
        NoRoot(page, role, foreign);
        return;
      }
      SizedAll(page, role, foreign, root, 0, MAXVPN);
      SizedGap(page, role, foreign, root, 0, MAXVPN, TRAMPOLINE);
      ghost var page1, role1, foreign1 := page, role, foreign;
      ghost var m;
      var ok;
      ok, m := Mappages(root, TRAMPOLINE, 1, trampoline, Pte(true, true, false, true, false, 0, 0), false);
      GrowsOnly(page1, role1, foreign1, page, role, foreign, root);
      OnlyRootTrans(old(page), old(role), old(foreign), page1, role1, foreign1, page, role, foreign, root);
      if !ok {
        assert foreign == foreign1;
        SameMapZero(page1, page, root, TRAMPOLINE);
        SizedSame(page1, role1, foreign, page, role, root, 0, MAXVPN);
        root := Abandon(root, old(page), old(role), old(foreign));
        return;
      }
      SizedForeign(page1, role1, foreign1, page, role, foreign, root, 0, TRAMPOLINE);
      SizedGap(page, role, foreign, root, 0, TRAMPOLINE, TRAPFRAME);
      ghost var page2, role2, foreign2 := page, role, foreign;
      ok, m := Mappages(root, TRAPFRAME, 1, trapframe, Pte(true, true, true, false, false, 0, 0), false);
      GrowsOnly(page2, role2, foreign2, page, role, foreign, root);
      OnlyRootTrans(old(page), old(role), old(foreign), page2, role2, foreign2, page, role, foreign, root);
      if !ok {
        assert foreign == foreign2;
        SameMapZero(page2, page, root, TRAPFRAME);
        SizedSame(page2, role2, foreign, page, role, root, 0, TRAMPOLINE);
        SizedSpots(page, role, foreign, root, 0, TRAMPOLINE);
        DropForeign(root, TRAMPOLINE, 0, TRAMPOLINE, old(page), old(role), old(foreign));
        SizedTop(page, role, foreign, root, 0, TRAMPOLINE, MAXVPN);
        root := Abandon(root, old(page), old(role), old(foreign));
        return;
      }
      SizedForeign(page2, role2, foreign2, page, role, foreign, root, 0, TRAPFRAME);
      SameMapAt(page2, page, root, TRAPFRAME, TRAPFRAME + 1, TRAMPOLINE);
    }

    /** Unmap one foreign page. */
    method DropForeign(root: nat, v: nat, ghost n: nat, ghost top: nat, ghost page0: seq<Page>,
            ghost role0: map<nat, Role>, ghost foreign0: set<Spot>)
      requires Valid() && Sized(page, role, foreign, root, n, top) && n <= top <= v < MAXVPN && Spot(root, v) in foreign
      requires OnlyRoot(page0, role0, foreign0, page, role, foreign, root)
      modifies this
      ensures Valid() && held == old(held) && HeldSame(old(page), page, held) && role == old(role)
          && |free| == old(|free|)
      ensures Sized(page, role, foreign, root, n, top)
      ensures OnlyRoot(page0, role0, foreign0, page, role, foreign, root)
      ensures forall s: Spot :: s in foreign <==> s in old(foreign) && s != Spot(root, v)
    {
      hide MemOk, Translate, Shrinks, SameMapBut, Sized, OnlyRoot;
      SizedForeignAt(page, role, foreign, root, n, top, v);
      Uvmunmap(root, v, 1, false);
      ShrinksOnly(old(page), old(role), old(foreign), page, role, foreign, root);
      OnlyRootTrans(page0, role0, foreign0, old(page), old(role), old(foreign), page, role, foreign, root);
      SizedUnforeign(old(page), old(role), old(foreign), page, role, foreign, root, n, v, top);
    }

    /** Give up on an address space that maps nothing. */
    method Abandon(root: nat, ghost page0: seq<Page>, ghost role0: map<nat, Role>,
            ghost foreign0: set<Spot>) returns (none: nat)
      requires Valid() && Sized(page, role, foreign, root, 0, MAXVPN)
          && OnlyRoot(page0, role0, foreign0, page, role, foreign, root)
      modifies this
      ensures Valid() && held == old(held) && HeldSame(old(page), page, held) && none == 0
      ensures OnlyRoot(page0, role0, foreign0, page, role, foreign, root) && forall p :: p in role ==>
          role[p].root != root
    {
      hide MemOk, Sized, OnlyRoot, Gone;
      Uvmfree(root, 0);
      GoneOnly(old(page), old(role), foreign, page, role, root);
      OnlyRootTrans(page0, role0, foreign0, old(page), old(role), foreign, page, role, foreign, root);
      none := 0;
    }

    /** Take a process's address space apart: no page of it is left. */
    method ProcFreepagetable(root: nat, sz: nat)
      requires Valid() && Process(root, PagesUp(sz)) && PagesUp(sz) <= TRAPFRAME
      modifies this
      ensures Valid() && held == old(held) && HeldSame(old(page), page, held)
      ensures OnlyRoot(old(page), old(role), old(foreign), page, role, foreign, root)
      ensures forall p :: p in role ==> role[p].root != root
      ensures forall v: nat :: Spot(root, v) !in foreign
    {
      hide MemOk, TreeOk, Translate, Shrinks, Sized, OnlyRoot, Gone;
      GrowsStart(root);
      ShrinksOnly(page, role, foreign, page, role, foreign, root);
      SizedSpots(page, role, foreign, root, PagesUp(sz), TRAPFRAME);
      DropForeign(root, TRAMPOLINE, PagesUp(sz), TRAPFRAME, old(page), old(role), old(foreign));
      DropForeign(root, TRAPFRAME, PagesUp(sz), TRAPFRAME, old(page), old(role), old(foreign));
      SizedTop(page, role, foreign, root, PagesUp(sz), TRAPFRAME, MAXVPN);
      ghost var page1, role1, foreign1 := page, role, foreign;
      Uvmfree(root, sz);
      GoneOnly(page1, role1, foreign, page, role, root);
      OnlyRootTrans(old(page), old(role), old(foreign), page1, role1, foreign, page, role, foreign, root);
    }
  }
}
