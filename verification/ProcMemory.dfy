/** The memory of processes over whole runs: allocproc, growproc, fork and freeproc on one physical memory. */
module ProcMemory {
  import opened Machine
  import opened Options
  import opened PageTree
  import opened PteBits
  import opened VirtualMemory

  /** What the process table knows of a process's memory: its size in bytes and its trapframe page. */
  datatype Proc = Proc(sz: nat, trapframe: nat)

  datatype Op = Spawn | Grow(root: nat, n: int) | Fork(root: nat) | Exit(root: nat)

  /** A C int. */
  predicate IsInt(n: int) {
    -0x8000_0000 <= n < 0x8000_0000
  }

  /** Address space r has the trampoline page tr, to read and run, and the trapframe tf, to read and write, where the
      trap code looks for them, and user code reaches neither. */
  ghost predicate Traps(page: seq<Page>, r: nat, tr: nat, tf: nat) {
    && Translate(page, r, TRAMPOLINE) == Some(Pte(true, true, false, true, false, 0, tr))
    && Translate(page, r, TRAPFRAME) == Some(Pte(true, true, true, false, false, 0, tf))
  }

  /** A process has its user memory, its trapframe and the trampoline, and nothing else. */
  ghost predicate ProcOk(page: seq<Page>, role: map<nat, Role>, foreign: set<Spot>, tr: nat, r: nat, pr: Proc) {
    && Sized(page, role, foreign, r, PagesUp(pr.sz), TRAPFRAME) && PagesUp(pr.sz) <= MAXPAGES
    && Spot(r, TRAMPOLINE) in foreign && Spot(r, TRAPFRAME) in foreign && Traps(page, r, tr, pr.trapframe)
  }

  ghost predicate AllOkBut(page: seq<Page>, role: map<nat, Role>, foreign: set<Spot>, tr: nat, procs: map<nat, Proc>,
          x: nat) {
    forall r :: r in procs && r != x ==> ProcOk(page, role, foreign, tr, r, procs[r])
  }

  lemma TrapsKept(page: seq<Page>, page': seq<Page>, r: nat, tr: nat, tf: nat, lo: nat, hi: nat)
    requires Traps(page, r, tr, tf) && SameMapBut(page, page', r, lo, hi) && (hi <= MAXPAGES || lo >= hi)
    ensures Traps(page', r, tr, tf)
  {
    hide Translate;
  }

  /** An operation on address space x leaves every process but that of x as it was. */
  lemma OthersKept(page: seq<Page>, role: map<nat, Role>, foreign: set<Spot>, page': seq<Page>,
          role': map<nat, Role>, foreign': set<Spot>, tr: nat, procs: map<nat, Proc>, x: nat)
    requires TreeOk(page, role, foreign, NoHole) && OnlyRoot(page, role, foreign, page', role', foreign', x)
        && AllOkBut(page, role, foreign, tr, procs, x)
    ensures AllOkBut(page', role', foreign', tr, procs, x)
  {
    hide TreeOk, Sized, Translate;
    forall r | r in procs && r != x ensures ProcOk(page', role', foreign', tr, r, procs[r]) {
      assert ProcOk(page, role, foreign, tr, r, procs[r]);
      OthersSized(page, role, foreign, page', role', foreign', x, r, PagesUp(procs[r].sz), TRAPFRAME);
      SizedRoot(page, role, foreign, r, PagesUp(procs[r].sz));
      OthersTranslate(page, role, foreign, page', role', foreign', x, r);
    }
  }

  /** Every page of an address space belongs to a process. */
  ghost predicate RootsIn(role: map<nat, Role>, procs: map<nat, Proc>) {
    forall p :: p in role ==> role[p].root in procs
  }

  lemma RootsKept(page: seq<Page>, role: map<nat, Role>, foreign: set<Spot>, page': seq<Page>, role': map<nat, Role>,
          foreign': set<Spot>, procs: map<nat, Proc>, procs': map<nat, Proc>, x: nat)
    requires RootsIn(role, procs) && OnlyRoot(page, role, foreign, page', role', foreign', x)
    requires forall r :: r in procs && r != x ==> r in procs'
    requires x in procs' || forall p :: p in role' ==> role'[p].root != x
    ensures RootsIn(role', procs')
  {
  }

  /** kalloc's other customers have the pages others; the rest that is handed out is trapframes, one a process. */
  ghost predicate HeldOk(held: set<nat>, others: set<nat>, procs: map<nat, Proc>) {
    && (forall r :: r in procs ==> procs[r].trapframe in held && procs[r].trapframe !in others)
    && (forall r, r' :: r in procs && r' in procs && r != r' ==> procs[r].trapframe != procs[r'].trapframe)
    && others <= held
    && (forall p :: p in held && p !in others ==> exists r :: r in procs && procs[r].trapframe == p)
  }

  lemma HeldMore(held: set<nat>, others: set<nat>, procs: map<nat, Proc>, r: nat, pr: Proc)
    requires HeldOk(held, others, procs) && pr.trapframe !in held && r !in procs
    ensures HeldOk(held + {pr.trapframe}, others, procs[r := pr])
  {
    var procs' := procs[r := pr];
    forall p | p in held + {pr.trapframe} && p !in others ensures exists q :: q in procs' && procs'[q].trapframe == p {
      if p == pr.trapframe {
        assert r in procs';
      } else {
        var q :| q in procs && procs[q].trapframe == p;
        assert q in procs';
      }
    }
  }

  lemma HeldLess(held: set<nat>, others: set<nat>, procs: map<nat, Proc>, r: nat)
    requires HeldOk(held, others, procs) && r in procs
    ensures HeldOk(held - {procs[r].trapframe}, others, procs - {r})
  {
    var procs' := procs - {r};
    forall p | p in held - {procs[r].trapframe} && p !in others
        ensures exists q :: q in procs' && procs'[q].trapframe == p {
      var q :| q in procs && procs[q].trapframe == p;
      assert q in procs';
    }
  }

  lemma HeldResize(held: set<nat>, others: set<nat>, procs: map<nat, Proc>, r: nat, sz: nat)
    requires HeldOk(held, others, procs) && r in procs
    ensures HeldOk(held, others, procs[r := procs[r].(sz := sz)])
  {
    var procs' := procs[r := procs[r].(sz := sz)];
    forall p | p in held && p !in others ensures exists q :: q in procs' && procs'[q].trapframe == p {
      var q :| q in procs && procs[q].trapframe == p;
      assert q in procs';
    }
  }

  /** The pages of every process but x hold what they held, in the same places. */
  ghost predicate OthersSame(page: seq<Page>, role: map<nat, Role>, page': seq<Page>, role': map<nat, Role>, x: nat) {
    && |page'| == |page|
    && (forall p :: p in role && role[p].root != x ==>
          p in role' && role'[p] == role[p] && (p < |page| ==> page'[p] == page[p]))
    && (forall p :: p in role' && role'[p].root != x ==> p in role && role[p].root != x)
  }

  lemma OnlySame(page: seq<Page>, role: map<nat, Role>, foreign: set<Spot>, page': seq<Page>, role': map<nat, Role>,
          foreign': set<Spot>, x: nat)
    requires OnlyRoot(page, role, foreign, page', role', foreign', x)
    ensures OthersSame(page, role, page', role', x)
  {
  }

  /** Pages that are part of no address space have changed: nothing has happened to any process. */
  lemma FrameOnly(page: seq<Page>, role: map<nat, Role>, foreign: set<Spot>, page': seq<Page>, x: nat)
    requires |page'| == |page| && forall p :: p in role && p < |page| ==> page'[p] == page[p]
    ensures OnlyRoot(page, role, foreign, page', role, foreign, x)
  {
  }

  /** An address space that came and went left nothing behind. */
  lemma NothingLeft(page: seq<Page>, role: map<nat, Role>, foreign: set<Spot>, page': seq<Page>,
          role': map<nat, Role>, foreign': set<Spot>, x: nat)
    requires TreeOk(page, role, foreign, NoHole) && x !in role
        && OnlyRoot(page, role, foreign, page', role', foreign', x)
    requires forall p :: p in role' ==> role'[p].root != x
    ensures OthersSame(page, role, page', role', 0)
  {
    hide TreeOk;
    forall p | p in role ensures role[p].root != x {
      RootOf(page, role, foreign, p);
    }
  }

  /** The processes after an operation on address space x, from those before. */
  lemma Settled(page: seq<Page>, role: map<nat, Role>, foreign: set<Spot>, page': seq<Page>, role': map<nat, Role>,
          foreign': set<Spot>, tr: nat, procs: map<nat, Proc>, procs': map<nat, Proc>, x: nat)
    requires TreeOk(page, role, foreign, NoHole) && OnlyRoot(page, role, foreign, page', role', foreign', x)
    requires AllOkBut(page, role, foreign, tr, procs, 0) && 0 !in procs && RootsIn(role, procs)
    requires forall r :: r != x ==> (r in procs' <==> r in procs) && (r in procs ==> procs'[r] == procs[r])
    requires if x in procs' then ProcOk(page', role', foreign', tr, x, procs'[x]) else forall p :: p in role' ==>
        role'[p].root != x
    ensures AllOkBut(page', role', foreign', tr, procs', 0) && RootsIn(role', procs')
  {
    hide TreeOk, OnlyRoot, ProcOk;
    OthersKept(page, role, foreign, page', role', foreign', tr, procs, x);
    RootsKept(page, role, foreign, page', role', foreign', procs, procs', x);
  }

  lemma ProcRoot(page: seq<Page>, role: map<nat, Role>, foreign: set<Spot>, tr: nat, procs: map<nat, Proc>)
    requires AllOkBut(page, role, foreign, tr, procs, 0) && 0 !in procs
    ensures forall r :: r in procs ==> r in role && role[r].depth == 0
  {
    hide Translate;
    forall r | r in procs ensures r in role && role[r].depth == 0 {
      assert ProcOk(page, role, foreign, tr, r, procs[r]);
    }
  }

  function Smaller(a: nat, b: nat): nat {
    if a < b then a else b
  }

  /** The first n pages of address space root translate as before. */
  ghost predicate SameBelow(page: seq<Page>, page': seq<Page>, root: nat, n: nat) {
    forall v: nat :: v < n && v < MAXVPN ==> Translate(page', root, v) == Translate(page, root, v)
  }

  lemma SameMapBelow(page: seq<Page>, page': seq<Page>, root: nat, lo: nat, hi: nat)
    requires SameMapBut(page, page', root, lo, hi)
    ensures SameBelow(page, page', root, lo)
  {
    hide Translate;
  }

  lemma KeptSelf(page: seq<Page>, role: map<nat, Role>, root: nat, n: nat)
    ensures DataKept(page, role, page, role) && SameBelow(page, page, root, n)
  {
  }

  lemma SameTrans(page: seq<Page>, role: map<nat, Role>, page1: seq<Page>, role1: map<nat, Role>, page2: seq<Page>,
          role2: map<nat, Role>, x: nat)
    requires OthersSame(page, role, page1, role1, x) && OthersSame(page1, role1, page2, role2, x)
    ensures OthersSame(page, role, page2, role2, x)
  {
  }

  /** When x was no process and is none again, nothing has changed at all. */
  lemma SameNone(page: seq<Page>, role: map<nat, Role>, foreign: set<Spot>, page': seq<Page>, role': map<nat, Role>,
          procs: map<nat, Proc>, x: nat)
    requires OthersSame(page, role, page', role', x) && RootsIn(role, procs) && RootsIn(role', procs) && x !in procs
    ensures OthersSame(page, role, page', role', 0)
  {
  }

  /** The copies are of what the parent had before the child was made. */
  lemma SourceSame(page: seq<Page>, role: map<nat, Role>, foreign: set<Spot>, page1: seq<Page>,
          role1: map<nat, Role>, page2: seq<Page>, role2: map<nat, Role>, src: nat, dst: nat, n: nat)
    requires TreeOk(page, role, foreign, NoHole) && Sized(page, role, foreign, src, n, TRAPFRAME) && src != dst
    requires OthersSame(page, role, page1, role1, dst)
    requires forall v: nat :: v < n ==> Copied(page1, page2, role2, src, dst, v)
    ensures forall v: nat :: v < n ==> Copied(page, page2, role2, src, dst, v)
  {
    hide TreeOk, MapsTo, Translate, WalkTo;
    SizedAll(page, role, foreign, src, n, TRAPFRAME);
    RootSelf(page, role, foreign, src);
    forall v: nat | v < n ensures Copied(page, page2, role2, src, dst, v) {
      assert Copied(page1, page2, role2, src, dst, v);
      TranslateFrame(page, page1, role, foreign, src, v);
      OwnedPage(page, role, foreign, src, v);
      TreePages(page, role, foreign, NoHole);
    }
  }

  /** With no process left, what is not some other customer's is free. */
  lemma AllBack(all: set<nat>, page: seq<Page>, head: nat, free: seq<nat>, role: map<nat, Role>, foreign: set<Spot>,
          hole: Hole, held: set<nat>, others: set<nat>)
    requires MemOk(all, page, head, free, role, foreign, hole, held) && RootsIn(role, map[])
        && HeldOk(held, others, map[])
    ensures role == map[] && held == others
    ensures forall p :: p in free <==> p in all && p !in others
  {
    hide FreeOk, TreeOk;
    forall p | p in held ensures p in others {
      if p !in others { assert false; }
    }
  }

  /** Memory and processes between two calls. */
  datatype Snap = Snap(page: seq<Page>, freelist: nat, free: seq<nat>, role: map<nat, Role>, foreign: set<Spot>,
                       held: set<nat>, procs: map<nat, Proc>)

  /** Everything that holds of memory and processes in every state: see Procs.Valid. */
  ghost predicate SnapOk(all: set<nat>, others: set<nat>, tr: nat, s: Snap) {
    && MemOk(all, s.page, s.freelist, s.free, s.role, s.foreign, NoHole, s.held)
    && RootsIn(s.role, s.procs) && HeldOk(s.held, others, s.procs)
    && AllOkBut(s.page, s.role, s.foreign, tr, s.procs, 0) && 0 !in s.procs
  }

  datatype Reply = Skipped | Root(root: nat) | Answered(ok: bool)

  /** A new process without user memory, for at most six pages, or none because memory ran out. */
  ghost predicate Spawned(s: Snap, root: nat, s': Snap) {
    && OthersSame(s.page, s.role, s'.page, s'.role, root)
    && if root == 0 then s'.procs == s.procs && |s.free| <= 5 && |s'.free| == |s.free|
       else
         && root !in s.procs && root in s'.procs && s'.procs[root].sz == 0
         && s'.procs == s.procs[root := s'.procs[root]]
         && |s.free| <= |s'.free| + 6
  }

  /** Pages lo to hi of address space root are zero, and user code may read and write them. */
  ghost predicate Zeroed(page: seq<Page>, role: map<nat, Role>, root: nat, lo: nat, hi: nat) {
    forall v: nat :: lo <= v < hi ==> MapsTo(page, role, root, v, Pte(true, true, true, false, true, 0, 0), Filled(0))
  }

  /** n bytes more, zeroed, for at most three pages a page, or less; the memory that stays is as it was. No change if
      memory ran out. */
  ghost predicate Grew(s: Snap, root: nat, n: int, ok: bool, s': Snap)
    requires root in s.procs
  {
    var sz := s.procs[root].sz;
    && OthersSame(s.page, s.role, s'.page, s'.role, root) && DataKept(s.page, s.role, s'.page, s'.role)
    && root in s'.procs && s'.procs == s.procs[root := s.procs[root].(sz := if ok && 0 <= sz + n then sz + n else sz)]
    && (ok ==> SameBelow(s.page, s'.page, root, PagesUp(Smaller(sz, s'.procs[root].sz))))
    && (ok && n > 0 ==> |s.free| <= |s'.free| + 3 * (PagesUp(sz + n) - PagesUp(sz)))
    && (ok ==> Zeroed(s'.page, s'.role, root, PagesUp(sz), PagesUp(s'.procs[root].sz)))
    && (n <= 0 ==> ok && |s'.free| == |s.free| + PagesUp(sz) - PagesUp(s'.procs[root].sz))
    && (!ok ==> SameMapBut(s.page, s'.page, root, 0, 0) && |s.free| < 3 * (PagesUp(sz + n) - PagesUp(sz)))
  }

  /** A child with a copy of the memory, for at most six pages and three a page, or none because memory ran out. */
  ghost predicate Forked(s: Snap, root: nat, child: nat, s': Snap)
    requires root in s.procs
  {
    var pages := PagesUp(s.procs[root].sz);
    && OthersSame(s.page, s.role, s'.page, s'.role, child)
    && if child == 0 then s'.procs == s.procs && |s.free| <= 5 + 3 * pages && |s'.free| == |s.free|
       else
         && child !in s.procs && child in s'.procs && s'.procs == s.procs[child := s'.procs[child]]
         && s'.procs[child].sz == s.procs[root].sz && |s.free| <= |s'.free| + 6 + 3 * pages
         && forall v: nat :: v < pages ==> Copied(s.page, s'.page, s'.role, root, child, v)
  }

  ghost predicate Did(s: Snap, op: Op, reply: Reply, s': Snap) {
    match op
    case Spawn => reply.Root? && Spawned(s, reply.root, s')
    case Grow(root, n) =>
      if root in s.procs then reply.Answered? && Grew(s, root, n, reply.ok, s') else reply == Skipped && s' == s
    case Fork(root) =>
      if root in s.procs then reply.Root? && Forked(s, root, reply.root, s') else reply == Skipped && s' == s
    case Exit(root) =>
      if root in s.procs then
        reply == Answered(true) && s'.procs == s.procs - {root} && OthersSame(s.page, s.role, s'.page, s'.role, root)
      else reply == Skipped && s' == s
  }

  /** The same processes hold the same trapframes. */
  lemma SameHeld(held: set<nat>, held': set<nat>, others: set<nat>, procs: map<nat, Proc>)
    requires HeldOk(held, others, procs) && HeldOk(held', others, procs)
    ensures held == held'
  {
    forall p ensures p in held <==> p in held' {
      if p in held && p !in others { var r :| r in procs && procs[r].trapframe == p; }
      if p in held' && p !in others { var r :| r in procs && procs[r].trapframe == p; }
    }
  }

  /** If no address space has come or gone, as many pages are free as before. */
  lemma SameCount(all: set<nat>, others: set<nat>, tr: nat, s: Snap, s': Snap)
    requires SnapOk(all, others, tr, s) && SnapOk(all, others, tr, s') && s'.procs == s.procs
    requires OthersSame(s.page, s.role, s'.page, s'.role, 0)
    ensures |s'.free| == |s.free|
  {
    hide FreeOk, AllOkBut, HeldOk;
    SameHeld(s.held, s'.held, others, s.procs);
    RootsNotZero(s.page, s.role, s.foreign);
    RootsNotZero(s'.page, s'.role, s'.foreign);
    assert s'.role.Keys == s.role.Keys by {
      hide TreeOk;
      forall p ensures p in s.role <==> p in s'.role {}
    }
    SameFree(all, s.page, s.freelist, s.free, s.role, s.held, s'.page, s'.freelist, s'.free, s'.role);
  }

  lemma RootsNotZero(page: seq<Page>, role: map<nat, Role>, foreign: set<Spot>)
    requires TreeOk(page, role, foreign, NoHole)
    ensures forall p :: p in role ==> role[p].root != 0
  {
    NoRoot(page, role, foreign);
  }

  class Procs {
    const vm: Vm
    const trampoline: nat
    ghost const others: set<nat>
    var procs: map<nat, Proc>     // by root page

    constructor (vm: Vm, trampoline: nat)
      requires vm.Valid() && vm.role == map[]
      ensures Valid() && procs == map[] && this.vm == vm && others == vm.held
    {
      this.vm, this.trampoline, others, procs := vm, trampoline, vm.held, map[];
    }

    /** Every page of memory is free, or part of a live process's address space, or a live process's
        trapframe, or some other customer's; and every live process has its memory. */
    ghost predicate Valid()
      reads this, vm
    {
      vm.Valid() && Owned() && AllOkBut(vm.page, vm.role, vm.foreign, trampoline, procs, 0) && 0 !in procs
    }

    ghost predicate Owned()
      reads this, vm
    {
      RootsIn(vm.role, procs) && HeldOk(vm.held, others, procs)
    }

    /** A new process with no user memory; 0 if memory runs out. */
    method AllocProc() returns (root: nat)
      requires Valid()
      modifies this, vm
      ensures Valid() && OthersSame(old(vm.page), old(vm.role), vm.page, vm.role, root)
      ensures root == 0 ==> procs == old(procs) && old(|vm.free|) <= 5 && |vm.free| == old(|vm.free|)
      ensures root != 0 ==>
        && root !in old(procs) && root in procs && procs[root].sz == 0
        && procs == old(procs)[root := procs[root]]
      ensures root != 0 ==> |vm.free| + 6 >= old(|vm.free|)
    {
      hide MemOk, TreeOk, AllOkBut, RootsIn, HeldOk, OnlyRoot, Sized, Translate, OthersSame;
      Trees();
      ProcRoot(vm.page, vm.role, vm.foreign, trampoline, procs);
      FrameOnly(vm.page, vm.role, vm.foreign, vm.page, 0);
      OnlySame(vm.page, vm.role, vm.foreign, vm.page, vm.role, vm.foreign, 0);
      var tf := vm.Kalloc();
      if tf == 0 {
        return 0;
      }
      ghost var page1 := vm.page;
      ghost var x;
      root, x := vm.ProcPagetable(trampoline, tf);
      FrameOnly(old(vm.page), old(vm.role), old(vm.foreign), page1, x);
      OnlyRootTrans(old(vm.page), old(vm.role), old(vm.foreign), page1, old(vm.role), old(vm.foreign), vm.page,
        vm.role, vm.foreign, x);
      if root == 0 {
        ghost var page2 := vm.page;
        vm.Kfree(tf);
        FrameOnly(page2, vm.role, vm.foreign, vm.page, x);
        OnlyRootTrans(old(vm.page), old(vm.role), old(vm.foreign), page2, vm.role, vm.foreign, vm.page, vm.role,
          vm.foreign, x);
        NothingLeft(old(vm.page), old(vm.role), old(vm.foreign), vm.page, vm.role, vm.foreign, x);
      } else {
        HeldMore(old(vm.held), others, procs, root, Proc(0, tf));
        procs := procs[root := Proc(0, tf)];
        OnlySame(old(vm.page), old(vm.role), old(vm.foreign), vm.page, vm.role, vm.foreign, x);
      }
      assert vm.held == if root == 0 then old(vm.held) else old(vm.held) + {tf};
      Settled(old(vm.page), old(vm.role), old(vm.foreign), vm.page, vm.role, vm.foreign, trampoline,
        old(procs), procs, x);
      if root == 0 { SameCount(vm.all, others, trampoline, old(Now()), Now()); }
    }

    /** Free a process's trapframe and its address space. */
    method FreeProc(root: nat)
      requires Valid() && root in procs
      modifies this, vm
      ensures Valid() && procs == old(procs) - {root}
      ensures OthersSame(old(vm.page), old(vm.role), vm.page, vm.role, root)
    {
      hide MemOk, TreeOk, AllOkBut, RootsIn, HeldOk, OnlyRoot, Sized, Translate, OthersSame;
      Trees();
      ProcAt(vm.page, vm.role, vm.foreign, vm.held, others, trampoline, procs, root);
      vm.Kfree(procs[root].trapframe);
      ghost var page1 := vm.page;
      FrameOnly(old(vm.page), vm.role, vm.foreign, page1, 0);
      FrameOnly(old(vm.page), vm.role, vm.foreign, page1, root);
      OthersSized(old(vm.page), vm.role, vm.foreign, page1, vm.role, vm.foreign, 0, root, PagesUp(procs[root].sz),
        TRAPFRAME);
      RoomBelow(vm.all, vm.page, vm.freelist, vm.free, vm.role, vm.foreign, vm.hole, vm.held, root,
        PagesUp(procs[root].sz), TRAPFRAME);
      vm.ProcFreepagetable(root, procs[root].sz);
      OnlyRootTrans(old(vm.page), old(vm.role), old(vm.foreign), page1, old(vm.role), old(vm.foreign), vm.page,
        vm.role, vm.foreign, root);
      HeldLess(old(vm.held), others, procs, root);
      procs := procs - {root};
      OnlySame(old(vm.page), old(vm.role), old(vm.foreign), vm.page, vm.role, vm.foreign, root);
      Settled(old(vm.page), old(vm.role), old(vm.foreign), vm.page, vm.role, vm.foreign, trampoline,
        old(procs), procs, root);
    }

    /** Grow or shrink a process by n bytes. Shrinking by more than there is changes nothing. */
    method Growproc(root: nat, n: int) returns (ok: bool)
      requires Valid() && root in procs && IsInt(n)
      modifies this, vm
      ensures Valid() && OthersSame(old(vm.page), old(vm.role), vm.page, vm.role, root)
      ensures procs == old(procs)[root := old(procs[root]).(sz := if ok && 0 <= old(procs[root].sz) + n
          then old(procs[root].sz) + n else old(procs[root].sz))]
      ensures !ok ==> n > 0 && SameMapBut(old(vm.page), vm.page, root, 0, 0)
      ensures !ok ==> old(|vm.free|) < 3 * (PagesUp(old(procs[root].sz) + n) - PagesUp(old(procs[root].sz)))
      ensures ok && n > 0 ==> old(|vm.free|) <= |vm.free| + 3 * (PagesUp(procs[root].sz) - PagesUp(old(procs[root].sz)))
      ensures n <= 0 ==> |vm.free| == old(|vm.free|) + PagesUp(old(procs[root].sz)) - PagesUp(procs[root].sz)
      ensures ok ==> SameBelow(old(vm.page), vm.page, root, PagesUp(Smaller(old(procs[root].sz), procs[root].sz)))
      ensures DataKept(old(vm.page), old(vm.role), vm.page, vm.role)
      ensures ok ==> Zeroed(vm.page, vm.role, root, PagesUp(old(procs[root].sz)), PagesUp(procs[root].sz))
    {
      hide MemOk, TreeOk, AllOkBut, RootsIn, HeldOk, OnlyRoot, Sized, Translate, OthersSame, SameMapBut, DataKept,
        Shrinks, MapsTo, Traps, Filled;
      Trees();
      ProcAt(vm.page, vm.role, vm.foreign, vm.held, others, trampoline, procs, root);
      var sz := procs[root].sz;
      ok := true;
      FrameOnly(vm.page, vm.role, vm.foreign, vm.page, root);
      KeptSelf(vm.page, vm.role, root, PagesUp(sz));
      if n > 0 {
        var perm := Pte(false, false, true, false, false, 0, 0);
        assert UserPte(perm) == Pte(true, true, true, false, true, 0, 0);
        sz := vm.Uvmalloc(root, sz, sz + n, perm);
        if sz == 0 {
          ok := false;
          sz := procs[root].sz;
          TrapsKept(old(vm.page), vm.page, root, trampoline, procs[root].trapframe, 0, 0);
        } else {
          assert Zeroed(vm.page, vm.role, root, PagesUp(procs[root].sz), PagesUp(sz));
          RoomBelow(vm.all, vm.page, vm.freelist, vm.free, vm.role, vm.foreign, vm.hole, vm.held, root, PagesUp(sz),
            TRAPFRAME);
          TrapsKept(old(vm.page), vm.page, root, trampoline, procs[root].trapframe, PagesUp(procs[root].sz),
            PagesUp(sz));
          SameMapBelow(old(vm.page), vm.page, root, PagesUp(procs[root].sz), PagesUp(sz));
        }
      } else if n < 0 {
        RoomBelow(vm.all, vm.page, vm.freelist, vm.free, vm.role, vm.foreign, vm.hole, vm.held, root, PagesUp(sz),
          TRAPFRAME);
        sz := vm.Uvmdealloc(root, sz, if sz + n >= 0 then sz + n else sz + n + WORD);
        ShrinksOnly(old(vm.page), old(vm.role), vm.foreign, vm.page, vm.role, vm.foreign, root);
        SameMapBelow(old(vm.page), vm.page, root, PagesUp(sz), PagesUp(procs[root].sz));
        TrapsKept(old(vm.page), vm.page, root, trampoline, procs[root].trapframe, PagesUp(sz), PagesUp(procs[root].sz));
      }
      assert n <= 0 ==> PagesUp(sz) <= PagesUp(procs[root].sz);
      HeldResize(vm.held, others, procs, root, sz);
      procs := procs[root := procs[root].(sz := sz)];
      OnlySame(old(vm.page), old(vm.role), old(vm.foreign), vm.page, vm.role, vm.foreign, root);
      Settled(old(vm.page), old(vm.role), old(vm.foreign), vm.page, vm.role, vm.foreign, trampoline,
        old(procs), procs, root);
    }

    /** A child with a copy of the parent's user memory, or no child and nothing changed; the
        parent and every other process keep their memory either way. */
    method Fork(root: nat) returns (child: nat)
      requires Valid() && root in procs
      modifies this, vm
      ensures Valid() && OthersSame(old(vm.page), old(vm.role), vm.page, vm.role, child)
      ensures child == 0 ==> procs == old(procs) && old(|vm.free|) <= 5 + 3 * PagesUp(old(procs[root].sz))
      ensures child == 0 ==> |vm.free| == old(|vm.free|)
      ensures child != 0 ==> old(|vm.free|) <= |vm.free| + 6 + 3 * PagesUp(old(procs[root].sz))
      ensures child != 0 ==>
        && child !in old(procs) && child in procs && procs == old(procs)[child := procs[child]]
        && procs[child].sz == procs[root].sz
      ensures child != 0 ==> forall v: nat :: v < PagesUp(procs[root].sz) ==>
          Copied(old(vm.page), vm.page, vm.role, root, child, v)
    {
      hide MemOk, TreeOk, AllOkBut, RootsIn, HeldOk, OnlyRoot, Sized, Translate, OthersSame, SameMapBut, DataKept,
        Copied, Traps;
      Trees();
      ProcAt(vm.page, vm.role, vm.foreign, vm.held, others, trampoline, procs, root);
      child := AllocProc();
      if child == 0 {
        return;
      }
      Trees();
      ghost var page1, role1, foreign1, procs1 := vm.page, vm.role, vm.foreign, procs;
      ProcAt(vm.page, vm.role, vm.foreign, vm.held, others, trampoline, procs, root);
      ProcAt(vm.page, vm.role, vm.foreign, vm.held, others, trampoline, procs, child);
      var ok := vm.Uvmcopy(root, child, procs[root].sz);
      OnlySame(page1, role1, foreign1, vm.page, vm.role, vm.foreign, child);
      SameTrans(old(vm.page), old(vm.role), page1, role1, vm.page, vm.role, child);
      if ok {
        TrapsKept(page1, vm.page, child, trampoline, procs[child].trapframe, 0, PagesUp(procs[root].sz));
        SourceSame(old(vm.page), old(vm.role), old(vm.foreign), page1, role1, vm.page, vm.role, root, child,
          PagesUp(procs[root].sz));
        HeldResize(vm.held, others, procs, child, procs[root].sz);
        procs := procs[child := procs[child].(sz := procs[root].sz)];
      } else {
        TrapsKept(page1, vm.page, child, trampoline, procs[child].trapframe, 0, 0);
      }
      Settled(page1, role1, foreign1, vm.page, vm.role, vm.foreign, trampoline, procs1, procs, child);
      if !ok {
        ghost var page2, role2 := vm.page, vm.role;
        FreeProc(child);
        SameTrans(old(vm.page), old(vm.role), page2, role2, vm.page, vm.role, child);
        assert procs == old(procs);
        SameNone(old(vm.page), old(vm.role), old(vm.foreign), vm.page, vm.role, procs, child);
        SameCount(vm.all, others, trampoline, old(Now()), Now());
        child := 0;
      }
    }

    ghost function Now(): Snap
      reads this, vm
    {
      Snap(vm.page, vm.freelist, vm.free, vm.role, vm.foreign, vm.held, procs)
    }

    /** One system call; one for a process that is not there does nothing. */
    method Perform(op: Op) returns (reply: Reply)
      requires Valid() && (op.Grow? ==> IsInt(op.n))
      modifies this, vm
      ensures Valid() && SnapOk(vm.all, others, trampoline, Now()) && Did(old(Now()), op, reply, Now())
    {
      hide MemOk, AllOkBut, RootsIn, HeldOk, OthersSame, Copied, DataKept, SameBelow, SameMapBut;
      reply := Skipped;
      match op {
        case Spawn =>
          var root := AllocProc();
          reply := Root(root);
        case Grow(root, n) =>
          if root in procs {
            var ok := Growproc(root, n);
            reply := Answered(ok);
          }
        case Fork(root) =>
          if root in procs {
            var child := Fork(root);
            reply := Root(child);
          }
        case Exit(root) =>
          if root in procs {
            FreeProc(root);
            reply := Answered(true);
          }
      }
    }

    /** Whatever processes do, in whatever order, each call does to memory what it should; and a run that ends
        without processes ends with every page back. */
    method Execute(ops: seq<Op>) returns (replies: seq<Reply>, ghost run: seq<Snap>)
      requires Valid() && forall op :: op in ops && op.Grow? ==> IsInt(op.n)
      modifies this, vm
      ensures Valid() && |replies| == |ops| && |run| == |ops| + 1 && run[0] == old(Now()) && run[|ops|] == Now()
      ensures forall i :: 0 <= i <= |ops| ==> SnapOk(vm.all, others, trampoline, run[i])
      ensures forall i :: 0 <= i < |ops| ==> Did(run[i], ops[i], replies[i], run[i + 1])
      ensures procs == map[] ==> vm.role == map[] && vm.held == others && forall p :: p in vm.free <==>
          p in vm.all && p !in others
    {
      hide MemOk, AllOkBut, RootsIn, HeldOk, Did;
      replies, run := [], [Now()];
      var i := 0;
      while i < |ops|
        invariant 0 <= i <= |ops| && Valid() && |replies| == i && |run| == i + 1 && run[0] == old(Now())
            && run[i] == Now()
        invariant forall k :: 0 <= k <= i ==> SnapOk(vm.all, others, trampoline, run[k])
        invariant forall k :: 0 <= k < i ==> Did(run[k], ops[k], replies[k], run[k + 1])
      {
        assert ops[i] in ops;
        ghost var before := run;
        var reply := Perform(ops[i]);
        replies, run := replies + [reply], run + [Now()];
        assert forall k :: 0 <= k <= i ==> run[k] == before[k];
        i := i + 1;
      }
      if procs == map[] {
        AllBack(vm.all, vm.page, vm.freelist, vm.free, vm.role, vm.foreign, vm.hole, vm.held, others);
      }
    }

    ghost method Trees()
      requires vm.Valid()
      ensures TreeOk(vm.page, vm.role, vm.foreign, NoHole)
    {
    }
  }

  lemma ProcAt(page: seq<Page>, role: map<nat, Role>, foreign: set<Spot>, held: set<nat>, others: set<nat>,
          tr: nat, procs: map<nat, Proc>, r: nat)
    requires AllOkBut(page, role, foreign, tr, procs, 0) && 0 !in procs && HeldOk(held, others, procs) && r in procs
    ensures ProcOk(page, role, foreign, tr, r, procs[r]) && procs[r].trapframe in held
  {
    hide ProcOk;
  }
}
