/** Sv39 page tables (section 4.4 of the RISC-V Privileged Architecture specification, version 1.12)
    on values: three levels of 512-entry tables, what they translate, and the role each physical
    page plays in them. */
module PageTree {

  import opened Counting
  import opened Machine
  import opened Options
  import opened PteBits

  const ENTRIES: nat := 512
  const MAXVA: nat := 0x40_0000_0000
  const MAXVPN: nat := 0x400_0000   // MAXVA / PGSIZE

  predicate Leaf(e: Pte) {
    e.v && (e.r || e.w || e.x)
  }

  predicate Interior(e: Pte) {
    e.v && !e.r && !e.w && !e.x
  }

  /** A physical page: on the free list, a page table, or data. A table is 512 words. */
  datatype Page = Free(next: nat) | Table(words: seq<nat>) | Data(bytes: seq<nat>)

  /** The index into the table at depth d (level 2 - d) for virtual page vpn: PX(2 - d, va). */
  function Ix(d: nat, vpn: nat): (k: nat)
    ensures vpn < MAXVPN ==> k < ENTRIES
  {
    if d == 0 then vpn / 0x4_0000 else if d == 1 then vpn / 512 % 512 else vpn % 512
  }

  /** The part of vpn consumed on the way to depth d. */
  function Pfx(d: nat, vpn: nat): nat {
    if d == 0 then 0 else if d == 1 then vpn / 0x4_0000 else if d == 2 then vpn / 512 else vpn
  }

  /** PX. */
  function Index(level: nat, va: nat): nat
    requires level < 3
  {
    va / (PGSIZE * if level == 0 then 1 else if level == 1 then 512 else 0x4_0000) % 512
  }

  /** The three indices of an address are those of its page number. */
  lemma Indices(va: nat, d: nat)
    requires va < MAXVA && d < 3
    ensures va / PGSIZE < MAXVPN && Index(2 - d, va) == Ix(d, va / PGSIZE)
  {
    var vpn := va / PGSIZE;
    assert va / (PGSIZE * 512) == vpn / 512;
    assert va / (PGSIZE * 0x4_0000) == vpn / 0x4_0000;
  }

  lemma PfxStep(d: nat, vpn: nat)
    requires d < 3
    ensures Pfx(d + 1, vpn) == Pfx(d, vpn) * ENTRIES + Ix(d, vpn)
  {
  }

  /** Entry k of the table in page p, or an invalid one if p is no table. */
  function Entry(page: seq<Page>, p: nat, k: nat): Pte {
    if 0 < p < |page| && page[p].Table? && k < |page[p].words| then Unpack(page[p].words[k]) else NOPTE
  }

  /** The page of the table at depth d on the walk for vpn; 0 if the walk stops before. */
  function WalkTo(page: seq<Page>, root: nat, vpn: nat, d: nat): nat {
    if d == 0 then root
    else
      var e := Entry(page, WalkTo(page, root, vpn, d - 1), Ix(d - 1, vpn));
      if e.v then e.ppn else 0
  }

  /** What the hardware finds for vpn: the flat map the tree denotes. */
  function Translate(page: seq<Page>, root: nat, vpn: nat): Option<Pte> {
    var e := Entry(page, WalkTo(page, root, vpn, 2), Ix(2, vpn));
    if e.v then Some(e) else None
  }

  // ---------- roles ----------

  /** A page's place in a tree: tables at depths 0, 1 and 2, user pages at depth 3. pfx is the part
      of the virtual page number that leads to it and parent the table that points to it. */
  datatype Role = Role(root: nat, depth: nat, pfx: nat, parent: nat)

  /** A mapping whose page the tree does not own (trampoline, trapframe). */
  datatype Spot = Spot(root: nat, vpn: nat)

  /** A place in a table. */
  datatype Hole = NoHole | Hole(table: nat, index: nat)

  function ChildRole(r: Role, p: nat, k: nat): Role {
    Role(r.root, r.depth + 1, r.pfx * ENTRIES + k, p)
  }

  /** The prefix is that of some address below MAXVA. */
  predicate Bounded(r: Role) {
    r.pfx < if r.depth == 0 then 1 else if r.depth == 1 then 0x100 else if r.depth == 2 then 0x2_0000 else MAXVPN
  }

  predicate ShapeOk(page: seq<Page>, p: nat, r: Role) {
    && 0 < p < |page| && r.depth <= 3 && Bounded(r)
    && (if r.depth < 3 then page[p].Table? && |page[p].words| == ENTRIES else page[p].Data?)
  }

  /** A root is a root; any other page is the child of its parent at its own index. */
  ghost predicate UpOk(page: seq<Page>, role: map<nat, Role>, p: nat)
    requires p in role
  {
    var r := role[p];
    if r.depth == 0 then r == Role(p, 0, 0, 0)
    else
      && r.parent in role && role[r.parent].depth < 3
      && r == ChildRole(role[r.parent], r.parent, r.pfx % ENTRIES)
      && Entry(page, r.parent, r.pfx % ENTRIES).v && Entry(page, r.parent, r.pfx % ENTRIES).ppn == p
  }

  /** A valid entry leads to its child: a table, an owned user page, or a foreign page. */
  ghost predicate DownOk(page: seq<Page>, role: map<nat, Role>, foreign: set<Spot>, p: nat, k: nat)
    requires p in role
  {
    var r, e := role[p], Entry(page, p, k);
    e.v ==>
      if r.depth < 2 then Interior(e) && e.ppn in role && role[e.ppn] == ChildRole(r, p, k)
      else
        && Leaf(e)
        && (Spot(r.root, r.pfx * ENTRIES + k) !in foreign ==> e.ppn in role && role[e.ppn] == ChildRole(r, p, k))
  }

  /** A user page is owned by the entry that maps it, so that entry is not foreign. */
  ghost predicate OwnedOk(role: map<nat, Role>, foreign: set<Spot>, p: nat)
    requires p in role
  {
    role[p].depth == 3 ==> Spot(role[p].root, role[p].pfx) !in foreign
  }

  /** Every page with a role sits where its role says, and every valid entry, except the one in the
      hole, leads to a page with the right role. */
  ghost predicate TreeOk(page: seq<Page>, role: map<nat, Role>, foreign: set<Spot>, hole: Hole) {
    && (forall p :: p in role ==> ShapeOk(page, p, role[p]))
    && (forall p :: p in role ==> UpOk(page, role, p))
    && (forall p :: p in role ==> OwnedOk(role, foreign, p))
    && (forall p, k: nat :: p in role && k < ENTRIES && role[p].depth < 3 && hole != Hole(p, k) ==>
      DownOk(page, role, foreign, p, k))
  }

  /** The table a walk reaches has the role the walk spells out. */
  lemma {:induction false} WalkRole(page: seq<Page>, role: map<nat, Role>, foreign: set<Spot>, root: nat, vpn: nat,
          d: nat)
    requires TreeOk(page, role, foreign, NoHole) && root in role && role[root].depth == 0 && vpn < MAXVPN && d <= 2
    ensures var p := WalkTo(page, root, vpn, d);
      p != 0 ==> p in role && role[p].root == root && role[p].depth == d && role[p].pfx == Pfx(d, vpn)
  {
    assert UpOk(page, role, root);
    if d > 0 {
      WalkRole(page, role, foreign, root, vpn, d - 1);
      var q := WalkTo(page, root, vpn, d - 1);
      if Entry(page, q, Ix(d - 1, vpn)).v {
        assert DownOk(page, role, foreign, q, Ix(d - 1, vpn));
        PfxStep(d - 1, vpn);
      }
    }
  }

  /** Conversely a table with the right role is the one the walk reaches. */
  lemma {:induction false} RoleWalk(page: seq<Page>, role: map<nat, Role>, foreign: set<Spot>, vpn: nat, p: nat)
    requires TreeOk(page, role, foreign, NoHole) && vpn < MAXVPN && p in role && role[p].depth <= 2
    requires role[p].pfx == Pfx(role[p].depth, vpn)
    ensures WalkTo(page, role[p].root, vpn, role[p].depth) == p && role[p].root in role && role[role[p].root].depth == 0
    decreases role[p].depth
  {
    assert UpOk(page, role, p);
    if role[p].depth > 0 {
      var q := role[p].parent;
      PfxStep(role[q].depth, vpn);
      assert role[p].pfx == role[q].pfx * ENTRIES + role[p].pfx % ENTRIES;
      assert role[q].pfx == Pfx(role[q].depth, vpn) && role[p].pfx % ENTRIES == Ix(role[q].depth, vpn);
      RoleWalk(page, role, foreign, vpn, q);
    }
  }

  // ---------- steps on a tree ----------

  predicate IsTable(page: seq<Page>, t: nat) {
    0 < t < |page| && page[t].Table? && |page[t].words| == ENTRIES
  }

  /** Entry k of table t becomes e. */
  function SetPte(page: seq<Page>, t: nat, k: nat, e: Pte): (r: seq<Page>)
    requires IsTable(page, t) && k < ENTRIES
    ensures |r| == |page| && IsTable(r, t) && Entry(r, t, k) == e
    ensures forall p: nat, j: nat :: (p, j) != (t, k) ==> Entry(r, p, j) == Entry(page, p, j)
    ensures forall p: nat :: p < |page| && p != t ==> r[p] == page[p]
  {
    RoundTrip(e);
    page[t := Table(page[t].words[k := Pack(e)])]
  }

  /** Word k of table t becomes w. */
  function PutWord(page: seq<Page>, t: nat, k: nat, w: nat): seq<Page>
    requires IsTable(page, t) && k < ENTRIES
  {
    page[t := Table(page[t].words[k := w])]
  }

  /** Storing the address and the flags of an entry, as mappages and walk do, stores the entry. */
  lemma PutsEntry(page: seq<Page>, t: nat, k: nat, e: Pte)
    requires IsTable(page, t) && k < ENTRIES
    ensures PutWord(page, t, k, FromAddress(e.ppn * PGSIZE) + Pack(e.(ppn := 0))) == SetPte(page, t, k, e)
  {
    StoredEntry(e, e.ppn * PGSIZE);
    hide Pack, FromAddress;
  }

  /** Storing 0 clears an entry. */
  lemma PutsNone(page: seq<Page>, t: nat, k: nat)
    requires IsTable(page, t) && k < ENTRIES
    ensures PutWord(page, t, k, 0) == SetPte(page, t, k, NOPTE)
  {
    assert Pack(NOPTE) == 0;
  }

  lemma SetPteFrame(page: seq<Page>, page': seq<Page>, t: nat, k: nat, e: Pte, c: nat)
    requires IsTable(page, t) && k < ENTRIES && c != t && |page'| == |page|
    requires forall p: nat :: p < |page| && p != c ==> page'[p] == page[p]
    ensures IsTable(page', t) && forall p: nat :: p < |page| && p != c ==>
        SetPte(page', t, k, e)[p] == SetPte(page, t, k, e)[p]
  {
  }

  /** A table of invalid entries. */
  function Blank(): (r: Page)
    ensures r.Table? && |r.words| == ENTRIES && forall k: nat :: k < ENTRIES ==> Unpack(r.words[k]) == NOPTE
  {
    Table(seq(ENTRIES, _ => 0))
  }

  predicate BlankTable(page: seq<Page>, c: nat) {
    IsTable(page, c) && forall k: nat :: k < ENTRIES ==> Entry(page, c, k) == NOPTE
  }

  /** Pages without a role may change as they like. */
  lemma TreeFrame(page: seq<Page>, page': seq<Page>, role: map<nat, Role>, foreign: set<Spot>, hole: Hole)
    requires TreeOk(page, role, foreign, hole) && |page'| == |page|
    requires forall p :: p in role && p < |page| ==> page'[p] == page[p]
    ensures TreeOk(page', role, foreign, hole)
  {
    hide TreeOk;
    assert forall p, k: nat :: p in role ==>
        Entry(page', p, k) == Entry(page, p, k) by { TreePages(page, role, foreign, hole); }
    TreeSame(page, page', role, foreign, hole);
  }

  lemma TreePages(page: seq<Page>, role: map<nat, Role>, foreign: set<Spot>, hole: Hole)
    requires TreeOk(page, role, foreign, hole)
    ensures forall p :: p in role ==> 0 < p < |page|
  {
  }

  lemma TreeSame(page: seq<Page>, page': seq<Page>, role: map<nat, Role>, foreign: set<Spot>, hole: Hole)
    requires TreeOk(page, role, foreign, hole) && |page'| == |page|
    requires forall p :: p in role && p < |page| ==> page'[p] == page[p]
    requires forall p, k: nat :: p in role ==> Entry(page', p, k) == Entry(page, p, k)
    ensures TreeOk(page', role, foreign, hole)
  {
    hide Entry;
    forall p | p in role ensures UpOk(page', role, p) {
      assert UpOk(page, role, p);
    }
    forall p, k: nat | p in role && k < ENTRIES && role[p].depth < 3 && hole != Hole(p, k)
      ensures DownOk(page', role, foreign, p, k)
    {
      assert DownOk(page, role, foreign, p, k);
    }
  }

  /** Walks read only pages with a role. */
  lemma {:induction false} WalkFrame(page: seq<Page>, page': seq<Page>, role: map<nat, Role>, foreign: set<Spot>,
          root: nat, vpn: nat, d: nat)
    requires TreeOk(page, role, foreign, NoHole) && |page'| == |page|
    requires forall p :: p in role && p < |page| && role[p].root == root ==> page'[p] == page[p]
    requires root in role && role[root].depth == 0 && vpn < MAXVPN && d <= 2
    ensures WalkTo(page', root, vpn, d) == WalkTo(page, root, vpn, d)
  {
    hide TreeOk;
    if d > 0 {
      WalkFrame(page, page', role, foreign, root, vpn, d - 1);
      WalkRole(page, role, foreign, root, vpn, d - 1);
    }
  }

  lemma TranslateFrame(page: seq<Page>, page': seq<Page>, role: map<nat, Role>, foreign: set<Spot>, root: nat, vpn: nat)
    requires TreeOk(page, role, foreign, NoHole) && |page'| == |page|
    requires forall p :: p in role && p < |page| && role[p].root == root ==> page'[p] == page[p]
    requires root in role && role[root].depth == 0 && vpn < MAXVPN
    ensures Translate(page', root, vpn) == Translate(page, root, vpn)
  {
    hide TreeOk, WalkTo;
    WalkFrame(page, page', role, foreign, root, vpn, 2);
    WalkRole(page, role, foreign, root, vpn, 2);
  }

  // ---------- a new root ----------

  /** A blank table becomes the root of an empty address space. */
  lemma NewRoot(page: seq<Page>, role: map<nat, Role>, foreign: set<Spot>, c: nat)
    requires TreeOk(page, role, foreign, NoHole) && c !in role && BlankTable(page, c)
    ensures TreeOk(page, role[c := Role(c, 0, 0, 0)], foreign, NoHole)
    ensures forall vpn: nat :: vpn < MAXVPN ==> Translate(page, c, vpn) == None
  {
    hide Unpack;
    var role' := role[c := Role(c, 0, 0, 0)];
    forall p | p in role' ensures UpOk(page, role', p) {
      assert p != c ==> UpOk(page, role, p);
    }
    forall p, k: nat | p in role' && k < ENTRIES && role'[p].depth < 3 ensures DownOk(page, role', foreign, p, k) {
      assert p != c ==> DownOk(page, role, foreign, p, k);
    }
    forall vpn: nat | vpn < MAXVPN ensures Translate(page, c, vpn) == None { BlankMaps(page, c, vpn); }
  }

  /** A blank root maps nothing. */
  lemma BlankMaps(page: seq<Page>, c: nat, vpn: nat)
    requires BlankTable(page, c) && vpn < MAXVPN
    ensures Translate(page, c, vpn) == None
  {
    hide Unpack;
    assert WalkTo(page, c, vpn, 0) == c;
    assert WalkTo(page, c, vpn, 1) == 0;
    assert WalkTo(page, c, vpn, 2) == 0;
  }

  // ---------- a new interior table ----------

  /** Blank table c becomes entry k of table t. */
  predicate CanAttach(page: seq<Page>, role: map<nat, Role>, t: nat, k: nat, c: nat) {
    && t in role && k < ENTRIES && role[t].depth < 3 && c !in role && c != 0
    && IsTable(page, t) && !Entry(page, t, k).v && Bounded(ChildRole(role[t], t, k))
  }

  function Pointer(c: nat): Pte {
    Pte(true, false, false, false, false, 0, c)
  }

  /** The child is where its role says and every other page still is. */
  lemma AttachUp(page: seq<Page>, role: map<nat, Role>, foreign: set<Spot>, t: nat, k: nat, e: Pte)
    requires TreeOk(page, role, foreign, NoHole) && CanAttach(page, role, t, k, e.ppn) && e.v
    ensures
      var role' := role[e.ppn := ChildRole(role[t], t, k)];
      forall p :: p in role' ==> UpOk(SetPte(page, t, k, e), role', p)
  {
    hide Entry, SetPte, DownOk, ShapeOk, OwnedOk;
    var c := e.ppn;
    var page', role' := SetPte(page, t, k, e), role[c := ChildRole(role[t], t, k)];
    assert (role[t].pfx * ENTRIES + k) % ENTRIES == k;
    forall p | p in role' ensures UpOk(page', role', p) {
      if p != c { assert UpOk(page, role, p); }
    }
  }

  lemma AttachTable(page: seq<Page>, role: map<nat, Role>, foreign: set<Spot>, t: nat, k: nat, c: nat)
    requires TreeOk(page, role, foreign, NoHole) && CanAttach(page, role, t, k, c) && role[t].depth < 2
        && BlankTable(page, c)
    ensures TreeOk(SetPte(page, t, k, Pointer(c)), role[c := ChildRole(role[t], t, k)], foreign, NoHole)
  {
    hide Entry, SetPte, UpOk;
    var page', role' := SetPte(page, t, k, Pointer(c)), role[c := ChildRole(role[t], t, k)];
    AttachUp(page, role, foreign, t, k, Pointer(c));
    forall p, j: nat | p in role' && j < ENTRIES && role'[p].depth < 3 ensures DownOk(page', role', foreign, p, j) {
      if p != c { assert DownOk(page, role, foreign, p, j); }
    }
  }

  /** Walks are as before, except that one that stopped at the new entry may now stop in c. */
  lemma {:induction false} AttachWalk(page: seq<Page>, role: map<nat, Role>, foreign: set<Spot>, t: nat, k: nat,
          c: nat, root: nat, vpn: nat, d: nat)
    requires TreeOk(page, role, foreign, NoHole) && CanAttach(page, role, t, k, c) && role[t].depth < 2
        && BlankTable(page, c)
    requires root in role && role[root].depth == 0 && vpn < MAXVPN && d <= 2
    ensures
      var w, w' := WalkTo(page, root, vpn, d), WalkTo(SetPte(page, t, k, Pointer(c)), root, vpn, d);
      w' == w || (w == 0 && w' == c)
  {
    hide TreeOk, SetPte;
    if d > 0 {
      AttachWalk(page, role, foreign, t, k, c, root, vpn, d - 1);
      WalkRole(page, role, foreign, root, vpn, d - 1);
    }
  }

  /** A new table changes no translation, in any address space. */
  lemma AttachKeeps(page: seq<Page>, role: map<nat, Role>, foreign: set<Spot>, t: nat, k: nat, c: nat, root: nat,
          vpn: nat)
    requires TreeOk(page, role, foreign, NoHole) && CanAttach(page, role, t, k, c) && role[t].depth < 2
        && BlankTable(page, c)
    requires root in role && role[root].depth == 0 && vpn < MAXVPN
    ensures Translate(SetPte(page, t, k, Pointer(c)), root, vpn) == Translate(page, root, vpn)
  {
    AttachWalk(page, role, foreign, t, k, c, root, vpn, 2);
    WalkRole(page, role, foreign, root, vpn, 2);
    hide TreeOk, SetPte, WalkTo;
  }

  // ---------- a leaf written or cleared ----------

  /** Writing an entry of a last-level table changes the translation of one page of one address space. */
  lemma LeafWalk(page: seq<Page>, role: map<nat, Role>, foreign: set<Spot>, t: nat, k: nat, e: Pte, root: nat,
          vpn: nat, d: nat)
    requires TreeOk(page, role, foreign, NoHole) && t in role && role[t].depth == 2 && IsTable(page, t) && k < ENTRIES
    requires root in role && role[root].depth == 0 && vpn < MAXVPN && d <= 2
    ensures WalkTo(SetPte(page, t, k, e), root, vpn, d) == WalkTo(page, root, vpn, d)
  {
    hide TreeOk, SetPte;
    if d > 0 {
      LeafWalk(page, role, foreign, t, k, e, root, vpn, d - 1);
      WalkRole(page, role, foreign, root, vpn, d - 1);
    }
  }

  lemma LeafTranslate(page: seq<Page>, role: map<nat, Role>, foreign: set<Spot>, t: nat, k: nat, e: Pte, root: nat,
          vpn: nat)
    requires TreeOk(page, role, foreign, NoHole) && t in role && role[t].depth == 2 && IsTable(page, t) && k < ENTRIES
    requires root in role && role[root].depth == 0 && vpn < MAXVPN
    ensures Translate(SetPte(page, t, k, e), root, vpn) ==
      if root == role[t].root && vpn == role[t].pfx * ENTRIES + k then (if e.v then Some(e) else None)
      else Translate(page, root, vpn)
  {
    hide TreeOk, SetPte, WalkTo, Entry;
    LeafWalk(page, role, foreign, t, k, e, root, vpn, 2);
    WalkRole(page, role, foreign, root, vpn, 2);
    Joined(vpn, role[t].pfx, k);
    if root == role[t].root && vpn == role[t].pfx * ENTRIES + k {
      RoleWalk(page, role, foreign, vpn, t);
    }
  }

  lemma Joined(vpn: nat, pfx: nat, k: nat)
    requires k < ENTRIES
    ensures vpn == pfx * ENTRIES + k <==> vpn / ENTRIES == pfx && vpn % ENTRIES == k
  {
  }

  lemma AttachLeaf(page: seq<Page>, role: map<nat, Role>, foreign: set<Spot>, t: nat, k: nat, e: Pte)
    requires TreeOk(page, role, foreign, NoHole) && CanAttach(page, role, t, k, e.ppn) && role[t].depth == 2
    requires Leaf(e) && e.ppn < |page| && page[e.ppn].Data? && Spot(role[t].root, role[t].pfx * ENTRIES + k) !in foreign
    ensures TreeOk(SetPte(page, t, k, e), role[e.ppn := ChildRole(role[t], t, k)], foreign, NoHole)
  {
    hide Entry, SetPte, UpOk;
    var page', role' := SetPte(page, t, k, e), role[e.ppn := ChildRole(role[t], t, k)];
    AttachUp(page, role, foreign, t, k, e);
    forall p, j: nat | p in role' && j < ENTRIES && role'[p].depth < 3 ensures DownOk(page', role', foreign, p, j) {
      assert DownOk(page, role, foreign, p, j);
    }
  }

  lemma ShapeKept(page: seq<Page>, role: map<nat, Role>, t: nat, k: nat, e: Pte)
    requires IsTable(page, t) && k < ENTRIES && forall p :: p in role ==> ShapeOk(page, p, role[p])
    ensures forall p :: p in role ==> ShapeOk(SetPte(page, t, k, e), p, role[p])
  {
    hide Entry, SetPte, Bounded;
    forall p | p in role ensures ShapeOk(SetPte(page, t, k, e), p, role[p]) {
      assert ShapeOk(page, p, role[p]);
    }
  }

  /** No page hangs from entry k of t. */
  ghost predicate Bare(role: map<nat, Role>, t: nat, k: nat) {
    forall p :: p in role && role[p].depth > 0 ==> !(role[p].parent == t && role[p].pfx % ENTRIES == k)
  }

  /** Writing an entry that nothing hangs from leaves every page where its role says. */
  lemma UpKept(page: seq<Page>, role: map<nat, Role>, foreign: set<Spot>, hole: Hole, t: nat, k: nat, e: Pte)
    requires TreeOk(page, role, foreign, hole) && IsTable(page, t) && k < ENTRIES && Bare(role, t, k)
    ensures forall p :: p in role ==> UpOk(SetPte(page, t, k, e), role, p)
  {
    hide Entry, SetPte, ShapeOk, DownOk, OwnedOk;
    forall p | p in role ensures UpOk(SetPte(page, t, k, e), role, p) {
      assert UpOk(page, role, p);
    }
  }

  lemma BareInvalid(page: seq<Page>, role: map<nat, Role>, foreign: set<Spot>, t: nat, k: nat)
    requires TreeOk(page, role, foreign, NoHole) && !Entry(page, t, k).v
    ensures Bare(role, t, k)
  {
    hide Entry, ShapeOk, DownOk, OwnedOk;
    forall p | p in role && role[p].depth > 0 ensures !(role[p].parent == t && role[p].pfx % ENTRIES == k) {
      assert UpOk(page, role, p);
    }
  }

  lemma BareForeign(page: seq<Page>, role: map<nat, Role>, foreign: set<Spot>, t: nat, k: nat)
    requires TreeOk(page, role, foreign, NoHole) && t in role && role[t].depth == 2
        && Spot(role[t].root, role[t].pfx * ENTRIES + k) in foreign
    ensures Bare(role, t, k)
  {
    hide Entry, ShapeOk, DownOk;
    forall p | p in role && role[p].depth > 0 ensures !(role[p].parent == t && role[p].pfx % ENTRIES == k) {
      assert UpOk(page, role, p) && OwnedOk(role, foreign, p);
    }
  }

  /** No page is owned by entry k of t, so making it foreign takes no page away. */
  lemma OwnedKept(page: seq<Page>, role: map<nat, Role>, foreign: set<Spot>, t: nat, k: nat)
    requires TreeOk(page, role, foreign, NoHole) && t in role && role[t].depth == 2 && k < ENTRIES && Bare(role, t, k)
    ensures forall p :: p in role ==> OwnedOk(role, foreign + {Spot(role[t].root, role[t].pfx * ENTRIES + k)}, p)
  {
    hide Entry, ShapeOk, DownOk;
    var spot := Spot(role[t].root, role[t].pfx * ENTRIES + k);
    forall p | p in role ensures OwnedOk(role, foreign + {spot}, p) {
      assert OwnedOk(role, foreign, p) && UpOk(page, role, p);
      if role[p].depth == 3 && Spot(role[p].root, role[p].pfx) == spot {
        SameTable(page, role, foreign, t, role[p].parent);
        assert false;
      }
    }
  }

  /** A leaf whose page the tree does not own. */
  lemma AttachForeign(page: seq<Page>, role: map<nat, Role>, foreign: set<Spot>, t: nat, k: nat, e: Pte)
    requires TreeOk(page, role, foreign, NoHole) && t in role && role[t].depth == 2 && k < ENTRIES && IsTable(page, t)
    requires !Entry(page, t, k).v && Leaf(e)
    ensures TreeOk(SetPte(page, t, k, e), role, foreign + {Spot(role[t].root, role[t].pfx * ENTRIES + k)}, NoHole)
  {
    hide Entry, SetPte, ShapeOk, UpOk, OwnedOk, Bare;
    var page', foreign' := SetPte(page, t, k, e), foreign + {Spot(role[t].root, role[t].pfx * ENTRIES + k)};
    BareInvalid(page, role, foreign, t, k);
    ShapeKept(page, role, t, k, e);
    UpKept(page, role, foreign, NoHole, t, k, e);
    OwnedKept(page, role, foreign, t, k);
    forall p, j: nat | p in role && j < ENTRIES && role[p].depth < 3 ensures DownOk(page', role, foreign', p, j) {
      assert DownOk(page, role, foreign, p, j);
    }
  }

  /** No two pages play the same role. */
  lemma {:induction false} SameTable(page: seq<Page>, role: map<nat, Role>, foreign: set<Spot>, p: nat, q: nat)
    requires TreeOk(page, role, foreign, NoHole) && p in role && q in role
    requires role[p].root == role[q].root && role[p].depth == role[q].depth && role[p].pfx == role[q].pfx
    ensures p == q
    decreases role[p].depth
  {
    assert UpOk(page, role, p) && UpOk(page, role, q);
    if role[p].depth > 0 {
      SameTable(page, role, foreign, role[p].parent, role[q].parent);
    }
  }

  /** A user page is nobody's parent. */
  lemma Childless(page: seq<Page>, role: map<nat, Role>, foreign: set<Spot>, c: nat)
    requires TreeOk(page, role, foreign, NoHole) && c in role && role[c].depth == 3
    ensures forall p :: p in role && role[p].depth > 0 ==> role[p].parent != c
  {
    hide Entry, DownOk, ShapeOk, OwnedOk;
    forall p | p in role && role[p].depth > 0 ensures role[p].parent != c {
      assert UpOk(page, role, p);
    }
  }

  /** Without child c, every other page is still where its role says. */
  lemma PunchUp(page: seq<Page>, role: map<nat, Role>, foreign: set<Spot>, t: nat, k: nat, c: nat)
    requires TreeOk(page, role, foreign, NoHole) && t in role && k < ENTRIES
    requires c in role && role[c] == ChildRole(role[t], t, k)
    requires forall p :: p in role && role[p].depth > 0 ==> role[p].parent != c
    ensures forall p :: p in role && p != c ==> UpOk(page, role - {c}, p)
    ensures Bare(role - {c}, t, k)
  {
    hide Entry, ShapeOk, OwnedOk, DownOk;
    var role' := role - {c};
    assert UpOk(page, role, c);
    assert (role[t].pfx * ENTRIES + k) % ENTRIES == k;
    forall p | p in role && p != c
        ensures UpOk(page, role', p) && (role[p].depth > 0 ==> !(role[p].parent == t && role[p].pfx % ENTRIES == k)) {
      assert UpOk(page, role, p);
    }
  }

  /** Taking child c out of the tree before its entry is cleared leaves a hole at that entry. */
  lemma PunchHole(page: seq<Page>, role: map<nat, Role>, foreign: set<Spot>, t: nat, k: nat, c: nat)
    requires TreeOk(page, role, foreign, NoHole) && t in role && k < ENTRIES
    requires c in role && role[c] == ChildRole(role[t], t, k)
    requires forall p :: p in role && role[p].depth > 0 ==> role[p].parent != c
    ensures TreeOk(page, role - {c}, foreign, Hole(t, k))
    ensures Bare(role - {c}, t, k)
  {
    hide Entry, ShapeOk, OwnedOk, UpOk;
    PunchUp(page, role, foreign, t, k, c);
    var role' := role - {c};
    forall p, j: nat | p in role' && j < ENTRIES && role'[p].depth < 3 && Hole(t, k) != Hole(p, j)
        ensures DownOk(page, role', foreign, p, j) {
      assert DownOk(page, role, foreign, p, j);
    }
    assert forall p :: p in role' ==> OwnedOk(role, foreign, p) && role'[p] == role[p];
    OwnedLess(role, foreign, c);
  }

  lemma OwnedLess(role: map<nat, Role>, foreign: set<Spot>, c: nat)
    requires forall p :: p in role ==> OwnedOk(role, foreign, p)
    ensures forall p :: p in role && p != c ==> OwnedOk(role - {c}, foreign, p)
  {
    forall p | p in role && p != c ensures OwnedOk(role - {c}, foreign, p) {
      assert OwnedOk(role, foreign, p);
    }
  }

  /** Clearing the entry closes the hole. */
  lemma CloseHole(page: seq<Page>, role: map<nat, Role>, foreign: set<Spot>, t: nat, k: nat)
    requires TreeOk(page, role, foreign, Hole(t, k)) && t in role && role[t].depth < 3 && k < ENTRIES
        && IsTable(page, t) && Bare(role, t, k)
    ensures TreeOk(SetPte(page, t, k, NOPTE), role, foreign, NoHole)
  {
    hide Entry, SetPte, ShapeOk, UpOk, OwnedOk, Bare;
    var page' := SetPte(page, t, k, NOPTE);
    ShapeKept(page, role, t, k, NOPTE);
    UpKept(page, role, foreign, Hole(t, k), t, k, NOPTE);
    forall p, j: nat | p in role && j < ENTRIES && role[p].depth < 3 ensures DownOk(page', role, foreign, p, j) {
      if (p, j) != (t, k) { assert DownOk(page, role, foreign, p, j); }
    }
  }

  lemma DetachForeign(page: seq<Page>, role: map<nat, Role>, foreign: set<Spot>, t: nat, k: nat)
    requires TreeOk(page, role, foreign, NoHole) && t in role && role[t].depth == 2 && k < ENTRIES && IsTable(page, t)
    requires Spot(role[t].root, role[t].pfx * ENTRIES + k) in foreign
    ensures TreeOk(SetPte(page, t, k, NOPTE), role, foreign - {Spot(role[t].root, role[t].pfx * ENTRIES + k)}, NoHole)
  {
    hide Entry, SetPte, ShapeOk, UpOk, Bare;
    var spot := Spot(role[t].root, role[t].pfx * ENTRIES + k);
    var page', foreign' := SetPte(page, t, k, NOPTE), foreign - {spot};
    BareForeign(page, role, foreign, t, k);
    ShapeKept(page, role, t, k, NOPTE);
    UpKept(page, role, foreign, NoHole, t, k, NOPTE);
    forall p, j: nat | p in role && j < ENTRIES && role[p].depth < 3 ensures DownOk(page', role, foreign', p, j) {
      assert DownOk(page, role, foreign, p, j);
      if role[p].depth == 2 && (p, j) != (t, k) && Spot(role[p].root, role[p].pfx * ENTRIES + j) == spot {
        SameSpot(page, role, foreign, p, j, t, k);
        assert false;
      }
    }
  }

  lemma SameSpot(page: seq<Page>, role: map<nat, Role>, foreign: set<Spot>, p: nat, j: nat, t: nat, k: nat)
    requires TreeOk(page, role, foreign, NoHole) && p in role && t in role && role[p].depth == 2 == role[t].depth
        && j < ENTRIES && k < ENTRIES
    requires role[p].root == role[t].root && role[p].pfx * ENTRIES + j == role[t].pfx * ENTRIES + k
    ensures (p, j) == (t, k)
  {
    hide TreeOk;
    assert role[p].pfx == role[t].pfx && j == k;
    SameTable(page, role, foreign, p, t);
  }

  // ---------- what a change leaves alone ----------

  /** Every address space translates as before. */
  ghost predicate SameMaps(page: seq<Page>, role: map<nat, Role>, page': seq<Page>) {
    forall r, v: nat :: r in role && role[r].depth == 0 && v < MAXVPN ==>
        Translate(page', r, v) == Translate(page, r, v)
  }

  /** The translations of address space root are as before except on [lo, hi). */
  ghost predicate SameMapBut(page: seq<Page>, page': seq<Page>, root: nat, lo: nat, hi: nat) {
    forall v: nat :: v < MAXVPN && !(lo <= v < hi) ==> Translate(page', root, v) == Translate(page, root, v)
  }

  /** Only address space root has changed: the pages, roles and foreign mappings of the others have not. */
  ghost predicate OnlyRoot(page: seq<Page>, role: map<nat, Role>, foreign: set<Spot>, page': seq<Page>,
          role': map<nat, Role>, foreign': set<Spot>, root: nat) {
    && |page'| == |page|
    && (forall p :: p in role && role[p].root != root ==>
          p in role' && role'[p] == role[p] && (p < |page| ==> page'[p] == page[p]))
    && (forall p :: p in role' && role'[p].root != root ==> p in role && role[p].root != root)
    && (forall s: Spot :: s.root != root ==> (s in foreign' <==> s in foreign))
  }

  /** User pages that are still mapped hold what they held. */
  ghost predicate DataKept(page: seq<Page>, role: map<nat, Role>, page': seq<Page>, role': map<nat, Role>) {
    forall p :: p in role && p in role' && role[p].depth == 3 && p < |page| && p < |page'| ==> page'[p] == page[p]
  }

  /** Nothing but tables of address space root has been added. */
  ghost predicate TablesAdded(role: map<nat, Role>, role': map<nat, Role>, root: nat) {
    && (forall p :: p in role ==> p in role' && role'[p] == role[p])
    && (forall p :: p in role' && p !in role ==> role'[p].root == root && 0 < role'[p].depth < 3)
  }

  /** Tables have been added to address space root, and that is all: no translation anywhere has
      changed, no user page's contents, no other address space. */
  ghost predicate Extends(page: seq<Page>, role: map<nat, Role>, foreign: set<Spot>, page': seq<Page>,
          role': map<nat, Role>, root: nat) {
    && OnlyRoot(page, role, foreign, page', role', foreign, root)
    && DataKept(page, role, page', role')
    && TablesAdded(role, role', root)
    && SameMaps(page, role, page')
  }

  lemma ExtendsTrans(page: seq<Page>, role: map<nat, Role>, foreign: set<Spot>, page1: seq<Page>,
          role1: map<nat, Role>, page2: seq<Page>, role2: map<nat, Role>, root: nat)
    requires TreeOk(page, role, foreign, NoHole)
    requires Extends(page, role, foreign, page1, role1, root) && Extends(page1, role1, foreign, page2, role2, root)
    ensures Extends(page, role, foreign, page2, role2, root)
  {
    hide Translate, UpOk, DownOk, OwnedOk;
  }

  lemma ExtendsFrame(page: seq<Page>, role: map<nat, Role>, foreign: set<Spot>, page': seq<Page>, root: nat)
    requires TreeOk(page, role, foreign, NoHole) && |page'| == |page|
    requires forall p :: p in role && p < |page| ==> page'[p] == page[p]
    ensures Extends(page, role, foreign, page', role, root)
  {
    hide Translate, TreeOk;
    forall r, v: nat | r in role && role[r].depth == 0 && v < MAXVPN
        ensures Translate(page', r, v) == Translate(page, r, v) {
      TranslateFrame(page, page', role, foreign, r, v);
    }
  }

  lemma ExtendsAttach(page: seq<Page>, role: map<nat, Role>, foreign: set<Spot>, t: nat, k: nat, c: nat)
    requires TreeOk(page, role, foreign, NoHole) && CanAttach(page, role, t, k, c) && role[t].depth < 2
        && BlankTable(page, c)
    ensures Extends(page, role, foreign, SetPte(page, t, k, Pointer(c)), role[c := ChildRole(role[t], t, k)],
        role[t].root)
  {
    hide Translate, TreeOk, SetPte, Entry;
    var page' := SetPte(page, t, k, Pointer(c));
    forall r, v: nat | r in role && role[r].depth == 0 && v < MAXVPN
        ensures Translate(page', r, v) == Translate(page, r, v) {
      AttachKeeps(page, role, foreign, t, k, c, r, v);
    }
  }

  /** Address space root has grown and nothing else has changed. */
  ghost predicate Grows(page: seq<Page>, role: map<nat, Role>, foreign: set<Spot>, page': seq<Page>,
          role': map<nat, Role>, foreign': set<Spot>, root: nat) {
    && OnlyRoot(page, role, foreign, page', role', foreign', root)
    && DataKept(page, role, page', role')
    && (forall p :: p in role ==> p in role' && role'[p] == role[p])
  }

  /** Address space root has shrunk and nothing else has changed. */
  ghost predicate Shrinks(page: seq<Page>, role: map<nat, Role>, foreign: set<Spot>, page': seq<Page>,
          role': map<nat, Role>, foreign': set<Spot>, root: nat) {
    && OnlyRoot(page, role, foreign, page', role', foreign', root)
    && DataKept(page, role, page', role')
    && (forall p :: p in role' ==> p in role && role'[p] == role[p])
  }

  lemma GrowsTrans(page: seq<Page>, role: map<nat, Role>, foreign: set<Spot>, page1: seq<Page>,
          role1: map<nat, Role>, foreign1: set<Spot>, page2: seq<Page>, role2: map<nat, Role>, foreign2: set<Spot>,
          root: nat)
    requires Grows(page, role, foreign, page1, role1, foreign1, root)
        && Grows(page1, role1, foreign1, page2, role2, foreign2, root)
    ensures Grows(page, role, foreign, page2, role2, foreign2, root)
  {
  }

  lemma ShrinksTrans(page: seq<Page>, role: map<nat, Role>, foreign: set<Spot>, page1: seq<Page>,
          role1: map<nat, Role>, foreign1: set<Spot>, page2: seq<Page>, role2: map<nat, Role>, foreign2: set<Spot>,
          root: nat)
    requires Shrinks(page, role, foreign, page1, role1, foreign1, root)
        && Shrinks(page1, role1, foreign1, page2, role2, foreign2, root)
    ensures Shrinks(page, role, foreign, page2, role2, foreign2, root)
  {
  }

  /** Growing and then shrinking back. */
  lemma GrowShrink(page: seq<Page>, role: map<nat, Role>, foreign: set<Spot>, page1: seq<Page>,
          role1: map<nat, Role>, foreign1: set<Spot>, page2: seq<Page>, role2: map<nat, Role>, foreign2: set<Spot>,
          root: nat)
    requires Grows(page, role, foreign, page1, role1, foreign1, root)
        && Shrinks(page1, role1, foreign1, page2, role2, foreign2, root)
    ensures OnlyRoot(page, role, foreign, page2, role2, foreign2, root) && DataKept(page, role, page2, role2)
  {
  }

  /** Address space root has pages 0 to n - 1 of its own and foreign pages only from top on. */
  ghost predicate Sized(page: seq<Page>, role: map<nat, Role>, foreign: set<Spot>, root: nat, n: nat, top: nat) {
    && root in role && role[root].depth == 0 && n <= MAXVPN
    && (forall v: nat :: v < MAXVPN ==> (v < n <==> Translate(page, root, v).Some? && Spot(root, v) !in foreign))
    && (forall v: nat :: Spot(root, v) in foreign ==> top <= v < MAXVPN && Translate(page, root, v).Some?)
  }

  lemma OthersTranslate(page: seq<Page>, role: map<nat, Role>, foreign: set<Spot>, page': seq<Page>,
          role': map<nat, Role>, foreign': set<Spot>, root: nat, other: nat)
    requires TreeOk(page, role, foreign, NoHole) && OnlyRoot(page, role, foreign, page', role', foreign', root)
    requires other in role && role[other].depth == 0 && other != root
    ensures other in role' && role'[other] == role[other]
    ensures forall v: nat :: v < MAXVPN ==> Translate(page', other, v) == Translate(page, other, v)
  {
    hide Translate;
    assert UpOk(page, role, other);
    forall v: nat | v < MAXVPN ensures Translate(page', other, v) == Translate(page, other, v) {
      TranslateFrame(page, page', role, foreign, other, v);
    }
  }

  /** An operation on one address space keeps every other one as it was. */
  lemma OthersSized(page: seq<Page>, role: map<nat, Role>, foreign: set<Spot>, page': seq<Page>,
          role': map<nat, Role>, foreign': set<Spot>, root: nat, other: nat, n: nat, top: nat)
    requires TreeOk(page, role, foreign, NoHole) && OnlyRoot(page, role, foreign, page', role', foreign', root)
    requires Sized(page, role, foreign, other, n, top) && other != root
    ensures Sized(page', role', foreign', other, n, top)
  {
    hide TreeOk, Translate;
    OthersTranslate(page, role, foreign, page', role', foreign', root, other);
  }

  // ---------- an address space is no larger than memory ----------

  /** The pages of address space root that hold its first n user pages. */
  ghost function UserPages(role: map<nat, Role>, root: nat, n: nat): set<nat> {
    set p | p in role && role[p].root == root && role[p].depth == 3 && role[p].pfx < n
  }

  /** A mapping that is not foreign owns its page. */
  lemma OwnedPage(page: seq<Page>, role: map<nat, Role>, foreign: set<Spot>, root: nat, v: nat)
    requires TreeOk(page, role, foreign, NoHole) && root in role && role[root].depth == 0 && v < MAXVPN
    requires Translate(page, root, v).Some? && Spot(root, v) !in foreign
    ensures
      var t, p := WalkTo(page, root, v, 2), Translate(page, root, v).value.ppn;
      && t in role && role[t].root == root && role[t].depth == 2 && role[t].pfx == v / ENTRIES
      && Entry(page, t, v % ENTRIES) == Translate(page, root, v).value
      && p in role && role[p] == ChildRole(role[t], t, v % ENTRIES) && role[p].pfx == v
  {
    hide Unpack;
    WalkRole(page, role, foreign, root, v, 2);
    var t := WalkTo(page, root, v, 2);
    assert DownOk(page, role, foreign, t, v % ENTRIES);
  }

  lemma {:induction false} SizeFits(page: seq<Page>, role: map<nat, Role>, foreign: set<Spot>, root: nat, n: nat,
          top: nat, k: nat)
    requires TreeOk(page, role, foreign, NoHole) && Sized(page, role, foreign, root, n, top) && k <= n
    ensures |UserPages(role, root, k)| >= k
  {
    hide TreeOk;
    if k > 0 {
      SizeFits(page, role, foreign, root, n, top, k - 1);
      OwnedPage(page, role, foreign, root, k - 1);
      var p := Translate(page, root, k - 1).value.ppn;
      assert UserPages(role, root, k - 1) + {p} <= UserPages(role, root, k);
      SubsetCard(UserPages(role, root, k - 1) + {p}, UserPages(role, root, k));
    }
  }

  // ---------- one mapping more or less ----------

  lemma ExtendsGrows(page: seq<Page>, role: map<nat, Role>, foreign: set<Spot>, page': seq<Page>,
          role': map<nat, Role>, root: nat)
    requires Extends(page, role, foreign, page', role', root) && root in role && role[root].depth == 0
    ensures Grows(page, role, foreign, page', role', foreign, root)
    ensures SameMapBut(page, page', root, 0, 0)
  {
    hide Translate;
  }

  /** The table with the right role holds the entry that translates vpn. */
  lemma EntryOf(page: seq<Page>, role: map<nat, Role>, foreign: set<Spot>, root: nat, vpn: nat, t: nat)
    requires TreeOk(page, role, foreign, NoHole) && vpn < MAXVPN
    requires t in role && role[t].root == root && role[t].depth == 2 && role[t].pfx == vpn / ENTRIES
    ensures root in role && role[root].depth == 0
    ensures var e := Entry(page, t, vpn % ENTRIES); Translate(page, root, vpn) == if e.v then Some(e) else None
    ensures role[t].pfx * ENTRIES + vpn % ENTRIES == vpn
  {
    RoleWalk(page, role, foreign, vpn, t);
  }

  /** Writing the entry for vpn maps or unmaps vpn and leaves every other page of the space alone. */
  lemma LeafMaps(page: seq<Page>, role: map<nat, Role>, foreign: set<Spot>, root: nat, vpn: nat, t: nat, e: Pte)
    requires TreeOk(page, role, foreign, NoHole) && vpn < MAXVPN && IsTable(page, t)
    requires t in role && role[t].root == root && role[t].depth == 2 && role[t].pfx == vpn / ENTRIES
    ensures SameMapBut(page, SetPte(page, t, vpn % ENTRIES, e), root, vpn, vpn + 1)
    ensures Translate(SetPte(page, t, vpn % ENTRIES, e), root, vpn) == if e.v then Some(e) else None
  {
    hide TreeOk, Translate, SetPte, Entry;
    EntryOf(page, role, foreign, root, vpn, t);
    forall v: nat | v < MAXVPN
      ensures Translate(SetPte(page, t, vpn % ENTRIES, e), root, v) ==
        if v == vpn then (if e.v then Some(e) else None) else Translate(page, root, v)
    {
      LeafTranslate(page, role, foreign, t, vpn % ENTRIES, e, root, v);
    }
  }

  lemma GrowsLeaf(page: seq<Page>, role: map<nat, Role>, foreign: set<Spot>, t: nat, k: nat, e: Pte)
    requires TreeOk(page, role, foreign, NoHole) && CanAttach(page, role, t, k, e.ppn) && role[t].depth == 2
    ensures Grows(page, role, foreign, SetPte(page, t, k, e), role[e.ppn := ChildRole(role[t], t, k)], foreign,
        role[t].root)
  {
    hide TreeOk, SetPte, Entry;
  }

  lemma GrowsForeign(page: seq<Page>, role: map<nat, Role>, foreign: set<Spot>, t: nat, k: nat, e: Pte)
    requires TreeOk(page, role, foreign, NoHole) && t in role && role[t].depth == 2 && IsTable(page, t) && k < ENTRIES
    ensures Grows(page, role, foreign, SetPte(page, t, k, e), role,
        foreign + {Spot(role[t].root, role[t].pfx * ENTRIES + k)}, role[t].root)
  {
    hide TreeOk, SetPte, Entry;
  }

  lemma ShrinksForeign(page: seq<Page>, role: map<nat, Role>, foreign: set<Spot>, t: nat, k: nat)
    requires TreeOk(page, role, foreign, NoHole) && t in role && role[t].depth == 2 && IsTable(page, t) && k < ENTRIES
    ensures Shrinks(page, role, foreign, SetPte(page, t, k, NOPTE), role,
        foreign - {Spot(role[t].root, role[t].pfx * ENTRIES + k)}, role[t].root)
  {
    hide TreeOk, SetPte, Entry;
  }

  lemma ExtendsAt(page: seq<Page>, role: map<nat, Role>, foreign: set<Spot>, page': seq<Page>, role': map<nat, Role>,
          root: nat, vpn: nat)
    requires Extends(page, role, foreign, page', role', root) && root in role && role[root].depth == 0 && vpn < MAXVPN
    ensures Translate(page', root, vpn) == Translate(page, root, vpn) && |page'| == |page|
    ensures root in role' && role'[root] == role[root]
  {
    hide Translate;
  }

  lemma SameMapTrans(page: seq<Page>, page1: seq<Page>, page2: seq<Page>, root: nat, lo: nat, mid: nat, hi: nat)
    requires SameMapBut(page, page1, root, lo, mid) && SameMapBut(page1, page2, root, mid, hi) && lo <= mid <= hi
    ensures SameMapBut(page, page2, root, lo, hi)
    ensures forall v: nat :: lo <= v < mid && v < MAXVPN ==> Translate(page2, root, v) == Translate(page1, root, v)
    ensures forall v: nat :: mid <= v < hi && v < MAXVPN ==> Translate(page1, root, v) == Translate(page, root, v)
  {
    hide Translate;
  }

  lemma SameMapNone(page: seq<Page>, page1: seq<Page>, root: nat, lo: nat)
    requires SameMapBut(page, page1, root, 0, 0)
    ensures SameMapBut(page, page1, root, lo, lo)
  {
    hide Translate;
  }

  lemma SameMapStart(page: seq<Page>, root: nat, lo: nat)
    ensures SameMapBut(page, page, root, lo, lo)
  {
  }

  lemma SameMapAt(page: seq<Page>, page': seq<Page>, root: nat, lo: nat, hi: nat, v: nat)
    requires SameMapBut(page, page', root, lo, hi) && v < MAXVPN && !(lo <= v < hi)
    ensures Translate(page', root, v) == Translate(page, root, v)
  {
  }

  // ---------- sizes ----------

  lemma SizedGrow(page: seq<Page>, role: map<nat, Role>, foreign: set<Spot>, page': seq<Page>, role': map<nat, Role>,
          root: nat, n: nat, top: nat)
    requires Sized(page, role, foreign, root, n, top) && n < top <= MAXVPN
    requires root in role' && role'[root].depth == 0
    requires SameMapBut(page, page', root, n, n + 1) && Translate(page', root, n).Some?
    ensures Sized(page', role', foreign, root, n + 1, top)
  {
    hide Translate;
  }

  /** Nothing is mapped between the end of the user pages and the foreign pages. */
  lemma SizedGap(page: seq<Page>, role: map<nat, Role>, foreign: set<Spot>, root: nat, n: nat, top: nat, v: nat)
    requires Sized(page, role, foreign, root, n, top) && n <= v < top <= MAXVPN
    ensures Translate(page, root, v) == None && Spot(root, v) !in foreign
  {
    hide Translate;
  }

  lemma SizedShrink(page: seq<Page>, role: map<nat, Role>, foreign: set<Spot>, page': seq<Page>,
          role': map<nat, Role>, root: nat, lo: nat, n: nat, top: nat)
    requires Sized(page, role, foreign, root, n, top) && lo <= n
    requires root in role' && role'[root].depth == 0
    requires SameMapBut(page, page', root, lo, n) && forall v: nat :: lo <= v < n ==> Translate(page', root, v) == None
    ensures Sized(page', role', foreign, root, lo, top)
  {
    hide Translate;
  }

  lemma SizedSame(page: seq<Page>, role: map<nat, Role>, foreign: set<Spot>, page': seq<Page>, role': map<nat, Role>,
          root: nat, n: nat, top: nat)
    requires Sized(page, role, foreign, root, n, top)
    requires root in role' && role'[root].depth == 0
    requires SameMapBut(page, page', root, 0, 0)
    ensures Sized(page', role', foreign, root, n, top)
  {
    hide Translate;
  }

  /** What was mapped and is unmapped again leaves the translations as they were. */
  lemma SameMapUndo(page: seq<Page>, page1: seq<Page>, page2: seq<Page>, root: nat, lo: nat, hi: nat)
    requires SameMapBut(page, page1, root, lo, hi) && SameMapBut(page1, page2, root, lo, hi)
    requires forall v: nat :: lo <= v < hi && v < MAXVPN ==>
      && Translate(page, root, v) == None && Translate(page2, root, v) == None
    ensures SameMapBut(page, page2, root, 0, 0)
  {
    hide Translate;
  }

  // ---------- taking a tree apart ----------

  /** The prefix n levels up. */
  function Up(pfx: nat, n: nat): nat {
    if n == 0 then pfx else Up(pfx, n - 1) / ENTRIES
  }

  lemma {:induction false} UpStep(pfx: nat, n: nat)
    ensures Up(pfx / ENTRIES, n) == Up(pfx, n + 1)
  {
    if n > 0 { UpStep(pfx, n - 1); }
  }

  /** A page with role r is at or below a table with role a. */
  predicate Under(r: Role, a: Role) {
    r.root == a.root && a.depth <= r.depth && Up(r.pfx, r.depth - a.depth) == a.pfx
  }

  /** Which entry of a table with role a leads to the page with role r. */
  function Slot(r: Role, a: Role): nat {
    if r.depth > a.depth then Up(r.pfx, r.depth - a.depth - 1) % ENTRIES else 0
  }

  predicate Beneath(r: Role, a: Role) {
    Under(r, a) && a.depth < r.depth
  }

  lemma UnderChild(r: Role, a: Role, t: nat, k: nat)
    requires k < ENTRIES
    ensures Under(r, ChildRole(a, t, k)) <==> Beneath(r, a) && Slot(r, a) == k
  {
    if r.root == a.root && a.depth < r.depth {
      var n := r.depth - a.depth;
      assert Up(r.pfx, n) == Up(r.pfx, n - 1) / ENTRIES;
    }
  }

  /** The table at depth d on the way to page p. */
  lemma {:induction false} Ancestor(page: seq<Page>, role: map<nat, Role>, foreign: set<Spot>, p: nat,
          d: nat) returns (q: nat)
    requires TreeOk(page, role, foreign, NoHole) && p in role && d <= role[p].depth
    ensures q in role && role[q].root == role[p].root && role[q].depth == d
        && role[q].pfx == Up(role[p].pfx, role[p].depth - d)
    decreases role[p].depth
  {
    hide Entry;
    if d == role[p].depth {
      q := p;
    } else {
      assert UpOk(page, role, p);
      q := Ancestor(page, role, foreign, role[p].parent, d);
      UpStep(role[p].pfx, role[p].depth - 1 - d);
    }
  }

  /** Nothing hangs below an invalid entry. */
  lemma NoneUnder(page: seq<Page>, role: map<nat, Role>, foreign: set<Spot>, t: nat, k: nat, p: nat)
    requires TreeOk(page, role, foreign, NoHole) && t in role && k < ENTRIES && !Entry(page, t, k).v && p in role
    ensures !Under(role[p], ChildRole(role[t], t, k))
  {
    hide Entry, DownOk;
    if Under(role[p], ChildRole(role[t], t, k)) {
      var q := Ancestor(page, role, foreign, p, role[t].depth + 1);
      assert UpOk(page, role, q);
      SameTable(page, role, foreign, t, role[q].parent);
      assert false;
    }
  }

  /** No table at or below t maps a page. */
  ghost predicate Leafless(page: seq<Page>, role: map<nat, Role>, a: Role) {
    forall p, k: nat :: p in role && k < ENTRIES && role[p].depth == 2 && Under(role[p], a) ==> !Entry(page, p, k).v
  }

  /** What lies below the first i entries of t has been taken out and those entries are clear. */
  ghost predicate ClearedTo(page: seq<Page>, role: map<nat, Role>, page': seq<Page>, role': map<nat, Role>, t: nat,
          i: nat)
    requires t in role
  {
    && |page'| == |page|
    && (forall p :: p in role' <==> p in role && !(Beneath(role[p], role[t]) && Slot(role[p], role[t]) < i))
    && (forall p :: p in role' ==> p in role && role'[p] == role[p])
    && (forall p :: p in role' && p != t && p < |page| ==> page'[p] == page[p])
    && (forall k: nat :: k < ENTRIES ==> if k < i then !Entry(page', t, k).v
      else Entry(page', t, k) == Entry(page, t, k))
  }

  lemma ClearedSkip(page: seq<Page>, role: map<nat, Role>, page': seq<Page>, role': map<nat, Role>,
          foreign: set<Spot>, t: nat, i: nat)
    requires TreeOk(page, role, foreign, NoHole) && t in role && i < ENTRIES && !Entry(page, t, i).v
    requires ClearedTo(page, role, page', role', t, i)
    ensures ClearedTo(page, role, page', role', t, i + 1)
  {
    hide TreeOk, Entry, Under;
    forall p | p in role ensures !(Beneath(role[p], role[t]) && Slot(role[p], role[t]) == i) {
      NoneUnder(page, role, foreign, t, i, p);
      UnderChild(role[p], role[t], t, i);
    }
  }

  /** The subtree below entry i has been freed. */
  ghost predicate TookOut(page: seq<Page>, role: map<nat, Role>, page': seq<Page>, role': map<nat, Role>, a: Role) {
    && |page'| == |page|
    && (forall p :: p in role' <==> p in role && !Under(role[p], a))
    && (forall p :: p in role' ==> p in role && role'[p] == role[p])
    && (forall p :: p in role' && p < |page| ==> page'[p] == page[p])
  }

  lemma ClearedChild(page: seq<Page>, role: map<nat, Role>, page1: seq<Page>, role1: map<nat, Role>,
          page2: seq<Page>, role2: map<nat, Role>, t: nat, i: nat)
    requires t in role && 0 < t < |page| && i < ENTRIES && ClearedTo(page, role, page1, role1, t, i)
    requires t in role1 && TookOut(page1, role1, page2, role2, ChildRole(role[t], t, i)) && IsTable(page2, t)
    ensures ClearedTo(page, role, SetPte(page2, t, i, NOPTE), role2, t, i + 1)
    ensures t in role2
  {
    hide SetPte, Under;
    forall p | p in role
      ensures Under(role[p], ChildRole(role[t], t, i)) <==> Beneath(role[p], role[t]) && Slot(role[p], role[t]) == i
    {
      UnderChild(role[p], role[t], t, i);
    }
    UnderChild(role[t], role[t], t, i);
    ClearedRole(page, role, page1, role1, page2, role2, t, i);
    ClearedPages(page, role, page1, role1, page2, role2, t, i);
  }

  lemma ClearedPages(page: seq<Page>, role: map<nat, Role>, page1: seq<Page>, role1: map<nat, Role>,
          page2: seq<Page>, role2: map<nat, Role>, t: nat, i: nat)
    requires t in role && i < ENTRIES && ClearedTo(page, role, page1, role1, t, i) && t in role2 && t < |page|
    requires TookOut(page1, role1, page2, role2, ChildRole(role[t], t, i)) && IsTable(page2, t)
    ensures
      var page' := SetPte(page2, t, i, NOPTE);
      && (forall p :: p in role2 && p != t && p < |page| ==> page'[p] == page[p])
      && (forall k: nat :: k < ENTRIES ==> if k < i + 1 then !Entry(page', t, k).v
        else Entry(page', t, k) == Entry(page, t, k))
  {
    hide SetPte, Under, Slot, Beneath;
    assert page2[t] == page1[t];
    assert forall k: nat :: Entry(page2, t, k) == Entry(page1, t, k);
  }

  lemma ClearedRole(page: seq<Page>, role: map<nat, Role>, page1: seq<Page>, role1: map<nat, Role>, page2: seq<Page>,
          role2: map<nat, Role>, t: nat, i: nat)
    requires t in role && i < ENTRIES && ClearedTo(page, role, page1, role1, t, i)
    requires TookOut(page1, role1, page2, role2, ChildRole(role[t], t, i))
    requires forall p :: p in role ==>
        (Under(role[p], ChildRole(role[t], t, i)) <==> Beneath(role[p], role[t]) && Slot(role[p], role[t]) == i)
    ensures forall p :: p in role2 <==> p in role && !(Beneath(role[p], role[t]) && Slot(role[p], role[t]) < i + 1)
  {
    hide Under, Slot, Beneath, Entry;
  }

  /** After the last entry only t itself is left of its subtree, and it is nobody's parent. */
  lemma ClearedAll(page: seq<Page>, role: map<nat, Role>, page': seq<Page>, role': map<nat, Role>,
          foreign: set<Spot>, t: nat)
    requires TreeOk(page, role, foreign, NoHole) && TreeOk(page', role', foreign, NoHole) && t in role
    requires ClearedTo(page, role, page', role', t, ENTRIES)
    ensures t in role' && role'[t] == role[t]
    ensures forall p :: p in role' && role'[p].depth > 0 ==> role'[p].parent != t
    ensures forall p :: p in role' && p != t <==> p in role && !Under(role[p], role[t])
  {
    hide Entry, DownOk, ShapeOk, OwnedOk;
    forall p | p in role' && role'[p].depth > 0 ensures role'[p].parent != t {
      assert UpOk(page', role', p);
      if role'[p].parent == t {
        UnderChild(role[p], role[t], t, role[p].pfx % ENTRIES);
        assert false;
      }
    }
    forall p | p in role ensures (p in role' && p != t) <==> !Under(role[p], role[t]) {
      if Under(role[p], role[t]) && role[p].depth == role[t].depth {
        SameTable(page, role, foreign, p, t);
      }
    }
  }

  lemma TookOutAll(page: seq<Page>, role: map<nat, Role>, page1: seq<Page>, role1: map<nat, Role>, page2: seq<Page>,
          t: nat)
    requires t in role && ClearedTo(page, role, page1, role1, t, ENTRIES) && |page2| == |page1|
    requires forall p :: p in role1 && p != t <==> p in role && !Under(role[p], role[t])
    requires forall p: nat :: p < |page1| && p != t ==> page2[p] == page1[p]
    ensures TookOut(page, role, page2, role1 - {t}, role[t])
  {
    hide Under, Slot, Entry;
  }

  /** A root that is nobody's parent leaves the tree without a trace. */
  lemma DropRoot(page: seq<Page>, role: map<nat, Role>, foreign: set<Spot>, t: nat)
    requires TreeOk(page, role, foreign, NoHole) && t in role && role[t].depth == 0
    requires forall p :: p in role && role[p].depth > 0 ==> role[p].parent != t
    ensures TreeOk(page, role - {t}, foreign, NoHole)
  {
    hide Entry, ShapeOk, OwnedOk, UpOk;
    var role' := role - {t};
    DropUp(page, role, foreign, t);
    forall p, j: nat | p in role' && j < ENTRIES && role'[p].depth < 3 ensures DownOk(page, role', foreign, p, j) {
      assert DownOk(page, role, foreign, p, j);
    }
    assert forall p :: p in role' ==> OwnedOk(role, foreign, p) && role'[p] == role[p];
    OwnedLess(role, foreign, t);
  }

  lemma DropUp(page: seq<Page>, role: map<nat, Role>, foreign: set<Spot>, t: nat)
    requires TreeOk(page, role, foreign, NoHole) && t in role
    requires forall p :: p in role && role[p].depth > 0 ==> role[p].parent != t
    ensures forall p :: p in role && p != t ==> UpOk(page, role - {t}, p)
  {
    hide Entry, ShapeOk, OwnedOk, DownOk;
    forall p | p in role && p != t ensures UpOk(page, role - {t}, p) {
      assert UpOk(page, role, p);
    }
  }

  lemma ClearedStart(page: seq<Page>, role: map<nat, Role>, t: nat)
    requires t in role
    ensures ClearedTo(page, role, page, role, t, 0)
  {
  }

  /** A valid entry still to be cleared leads to a table, and nothing below that maps a page. */
  lemma ChildReady(page: seq<Page>, role: map<nat, Role>, page': seq<Page>, role': map<nat, Role>,
          foreign: set<Spot>, t: nat, i: nat)
    requires TreeOk(page', role', foreign, NoHole) && t in role && t in role' && role[t].depth < 3 && i < ENTRIES
    requires ClearedTo(page, role, page', role', t, i) && Leafless(page, role, role[t]) && Entry(page', t, i).v
    ensures
      var e := Entry(page', t, i);
      && role[t].depth < 2 && Interior(e) && e.ppn in role' && role'[e.ppn] == ChildRole(role[t], t, i)
      && Leafless(page', role', ChildRole(role[t], t, i))
  {
    hide UpOk, OwnedOk, Slot;
    assert Under(role[t], role[t]);
    assert DownOk(page', role', foreign, t, i);
    var a := ChildRole(role[t], t, i);
    forall p, k: nat | p in role' && k < ENTRIES && role'[p].depth == 2 && Under(role'[p], a)
        ensures !Entry(page', p, k).v {
      UnderChild(role[p], role[t], t, i);
      assert Under(role[p], role[t]) && !Entry(page, p, k).v;
      assert ShapeOk(page', p, role'[p]) && page'[p] == page[p];
    }
  }

  // ---------- an address space made and unmade ----------

  /** Every page's root is a root. */
  lemma RootOf(page: seq<Page>, role: map<nat, Role>, foreign: set<Spot>, p: nat)
    requires TreeOk(page, role, foreign, NoHole) && p in role
    ensures role[p].root in role && role[role[p].root].depth == 0
  {
    var q := Ancestor(page, role, foreign, p, 0);
    assert UpOk(page, role, q);
  }

  /** What is foreign to an address space that is not there may be forgotten. */
  lemma ForeignClean(page: seq<Page>, role: map<nat, Role>, foreign: set<Spot>, foreign': set<Spot>, c: nat)
    requires TreeOk(page, role, foreign, NoHole) && c !in role
    requires forall s: Spot :: s in foreign' <==> s in foreign && s.root != c
    ensures TreeOk(page, role, foreign', NoHole)
  {
    hide Entry, ShapeOk, UpOk;
    forall p | p in role ensures role[p].root != c {
      RootOf(page, role, foreign, p);
    }
    forall p, j: nat | p in role && j < ENTRIES && role[p].depth < 3 ensures DownOk(page, role, foreign', p, j) {
      assert DownOk(page, role, foreign, p, j);
    }
    forall p | p in role ensures OwnedOk(role, foreign', p) {
      assert OwnedOk(role, foreign, p);
    }
  }

  /** An address space that translates nothing has only tables without mappings. */
  lemma EmptyLeafless(page: seq<Page>, role: map<nat, Role>, foreign: set<Spot>, root: nat)
    requires TreeOk(page, role, foreign, NoHole) && root in role && role[root].depth == 0
    requires forall v: nat :: v < MAXVPN ==> Translate(page, root, v) == None
    ensures Leafless(page, role, role[root])
  {
    hide Translate, Entry, UpOk, DownOk;
    forall p, k: nat | p in role && k < ENTRIES && role[p].depth == 2 && Under(role[p], role[root])
        ensures !Entry(page, p, k).v {
      assert ShapeOk(page, p, role[p]);
      var v := role[p].pfx * ENTRIES + k;
      assert v / ENTRIES == role[p].pfx && v % ENTRIES == k;
      EntryOf(page, role, foreign, role[p].root, v, p);
      RootSelf(page, role, foreign, root);
    }
  }

  lemma RootSelf(page: seq<Page>, role: map<nat, Role>, foreign: set<Spot>, root: nat)
    requires TreeOk(page, role, foreign, NoHole) && root in role && role[root].depth == 0
    ensures role[root] == Role(root, 0, 0, 0)
  {
    assert UpOk(page, role, root);
  }

  /** All that is under a root is what belongs to it. */
  lemma {:induction false} UnderRoot(page: seq<Page>, role: map<nat, Role>, foreign: set<Spot>, root: nat, p: nat)
    requires TreeOk(page, role, foreign, NoHole) && root in role && role[root].depth == 0 && p in role
    ensures Under(role[p], role[root]) <==> role[p].root == root
  {
    hide Entry;
    RootSelf(page, role, foreign, root);
    var q := Ancestor(page, role, foreign, p, 0);
    RootSelf(page, role, foreign, q);
  }

  /** Address space root is gone and the others are as they were. */
  ghost predicate Gone(page: seq<Page>, role: map<nat, Role>, page': seq<Page>, role': map<nat, Role>, root: nat) {
    && |page'| == |page|
    && (forall p :: p in role' <==> p in role && role[p].root != root)
    && (forall p :: p in role' ==> p in role && role'[p] == role[p] && (p < |page| ==> page'[p] == page[p]))
  }

  lemma TookOutRoot(page: seq<Page>, role: map<nat, Role>, foreign: set<Spot>, page': seq<Page>,
          role': map<nat, Role>, root: nat)
    requires TreeOk(page, role, foreign, NoHole) && root in role && role[root].depth == 0
    requires TookOut(page, role, page', role', role[root])
    ensures Gone(page, role, page', role', root)
  {
    hide TreeOk, Under;
    forall p | p in role ensures Under(role[p], role[root]) <==> role[p].root == root {
      UnderRoot(page, role, foreign, root, p);
    }
  }

  /** Shrinking an address space and then removing it. */
  lemma GoneAfter(page: seq<Page>, role: map<nat, Role>, foreign: set<Spot>, page1: seq<Page>, role1: map<nat, Role>,
          foreign1: set<Spot>, page2: seq<Page>, role2: map<nat, Role>, root: nat)
    requires OnlyRoot(page, role, foreign, page1, role1, foreign1, root) && Gone(page1, role1, page2, role2, root)
    requires forall p :: p in role ==> p < |page|
    ensures Gone(page, role, page2, role2, root)
  {
  }

  lemma SizedForeign(page: seq<Page>, role: map<nat, Role>, foreign: set<Spot>, page': seq<Page>,
          role': map<nat, Role>, foreign': set<Spot>, root: nat, n: nat, v: nat)
    requires Sized(page, role, foreign, root, n, v + 1) && n <= v < MAXVPN
    requires root in role' && role'[root].depth == 0
    requires SameMapBut(page, page', root, v, v + 1) && Translate(page', root, v).Some?
    requires forall s: Spot :: s in foreign' <==> s in foreign || s == Spot(root, v)
    ensures Sized(page', role', foreign', root, n, v)
  {
    hide Translate;
  }

  lemma SizedUnforeign(page: seq<Page>, role: map<nat, Role>, foreign: set<Spot>, page': seq<Page>,
          role': map<nat, Role>, foreign': set<Spot>, root: nat, n: nat, v: nat, top: nat)
    requires Sized(page, role, foreign, root, n, top) && n <= top <= v < MAXVPN
    requires root in role' && role'[root].depth == 0
    requires SameMapBut(page, page', root, v, v + 1) && Translate(page', root, v) == None
    requires forall s: Spot :: s in foreign' <==> s in foreign && s != Spot(root, v)
    ensures Sized(page', role', foreign', root, n, top)
  {
    hide Translate;
  }

  lemma SizedTop(page: seq<Page>, role: map<nat, Role>, foreign: set<Spot>, root: nat, n: nat, top: nat, top': nat)
    requires Sized(page, role, foreign, root, n, top)
    requires forall v: nat :: Spot(root, v) in foreign ==> top' <= v
    ensures Sized(page, role, foreign, root, n, top')
  {
    hide Translate;
  }

  lemma OnlyRootTrans(page: seq<Page>, role: map<nat, Role>, foreign: set<Spot>, page1: seq<Page>,
          role1: map<nat, Role>, foreign1: set<Spot>, page2: seq<Page>, role2: map<nat, Role>, foreign2: set<Spot>,
          root: nat)
    requires OnlyRoot(page, role, foreign, page1, role1, foreign1, root)
        && OnlyRoot(page1, role1, foreign1, page2, role2, foreign2, root)
    ensures OnlyRoot(page, role, foreign, page2, role2, foreign2, root)
  {
  }

  lemma GoneOnly(page: seq<Page>, role: map<nat, Role>, foreign: set<Spot>, page': seq<Page>, role': map<nat, Role>,
          root: nat)
    requires Gone(page, role, page', role', root)
    ensures OnlyRoot(page, role, foreign, page', role', foreign, root)
    ensures forall p :: p in role' ==> role'[p].root != root
  {
  }
}
