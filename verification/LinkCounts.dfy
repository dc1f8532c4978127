/** Directories, their entries and the link counts of what they name, on values. */
module LinkCounts {

  datatype Kind = None | File | Dir | Device

  /** A directory entry; inum 0 marks a free slot. */
  datatype Entry = Entry(inum: nat, name: string)

  /** The link count's type in the source, and the count it holds after arithmetic. */
  type Short = n: int | -32768 <= n <= 32767

  const MAXLINK: Short := 32767

  function Wrap(n: int): Short {
    (n + 32768) % 65536 - 32768
  }

  datatype Inode = Inode(kind: Kind, nlink: Short, entries: seq<Entry>)

  const FREE: Inode := Inode(None, 0, [])
  const ROOT: nat := 1

  /** How many entries of 16 bytes a directory of MAXFILE blocks holds. */
  const MAXENTRIES: nat := 268 * 64

  predicate Live(x: Inode) {
    x.kind == Dir && x.nlink >= 1
  }

  /** Entry e is a counted link to inode i: every entry but "." is. */
  predicate Links(e: Entry, i: nat) {
    e.inum == i && e.inum != 0 && e.name != "."
  }

  function One(b: bool): nat {
    if b then 1 else 0
  }

  /** How many entries link to i. */
  function Names(es: seq<Entry>, i: nat): nat {
    if es == [] then 0 else Names(es[..|es| - 1], i) + One(Links(es[|es| - 1], i))
  }

  /** How many links to i inode x holds: only directories that are themselves linked count. */
  function Refs(x: Inode, i: nat): nat {
    if Live(x) then Names(x.entries, i) else 0
  }

  function Count(inodes: seq<Inode>, i: nat): nat {
    if inodes == [] then 0 else Count(inodes[..|inodes| - 1], i) + Refs(inodes[|inodes| - 1], i)
  }

  lemma {:induction false} NamesSet(es: seq<Entry>, k: nat, e: Entry, i: nat)
    requires k < |es|
    ensures Names(es[k := e], i) == Names(es, i) - One(Links(es[k], i)) + One(Links(e, i))
    ensures Names(es, i) >= One(Links(es[k], i))
  {
    var n := |es| - 1;
    if k == n {
      assert es[k := e][..n] == es[..n];
    } else {
      NamesSet(es[..n], k, e, i);
      assert es[k := e][..n] == es[..n][k := e];
    }
  }

  lemma NamesAdd(es: seq<Entry>, e: Entry, i: nat)
    ensures Names(es + [e], i) == Names(es, i) + One(Links(e, i))
  {
    assert (es + [e])[..|es|] == es;
  }

  lemma {:induction false} NamesPos(es: seq<Entry>, i: nat) returns (k: nat)
    requires Names(es, i) > 0
    ensures k < |es| && Links(es[k], i)
  {
    var n := |es| - 1;
    if Links(es[n], i) {
      k := n;
    } else {
      k := NamesPos(es[..n], i);
    }
  }

  /** Changing one inode changes a count by what that inode holds. */
  lemma {:induction false} CountSet(inodes: seq<Inode>, d: nat, x: Inode, i: nat)
    requires d < |inodes|
    ensures Count(inodes[d := x], i) == Count(inodes, i) - Refs(inodes[d], i) + Refs(x, i)
    ensures Count(inodes, i) >= Refs(inodes[d], i)
  {
    hide Refs;
    var n := |inodes| - 1;
    if d == n {
      assert inodes[d := x][..n] == inodes[..n];
    } else {
      CountSet(inodes[..n], d, x, i);
      assert inodes[d := x][..n] == inodes[..n][d := x];
    }
  }

  /** A count that is not zero has a link to show for it. */
  lemma {:induction false} CountPos(inodes: seq<Inode>, i: nat) returns (d: nat, k: nat)
    requires Count(inodes, i) > 0
    ensures d < |inodes| && Live(inodes[d]) && k < |inodes[d].entries| && Links(inodes[d].entries[k], i)
  {
    var n := |inodes| - 1;
    if Refs(inodes[n], i) > 0 {
      d := n;
      k := NamesPos(inodes[n].entries, i);
    } else {
      d, k := CountPos(inodes[..n], i);
    }
  }

  /** A link is counted. */
  lemma CountHas(inodes: seq<Inode>, i: nat, d: nat, k: nat)
    requires d < |inodes| && Live(inodes[d]) && k < |inodes[d].entries| && Links(inodes[d].entries[k], i)
    ensures Count(inodes, i) > 0
  {
    NamesSet(inodes[d].entries, k, inodes[d].entries[k], i);
    CountSet(inodes, d, inodes[d], i);
  }

  // ---------- what every operation keeps ----------

  /** The first two entries are "." and ".."; names do not repeat; every entry names an inode. */
  ghost predicate DirOk(n: nat, d: nat, es: seq<Entry>) {
    && |es| >= 2 && es[0] == Entry(d, ".") && es[1].name == ".." && es[1].inum != 0
    && (forall k :: 0 <= k < |es| ==> es[k].inum < n)
    && (forall j, k :: 0 <= j < k < |es| && es[j].inum != 0 && es[k].inum != 0 ==> es[j].name != es[k].name)
  }

  /** Entry k of directory d is the one place in the tree of the directory it names. */
  ghost predicate EntryOk(inodes: seq<Inode>, d: nat, k: nat) {
    d < |inodes| && 2 <= k < |inodes[d].entries| && inodes[d].entries[k].inum != 0 ==>
      var e := inodes[d].entries[k].inum;
      && e != ROOT && e < |inodes|
      && (inodes[e].kind == Dir ==>
            |inodes[e].entries| >= 2 && inodes[e].entries[1].inum == d && Only(inodes[d].entries, k))
  }

  ghost predicate Only(es: seq<Entry>, k: nat) {
    forall j :: 2 <= j < |es| && j != k && k < |es| ==> es[j].inum != es[k].inum
  }

  ghost predicate Named(es: seq<Entry>, i: nat) {
    exists k :: 2 <= k < |es| && es[k].inum == i
  }

  /** A directory has a place in the directory its ".." names. */
  ghost predicate PlaceOk(inodes: seq<Inode>, d: nat) {
    d < |inodes| && |inodes[d].entries| >= 2 &&
    var p := inodes[d].entries[1].inum;
    if d == ROOT then p == ROOT else p < |inodes| && Live(inodes[p]) && Named(inodes[p].entries, d)
  }

  /** A directory that has lost its place is empty, and its ".." still names another inode. */
  ghost predicate DeadOk(n: nat, d: nat, es: seq<Entry>) {
    && |es| >= 2 && es[0] == Entry(d, ".") && es[1].name == ".." && 0 < es[1].inum < n && es[1].inum != d
    && forall k :: 2 <= k < |es| ==> es[k].inum == 0
  }

  ghost predicate CountsOk(inodes: seq<Inode>) {
    forall i: nat :: 0 < i < |inodes| ==> inodes[i].nlink == Count(inodes, i)
  }

  ghost predicate TreeOk(inodes: seq<Inode>) {
    && (forall d: nat :: d < |inodes| && Live(inodes[d]) ==> DirOk(|inodes|, d, inodes[d].entries))
    && (forall d: nat, k: nat :: d < |inodes| && Live(inodes[d]) && k < |inodes[d].entries| ==> EntryOk(inodes, d, k))
    && (forall d: nat :: d < |inodes| && Live(inodes[d]) ==> PlaceOk(inodes, d))
  }

  ghost predicate DeadsOk(inodes: seq<Inode>) {
    forall d: nat :: d < |inodes| && inodes[d].kind == Dir && !Live(inodes[d]) ==>
        DeadOk(|inodes|, d, inodes[d].entries)
  }

  /** An inode is free exactly when nothing links to it and nobody has it open. */
  ghost predicate UseOk(inodes: seq<Inode>, refs: seq<nat>) {
    && |refs| == |inodes| && |inodes| > ROOT && inodes[0] == FREE && Live(inodes[ROOT])
    && (forall i: nat :: i < |inodes| && inodes[i].kind == None ==> inodes[i] == FREE && refs[i] == 0)
    && (forall i: nat :: i < |inodes| && inodes[i].kind != None ==> inodes[i].nlink >= 1 || refs[i] >= 1)
  }

  ghost predicate Inv(inodes: seq<Inode>, refs: seq<nat>) {
    CountsOk(inodes) && TreeOk(inodes) && DeadsOk(inodes) && UseOk(inodes, refs)
  }

  /** What a directory names is in use. */
  lemma EntryAllocated(inodes: seq<Inode>, refs: seq<nat>, d: nat, k: nat)
    requires Inv(inodes, refs) && d < |inodes| && Live(inodes[d]) && 2 <= k < |inodes[d].entries|
        && inodes[d].entries[k].inum != 0
    ensures var e := inodes[d].entries[k].inum;
      e < |inodes| && inodes[e].nlink >= 1 && inodes[e].kind != None && e != ROOT
  {
    var e := inodes[d].entries[k].inum;
    assert EntryOk(inodes, d, k) && DirOk(|inodes|, d, inodes[d].entries);
    assert inodes[d].entries[k].name != ".";
    CountHas(inodes, e, d, k);
  }

  /** Of a directory with nothing but "." and ".." in it, entry k of d is the only link. */
  lemma OnlyLink(inodes: seq<Inode>, refs: seq<nat>, d: nat, k: nat, p: nat, j: nat)
    requires Inv(inodes, refs) && d < |inodes| && Live(inodes[d]) && 2 <= k < |inodes[d].entries|
        && inodes[d].entries[k].inum != 0
    requires
      var e := inodes[d].entries[k].inum;
      e < |inodes| && inodes[e].kind == Dir && forall x :: 2 <= x < |inodes[e].entries| ==>
        inodes[e].entries[x].inum == 0
    requires p < |inodes| && Live(inodes[p]) && j < |inodes[p].entries|
        && Links(inodes[p].entries[j], inodes[d].entries[k].inum)
    ensures p == d && j == k
  {
    EntryAllocated(inodes, refs, d, k);
    TreeAt(inodes, d, k);
    TreeAt(inodes, p, j);
    hide TreeOk, UseOk, CountsOk, DirOk;
  }

  lemma DirAt(inodes: seq<Inode>, d: nat)
    requires TreeOk(inodes) && d < |inodes| && Live(inodes[d])
    ensures PlaceOk(inodes, d) && DirOk(|inodes|, d, inodes[d].entries) && |inodes[d].entries| >= 2
  {
    hide EntryOk, PlaceOk;
  }

  lemma TreeAt(inodes: seq<Inode>, d: nat, k: nat)
    requires TreeOk(inodes) && d < |inodes| && Live(inodes[d]) && k < |inodes[d].entries|
    ensures EntryOk(inodes, d, k) && PlaceOk(inodes, d) && DirOk(|inodes|, d, inodes[d].entries)
    ensures |inodes[d].entries| >= 2 && inodes[d].entries[0] == Entry(d, ".") && inodes[d].entries[1].name == ".."
  {
    hide EntryOk, PlaceOk;
  }

  /** A directory with nothing but "." and ".." in it has exactly one link. */
  lemma EmptyDirOneLink(inodes: seq<Inode>, refs: seq<nat>, d: nat, k: nat)
    requires Inv(inodes, refs) && d < |inodes| && Live(inodes[d]) && 2 <= k < |inodes[d].entries|
        && inodes[d].entries[k].inum != 0
    requires
      var e := inodes[d].entries[k].inum;
      e < |inodes| && inodes[e].kind == Dir && forall j :: 2 <= j < |inodes[e].entries| ==>
        inodes[e].entries[j].inum == 0
    ensures inodes[inodes[d].entries[k].inum].nlink == 1
  {
    hide TreeOk;
    var e := inodes[d].entries[k].inum;
    EntryAllocated(inodes, refs, d, k);
    var x := inodes[d].(entries := inodes[d].entries[k := Entry(0, "")]);
    NamesSet(inodes[d].entries, k, Entry(0, ""), e);
    EntryNamed(inodes, d, k);
    CountSet(inodes, d, x, e);
    var rest := inodes[d := x];
    if Count(rest, e) > 0 {
      var p, j := CountPos(rest, e);
      OnlyLink(inodes, refs, d, k, p, j);
    }
  }

  lemma EntryNamed(inodes: seq<Inode>, d: nat, k: nat)
    requires TreeOk(inodes) && 0 < d < |inodes| && Live(inodes[d]) && 2 <= k < |inodes[d].entries|
        && inodes[d].entries[k].inum != 0
    ensures inodes[d].entries[k].name != "." && inodes[d].entries[k].name != ".."
  {
    hide EntryOk, PlaceOk;
    assert DirOk(|inodes|, d, inodes[d].entries);
  }

  // ---------- an entry is added ----------

  /** Slot k, which is free or just past the end, gets entry e. */
  function Put(es: seq<Entry>, k: nat, e: Entry): (r: seq<Entry>)
    requires k <= |es|
    ensures |r| >= |es| && k < |r| && r[k] == e && forall j :: 0 <= j < |es| && j != k ==> r[j] == es[j]
    ensures |r| == if k < |es| then |es| else |es| + 1
  {
    if k < |es| then es[k := e] else es + [e]
  }

  /** k is where an entry may go. */
  predicate Slot(es: seq<Entry>, k: nat) {
    k <= |es| && (k < |es| ==> es[k].inum == 0)
  }

  predicate Absent(es: seq<Entry>, name: string) {
    forall k :: 0 <= k < |es| && es[k].inum != 0 ==> es[k].name != name
  }

  lemma NamesPut(es: seq<Entry>, k: nat, e: Entry, i: nat)
    requires Slot(es, k)
    ensures Names(Put(es, k, e), i) == Names(es, i) + One(Links(e, i))
  {
    if k < |es| { NamesSet(es, k, e, i); } else { NamesAdd(es, e, i); }
  }

  /** Adding an entry to live directory d adds one link, and growing its count adds nothing. */
  lemma CountPut(inodes: seq<Inode>, d: nat, k: nat, e: Entry, nlink: Short, i: nat)
    requires d < |inodes| && Live(inodes[d]) && Slot(inodes[d].entries, k) && nlink >= 1
    ensures Count(inodes[d := Inode(Dir, nlink, Put(inodes[d].entries, k, e))], i) ==
        Count(inodes, i) + One(Links(e, i))
  {
    NamesPut(inodes[d].entries, k, e, i);
    CountSet(inodes, d, Inode(Dir, nlink, Put(inodes[d].entries, k, e)), i);
  }

  lemma DirPut(n: nat, d: nat, es: seq<Entry>, k: nat, e: Entry)
    requires DirOk(n, d, es) && d != 0 && Slot(es, k) && Absent(es, e.name) && e.inum < n
    ensures k >= 2 && DirOk(n, d, Put(es, k, e))
  {
    hide Put;
  }

  lemma NamedPut(es: seq<Entry>, k: nat, e: Entry, i: nat)
    requires Slot(es, k) && k >= 2 && ((Named(es, i) && i != 0) || e.inum == i)
    ensures Named(Put(es, k, e), i)
  {
    hide Put;
    var r := Put(es, k, e);
    if e.inum == i {
      assert r[k].inum == i;
    } else {
      var j :| 2 <= j < |es| && es[j].inum == i;
      assert r[j].inum == i;
    }
  }

  // ---------- link ----------

  function Linked(inodes: seq<Inode>, d: nat, k: nat, i: nat, name: string): seq<Inode>
    requires d < |inodes| && i < |inodes| && k <= |inodes[d].entries|
  {
    inodes[i := inodes[i].(nlink := Wrap(inodes[i].nlink + 1))]
          [d := inodes[d].(entries := Put(inodes[d].entries, k, Entry(i, name)))]
  }

  ghost predicate CanLink(inodes: seq<Inode>, refs: seq<nat>, d: nat, k: nat, i: nat, name: string) {
    && Inv(inodes, refs) && 0 < d < |inodes| && 0 < i < |inodes| && Live(inodes[d]) && Slot(inodes[d].entries, k)
      && Absent(inodes[d].entries, name)
    && (inodes[i].kind == File || inodes[i].kind == Device) && name != "." && inodes[i].nlink < MAXLINK
  }

  lemma LinkCountsKept(inodes: seq<Inode>, refs: seq<nat>, d: nat, k: nat, i: nat, name: string)
    requires CanLink(inodes, refs, d, k, i, name)
    ensures CountsOk(Linked(inodes, d, k, i, name))
  {
    hide Count, Put, TreeOk, UseOk;
    var mid := inodes[i := inodes[i].(nlink := Wrap(inodes[i].nlink + 1))];
    var inodes' := Linked(inodes, d, k, i, name);
    forall x: nat | 0 < x < |inodes'| ensures inodes'[x].nlink == Count(inodes', x) {
      CountSet(inodes, i, mid[i], x);
      CountPut(mid, d, k, Entry(i, name), inodes[d].nlink, x);
      assert inodes'[d] == Inode(Dir, inodes[d].nlink, Put(inodes[d].entries, k, Entry(i, name)));
    }
  }

  /** The tree is kept when directory d gets an entry for i, which is no directory or has d as parent. */
  lemma TreePut(inodes: seq<Inode>, d: nat, k: nat, e: Entry, inodes': seq<Inode>, i: nat)
    requires TreeOk(inodes) && 0 < d < |inodes| && Live(inodes[d]) && Slot(inodes[d].entries, k)
        && Absent(inodes[d].entries, e.name) && e.inum == i
    requires 0 < i < |inodes| && i != ROOT && i != d && |inodes'| == |inodes|
    requires Live(inodes'[d]) && inodes'[d].entries == Put(inodes[d].entries, k, e)
    requires forall x: nat :: x < |inodes| && x != d && x != i ==> inodes'[x] == inodes[x]
    requires !Live(inodes[i]) && inodes'[i].kind != None && !Live(inodes[0])
    requires inodes'[i].kind == Dir ==> Live(inodes'[i]) && inodes'[i].entries == [Entry(i, "."), Entry(d, "..")]
    requires forall p: nat, j: nat ::
      p < |inodes| && Live(inodes[p]) && 2 <= j < |inodes[p].entries| && inodes[p].entries[j].inum == i ==>
      inodes'[i].kind != Dir
    ensures TreeOk(inodes')
  {
    hide Put, DirOk, EntryOk, PlaceOk;
    DirAt(inodes, d);
    DirPut(|inodes|, d, inodes[d].entries, k, e);
    forall p: nat | p < |inodes'| && Live(inodes'[p]) ensures DirOk(|inodes'|, p, inodes'[p].entries) {
      if p == i { FreshDir(|inodes|, i, d); }
    }
    forall p: nat, j: nat | p < |inodes'| && Live(inodes'[p]) && j < |inodes'[p].entries|
        ensures EntryOk(inodes', p, j) {
      EntryPut(inodes, d, k, e, inodes', i, p, j);
    }
    forall p: nat | p < |inodes'| && Live(inodes'[p]) ensures PlaceOk(inodes', p) {
      PlacePut(inodes, d, k, e, inodes', i, p);
    }
  }

  lemma FreshDir(n: nat, i: nat, d: nat)
    requires i < n && d < n && d != 0
    ensures DirOk(n, i, [Entry(i, "."), Entry(d, "..")])
  {
  }

  lemma EntryPut(inodes: seq<Inode>, d: nat, k: nat, e: Entry, inodes': seq<Inode>, i: nat, p: nat, j: nat)
    requires TreeOk(inodes) && 0 < d < |inodes| && Live(inodes[d]) && Slot(inodes[d].entries, k) && k >= 2
        && e.inum == i
    requires 0 < i < |inodes| && i != ROOT && i != d && |inodes'| == |inodes|
    requires Live(inodes'[d]) && inodes'[d].entries == Put(inodes[d].entries, k, e)
    requires forall x: nat :: x < |inodes| && x != d && x != i ==> inodes'[x] == inodes[x]
    requires inodes'[i].kind == Dir ==> Live(inodes'[i]) && inodes'[i].entries == [Entry(i, "."), Entry(d, "..")]
    requires forall p: nat, j: nat ::
      p < |inodes| && Live(inodes[p]) && 2 <= j < |inodes[p].entries| && inodes[p].entries[j].inum == i ==>
      inodes'[i].kind != Dir
    requires p < |inodes'| && Live(inodes'[p]) && j < |inodes'[p].entries|
    ensures EntryOk(inodes', p, j)
  {
    hide Put, DirOk, PlaceOk;
    if p != i && j < |inodes[p].entries| && !(p == d && j == k) {
      assert EntryOk(inodes, p, j);
    }
    assert |inodes[d].entries| >= 2 by { DirAt(inodes, d); }
  }

  lemma PlacePut(inodes: seq<Inode>, d: nat, k: nat, e: Entry, inodes': seq<Inode>, i: nat, p: nat)
    requires TreeOk(inodes) && 0 < d < |inodes| && Live(inodes[d]) && Slot(inodes[d].entries, k) && k >= 2
        && e.inum == i
    requires 0 < i < |inodes| && i != ROOT && i != d && |inodes'| == |inodes|
    requires Live(inodes'[d]) && inodes'[d].entries == Put(inodes[d].entries, k, e)
    requires forall x: nat :: x < |inodes| && x != d && x != i ==> inodes'[x] == inodes[x]
    requires !Live(inodes[i]) && !Live(inodes[0])
    requires inodes'[i].kind == Dir ==> Live(inodes'[i]) && inodes'[i].entries == [Entry(i, "."), Entry(d, "..")]
    requires p < |inodes'| && Live(inodes'[p])
    ensures PlaceOk(inodes', p)
  {
    hide Put, DirOk, EntryOk;
    NamedKept(inodes[d].entries, k, e);
    if p != i { assert PlaceOk(inodes, p); }
    assert |inodes[d].entries| >= 2 by { DirAt(inodes, d); }
  }

  lemma NamedKept(es: seq<Entry>, k: nat, e: Entry)
    requires Slot(es, k) && k >= 2
    ensures Named(Put(es, k, e), e.inum)
    ensures forall x :: x != 0 && Named(es, x) ==> Named(Put(es, k, e), x)
  {
    hide Named;
    NamedPut(es, k, e, e.inum);
    forall x | x != 0 && Named(es, x) ensures Named(Put(es, k, e), x) {
      NamedPut(es, k, e, x);
    }
  }

  lemma NotLiveZero(inodes: seq<Inode>, refs: seq<nat>)
    requires UseOk(inodes, refs)
    ensures !Live(inodes[0]) && Live(inodes[ROOT])
  {
  }

  lemma LinkKeeps(inodes: seq<Inode>, refs: seq<nat>, d: nat, k: nat, i: nat, name: string)
    requires CanLink(inodes, refs, d, k, i, name)
    ensures Inv(Linked(inodes, d, k, i, name), refs)
  {
    hide CountsOk, TreeOk, Put, DeadOk;
    LinkCountsKept(inodes, refs, d, k, i, name);
    NotLiveZero(inodes, refs);
    TreePut(inodes, d, k, Entry(i, name), Linked(inodes, d, k, i, name), i);
  }

  // ---------- create ----------

  function NewEntries(kind: Kind, i: nat, d: nat): seq<Entry> {
    if kind == Dir then [Entry(i, "."), Entry(d, "..")] else []
  }

  function Created(inodes: seq<Inode>, d: nat, k: nat, i: nat, name: string, kind: Kind): seq<Inode>
    requires d < |inodes| && i < |inodes| && k <= |inodes[d].entries|
  {
    inodes[i := Inode(kind, 1, NewEntries(kind, i, d))]
          [d := Inode(Dir, Wrap(inodes[d].nlink + One(kind == Dir)), Put(inodes[d].entries, k, Entry(i, name)))]
  }

  ghost predicate CanCreate(inodes: seq<Inode>, refs: seq<nat>, d: nat, k: nat, i: nat, name: string, kind: Kind) {
    && Inv(inodes, refs) && 0 < d < |inodes| && 0 < i < |inodes| && Live(inodes[d]) && Slot(inodes[d].entries, k)
      && Absent(inodes[d].entries, name)
    && inodes[i].kind == None && kind != None && name != "." && (kind == Dir ==> inodes[d].nlink < MAXLINK)
  }

  lemma NewDirLinks(i: nat, d: nat, x: nat)
    requires i != 0 && d != 0
    ensures Names([Entry(i, "."), Entry(d, "..")], x) == One(x == d) && Names([], x) == 0
  {
    var es := [Entry(i, "."), Entry(d, "..")];
    assert es[..1] == [Entry(i, ".")] && es[..1][..0] == [];
    assert Names(es[..1], x) == Names([], x) + One(Links(Entry(i, "."), x));
  }

  lemma CreateCounts(inodes: seq<Inode>, refs: seq<nat>, d: nat, k: nat, i: nat, name: string, kind: Kind)
    requires CanCreate(inodes, refs, d, k, i, name, kind)
    ensures CountsOk(Created(inodes, d, k, i, name, kind))
  {
    hide Count, Put, Names, TreeOk;
    var fresh' := Inode(kind, 1, NewEntries(kind, i, d));
    var mid, inodes' := inodes[i := fresh'], Created(inodes, d, k, i, name, kind);
    forall x: nat | 0 < x < |inodes'| ensures inodes'[x].nlink == Count(inodes', x) {
      NewDirLinks(i, d, x);
      CountSet(inodes, i, fresh', x);
      CountPut(mid, d, k, Entry(i, name), Wrap(inodes[d].nlink + One(kind == Dir)), x);
    }
  }

  /** Nothing names a free inode. */
  lemma Unnamed(inodes: seq<Inode>, refs: seq<nat>, i: nat)
    requires Inv(inodes, refs) && 0 < i < |inodes| && inodes[i].nlink == 0
    ensures forall p: nat, j: nat :: p < |inodes| && Live(inodes[p]) && 2 <= j < |inodes[p].entries| ==>
        inodes[p].entries[j].inum != i
  {
    hide TreeOk;
    forall p: nat, j: nat | p < |inodes| && Live(inodes[p]) && 2 <= j < |inodes[p].entries|
        ensures inodes[p].entries[j].inum != i {
      if inodes[p].entries[j].inum == i {
        EntryNamed(inodes, p, j);
        CountHas(inodes, i, p, j);
        assert false;
      }
    }
  }

  lemma CreateKeeps(inodes: seq<Inode>, refs: seq<nat>, d: nat, k: nat, i: nat, name: string, kind: Kind)
    requires CanCreate(inodes, refs, d, k, i, name, kind)
    ensures Inv(Created(inodes, d, k, i, name, kind), refs)
  {
    hide CountsOk, TreeOk, Put, DeadOk;
    CreateCounts(inodes, refs, d, k, i, name, kind);
    NotLiveZero(inodes, refs);
    Unnamed(inodes, refs, i);
    TreePut(inodes, d, k, Entry(i, name), Created(inodes, d, k, i, name, kind), i);
  }

  // ---------- unlink ----------

  ghost predicate CanUnlink(inodes: seq<Inode>, refs: seq<nat>, d: nat, k: nat) {
    && Inv(inodes, refs) && 0 < d < |inodes| && Live(inodes[d]) && 2 <= k < |inodes[d].entries|
    && var e := inodes[d].entries[k].inum;
    0 < e < |inodes| && e != d && (inodes[e].kind == Dir ==> forall j :: 2 <= j < |inodes[e].entries| ==>
      inodes[e].entries[j].inum == 0)
  }

  function Unlinked(inodes: seq<Inode>, d: nat, k: nat): (inodes': seq<Inode>)
    requires d < |inodes| && k < |inodes[d].entries| && inodes[d].entries[k].inum < |inodes|
        && inodes[d].entries[k].inum != d
    ensures |inodes'| == |inodes|
  {
    var e := inodes[d].entries[k].inum;
    inodes[d := Inode(inodes[d].kind, Wrap(inodes[d].nlink - One(inodes[e].kind == Dir)),
      inodes[d].entries[k := Entry(0, "")])]
          [e := inodes[e].(nlink := Wrap(inodes[e].nlink - 1))]
  }

  /** A directory that has a directory in it has two links: its own place and the other's "..". */
  lemma ParentTwoLinks(inodes: seq<Inode>, refs: seq<nat>, d: nat, k: nat)
    requires CanUnlink(inodes, refs, d, k) && inodes[inodes[d].entries[k].inum].kind == Dir
    ensures inodes[d].nlink >= 2
  {
    var e := inodes[d].entries[k].inum;
    EntryAllocated(inodes, refs, d, k);
    TreeAt(inodes, d, k);
    DirAt(inodes, e);
    hide TreeOk, UseOk;
    var x := inodes[e].(entries := inodes[e].entries[1 := Entry(0, "")]);
    NamesSet(inodes[e].entries, 1, Entry(0, ""), d);
    CountSet(inodes, e, x, d);
    var rest := inodes[e := x];
    var p := inodes[d].entries[1].inum;
    if d == ROOT {
      CountHas(rest, d, d, 1);
    } else {
      var j :| 2 <= j < |inodes[p].entries| && inodes[p].entries[j].inum == d;
      HasPlace(inodes, refs, p, j, e, x, d);
    }
  }

  lemma HasPlace(inodes: seq<Inode>, refs: seq<nat>, p: nat, j: nat, e: nat, x: Inode, d: nat)
    requires Inv(inodes, refs) && p < |inodes| && Live(inodes[p]) && 2 <= j < |inodes[p].entries|
        && inodes[p].entries[j].inum == d && d != 0
    requires e < |inodes| && e != p
    ensures Count(inodes[e := x], d) > 0
  {
    hide TreeOk;
    EntryNamed(inodes, p, j);
    CountHas(inodes[e := x], d, p, j);
  }

  /** An empty directory links only to its parent. */
  lemma {:induction false} EmptyLinks(es: seq<Entry>, e: nat, d: nat, x: nat)
    requires |es| >= 2 && es[0] == Entry(e, ".") && es[1].inum == d && es[1].name == ".." && d != 0
        && forall j :: 2 <= j < |es| ==> es[j].inum == 0
    ensures Names(es, x) == One(x == d)
  {
    var n := |es| - 1;
    if n == 1 {
      assert es[..1][..0] == [];
      assert Names(es[..1], x) == Names([], x) + One(Links(es[0], x));
    } else {
      EmptyLinks(es[..n], e, d, x);
    }
  }

  /** What unlink knows of the inode it unlinks. */
  lemma Victim(inodes: seq<Inode>, refs: seq<nat>, d: nat, k: nat)
    requires CanUnlink(inodes, refs, d, k)
    ensures
      var e := inodes[d].entries[k].inum;
      && inodes[e].nlink >= 1 && inodes[e].kind != None && inodes[d].entries[k].name != "." && e != ROOT
      && (inodes[e].kind == Dir ==>
            && inodes[e].nlink == 1 && inodes[d].nlink >= 2 && |inodes[e].entries| >= 2
            && inodes[e].entries[0] == Entry(e, ".") && inodes[e].entries[1] == Entry(d, ".."))
  {
    var e := inodes[d].entries[k].inum;
    EntryAllocated(inodes, refs, d, k);
    EntryNamed(inodes, d, k);
    if inodes[e].kind == Dir {
      EmptyDirOneLink(inodes, refs, d, k);
      ParentTwoLinks(inodes, refs, d, k);
      TreeAt(inodes, d, k);
      DirAt(inodes, e);
    }
  }

  lemma UnlinkCounts(inodes: seq<Inode>, refs: seq<nat>, d: nat, k: nat)
    requires CanUnlink(inodes, refs, d, k)
    ensures inodes[inodes[d].entries[k].inum].nlink >= 1 && CountsOk(Unlinked(inodes, d, k))
  {
    hide Count, Names, TreeOk;
    Victim(inodes, refs, d, k);
    var e := inodes[d].entries[k].inum;
    var inodes' := Unlinked(inodes, d, k);
    var mid := inodes[d := inodes'[d]];
    forall x: nat | 0 < x < |inodes'| ensures inodes'[x].nlink == Count(inodes', x) {
      NamesSet(inodes[d].entries, k, Entry(0, ""), x);
      CountSet(inodes, d, inodes'[d], x);
      CountSet(mid, e, inodes'[e], x);
      if inodes[e].kind == Dir { EmptyLinks(inodes[e].entries, e, d, x); }
    }
  }

  lemma DirClear(n: nat, d: nat, es: seq<Entry>, k: nat)
    requires DirOk(n, d, es) && 2 <= k < |es| && n > 0
    ensures DirOk(n, d, es[k := Entry(0, "")])
  {
  }

  lemma UnlinkTree(inodes: seq<Inode>, refs: seq<nat>, d: nat, k: nat)
    requires CanUnlink(inodes, refs, d, k)
    ensures inodes[inodes[d].entries[k].inum].nlink >= 1 && TreeOk(Unlinked(inodes, d, k))
  {
    hide DirOk, EntryOk, PlaceOk, CountsOk;
    Victim(inodes, refs, d, k);
    var e := inodes[d].entries[k].inum;
    var inodes' := Unlinked(inodes, d, k);
    DirAt(inodes, d);
    DirClear(|inodes|, d, inodes[d].entries, k);
    forall p: nat, j: nat | p < |inodes'| && Live(inodes'[p]) && j < |inodes'[p].entries|
        ensures EntryOk(inodes', p, j) {
      EntryClear(inodes, refs, d, k, p, j);
    }
    forall p: nat | p < |inodes'| && Live(inodes'[p]) ensures PlaceOk(inodes', p) {
      PlaceClear(inodes, refs, d, k, p);
    }
  }

  lemma EntryClear(inodes: seq<Inode>, refs: seq<nat>, d: nat, k: nat, p: nat, j: nat)
    requires CanUnlink(inodes, refs, d, k) && inodes[inodes[d].entries[k].inum].nlink >= 1
    requires var inodes' := Unlinked(inodes, d, k); p < |inodes'| && Live(inodes'[p]) && j < |inodes'[p].entries|
    ensures EntryOk(Unlinked(inodes, d, k), p, j)
  {
    hide CountsOk, DirOk, PlaceOk;
    assert EntryOk(inodes, p, j);
  }

  lemma PlaceClear(inodes: seq<Inode>, refs: seq<nat>, d: nat, k: nat, p: nat)
    requires CanUnlink(inodes, refs, d, k) && inodes[inodes[d].entries[k].inum].nlink >= 1
    requires var inodes' := Unlinked(inodes, d, k); p < |inodes'| && Live(inodes'[p])
    ensures PlaceOk(Unlinked(inodes, d, k), p)
  {
    hide CountsOk, DirOk, EntryOk, TreeOk, UseOk;
    Victim(inodes, refs, d, k);
    DirAt(inodes, p);
    var e, q := inodes[d].entries[k].inum, inodes[p].entries[1].inum;
    if p != ROOT {
      var j :| 2 <= j < |inodes[q].entries| && inodes[q].entries[j].inum == p;
      NotZero(inodes, refs, p);
      assert Unlinked(inodes, d, k)[q].entries[j].inum == p;
    }
  }

  lemma NotZero(inodes: seq<Inode>, refs: seq<nat>, p: nat)
    requires UseOk(inodes, refs) && p < |inodes| && Live(inodes[p])
    ensures p != 0
  {
  }

  /** unlink keeps everything, except that the inode it unlinked may now be due to be freed. */
  lemma UnlinkKeeps(inodes: seq<Inode>, refs: seq<nat>, d: nat, k: nat, refs': seq<nat>)
    requires CanUnlink(inodes, refs, d, k)
    requires var e := inodes[d].entries[k].inum; refs' == refs[e := refs[e] + 1]
    ensures inodes[inodes[d].entries[k].inum].nlink >= 1 && Inv(Unlinked(inodes, d, k), refs')
  {
    hide CountsOk, TreeOk, DeadsOk;
    UnlinkCounts(inodes, refs, d, k);
    UnlinkTree(inodes, refs, d, k);
    UnlinkDeads(inodes, refs, d, k);
    Victim(inodes, refs, d, k);
  }

  /** What unlink leaves without a link is an empty directory under another. */
  lemma UnlinkDeads(inodes: seq<Inode>, refs: seq<nat>, d: nat, k: nat)
    requires CanUnlink(inodes, refs, d, k)
    ensures DeadsOk(Unlinked(inodes, d, k))
  {
    Victim(inodes, refs, d, k);
    hide CountsOk, TreeOk, UseOk;
  }

  // ---------- the last reference goes ----------

  /** iput on what it is the last to have: an inode without links is freed. */
  function Dropped(inodes: seq<Inode>, refs: seq<nat>, i: nat): seq<Inode>
    requires i < |inodes| && i < |refs|
  {
    if refs[i] == 1 && inodes[i].nlink == 0 then inodes[i := FREE] else inodes
  }

  lemma DropKeeps(inodes: seq<Inode>, refs: seq<nat>, i: nat)
    requires Inv(inodes, refs) && 0 < i < |inodes| && refs[i] >= 1
    ensures Inv(Dropped(inodes, refs, i), refs[i := refs[i] - 1])
  {
    if refs[i] == 1 && inodes[i].nlink == 0 {
      var inodes' := inodes[i := FREE];
      Unnamed(inodes, refs, i);
      hide Count, DirOk;
      forall x: nat | 0 < x < |inodes'| ensures inodes'[x].nlink == Count(inodes', x) {
        CountSet(inodes, i, FREE, x);
      }
      FreeTree(inodes, refs, i);
    }
  }

  lemma FreeTree(inodes: seq<Inode>, refs: seq<nat>, i: nat)
    requires Inv(inodes, refs) && 0 < i < |inodes| && inodes[i].nlink == 0
    ensures TreeOk(inodes[i := FREE])
  {
    hide CountsOk, UseOk, DirOk;
    var inodes' := inodes[i := FREE];
    forall p: nat, j: nat | p < |inodes'| && Live(inodes'[p]) && j < |inodes'[p].entries|
        ensures EntryOk(inodes', p, j) {
      assert EntryOk(inodes, p, j);
    }
    forall p: nat | p < |inodes'| && Live(inodes'[p]) ensures PlaceOk(inodes', p) {
      assert PlaceOk(inodes, p);
    }
  }

  // ---------- the beginning ----------

  /** The file system mkfs makes: a root that is its own parent, and free inodes. */
  predicate Initial(inodes: seq<Inode>) {
    && |inodes| > ROOT
    && forall i: nat :: i < |inodes| ==>
      inodes[i] == if i == ROOT then Inode(Dir, 1, [Entry(ROOT, "."), Entry(ROOT, "..")]) else FREE
  }

  lemma InitHolds(inodes: seq<Inode>, refs: seq<nat>)
    requires Initial(inodes) && |refs| == |inodes| && (forall i :: 0 <= i < |refs| ==> refs[i] == 0)
    ensures Inv(inodes, refs)
  {
    forall i: nat | 0 < i < |inodes| ensures inodes[i].nlink == Count(inodes, i) {
      NewDirLinks(ROOT, ROOT, i);
      OnlyRoot(inodes, i, |inodes|);
      assert inodes[..|inodes|] == inodes;
    }
  }

  lemma {:induction false} OnlyRoot(inodes: seq<Inode>, i: nat, n: nat)
    requires Initial(inodes) && n <= |inodes| && i > 0
    ensures Count(inodes[..n], i) == One(n > ROOT && i == ROOT)
  {
    NewDirLinks(ROOT, ROOT, i);
    if n > 0 {
      OnlyRoot(inodes, i, n - 1);
      assert inodes[..n][..n - 1] == inodes[..n - 1];
    }
  }

  // ---------- a parent that has itself been unlinked ----------

  /** link keeps the counts right if and only if the parent is itself linked and the count has room: else
      the file has a link too many, or its count wraps. */
  lemma LinkKeepsCounts(inodes: seq<Inode>, refs: seq<nat>, d: nat, k: nat, i: nat, name: string)
    requires Inv(inodes, refs) && 0 < d < |inodes| && 0 < i < |inodes| && inodes[d].kind == Dir
    requires Slot(inodes[d].entries, k) && Absent(inodes[d].entries, name)
    requires (inodes[i].kind == File || inodes[i].kind == Device) && name != "."
    ensures CountsOk(Linked(inodes, d, k, i, name)) <==> Live(inodes[d]) && inodes[i].nlink < MAXLINK
  {
    hide TreeOk, Count, Put;
    if Live(inodes[d]) && inodes[i].nlink < MAXLINK {
      LinkCountsKept(inodes, refs, d, k, i, name);
    } else {
      var mid := inodes[i := inodes[i].(nlink := Wrap(inodes[i].nlink + 1))];
      var inodes' := Linked(inodes, d, k, i, name);
      CountSet(inodes, i, mid[i], i);
      CountSet(mid, d, inodes'[d], i);
      if Live(inodes[d]) { NamesPut(inodes[d].entries, k, Entry(i, name), i); }
      assert inodes'[i].nlink != Count(inodes', i);
    }
  }

  /** create keeps the counts right if and only if the parent is itself linked and, for a directory, its
      count has room. A directory made in an unlinked parent brings the parent back, and with it a
      link to what the parent's ".." names. */
  lemma CreateKeepsCounts(inodes: seq<Inode>, refs: seq<nat>, d: nat, k: nat, i: nat, name: string, kind: Kind)
    requires Inv(inodes, refs) && 0 < d < |inodes| && 0 < i < |inodes| && inodes[d].kind == Dir
    requires Slot(inodes[d].entries, k) && Absent(inodes[d].entries, name)
    requires inodes[i].kind == None && kind != None && name != "."
    ensures CountsOk(Created(inodes, d, k, i, name, kind)) <==>
        Live(inodes[d]) && (kind == Dir ==> inodes[d].nlink < MAXLINK)
  {
    hide TreeOk, Count, Put, CountsOk;
    if !Live(inodes[d]) {
      CreateInDead(inodes, refs, d, k, i, name, kind);
    } else if kind == Dir && inodes[d].nlink == MAXLINK {
      NegativeCount(Created(inodes, d, k, i, name, kind), d);
    } else {
      CreateCounts(inodes, refs, d, k, i, name, kind);
    }
  }

  lemma NegativeCount(inodes: seq<Inode>, d: nat)
    requires 0 < d < |inodes| && inodes[d].nlink < 0
    ensures !CountsOk(inodes)
  {
  }

  lemma CreateInDead(inodes: seq<Inode>, refs: seq<nat>, d: nat, k: nat, i: nat, name: string, kind: Kind)
    requires Inv(inodes, refs) && 0 < d < |inodes| && 0 < i < |inodes| && inodes[d].kind == Dir && !Live(inodes[d])
    requires Slot(inodes[d].entries, k) && inodes[i].kind == None && kind != None && name != "."
    ensures !CountsOk(Created(inodes, d, k, i, name, kind))
  {
    hide TreeOk, Count, Put, Names;
    var mid := inodes[i := Inode(kind, 1, NewEntries(kind, i, d))];
    var inodes' := Created(inodes, d, k, i, name, kind);
    assert DeadOk(|inodes|, d, inodes[d].entries);
    var p := inodes[d].entries[1].inum;
    var x := if kind == Dir then p else i;
    NewDirLinks(i, d, x);
    CountSet(inodes, i, mid[i], x);
    CountSet(mid, d, inodes'[d], x);
    NamesPut(inodes[d].entries, k, Entry(i, name), x);
    NamesSet(inodes[d].entries, 1, inodes[d].entries[1], x);
    assert inodes'[x].nlink != Count(inodes', x);
  }

  /** One link more than the count holds, and removing it meets the panic. */
  lemma OneLinkTooMany(inodes: seq<Inode>, d: nat, k: nat, i: nat, name: string)
    requires d < |inodes| && i < |inodes| && Live(inodes[d]) && inodes[i].kind != Dir
    requires Slot(inodes[d].entries, k) && inodes[i].nlink == MAXLINK
    ensures
      var inodes' := Linked(inodes, d, k, i, name);
      k < |inodes'[d].entries| && inodes'[d].entries[k] == Entry(i, name) && inodes'[i].nlink < 1
  {
  }

  /** Directories with a parent that is gone exist: make one, and remove it while it is somebody's current
      directory. A file made there has a link too many. */
  lemma UnlinkedParentExample() returns (made: seq<Inode>, removed: seq<Inode>)
    ensures
      var root := Inode(Dir, 1, [Entry(ROOT, "."), Entry(ROOT, "..")]);
      && CanCreate([FREE, root, FREE, FREE], [0, 0, 0, 0], ROOT, 2, 2, "d", Dir)
      && made == Created([FREE, root, FREE, FREE], ROOT, 2, 2, "d", Dir)
      && CanUnlink(made, [0, 0, 1, 0], ROOT, 2) && removed == Unlinked(made, ROOT, 2)
      && Inv(removed, [0, 0, 2, 0]) && |removed| == 4 && removed[2].kind == Dir && |removed[2].entries| == 2
      && !CountsOk(Created(removed, 2, 2, 3, "f", File))
  {
    var root := Inode(Dir, 1, [Entry(ROOT, "."), Entry(ROOT, "..")]);
    var start := [FREE, root, FREE, FREE];
    InitHolds(start, [0, 0, 0, 0]);
    made := Created(start, ROOT, 2, 2, "d", Dir);
    CreateKeeps(start, [0, 0, 0, 0], ROOT, 2, 2, "d", Dir);
    Referenced(made, [0, 0, 0, 0], 2);
    removed := Unlinked(made, ROOT, 2);
    assert made[ROOT].entries[2] == Entry(2, "d") && made[2].entries == [Entry(2, "."), Entry(ROOT, "..")];
    UnlinkKeeps(made, [0, 0, 1, 0], ROOT, 2, [0, 0, 2, 0]);
    CreateKeepsCounts(removed, [0, 0, 2, 0], 2, 2, 3, "f", File);
  }

  lemma Referenced(inodes: seq<Inode>, refs: seq<nat>, i: nat)
    requires Inv(inodes, refs) && i < |inodes| && inodes[i].kind != None
    ensures |refs| == |inodes| && Inv(inodes, refs[i := refs[i] + 1])
  {
    hide CountsOk, TreeOk, DeadsOk;
  }
}
