/** dirlookup and dirlink of kernel/fs.c on the bytes of a directory's file: 16-byte entries read by readi and
    written by writei, proved against the entries that LinkCounts and LinkRuns reason about. */
module DirBytes {
  import opened Blocks
  import opened FileBlocks
  import opened FileLog
  import opened FileSys
  import opened FileRemove
  import opened Machine
  import L = LinkCounts
  import R = LinkRuns

  const DIRSIZ: nat := 14
  const USHORT: nat := 0x1_0000

  // ---------- an entry ----------

  /** The characters before the terminating zero. */
  function NameOf(bs: seq<Byte>): string {
    if bs == [] || bs[0] == 0 then "" else [bs[0] as char] + NameOf(bs[1..])
  }

  /** The characters of a C string are bytes other than zero. */
  predicate IsName(name: string) {
    forall k :: 0 <= k < |name| ==> 0 < name[k] as int < 256
  }

  /** What an entry can hold of a name. */
  function Short(name: string): string {
    if |name| <= DIRSIZ then name else name[..DIRSIZ]
  }

  /** Byte k of a C string. */
  function CharAt(name: string, k: nat): Byte {
    if k < |name| && name[k] as int < 256 then name[k] as nat else 0
  }

  function Padded(name: string): (bs: seq<Byte>)
    ensures |bs| == DIRSIZ
  {
    seq(DIRSIZ, k requires 0 <= k => CharAt(name, k))
  }

  /** struct dirent. */
  function DirentOf(b: seq<Byte>): L.Entry
    requires |b| == DIRENT
  {
    L.Entry(b[0] as nat + 256 * b[1] as nat, NameOf(b[2..]))
  }

  function Dirent(inum: nat, name: string): (b: seq<Byte>)
    ensures |b| == DIRENT
  {
    [inum % 256, inum / 256 % 256] + Padded(name)
  }

  /** The entries in a directory's bytes; a rest shorter than an entry is none. */
  function Entries(c: seq<Byte>): (es: seq<L.Entry>)
    ensures |es| == |c| / DIRENT
  {
    seq(|c| / DIRENT, k requires 0 <= k < |c| / DIRENT => DirentOf(c[DIRENT * k..DIRENT * k + DIRENT]))
  }

  lemma {:induction false} NameAt(bs: seq<Byte>)
    ensures |NameOf(bs)| <= |bs| && (|NameOf(bs)| < |bs| ==> bs[|NameOf(bs)|] == 0)
    ensures forall k :: 0 <= k < |NameOf(bs)| ==> bs[k] != 0 && NameOf(bs)[k] == bs[k] as char
  {
    if bs != [] && bs[0] != 0 { NameAt(bs[1..]); }
  }

  /** A name is what its bytes say up to the first zero. */
  lemma {:induction false} NameIs(bs: seq<Byte>, name: string)
    requires |name| <= |bs| && (|name| < |bs| ==> bs[|name|] == 0)
    requires forall k :: 0 <= k < |name| ==> bs[k] != 0 && name[k] == bs[k] as char
    ensures NameOf(bs) == name
  {
    if bs != [] && bs[0] != 0 {
      NameIs(bs[1..], name[1..]);
      assert name == [name[0]] + name[1..];
    }
  }

  /** An entry comes back as it was stored: the number as a ushort, and as much of the name as there is room for. */
  lemma DirentBack(inum: nat, name: string)
    requires IsName(name)
    ensures DirentOf(Dirent(inum, name)) == L.Entry(inum % USHORT, Short(name))
  {
    var b := Dirent(inum, name);
    assert b[2..] == Padded(name);
    NameIs(Padded(name), Short(name));
  }

  /** strncmp(name, bs, DIRSIZ) == 0. */
  method Namecmp(name: string, bs: seq<Byte>) returns (same: bool)
    requires IsName(name) && |bs| == DIRSIZ
    ensures same <==> NameOf(bs) == Short(name)
  {
    var k := 0;
    while k < DIRSIZ && CharAt(name, k) != 0 && CharAt(name, k) == bs[k]
      invariant k <= DIRSIZ && k <= |name|
      invariant forall j :: 0 <= j < k ==> bs[j] != 0 && name[j] == bs[j] as char
    {
      k := k + 1;
    }
    NameAt(bs);
    if k == DIRSIZ || CharAt(name, k) == bs[k] {
      assert Short(name) == name[..k];
      NameIs(bs, name[..k]);
      same := true;
    } else {
      same := false;
      Differs(bs, name, k);
    }
  }

  lemma Differs(bs: seq<Byte>, name: string, k: nat)
    requires IsName(name) && |bs| == DIRSIZ && k < DIRSIZ && k <= |name| && CharAt(name, k) != bs[k]
    ensures NameOf(bs) != Short(name)
  {
    if NameOf(bs) == Short(name) { SameChar(bs, name, k); }
  }

  lemma SameChar(bs: seq<Byte>, name: string, k: nat)
    requires |bs| == DIRSIZ && k < DIRSIZ && k <= |name| && NameOf(bs) == Short(name)
    ensures CharAt(name, k) == bs[k]
  {
    NameAt(bs);
  }

  /** strncpy(de.name, name, DIRSIZ). */
  method Strncpy(name: string) returns (bs: seq<Byte>)
    requires IsName(name)
    ensures bs == Padded(name)
  {
    bs := [];
    var c: Byte := 1;
    while |bs| < DIRSIZ && c != 0
      invariant |bs| <= DIRSIZ && bs == Padded(name)[..|bs|] && (c == 0 ==> |bs| > |name|)
      decreases DIRSIZ - |bs|, c
    {
      c := CharAt(name, |bs|);
      bs := bs + [c];
    }
    while |bs| < DIRSIZ
      invariant |bs| <= DIRSIZ && (|bs| < DIRSIZ ==> |bs| > |name|) && bs == Padded(name)[..|bs|]
    {
      bs := bs + [0];
    }
  }

  // ---------- a directory ----------

  lemma EntryAt(c: seq<Byte>, k: nat)
    requires k < |c| / DIRENT
    ensures DIRENT * k + DIRENT <= |c| && Entries(c)[k] == DirentOf(c[DIRENT * k..DIRENT * k + DIRENT])
  {
  }

  /** Writing an entry over an entry, or after the last one, changes that entry alone. */
  lemma EntriesPut(c: seq<Byte>, k: nat, b: seq<Byte>)
    requires |c| % DIRENT == 0 && k <= |c| / DIRENT && |b| == DIRENT
    ensures DIRENT * k <= |c| && Entries(Splice(c, DIRENT * k, b)) == L.Put(Entries(c), k, DirentOf(b))
  {
    hide DirentOf;
    var c' := Splice(c, DIRENT * k, b);
    var es, es' := Entries(c), Entries(c');
    assert |es'| == if k < |es| then |es| else |es| + 1;
    forall j: nat | j < |es'| ensures es'[j] == if j == k then DirentOf(b) else es[j] {
      EntryAt(c', j);
      if j == k {
        assert c'[DIRENT * j..DIRENT * j + DIRENT] == b;
      } else {
        EntryAt(c, j);
        assert c'[DIRENT * j..DIRENT * j + DIRENT] == c[DIRENT * j..DIRENT * j + DIRENT];
      }
    }
  }

  /** What dirlookup comes to: the offset of the entry, none, or the panic over a size that is no whole number of
      entries. */
  datatype Found = At(off: nat) | Nowhere | Panic

  ghost predicate LooksUp(c: seq<Byte>, name: string, r: Found) {
    var es := Entries(c);
    match r
    case At(off) => !L.Absent(es, name) && off == DIRENT * R.SlotOf(es, name)
    case Nowhere => L.Absent(es, name) && |c| % DIRENT == 0
    case Panic => L.Absent(es, name) && |c| % DIRENT != 0
  }

  /** readi of the entry at off: the next entry, or too few bytes. */
  method ReadEntry(f: FileSystem, d: nat, off: nat) returns (r: int, de: seq<Byte>)
    requires f.Valid() && LayoutOk(f.Fs()) && d < |f.inodes| && off % DIRENT == 0 && off < f.inodes[d].size
    modifies f`blocks, f`inodes, f`logged, f`owner
    ensures f.Fs() == old(f.Fs()) && f.logged == old(f.logged) && f.owner == old(f.owner) && f.Valid()
    ensures r == DIRENT <==> off / DIRENT < |Contents(f.Fs(), d)| / DIRENT
    ensures r == DIRENT ==> |de| == DIRENT && DirentOf(de) == Entries(Contents(f.Fs(), d))[off / DIRENT]
    ensures r != DIRENT ==> f.inodes[d].size % DIRENT != 0 && off / DIRENT == f.inodes[d].size / DIRENT
  {
    hide Own, Contents, DirentOf, Entries, FileOk;
    SizeFits(f, d);
    r, de := f.Readi(d, off, DIRENT, (t: nat) => true);
    ghost var c := Contents(f.Fs(), d);
    assert off == DIRENT * (off / DIRENT);
    if off / DIRENT < |c| / DIRENT {
      EntryAt(c, off / DIRENT);
    }
  }

  lemma SizeFits(f: FileSystem, d: nat)
    requires f.Valid() && d < |f.inodes|
    ensures f.inodes[d].size <= MAXFILE * BSIZE
  {
    assert FileOk(f.Fs(), d);
  }

  /** dirlookup. */
  method Dirlookup(f: FileSystem, d: nat, name: string) returns (r: Found)
    requires f.Valid() && LayoutOk(f.Fs()) && d < |f.inodes| && IsName(name)
    modifies f`blocks, f`inodes, f`logged, f`owner
    ensures f.Fs() == old(f.Fs()) && f.logged == old(f.logged) && f.owner == old(f.owner) && f.Valid()
    ensures LooksUp(Contents(f.Fs(), d), Short(name), r)
  {
    hide FileSystem.Valid, LayoutOk, Contents, Entries, DirentOf, NameOf, Short;
    ghost var fs := f.Fs();
    ghost var es := Entries(Contents(fs, d));
    var off := 0;
    while off < f.inodes[d].size
      invariant f.Fs() == fs && f.logged == old(f.logged) && f.owner == old(f.owner) && f.Valid()
      invariant off % DIRENT == 0 && off / DIRENT <= |es|
      invariant off >= f.inodes[d].size ==> off / DIRENT == |es| && f.inodes[d].size % DIRENT == 0
      invariant forall k :: 0 <= k < off / DIRENT ==> !R.Called(es[k], Short(name))
    {
      var n, de := ReadEntry(f, d, off);
      if n != DIRENT {
        R.SlotOfIs(es, Short(name), |es|);
        return Panic;
      }
      EntryIs(de);
      if de[0] as nat + 256 * de[1] as nat != 0 {
        var same := Namecmp(name, de[2..]);
        if same {
          R.SlotOfIs(es, Short(name), off / DIRENT);
          return At(off);
        }
      }
      off := off + DIRENT;
    }
    R.SlotOfIs(es, Short(name), |es|);
    r := Nowhere;
  }

  lemma EntryIs(de: seq<Byte>)
    requires |de| == DIRENT
    ensures DirentOf(de) == L.Entry(de[0] as nat + 256 * de[1] as nat, NameOf(de[2..]))
  {
  }

  /** dirlink's search: the offset of the first free entry, or the end of the directory. */
  method FreeEntry(f: FileSystem, d: nat) returns (off: nat)
    requires f.Valid() && LayoutOk(f.Fs()) && d < |f.inodes| && f.inodes[d].size % DIRENT == 0
    modifies f`blocks, f`inodes, f`logged, f`owner
    ensures f.Fs() == old(f.Fs()) && f.logged == old(f.logged) && f.owner == old(f.owner) && f.Valid()
    ensures off == DIRENT * R.FirstFree(Entries(Contents(f.Fs(), d)))
  {
    hide FileSystem.Valid, LayoutOk, Contents, Entries, DirentOf, NameOf;
    ghost var fs := f.Fs();
    ghost var es := Entries(Contents(fs, d));
    off := 0;
    while off < f.inodes[d].size
      invariant f.Fs() == fs && f.logged == old(f.logged) && f.owner == old(f.owner) && f.Valid()
      invariant off % DIRENT == 0 && off / DIRENT <= |es|
      invariant off >= f.inodes[d].size ==> off / DIRENT == |es|
      invariant forall k :: 0 <= k < off / DIRENT ==> es[k].inum != 0
    {
      var n, de := ReadEntry(f, d, off);
      assert n == DIRENT;
      EntryIs(de);
      if de[0] as nat + 256 * de[1] as nat == 0 {
        break;
      }
      off := off + DIRENT;
    }
    R.FirstFreeIs(es, off / DIRENT);
  }

  /** writei of one entry goes in whole or not at all, and not at all only where a block is missing. */
  method WriteEntry(f: FileSystem, d: nat, off: nat, de: seq<Byte>) returns (r: int)
    requires f.Valid() && LayoutOk(f.Fs()) && d < |f.inodes| && off % DIRENT == 0 && off <= f.inodes[d].size
    requires f.inodes[d].size % DIRENT == 0 && |de| == DIRENT
    modifies f
    ensures f.Valid() && LayoutOk(old(f.Fs())) && LayoutOk(f.Fs()) && |f.inodes| == old(|f.inodes|)
    ensures off <= |Contents(old(f.Fs()), d)|
    ensures r == DIRENT ==> Contents(f.Fs(), d) == Splice(Contents(old(f.Fs()), d), off, de)
    ensures r != DIRENT ==> Contents(f.Fs(), d) == Contents(old(f.Fs()), d)
    ensures forall k: nat :: k < |f.inodes| && k != d ==> Contents(f.Fs(), k) == Contents(old(f.Fs()), k)
    ensures r != DIRENT ==> off == old(f.inodes)[d].size && (off + DIRENT > MAXFILE * BSIZE || Full(f.Fs()))
  {
    hide LayoutOk, Contents, Own, Passes, Logs, LogsAll, Full, LogBound, Splice, Gains, Addr, FileOk, OnlyInode;
    ghost var fs0 := f.Fs();
    ghost var inside := off < f.inodes[d].size;
    SizeFits(f, d);
    if inside { HasEntry(f, d, off); }
    ghost var ps;
    r, ps := f.Writei(d, off, de, (t: nat) => true);
    f.ValidLaidOut();
    if r != -1 {
      OneBlock(off, r, ps);
      if inside { OnePass(fs0, f.Fs(), d, off, ps); }
      if r < DIRENT {
        NoneOfIt(off, r, ps);
        SpliceNothing(Contents(fs0, d), off);
      }
      assert de[..r] == if r == DIRENT then de else [];
    }
  }

  lemma HasEntry(f: FileSystem, d: nat, off: nat)
    requires f.Valid() && LayoutOk(f.Fs()) && d < |f.inodes| && off < f.inodes[d].size
    requires off % DIRENT == 0 && f.inodes[d].size % DIRENT == 0
    ensures off + DIRENT <= f.inodes[d].size && off / BSIZE < MAXFILE && Addr(f.Fs(), d, off / BSIZE) != 0
  {
    hide Own, Addr, FileOk;
    assert FileOk(f.Fs(), d);
    FileHasBlock(f.Fs(), f.owner, d, off);
  }

  lemma NoneOfIt(off: nat, tot: nat, ps: seq<Pass>)
    requires off % DIRENT == 0 && Ended(off, DIRENT, tot, ps) && tot < DIRENT
    ensures tot == 0
  {
    Within(off, tot);
  }

  /** What dirlink comes to. */
  datatype Linking = Done | Refused | Panicked

  /** The disk or the directory has no room for another entry. */
  ghost predicate NoRoom(fs: FS, es: seq<L.Entry>)
    requires LayoutOk(fs)
  {
    R.FirstFree(es) == |es| && (DIRENT * |es| + DIRENT > MAXFILE * BSIZE || Full(fs))
  }

  /** dirlink: the entry goes into the first free slot of the directory and no other file changes. It is refused if
      the name is there, or if the directory has to grow and cannot; then nothing changes. */
  method Dirlink(f: FileSystem, d: nat, name: string, inum: nat) returns (r: Linking)
    requires f.Valid() && LayoutOk(f.Fs()) && d < |f.inodes| && IsName(name)
    modifies f
    ensures f.Valid() && LayoutOk(old(f.Fs())) && LayoutOk(f.Fs()) && |f.inodes| == old(|f.inodes|)
    ensures forall k: nat :: k < |f.inodes| && k != d ==> Contents(f.Fs(), k) == Contents(old(f.Fs()), k)
    ensures
      var c, c' := Contents(old(f.Fs()), d), Contents(f.Fs(), d);
      var es := Entries(c);
      && (r != Done ==> c' == c)
      && (r == Panicked <==> L.Absent(es, Short(name)) && |c| % DIRENT != 0)
      && (r == Done ==>
            && L.Absent(es, Short(name)) && |c'| % DIRENT == 0
            && Entries(c') == L.Put(es, R.FirstFree(es), L.Entry(inum % USHORT, Short(name))))
      && (r == Refused ==> !L.Absent(es, Short(name)) || NoRoom(f.Fs(), es))
  {
    hide FileSystem.Valid, LayoutOk, Contents, Entries, DirentOf, Dirent, NameOf, Short, Full, Splice;
    ghost var c := Contents(f.Fs(), d);
    var found := Dirlookup(f, d, name);
    if found.At? { return Refused; }
    if found.Panic? { return Panicked; }
    var off := FreeEntry(f, d);
    var bs := Strncpy(name);
    var de := [inum % 256, inum / 256 % 256] + bs;
    DirentIs(inum, name);
    DirentBack(inum, name);
    var n := WriteEntry(f, d, off, de);
    if n != DIRENT { return Refused; }
    EntriesPut(c, R.FirstFree(Entries(c)), de);
    SpliceWhole(c, off, de);
    r := Done;
  }

  lemma DirentIs(inum: nat, name: string)
    ensures Dirent(inum, name) == [inum % 256, inum / 256 % 256] + Padded(name)
  {
  }

  lemma SpliceWhole(c: seq<Byte>, off: nat, de: seq<Byte>)
    requires off <= |c| && off % DIRENT == 0 && |c| % DIRENT == 0 && |de| == DIRENT
    ensures |Splice(c, off, de)| % DIRENT == 0
  {
  }
}
