/** The transactions that truncate a file, and how many blocks they log: the number of bitmap blocks its blocks lie
    under decides whether they stay within MAXOPBLOCKS. */
module FileRemove {
  import opened Blocks
  import opened Counting
  import opened FileBlocks
  import opened FileLog
  import opened FileSys

  /** The bitmap blocks of file i's blocks. */
  ghost function BitmapsOf(sb: Super, owner: map<nat, Place>, i: nat): set<nat> {
    Bitmaps(sb, BlocksOf(owner, i))
  }

  const DIRENT: nat := 16

  function Nothing(): seq<Byte> {
    seq(DIRENT, _ => 0)
  }

  /** Every block of a file has its bit in a bitmap block. */
  lemma BitmapsPlaced(fs: FS, owner: map<nat, Place>, i: nat)
    requires Own(fs, owner, {})
    ensures forall m :: m in BitmapsOf(fs.sb, owner, i) ==> fs.sb.bmapstart <= m < fs.sb.nmeta
    ensures forall m :: m in BitmapsOf(fs.sb, owner, i) ==> m < fs.sb.bmapstart + (fs.sb.size + BPB - 1) / BPB
  {
    forall m | m in BitmapsOf(fs.sb, owner, i)
      ensures fs.sb.bmapstart <= m < fs.sb.nmeta && m < fs.sb.bmapstart + (fs.sb.size + BPB - 1) / BPB
    {
      var b: nat :| b in BlocksOf(owner, i) && BBlock(fs.sb, b) == m;
      assert Holds(fs, b, owner[b]);
      assert b / BPB <= fs.sb.size / BPB && b / BPB < (fs.sb.size + BPB - 1) / BPB;
    }
  }

  /** On a disk of n bitmap blocks they are at most n. */
  lemma BitmapsFew(fs: FS, owner: map<nat, Place>, i: nat)
    requires Own(fs, owner, {})
    ensures |BitmapsOf(fs.sb, owner, i)| <= (fs.sb.size + BPB - 1) / BPB
  {
    BitmapsPlaced(fs, owner, i);
    hide Bitmaps, BlocksOf, Own;
    SubsetCard(BitmapsOf(fs.sb, owner, i), Shift(fs.sb.bmapstart, (fs.sb.size + BPB - 1) / BPB));
  }

  /** The n numbers from a on. */
  ghost function Shift(a: nat, n: nat): (s: set<nat>)
    ensures |s| == n && forall x: nat :: x in s <==> a <= x < a + n
  {
    if n == 0 then {} else Shift(a, n - 1) + {a + n - 1}
  }

  /** open with O_TRUNC, or the last close of a file without links: itrunc and iupdate. It stays within MAXOPBLOCKS if
      and only if the file's blocks lie under fewer bitmap blocks than that. */
  method TruncateAlone(f: FileSystem, i: nat)
    requires f.Valid() && i < |f.inodes| && f.IBlockOf(i) < f.sb.bmapstart
    modifies f
    ensures f.Valid() && LayoutOk(old(f.Fs())) && LayoutOk(f.Fs()) && |f.inodes| == old(|f.inodes|)
    ensures Contents(f.Fs(), i) == [] && f.dinodes == old(f.dinodes)[i := f.inodes[i]]
    ensures forall k: nat :: k < |f.inodes| && k != i ==> Contents(f.Fs(), k) == Contents(old(f.Fs()), k)
    ensures f.logged == BitmapsOf(f.sb, old(f.owner), i) + {f.IBlockOf(i)}
    ensures |f.logged| == |BitmapsOf(f.sb, old(f.owner), i)| + 1
    ensures |f.logged| <= MAXOPBLOCKS <==> |BitmapsOf(f.sb, old(f.owner), i)| < MAXOPBLOCKS
    ensures f.sb.size <= (MAXOPBLOCKS - 1) * BPB ==> |f.logged| <= MAXOPBLOCKS
  {
    hide LayoutOk, Contents, FileOk, Own, Bitmaps, Used;
    BitmapsPlaced(f.Fs(), f.owner, i);
    BitmapsFew(f.Fs(), f.owner, i);
    f.ValidLaidOut();
    f.BeginOp();
    f.Itrunc(i);
    f.Iupdate(i);
    f.ValidLaidOut();
    assert f.logged == BitmapsOf(f.sb, old(f.owner), i) + {f.IBlockOf(i)};
  }

  /** unlink of the last link to a file nobody has open: the directory entry is cleared, and the file goes in the same
      transaction. That leaves room for two bitmap blocks less, or one if the two inodes share a block. */
  method UnlinkLast(f: FileSystem, d: nat, off: nat, i: nat) returns (r: int)
    requires f.Valid() && d < |f.inodes| && i < |f.inodes| && d != i
    requires off % DIRENT == 0 && off + DIRENT <= f.inodes[d].size
    requires f.IBlockOf(d) < f.sb.bmapstart && f.IBlockOf(i) < f.sb.bmapstart
    modifies f
    ensures f.Valid() && LayoutOk(old(f.Fs())) && LayoutOk(f.Fs()) && |f.inodes| == old(|f.inodes|) && r == DIRENT
    ensures Contents(f.Fs(), i) == [] && off <= |Contents(old(f.Fs()), d)|
    ensures Contents(f.Fs(), d) == Splice(Contents(old(f.Fs()), d), off, Nothing())
    ensures forall k: nat :: k < |f.inodes| && k != i && k != d ==> Contents(f.Fs(), k) == Contents(old(f.Fs()), k)
    ensures off / BSIZE < MAXFILE
    ensures f.logged ==
      {Addr(old(f.Fs()), d, off / BSIZE), f.IBlockOf(d), f.IBlockOf(i)} + BitmapsOf(f.sb, old(f.owner), i)
    ensures
      var others := if f.IBlockOf(d) == f.IBlockOf(i) then 2 else 3;
      && |f.logged| == |BitmapsOf(f.sb, old(f.owner), i)| + others
      && (|f.logged| <= MAXOPBLOCKS <==> |BitmapsOf(f.sb, old(f.owner), i)| <= MAXOPBLOCKS - others)
    ensures f.sb.size <= (MAXOPBLOCKS - 3) * BPB ==> |f.logged| <= MAXOPBLOCKS
  {
    hide LayoutOk, Contents, FileOk, Own, Bitmaps, Used, Passes, Ended, Logs, LogsAll, Full, LogBound, Splice, BlocksOf,
      Gains, Addr;
    ghost var fs0, own0 := f.Fs(), f.owner;
    BitmapsPlaced(fs0, own0, i);
    BitmapsFew(fs0, own0, i);
    f.ValidLaidOut();
    f.BeginOp();
    ghost var ps;
    r, ps := EntryCleared(f, d, off);
    SameBlocks(own0, f.owner, d, i);
    f.Iupdate(i);
    f.Itrunc(i);
    f.Iupdate(i);
    f.ValidLaidOut();
    ghost var a := Addr(fs0, d, off / BSIZE);
    assert f.logged == {a, f.IBlockOf(d), f.IBlockOf(i)} + BitmapsOf(f.sb, own0, i);
    Counted(BitmapsOf(f.sb, own0, i), a, f.IBlockOf(d), f.IBlockOf(i), f.sb);
  }

  /** writei of an empty entry: the block is there, so nothing is allocated and two blocks are logged. */
  method EntryCleared(f: FileSystem, d: nat, off: nat) returns (r: int, ghost ps: seq<Pass>)
    requires f.Valid() && d < |f.inodes| && off % DIRENT == 0 && off + DIRENT <= f.inodes[d].size
    modifies f
    ensures f.Valid() && LayoutOk(old(f.Fs())) && LayoutOk(f.Fs()) && |f.inodes| == old(|f.inodes|) && r == DIRENT
    ensures off <= |Contents(old(f.Fs()), d)| && Contents(f.Fs(), d) == Splice(Contents(old(f.Fs()), d), off, Nothing())
    ensures forall k: nat :: k < |f.inodes| && k != d ==> Contents(f.Fs(), k) == Contents(old(f.Fs()), k)
    ensures f.dinodes == old(f.dinodes)[d := f.inodes[d]] && Gains(old(f.owner), f.owner, d)
    ensures off / BSIZE < MAXFILE && f.sb.nmeta <= Addr(old(f.Fs()), d, off / BSIZE)
    ensures f.logged == old(f.logged) + {Addr(old(f.Fs()), d, off / BSIZE), f.IBlockOf(d)}
  {
    hide LayoutOk, Contents, Own, Passes, Logs, LogsAll, Full, LogBound, Splice, Gains, Addr;
    ghost var fs0 := f.Fs();
    f.ValidLaidOut();
    assert FileOk(fs0, d);
    FileHasBlock(fs0, f.owner, d, off);
    assert fs0.inodes[d].size <= MAXFILE * BSIZE;
    r, ps := f.Writei(d, off, Nothing(), (t: nat) => true);
    f.ValidLaidOut();
    OneBlock(off, r, ps);
    OnePass(fs0, f.Fs(), d, off, ps);
    assert Nothing()[..DIRENT] == Nothing();
  }

  /** An aligned entry lies within one block. */
  lemma OneBlock(off: nat, tot: nat, ps: seq<Pass>)
    requires off % DIRENT == 0 && Ended(off, DIRENT, tot, ps)
    ensures |ps| == 1 && (ps[0].wrote <==> tot == DIRENT)
  {
    Within(off, DIRENT - 1);
    if tot < DIRENT { Within(off, tot); }
  }

  lemma Within(off: nat, t: nat)
    requires off % DIRENT == 0 && t < DIRENT
    ensures (off + t) / BSIZE == off / BSIZE
  {
    var q := off / DIRENT;
    var e, r := q / 64, q % 64;
    assert off == DIRENT * q && q == 64 * e + r;
    InBlock(off, e, DIRENT * r);
    InBlock(off + t, e, DIRENT * r + t);
  }

  lemma InBlock(x: nat, e: nat, r: nat)
    requires x == BSIZE * e + r && r < BSIZE
    ensures x / BSIZE == e
  {
  }

  lemma OnePass(fs0: FS, fs: FS, d: nat, off: nat, ps: seq<Pass>)
    requires LayoutOk(fs0) && LayoutOk(fs) && d < |fs0.inodes| == |fs.inodes| && Passes(fs0, fs, d, off / BSIZE, ps)
    requires |ps| == 1 && off / BSIZE < MAXFILE && Addr(fs0, d, off / BSIZE) != 0
    ensures ps[0].addr == Addr(fs0, d, off / BSIZE) && (ps[0].wrote ==> Logs(fs.sb, ps) == {ps[0].addr})
  {
    hide Used, Allots, TakenBy;
    assert PassAt(fs0, fs, d, off / BSIZE, ps[0]);
    assert ps[..0] == [];
  }

  lemma SameBlocks(own: map<nat, Place>, own': map<nat, Place>, d: nat, i: nat)
    requires Gains(own, own', d) && i != d
    ensures BlocksOf(own', i) == BlocksOf(own, i)
  {
  }

  /** Bitmap blocks, a data block and inode blocks are all different. */
  lemma Counted(bms: set<nat>, data: nat, ib: nat, jb: nat, sb: Super)
    requires (forall m :: m in bms ==> sb.bmapstart <= m < sb.nmeta) && data >= sb.nmeta >= sb.bmapstart
    requires ib < sb.bmapstart && jb < sb.bmapstart
    ensures |{data, ib, jb} + bms| == |bms| + if ib == jb then 2 else 3
  {
    assert {data, ib, jb} !! bms;
    assert |{data, ib, jb}| == if ib == jb then |{data, ib}| else 3;
    assert |{data, ib, jb} + bms| == |{data, ib, jb}| + |bms|;
  }
}
