/** A disk with a file whose n blocks lie under n different bitmap blocks, and a directory: truncating the file, or
    unlinking it, can log more than MAXOPBLOCKS blocks. */
module WideImage {
  import opened BitImage
  import opened Blocks
  import opened Counting
  import opened FileBlocks
  import opened FileImage
  import opened FileRemove
  import opened FileSys

  const FILE: nat := 1
  const DIR: nat := 17            // in another inode block than the file
  const DIRBLOCK: nat := 200

  /** Block k of the file. */
  function Wide(k: nat): nat {
    k * BPB + 100
  }

  predicate Mine(n: nat, b: nat) {
    (b % BPB == 100 && b / BPB < n) || b == DIRBLOCK
  }

  function Busy(n: nat): nat -> bool {
    b => b < SB.nmeta || Mine(n, b)
  }

  function Place0(b: nat): Place {
    if b == DIRBLOCK then Place(DIR, 0) else Place(FILE, b / BPB)
  }

  function Filled(n: nat, i: nat, s: nat): nat {
    if i == FILE && s < n then Wide(s) else if i == DIR && s == 0 then DIRBLOCK else 0
  }

  function WideInode(n: nat, i: nat): FileBlocks.Inode {
    FileBlocks.Inode(if i == FILE then n * BSIZE else if i == DIR then BSIZE else 0,
                     seq(NDIRECT + 1, s requires 0 <= s < NDIRECT + 1 => Filled(n, i, s)))
  }

  function WideBlock(n: nat, b: nat): Data {
    if SB.bmapstart <= b < SB.nmeta then BitData(Busy(n), b - SB.bmapstart) else Zeroes()
  }

  function Disk(n: nat): (fs: FS)
    ensures LayoutOk(fs) && |fs.inodes| == 200 && |fs.blocks| == 200000 && fs.sb == SB
    ensures forall i :: 0 <= i < 200 ==> fs.inodes[i] == WideInode(n, i)
    ensures forall b :: 0 <= b < 200000 ==> fs.blocks[b] == WideBlock(n, b)
  {
    FS(SB, seq(200000, b requires 0 <= b < 200000 => WideBlock(n, b)),
      seq(200, i requires 0 <= i < 200 => WideInode(n, i)))
  }

  ghost function Owners(n: nat): (own: map<nat, Place>)
    requires n <= NDIRECT
    ensures forall b: nat :: b in own <==> Mine(n, b)
    ensures forall b :: b in own ==> own[b] == Place0(b)
  {
    MineLow(n);
    map b: nat | b < 200000 && Mine(n, b) :: Place0(b)
  }

  lemma MineLow(n: nat)
    requires n <= NDIRECT
    ensures forall b: nat :: Mine(n, b) ==> SB.nmeta <= b < 200000
  {
  }

  lemma DiskUsed(n: nat, b: nat)
    requires b < 200000
    ensures Used(Disk(n), b) <==> b < SB.nmeta || Mine(n, b)
  {
    hide BitData, Mine;
    assert b / BPB <= 24;
    assert Disk(n).blocks[BBlock(SB, b)] == WideBlock(n, BBlock(SB, b));
    UsedIs(Disk(n), Busy(n), b);
  }

  lemma DiskRef(n: nat, i: nat, s: nat)
    requires i < 200 && s < SLOTS && n <= NDIRECT
    ensures Ref(Disk(n), i, s) == Filled(n, i, s)
  {
    assert Disk(n).inodes[i] == WideInode(n, i);
  }

  lemma WideBack(k: nat)
    ensures Wide(k) % BPB == 100 && Wide(k) / BPB == k && Wide(k) != DIRBLOCK
  {
  }

  lemma DiskOwned(n: nat)
    requires n <= NDIRECT
    ensures Own(Disk(n), Owners(n), {})
  {
    hide Ref, Used, WideInode, WideBlock, Mine, Filled;
    var fs, own := Disk(n), Owners(n);
    MineLow(n);
    forall i: nat, s: nat | i < 200 && s < SLOTS && Ref(fs, i, s) != 0
      ensures Ref(fs, i, s) in own && own[Ref(fs, i, s)] == Place(i, s)
    {
      DiskRef(n, i, s);
      FilledMine(n, i, s);
    }
    forall b | b in own ensures Holds(fs, b, own[b]) {
      MineFilled(n, b);
      DiskRef(n, Place0(b).inum, Place0(b).slot);
    }
    forall b: nat | b < fs.sb.size ensures Used(fs, b) <==> b < fs.sb.nmeta || b in own {
      DiskUsed(n, b);
    }
  }

  lemma FilledMine(n: nat, i: nat, s: nat)
    requires n <= NDIRECT && Filled(n, i, s) != 0
    ensures Mine(n, Filled(n, i, s)) && Place0(Filled(n, i, s)) == Place(i, s)
  {
    WideBack(s);
  }

  lemma MineFilled(n: nat, b: nat)
    requires n <= NDIRECT && Mine(n, b)
    ensures var p := Place0(b); p.inum < 200 && p.slot < SLOTS && Filled(n, p.inum, p.slot) == b
  {
  }

  lemma DiskFiles(n: nat, i: nat)
    requires n <= NDIRECT && i < 200
    ensures FileOk(Disk(n), i)
  {
    hide Ref;
    assert Disk(n).inodes[i] == WideInode(n, i);
    forall k: nat | k < MAXFILE && k * BSIZE < WideInode(n, i).size ensures Addr(Disk(n), i, k) != 0 {
      DiskRef(n, i, FileBlocks.SlotOf(k));
    }
  }

  lemma WideBitmaps(n: nat)
    requires n <= NDIRECT
    ensures |BitmapsOf(SB, Owners(n), FILE)| == n
  {
    var bms := BitmapsOf(SB, Owners(n), FILE);
    forall m | m in bms ensures m in Shift(SB.bmapstart, n) {
      var b: nat :| b in BlocksOf(Owners(n), FILE) && BBlock(SB, b) == m;
    }
    forall m | m in Shift(SB.bmapstart, n) ensures m in bms {
      var k := m - SB.bmapstart;
      WideBack(k);
      assert Wide(k) in BlocksOf(Owners(n), FILE) && BBlock(SB, Wide(k)) == m;
    }
    assert bms == Shift(SB.bmapstart, n);
  }

  method Mount(n: nat) returns (f: FileSystem)
    requires n <= NDIRECT
    ensures f.Valid() && f.Fs() == Disk(n) && f.owner == Owners(n) && fresh(f)
  {
    hide Own, FileOk, LayoutOk, WideInode, WideBlock;
    var fs := Disk(n);
    DiskOwned(n);
    forall i: nat | i < |fs.inodes| ensures FileOk(fs, i) { DiskFiles(n, i); }
    f := new FileSystem(fs.sb, fs.blocks, fs.inodes, Owners(n));
  }

  /** Truncating the file logs n + 1 blocks: too many from ten on. */
  method TruncateWide(n: nat) returns (f: FileSystem)
    requires n <= NDIRECT
    ensures f.Valid() && LayoutOk(f.Fs()) && |f.inodes| == 200
    ensures Contents(f.Fs(), FILE) == [] && Contents(f.Fs(), DIR) == Contents(Disk(n), DIR)
    ensures f.logged == BitmapsOf(SB, Owners(n), FILE) + {f.IBlockOf(FILE)}
    ensures |f.logged| == n + 1 && (|f.logged| <= MAXOPBLOCKS <==> n < 10)
  {
    hide Own, FileOk, LayoutOk, WideInode, WideBlock, Contents, Owners, Bitmaps;
    WideBitmaps(n);
    f := Mount(n);
    TruncateAlone(f, FILE);
  }

  /** Unlinking it, by clearing entry off of the directory, logs n + 3: too many from eight on. */
  method UnlinkWide(n: nat, off: nat) returns (f: FileSystem, r: int)
    requires n <= NDIRECT && off % DIRENT == 0 && off + DIRENT <= BSIZE
    ensures f.Valid() && LayoutOk(f.Fs()) && |f.inodes| == 200 && r == DIRENT && off <= |Contents(Disk(n), DIR)|
    ensures Contents(f.Fs(), FILE) == [] && Contents(f.Fs(), DIR) == Splice(Contents(Disk(n), DIR), off, Nothing())
    ensures f.logged == {DIRBLOCK, f.IBlockOf(DIR), f.IBlockOf(FILE)} + BitmapsOf(SB, Owners(n), FILE)
    ensures |f.logged| == n + 3 && (|f.logged| <= MAXOPBLOCKS <==> n < 8)
  {
    hide Own, FileOk, LayoutOk, WideBlock, Contents, Owners, Bitmaps, Splice, Addr;
    WideBitmaps(n);
    f := Mount(n);
    assert f.inodes[DIR] == WideInode(n, DIR);
    DirBlock(n, off);
    r := UnlinkLast(f, DIR, off, FILE);
  }

  lemma DirBlock(n: nat, off: nat)
    requires n <= NDIRECT && off < BSIZE
    ensures Addr(Disk(n), DIR, off / BSIZE) == DIRBLOCK
  {
    DiskRef(n, DIR, 0);
  }
}
