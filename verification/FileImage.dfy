/** A disk of 200000 blocks, laid out as mkfs does it, on which a chunk of filewrite logs MAXOPBLOCKS blocks:
    files have filled it so that the lowest free blocks are under four different bitmap blocks. */
module FileImage {
  import opened BitImage
  import opened Blocks
  import opened Counting
  import opened FileBlocks
  import opened FileLog
  import opened FileSys
  import opened FileTight
  import opened Machine

  const SB := Super(200000, 70, 45, 32, 200)
  const END: nat := 24576                      // from here on everything is free

  /** The free blocks below END. */
  predicate Gap(b: nat) {
    b == 8191 || b == 16383 || b == 16384
  }

  predicate Kept(b: nat) {
    SB.nmeta <= b < END && !Gap(b)
  }

  /** The kept blocks are numbered without the gaps. */
  function Rank(b: nat): nat
    requires Kept(b)
  {
    if b < 8191 then b - 70 else if b < 16383 then b - 71 else b - 73
  }

  function BlockOf(r: nat): (b: nat)
    requires r < 24503
    ensures Kept(b) && Rank(b) == r
  {
    if r < 8121 then r + 70 else if r < 16312 then r + 71 else r + 73
  }

  lemma BlockBack(b: nat)
    requires Kept(b)
    ensures Rank(b) < 24503 && BlockOf(Rank(b)) == b
  {
  }

  /** Inodes 1 and 2 have twelve blocks each, inodes 3 to 93 all they can have. */
  predicate Has(i: nat, s: nat) {
    s < SLOTS && (((i == 1 || i == 2) && s < NDIRECT) || 3 <= i <= 93)
  }

  function RankOf(i: nat, s: nat): (r: nat)
    requires Has(i, s)
    ensures r < 24503
  {
    if i == 1 then s else if i == 2 then 12 + s else 24 + 269 * (i - 3) + s
  }

  function PlaceOf(r: nat): (p: Place)
    requires r < 24503
    ensures Has(p.inum, p.slot) && RankOf(p.inum, p.slot) == r
  {
    if r < 12 then Place(1, r) else if r < 24 then Place(2, r - 12)
    else Place(3 + (r - 24) / 269, (r - 24) % 269)
  }

  lemma PlaceBack(i: nat, s: nat)
    requires Has(i, s)
    ensures PlaceOf(RankOf(i, s)) == Place(i, s)
  {
    if i >= 3 {
      var r := RankOf(i, s) - 24;
      assert r == 269 * (i - 3) + s;
    }
  }

  function Slot(i: nat, s: nat): nat {
    if Has(i, s) then BlockOf(RankOf(i, s)) else 0
  }

  // ---------- the bitmap ----------

  predicate InUse(b: nat) {
    b < SB.nmeta || Kept(b)
  }

  // ---------- indirect blocks ----------

  function WordByte(w: nat, t: nat): Byte
    requires w < UINT && t < 4
  {
    if t == 0 then w % 0x100
    else if t == 1 then w / 0x100 % 0x100
    else if t == 2 then w / 0x1_0000 % 0x100
    else w / 0x100_0000
  }

  function IndData(i: nat): Data
    requires 3 <= i <= 93
  {
    seq(BSIZE, x requires 0 <= x < BSIZE => WordByte(Slot(i, IND + 1 + x / 4), x % 4))
  }

  lemma IndWord(i: nat, j: nat)
    requires 3 <= i <= 93 && j < NINDIRECT
    ensures Word(IndData(i), j) == Slot(i, IND + 1 + j)
  {
    hide Slot;
    var d, w := IndData(i), Slot(i, IND + 1 + j);
    assert w < UINT by { SlotLow(i, IND + 1 + j); }
    forall t: nat | t < 4 ensures d[4 * j + t] == WordByte(w, t) {
      assert (4 * j + t) / 4 == j && (4 * j + t) % 4 == t;
    }
    assert d[4 * j + 0] == WordByte(w, 0);
    SplitWord(w);
  }

  lemma SlotLow(i: nat, s: nat)
    ensures Slot(i, s) < END
  {
  }

  // ---------- the image ----------

  /** Is b the indirect block of an inode? */
  predicate IsInd(b: nat) {
    Kept(b) && PlaceOf(Rank(b)).slot == IND && PlaceOf(Rank(b)).inum >= 3
  }

  function BlockAt(b: nat): Data {
    if 45 <= b < 70 then BitData(InUse, b - 45)
    else if IsInd(b) then IndData(PlaceOf(Rank(b)).inum)
    else Zeroes()
  }

  function SizeOf(i: nat): nat {
    if i == 1 then LATE else if i == 2 then NDIRECT * BSIZE else if 3 <= i <= 93 then MAXFILE * BSIZE else 0
  }

  function InodeAt(i: nat): FileBlocks.Inode {
    FileBlocks.Inode(SizeOf(i), seq(NDIRECT + 1, s requires 0 <= s < NDIRECT + 1 => Slot(i, s)))
  }

  function Image(): (fs: FS)
    ensures LayoutOk(fs) && |fs.inodes| == 200 && |fs.blocks| == 200000 && fs.sb == SB
    ensures forall i :: 0 <= i < 200 ==> fs.inodes[i] == InodeAt(i)
    ensures forall b :: 0 <= b < 200000 ==> fs.blocks[b] == BlockAt(b)
  {
    FS(SB, seq(200000, b requires 0 <= b < 200000 => BlockAt(b)), seq(200, i requires 0 <= i < 200 => InodeAt(i)))
  }

  ghost function Owner(): (own: map<nat, Place>)
    ensures forall b: nat :: b in own <==> Kept(b)
    ensures forall b :: b in own ==> own[b] == PlaceOf(Rank(b))
  {
    map b: nat | b < END && Kept(b) :: PlaceOf(Rank(b))
  }

  lemma ImageUsed(b: nat)
    requires b < 200000
    ensures Used(Image(), b) <==> InUse(b)
  {
    hide InUse, BitData;
    assert b / BPB <= 24;
    assert Image().blocks[BBlock(SB, b)] == BlockAt(BBlock(SB, b));
    UsedIs(Image(), InUse, b);
  }

  lemma ImageRef(i: nat, s: nat)
    requires i < 200 && s < SLOTS
    ensures Ref(Image(), i, s) == Slot(i, s)
  {
    hide Slot, IndData, BlockAt, Word;
    var fs := Image();
    assert fs.inodes[i] == InodeAt(i);
    if s > IND && 3 <= i <= 93 {
      IndBlock(i);
      IndWord(i, s - IND - 1);
    } else if s > IND {
      NoSlot(i, IND);
      NoSlot(i, s);
    }
  }

  lemma IndBlock(i: nat)
    requires 3 <= i <= 93
    ensures 0 < Slot(i, IND) < 200000 && Image().blocks[Slot(i, IND)] == IndData(i)
  {
    hide IndData, BitData, Image, Zeroes;
    PlaceBack(i, IND);
    assert IsInd(Slot(i, IND));
  }

  lemma NoSlot(i: nat, s: nat)
    requires !Has(i, s)
    ensures Slot(i, s) == 0
  {
  }

  lemma ImageOwned()
    ensures Own(Image(), Owner(), {})
  {
    hide Ref, Used, Slot, Rank, PlaceOf, BlockOf, InodeAt, BlockAt;
    var fs, own := Image(), Owner();
    forall i: nat, s: nat | i < 200 && s < SLOTS && Ref(fs, i, s) != 0
        ensures Ref(fs, i, s) in own && own[Ref(fs, i, s)] == Place(i, s) {
      SlotOwned(i, s);
    }
    forall b | b in own ensures Holds(fs, b, own[b]) {
      KeptHeld(b);
    }
    forall b: nat | b < fs.sb.size ensures Used(fs, b) <==> b < fs.sb.nmeta || b in own {
      ImageUsed(b);
    }
  }

  lemma SlotOwned(i: nat, s: nat)
    requires i < 200 && s < SLOTS && Ref(Image(), i, s) != 0
    ensures Ref(Image(), i, s) in Owner() && Owner()[Ref(Image(), i, s)] == Place(i, s)
  {
    hide Image, Ref;
    ImageRef(i, s);
    if Has(i, s) { PlaceBack(i, s); }
  }

  lemma KeptHeld(b: nat)
    requires Kept(b)
    ensures Holds(Image(), b, PlaceOf(Rank(b)))
  {
    BlockBack(b);
    var p := PlaceOf(Rank(b));
    ImageRef(p.inum, p.slot);
  }

  lemma ImageFiles(i: nat)
    requires i < 200
    ensures FileOk(Image(), i)
  {
    hide Ref, Slot;
    assert Image().inodes[i] == InodeAt(i);
    forall n: nat | n < MAXFILE && n * BSIZE < SizeOf(i) ensures Addr(Image(), i, n) != 0 {
      ImageRef(i, FileBlocks.SlotOf(n));
      HasSlot(i, FileBlocks.SlotOf(n));
    }
  }

  lemma HasSlot(i: nat, s: nat)
    requires Has(i, s)
    ensures Slot(i, s) != 0
  {
  }

  const FREEONES: seq<nat> := [8191, 16383, 16384, 24576]

  lemma ImageFree()
    ensures LowestFree(Image(), FREEONES) && Once(BitsOf(SB, FREEONES))
  {
    hide Used, InUse, NextFree, BitsOf, Once;
    BitsApart();
    forall b: nat | b < 200000 ensures Used(Image(), b) <==> InUse(b) { ImageUsed(b); }
    forall k | 0 <= k < 4 ensures NextFree(Image(), FREEONES[k], FREEONES[..k]) {
      FreeOne(k);
    }
  }

  lemma BitsApart()
    ensures Once(BitsOf(SB, FREEONES))
  {
    assert BitsOf(SB, FREEONES) == [45, 46, 47, 48];
  }

  lemma FreeOne(k: nat)
    requires k < 4 && forall b: nat :: b < 200000 ==> (Used(Image(), b) <==> InUse(b))
    ensures NextFree(Image(), FREEONES[k], FREEONES[..k])
  {
    hide Used, Image;
    forall b: nat | b < FREEONES[k] ensures Used(Image(), b) || b in FREEONES[..k] {
      if Gap(b) {
        assert b == FREEONES[0] || b == FREEONES[1] || b == FREEONES[2];
        if k >= 1 { assert FREEONES[..k][0] == FREEONES[0]; }
        if k >= 2 { assert FREEONES[..k][1] == FREEONES[1]; }
        if k >= 3 { assert FREEONES[..k][2] == FREEONES[2]; }
      }
    }
  }

  /** The bound is reached: a chunk written to file 1 of the image, all of it, logs MAXOPBLOCKS blocks. */
  method ReachBound(src: seq<Byte>) returns (f: FileSystem, r: int, ghost ps: seq<Pass>)
    requires |src| == MAXCHUNK
    ensures f.Valid() && LayoutOk(f.Fs()) && f.sb == SB && |f.inodes| == 200 && r == MAXCHUNK
    ensures LATE <= |Contents(Image(), 1)| && Contents(f.Fs(), 1) == Splice(Contents(Image(), 1), LATE, src)
    ensures forall k: nat :: k < 200 && k != 1 ==> Contents(f.Fs(), k) == Contents(Image(), k)
    ensures Passes(Image(), f.Fs(), 1, 11, ps) && f.logged == Logs(SB, ps) + {f.IBlockOf(1)}
    ensures |f.logged| == MAXOPBLOCKS
  {
    hide Own, FileOk, LowestFree, BitsOf, Once, LayoutOk, InodeAt, BlockAt, Passes, Logs, Contents, Splice;
    var fs := Image();
    ImageOwned();
    forall i: nat | i < |fs.inodes| ensures FileOk(fs, i) { ImageFiles(i); }
    f := new FileSystem(fs.sb, fs.blocks, fs.inodes, Owner());
    assert f.Fs() == fs;
    ImageFree();
    TargetIs();
    r, ps := FullChunk(f, 1, src, FREEONES);
  }

  lemma TargetIs()
    ensures var x := InodeAt(1); x.size == LATE && |x.addrs| == NDIRECT + 1 && x.addrs[IND] == 0
  {
  }
}
