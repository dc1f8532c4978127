/** Blocks, bitmap bits and inodes of kernel/fs.c on values, with the ownership of blocks: which
    inode slot refers to which block. */
module FileBlocks {
  import opened Machine

  const BSIZE: nat := 1024
  const NDIRECT: nat := 12
  const NINDIRECT: nat := 256
  const MAXFILE: nat := 268
  const BPB: nat := 8192
  const IPB: nat := 16

  // Slots of an inode that can name a block: the direct blocks 0 .. 11, the indirect block 12,
  // and the entries 13 .. 268 of the indirect block.
  const IND: nat := 12
  const SLOTS: nat := 269

  type Byte = b: nat | b < 256
  type Data = d: seq<Byte> | |d| == BSIZE witness seq(BSIZE, _ => 0)

  function Zeroes(): Data {
    seq(BSIZE, _ => 0)
  }

  datatype Super = Super(size: nat, nmeta: nat, bmapstart: nat, inodestart: nat, ninodes: nat)

  datatype Inode = Inode(size: nat, addrs: seq<nat>)

  datatype FS = FS(sb: Super, blocks: seq<Data>, inodes: seq<Inode>)

  // ---------- words of an indirect block ----------

  function Word(d: Data, j: nat): (w: nat)
    requires j < NINDIRECT
    ensures w < UINT
  {
    d[4 * j] as nat + 0x100 * (d[4 * j + 1] as nat) + 0x1_0000 * (d[4 * j + 2] as nat)
    + 0x100_0000 * (d[4 * j + 3] as nat)
  }

  function SetWord(d: Data, j: nat, w: nat): (r: Data)
    requires j < NINDIRECT && w < UINT
  {
    d[4 * j := w % 0x100][4 * j + 1 := w / 0x100 % 0x100]
     [4 * j + 2 := w / 0x1_0000 % 0x100][4 * j + 3 := w / 0x100_0000]
  }

  lemma WordAt(d: Data, j: nat, w: nat, k: nat)
    requires j < NINDIRECT && w < UINT && k < NINDIRECT
    ensures Word(SetWord(d, j, w), k) == if k == j then w else Word(d, k)
  {
    if k == j { SplitWord(w); }
  }

  lemma SplitWord(w: nat)
    requires w < UINT
    ensures w == w % 0x100 + 0x100 * (w / 0x100 % 0x100) + 0x1_0000 * (w / 0x1_0000 % 0x100)
                 + 0x100_0000 * (w / 0x100_0000)
  {
  }

  // ---------- the free bitmap ----------

  /** Bit k of a number. */
  predicate Bit(x: nat, k: nat) {
    if k == 0 then x % 2 == 1 else Bit(x / 2, k - 1)
  }

  /** x | 1 << k, or x & ~(1 << k). */
  function PutBit(x: nat, k: nat, on: bool): nat {
    if k == 0 then x / 2 * 2 + (if on then 1 else 0) else PutBit(x / 2, k - 1, on) * 2 + x % 2
  }

  lemma {:induction false} BitAfter(x: nat, k: nat, on: bool, j: nat)
    ensures Bit(PutBit(x, k, on), j) == if j == k then on else Bit(x, j)
  {
    if k > 0 && j > 0 {
      BitAfter(x / 2, k - 1, on, j - 1);
    }
  }

  function Pow2(n: nat): nat {
    if n == 0 then 1 else 2 * Pow2(n - 1)
  }

  lemma {:induction false} PutBitFits(x: nat, k: nat, on: bool, n: nat)
    requires k < n && x < Pow2(n)
    ensures PutBit(x, k, on) < Pow2(n)
  {
    if k > 0 {
      PutBitFits(x / 2, k - 1, on, n - 1);
    }
  }

  function PutByteBit(x: Byte, k: nat, on: bool): Byte
    requires k < 8
  {
    assert Pow2(8) == 256 by { assert Pow2(4) == 16; }
    PutBitFits(x, k, on, 8);
    PutBit(x, k, on)
  }

  predicate LayoutOk(fs: FS) {
    && 1 <= fs.sb.nmeta <= fs.sb.size <= |fs.blocks| && fs.sb.size < UINT
    && fs.sb.bmapstart + fs.sb.size / BPB < fs.sb.nmeta
    && |fs.inodes| == fs.sb.ninodes
    && forall i :: 0 <= i < |fs.inodes| ==> |fs.inodes[i].addrs| == NDIRECT + 1
  }

  /** The bitmap block that holds the bit of block b. */
  function BBlock(sb: Super, b: nat): nat {
    b / BPB + sb.bmapstart
  }

  predicate Used(fs: FS, b: nat)
    requires LayoutOk(fs) && b < fs.sb.size
  {
    Bit(fs.blocks[BBlock(fs.sb, b)][b % BPB / 8], b % BPB % 8)
  }

  function Mark(fs: FS, b: nat, on: bool): (r: FS)
    requires LayoutOk(fs) && b < fs.sb.size
    ensures LayoutOk(r)
  {
    var m, at := BBlock(fs.sb, b), b % BPB / 8;
    fs.(blocks := fs.blocks[m := fs.blocks[m][at := PutByteBit(fs.blocks[m][at], b % BPB % 8, on)]])
  }

  /** Setting or clearing a block's bit changes that bit alone, and only a bitmap block. */
  lemma MarkBit(fs: FS, b: nat, on: bool, c: nat)
    requires LayoutOk(fs) && b < fs.sb.size && c < fs.sb.size
    ensures Used(Mark(fs, b, on), c) == if c == b then on else Used(fs, c)
    ensures forall k :: fs.sb.nmeta <= k < |fs.blocks| ==> Mark(fs, b, on).blocks[k] == fs.blocks[k]
  {
    var m, at, k := BBlock(fs.sb, b), b % BPB / 8, b % BPB % 8;
    BitAfter(fs.blocks[m][at], k, on, c % BPB % 8);
    if c != b && BBlock(fs.sb, c) == m && c % BPB / 8 == at {
      assert c % BPB % 8 != k;
    }
  }

  // ---------- references ----------

  /** The block named by a slot of inode i, or 0. */
  function Ref(fs: FS, i: nat, s: nat): nat
    requires LayoutOk(fs) && i < |fs.inodes| && s < SLOTS
  {
    var a := fs.inodes[i].addrs;
    if s <= IND then a[s]
    else if a[IND] == 0 || a[IND] >= |fs.blocks| then 0
    else Word(fs.blocks[a[IND]], s - IND - 1)
  }

  /** The slot of file block n. */
  function SlotOf(n: nat): (s: nat)
    requires n < MAXFILE
    ensures s < SLOTS && s != IND
  {
    if n < NDIRECT then n else n + 1
  }

  /** The disk block of file block n of inode i, or 0. */
  function Addr(fs: FS, i: nat, n: nat): nat
    requires LayoutOk(fs) && i < |fs.inodes| && n < MAXFILE
  {
    Ref(fs, i, SlotOf(n))
  }

  datatype Place = Place(inum: nat, slot: nat)

  predicate PlaceOk(fs: FS, p: Place) {
    p.inum < |fs.inodes| && p.slot < SLOTS
  }

  /** Block b is a data block and slot p is the one that names it. */
  ghost predicate Holds(fs: FS, b: nat, p: Place)
    requires LayoutOk(fs)
  {
    fs.sb.nmeta <= b < fs.sb.size && PlaceOk(fs, p) && Ref(fs, p.inum, p.slot) == b
  }

  /** Every slot that names a block is that block's owner. */
  ghost predicate RefsOwned(fs: FS, owner: map<nat, Place>)
    requires LayoutOk(fs)
  {
    forall i: nat, s: nat :: i < |fs.inodes| && s < SLOTS && Ref(fs, i, s) != 0 ==>
      Ref(fs, i, s) in owner && owner[Ref(fs, i, s)] == Place(i, s)
  }

  ghost predicate OwnersHold(fs: FS, owner: map<nat, Place>)
    requires LayoutOk(fs)
  {
    forall b :: b in owner ==> Holds(fs, b, owner[b])
  }

  /** The bitmap marks the metadata, the owned blocks and the given extra blocks, nothing else. */
  ghost predicate BitsExact(fs: FS, owner: map<nat, Place>, extra: set<nat>)
    requires LayoutOk(fs)
  {
    forall b: nat :: b < fs.sb.size ==> (Used(fs, b) <==> b < fs.sb.nmeta || b in owner || b in extra)
  }

  /** Block ownership: each referenced block is a data block, marked used, and referenced from
      exactly one slot of one inode; and apart from the extra blocks, just allocated and not yet
      attached, no other data block is marked used. */
  ghost predicate Own(fs: FS, owner: map<nat, Place>, extra: set<nat>) {
    && LayoutOk(fs) && RefsOwned(fs, owner) && OwnersHold(fs, owner) && BitsExact(fs, owner, extra)
    && forall b :: b in extra ==> fs.sb.nmeta <= b < fs.sb.size && b !in owner
  }

  /** Two file systems whose inodes, data blocks and superblock agree name the same blocks. */
  lemma RefSame(fs: FS, fs': FS, i: nat, s: nat)
    requires LayoutOk(fs) && LayoutOk(fs') && i < |fs.inodes| == |fs'.inodes| && s < SLOTS
    requires |fs'.blocks| == |fs.blocks| && fs'.inodes[i].addrs == fs.inodes[i].addrs
    requires var ind := fs.inodes[i].addrs[IND]; 0 < ind < |fs.blocks| ==> fs'.blocks[ind] == fs.blocks[ind]
    ensures Ref(fs', i, s) == Ref(fs, i, s)
  {
  }

  // ---------- allocation ----------

  /** balloc's effect: mark the block and zero it. */
  function Taken(fs: FS, r: nat): (fs': FS)
    requires LayoutOk(fs) && r < fs.sb.size
    ensures LayoutOk(fs') && |fs'.blocks| == |fs.blocks| && fs'.inodes == fs.inodes && fs'.sb == fs.sb
  {
    var m := Mark(fs, r, true);
    m.(blocks := m.blocks[r := Zeroes()])
  }

  /** Taking a free data block sets its bit, zeroes it and touches no other data block. */
  lemma TakenBlock(fs: FS, r: nat)
    requires LayoutOk(fs) && fs.sb.nmeta <= r < fs.sb.size
    ensures forall c: nat :: c < fs.sb.size ==> (Used(Taken(fs, r), c) <==> c == r || Used(fs, c))
    ensures forall k :: fs.sb.nmeta <= k < |fs.blocks| && k != r ==> Taken(fs, r).blocks[k] == fs.blocks[k]
    ensures Taken(fs, r).blocks[r] == Zeroes()
  {
    var t := Taken(fs, r);
    forall c: nat | c < fs.sb.size ensures Used(t, c) <==> c == r || Used(fs, c) {
      MarkBit(fs, r, true, c);
    }
    MarkBit(fs, r, true, r);
  }

  /** Taking a free block disturbs no reference. */
  lemma TakenOwn(fs: FS, owner: map<nat, Place>, extra: set<nat>, r: nat)
    requires Own(fs, owner, extra) && r < fs.sb.size && !Used(fs, r)
    ensures fs.sb.nmeta <= r && r !in owner && r !in extra
    ensures Own(Taken(fs, r), owner, extra + {r})
    ensures forall i: nat, s: nat :: i < |fs.inodes| && s < SLOTS ==> Ref(Taken(fs, r), i, s) == Ref(fs, i, s)
  {
    var t := Taken(fs, r);
    TakenBlock(fs, r);
    hide Taken, Word, Used;
    forall i: nat, s: nat | i < |fs.inodes| && s < SLOTS ensures Ref(t, i, s) == Ref(fs, i, s) {
      IndirectOwned(fs, owner, i);
      RefSame(fs, t, i, s);
    }
    OwnExtra(fs, owner, extra, t, r);
  }

  lemma OwnExtra(fs: FS, owner: map<nat, Place>, extra: set<nat>, t: FS, r: nat)
    requires Own(fs, owner, extra) && LayoutOk(t) && t.sb == fs.sb && |t.inodes| == |fs.inodes|
    requires fs.sb.nmeta <= r < fs.sb.size && r !in owner
    requires forall i: nat, s: nat :: i < |fs.inodes| && s < SLOTS ==> Ref(t, i, s) == Ref(fs, i, s)
    requires forall c: nat :: c < fs.sb.size ==> (Used(t, c) <==> c == r || Used(fs, c))
    ensures Own(t, owner, extra + {r})
  {
    hide Ref, Used;
    forall b | b in owner ensures Holds(t, b, owner[b]) { assert Holds(fs, b, owner[b]); }
  }

  /** An inode's indirect block is one of its own blocks. */
  lemma IndirectOwned(fs: FS, owner: map<nat, Place>, i: nat)
    requires LayoutOk(fs) && RefsOwned(fs, owner) && OwnersHold(fs, owner) && i < |fs.inodes|
    ensures var ind := fs.inodes[i].addrs[IND];
      ind != 0 ==> ind in owner && owner[ind] == Place(i, IND) && fs.sb.nmeta <= ind < fs.sb.size
  {
    var ind := Ref(fs, i, IND);
    if ind != 0 { assert Holds(fs, ind, owner[ind]); }
  }

  /** Store block r in slot s of inode i, a direct slot or the indirect one. */
  function Attached(fs: FS, i: nat, s: nat, r: nat): (fs': FS)
    requires LayoutOk(fs) && i < |fs.inodes| && s <= IND
    ensures LayoutOk(fs') && fs'.blocks == fs.blocks && fs'.sb == fs.sb
  {
    fs.(inodes := fs.inodes[i := fs.inodes[i].(addrs := fs.inodes[i].addrs[s := r])])
  }

  lemma ZeroWords(j: nat)
    requires j < NINDIRECT
    ensures Word(Zeroes(), j) == 0
  {
  }

  /** Attaching a fresh zeroed block to an empty slot changes that reference alone. */
  lemma AttachedRef(fs: FS, i: nat, s: nat, r: nat, k: nat, t: nat)
    requires LayoutOk(fs) && i < |fs.inodes| && s <= IND && fs.inodes[i].addrs[s] == 0
    requires 0 < r < |fs.blocks| && fs.blocks[r] == Zeroes() && k < |fs.inodes| && t < SLOTS
    ensures Ref(Attached(fs, i, s, r), k, t) == if k == i && t == s then r else Ref(fs, k, t)
  {
    hide Word, Zeroes;
    if k == i && t > IND { ZeroWords(t - IND - 1); }
  }

  lemma AttachedOwn(fs: FS, owner: map<nat, Place>, extra: set<nat>, i: nat, s: nat, r: nat)
    requires Own(fs, owner, extra) && i < |fs.inodes| && s <= IND && fs.inodes[i].addrs[s] == 0
    requires r in extra && fs.blocks[r] == Zeroes()
    ensures Own(Attached(fs, i, s, r), owner[r := Place(i, s)], extra - {r})
  {
    var a, own := Attached(fs, i, s, r), owner[r := Place(i, s)];
    forall k: nat, t: nat | k < |fs.inodes| && t < SLOTS
      ensures Ref(a, k, t) == if k == i && t == s then r else Ref(fs, k, t)
    {
      AttachedRef(fs, i, s, r, k, t);
    }
    assert Ref(fs, i, s) == 0;
    hide Ref;
    forall b: nat | b < a.sb.size ensures Used(a, b) == Used(fs, b) {}
    hide Used;
    OwnWith(fs, owner, extra, a, i, s, r);
  }

  /** One new reference to an extra block makes that slot its owner. */
  lemma OwnWith(fs: FS, owner: map<nat, Place>, extra: set<nat>, a: FS, i: nat, s: nat, r: nat)
    requires Own(fs, owner, extra) && LayoutOk(a) && i < |fs.inodes| == |a.inodes| && s < SLOTS && a.sb == fs.sb
    requires r in extra && Ref(fs, i, s) == 0
    requires forall k: nat, t: nat :: k < |fs.inodes| && t < SLOTS ==> Ref(a, k, t) == if k == i && t == s then r
        else Ref(fs, k, t)
    requires forall b: nat :: b < a.sb.size ==> Used(a, b) == Used(fs, b)
    ensures Own(a, owner[r := Place(i, s)], extra - {r})
  {
    hide Ref, Used;
    var own := owner[r := Place(i, s)];
    forall b | b in own ensures Holds(a, b, own[b]) {
      if b != r {
        assert Holds(fs, b, owner[b]);
        assert owner[b] != Place(i, s);
      }
    }
  }

  /** Store block r in entry j of inode i's indirect block. */
  function EntrySet(fs: FS, i: nat, j: nat, r: nat): (fs': FS)
    requires LayoutOk(fs) && i < |fs.inodes| && j < NINDIRECT && r < UINT
    requires fs.inodes[i].addrs[IND] < |fs.blocks|
    ensures LayoutOk(fs') && fs'.inodes == fs.inodes && fs'.sb == fs.sb
  {
    var ind := fs.inodes[i].addrs[IND];
    fs.(blocks := fs.blocks[ind := SetWord(fs.blocks[ind], j, r)])
  }

  lemma EntrySetRef(fs: FS, owner: map<nat, Place>, i: nat, j: nat, r: nat, k: nat, t: nat)
    requires LayoutOk(fs) && RefsOwned(fs, owner) && OwnersHold(fs, owner)
    requires i < |fs.inodes| && j < NINDIRECT && r < UINT && k < |fs.inodes| && t < SLOTS
    requires 0 < fs.inodes[i].addrs[IND] < |fs.blocks|
    ensures Ref(EntrySet(fs, i, j, r), k, t) == if k == i && t == j + IND + 1 then r else Ref(fs, k, t)
  {
    var e := EntrySet(fs, i, j, r);
    var ind := fs.inodes[i].addrs[IND];
    IndirectOwned(fs, owner, i);
    IndirectOwned(fs, owner, k);
    if k == i && t > IND {
      WordAt(fs.blocks[ind], j, r, t - IND - 1);
    } else if k != i {
      RefSame(fs, e, k, t);
    }
  }

  lemma EntrySetOwn(fs: FS, owner: map<nat, Place>, extra: set<nat>, i: nat, j: nat, r: nat)
    requires Own(fs, owner, extra) && i < |fs.inodes| && j < NINDIRECT && r in extra
    requires 0 < fs.inodes[i].addrs[IND] < |fs.blocks| && Ref(fs, i, j + IND + 1) == 0
    ensures r < UINT && Own(EntrySet(fs, i, j, r), owner[r := Place(i, j + IND + 1)], extra - {r})
  {
    hide Word, SetWord, Ref;
    var e := EntrySet(fs, i, j, r);
    forall k: nat, t: nat | k < |fs.inodes| && t < SLOTS
      ensures Ref(e, k, t) == if k == i && t == j + IND + 1 then r else Ref(fs, k, t)
    {
      EntrySetRef(fs, owner, i, j, r, k, t);
    }
    IndirectOwned(fs, owner, i);
    forall b: nat | b < e.sb.size ensures Used(e, b) == Used(fs, b) {}
    OwnWith(fs, owner, extra, e, i, j + IND + 1, r);
  }

  // ---------- truncation ----------

  /** The blocks an inode owns. */
  ghost function BlocksOf(owner: map<nat, Place>, i: nat): set<nat> {
    set b | b in owner && owner[b].inum == i
  }

  /** Emptying inode i and clearing the bits of exactly its blocks leaves ownership exact. */
  lemma TruncatedOwn(fs: FS, owner: map<nat, Place>, fs': FS, i: nat)
    requires Own(fs, owner, {}) && i < |fs.inodes| && LayoutOk(fs') && fs'.sb == fs.sb
    requires |fs'.blocks| == |fs.blocks| && |fs'.inodes| == |fs.inodes|
    requires forall k :: 0 <= k < |fs.inodes| && k != i ==> fs'.inodes[k] == fs.inodes[k]
    requires forall s :: 0 <= s <= IND ==> fs'.inodes[i].addrs[s] == 0
    requires forall b :: fs.sb.nmeta <= b < |fs.blocks| ==> fs'.blocks[b] == fs.blocks[b]
    requires forall b: nat :: b < fs.sb.size ==> (Used(fs', b) <==> Used(fs, b) && b !in BlocksOf(owner, i))
    ensures Own(fs', owner - BlocksOf(owner, i), {})
  {
    hide Used, Word;
    forall k: nat, t: nat | k < |fs.inodes| && t < SLOTS
      ensures Ref(fs', k, t) == if k == i then 0 else Ref(fs, k, t)
    {
      if k != i {
        IndirectOwned(fs, owner, k);
        RefSame(fs, fs', k, t);
      }
    }
    hide Ref;
    var own := owner - BlocksOf(owner, i);
    forall b | b in own ensures Holds(fs', b, own[b]) {
      assert Holds(fs, b, owner[b]);
    }
    forall k: nat, t: nat | k < |fs'.inodes| && t < SLOTS && Ref(fs', k, t) != 0
      ensures Ref(fs', k, t) in own && own[Ref(fs', k, t)] == Place(k, t)
    {
      assert Ref(fs, k, t) in owner;
    }
  }
}
