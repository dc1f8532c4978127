/** The block and inode layer of kernel/fs.c as it is written, over the logged view of the disk:
    balloc, bfree, bmap, itrunc, readi and writei, with the set of blocks each call logs. */
module FileSys {
  import opened Counting
  import opened Blocks
  import opened Machine
  import opened FileBlocks
  import opened FileLog

  /** A file has a block for every byte below its size. */
  ghost predicate FileOk(fs: FS, i: nat)
    requires LayoutOk(fs) && i < |fs.inodes|
  {
    && fs.inodes[i].size <= MAXFILE * BSIZE
    && forall n: nat :: n < MAXFILE && n * BSIZE < fs.inodes[i].size ==> Addr(fs, i, n) != 0
  }

  /** Every block is in use. */
  ghost predicate Full(fs: FS)
    requires LayoutOk(fs)
  {
    forall b: nat :: b < fs.sb.size ==> Used(fs, b)
  }

  /** Addition of two uints. */
  function Sum32(a: nat, b: nat): nat {
    (a + b) % UINT
  }

  lemma SumWraps(a: nat, b: nat)
    requires a < UINT && b < UINT
    ensures Sum32(a, b) == if a + b < UINT then a + b else a + b - UINT
  {
  }

  lemma LaidOut(fs: FS, owner: map<nat, Place>)
    requires Own(fs, owner, {})
    ensures LayoutOk(fs)
  {
  }

  lemma BitPosition(b: nat, bi: nat)
    requires b % BPB == 0 && bi < BPB
    ensures (b + bi) / BPB == b / BPB && (b + bi) % BPB == bi
  {
  }

  /** Every block that changed has been passed to log_write. */
  ghost predicate LogsAll(b0: seq<Data>, b1: seq<Data>, l0: set<nat>, l1: set<nat>) {
    |b1| == |b0| && l0 <= l1 && forall k :: 0 <= k < |b0| && k !in l1 ==> b1[k] == b0[k]
  }

  lemma LogsSelf(b: seq<Data>, l: set<nat>)
    ensures LogsAll(b, b, l, l)
  {
  }

  lemma LogsThen(b0: seq<Data>, b1: seq<Data>, b2: seq<Data>, l0: set<nat>, l1: set<nat>, l2: set<nat>)
    requires LogsAll(b0, b1, l0, l1) && LogsAll(b1, b2, l1, l2)
    ensures LogsAll(b0, b2, l0, l2)
  {
  }

  /** Every block keeps its owner, and what is new belongs to inode i. */
  ghost predicate Gains(own: map<nat, Place>, own': map<nat, Place>, i: nat) {
    && (forall b :: b in own ==> b in own' && own'[b] == own[b])
    && (forall b :: b in own' && b !in own ==> own'[b].inum == i)
  }

  /** Inodes other than inode i are as they were. */
  ghost predicate OnlyInode(a: seq<Inode>, b: seq<Inode>, i: nat) {
    |b| == |a| && forall k :: 0 <= k < |a| && k != i ==> b[k] == a[k]
  }

  /** From fs to fs', files keep their sizes and the blocks they have with their contents; at most
      file block bn of inode i has been added. */
  ghost predicate Grown(fs: FS, fs': FS, i: nat, bn: nat)
    requires LayoutOk(fs) && LayoutOk(fs') && i < |fs.inodes| && bn < MAXFILE
  {
    && fs'.sb == fs.sb && |fs'.inodes| == |fs.inodes| && |fs'.blocks| == |fs.blocks|
    && (forall k :: 0 <= k < |fs.inodes| ==> fs'.inodes[k].size == fs.inodes[k].size)
    && (forall k: nat, n: nat :: k < |fs.inodes| && n < MAXFILE && (Addr(fs, k, n) != 0 || k != i || n != bn) ==>
          Addr(fs', k, n) == Addr(fs, k, n))
    && DataKept(fs, fs')
  }

  /** Every block that holds file data keeps it. */
  ghost predicate DataKept(fs: FS, fs': FS)
    requires LayoutOk(fs) && |fs'.blocks| == |fs.blocks|
  {
    forall k: nat, n: nat :: k < |fs.inodes| && n < MAXFILE && 0 < Addr(fs, k, n) < |fs.blocks| ==>
      fs'.blocks[Addr(fs, k, n)] == fs.blocks[Addr(fs, k, n)]
  }

  /** The part of bmap's step that concerns the file's own blocks. */
  lemma GrownMaps(fs: FS, fs': FS, i: nat, p: Pass)
    requires LayoutOk(fs) && LayoutOk(fs') && i < |fs.inodes| && p.bn < MAXFILE && Grown(fs, fs', i, p.bn)
    requires p.addr == Addr(fs', i, p.bn) && p.ind == Ref(fs', i, IND) && Allots(fs, fs', PassTaken(p))
    requires p.made <==> Addr(fs, i, p.bn) == 0 && p.addr != 0
    requires (p.madeInd <==> Ref(fs, i, IND) == 0 && p.ind != 0) && (p.wrote ==> p.addr != 0)
    requires p.madeInd ==> Addr(fs, i, p.bn) == 0
    requires Ref(fs, i, IND) != 0 ==> Ref(fs', i, IND) == Ref(fs, i, IND)
    ensures Mapped(fs, fs', i, p)
  {
    hide Allots, DataKept;
  }

  lemma SameGrown(fs: FS, i: nat, bn: nat)
    requires LayoutOk(fs) && i < |fs.inodes| && bn < MAXFILE
    ensures Grown(fs, fs, i, bn)
  {
  }

  lemma GrownTwice(fs: FS, fs1: FS, fs2: FS, owner: map<nat, Place>, i: nat, bn: nat)
    requires Own(fs, owner, {}) && LayoutOk(fs1) && LayoutOk(fs2) && i < |fs.inodes| && bn < MAXFILE
    requires Grown(fs, fs1, i, bn) && Grown(fs1, fs2, i, bn)
    ensures Grown(fs, fs2, i, bn)
  {
    hide Ref, Used;
    forall k: nat, n: nat | k < |fs.inodes| && n < MAXFILE && 0 < Addr(fs, k, n) < |fs.blocks|
      ensures fs2.blocks[Addr(fs, k, n)] == fs.blocks[Addr(fs, k, n)]
    {
      assert Addr(fs1, k, n) == Addr(fs, k, n);
    }
  }

  /** A file's data block is owned by its slot. */
  lemma AddrOwned(fs: FS, owner: map<nat, Place>, extra: set<nat>, k: nat, n: nat)
    requires Own(fs, owner, extra) && k < |fs.inodes| && n < MAXFILE && Addr(fs, k, n) != 0
    ensures var a := Addr(fs, k, n);
      a in owner && owner[a] == Place(k, SlotOf(n)) && fs.sb.nmeta <= a < fs.sb.size
  {
    hide Ref, Used;
    assert Holds(fs, Addr(fs, k, n), owner[Addr(fs, k, n)]);
  }

  /** A fresh block attached to an empty slot is owned by it. */
  lemma AttachOwns(fs: FS, owner: map<nat, Place>, i: nat, s: nat, r: nat)
    requires Own(fs, owner, {}) && i < |fs.inodes| && s <= IND && fs.inodes[i].addrs[s] == 0
    requires r < fs.sb.size && !Used(fs, r)
    ensures var a := Attached(Taken(fs, r), i, s, r);
      fs.sb.nmeta <= r && Own(a, owner[r := Place(i, s)], {}) && Ref(a, i, s) == r && a.blocks[r] == Zeroes()
  {
    hide Taken, Used, RefsOwned, OwnersHold, BitsExact;
    var t := Taken(fs, r);
    TakenOwn(fs, owner, {}, r);
    TakenBlock(fs, r);
    assert {r} - {r} == {} && {} + {r} == {r};
    AttachedOwn(t, owner, {r}, i, s, r);
    AttachedRef(t, i, s, r, i, s);
  }

  /** The lowest free block goes into use, and no other. */
  lemma AttachAllots(fs: FS, i: nat, s: nat, r: nat)
    requires LayoutOk(fs) && i < |fs.inodes| && s <= IND && fs.sb.nmeta <= r < fs.sb.size && !Used(fs, r)
    requires forall b: nat :: b < r ==> Used(fs, b)
    ensures Allots(fs, Attached(Taken(fs, r), i, s, r), [r])
  {
    hide Taken;
    var t := Taken(fs, r);
    TakenBlock(fs, r);
    var a := Attached(t, i, s, r);
    forall b: nat | b < fs.sb.size ensures Used(a, b) == Used(t, b) { UsedSame(t, a, b); }
    AllotsOne(fs, a, r);
  }

  /** It is the only block the files gain. */
  lemma AttachGrows(fs: FS, owner: map<nat, Place>, i: nat, s: nat, r: nat, bn: nat)
    requires Own(fs, owner, {}) && i < |fs.inodes| && s <= IND && fs.inodes[i].addrs[s] == 0
    requires r < fs.sb.size && !Used(fs, r) && bn < MAXFILE && (s == IND || s == SlotOf(bn))
    ensures Grown(fs, Attached(Taken(fs, r), i, s, r), i, bn)
  {
    hide Taken, Used, RefsOwned, OwnersHold, BitsExact, Zeroes;
    var t := Taken(fs, r);
    TakenOwn(fs, owner, {}, r);
    TakenBlock(fs, r);
    var a := Attached(t, i, s, r);
    forall k: nat, n: nat | k < |fs.inodes| && n < MAXFILE
      ensures Addr(a, k, n) == if k == i && SlotOf(n) == s then r else Addr(fs, k, n)
    {
      AttachedRef(t, i, s, r, k, SlotOf(n));
    }
    hide Ref;
    BlocksKeepData(fs, owner, a, {r});
  }

  /** Changing metadata and the given blocks, none of which holds file data, keeps all file data. */
  lemma BlocksKeepData(fs: FS, owner: map<nat, Place>, a: FS, touched: set<nat>)
    requires Own(fs, owner, {}) && |a.blocks| == |fs.blocks|
    requires forall b :: b in touched ==> b !in owner || owner[b].slot == IND
    requires forall k :: fs.sb.nmeta <= k < |fs.blocks| && k !in touched ==> a.blocks[k] == fs.blocks[k]
    ensures DataKept(fs, a)
  {
    hide Ref;
    forall k: nat, n: nat | k < |fs.inodes| && n < MAXFILE && 0 < Addr(fs, k, n) < |fs.blocks|
      ensures a.blocks[Addr(fs, k, n)] == fs.blocks[Addr(fs, k, n)]
    {
      AddrOwned(fs, owner, {}, k, n);
    }
  }

  /** A fresh block stored in an empty entry of the indirect block is owned by it. */
  lemma EntryOwns(fs: FS, owner: map<nat, Place>, i: nat, j: nat, r: nat)
    requires Own(fs, owner, {}) && i < |fs.inodes| && j < NINDIRECT
    requires 0 < fs.inodes[i].addrs[IND] < |fs.blocks| && Ref(fs, i, j + IND + 1) == 0
    requires r < fs.sb.size && !Used(fs, r)
    ensures fs.sb.nmeta <= r < UINT
    ensures var e := EntrySet(Taken(fs, r), i, j, r);
      && Own(e, owner[r := Place(i, j + IND + 1)], {})
      && Ref(e, i, j + IND + 1) == r && e.blocks[r] == Zeroes()
  {
    hide Taken, Used, Zeroes, RefsOwned, OwnersHold, BitsExact, SetWord, Word, Ref;
    var t := Taken(fs, r);
    TakenOwn(fs, owner, {}, r);
    TakenBlock(fs, r);
    IndirectOwned(fs, owner, i);
    assert {r} - {r} == {} && {} + {r} == {r};
    EntrySetOwn(t, owner, {r}, i, j, r);
    EntrySetRef(t, owner, i, j, r, i, j + IND + 1);
    assert EntrySet(t, i, j, r).blocks[r] == t.blocks[r];
  }

  lemma EntryAllots(fs: FS, owner: map<nat, Place>, i: nat, j: nat, r: nat)
    requires Own(fs, owner, {}) && i < |fs.inodes| && j < NINDIRECT && 0 < fs.inodes[i].addrs[IND] < |fs.blocks|
    requires fs.sb.nmeta <= r < fs.sb.size && r < UINT && !Used(fs, r) && forall b: nat :: b < r ==> Used(fs, b)
    ensures Allots(fs, EntrySet(Taken(fs, r), i, j, r), [r])
  {
    hide Taken, RefsOwned, OwnersHold, BitsExact, SetWord, Word, Zeroes;
    var t := Taken(fs, r);
    TakenBlock(fs, r);
    IndirectOwned(fs, owner, i);
    var e := EntrySet(t, i, j, r);
    forall b: nat | b < fs.sb.size ensures Used(e, b) == Used(t, b) { UsedSame(t, e, b); }
    AllotsOne(fs, e, r);
  }

  lemma EntryGrows(fs: FS, owner: map<nat, Place>, i: nat, j: nat, r: nat)
    requires Own(fs, owner, {}) && i < |fs.inodes| && j < NINDIRECT
    requires 0 < fs.inodes[i].addrs[IND] < |fs.blocks| && Ref(fs, i, j + IND + 1) == 0
    requires r < fs.sb.size && !Used(fs, r)
    ensures Grown(fs, EntrySet(Taken(fs, r), i, j, r), i, j + NDIRECT)
  {
    hide Taken, Used, Zeroes, RefsOwned, OwnersHold, BitsExact, SetWord, Word;
    var t := Taken(fs, r);
    var ind := fs.inodes[i].addrs[IND];
    TakenOwn(fs, owner, {}, r);
    TakenBlock(fs, r);
    IndirectOwned(fs, owner, i);
    var e := EntrySet(t, i, j, r);
    forall k: nat, n: nat | k < |fs.inodes| && n < MAXFILE
      ensures Addr(e, k, n) == if k == i && n == j + NDIRECT then r else Addr(fs, k, n)
    {
      EntrySetRef(t, owner, i, j, r, k, SlotOf(n));
    }
    hide Ref;
    BlocksKeepData(fs, owner, e, {r, ind});
  }

  /** The block itself, or nothing for block number 0. */
  function One(b: nat): set<nat> {
    if b == 0 then {} else {b}
  }

  /** Number of blocks a write of n > 0 bytes at off reaches into. */
  function Touched(off: nat, n: nat): nat
    requires n > 0
  {
    (off + n - 1) / BSIZE - off / BSIZE + 1
  }

  /** Most blocks writei can log for n bytes at off: each block reached into and its bitmap block,
      except that an unaligned first block already exists; the indirect block and its bitmap block;
      and the inode's block. */
  function LogBound(off: nat, n: nat): nat {
    if n == 0 then 1 else 2 * Touched(off, n) + 3 - (if off % BSIZE != 0 then 1 else 0)
  }

  // ---------- file contents ----------

  /** Byte o of file i; 0 where the file has no block. */
  ghost function FileByte(fs: FS, i: nat, o: nat): Byte
    requires LayoutOk(fs) && i < |fs.inodes|
  {
    if o / BSIZE >= MAXFILE then 0
    else
      var a := Addr(fs, i, o / BSIZE);
      if 0 < a < |fs.blocks| then fs.blocks[a][o % BSIZE] else 0
  }

  /** The bytes of file i, as a reader sees them. */
  ghost function Contents(fs: FS, i: nat): (c: seq<Byte>)
    requires LayoutOk(fs) && i < |fs.inodes|
    ensures |c| == fs.inodes[i].size
  {
    seq(fs.inodes[i].size, o requires 0 <= o < fs.inodes[i].size => FileByte(fs, i, o))
  }

  /** Overwrite c from position off with the given bytes, growing it if they reach past its end. */
  function Splice(c: seq<Byte>, off: nat, bytes: seq<Byte>): (r: seq<Byte>)
    requires off <= |c|
    ensures |r| == if off + |bytes| > |c| then off + |bytes| else |c|
  {
    if off + |bytes| > |c| then c[..off] + bytes else c[..off] + bytes + c[off + |bytes|..]
  }

  /** File k is the same file, byte for byte, in fs'. */
  ghost predicate SameFile(fs: FS, fs': FS, k: nat)
    requires LayoutOk(fs) && LayoutOk(fs') && k < |fs.inodes| == |fs'.inodes|
  {
    && fs'.inodes[k].size == fs.inodes[k].size
    && (forall n: nat :: n < MAXFILE ==> Addr(fs', k, n) == Addr(fs, k, n))
    && (forall o: nat :: o < MAXFILE * BSIZE ==> FileByte(fs', k, o) == FileByte(fs, k, o))
  }

  lemma SameContents(fs: FS, fs': FS, k: nat)
    requires LayoutOk(fs) && LayoutOk(fs') && k < |fs.inodes| == |fs'.inodes| && SameFile(fs, fs', k) && FileOk(fs, k)
    ensures FileOk(fs', k) && Contents(fs', k) == Contents(fs, k)
  {
  }

  /** Overwriting a file's data block changes no reference and no bit. */
  lemma DataWrite(fs: FS, owner: map<nat, Place>, i: nat, bn: nat, data: Data)
    requires Own(fs, owner, {}) && i < |fs.inodes| && bn < MAXFILE && Addr(fs, i, bn) != 0
    ensures Addr(fs, i, bn) < fs.sb.size
    ensures var fs' := fs.(blocks := fs.blocks[Addr(fs, i, bn) := data]);
      && Own(fs', owner, {})
      && (forall k: nat, n: nat :: k < |fs.inodes| && n < MAXFILE ==> Addr(fs', k, n) == Addr(fs, k, n))
      && (forall k: nat, o: nat :: k < |fs.inodes| && o < MAXFILE * BSIZE ==>
            FileByte(fs', k, o) == if k == i && o / BSIZE == bn then data[o % BSIZE] else FileByte(fs, k, o))
      && SameMap(fs, fs', i)
  {
    hide Used, Word;
    var a := Addr(fs, i, bn);
    AddrOwned(fs, owner, {}, i, bn);
    var fs' := fs.(blocks := fs.blocks[a := data]);
    forall k: nat, t: nat | k < |fs.inodes| && t < SLOTS ensures Ref(fs', k, t) == Ref(fs, k, t) {
      IndirectOwned(fs, owner, k);
      RefSame(fs, fs', k, t);
    }
    forall b: nat | b < fs.sb.size ensures Used(fs', b) == Used(fs, b) { UsedSame(fs, fs', b); }
    SameOwn(fs, fs', owner);
    forall k: nat, o: nat | k < |fs.inodes| && o < MAXFILE * BSIZE
      ensures FileByte(fs', k, o) == if k == i && o / BSIZE == bn then data[o % BSIZE] else FileByte(fs, k, o)
    {
      if Addr(fs, k, o / BSIZE) != 0 { AddrOwned(fs, owner, {}, k, o / BSIZE); }
    }
  }

  lemma UsedSame(fs: FS, fs': FS, b: nat)
    requires LayoutOk(fs) && LayoutOk(fs') && fs'.sb == fs.sb && b < fs.sb.size
    requires forall k :: 0 <= k < fs.sb.nmeta ==> fs'.blocks[k] == fs.blocks[k]
    ensures Used(fs', b) == Used(fs, b)
  {
  }

  lemma SameOwn(fs: FS, fs': FS, owner: map<nat, Place>)
    requires Own(fs, owner, {}) && LayoutOk(fs') && fs'.sb == fs.sb && |fs'.inodes| == |fs.inodes|
    requires forall k: nat, t: nat :: k < |fs.inodes| && t < SLOTS ==> Ref(fs', k, t) == Ref(fs, k, t)
    requires forall b: nat :: b < fs.sb.size ==> Used(fs', b) == Used(fs, b)
    ensures Own(fs', owner, {})
  {
    hide Ref, Used;
    forall b | b in owner ensures Holds(fs', b, owner[b]) { assert Holds(fs, b, owner[b]); }
  }

  /** Part-way through writei: bytes have gone into file i from position off on, its size is not yet
      updated, and every other file is untouched. */
  ghost predicate Written(fs0: FS, fs: FS, i: nat, off: nat, bytes: seq<Byte>)
    requires LayoutOk(fs0) && LayoutOk(fs) && i < |fs0.inodes|
  {
    && fs.sb == fs0.sb && |fs.inodes| == |fs0.inodes| && fs.inodes[i].size == fs0.inodes[i].size
    && (forall k: nat :: k < |fs0.inodes| && k != i ==> SameFile(fs0, fs, k))
    && (forall n: nat :: n < MAXFILE && Addr(fs0, i, n) != 0 ==> Addr(fs, i, n) == Addr(fs0, i, n))
    && (forall o: nat :: o < MAXFILE * BSIZE && off <= o < off + |bytes| ==>
          Addr(fs, i, o / BSIZE) != 0 && FileByte(fs, i, o) == bytes[o - off])
    && (forall o: nat :: o < MAXFILE * BSIZE && !(off <= o < off + |bytes|) && Addr(fs0, i, o / BSIZE) != 0 ==>
          FileByte(fs, i, o) == FileByte(fs0, i, o))
  }

  lemma WrittenNothing(fs: FS, i: nat, off: nat)
    requires LayoutOk(fs) && i < |fs.inodes|
    ensures Written(fs, fs, i, off, [])
  {
    hide Addr;
  }

  /** Growing the file by a block keeps every byte that was there. */
  lemma GrownBytes(fs: FS, fs1: FS, owner: map<nat, Place>, i: nat, bn: nat, k: nat, o: nat)
    requires Own(fs, owner, {}) && LayoutOk(fs1) && i < |fs.inodes| && bn < MAXFILE && Grown(fs, fs1, i, bn)
    requires k < |fs.inodes| && o < MAXFILE * BSIZE && (k != i || Addr(fs, i, o / BSIZE) != 0)
    ensures FileByte(fs1, k, o) == FileByte(fs, k, o)
  {
    hide Ref;
    if Addr(fs, k, o / BSIZE) != 0 { AddrOwned(fs, owner, {}, k, o / BSIZE); }
  }

  lemma WrittenGrown(fs0: FS, fs: FS, fs1: FS, owner: map<nat, Place>, i: nat, off: nat, bytes: seq<Byte>, bn: nat)
    requires LayoutOk(fs0) && Own(fs, owner, {}) && LayoutOk(fs1) && i < |fs0.inodes| && bn < MAXFILE
    requires Written(fs0, fs, i, off, bytes) && Grown(fs, fs1, i, bn)
    ensures Written(fs0, fs1, i, off, bytes)
  {
    hide Addr, RefsOwned, OwnersHold, BitsExact;
    forall k: nat, o: nat | k < |fs.inodes| && o < MAXFILE * BSIZE && (k != i || Addr(fs, i, o / BSIZE) != 0)
      ensures FileByte(fs1, k, o) == FileByte(fs, k, o)
    {
      GrownBytes(fs, fs1, owner, i, bn, k, o);
    }
    hide FileByte;
    forall k: nat | k < |fs0.inodes| && k != i ensures SameFile(fs0, fs1, k) {
      assert SameFile(fs0, fs, k);
    }
  }

  /** A block with a run of bytes replaced. */
  function Patch(d: Data, at: nat, bytes: seq<Byte>): Data
    requires at + |bytes| <= BSIZE
  {
    d[..at] + bytes + d[at + |bytes|..]
  }

  /** Block bn of file i with a run of its bytes replaced. */
  ghost function PatchFile(fs: FS, i: nat, bn: nat, at: nat, chunk: seq<Byte>): FS
    requires LayoutOk(fs) && i < |fs.inodes| && bn < MAXFILE && Addr(fs, i, bn) < |fs.blocks| && at + |chunk| <= BSIZE
  {
    var a := Addr(fs, i, bn);
    fs.(blocks := fs.blocks[a := Patch(fs.blocks[a], at, chunk)])
  }

  /** One pass of writei's loop adds one run of bytes, within one block. */
  lemma WrittenChunk(fs0: FS, fs: FS, owner: map<nat, Place>, i: nat, off: nat, bytes: seq<Byte>, chunk: seq<Byte>,
          bn: nat, at: nat)
    requires LayoutOk(fs0) && Own(fs, owner, {}) && i < |fs0.inodes| && Written(fs0, fs, i, off, bytes)
    requires bn < MAXFILE && at < BSIZE && off + |bytes| == bn * BSIZE + at && 0 < |chunk| <= BSIZE - at
    requires Addr(fs, i, bn) != 0
    ensures Addr(fs, i, bn) < |fs.blocks|
    ensures Own(PatchFile(fs, i, bn, at, chunk), owner, {})
    ensures Written(fs0, PatchFile(fs, i, bn, at, chunk), i, off, bytes + chunk)
    ensures SameMap(fs, PatchFile(fs, i, bn, at, chunk), i)
  {
    hide Ref, Used, RefsOwned, OwnersHold, BitsExact;
    AddrOwned(fs, owner, {}, i, bn);
    var a := Addr(fs, i, bn);
    var data := Patch(fs.blocks[a], at, chunk);
    var fs' := PatchFile(fs, i, bn, at, chunk);
    DataWrite(fs, owner, i, bn, data);
    hide Addr;
    forall o: nat | o < MAXFILE * BSIZE && off <= o < off + |bytes + chunk|
      ensures Addr(fs', i, o / BSIZE) != 0 && FileByte(fs', i, o) == (bytes + chunk)[o - off]
    {
      PatchedByte(fs, i, bn, at, chunk, o);
    }
    forall o: nat | o < MAXFILE * BSIZE && !(off <= o < off + |bytes + chunk|) && Addr(fs0, i, o / BSIZE) != 0
      ensures FileByte(fs', i, o) == FileByte(fs0, i, o)
    {
      PatchedByte(fs, i, bn, at, chunk, o);
    }
    forall k: nat | k < |fs0.inodes| && k != i ensures SameFile(fs0, fs', k) {
      assert SameFile(fs0, fs, k);
    }
  }

  /** Which bytes of the file a patch to its block bn changes. */
  lemma PatchedByte(fs: FS, i: nat, bn: nat, at: nat, chunk: seq<Byte>, o: nat)
    requires LayoutOk(fs) && i < |fs.inodes| && bn < MAXFILE && at + |chunk| <= BSIZE && o < MAXFILE * BSIZE
    requires 0 < Addr(fs, i, bn) < |fs.blocks|
    ensures var p := bn * BSIZE + at; var data := Patch(fs.blocks[Addr(fs, i, bn)], at, chunk);
      (if o / BSIZE == bn then data[o % BSIZE] else FileByte(fs, i, o)) ==
      (if p <= o < p + |chunk| then chunk[o - p] else FileByte(fs, i, o))
    ensures bn * BSIZE + at <= o < bn * BSIZE + at + |chunk| ==> o / BSIZE == bn
  {
    hide Addr;
    var p := bn * BSIZE + at;
    if p <= o < p + |chunk| {
      assert o / BSIZE == bn && o % BSIZE == at + (o - p);
    }
  }

  /** The end of writei: with the size raised to what was reached, file i reads as its old contents
      with the bytes spliced in, and every other file as before. */
  lemma WrittenContents(fs0: FS, fs: FS, fs': FS, i: nat, off: nat, bytes: seq<Byte>)
    requires LayoutOk(fs0) && LayoutOk(fs) && LayoutOk(fs') && i < |fs0.inodes| && Written(fs0, fs, i, off, bytes)
    requires forall k: nat :: k < |fs0.inodes| ==> FileOk(fs0, k)
    requires off <= fs0.inodes[i].size && off + |bytes| <= MAXFILE * BSIZE
    requires fs'.sb == fs.sb && fs'.blocks == fs.blocks && |fs'.inodes| == |fs.inodes|
    requires forall k: nat :: k < |fs.inodes| ==> fs'.inodes[k].addrs == fs.inodes[k].addrs
    requires forall k: nat :: k < |fs.inodes| && k != i ==> fs'.inodes[k] == fs.inodes[k]
    requires fs'.inodes[i].size == if off + |bytes| > fs.inodes[i].size then off + |bytes| else fs.inodes[i].size
    ensures forall k: nat :: k < |fs0.inodes| ==> FileOk(fs', k)
    ensures Contents(fs', i) == Splice(Contents(fs0, i), off, bytes)
    ensures forall k: nat :: k < |fs0.inodes| && k != i ==> Contents(fs', k) == Contents(fs0, k)
  {
    forall k: nat, n: nat | k < |fs.inodes| && n < MAXFILE ensures Addr(fs', k, n) == Addr(fs, k, n) {
      RefSame(fs, fs', k, SlotOf(n));
    }
    hide Addr;
    forall k: nat, o: nat | k < |fs.inodes| && o < MAXFILE * BSIZE ensures FileByte(fs', k, o) == FileByte(fs, k, o) {}
    hide FileByte;
    forall k: nat | k < |fs0.inodes| && k != i ensures FileOk(fs', k) && Contents(fs', k) == Contents(fs0, k) {
      assert SameFile(fs0, fs, k) && FileOk(fs0, k);
      SameContents(fs0, fs', k);
    }
    assert FileOk(fs0, i);
    forall n: nat | n < MAXFILE && n * BSIZE < fs'.inodes[i].size ensures Addr(fs', i, n) != 0 {
      var o := n * BSIZE;
      assert o / BSIZE == n;
      assert o < fs0.inodes[i].size || off <= o < off + |bytes|;
    }
    assert FileOk(fs', i);
    hide FileOk, Contents;
    SplicedContents(fs0, fs, fs', i, off, bytes);
  }

  /** Raising the size of inode i changes no reference. */
  lemma SizeRaised(fs0: FS, fs: FS, fs': FS, owner: map<nat, Place>, i: nat, off: nat, bytes: seq<Byte>)
    requires LayoutOk(fs0) && Own(fs, owner, {}) && LayoutOk(fs) && i < |fs0.inodes| == |fs.inodes|
    requires Written(fs0, fs, i, off, bytes)
    requires forall k: nat :: k < |fs0.inodes| ==> FileOk(fs0, k)
    requires off <= fs0.inodes[i].size && off + |bytes| <= MAXFILE * BSIZE
    requires fs' == if off + |bytes| > fs.inodes[i].size
        then fs.(inodes := fs.inodes[i := fs.inodes[i].(size := off + |bytes|)]) else fs
    ensures LayoutOk(fs') && Own(fs', owner, {}) && (Full(fs) ==> Full(fs')) && SameMap(fs, fs', i)
    ensures forall k: nat :: k < |fs0.inodes| ==> FileOk(fs', k)
    ensures Contents(fs', i) == Splice(Contents(fs0, i), off, bytes)
    ensures forall k: nat :: k < |fs0.inodes| && k != i ==> Contents(fs', k) == Contents(fs0, k)
  {
    hide FileOk, Contents, Written, Used;
    assert fs.inodes[i].size == fs0.inodes[i].size by { WrittenSize(fs0, fs, i, off, bytes); }
    forall k: nat, t: nat | k < |fs.inodes| && t < SLOTS ensures Ref(fs', k, t) == Ref(fs, k, t) {
      RefSame(fs, fs', k, t);
    }
    forall b: nat | b < fs.sb.size ensures Used(fs', b) == Used(fs, b) { UsedSame(fs, fs', b); }
    SameOwn(fs, fs', owner);
    WrittenContents(fs0, fs, fs', i, off, bytes);
  }

  lemma WrittenSize(fs0: FS, fs: FS, i: nat, off: nat, bytes: seq<Byte>)
    requires LayoutOk(fs0) && LayoutOk(fs) && i < |fs0.inodes| && Written(fs0, fs, i, off, bytes)
    ensures |fs.inodes| == |fs0.inodes| && fs.inodes[i].size == fs0.inodes[i].size
  {
  }

  lemma SplicedContents(fs0: FS, fs: FS, fs': FS, i: nat, off: nat, bytes: seq<Byte>)
    requires LayoutOk(fs0) && LayoutOk(fs) && LayoutOk(fs') && i < |fs0.inodes| && Written(fs0, fs, i, off, bytes)
    requires FileOk(fs0, i) && |fs'.inodes| == |fs.inodes|
    requires off <= fs0.inodes[i].size && off + |bytes| <= MAXFILE * BSIZE
    requires forall k: nat, o: nat :: k < |fs.inodes| && o < MAXFILE * BSIZE ==>
        FileByte(fs', k, o) == FileByte(fs, k, o)
    requires fs'.inodes[i].size == if off + |bytes| > fs.inodes[i].size then off + |bytes| else fs.inodes[i].size
    ensures Contents(fs', i) == Splice(Contents(fs0, i), off, bytes)
  {
    hide Addr, LayoutOk, FileByte;
    var c, c0 := Contents(fs', i), Contents(fs0, i);
    forall o | 0 <= o < |c| ensures c[o] == Splice(c0, off, bytes)[o] {
      if !(off <= o < off + |bytes|) {
        assert o / BSIZE * BSIZE <= o;
        assert Addr(fs0, i, o / BSIZE) != 0;
      }
    }
  }

  class FileSystem {
    const sb: Super
    var blocks: seq<Data>      // every block as the log layer shows it
    var inodes: seq<Inode>     // the in-memory inodes
    var dinodes: seq<Inode>    // the inodes in the inode blocks
    var logged: set<nat>       // blocks passed to log_write by the current operation
    ghost var owner: map<nat, Place>

    constructor (sb: Super, blocks: seq<Data>, inodes: seq<Inode>, ghost owner: map<nat, Place>)
      requires Own(FS(sb, blocks, inodes), owner, {})
      requires forall i: nat :: i < |inodes| ==> FileOk(FS(sb, blocks, inodes), i)
      ensures Valid() && Fs() == FS(sb, blocks, inodes) && this.owner == owner && logged == {}
    {
      this.sb := sb;
      this.blocks, this.inodes, this.dinodes, this.logged := blocks, inodes, inodes, {};
      this.owner := owner;
    }

    ghost function Fs(): FS
      reads this
    {
      FS(sb, blocks, inodes)
    }

    ghost predicate Owned(extra: set<nat>)
      reads this
    {
      Own(Fs(), owner, extra) && |dinodes| == |inodes|
    }

    ghost predicate Valid()
      reads this
    {
      Owned({}) && forall i: nat :: i < |inodes| ==> FileOk(Fs(), i)
    }

    function BBlockOf(b: nat): nat {
      b / BPB + sb.bmapstart
    }

    function IBlockOf(inum: nat): nat {
      inum / IPB + sb.inodestart
    }

    method LogWrite(b: nat)
      modifies `logged
      ensures logged == old(logged) + {b}
    {
      logged := logged + {b};
    }

    /** balloc's inner loop: the first clear bit of one bitmap block, or its end. */
    method ScanBlock(b: nat) returns (bi: nat)
      requires LayoutOk(Fs()) && b % BPB == 0 && b < sb.size
      ensures bi <= BPB && forall k: nat :: b <= k < b + bi && k < sb.size ==> Used(Fs(), k)
      ensures bi < BPB && b + bi < sb.size ==> !Used(Fs(), b + bi)
    {
      hide Bit;
      var m := BBlockOf(b);
      bi := 0;
      while bi < BPB && b + bi < sb.size
        invariant bi <= BPB && forall k: nat :: b <= k < b + bi && k < sb.size ==> Used(Fs(), k)
      {
        BitPosition(b, bi);
        if !Bit(blocks[m][bi / 8], bi % 8) {
          return;
        }
        assert Used(Fs(), b + bi);
        bi := bi + 1;
      }
    }

    /** Mark a block in use and zero it, logging both. */
    method TakeBlock(r: nat)
      requires LayoutOk(Fs()) && r < sb.size
      modifies `blocks, `logged
      ensures LayoutOk(old(Fs())) && Fs() == Taken(old(Fs()), r) && logged == old(logged) + {BBlockOf(r), r}
      ensures LogsAll(old(blocks), blocks, old(logged), logged)
    {
      var m := BBlockOf(r);
      var bi := r % BPB;
      blocks := blocks[m := blocks[m][bi / 8 := PutByteBit(blocks[m][bi / 8], bi % 8, true)]];
      LogWrite(m);
      blocks := blocks[r := Zeroes()];
      LogWrite(r);
    }

    /** balloc: the lowest free block, zeroed, or 0 when every block is in use. */
    method Balloc(ghost extra: set<nat>) returns (r: nat)
      requires Owned(extra)
      modifies `blocks, `logged
      ensures LayoutOk(old(Fs())) && LogsAll(old(blocks), blocks, old(logged), logged)
      ensures r == 0 ==> blocks == old(blocks) && logged == old(logged) && Full(Fs())
      ensures r != 0 ==>
        && sb.nmeta <= r < sb.size && !Used(old(Fs()), r) && (forall b: nat :: b < r ==> Used(old(Fs()), b))
        && Fs() == Taken(old(Fs()), r) && logged == old(logged) + {BBlockOf(r), r}
        && Owned(extra + {r})
    {
      ghost var fs := Fs();
      hide Used, Taken, RefsOwned, OwnersHold, BitsExact;
      var b := 0;
      while b < sb.size
        invariant b % BPB == 0 && blocks == old(blocks) && logged == old(logged)
        invariant forall k: nat :: k < b && k < sb.size ==> Used(fs, k)
      {
        var bi := ScanBlock(b);
        if bi < BPB && b + bi < sb.size {
          TakenOwn(fs, owner, extra, b + bi);
          TakeBlock(b + bi);
          return b + bi;
        }
        assert Fs() == fs;
        forall k: nat | k < b + BPB && k < sb.size ensures Used(fs, k) {
          assert k < b || k < b + bi;
        }
        b := b + BPB;
      }
      r := 0;
    }

    /** bfree. The block is in use, so the "freeing free block" panic is not reached. */
    method Bfree(b: nat)
      requires LayoutOk(Fs()) && b < sb.size && Used(Fs(), b)
      modifies `blocks, `logged
      ensures LayoutOk(old(Fs())) && Fs() == Mark(old(Fs()), b, false) && logged == old(logged) + {BBlockOf(b)}
      ensures LogsAll(old(blocks), blocks, old(logged), logged)
    {
      var m := BBlockOf(b);
      var bi := b % BPB;
      blocks := blocks[m := blocks[m][bi / 8 := PutByteBit(blocks[m][bi / 8], bi % 8, false)]];
      LogWrite(m);
    }
  
    /** Allocate a block for an empty direct slot, or for the indirect block. */
    method FillSlot(i: nat, s: nat, ghost bn: nat) returns (r: nat)
      requires Owned({}) && i < |inodes| && s <= IND && inodes[i].addrs[s] == 0
      requires bn < MAXFILE && (s == IND || s == SlotOf(bn))
      modifies `blocks, `inodes, `logged, `owner
      ensures Owned({}) && LayoutOk(old(Fs())) && Grown(old(Fs()), Fs(), i, bn)
      ensures LogsAll(old(blocks), blocks, old(logged), logged) && Gains(old(owner), owner, i)
      ensures r == 0 ==> Fs() == old(Fs()) && logged == old(logged) && owner == old(owner) && Full(Fs())
      ensures r != 0 ==>
        && sb.nmeta <= r < sb.size && Ref(Fs(), i, s) == r && blocks[r] == Zeroes()
        && inodes == old(inodes)[i := old(inodes)[i].(addrs := old(inodes)[i].addrs[s := r])]
        && logged == old(logged) + {BBlockOf(r), r} && Allots(old(Fs()), Fs(), [r])
    {
      hide Taken, Grown, RefsOwned, OwnersHold, BitsExact, Used, Zeroes, Allots;
      ghost var fs := Fs();
      SameGrown(fs, i, bn);
      r := Balloc({});
      if r != 0 {
        AttachOwns(fs, owner, i, s, r);
        AttachGrows(fs, owner, i, s, r, bn);
        AttachAllots(fs, i, s, r);
        inodes := inodes[i := inodes[i].(addrs := inodes[i].addrs[s := r])];
        owner := owner[r := Place(i, s)];
      }
    }
  
    /** Allocate a block for an empty entry of the indirect block. */
    method FillEntry(i: nat, j: nat) returns (r: nat)
      requires Owned({}) && i < |inodes| && j < NINDIRECT
      requires 0 < inodes[i].addrs[IND] < |blocks| && Ref(Fs(), i, j + IND + 1) == 0
      modifies `blocks, `logged, `owner
      ensures Owned({}) && LayoutOk(old(Fs())) && Grown(old(Fs()), Fs(), i, j + NDIRECT)
      ensures LogsAll(old(blocks), blocks, old(logged), logged) && Gains(old(owner), owner, i)
      ensures r == 0 ==> Fs() == old(Fs()) && logged == old(logged) && owner == old(owner) && Full(Fs())
      ensures r != 0 ==>
        && sb.nmeta <= r < sb.size && Ref(Fs(), i, j + IND + 1) == r && blocks[r] == Zeroes()
        && logged == old(logged) + {BBlockOf(r), r, inodes[i].addrs[IND]} && Allots(old(Fs()), Fs(), [r])
    {
      hide Taken, Grown, RefsOwned, OwnersHold, BitsExact, Used, SetWord, Zeroes, Allots;
      ghost var fs := Fs();
      SameGrown(fs, i, j + NDIRECT);
      var ind := inodes[i].addrs[IND];
      r := Balloc({});
      if r != 0 {
        EntryOwns(fs, owner, i, j, r);
        EntryGrows(fs, owner, i, j, r);
        EntryAllots(fs, owner, i, j, r);
        ghost var b1, l1 := blocks, logged;
        blocks := blocks[ind := SetWord(blocks[ind], j, r)];
        LogWrite(ind);
        LogsThen(old(blocks), b1, blocks, old(logged), l1, logged);
        owner := owner[r := Place(i, j + IND + 1)];
      }
    }
  
    /** bmap: the disk block of file block bn, allocated if there is none; 0 when the disk is full. */
    method Bmap(i: nat, bn: nat) returns (addr: nat, ghost p: Pass)
      requires Owned({}) && i < |inodes| && bn < MAXFILE
      modifies `blocks, `inodes, `logged, `owner
      ensures Owned({}) && LayoutOk(old(Fs())) && Grown(old(Fs()), Fs(), i, bn)
      ensures Mapped(old(Fs()), Fs(), i, p) && p.bn == bn && p.addr == addr && !p.wrote
      ensures logged == old(logged) + MapLog(sb, p) && LogsAll(old(blocks), blocks, old(logged), logged)
      ensures Gains(old(owner), owner, i) && OnlyInode(old(inodes), inodes, i)
      ensures Addr(old(Fs()), i, bn) != 0 ==> Fs() == old(Fs()) && logged == old(logged) && owner == old(owner)
      ensures p.made ==> blocks[addr] == Zeroes()
      ensures addr == 0 ==> Full(Fs())
    {
      hide Grown, RefsOwned, OwnersHold, BitsExact, Used, Word, Zeroes, Allots, NextFree, Full;
      ghost var fs := Fs();
      SameGrown(fs, i, bn);
      AllotsNone(fs);
      if bn < NDIRECT {
        addr := inodes[i].addrs[bn];
        p := Pass(bn, addr, false, inodes[i].addrs[IND], false, false);
        if addr == 0 {
          addr := FillSlot(i, bn, bn);
          p := p.(addr := addr, made := addr != 0);
        }
        assert PassTaken(p) == if p.made then [addr] else [];
        GrownMaps(fs, Fs(), i, p);
        return;
      }
      var j := bn - NDIRECT;
      var ind := inodes[i].addrs[IND];
      if ind == 0 {
        ind := FillSlot(i, IND, bn);
        if ind == 0 {
          addr, p := 0, Pass(bn, 0, false, 0, false, false);
          assert PassTaken(p) == [];
          GrownMaps(fs, Fs(), i, p);
          return;
        }
        ZeroWords(j);
      } else {
        IndirectOwned(fs, owner, i);
      }
      ghost var fs1, l1 := Fs(), logged;
      addr, p := BmapEntry(i, j, ind);
      LogsThen(old(blocks), fs1.blocks, blocks, old(logged), l1, logged);
      GrownTwice(fs, fs1, Fs(), old(owner), i, bn);
      p := p.(madeInd := fs.inodes[i].addrs[IND] == 0);
      ghost var first := if p.madeInd then [ind] else [];
      assert PassTaken(p.(madeInd := false)) == if p.made then [addr] else [];
      AllotsThen(fs, fs1, Fs(), first, if p.made then [addr] else []);
      GrownMaps(fs, Fs(), i, p);
    }

    /** The entry of the indirect block for file block j + NDIRECT. */
    method BmapEntry(i: nat, j: nat, ind: nat) returns (addr: nat, ghost p: Pass)
      requires Owned({}) && i < |inodes| && j < NINDIRECT && ind == inodes[i].addrs[IND] && 0 < ind < |blocks|
      modifies `blocks, `logged, `owner
      ensures Owned({}) && LayoutOk(old(Fs())) && Grown(old(Fs()), Fs(), i, j + NDIRECT)
      ensures LogsAll(old(blocks), blocks, old(logged), logged) && addr == Addr(Fs(), i, j + NDIRECT)
      ensures Gains(old(owner), owner, i)
      ensures p == Pass(j + NDIRECT, addr, Addr(old(Fs()), i, j + NDIRECT) == 0 && addr != 0, ind, false, false)
      ensures logged == old(logged) + MapLog(sb, p) && Allots(old(Fs()), Fs(), PassTaken(p))
      ensures Addr(old(Fs()), i, j + NDIRECT) != 0 ==> Fs() == old(Fs()) && logged == old(logged) && owner == old(owner)
      ensures p.made ==> blocks[addr] == Zeroes()
      ensures addr == 0 ==> Full(Fs())
    {
      hide Grown, RefsOwned, OwnersHold, BitsExact, Used, Word, Zeroes, Allots, NextFree, Full;
      SameGrown(Fs(), i, j + NDIRECT);
      AllotsNone(Fs());
      addr := Word(blocks[ind], j);
      p := Pass(j + NDIRECT, addr, false, ind, false, false);
      if addr == 0 {
        addr := FillEntry(i, j);
        p := p.(addr := addr, made := addr != 0);
      }
      assert PassTaken(p) == if p.made then [addr] else [];
    }

    /** iupdate: copy the in-memory inode to its inode block. */
    method Iupdate(i: nat)
      requires i < |inodes| == |dinodes|
      modifies `dinodes, `logged
      ensures dinodes == old(dinodes)[i := inodes[i]] && logged == old(logged) + {IBlockOf(i)}
    {
      dinodes := dinodes[i := inodes[i]];
      LogWrite(IBlockOf(i));
    }

    /** bmap and bread of the block at byte p of a file, below its size. */
    method ReadBlock(i: nat, p: nat, m: nat) returns (run: seq<Byte>)
      requires Valid() && i < |inodes| && p + m <= inodes[i].size && 0 < m <= BSIZE - p % BSIZE
      modifies `blocks, `inodes, `logged, `owner
      ensures blocks == old(blocks) && inodes == old(inodes) && logged == old(logged) && owner == old(owner)
      ensures Valid() && run == Contents(Fs(), i)[p..p + m]
    {
      hide Grown, RefsOwned, OwnersHold, BitsExact, Addr, FileByte, LayoutOk;
      assert FileOk(Fs(), i);
      FileHasBlock(Fs(), owner, i, p);
      var addr, _ := Bmap(i, p / BSIZE);
      ReadRun(Fs(), owner, i, p, m);
      run := blocks[addr][p % BSIZE..p % BSIZE + m];
    }

    /** readi's loop, for a range within the file. */
    method CopyOut(i: nat, off: nat, want: nat, copyOk: nat -> bool) returns (r: int, dst: seq<Byte>)
      requires Valid() && i < |inodes| && off + want <= inodes[i].size
      modifies `blocks, `inodes, `logged, `owner
      ensures Fs() == old(Fs()) && logged == old(logged) && owner == old(owner) && Valid()
      ensures r == (if CopiesOk(off, 0, want, copyOk) then want else -1)
      ensures |dst| <= want && dst == Contents(Fs(), i)[off..off + |dst|] && CopiesOk(off, 0, |dst|, copyOk)
      ensures r == -1 ==> |dst| < want && RunStart(off, 0, |dst|) && !copyOk(|dst|)
      ensures r != -1 ==> |dst| == want
    {
      hide Valid, LayoutOk, Contents, RunLength, CopiesOk, RunStart;
      ValidLaidOut();
      ghost var c := Contents(Fs(), i);
      dst := [];
      var tot := 0;
      CopiesNone(off, 0, copyOk);
      while tot < want
        invariant tot <= want && dst == c[off..off + tot] && Valid()
        invariant CopiesOk(off, 0, tot, copyOk) && (tot < want ==> RunStart(off, 0, tot))
        invariant blocks == old(blocks) && inodes == old(inodes) && logged == old(logged) && owner == old(owner)
      {
        var p := off + tot;
        var m := RunLength(p, want - tot);
        RunFits(p, want - tot);
        CopiesMore(off, 0, tot, want, copyOk);
        var run := ReadBlock(i, p, m);
        if !copyOk(tot) {
          return -1, dst;
        }
        assert c[off..p] + c[p..p + m] == c[off..p + m];
        dst := dst + run;
        tot := tot + m;
      }
      r := tot;
    }

    lemma ValidLaidOut()
      requires Valid()
      ensures LayoutOk(Fs())
    {
    }

    /** readi: exactly the requested slice of the file, cut at its size, and no side effect: since
        no block below the size is missing, bmap never has to allocate. */
    method Readi(i: nat, off: nat, n: nat, copyOk: nat -> bool) returns (r: int, dst: seq<Byte>)
      requires Valid() && i < |inodes| && off < UINT && n < UINT
      modifies `blocks, `inodes, `logged, `owner
      ensures Fs() == old(Fs()) && logged == old(logged) && owner == old(owner) && Valid()
      ensures off > inodes[i].size || off + n >= UINT ==> r == 0 && dst == []
      ensures off <= inodes[i].size && off + n < UINT ==>
        var want := if off + n > inodes[i].size then inodes[i].size - off else n;
        && r == (if CopiesOk(off, 0, want, copyOk) then want else -1)
        && |dst| <= want && dst == Contents(Fs(), i)[off..off + |dst|] && CopiesOk(off, 0, |dst|, copyOk)
        && (if r == -1 then |dst| < want && RunStart(off, 0, |dst|) && !copyOk(|dst|) else |dst| == want)
    {
      SumWraps(off, n);
      if off > inodes[i].size || Sum32(off, n) < off {
        return 0, [];
      }
      var want := n;
      if Sum32(off, n) > inodes[i].size {
        want := inodes[i].size - off;
      }
      r, dst := CopyOut(i, off, want, copyOk);
    }

    /** One pass of writei's loop: bmap, then copy the run into the block and log it. */
    method WriteRun(i: nat, p: nat, chunk: seq<Byte>, ok: bool, ghost fs0: FS, ghost off: nat, ghost bytes: seq<Byte>)
      returns (addr: nat, ghost pass: Pass)
      requires Owned({}) && LayoutOk(fs0) && i < |fs0.inodes| && Written(fs0, Fs(), i, off, bytes)
      requires i < |inodes| && p == off + |bytes| && 0 < |chunk| <= BSIZE - p % BSIZE && p + |chunk| <= MAXFILE * BSIZE
      modifies `blocks, `inodes, `logged, `owner
      ensures Owned({}) && LayoutOk(old(Fs())) && |inodes| == old(|inodes|)
      ensures LogsAll(old(blocks), blocks, old(logged), logged)
      ensures Written(fs0, Fs(), i, off, if addr != 0 && ok then bytes + chunk else bytes)
      ensures addr == 0 ==> Full(Fs())
      ensures Gains(old(owner), owner, i) && OnlyInode(old(inodes), inodes, i)
      ensures Mapped(old(Fs()), Fs(), i, pass) && logged == old(logged) + PassLog(sb, pass)
      ensures pass.bn == p / BSIZE && pass.addr == addr && (pass.wrote <==> addr != 0 && ok)
    {
      hide Grown, RefsOwned, OwnersHold, BitsExact, Addr, FileByte, LayoutOk, Written, Full, Mapped, MapLog, SameMap;
      ghost var fs := Fs();
      addr, pass := Bmap(i, p / BSIZE);
      WrittenGrown(fs0, fs, Fs(), old(owner), i, off, bytes, p / BSIZE);
      if addr != 0 && ok {
        MappedAddr(fs, Fs(), i, pass);
        WrittenChunk(fs0, Fs(), owner, i, off, bytes, chunk, p / BSIZE, p % BSIZE);
        ghost var fs1, l1 := Fs(), logged;
        blocks := blocks[addr := Patch(blocks[addr], p % BSIZE, chunk)];
        LogWrite(addr);
        LogsThen(old(blocks), fs1.blocks, blocks, old(logged), l1, logged);
        MappedSame(fs, fs1, Fs(), i, pass);
        WroteLog(sb, pass);
        pass := pass.(wrote := true);
      }
    }

    /** What writei's loop keeps: the bytes written so far, the passes made and the blocks they logged. */
    ghost predicate Writing(i: nat, off: nat, src: seq<Byte>, tot: nat, fs0: FS, log0: set<nat>, t: Tally,
            ps: seq<Pass>)
      reads this
      requires LayoutOk(fs0) && i < |fs0.inodes|
    {
      && Owned({}) && |inodes| == |fs0.inodes| && tot <= |src| && fs0.sb == sb
      && Written(fs0, Fs(), i, off, src[..tot])
      && t.it == |ps| && Passes(fs0, Fs(), i, off / BSIZE, ps)
      && logged == log0 + Logs(sb, ps) && Tallied(t, Logs(sb, ps), off, Ref(fs0, i, IND), Ref(Fs(), i, IND))
    }

    /** One pass, with its book-keeping. */
    method WritePass(i: nat, off: nat, src: seq<Byte>, tot: nat, ok: bool,
                     ghost fs0: FS, ghost log0: set<nat>, ghost t: Tally, ghost ps: seq<Pass>)
      returns (addr: nat, m: nat, ghost t': Tally, ghost pass: Pass)
      requires LayoutOk(fs0) && i < |fs0.inodes| && Writing(i, off, src, tot, fs0, log0, t, ps)
      requires FileOk(fs0, i) && off <= fs0.inodes[i].size && off + |src| <= MAXFILE * BSIZE
      requires tot < |src| && AtBlock(off, |src|, tot, t.it)
      modifies `blocks, `inodes, `logged, `owner
      ensures m == RunLength(off + tot, |src| - tot)
      ensures 0 < m <= |src| - tot && AtBlock(off, |src|, tot + m, t.it + 1) && t'.it == t.it + 1
      ensures Writing(i, off, src, if addr != 0 && ok then tot + m else tot, fs0, log0, t', ps + [pass])
      ensures pass.addr == addr && (pass.wrote <==> addr != 0 && ok)
      ensures addr == 0 ==> Full(Fs())
      ensures Gains(old(owner), owner, i) && OnlyInode(old(inodes), inodes, i)
      ensures LogsAll(old(blocks), blocks, old(logged), logged)
    {
      hide RefsOwned, OwnersHold, BitsExact, Addr, Written, Full, LayoutOk, FileOk, AtBlock, Tallied, RunLength,
        Touched, Ref, Mapped, Passes, PassLog, Logs, LogsAll;
      FirstBlockExists(fs0, i, off);
      var p := off + tot;
      m := RunLength(p, |src| - tot);
      Advance(off, |src|, tot, t.it, p, m);
      ghost var fs := Fs();
      var chunk := src[tot..tot + m];
      assert src[..tot] + chunk == src[..tot + m];
      addr, pass := WriteRun(i, p, chunk, ok, fs0, off, src[..tot]);
      PassesMore(fs0, fs, Fs(), i, off / BSIZE, ps, pass);
      Appended(sb, ps, pass);
      FirstPassOld(fs0, fs, Fs(), i, off, t, ps, pass);
      TallyStep(sb, t, Logs(sb, ps), off, Ref(fs0, i, IND), Ref(fs, i, IND), pass);
      MappedInd(fs, Fs(), i, pass);
      t' := Tally(t.bms + PassBits(sb, pass), t.datas + One(addr), t.it + 1);
    }

    /** writei's loop. It stops early only if the disk is full or a copy fails. */
    method CopyIn(i: nat, off: nat, src: seq<Byte>, copyOk: nat -> bool) returns (tot: nat, ghost ps: seq<Pass>)
      requires Valid() && i < |inodes| && off <= inodes[i].size && off + |src| <= MAXFILE * BSIZE
      modifies `blocks, `inodes, `logged, `owner
      ensures Owned({}) && LayoutOk(old(Fs())) && tot <= |src| && |inodes| == old(|inodes|)
      ensures Written(old(Fs()), Fs(), i, off, src[..tot])
      ensures tot < |src| ==> ps != [] && ((ps[|ps| - 1].addr == 0 && Full(Fs())) || !copyOk(tot))
      ensures CopiesOk(off, 0, tot, copyOk) && (tot < |src| ==> RunStart(off, 0, tot))
      ensures LogsAll(old(blocks), blocks, old(logged), logged) && Gains(old(owner), owner, i)
      ensures OnlyInode(old(inodes), inodes, i)
      ensures logged == old(logged) + Logs(sb, ps) && |Logs(sb, ps)| + 1 <= LogBound(off, |src|)
      ensures Passes(old(Fs()), Fs(), i, off / BSIZE, ps) && Ended(off, |src|, tot, ps)
    {
      hide Writing, Own, LayoutOk, Full, AtBlock, LogBound, FileOk, Touched, Written, LogsAll, Logs, Passes, Ended,
        CopiesOk, RunStart, RunLength;
      ghost var fs0 := Fs();
      LaidOut(fs0, owner);
      LogsSelf(blocks, logged);
      assert FileOk(fs0, i);
      tot := 0;
      ghost var t := Tally({}, {}, 0);
      ps := [];
      WritingStarts(i, off, src);
      CopiesNone(off, 0, copyOk);
      while tot < |src|
        invariant Writing(i, off, src, tot, fs0, old(logged), t, ps) && AtBlock(off, |src|, tot, t.it) && t.it == |ps|
        invariant forall k :: 0 <= k < |ps| ==> ps[k].wrote
        invariant CopiesOk(off, 0, tot, copyOk) && (tot < |src| ==> RunStart(off, 0, tot))
        invariant LogsAll(old(blocks), blocks, old(logged), logged) && Gains(old(owner), owner, i)
        invariant OnlyInode(old(inodes), inodes, i)
      {
        ghost var b1, l1 := blocks, logged;
        ghost var pass;
        var ok, addr, m := copyOk(tot), 0, 0;
        AtEnd(off, |src|, tot, t.it, ps);
        CopiesMore(off, 0, tot, |src|, copyOk);
        addr, m, t, pass := WritePass(i, off, src, tot, ok, fs0, old(logged), t, ps);
        LogsThen(old(blocks), b1, blocks, old(logged), l1, logged);
        AtEnd(off, |src|, tot + m, t.it, ps + [pass]);
        StoppedEarly(off, |src|, tot, m, t.it, ps, pass);
        ps := ps + [pass];
        WritingCount(i, off, src, if addr != 0 && ok then tot + m else tot, fs0, old(logged), t, ps);
        if addr == 0 || !ok {
          WritingEnds(i, off, src, tot, fs0, old(logged), t, ps);
          return;
        }
        tot := tot + m;
      }
      AtEnd(off, |src|, tot, t.it, ps);
      WritingEnds(i, off, src, tot, fs0, old(logged), t, ps);
    }

    lemma WritingStarts(i: nat, off: nat, src: seq<Byte>)
      requires Owned({}) && i < |inodes|
      ensures LayoutOk(Fs()) && AtBlock(off, |src|, 0, 0) && Writing(i, off, src, 0, Fs(), logged, Tally({}, {}, 0), [])
    {
      hide Written, Tallied, AtBlock, Passes;
      WrittenNothing(Fs(), i, off);
      PassesNone(Fs(), i, off / BSIZE);
      AtStart(off, |src|, Ref(Fs(), i, IND));
      assert src[..0] == [];
    }

    lemma WritingCount(i: nat, off: nat, src: seq<Byte>, tot: nat, fs0: FS, log0: set<nat>, t: Tally, ps: seq<Pass>)
      requires LayoutOk(fs0) && i < |fs0.inodes| && Writing(i, off, src, tot, fs0, log0, t, ps)
      ensures t.it == |ps|
    {
    }

    lemma WritingEnds(i: nat, off: nat, src: seq<Byte>, tot: nat, fs0: FS, log0: set<nat>, t: Tally, ps: seq<Pass>)
      requires LayoutOk(fs0) && i < |fs0.inodes| && Writing(i, off, src, tot, fs0, log0, t, ps)
      requires t.it <= if |src| == 0 then 0 else Touched(off, |src|)
      ensures Owned({}) && |inodes| == |fs0.inodes| && tot <= |src| && LayoutOk(Fs())
      ensures Written(fs0, Fs(), i, off, src[..tot]) && Passes(fs0, Fs(), i, off / BSIZE, ps)
      ensures logged == log0 + Logs(sb, ps) && |Logs(sb, ps)| + 1 <= LogBound(off, |src|)
    {
      hide Written, Tallied, LogBound, Touched, Passes, Logs;
      TallyBound(t, Logs(sb, ps), off, |src|, Ref(fs0, i, IND), Ref(Fs(), i, IND));
    }

    /** writei: the first r bytes of src are spliced into the file at off and nothing else changes in
        any file. It writes fewer bytes than asked only if the disk is full or a copy fails, updates
        the inode on disk, and logs exactly what its passes and the inode need: at most LogBound blocks. */
    method Writei(i: nat, off: nat, src: seq<Byte>, copyOk: nat -> bool) returns (r: int, ghost ps: seq<Pass>)
      requires Valid() && i < |inodes| && off < UINT && |src| < UINT
      modifies `blocks, `inodes, `dinodes, `logged, `owner
      ensures Valid() && LayoutOk(old(Fs())) && |inodes| == old(|inodes|)
      ensures r == -1 <==> off > old(inodes)[i].size || off + |src| > MAXFILE * BSIZE
      ensures r == -1 ==> Fs() == old(Fs()) && dinodes == old(dinodes) && logged == old(logged) && owner == old(owner)
      ensures r != -1 ==>
        && 0 <= r <= |src| && off <= old(inodes)[i].size
        && Contents(Fs(), i) == Splice(Contents(old(Fs()), i), off, src[..r])
        && (forall k: nat :: k < |inodes| && k != i ==> Contents(Fs(), k) == Contents(old(Fs()), k))
        && dinodes == old(dinodes)[i := inodes[i]]
        && (r < |src| ==> ps != [] && ((ps[|ps| - 1].addr == 0 && Full(Fs())) || !copyOk(r)))
        && CopiesOk(off, 0, r, copyOk) && (r < |src| ==> RunStart(off, 0, r))
      ensures LogsAll(old(blocks), blocks, old(logged), logged) && Gains(old(owner), owner, i)
      ensures OnlyInode(old(inodes), inodes, i)
      ensures r != -1 ==>
        && logged == old(logged) + (Logs(sb, ps) + {IBlockOf(i)})
          && |Logs(sb, ps) + {IBlockOf(i)}| <= LogBound(off, |src|)
        && Passes(old(Fs()), Fs(), i, off / BSIZE, ps) && Ended(off, |src|, r, ps)
    {
      hide Own, LayoutOk, Full, LogBound, Written, FileOk, Contents, Passes, Ended, Logs, SameMap, CopiesOk, RunStart;
      ps := [];
      SumWraps(off, |src|);
      ValidLaidOut();
      if off > inodes[i].size || Sum32(off, |src|) < off {
        return -1, [];
      }
      if off + |src| > MAXFILE * BSIZE {
        return -1, [];
      }
      ghost var fs0 := Fs();
      var tot;
      tot, ps := CopyIn(i, off, src, copyOk);
      ghost var fs := Fs();
      LaidOut(fs, owner);
      if off + tot > inodes[i].size {
        inodes := inodes[i := inodes[i].(size := off + tot)];
      }
      SizeRaised(fs0, fs, Fs(), owner, i, off, src[..tot]);
      PassesSame(fs0, fs, Fs(), i, off / BSIZE, ps);
      Iupdate(i);
      UnionSize(Logs(sb, ps), {IBlockOf(i)});
      r := tot;
    }

    /** bfree the block of slot s, as itrunc does for each slot that has one. It is in use and has
        not been freed before, so "freeing free block" is unreachable. */
    method FreeSlot(i: nat, s: nat, r: nat, ghost fs0: FS, ghost own: map<nat, Place>, ghost done: set<nat>,
            ghost log0: set<nat>)
      requires Own(fs0, own, {}) && i < |fs0.inodes| && s < SLOTS && s !in done
      requires LayoutOk(Fs()) && Truncating(fs0, own, Fs(), i, done) && r == Ref(fs0, i, s)
      requires logged == log0 + Bitmaps(sb, SlotBlocks(own, i, done))
      modifies `blocks, `logged
      ensures LayoutOk(Fs()) && Truncating(fs0, own, Fs(), i, done + {s})
      ensures LogsAll(old(blocks), blocks, old(logged), logged)
      ensures logged == log0 + Bitmaps(sb, SlotBlocks(own, i, done + {s}))
    {
      hide Ref, Used, Mark, Bitmaps;
      if r != 0 {
        FreesOne(fs0, own, Fs(), i, s, done);
        BitmapsAdd(sb, SlotBlocks(own, i, done), r);
        Bfree(r);
      } else {
        FreesNone(fs0, own, Fs(), i, s, done);
      }
    }

    /** Clear a slot of the in-memory inode. */
    method ZeroSlot(i: nat, s: nat, ghost fs0: FS, ghost own: map<nat, Place>, ghost done: set<nat>)
      requires Own(fs0, own, {}) && i < |fs0.inodes| && LayoutOk(Fs()) && Truncating(fs0, own, Fs(), i, done)
          && s <= IND
      modifies `inodes
      ensures LayoutOk(Fs()) && Truncating(fs0, own, Fs(), i, done) && |inodes| == old(|inodes|)
      ensures inodes[i].addrs == old(inodes)[i].addrs[s := 0]
    {
      ghost var fs := Fs();
      inodes := inodes[i := inodes[i].(addrs := inodes[i].addrs[s := 0])];
      SlotZeroed(fs0, own, fs, Fs(), i, done);
    }

    /** One pass of itrunc's loop over the direct blocks. */
    method FreeOne(i: nat, k: nat, ghost fs0: FS, ghost own: map<nat, Place>, ghost log0: set<nat>)
      requires Own(fs0, own, {}) && i < |fs0.inodes| && k < NDIRECT && LayoutOk(Fs()) && |inodes| == |fs0.inodes|
      requires Truncating(fs0, own, Fs(), i, Below(k)) && inodes[i].addrs[k] == fs0.inodes[i].addrs[k]
      requires logged == log0 + Bitmaps(sb, SlotBlocks(own, i, Below(k)))
      modifies `blocks, `logged, `inodes
      ensures LayoutOk(Fs()) && |inodes| == |fs0.inodes| && Truncating(fs0, own, Fs(), i, Below(k + 1))
      ensures LogsAll(old(blocks), blocks, old(logged), logged)
      ensures logged == log0 + Bitmaps(sb, SlotBlocks(own, i, Below(k + 1)))
      ensures |old(inodes)[i].addrs| == NDIRECT + 1 && inodes[i].addrs == old(inodes)[i].addrs[k := 0]
    {
      hide Used, RefsOwned, OwnersHold, BitsExact, Truncating, Below, Bitmaps, SlotBlocks, LogsAll, Ref;
      assert Below(k) + {k} == Below(k + 1);
      RefSlot(fs0, i, k);
      FreeSlot(i, k, inodes[i].addrs[k], fs0, own, Below(k), log0);
      if inodes[i].addrs[k] != 0 {
        ZeroSlot(i, k, fs0, own, Below(k + 1));
      }
    }

    /** itrunc's loop over the direct blocks. */
    method FreeDirect(i: nat, ghost fs0: FS, ghost own: map<nat, Place>)
      requires Own(fs0, own, {}) && i < |fs0.inodes| && Fs() == fs0
      modifies `blocks, `logged, `inodes
      ensures LayoutOk(Fs()) && Truncating(fs0, own, Fs(), i, Below(NDIRECT))
      ensures LogsAll(old(blocks), blocks, old(logged), logged)
      ensures logged == old(logged) + Bitmaps(sb, SlotBlocks(own, i, Below(NDIRECT)))
      ensures inodes[i].addrs == seq(NDIRECT, _ => 0) + [fs0.inodes[i].addrs[IND]]
    {
      hide RefsOwned, OwnersHold, BitsExact, Truncating, Below, Bitmaps, SlotBlocks, LogsAll, Cleared;
      LogsSelf(blocks, logged);
      TruncateStarts(fs0, own, i);
      NoBitmaps(sb, own, i);
      ghost var addrs := fs0.inodes[i].addrs;
      ClearedSlots(addrs, 0);
      for k := 0 to NDIRECT
        invariant LayoutOk(Fs()) && Truncating(fs0, own, Fs(), i, Below(k)) && |inodes| == |fs0.inodes|
        invariant inodes[i].addrs == Cleared(addrs, k)
        invariant LogsAll(old(blocks), blocks, old(logged), logged)
        invariant logged == old(logged) + Bitmaps(sb, SlotBlocks(own, i, Below(k)))
      {
        ghost var b1, l1 := blocks, logged;
        ClearedSlots(addrs, k);
        FreeOne(i, k, fs0, own, old(logged));
        LogsThen(old(blocks), b1, blocks, old(logged), l1, logged);
      }
      ClearedSlots(addrs, NDIRECT);
    }

    /** itrunc's loop over the entries of the indirect block, and the indirect block itself. */
    method FreeIndirect(i: nat, ghost fs0: FS, ghost own: map<nat, Place>, ghost log0: set<nat>)
      requires Own(fs0, own, {}) && i < |fs0.inodes| && LayoutOk(Fs())
      requires Truncating(fs0, own, Fs(), i, Below(NDIRECT)) && |inodes| == |fs0.inodes|
      requires inodes[i].addrs[IND] == fs0.inodes[i].addrs[IND] != 0
      requires logged == log0 + Bitmaps(sb, SlotBlocks(own, i, Below(NDIRECT)))
      modifies `blocks, `logged
      ensures LayoutOk(Fs()) && Truncating(fs0, own, Fs(), i, Below(SLOTS))
      ensures LogsAll(old(blocks), blocks, old(logged), logged)
      ensures logged == log0 + Bitmaps(sb, SlotBlocks(own, i, Below(SLOTS)))
    {
      hide Used, RefsOwned, OwnersHold, BitsExact, Truncating, Word, Below, Bitmaps, SlotBlocks;
      var ind := inodes[i].addrs[IND];
      IndirectOwned(fs0, own, i);
      ghost var done: set<nat> := Below(NDIRECT);
      for j := 0 to NINDIRECT
        invariant LayoutOk(Fs()) && Truncating(fs0, own, Fs(), i, done) && done == Below(IND + 1 + j) - {IND}
        invariant LogsAll(old(blocks), blocks, old(logged), logged)
        invariant logged == log0 + Bitmaps(sb, SlotBlocks(own, i, done))
      {
        BlockUntouched(fs0, own, Fs(), i, done, ind);
        ghost var b1, l1 := blocks, logged;
        FreeSlot(i, IND + 1 + j, Word(blocks[ind], j), fs0, own, done, log0);
        LogsThen(old(blocks), b1, blocks, old(logged), l1, logged);
        assert done + {IND + 1 + j} == Below(IND + 2 + j) - {IND};
        done := done + {IND + 1 + j};
      }
      assert done + {IND} == Below(SLOTS);
      ghost var b1, l1 := blocks, logged;
      FreeSlot(i, IND, ind, fs0, own, done, log0);
      LogsThen(old(blocks), b1, blocks, old(logged), l1, logged);
    }

    /** itrunc: the file becomes empty and exactly its blocks become free. */
    method Itrunc(i: nat)
      requires Valid() && i < |inodes|
      modifies `blocks, `inodes, `dinodes, `logged, `owner
      ensures Valid() && LayoutOk(old(Fs())) && |inodes| == old(|inodes|)
      ensures owner == old(owner) - BlocksOf(old(owner), i)
      ensures forall b: nat :: b < sb.size ==> (Used(Fs(), b) <==> Used(old(Fs()), b) && b !in BlocksOf(old(owner), i))
      ensures inodes[i] == Inode(0, seq(NDIRECT + 1, _ => 0)) && dinodes == old(dinodes)[i := inodes[i]]
      ensures Contents(Fs(), i) == []
      ensures forall k: nat :: k < |inodes| && k != i ==> Contents(Fs(), k) == Contents(old(Fs()), k)
      ensures LogsAll(old(blocks), blocks, old(logged), logged)
      ensures logged == old(logged) + Bitmaps(sb, BlocksOf(old(owner), i)) + {IBlockOf(i)}
    {
      hide Used, RefsOwned, OwnersHold, BitsExact, Truncating, FileOk, Contents, BlocksOf, Below, Bitmaps, SlotBlocks;
      ghost var fs0 := Fs();
      FreeDirect(i, fs0, owner);
      if inodes[i].addrs[IND] != 0 {
        ghost var b1, l1 := blocks, logged;
        FreeIndirect(i, fs0, owner, old(logged));
        LogsThen(old(blocks), b1, blocks, old(logged), l1, logged);
        ZeroSlot(i, IND, fs0, owner, Below(SLOTS));
      } else {
        NoIndirect(fs0, owner, Fs(), i);
      }
      assert inodes[i].addrs == seq(NDIRECT + 1, _ => 0);
      ghost var fs := Fs();
      inodes := inodes[i := inodes[i].(size := 0)];
      SlotZeroed(fs0, owner, fs, Fs(), i, Below(SLOTS));
      TruncateEnds(fs0, owner, Fs(), i);
      owner := owner - BlocksOf(owner, i);
      Iupdate(i);
    }

    /** begin_op, as far as this layer sees it: a transaction that has logged nothing. */
    method BeginOp()
      requires Valid()
      modifies `logged
      ensures Valid() && logged == {}
    {
      logged := {};
    }

    /** filewrite on an inode: chunk after chunk, each its own transaction of at most MAXOPBLOCKS
        blocks. Whatever stops it, the file holds its old contents with a prefix of src spliced in at
        the old offset, the offset has moved over that prefix, and success means all of src. */
    method FileWrite(i: nat, off: nat, src: seq<Byte>, copyOk: nat -> bool) returns (ret: int, off': nat)
      requires Valid() && i < |inodes| && off < UINT && |src| < UINT
      modifies `blocks, `inodes, `dinodes, `logged, `owner
      ensures Valid() && LayoutOk(old(Fs())) && |inodes| == old(|inodes|)
      ensures off <= off' <= off + |src| && (ret == |src| || ret == -1)
      ensures ret == |src| ==> off' == off + |src|
      ensures off' > off ==>
        && off <= old(inodes)[i].size
        && Contents(Fs(), i) == Splice(Contents(old(Fs()), i), off, src[..off' - off])
      ensures off' == off ==> Contents(Fs(), i) == Contents(old(Fs()), i)
      ensures forall k: nat :: k < |inodes| && k != i ==> Contents(Fs(), k) == Contents(old(Fs()), k)
      ensures ret != |src| ==>
        off > old(inodes)[i].size || off' + Chunk(|src| - (off' - off)) > MAXFILE * BSIZE || Full(Fs())
          || !copyOk(off' - off)
      ensures src != [] && ret == |src| ==> off <= old(inodes)[i].size && off + |src| <= MAXFILE * BSIZE
      ensures ChunksOk(off, off' - off, copyOk)
    {
      hide Valid, LayoutOk, Contents, Splice, Copied, Full, CopiesOk, RunStart, ChunksOk;
      ValidLaidOut();
      ghost var fs0 := Fs();
      CopiedNothing(Fs(), i, off, src);
      ChunksNone(off, copyOk);
      off' := off;
      var done := 0;
      while done < |src|
        invariant done <= |src| && off' == off + done && off' < UINT && Valid() && |inodes| == |fs0.inodes|
        invariant Copied(Fs(), i, off, src, done, fs0)
        invariant done > 0 ==> off + done <= MAXFILE * BSIZE
        invariant ChunksOk(off, done, copyOk) && (done < |src| ==> done % MAXCHUNK == 0)
      {
        CopiedSize(Fs(), i, off, src, done, fs0);
        var n1 := Chunk(|src| - done);
        var r := WriteOneChunk(i, off, src, done, n1, copyOk, fs0);
        if r > 0 {
          off' := off' + r;
          ChunksMore(off, done, r, copyOk);
        }
        if r != n1 {
          CopiedMeans(Fs(), i, off, src, off' - off, fs0);
          return -1, off';
        }
        done := done + r;
      }
      CopiedMeans(Fs(), i, off, src, done, fs0);
      CopiedSize(Fs(), i, off, src, done, fs0);
      ret := |src|;
    }

    lemma ValidPlaced(fs0: FS, i: nat, bn: nat, ps: seq<Pass>)
      requires Valid() && LayoutOk(fs0) && LayoutOk(Fs()) && i < |fs0.inodes| == |inodes|
      requires Passes(fs0, Fs(), i, bn, ps)
      ensures forall b :: b in Logs(sb, ps) ==> sb.bmapstart <= b < sb.size
    {
      LogsPlaced(fs0, Fs(), owner, i, bn, ps);
    }

    /** One pass of filewrite's loop: a transaction that logs at most MAXOPBLOCKS blocks. */
    method WriteOneChunk(i: nat, off: nat, src: seq<Byte>, done: nat, n1: nat, copyOk: nat -> bool,
            ghost fs0: FS) returns (r: int)
      requires Valid() && i < |inodes| && |src| < UINT && off + done < UINT && done + n1 <= |src| && n1 <= MAXCHUNK
      requires LayoutOk(fs0) && i < |fs0.inodes| && Copied(Fs(), i, off, src, done, fs0)
      modifies `blocks, `inodes, `dinodes, `logged, `owner
      ensures Valid() && |inodes| == old(|inodes|) && -1 <= r <= n1 && |logged| <= MAXOPBLOCKS
      ensures r >= 0 ==> off + done + n1 <= MAXFILE * BSIZE
      ensures r == -1 <==> off + done > old(inodes)[i].size || off + done + n1 > MAXFILE * BSIZE
      ensures 0 <= r < n1 ==> Full(Fs()) || !copyOk(done + r)
      ensures r >= 0 ==> CopiesOk(off, done, r, copyOk) && (r < n1 ==> RunStart(off, done, done + r))
      ensures Copied(Fs(), i, off, src, if r > 0 then done + r else done, fs0)
      ensures LogsAll(old(blocks), blocks, {}, logged) && OnlyInode(old(inodes), inodes, i)
      ensures r == -1 ==> Fs() == old(Fs()) && dinodes == old(dinodes) && logged == {}
      ensures r != -1 ==> dinodes == old(dinodes)[i := inodes[i]] && IBlockOf(i) in logged
      ensures forall b :: b in logged ==> b == IBlockOf(i) || sb.bmapstart <= b < sb.size
    {
      hide Valid, LayoutOk, Contents, Full, LogBound, Splice, Copied, Passes, Ended, LogsAll, Logs;
      BeginOp();
      ValidLaidOut();
      ghost var fs1 := Fs();
      var chunk := src[done..done + n1];
      ghost var ps;
      r, ps := Writei(i, off + done, chunk, (t: nat) => copyOk(done + t));
      ValidLaidOut();
      ChunkFits(off + done, n1);
      assert r != -1 ==> logged == Logs(sb, ps) + {IBlockOf(i)};
      if r >= 0 {
        ValidPlaced(fs1, i, (off + done) / BSIZE, ps);
        CopiesFrom(off, done, r, copyOk);
        CopiedMore(fs0, fs1, Fs(), i, off, src, done, n1, r);
      }
    }
  }

  /** The first k of an inode's addresses cleared. */
  function Cleared(addrs: seq<nat>, k: nat): (r: seq<nat>)
    ensures |r| == |addrs|
  {
    seq(|addrs|, s requires 0 <= s < |addrs| => if s < k then 0 else addrs[s])
  }

  lemma ClearedSlots(addrs: seq<nat>, k: nat)
    requires |addrs| == NDIRECT + 1 && k <= NDIRECT
    ensures Cleared(addrs, 0) == addrs && Cleared(addrs, k)[k] == addrs[k]
    ensures Cleared(addrs, k)[k := 0] == Cleared(addrs, k + 1)
    ensures Cleared(addrs, NDIRECT) == seq(NDIRECT, _ => 0) + [addrs[IND]]
  {
  }

  /** A copy begins with byte t of a transfer at offset off whose call began with byte lo: there, or where a block
      begins. */
  predicate RunStart(off: nat, lo: nat, t: nat) {
    t == lo || (off + t) % BSIZE == 0
  }

  /** Every copy that begins among the n bytes from lo on succeeds. */
  ghost predicate CopiesOk(off: nat, lo: nat, n: nat, copyOk: nat -> bool) {
    forall t: nat :: lo <= t < lo + n && RunStart(off, lo, t) ==> copyOk(t)
  }

  lemma CopiesNone(off: nat, lo: nat, copyOk: nat -> bool)
    ensures CopiesOk(off, lo, 0, copyOk) && RunStart(off, lo, lo)
  {
  }

  /** A pass copies with one copy, and if that fails so does the transfer. */
  lemma CopiesMore(off: nat, lo: nat, tot: nat, n: nat, copyOk: nat -> bool)
    requires CopiesOk(off, lo, tot, copyOk) && RunStart(off, lo, lo + tot) && tot < n
    ensures var m := RunLength(off + lo + tot, n - tot);
      && (copyOk(lo + tot) <==> CopiesOk(off, lo, tot + m, copyOk))
      && (tot + m < n ==> RunStart(off, lo, lo + tot + m))
    ensures CopiesOk(off, lo, n, copyOk) ==> copyOk(lo + tot)
  {
    var m := RunLength(off + lo + tot, n - tot);
    forall t: nat | lo + tot < t < lo + tot + m ensures !RunStart(off, lo, t) {
      NoStart(off + lo + tot, t - lo - tot);
    }
    hide RunStart;
  }

  /** The copies of a call that begins with byte lo. */
  lemma CopiesFrom(off: nat, lo: nat, n: nat, copyOk: nat -> bool)
    requires CopiesOk(off + lo, 0, n, (t: nat) => copyOk(lo + t))
    ensures CopiesOk(off, lo, n, copyOk)
  {
    var shifted := (t: nat) => copyOk(lo + t);
    forall t: nat | lo <= t < lo + n && RunStart(off, lo, t) ensures copyOk(t) {
      assert RunStart(off + lo, 0, t - lo);
      assert shifted(t - lo) == copyOk(t);
    }
  }

  lemma NoStart(p: nat, d: nat)
    requires 0 < d < BSIZE - p % BSIZE
    ensures (p + d) % BSIZE != 0
  {
  }

  /** Bytes that can be copied at position p without leaving its block. */
  function RunLength(p: nat, left: nat): nat {
    if left < BSIZE - p % BSIZE then left else BSIZE - p % BSIZE
  }

  lemma RunFits(p: nat, left: nat)
    requires left > 0
    ensures 0 < RunLength(p, left) <= left && RunLength(p, left) <= BSIZE - p % BSIZE
  {
  }

  /** After it passes writei's loop stands at the start of a block, it blocks into the write. */
  ghost predicate AtBlock(off: nat, n: nat, tot: nat, it: nat) {
    && tot <= n && (it == 0 ==> tot == 0)
    && (tot < n ==> off + tot == if it == 0 then off else (off / BSIZE + it) * BSIZE)
    && it <= (if n == 0 then 0 else Touched(off, n)) && (tot == n > 0 ==> it == Touched(off, n))
  }

  lemma Advance(off: nat, n: nat, tot: nat, it: nat, p: nat, m: nat)
    requires AtBlock(off, n, tot, it) && tot < n && p == off + tot && m == RunLength(p, n - tot)
    ensures 0 < m && tot + m <= n && m <= BSIZE - p % BSIZE && AtBlock(off, n, tot + m, it + 1)
    ensures p / BSIZE == off / BSIZE + it && (it == 0 ==> p == off)
  {
  }

  /** How the passes end: every one wrote its block, except the last if not all n bytes went in. */
  ghost predicate Ended(off: nat, n: nat, tot: nat, ps: seq<Pass>) {
    && tot <= n && (tot < n ==> tot == 0 || (off + tot) % BSIZE == 0)
    && |ps| == (if n == 0 then 0 else if tot == n then Touched(off, n) else (off + tot) / BSIZE - off / BSIZE + 1)
    && forall k :: 0 <= k < |ps| ==> (ps[k].wrote <==> tot == n || k < |ps| - 1)
  }

  lemma AtEnd(off: nat, n: nat, tot: nat, it: nat, ps: seq<Pass>)
    requires AtBlock(off, n, tot, it) && it == |ps|
    ensures it <= (if n == 0 then 0 else Touched(off, n))
    ensures tot == n && (forall k :: 0 <= k < |ps| ==> ps[k].wrote) ==> Ended(off, n, tot, ps)
    ensures tot < n ==> (off + tot) / BSIZE == off / BSIZE + it && (tot == 0 || (off + tot) % BSIZE == 0)
  {
  }

  lemma StoppedEarly(off: nat, n: nat, tot: nat, m: nat, it: nat, ps: seq<Pass>, pass: Pass)
    requires tot < n && it == |ps| + 1 && (off + tot) / BSIZE == off / BSIZE + |ps|
    requires tot == 0 || (off + tot) % BSIZE == 0
    requires forall k :: 0 <= k < |ps| ==> ps[k].wrote
    ensures !pass.wrote ==> Ended(off, n, tot, ps + [pass])
    ensures pass.wrote ==> forall k :: 0 <= k < |ps + [pass]| ==> (ps + [pass])[k].wrote
  {
  }

  /** Book-keeping of writei's loop: the bitmap blocks and data blocks logged in it passes. */
  datatype Tally = Tally(bms: set<nat>, datas: set<nat>, it: nat)

  /** At most one data block for each pass; at most one bitmap block for each, but none for an
      unaligned first block; one more if the indirect block is new; and the indirect block. */
  ghost predicate Tallied(t: Tally, added: set<nat>, off: nat, ind0: nat, ind: nat) {
    && added <= t.bms + t.datas + One(ind) && (t.it == 0 ==> added == {})
    && |t.datas| <= t.it
    && |t.bms| <= t.it - (if t.it > 0 && off % BSIZE != 0 then 1 else 0) + (if ind != ind0 then 1 else 0)
    && (ind0 != 0 ==> ind == ind0)
  }

  lemma AtStart(off: nat, n: nat, ind: nat)
    ensures AtBlock(off, n, 0, 0) && Tallied(Tally({}, {}, 0), {}, off, ind, ind)
  {
  }

  /** The bitmap blocks a pass logs. */
  function PassBits(sb: Super, p: Pass): set<nat> {
    (if p.madeInd then {BBlock(sb, p.ind)} else {}) + if p.made then {BBlock(sb, p.addr)} else {}
  }

  lemma TallyStep(sb: Super, t: Tally, added: set<nat>, off: nat, ind0: nat, was: nat, p: Pass)
    requires Tallied(t, added, off, ind0, was) && (was != 0 ==> p.ind == was)
    requires (p.madeInd <==> was == 0 && p.ind != 0) && (p.made ==> p.addr != 0) && (p.wrote ==> p.addr != 0)
    requires p.made && p.bn >= NDIRECT ==> p.ind != 0
    requires t.it == 0 && off % BSIZE != 0 ==> !p.made
    ensures Tallied(Tally(t.bms + PassBits(sb, p), t.datas + One(p.addr), t.it + 1), added + PassLog(sb, p), off,
        ind0, p.ind)
  {
    hide Tallied, PassBits, PassLog, One;
    PassSizes(sb, p);
    TallyAdd(t, added, off, ind0, was, p.ind, PassBits(sb, p), p.addr, PassLog(sb, p));
  }

  lemma TallyAdd(t: Tally, added: set<nat>, off: nat, ind0: nat, was: nat, ind: nat, bm: set<nat>, addr: nat,
          more: set<nat>)
    requires Tallied(t, added, off, ind0, was) && (was != 0 ==> ind == was)
    requires |bm| <= (if t.it == 0 && off % BSIZE != 0 then 0 else 1) + (if was != ind then 1 else 0)
    requires more <= bm + One(addr) + One(ind)
    ensures Tallied(Tally(t.bms + bm, t.datas + One(addr), t.it + 1), added + more, off, ind0, ind)
  {
    UnionSize(t.bms, bm);
    UnionSize(t.datas, One(addr));
  }

  lemma PassSizes(sb: Super, p: Pass)
    requires (p.madeInd ==> p.ind != 0) && (p.made ==> p.addr != 0) && (p.wrote ==> p.addr != 0)
    requires p.made && p.bn >= NDIRECT ==> p.ind != 0
    ensures PassLog(sb, p) <= PassBits(sb, p) + One(p.addr) + One(p.ind)
    ensures |PassBits(sb, p)| <= (if p.made then 1 else 0) + (if p.madeInd then 1 else 0)
  {
    if p.madeInd && p.made { UnionSize({BBlock(sb, p.ind)}, {BBlock(sb, p.addr)}); }
  }

  lemma TallyBound(t: Tally, added: set<nat>, off: nat, n: nat, ind0: nat, ind: nat)
    requires Tallied(t, added, off, ind0, ind) && t.it <= if n == 0 then 0 else Touched(off, n)
    ensures |added| + 1 <= LogBound(off, n)
  {
    if t.it > 0 {
      UnionSize(t.bms, t.datas);
      UnionSize(t.bms + t.datas, One(ind));
      SubsetCard(added, t.bms + t.datas + One(ind));
    }
  }

  /** An unaligned write's first pass finds its block; and an entry needs an indirect block. */
  lemma FirstPassOld(fs0: FS, fs: FS, fs': FS, i: nat, off: nat, t: Tally, ps: seq<Pass>, p: Pass)
    requires LayoutOk(fs0) && LayoutOk(fs) && LayoutOk(fs') && i < |fs0.inodes| == |fs.inodes| == |fs'.inodes|
    requires Passes(fs0, fs, i, off / BSIZE, ps) && Mapped(fs, fs', i, p) && p.bn == off / BSIZE + |ps|
    requires off % BSIZE != 0 ==> off / BSIZE < MAXFILE && Addr(fs0, i, off / BSIZE) != 0
    ensures |ps| == 0 && off % BSIZE != 0 ==> !p.made
    ensures p.made && p.bn >= NDIRECT ==> p.ind != 0
    ensures (p.made ==> p.addr != 0) && (p.madeInd <==> Ref(fs, i, IND) == 0 && p.ind != 0)
    ensures Ref(fs, i, IND) != 0 ==> p.ind == Ref(fs, i, IND)
  {
    hide Used, Allots;
  }

  lemma MappedAddr(fs: FS, fs': FS, i: nat, p: Pass)
    requires LayoutOk(fs) && LayoutOk(fs') && i < |fs.inodes| == |fs'.inodes| && Mapped(fs, fs', i, p)
    ensures p.bn < MAXFILE && p.addr == Addr(fs', i, p.bn)
  {
  }

  lemma MappedInd(fs: FS, fs': FS, i: nat, p: Pass)
    requires LayoutOk(fs) && LayoutOk(fs') && i < |fs.inodes| == |fs'.inodes| && Mapped(fs, fs', i, p)
    ensures p.ind == Ref(fs', i, IND)
  {
  }

  lemma WroteLog(sb: Super, p: Pass)
    requires !p.wrote
    ensures PassLog(sb, p.(wrote := true)) == MapLog(sb, p) + {p.addr} && PassLog(sb, p) == MapLog(sb, p)
  {
  }

  /** A write that starts inside a block starts in a block the file already has. */
  lemma FirstBlockExists(fs: FS, i: nat, off: nat)
    requires LayoutOk(fs) && i < |fs.inodes| && FileOk(fs, i) && off <= fs.inodes[i].size
    ensures off % BSIZE != 0 ==> off / BSIZE < MAXFILE && Addr(fs, i, off / BSIZE) != 0
  {
  }

  lemma UnionSize(a: set<nat>, b: set<nat>)
    ensures |a + b| <= |a| + |b|
  {
    assert a + b == a + (b - a);
    assert |b - a| <= |b| by { assert b == (b - a) + (b * a); }
  }

  lemma FileHasBlock(fs: FS, owner: map<nat, Place>, i: nat, p: nat)
    requires Own(fs, owner, {}) && i < |fs.inodes| && FileOk(fs, i) && p < fs.inodes[i].size
    ensures p / BSIZE < MAXFILE && LayoutOk(fs)
    ensures Addr(fs, i, p / BSIZE) != 0 && fs.sb.nmeta <= Addr(fs, i, p / BSIZE) < |fs.blocks|
  {
    hide Addr;
    assert p / BSIZE * BSIZE <= p;
    AddrOwned(fs, owner, {}, i, p / BSIZE);
  }

  /** A run of bytes within one block is that stretch of the file. */
  lemma ReadRun(fs: FS, owner: map<nat, Place>, i: nat, p: nat, m: nat)
    requires Own(fs, owner, {}) && i < |fs.inodes| && FileOk(fs, i) && p + m <= fs.inodes[i].size
    requires 0 < m <= BSIZE - p % BSIZE
    ensures p / BSIZE < MAXFILE && LayoutOk(fs) && Addr(fs, i, p / BSIZE) < |fs.blocks|
    ensures fs.blocks[Addr(fs, i, p / BSIZE)][p % BSIZE..p % BSIZE + m] == Contents(fs, i)[p..p + m]
  {
    hide Addr;
    FileHasBlock(fs, owner, i, p);
    var run, c := fs.blocks[Addr(fs, i, p / BSIZE)][p % BSIZE..p % BSIZE + m], Contents(fs, i);
    forall k | 0 <= k < m ensures run[k] == c[p..p + m][k] {
      assert (p + k) / BSIZE == p / BSIZE && (p + k) % BSIZE == p % BSIZE + k;
    }
  }

  // ---------- truncation ----------

  /** The blocks of inode i whose slot is in the given set. */
  ghost function SlotBlocks(own: map<nat, Place>, i: nat, done: set<nat>): set<nat> {
    set b | b in own && own[b].inum == i && own[b].slot in done
  }

  /** The bitmap blocks that hold the bits of the given blocks. */
  ghost function Bitmaps(sb: Super, bs: set<nat>): set<nat> {
    set b | b in bs :: BBlock(sb, b)
  }

  lemma BitmapsAdd(sb: Super, bs: set<nat>, r: nat)
    ensures Bitmaps(sb, bs + {r}) == Bitmaps(sb, bs) + {BBlock(sb, r)}
  {
    assert forall b :: b in bs ==> BBlock(sb, b) in Bitmaps(sb, bs) && BBlock(sb, b) in Bitmaps(sb, bs + {r});
    assert BBlock(sb, r) in Bitmaps(sb, bs + {r});
  }

  lemma NoBitmaps(sb: Super, own: map<nat, Place>, i: nat)
    ensures Bitmaps(sb, SlotBlocks(own, i, Below(0))) == {}
  {
  }

  /** Part-way through itrunc: the blocks of the slots in done have been freed, inode i may have lost
      slots, and no data block has changed. */
  ghost predicate Truncating(fs0: FS, own: map<nat, Place>, fs: FS, i: nat, done: set<nat>)
    requires LayoutOk(fs0) && LayoutOk(fs)
  {
    && fs.sb == fs0.sb && |fs.blocks| == |fs0.blocks| && |fs.inodes| == |fs0.inodes|
    && (forall k: nat :: k < |fs0.inodes| && k != i ==> fs.inodes[k] == fs0.inodes[k])
    && (forall b :: fs0.sb.nmeta <= b < |fs0.blocks| ==> fs.blocks[b] == fs0.blocks[b])
    && (forall b: nat :: b < fs0.sb.size ==> (Used(fs, b) <==> Used(fs0, b) && b !in SlotBlocks(own, i, done)))
  }

  lemma TruncateStarts(fs: FS, own: map<nat, Place>, i: nat)
    requires LayoutOk(fs)
    ensures Truncating(fs, own, fs, i, Below(0))
  {
    hide Used;
  }

  lemma SlotZeroed(fs0: FS, own: map<nat, Place>, fs: FS, fs': FS, i: nat, done: set<nat>)
    requires LayoutOk(fs0) && LayoutOk(fs) && LayoutOk(fs') && Truncating(fs0, own, fs, i, done) && i < |fs.inodes|
    requires fs' == fs.(inodes := fs'.inodes) && |fs'.inodes| == |fs.inodes|
    requires forall k: nat :: k < |fs.inodes| && k != i ==> fs'.inodes[k] == fs.inodes[k]
    ensures Truncating(fs0, own, fs', i, done)
  {
    forall b: nat | b < fs.sb.size ensures Used(fs', b) == Used(fs, b) { UsedSame(fs, fs', b); }
  }

  lemma BlockUntouched(fs0: FS, own: map<nat, Place>, fs: FS, i: nat, done: set<nat>, b: nat)
    requires LayoutOk(fs0) && LayoutOk(fs) && Truncating(fs0, own, fs, i, done) && fs0.sb.nmeta <= b < |fs0.blocks|
    ensures b < |fs.blocks| && fs.blocks[b] == fs0.blocks[b]
  {
  }

  /** Freeing a slot's block: it is still in use, and only it stops being so. */
  lemma FreesOne(fs0: FS, own: map<nat, Place>, fs: FS, i: nat, s: nat, done: set<nat>)
    requires Own(fs0, own, {}) && i < |fs0.inodes| && s < SLOTS && s !in done
    requires LayoutOk(fs) && Truncating(fs0, own, fs, i, done) && Ref(fs0, i, s) != 0
    ensures Ref(fs0, i, s) < fs.sb.size && Used(fs, Ref(fs0, i, s))
    ensures Truncating(fs0, own, Mark(fs, Ref(fs0, i, s), false), i, done + {s})
    ensures SlotBlocks(own, i, done + {s}) == SlotBlocks(own, i, done) + {Ref(fs0, i, s)}
  {
    hide Ref, Used, Mark;
    var r := Ref(fs0, i, s);
    assert own[r] == Place(i, s) && Holds(fs0, r, own[r]);
    forall b | b in own && own[b] == Place(i, s) ensures b == r { assert Holds(fs0, b, own[b]); }
    var fs' := Mark(fs, r, false);
    MarkFrame(fs, r);
    forall b: nat | b < fs0.sb.size ensures Used(fs', b) <==> Used(fs0, b) && b !in SlotBlocks(own, i, done + {s}) {
      MarkBit(fs, r, false, b);
      if b in own && own[b] == Place(i, s) { assert Holds(fs0, b, own[b]); }
    }
    MarkBit(fs, r, false, r);
  }

  lemma MarkFrame(fs: FS, b: nat)
    requires LayoutOk(fs) && b < fs.sb.size
    ensures var fs' := Mark(fs, b, false);
      fs'.sb == fs.sb && fs'.inodes == fs.inodes && |fs'.blocks| == |fs.blocks|
  {
  }

  lemma FreesNone(fs0: FS, own: map<nat, Place>, fs: FS, i: nat, s: nat, done: set<nat>)
    requires Own(fs0, own, {}) && i < |fs0.inodes| && s < SLOTS
    requires LayoutOk(fs) && Truncating(fs0, own, fs, i, done) && Ref(fs0, i, s) == 0
    ensures Truncating(fs0, own, fs, i, done + {s}) && SlotBlocks(own, i, done + {s}) == SlotBlocks(own, i, done)
  {
    hide Ref, Used;
    forall b | b in own ensures own[b] != Place(i, s) { assert Holds(fs0, b, own[b]); }
    assert SlotBlocks(own, i, done + {s}) == SlotBlocks(own, i, done);
  }

  /** Without an indirect block there are no entries either. */
  lemma NoIndirect(fs0: FS, own: map<nat, Place>, fs: FS, i: nat)
    requires Own(fs0, own, {}) && i < |fs0.inodes| && fs0.inodes[i].addrs[IND] == 0
    requires LayoutOk(fs) && Truncating(fs0, own, fs, i, Below(NDIRECT))
    ensures Truncating(fs0, own, fs, i, Below(SLOTS))
        && SlotBlocks(own, i, Below(SLOTS)) == SlotBlocks(own, i, Below(NDIRECT))
  {
    hide Used, Below;
    forall b | b in own && own[b].inum == i ensures own[b].slot < NDIRECT { assert Holds(fs0, b, own[b]); }
    assert SlotBlocks(own, i, Below(SLOTS)) == SlotBlocks(own, i, Below(NDIRECT));
  }

  lemma TruncateEnds(fs0: FS, own: map<nat, Place>, fs: FS, i: nat)
    requires Own(fs0, own, {}) && i < |fs0.inodes| && LayoutOk(fs) && Truncating(fs0, own, fs, i, Below(SLOTS))
    requires forall k: nat :: k < |fs0.inodes| ==> FileOk(fs0, k)
    requires fs.inodes[i] == Inode(0, seq(NDIRECT + 1, _ => 0))
    ensures Own(fs, own - BlocksOf(own, i), {}) && SlotBlocks(own, i, Below(SLOTS)) == BlocksOf(own, i)
    ensures forall b: nat :: b < fs.sb.size ==> (Used(fs, b) <==> Used(fs0, b) && b !in BlocksOf(own, i))
    ensures forall k: nat :: k < |fs.inodes| ==> FileOk(fs, k)
    ensures Contents(fs, i) == []
    ensures forall k: nat :: k < |fs0.inodes| && k != i ==> Contents(fs, k) == Contents(fs0, k)
  {
    hide Used, FileByte, Below;
    forall b | b in own ensures own[b].slot in Below(SLOTS) { assert Holds(fs0, b, own[b]); }
    assert SlotBlocks(own, i, Below(SLOTS)) == BlocksOf(own, i);
    TruncatedOwn(fs0, own, fs, i);
    hide BlocksOf;
    forall k: nat | k < |fs0.inodes| ensures FileOk(fs, k) && (k != i ==> Contents(fs, k) == Contents(fs0, k)) {
      assert FileOk(fs0, k);
      if k != i {
        KeptFile(fs0, own, fs, k);
        SameContents(fs0, fs, k);
      }
    }
  }

  lemma KeptFile(fs0: FS, own: map<nat, Place>, fs: FS, k: nat)
    requires Own(fs0, own, {}) && LayoutOk(fs) && k < |fs0.inodes| == |fs.inodes| && fs.inodes[k] == fs0.inodes[k]
    requires |fs.blocks| == |fs0.blocks|
    requires forall b :: fs0.sb.nmeta <= b < |fs0.blocks| ==> fs.blocks[b] == fs0.blocks[b]
    ensures SameFile(fs0, fs, k)
  {
    hide Used, Word;
    IndirectOwned(fs0, own, k);
    forall n: nat | n < MAXFILE ensures Addr(fs, k, n) == Addr(fs0, k, n) {
      RefSame(fs0, fs, k, SlotOf(n));
    }
    hide Ref;
    forall o: nat | o < MAXFILE * BSIZE ensures FileByte(fs, k, o) == FileByte(fs0, k, o) {
      if Addr(fs0, k, o / BSIZE) != 0 { AddrOwned(fs0, own, {}, k, o / BSIZE); }
    }
  }

  /** writei's passes log bitmap blocks and data blocks. */
  lemma LogsPlaced(fs0: FS, fs: FS, owner: map<nat, Place>, i: nat, bn: nat, ps: seq<Pass>)
    requires LayoutOk(fs0) && Own(fs, owner, {}) && i < |fs0.inodes| == |fs.inodes| && Passes(fs0, fs, i, bn, ps)
    ensures forall b :: b in Logs(fs.sb, ps) ==> fs.sb.bmapstart <= b < fs.sb.size
  {
    forall b | b in Logs(fs.sb, ps) ensures fs.sb.bmapstart <= b < fs.sb.size {
      var k := LogsFrom(fs.sb, ps, b);
      assert PassAt(fs0, fs, i, bn + k, ps[k]);
      PassPlaced(fs0, fs, owner, i, bn + k, ps[k]);
    }
  }

  lemma {:induction false} LogsFrom(sb: Super, ps: seq<Pass>, b: nat) returns (k: nat)
    requires b in Logs(sb, ps)
    ensures k < |ps| && b in PassLog(sb, ps[k])
  {
    if b in PassLog(sb, ps[|ps| - 1]) {
      k := |ps| - 1;
    } else {
      k := LogsFrom(sb, ps[..|ps| - 1], b);
    }
  }

  lemma PassPlaced(fs0: FS, fs: FS, owner: map<nat, Place>, i: nat, bn: nat, p: Pass)
    requires LayoutOk(fs0) && Own(fs, owner, {}) && i < |fs0.inodes| == |fs.inodes| && PassAt(fs0, fs, i, bn, p)
    ensures forall b :: b in PassLog(fs.sb, p) ==> fs.sb.bmapstart <= b < fs.sb.size
  {
    hide Used, Ref;
    if p.addr != 0 { AddrOwned(fs, owner, {}, i, bn); }
    IndirectOwned(fs, owner, i);
    RefSlot(fs, i, IND);
  }

  lemma RefSlot(fs: FS, i: nat, s: nat)
    requires LayoutOk(fs) && i < |fs.inodes| && s <= IND
    ensures Ref(fs, i, s) == fs.inodes[i].addrs[s]
  {
  }

  // ---------- filewrite ----------

  /** The most filewrite asks of one writei, in one transaction. */
  const MAXCHUNK: nat := (MAXOPBLOCKS - 1 - 1 - 2) / 2 * BSIZE

  /** How much of what is left goes into the next transaction. */
  function Chunk(left: nat): nat {
    if left > MAXCHUNK then MAXCHUNK else left
  }

  /** Every copy that filewrite begins among its first n bytes succeeds: one at the beginning of each chunk and one
      wherever a block begins. */
  ghost predicate ChunksOk(off: nat, n: nat, copyOk: nat -> bool) {
    forall t: nat :: t < n && (t % MAXCHUNK == 0 || (off + t) % BSIZE == 0) ==> copyOk(t)
  }

  lemma ChunksNone(off: nat, copyOk: nat -> bool)
    ensures ChunksOk(off, 0, copyOk)
  {
  }

  lemma ChunksMore(off: nat, done: nat, r: nat, copyOk: nat -> bool)
    requires ChunksOk(off, done, copyOk) && CopiesOk(off, done, r, copyOk) && done % MAXCHUNK == 0 && r <= MAXCHUNK
    ensures ChunksOk(off, done + r, copyOk)
  {
    forall t: nat | t < done + r && (t % MAXCHUNK == 0 || (off + t) % BSIZE == 0) ensures copyOk(t) {
      if t >= done {
        if (off + t) % BSIZE != 0 { ChunkStart(done, t); }
        assert RunStart(off, done, t);
      }
    }
  }

  lemma ChunkStart(done: nat, t: nat)
    requires done % MAXCHUNK == 0 && t % MAXCHUNK == 0 && done <= t < done + MAXCHUNK
    ensures t == done
  {
  }

  /** A chunk of filewrite never logs more blocks than a transaction may, at any offset. */
  lemma ChunkFits(off: nat, n: nat)
    requires n <= MAXCHUNK
    ensures LogBound(off, n) <= MAXOPBLOCKS
  {
  }

  lemma SpliceNothing(c: seq<Byte>, off: nat)
    ensures off <= |c| ==> Splice(c, off, []) == c
  {
  }

  /** File i holds its contents in fs0 with the first done bytes of src spliced in, and the other
      files are as in fs0. */
  ghost predicate Copied(fs: FS, i: nat, off: nat, src: seq<Byte>, done: nat, fs0: FS)
    requires LayoutOk(fs0) && i < |fs0.inodes| && done <= |src|
  {
    && LayoutOk(fs) && |fs.inodes| == |fs0.inodes|
    && (done > 0 ==> off <= |Contents(fs0, i)|)
    && Contents(fs, i) == (if off <= |Contents(fs0, i)| then Splice(Contents(fs0, i), off, src[..done])
      else Contents(fs0, i))
    && forall k: nat :: k < |fs.inodes| && k != i ==> Contents(fs, k) == Contents(fs0, k)
  }

  lemma CopiedNothing(fs: FS, i: nat, off: nat, src: seq<Byte>)
    requires LayoutOk(fs) && i < |fs.inodes|
    ensures Copied(fs, i, off, src, 0, fs)
  {
    hide LayoutOk, Contents;
    SpliceNothing(Contents(fs, i), off);
    assert src[..0] == [];
  }

  lemma CopiedMeans(fs: FS, i: nat, off: nat, src: seq<Byte>, done: nat, fs0: FS)
    requires LayoutOk(fs0) && i < |fs0.inodes| && done <= |src| && Copied(fs, i, off, src, done, fs0)
    ensures LayoutOk(fs) && |fs.inodes| == |fs0.inodes|
    ensures done > 0 ==> off <= fs0.inodes[i].size && Contents(fs, i) == Splice(Contents(fs0, i), off, src[..done])
    ensures done == 0 ==> Contents(fs, i) == Contents(fs0, i)
    ensures forall k: nat :: k < |fs.inodes| && k != i ==> Contents(fs, k) == Contents(fs0, k)
  {
    hide LayoutOk;
    assert src[..0] == [];
    SpliceNothing(Contents(fs0, i), off);
  }

  lemma CopiedSize(fs: FS, i: nat, off: nat, src: seq<Byte>, done: nat, fs0: FS)
    requires LayoutOk(fs0) && i < |fs0.inodes| && done <= |src| && Copied(fs, i, off, src, done, fs0)
    ensures |fs.inodes| == |fs0.inodes| && (done > 0 ==> off <= fs0.inodes[i].size && off + done <= fs.inodes[i].size)
    ensures done == 0 ==> fs.inodes[i].size == fs0.inodes[i].size
  {
    hide LayoutOk;
    assert src[..0] == [];
    if done == 0 { SpliceNothing(Contents(fs0, i), off); }
    assert |Contents(fs, i)| == fs.inodes[i].size;
  }

  lemma CopiedMore(fs0: FS, fs1: FS, fs2: FS, i: nat, off: nat, src: seq<Byte>, done: nat, n1: nat, r: nat)
    requires LayoutOk(fs0) && LayoutOk(fs1) && LayoutOk(fs2) && i < |fs0.inodes| && done + n1 <= |src| && r <= n1
    requires Copied(fs1, i, off, src, done, fs0) && |fs2.inodes| == |fs1.inodes| && off + done <= fs1.inodes[i].size
    requires Contents(fs2, i) == Splice(Contents(fs1, i), off + done, src[done..done + n1][..r])
    requires forall k: nat :: k < |fs1.inodes| && k != i ==> Contents(fs2, k) == Contents(fs1, k)
    ensures Copied(fs2, i, off, src, done + r, fs0)
  {
    hide LayoutOk, Contents, Splice;
    assert src[..0] == [];
    if done == 0 { SpliceNothing(Contents(fs0, i), off); }
    var more := src[done..done + n1][..r];
    assert src[..done] + more == src[..done + r];
    SpliceTwice(Contents(fs0, i), off, src[..done], more);
  }

  lemma SpliceTwice(c: seq<Byte>, off: nat, a: seq<Byte>, b: seq<Byte>)
    requires off <= |c|
    ensures Splice(Splice(c, off, a), off + |a|, b) == Splice(c, off, a + b)
  {
  }
}
