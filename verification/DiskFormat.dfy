/** How the file system of kernel/fs.c lies in the blocks of kernel/log.c: data and bitmap blocks as they are, and
    sixteen struct dinode to an inode block. */
module DiskFormat {
  import opened Blocks
  import opened FileBlocks
  import opened FileSys
  import opened Recovery

  const DINODE_WORDS: nat := 16

  // The first two words of a dinode: type, major, minor and nlink. The block layer leaves them alone.
  type Heads = nat -> nat

  /** The log comes before the inode blocks, and they come before the bitmap. */
  predicate Laid(l: Layout, sb: Super) {
    l.start + l.size <= sb.inodestart && sb.inodestart + sb.ninodes / IPB < sb.bmapstart
  }

  predicate IsInodeBlock(sb: Super, b: nat) {
    sb.inodestart <= b <= sb.inodestart + sb.ninodes / IPB
  }

  // ---------- writing ----------

  function DinodeWord(x: Inode, i: nat, head: Heads, w: nat): nat {
    if w < 2 then head(2 * i + w)
    else if w == 2 then x.size
    else if w - 3 < |x.addrs| then x.addrs[w - 3] else 0
  }

  function InodeBlock(inodes: seq<Inode>, head: Heads, k: nat): Block {
    seq(WORDS, w requires 0 <= w < WORDS =>
      var i := IPB * k + w / DINODE_WORDS;
      if i < |inodes| then DinodeWord(inodes[i], i, head, w % DINODE_WORDS) else 0)
  }

  function Words(d: Data): Block {
    seq(WORDS, j requires 0 <= j < WORDS => Word(d, j))
  }

  /** What block b of the file system holds. */
  function Stored(fs: FS, head: Heads, b: nat): Block
    requires b < |fs.blocks|
  {
    if IsInodeBlock(fs.sb, b) then InodeBlock(fs.inodes, head, b - fs.sb.inodestart) else Words(fs.blocks[b])
  }

  /** Outside the log and the given blocks, the disk holds the file system. */
  ghost predicate StoredBut(l: Layout, head: Heads, d: seq<Block>, fs: FS, todo: set<nat>) {
    |d| == |fs.blocks| && forall b: nat :: b < |d| && !InLog(l, b) && b !in todo ==> d[b] == Stored(fs, head, b)
  }

  /** Outside the log the disk holds the file system. */
  ghost predicate Stores(l: Layout, head: Heads, d: seq<Block>, fs: FS) {
    StoredBut(l, head, d, fs, {})
  }

  // ---------- reading ----------

  function WordByte(w: nat, k: nat): Byte {
    if k == 0 then w % 0x100
    else if k == 1 then w / 0x100 % 0x100
    else if k == 2 then w / 0x1_0000 % 0x100
    else w / 0x100_0000 % 0x100
  }

  function Bytes(b: Block): Data {
    seq(BSIZE, x requires 0 <= x < BSIZE => WordByte(b[x / 4], x % 4))
  }

  function ReadInode(sb: Super, d: seq<Block>, i: nat): (x: Inode)
    ensures |x.addrs| == NDIRECT + 1
  {
    var b, w := sb.inodestart + i / IPB, i % IPB * DINODE_WORDS;
    if b < |d| then Inode(d[b][w + 2], d[b][w + 3..w + DINODE_WORDS]) else Inode(0, seq(NDIRECT + 1, _ => 0))
  }

  /** The file system that a disk holds. */
  function Mounted(sb: Super, d: seq<Block>): (fs: FS)
    ensures fs.sb == sb && |fs.blocks| == |d| && |fs.inodes| == sb.ninodes
  {
    FS(sb, seq(|d|, b requires 0 <= b < |d| => Bytes(d[b])), seq(sb.ninodes, i requires 0 <= i => ReadInode(sb, d, i)))
  }

  // ---------- reading back what was written ----------

  lemma ByteBack(d: Data, x: nat)
    requires x < BSIZE
    ensures WordByte(Word(d, x / 4), x % 4) == d[x]
  {
    var j := x / 4;
    var a: nat, b: nat, c: nat, e: nat := d[4 * j], d[4 * j + 1], d[4 * j + 2], d[4 * j + 3];
    Split4(a, b, c, e);
    assert x == 4 * j + x % 4;
  }

  lemma Split4(a: nat, b: nat, c: nat, e: nat)
    requires a < 0x100 && b < 0x100 && c < 0x100 && e < 0x100
    ensures var w := a + 0x100 * b + 0x1_0000 * c + 0x100_0000 * e;
      WordByte(w, 0) == a && WordByte(w, 1) == b && WordByte(w, 2) == c && WordByte(w, 3) == e
  {
    var w := a + 0x100 * b + 0x1_0000 * c + 0x100_0000 * e;
    assert w / 0x100 == b + 0x100 * c + 0x1_0000 * e;
    assert w / 0x1_0000 == c + 0x100 * e;
    assert w / 0x100_0000 == e;
  }

  lemma BytesBack(d: Data)
    ensures Bytes(Words(d)) == d
  {
    hide Word, WordByte;
    forall x: nat | x < BSIZE ensures Bytes(Words(d))[x] == d[x] { ByteBack(d, x); }
  }

  lemma InodeBack(fs: FS, head: Heads, d: seq<Block>, i: nat)
    requires i < |fs.inodes| == fs.sb.ninodes && |fs.inodes[i].addrs| == NDIRECT + 1
    requires var b := fs.sb.inodestart + i / IPB;
      b < |d| && d[b] == InodeBlock(fs.inodes, head, i / IPB)
    ensures ReadInode(fs.sb, d, i) == fs.inodes[i]
  {
    var b, w := fs.sb.inodestart + i / IPB, i % IPB * DINODE_WORDS;
    hide InodeBlock, DinodeWord;
    forall k: nat | k < DINODE_WORDS ensures d[b][w + k] == DinodeWord(fs.inodes[i], i, head, k) {
      DinodeAt(fs.inodes, head, i, k);
    }
    DinodeWords(fs.inodes[i], i, head, d[b][w..w + DINODE_WORDS]);
    assert ReadInode(fs.sb, d, i).addrs == fs.inodes[i].addrs;
  }

  lemma DinodeAt(inodes: seq<Inode>, head: Heads, i: nat, k: nat)
    requires i < |inodes| && k < DINODE_WORDS
    ensures var w := i % IPB * DINODE_WORDS + k;
      w < WORDS && InodeBlock(inodes, head, i / IPB)[w] == DinodeWord(inodes[i], i, head, k)
  {
    hide DinodeWord;
    InodeAt(i, k);
  }

  lemma DinodeWords(x: Inode, i: nat, head: Heads, ws: seq<nat>)
    requires |ws| == DINODE_WORDS && |x.addrs| == NDIRECT + 1
    requires forall k: nat :: k < DINODE_WORDS ==> ws[k] == DinodeWord(x, i, head, k)
    ensures ws[2] == x.size && ws[3..] == x.addrs
  {
  }

  lemma InodeAt(i: nat, k: nat)
    requires k < DINODE_WORDS
    ensures var w := i % IPB * DINODE_WORDS + k;
      IPB * (i / IPB) + w / DINODE_WORDS == i && w % DINODE_WORDS == k && w < WORDS
  {
  }

  /** Two file systems with the same inodes that agree from the bitmap on are the same files with the same owners. */
  lemma SameFrom(fs: FS, fs': FS, owner: map<nat, Place>)
    requires Own(fs, owner, {}) && fs'.sb == fs.sb && fs'.inodes == fs.inodes && |fs'.blocks| == |fs.blocks|
    requires forall b :: fs.sb.bmapstart <= b < |fs.blocks| ==> fs'.blocks[b] == fs.blocks[b]
    ensures Own(fs', owner, {})
    ensures forall i: nat :: i < |fs.inodes| ==>
      Contents(fs', i) == Contents(fs, i) && (FileOk(fs, i) ==> FileOk(fs', i))
  {
    hide Word;
    forall k: nat, t: nat | k < |fs.inodes| && t < SLOTS ensures Ref(fs', k, t) == Ref(fs, k, t) {
      IndirectOwned(fs, owner, k);
      RefSame(fs, fs', k, t);
    }
    forall b: nat | b < fs.sb.size ensures Used(fs', b) == Used(fs, b) {
      assert fs'.blocks[BBlock(fs.sb, b)] == fs.blocks[BBlock(fs.sb, b)];
    }
    SameOwn(fs, fs', owner);
    hide Used, Ref;
    forall k: nat, n: nat | k < |fs.inodes| && n < MAXFILE ensures Addr(fs', k, n) == Addr(fs, k, n) {}
    forall k: nat, o: nat | k < |fs.inodes| ensures FileByte(fs', k, o) == FileByte(fs, k, o) {
      if o / BSIZE < MAXFILE && Addr(fs, k, o / BSIZE) != 0 { AddrOwned(fs, owner, {}, k, o / BSIZE); }
    }
  }

  /** A disk that stores a file system shows, when it is mounted, the same files with the same owners of blocks. */
  lemma MountsBack(l: Layout, head: Heads, d: seq<Block>, fs: FS, owner: map<nat, Place>)
    requires Own(fs, owner, {}) && Laid(l, fs.sb) && Stores(l, head, d, fs)
    ensures Own(Mounted(fs.sb, d), owner, {}) && |Mounted(fs.sb, d).inodes| == |fs.inodes|
    ensures forall i: nat :: i < |fs.inodes| ==>
      && Contents(Mounted(fs.sb, d), i) == Contents(fs, i)
      && (FileOk(fs, i) ==> FileOk(Mounted(fs.sb, d), i))
  {
    var m := Mounted(fs.sb, d);
    forall i: nat | i < |fs.inodes| ensures m.inodes[i] == fs.inodes[i] {
      assert d[fs.sb.inodestart + i / IPB] == Stored(fs, head, fs.sb.inodestart + i / IPB);
      InodeBack(fs, head, d, i);
    }
    assert m.inodes == fs.inodes;
    forall b: nat | fs.sb.bmapstart <= b < |fs.blocks| ensures m.blocks[b] == fs.blocks[b] {
      assert d[b] == Stored(fs, head, b);
      BytesBack(fs.blocks[b]);
    }
    SameFrom(fs, m, owner);
  }

  // ---------- what an operation leaves to be written ----------

  /** After an operation on inode i, only the blocks it has logged differ from what the disk stores. */
  lemma LeftToWrite(l: Layout, head: Heads, d: seq<Block>, fs: FS, fs': FS, i: nat, logged: set<nat>)
    requires Stores(l, head, d, fs) && fs'.sb == fs.sb && LogsAll(fs.blocks, fs'.blocks, {}, logged)
    requires OnlyInode(fs.inodes, fs'.inodes, i) && (fs'.inodes == fs.inodes || i / IPB + fs.sb.inodestart in logged)
    ensures StoredBut(l, head, d, fs', logged)
  {
    forall b: nat | b < |d| && !InLog(l, b) && b !in logged ensures d[b] == Stored(fs', head, b) {
      assert d[b] == Stored(fs, head, b);
      if IsInodeBlock(fs.sb, b) && fs'.inodes != fs.inodes {
        SameInodeBlock(fs.inodes, fs'.inodes, head, i, b - fs.sb.inodestart);
      }
    }
  }

  lemma SameInodeBlock(a: seq<Inode>, b: seq<Inode>, head: Heads, i: nat, k: nat)
    requires OnlyInode(a, b, i) && i / IPB != k
    ensures InodeBlock(b, head, k) == InodeBlock(a, head, k)
  {
    forall w: nat | w < WORDS ensures InodeBlock(b, head, k)[w] == InodeBlock(a, head, k)[w] {
      assert IPB * k + w / DINODE_WORDS != i;
    }
  }
}
