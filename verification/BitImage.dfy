/** Bitmap blocks for a given set of blocks in use, to build disk images with. */
module BitImage {
  import opened FileBlocks

  /** The number whose bit t says whether block b + t is in use. */
  function Pack(used: nat -> bool, b: nat, n: nat): (x: nat)
    ensures x < Pow2(n)
    decreases n
  {
    if n == 0 then 0 else (if used(b) then 1 else 0) + 2 * Pack(used, b + 1, n - 1)
  }

  lemma {:induction false} PackBit(used: nat -> bool, b: nat, n: nat, t: nat)
    requires t < n
    ensures Bit(Pack(used, b, n), t) == used(b + t)
    decreases n
  {
    var x := Pack(used, b + 1, n - 1);
    if t > 0 {
      PackBit(used, b + 1, n - 1, t - 1);
      assert Pack(used, b, n) / 2 == x;
    }
  }

  function PackByte(used: nat -> bool, b: nat): Byte {
    assert Pow2(8) == 256 by { assert Pow2(4) == 16; }
    Pack(used, b, 8)
  }

  function BitData(used: nat -> bool, j: nat): Data {
    seq(BSIZE, x requires 0 <= x < BSIZE => PackByte(used, j * BPB + x * 8))
  }

  /** A disk whose bitmap blocks are these has exactly these blocks in use. */
  lemma UsedIs(fs: FS, used: nat -> bool, b: nat)
    requires LayoutOk(fs) && b < fs.sb.size && fs.blocks[BBlock(fs.sb, b)] == BitData(used, b / BPB)
    ensures Used(fs, b) <==> used(b)
  {
    hide Pack;
    var j, x, t := b / BPB, b % BPB / 8, b % BPB % 8;
    assert b == j * BPB + x * 8 + t;
    PackBit(used, j * BPB + x * 8, 8, t);
    assert BitData(used, j)[x] == PackByte(used, j * BPB + x * 8);
  }
}
