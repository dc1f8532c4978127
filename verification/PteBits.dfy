/** Page-table entries as the 64-bit words that memory holds (section 4.4 of the RISC-V Privileged Architecture
    specification, version 1.12). Shifts of unsigned words are divisions and multiplications by powers of two, and
    masks of low bits are remainders. */
module PteBits {
  import opened Machine

  // Bits 5 to 9 of an entry: global, accessed, dirty and two for software.
  type Rest = n: nat | n < 32

  /** A page-table entry: valid, readable, writable, executable, user; bits 5 to 9; physical page number. */
  datatype Pte = Pte(v: bool, r: bool, w: bool, x: bool, u: bool, rest: Rest, ppn: nat)

  const NOPTE: Pte := Pte(false, false, false, false, false, 0, 0)

  function Bit(b: bool): nat {
    if b then 1 else 0
  }

  /** A low bit in front of the higher ones. */
  function Join(b: bool, high: nat): nat {
    Bit(b) + 2 * high
  }

  lemma Split(b: bool, high: nat)
    ensures (Join(b, high) % 2 == 1) == b && Join(b, high) / 2 == high
  {
  }

  /** V, R, W, X and U from the lowest bit up, then bits 5 to 9, then the page number. */
  function Pack(e: Pte): nat {
    Join(e.v, Join(e.r, Join(e.w, Join(e.x, Join(e.u, e.rest + 32 * e.ppn)))))
  }

  function Unpack(w: nat): Pte {
    var w1 := w / 2;
    var w2 := w1 / 2;
    var w3 := w2 / 2;
    var w4 := w3 / 2;
    var w5 := w4 / 2;
    Pte(w % 2 == 1, w1 % 2 == 1, w2 % 2 == 1, w3 % 2 == 1, w4 % 2 == 1, w5 % 32, w5 / 32)
  }

  /** The bits are where the hardware looks for them. */
  lemma HardwareBits(e: Pte)
    ensures Pack(e) == 0x1 * Bit(e.v) + 0x2 * Bit(e.r) + 0x4 * Bit(e.w) + 0x8 * Bit(e.x) + 0x10 * Bit(e.u)
                       + 0x20 * e.rest + 0x400 * e.ppn
  {
  }

  /** PA2PTE, PTE2PA and PTE_FLAGS. */
  function FromAddress(pa: nat): nat {
    pa / PGSIZE * 1024
  }

  function ToAddress(w: nat): nat {
    w / 1024 * PGSIZE
  }

  function Flags(w: nat): nat {
    w % 1024
  }

  /** No two entries are the same word, and a page number of 44 bits fits. */
  lemma RoundTrip(e: Pte)
    ensures Unpack(Pack(e)) == e
    ensures e.ppn < 0x1000_0000_0000 ==> Pack(e) < WORD
  {
    hide Join;
    var w5 := e.rest + 32 * e.ppn;
    var w4 := Join(e.u, w5);
    var w3 := Join(e.x, w4);
    var w2 := Join(e.w, w3);
    Split(e.u, w5);
    Split(e.x, w4);
    Split(e.w, w3);
    Split(e.r, w2);
    Split(e.v, Join(e.r, w2));
    assert w5 % 32 == e.rest && w5 / 32 == e.ppn;
    assert Unpack(Pack(e)) == e;
    assert e.ppn < 0x1000_0000_0000 ==> Pack(e) < WORD by { Fits(e); }
  }

  lemma Fits(e: Pte)
    ensures Pack(e) < 1024 * (e.ppn + 1)
  {
  }

  /** Every word is some entry's. */
  lemma EveryWord(w: nat)
    ensures Pack(Unpack(w)) == w
  {
    var w1 := w / 2;
    var w2 := w1 / 2;
    var w3 := w2 / 2;
    var w4 := w3 / 2;
    var w5 := w4 / 2;
    Halves(w);
    Halves(w1);
    Halves(w2);
    Halves(w3);
    Halves(w4);
    assert w5 == w5 % 32 + 32 * (w5 / 32);
  }

  lemma Halves(w: nat)
    ensures Join(w % 2 == 1, w / 2) == w
  {
  }

  /** What mappages stores for a page-aligned address, and what walkaddr and uvmcopy take from it again. */
  lemma StoredEntry(e: Pte, pa: nat)
    requires pa == e.ppn * PGSIZE
    ensures FromAddress(pa) + Pack(e.(ppn := 0)) == Pack(e)
    ensures ToAddress(Pack(e)) == pa && Flags(Pack(e)) == Pack(e.(ppn := 0))
  {
    LowPart(e);
    hide Pack;
    Apart(Pack(e.(ppn := 0)), e.ppn);
  }

  lemma LowPart(e: Pte)
    ensures Pack(e.(ppn := 0)) < 1024 && Pack(e) == Pack(e.(ppn := 0)) + 1024 * e.ppn
  {
  }

  lemma Apart(low: nat, ppn: nat)
    requires low < 1024
    ensures (low + 1024 * ppn) / 1024 == ppn && (low + 1024 * ppn) % 1024 == low && ppn * PGSIZE / PGSIZE == ppn
  {
  }
}
