/** Disk blocks and the constants of the storage stack (kernel/param.h, kernel/fs.h). */
module Blocks {

  // A 1024-byte block seen as 256 little-endian 32-bit words.
  const WORDS: nat := 256
  type Block = b: seq<nat> | |b| == WORDS witness seq(WORDS, _ => 0)

  const MAXOPBLOCKS: nat := 10
  const LOGSIZE: nat := 30
  const NBUF: nat := 30
  const ROOTDEV: nat := 1

  /** Position of the first occurrence of x in s. */
  function IndexOf<T(==)>(s: seq<T>, x: T): (k: nat)
    requires x in s
    ensures k < |s| && s[k] == x && x !in s[..k]
  {
    if s[0] == x then 0 else 1 + IndexOf(s[1..], x)
  }
}
