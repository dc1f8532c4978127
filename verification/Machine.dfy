/** Widths of the machine (kernel/types.h, kernel/riscv.h). */
module Machine {

  const UINT: nat := 0x1_0000_0000                  // uint arithmetic is modulo this
  const WORD: nat := 0x1_0000_0000_0000_0000        // uint64 arithmetic is modulo this
  const PGSIZE: nat := 4096
}
