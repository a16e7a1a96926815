/** The kernel's integer types and limits: types.h and param.h. */
module Machine {

  const UINT: nat := 0x1_0000_0000

  type Uint = x: int | 0 <= x < UINT
  type Short = x: int | 0 <= x < 0x1_0000
  type Byte = x: int | 0 <= x < 256

  const MAXOPBLOCKS: nat := 10  // blocks an operation may write
  const LOGSIZE: nat := 30      // MAXOPBLOCKS * 3

  function Min(a: int, b: int): int { if a < b then a else b }
  function Max(a: int, b: int): int { if a > b then a else b }
}
