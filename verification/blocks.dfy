/** Disk blocks as the log and the buffer cache see them: arrays of `uint`. */
module Blocks {
  import opened Machine

  const WORDS: nat := 128  // BSIZE / sizeof(uint)

  type Block = b: seq<Uint> | |b| == WORDS witness seq(WORDS, _ => 0)

  // A disk is an array of blocks; writing one block is atomic.
  type Disk = seq<Block>
}
