/** The other views the kernel takes of a block, by casting: its 512 bytes (file contents) and the
    bits of those bytes (the free map). A uint is little-endian. */
module Bytes {
  import opened Machine
  import opened Blocks

  const BSIZE: nat := 512

  // ---------------------------------------------------------------- bytes

  function ByteOf(w: Uint, j: nat): (x: Byte)
    requires j < 4
  {
    if j == 0 then w % 256
    else if j == 1 then w / 256 % 256
    else if j == 2 then w / 0x1_0000 % 256
    else w / 0x100_0000 % 256
  }

  function WordOf(s0: Byte, s1: Byte, s2: Byte, s3: Byte): (w: Uint) {
    s0 + 256 * s1 + 0x1_0000 * s2 + 0x100_0000 * s3
  }

  lemma BytesOfWord(s0: Byte, s1: Byte, s2: Byte, s3: Byte)
    ensures var w := WordOf(s0, s1, s2, s3);
      ByteOf(w, 0) == s0 && ByteOf(w, 1) == s1 && ByteOf(w, 2) == s2 && ByteOf(w, 3) == s3
  {
    var w := WordOf(s0, s1, s2, s3);
    assert w / 256 == s1 + 256 * s2 + 0x1_0000 * s3;
    assert w / 0x1_0000 == s2 + 256 * s3;
    assert w / 0x100_0000 == s3;
  }

  // (char*)bp->data
  function Unpack(b: Block): (s: seq<Byte>)
    ensures |s| == BSIZE
  {
    seq(BSIZE, k requires 0 <= k < BSIZE => ByteOf(b[k / 4], k % 4))
  }

  // The block with the given bytes.
  function Pack(s: seq<Byte>): (b: Block)
    requires |s| == BSIZE
  {
    seq(WORDS, i requires 0 <= i < WORDS => WordOf(s[4 * i], s[4 * i + 1], s[4 * i + 2], s[4 * i + 3]))
  }

  lemma UnpackPack(s: seq<Byte>)
    requires |s| == BSIZE
    ensures Unpack(Pack(s)) == s
  {
    hide ByteOf; hide WordOf;
    forall k | 0 <= k < BSIZE
      ensures Unpack(Pack(s))[k] == s[k]
    {
      var i := k / 4;
      BytesOfWord(s[4 * i], s[4 * i + 1], s[4 * i + 2], s[4 * i + 3]);
    }
  }

  // memset(bp->data, 0, BSIZE)
  function ZeroBlock(): (b: Block)
    ensures forall i | 0 <= i < WORDS :: b[i] == 0
  {
    seq(WORDS, i => 0)
  }

  lemma ZeroBytes()
    ensures forall k | 0 <= k < BSIZE :: Unpack(ZeroBlock())[k] == 0
  {}

  // memmove(bp->data + at, src, |src|)
  function Splice(b: Block, at: nat, src: seq<Byte>): (r: Block)
    requires at + |src| <= BSIZE
  {
    Pack(Unpack(b)[..at] + src + Unpack(b)[at + |src|..])
  }

  lemma SpliceBytes(b: Block, at: nat, src: seq<Byte>)
    requires at + |src| <= BSIZE
    ensures forall k | 0 <= k < BSIZE ::
      Unpack(Splice(b, at, src))[k] == if at <= k < at + |src| then src[k - at] else Unpack(b)[k]
  {
    hide Unpack; hide Pack;
    UnpackPack(Unpack(b)[..at] + src + Unpack(b)[at + |src|..]);
  }

  // ---------------------------------------------------------------- bits

  // 1 << k
  function Mask(k: nat): (m: nat)
    requires k < 8
  {
    [1, 2, 4, 8, 16, 32, 64, 128][k]
  }

  // (x & (1 << k)) != 0
  predicate ByteBit(x: Byte, k: nat)
    requires k < 8
  {
    x / Mask(k) % 2 == 1
  }

  // x | (1 << k)
  function SetByteBit(x: Byte, k: nat): (r: int)
    requires k < 8
  {
    if ByteBit(x, k) then x else x + Mask(k)
  }

  // x & ~(1 << k)
  function ClearByteBit(x: Byte, k: nat): (r: int)
    requires k < 8
  {
    if ByteBit(x, k) then x - Mask(k) else x
  }

  function FromBits(d: seq<nat>): nat
    requires |d| == 8
  {
    d[0] + 2 * d[1] + 4 * d[2] + 8 * d[3] + 16 * d[4] + 32 * d[5] + 64 * d[6] + 128 * d[7]
  }

  function Bits(x: Byte): (d: seq<nat>)
    ensures |d| == 8 && forall j | 0 <= j < 8 :: d[j] < 2
  {
    [x % 2, x / 2 % 2, x / 4 % 2, x / 8 % 2, x / 16 % 2, x / 32 % 2, x / 64 % 2, x / 128 % 2]
  }

  lemma Halves(x: nat)
    ensures x / 4 == x / 2 / 2 && x / 8 == x / 4 / 2 && x / 16 == x / 8 / 2
    ensures x / 32 == x / 16 / 2 && x / 64 == x / 32 / 2 && x / 128 == x / 64 / 2
  {}

  lemma BitsOfByte(x: Byte)
    ensures FromBits(Bits(x)) == x
  {
    Halves(x);
  }

  lemma Digit(d: nat, y: nat)
    requires d < 2
    ensures (d + 2 * y) / 2 == y && (d + 2 * y) % 2 == d
  {}

  lemma ByteOfBits(d: seq<nat>)
    requires |d| == 8 && forall j | 0 <= j < 8 :: d[j] < 2
    ensures FromBits(d) < 256 && Bits(FromBits(d)) == d
  {
    var x6 := d[6] + 2 * d[7];
    var x5 := d[5] + 2 * x6;
    var x4 := d[4] + 2 * x5;
    var x3 := d[3] + 2 * x4;
    var x2 := d[2] + 2 * x3;
    var x1 := d[1] + 2 * x2;
    var x := d[0] + 2 * x1;
    Halves(x);
    Digit(d[0], x1);
    Digit(d[1], x2);
    Digit(d[2], x3);
    Digit(d[3], x4);
    Digit(d[4], x5);
    Digit(d[5], x6);
    Digit(d[6], d[7]);
    assert x == FromBits(d);
  }

  lemma BitIsDigit(x: Byte, k: nat)
    requires k < 8
    ensures ByteBit(x, k) == (Bits(x)[k] == 1)
  {}

  // Or-ing and masking move one binary digit.
  lemma DigitWeight(d: seq<nat>, k: nat)
    requires |d| == 8 && k < 8
    ensures d[k] == 0 ==> FromBits(d[k := 1]) == FromBits(d) + Mask(k) && d[k := 0] == d
    ensures d[k] == 1 ==> FromBits(d[k := 0]) == FromBits(d) - Mask(k) && d[k := 1] == d
  {
    if k == 0 {} else if k == 1 {} else if k == 2 {} else if k == 3 {}
    else if k == 4 {} else if k == 5 {} else if k == 6 {} else {}
  }

  lemma SetClearDigit(x: Byte, k: nat)
    requires k < 8
    ensures SetByteBit(x, k) == FromBits(Bits(x)[k := 1])
    ensures ClearByteBit(x, k) == FromBits(Bits(x)[k := 0])
  {
    BitsOfByte(x);
    BitIsDigit(x, k);
    DigitWeight(Bits(x), k);
  }

  lemma SetClearBit(x: Byte, k: nat, j: nat)
    requires k < 8 && j < 8
    ensures 0 <= SetByteBit(x, k) < 256 && 0 <= ClearByteBit(x, k) < 256
    ensures ByteBit(SetByteBit(x, k), j) == (j == k || ByteBit(x, j))
    ensures ByteBit(ClearByteBit(x, k), j) == (j != k && ByteBit(x, j))
  {
    SetClearDigit(x, k);
    BitIsDigit(x, j);
    assert Bits(SetByteBit(x, k)) == Bits(x)[k := 1] by { ByteOfBits(Bits(x)[k := 1]); }
    assert Bits(ClearByteBit(x, k)) == Bits(x)[k := 0] by { ByteOfBits(Bits(x)[k := 0]); }
    BitIsDigit(SetByteBit(x, k), j);
    BitIsDigit(ClearByteBit(x, k), j);
  }

  // ---------------------------------------------------------------- the bits of a block

  const BPB: nat := 4096  // bits per block

  // (bp->data[k/8] & (1 << (k % 8))) != 0
  predicate Bit(b: Block, k: nat)
    requires k < BPB
  {
    ByteBit(Unpack(b)[k / 8], k % 8)
  }

  // bp->data[k/8] |= 1 << (k % 8)
  function SetBit(b: Block, k: nat): (r: Block)
    requires k < BPB
  {
    SetClearBit(Unpack(b)[k / 8], k % 8, 0);
    Pack(Unpack(b)[k / 8 := SetByteBit(Unpack(b)[k / 8], k % 8)])
  }

  // bp->data[k/8] &= ~(1 << (k % 8))
  function ClearBit(b: Block, k: nat): (r: Block)
    requires k < BPB
  {
    SetClearBit(Unpack(b)[k / 8], k % 8, 0);
    Pack(Unpack(b)[k / 8 := ClearByteBit(Unpack(b)[k / 8], k % 8)])
  }

  lemma BitsOfBlock(b: Block, k: nat, j: nat)
    requires k < BPB && j < BPB
    ensures Bit(SetBit(b, k), j) == (j == k || Bit(b, j))
    ensures Bit(ClearBit(b, k), j) == (j != k && Bit(b, j))
  {
    hide Unpack; hide ByteBit; hide SetByteBit; hide ClearByteBit; hide Pack;
    var x := Unpack(b)[k / 8];
    SetClearBit(x, k % 8, j % 8);
    UnpackPack(Unpack(b)[k / 8 := SetByteBit(x, k % 8)]);
    UnpackPack(Unpack(b)[k / 8 := ClearByteBit(x, k % 8)]);
    if j / 8 == k / 8 && j % 8 == k % 8 {
      assert j == k;
    }
  }
}
