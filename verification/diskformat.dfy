/** The disk as fs.h lays it out, in blocks, words, bytes and bits, and nothing else: the reading of the
    disk that the code of the file system is held to, kept apart from the functions that it uses. */
module DiskFormat {
  import opened Blocks

  // An inode as a program that inspects the disk finds it.
  datatype Node = Node(typ: int, major: int, minor: int, nlink: int, size: int, addrs: seq<int>)

  function PowerOfTwo(k: nat): (p: nat)
    ensures p >= 1
  {
    if k == 0 then 1 else 2 * PowerOfTwo(k - 1)
  }

  // Byte k: the words are little-endian.
  function ByteAt(b: Block, k: nat): int
    requires k < 512
  {
    if k % 4 == 0 then b[k / 4] % 256
    else if k % 4 == 1 then b[k / 4] / 256 % 256
    else if k % 4 == 2 then b[k / 4] / 65536 % 256
    else b[k / 4] / 16777216
  }

  // Bit k, the lowest bit of each byte first.
  predicate BitAt(b: Block, k: nat)
    requires k < 4096
  {
    ByteAt(b, k / 8) / PowerOfTwo(k % 8) % 2 == 1
  }

  // Is block c marked in the map that starts at block `start`?
  predicate MarkedAt(disk: Disk, start: nat, c: nat) {
    start + c / 4096 < |disk| && BitAt(disk[start + c / 4096], c % 4096)
  }

  predicate FirstUnmarked(disk: Disk, start: nat, c: nat) {
    !MarkedAt(disk, start, c) && forall b: nat | b < c :: MarkedAt(disk, start, b)
  }

  predicate AllMarked(disk: Disk, start: nat, n: nat) {
    forall b: nat | b < n :: MarkedAt(disk, start, b)
  }

  // Inode i: eight to a block, sixteen words each.
  function NodeAt(disk: Disk, start: nat, i: nat): (n: Node)
    requires start + i / 8 < |disk|
    ensures |n.addrs| == 13
  {
    var b, w := disk[start + i / 8], 16 * (i % 8);
    Node(b[w] % 65536, b[w] / 65536, b[w + 1] % 65536, b[w + 1] / 65536, b[w + 2], b[w + 3..w + 16])
  }

  // The block that holds bytes 512 * n to 512 * n + 511 of a file with pointers addrs; 0 if none does.
  function BlockAt(disk: Disk, addrs: seq<int>, n: nat): int
    requires |addrs| == 13
  {
    if n < 12 then addrs[n]
    else if n < 140 && 0 < addrs[12] < |disk| then disk[addrs[12]][n - 12]
    else 0
  }

  // A file with pointers p becomes one with pointers q: those of file blocks lo to below hi may differ, and
  // no others.
  predicate PointersKept(was: Disk, p: seq<int>, now: Disk, q: seq<int>, lo: nat, hi: nat) {
    |p| == |q| == 13 && forall n: nat | n < 140 && !(lo <= n < hi) :: BlockAt(now, q, n) == BlockAt(was, p, n)
  }

  // Byte o of the file is x.
  predicate HasByte(disk: Disk, addrs: seq<int>, o: nat, x: int)
    requires |addrs| == 13
  {
    var a := BlockAt(disk, addrs, o / 512);
    0 < a < |disk| && x == ByteAt(disk[a], o % 512)
  }

  // The bytes s are in the file from off on.
  predicate HasBytes(disk: Disk, addrs: seq<int>, off: nat, s: seq<int>)
    requires |addrs| == 13
  {
    forall k: nat | k < |s| :: HasByte(disk, addrs, off + k, s[k])
  }

  // The pointers of a file include b.
  predicate PointsTo(disk: Disk, addrs: seq<int>, b: nat)
    requires |addrs| == 13
  {
    || (exists k | 0 <= k < 13 :: addrs[k] == b)
    || (0 < addrs[12] < |disk| && exists k | 0 <= k < 128 :: disk[addrs[12]][k] == b)
  }

  // d is b but for bit k, which is v.
  predicate WithBit(b: Block, d: Block, k: nat, v: bool) {
    forall j: nat | j < 4096 :: BitAt(d, j) == if j == k then v else BitAt(b, j)
  }

  // From `was` to `now`: the bit of block c is set, and the block zeroed.
  ghost predicate Allocates(was: Disk, now: Disk, start: nat, c: nat) {
    var x := start + c / 4096;
    && x < |was| && c < |was|
    && exists d: Block :: WithBit(was[x], d, c % 4096, true) && now == was[x := d][c := seq(128, _ => 0)]
  }

  // The bit is cleared.
  ghost predicate Frees(was: Disk, now: Disk, start: nat, c: nat) {
    var x := start + c / 4096;
    && x < |was|
    && exists d: Block :: WithBit(was[x], d, c % 4096, false) && now == was[x := d]
  }

  // Inode i becomes n, and no other word of the disk changes.
  ghost predicate PutsNode(was: Disk, now: Disk, start: nat, i: nat, n: Node) {
    var x := start + i / 8;
    && x < |was| == |now| && now == was[x := now[x]] && NodeAt(now, start, i) == n
    && forall w: nat | w < 128 && w / 16 != i % 8 :: now[x][w] == was[x][w]
  }

  // From `was` to `now`, of the blocks from `data` on those that addrs point to have become free, and no
  // other mark has changed.
  predicate Unmarks(was: Disk, now: Disk, start: nat, data: nat, addrs: seq<int>)
    requires |addrs| == 13
  {
    && |was| == |now|
    && forall b: nat | b < |was| ::
         MarkedAt(now, start, b) <==> MarkedAt(was, start, b) && (b < data || !PointsTo(was, addrs, b))
  }

  // The superblock's words.
  predicate SuperWords(b: Block, size: nat, nblocks: nat, ninodes: nat, nlog: nat, logstart: nat, inodestart: nat,
                       bmapstart: nat) {
    b[0] == size && b[1] == nblocks && b[2] == ninodes && b[3] == nlog && b[4] == logstart && b[5] == inodestart
      && b[6] == bmapstart
  }
}
