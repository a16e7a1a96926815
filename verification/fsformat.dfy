/** What the functions of the file system make of a disk is what its format says. */
module FsFormat {
  import opened Machine
  import opened Blocks
  import opened Bytes
  import opened DiskFormat
  import opened FsSpec
  import opened FsOps

  lemma ByteIs(b: Block, k: nat)
    requires k < 512
    ensures ByteAt(b, k) == Unpack(b)[k]
  {}

  lemma BitIs(b: Block, k: nat)
    requires k < 4096
    ensures Bit(b, k) == BitAt(b, k)
  {
    ByteIs(b, k / 8);
    assert PowerOfTwo(1) == 2 && PowerOfTwo(2) == 4 && PowerOfTwo(3) == 8 && PowerOfTwo(4) == 16;
    assert PowerOfTwo(5) == 32 && PowerOfTwo(6) == 64 && PowerOfTwo(7) == 128;
    hide Unpack; hide ByteAt;
  }

  lemma MarkedIs(disk: Disk, sb: Superblock, c: nat)
    requires sb.Ok() && |disk| == sb.size && c < sb.size
    ensures MarkedAt(disk, sb.bmapstart, c) == BitSet(disk, sb, c)
  {
    BitIs(disk[sb.BBlock(c)], c % BPB);
    hide Bit; hide BitAt;
  }

  // The superblock is in block 1, its numbers in the order of fs.h.
  lemma SuperIs(disk: Disk, sb: Superblock)
    requires SbOk(disk, sb)
    ensures SuperWords(disk[1], sb.size, sb.nblocks, sb.ninodes, sb.nlog, sb.logstart, sb.inodestart, sb.bmapstart)
  {}

  lemma MarksAre(disk: Disk, sb: Superblock, n: nat)
    requires sb.Ok() && |disk| == sb.size && n <= sb.size && forall c: nat | c < n :: BitSet(disk, sb, c)
    ensures AllMarked(disk, sb.bmapstart, n)
    ensures n < sb.size && !BitSet(disk, sb, n) ==> FirstUnmarked(disk, sb.bmapstart, n)
  {
    hide MarkedAt; hide BitSet;
    forall c: nat | c < sb.size
      ensures MarkedAt(disk, sb.bmapstart, c) == BitSet(disk, sb, c)
    {
      MarkedIs(disk, sb, c);
    }
  }

  lemma AllocatedIs(disk: Disk, sb: Superblock, c: nat)
    requires sb.Ok() && |disk| == sb.size && c < sb.size
    ensures Allocates(disk, Allocated(disk, sb, c), sb.bmapstart, c)
  {
    hide Bit; hide SetBit; hide BitAt;
    var x, k := sb.BBlock(c), c % BPB;
    var d := SetBit(disk[x], k);
    forall j: nat | j < 4096
      ensures BitAt(d, j) == if j == k then true else BitAt(disk[x], j)
    {
      BitIs(d, j);
      BitIs(disk[x], j);
      BitsOfBlock(disk[x], k, j);
    }
    AllocatedDisk(disk, sb, c);
    AllocatesIf(disk, Allocated(disk, sb, c), sb.bmapstart, c, d);
  }

  lemma AllocatedDisk(disk: Disk, sb: Superblock, c: nat)
    requires sb.Ok() && |disk| == sb.size && c < sb.size
    ensures sb.bmapstart + c / 4096 < |disk|
    ensures var x := sb.bmapstart + c / 4096;
      Allocated(disk, sb, c) == disk[x := SetBit(disk[x], c % 4096)][c := seq(128, _ => 0)]
  {
    hide SetBit;
    assert ZeroBlock() == seq(128, _ => 0);
  }

  lemma AllocatesIf(was: Disk, now: Disk, start: nat, c: nat, d: Block)
    requires start + c / 4096 < |was| && c < |was| && WithBit(was[start + c / 4096], d, c % 4096, true)
    requires now == was[start + c / 4096 := d][c := seq(128, _ => 0)]
    ensures Allocates(was, now, start, c)
  {}

  lemma FreesIf(was: Disk, now: Disk, start: nat, c: nat, d: Block)
    requires var x := start + c / 4096; x < |was| && WithBit(was[x], d, c % 4096, false) && now == was[x := d]
    ensures Frees(was, now, start, c)
  {
    hide WithBit;
  }

  lemma FreedIs(disk: Disk, sb: Superblock, c: nat)
    requires sb.Ok() && |disk| == sb.size && c < sb.size
    ensures Frees(disk, disk[sb.BBlock(c) := ClearBit(disk[sb.BBlock(c)], c % BPB)], sb.bmapstart, c)
  {
    hide Bit; hide ClearBit; hide BitAt;
    var x, k := sb.BBlock(c), c % BPB;
    var d := ClearBit(disk[x], k);
    forall j: nat | j < 4096
      ensures BitAt(d, j) == if j == k then false else BitAt(disk[x], j)
    {
      BitIs(d, j);
      BitIs(disk[x], j);
      BitsOfBlock(disk[x], k, j);
    }
    FreesIf(disk, disk[x := d], sb.bmapstart, c, d);
  }

  lemma UpdatedIs(disk: Disk, sb: Superblock, its: seq<Inode>, inum: nat)
    requires sb.Ok() && |disk| == sb.size && inum < |its| == sb.ninodes && |its[inum].addrs| == NDIRECT + 1
    ensures PutsNode(disk, Updated(disk, sb, its, inum), sb.inodestart, inum, NodeOf(its[inum]))
  {
    var x, now := sb.IBlock(inum), Updated(disk, sb, its, inum);
    UpdatedOnDisk(disk, sb, its, inum, inum);
    NodeIs(now, sb, inum);
    hide NodeAt; hide OnDisk;
    forall w: nat | w < 128 && w / 16 != inum % 8
      ensures now[x][w] == disk[x][w]
    {
      assert w < 16 * (inum % 8) || w >= 16 * (inum % 8) + 16;
    }
  }

  function NodeOf(ip: Inode): Node {
    Node(ip.typ, ip.major, ip.minor, ip.nlink, ip.size, ip.addrs)
  }

  lemma NodeIs(disk: Disk, sb: Superblock, i: nat)
    requires sb.Ok() && |disk| == sb.size && i < sb.ninodes
    ensures sb.inodestart + i / 8 < |disk| && NodeAt(disk, sb.inodestart, i) == NodeOf(OnDisk(disk, sb, i))
  {
    var b, w := disk[sb.inodestart + i / 8], 16 * (i % 8);
    assert b[w..w + 16][3..] == b[w + 3..w + 16];
  }

  lemma BlockIs(disk: Disk, ip: Inode, n: nat)
    requires |ip.addrs| == NDIRECT + 1 && n < 140
    ensures BlockAt(disk, ip.addrs, n) == Ptr(disk, ip, SlotOf(n))
  {}

  lemma BlocksOf(disk: Disk, ip: Inode, n: nat)
    requires |ip.addrs| == NDIRECT + 1 && n < 140
    ensures n < 12 ==> Ptr(disk, ip, SlotOf(n)) == ip.addrs[n]
    ensures n >= 12 && Ptr(disk, ip, SlotOf(n)) != 0 ==>
        0 < ip.addrs[12] < |disk| && Ptr(disk, ip, SlotOf(n)) == disk[ip.addrs[12]][n - 12]
  {}

  // The contents of a file are the bytes of its blocks.
  // Pointers other than that of file block bn and the indirect one.
  predicate OthersKept(disk: Disk, ip: Inode, disk': Disk, ip': Inode, s: nat) {
    && |ip.addrs| == |ip'.addrs| == NDIRECT + 1
    && forall t: nat | t < SLOTS && t != s && t != INDIRECT :: Ptr(disk', ip', t) == Ptr(disk, ip, t)
  }

  lemma OthersTrans(d0: Disk, p: Inode, d1: Disk, q: Inode, d2: Disk, r: Inode, s: nat)
    requires OthersKept(d0, p, d1, q, INDIRECT) && OthersKept(d1, q, d2, r, s)
    ensures OthersKept(d0, p, d2, r, s)
  {
    hide Ptr;
  }

  lemma OthersSame(disk: Disk, ip: Inode, s: nat)
    requires |ip.addrs| == NDIRECT + 1
    ensures OthersKept(disk, ip, disk, ip, s)
  {
    hide Ptr;
  }

  lemma AttachOthers(d0: Disk, disk: Disk, ip: Inode, s: nat, b: nat)
    requires |ip.addrs| == NDIRECT + 1 && s <= INDIRECT && b < |disk| && b < UINT && ip.addrs[s] == 0
    requires disk[b] == ZeroBlock() && forall t: nat | t < SLOTS :: Ptr(disk, ip, t) == Ptr(d0, ip, t)
    ensures OthersKept(d0, ip, disk, ip.(addrs := ip.addrs[s := b]), s)
  {
    hide Ptr; hide ZeroBlock;
    forall t: nat | t < SLOTS && t != s && t != INDIRECT
      ensures Ptr(disk, ip.(addrs := ip.addrs[s := b]), t) == Ptr(d0, ip, t)
    {
      AttachPtr(disk, ip, s, b, t);
    }
  }

  lemma EntryOthers(d0: Disk, disk: Disk, sb: Superblock, its: seq<Inode>, owner: map<nat, Slot>, i: nat, j: nat,
                    b: nat)
    requires Owned(disk, sb, its, owner) && i < |its| && j < NINDIRECT && b < UINT
    requires 0 < its[i].addrs[INDIRECT] < |disk|
    requires forall t: nat | t < SLOTS :: Ptr(disk, its[i], t) == Ptr(d0, its[i], t)
    ensures OthersKept(d0, its[i], WithEntry(disk, its[i].addrs[INDIRECT], j, b), its[i], j + INDIRECT + 1)
  {
    hide Ptr; hide WithEntry;
    forall t: nat | t < SLOTS && t != j + INDIRECT + 1 && t != INDIRECT
      ensures Ptr(WithEntry(disk, its[i].addrs[INDIRECT], j, b), its[i], t) == Ptr(d0, its[i], t)
    {
      EntryPtr(disk, sb, its, owner, i, j, b, i, t);
    }
  }

  lemma PointersAre(disk: Disk, ip: Inode, disk': Disk, ip': Inode, n: nat)
    requires n < 140 && OthersKept(disk, ip, disk', ip', SlotOf(n))
    ensures PointersKept(disk, ip.addrs, disk', ip'.addrs, n, n + 1)
  {
    hide Ptr;
    forall k: nat | k < 140
      ensures BlockAt(disk, ip.addrs, k) == Ptr(disk, ip, SlotOf(k))
      ensures BlockAt(disk', ip'.addrs, k) == Ptr(disk', ip', SlotOf(k))
    {
      BlockIs(disk, ip, k);
      BlockIs(disk', ip', k);
    }
  }

  lemma PointersTrans(d0: Disk, p: seq<int>, d1: Disk, q: seq<int>, d2: Disk, r: seq<int>, lo: nat, mid: nat, n: nat)
    requires PointersKept(d0, p, d1, q, lo, mid) && PointersKept(d1, q, d2, r, n, n + 1) && lo <= n
    ensures PointersKept(d0, p, d2, r, lo, if mid > n + 1 then mid else n + 1)
  {
    hide BlockAt;
  }

  lemma PointersThen(d0: Disk, p: seq<int>, d1: Disk, q: seq<int>, d2: Disk, r: seq<int>, lo: nat, hi: nat)
    requires PointersKept(d0, p, d1, q, lo, hi) && PointersKept(d1, q, d2, r, 0, 0)
    ensures PointersKept(d0, p, d2, r, lo, hi)
  {
    hide BlockAt;
  }

  lemma PointersSame(disk: Disk, p: seq<int>, lo: nat, hi: nat)
    requires |p| == 13
    ensures PointersKept(disk, p, disk, p, lo, hi)
  {}

  // Nor does iupdate.
  lemma UpdateKeeps(disk: Disk, sb: Superblock, its: seq<Inode>, owner: map<nat, Slot>, its': seq<Inode>, i: nat)
    requires Owned(disk, sb, its, owner) && i < |its| == |its'| && |its'[i].addrs| == NDIRECT + 1
    ensures sb.Ok() && |its[i].addrs| == 13 && |disk| == sb.size && i < sb.ninodes
    ensures PointersKept(disk, its[i].addrs, Updated(disk, sb, its', i), its[i].addrs, 0, 0)
  {
    OwnedPtr(disk, sb, its, owner, i, INDIRECT);
  }

  // Where a turn of writei's loop ends.
  lemma LastTurn(o: nat, m: nat)
    requires m > 0 && o % 512 + m <= 512
    ensures (o + m + 511) / 512 == o / 512 + 1 && (o + 511) / 512 <= o / 512 + 1
  {}

  // A write to the data of file block n changes no pointer.
  lemma PointersStay(disk: Disk, sb: Superblock, its: seq<Inode>, owner: map<nat, Slot>, i: nat, n: nat, d: Block)
    requires Owned(disk, sb, its, owner) && i < |its| && n < 140
    requires var x := Ptr(disk, its[i], SlotOf(n)); 0 < x < |disk|
    ensures var x := Ptr(disk, its[i], SlotOf(n)); PointersKept(disk, its[i].addrs, disk[x := d], its[i].addrs, 0, 0)
  {
    var x := Ptr(disk, its[i], SlotOf(n));
    OwnedPtr(disk, sb, its, owner, i, SlotOf(n));
    OwnedPtr(disk, sb, its, owner, i, INDIRECT);
  }

  lemma ContentsAre(disk: Disk, sb: Superblock, its: seq<Inode>, owner: map<nat, Slot>, i: nat, off: nat, n: nat)
    requires Owned(disk, sb, its, owner) && AllNoHoles(disk, its) && i < |its| && off + n <= its[i].size
    ensures its[i].size <= 71680 && |its[i].addrs| == 13
    ensures HasBytes(disk, its[i].addrs, off, Contents(disk, its[i])[off..off + n])
  {
    assert NoHoles(disk, its[i]);
    hide Unpack; hide Ptr; hide ByteAt; hide BlockAt; hide SlotOf; hide SlotsOwn; hide OwnersPoint;
    var s := Contents(disk, its[i])[off..off + n];
    forall k: nat | k < |s|
      ensures HasByte(disk, its[i].addrs, off + k, s[k])
    {
      var o := off + k;
      BlockIs(disk, its[i], o / 512);
      OwnedPtr(disk, sb, its, owner, i, SlotOf(o / 512));
      ByteIs(disk[BlockAt(disk, its[i].addrs, o / 512)], o % 512);
      assert Contents(disk, its[i])[o] == FileByte(disk, its[i], o);
    }
  }

  // What a write of src at off leaves in the file.
  lemma WrittenBytes(disk: Disk, sb: Superblock, its: seq<Inode>, owner: map<nat, Slot>, i: nat, c: seq<Byte>,
                     off: nat, src: seq<Byte>)
    requires Owned(disk, sb, its, owner) && AllNoHoles(disk, its) && i < |its| && off <= |c|
    requires its[i].size <= MAXFILE * BSIZE && |its[i].addrs| == 13
    requires Contents(disk, its[i]) == SpliceFile(c, off, src)
    ensures HasBytes(disk, its[i].addrs, off, src) && its[i].size == Max(|c|, off + |src|)
  {
    ContentsAre(disk, sb, its, owner, i, off, |src|);
    assert Contents(disk, its[i])[off..off + |src|] == src;
    hide Contents; hide HasBytes; hide Owned;
  }

  // A block is marked exactly if it is metadata or one of the blocks that an inode points to.
  lemma MarkedIff(disk: Disk, sb: Superblock, its: seq<Inode>, owner: map<nat, Slot>, b: nat)
    requires Owned(disk, sb, its, owner) && FreeMap(disk, sb, owner.Keys) && b < sb.size
    ensures MarkedAt(disk, sb.bmapstart, b) <==>
              b < sb.size - sb.nblocks || exists i | 0 <= i < |its| :: PointsTo(disk, its[i].addrs, b)
  {
    MarkedIs(disk, sb, b);
    MapIsOwnership(disk, sb, its, owner, b);
    forall i: nat | i < |its|
      ensures b > 0 ==> (PointsTo(disk, its[i].addrs, b) <==> exists s: nat :: s < SLOTS && Ptr(disk, its[i], s) == b)
    {
      if b > 0 {
        PointsIs(disk, its[i], b);
      }
    }
    hide MarkedAt; hide BitSet; hide Ptr; hide PointsTo; hide SlotsOwn; hide OwnersPoint;
  }

  // What truncation does to the marks.
  lemma TruncatedMarks(d0: Disk, d1: Disk, sb: Superblock, its: seq<Inode>, owner: map<nat, Slot>, i: nat)
    requires Owned(d0, sb, its, owner) && FreeMap(d0, sb, owner.Keys) && i < |its| && |d1| == sb.size
    requires FreeMap(d1, sb, owner.Keys - OwnedIn(owner, i, 0, SLOTS))
    ensures |its[i].addrs| == 13 && Unmarks(d0, d1, sb.bmapstart, sb.size - sb.nblocks, its[i].addrs)
  {
    forall b: nat | b < sb.size
      ensures MarkedAt(d1, sb.bmapstart, b) <==>
                MarkedAt(d0, sb.bmapstart, b) && (b < sb.size - sb.nblocks || !PointsTo(d0, its[i].addrs, b))
    {
      TruncatedMark(d0, d1, sb, its, owner, i, b);
    }
    hide MarkedAt; hide BitSet; hide PointsTo; hide SlotsOwn; hide OwnersPoint;
  }

  lemma TruncatedMark(d0: Disk, d1: Disk, sb: Superblock, its: seq<Inode>, owner: map<nat, Slot>, i: nat, b: nat)
    requires Owned(d0, sb, its, owner) && FreeMap(d0, sb, owner.Keys) && i < |its| && b < sb.size == |d1|
    requires FreeMap(d1, sb, owner.Keys - OwnedIn(owner, i, 0, SLOTS))
    ensures |its[i].addrs| == 13
    ensures MarkedAt(d1, sb.bmapstart, b) <==>
              MarkedAt(d0, sb.bmapstart, b) && (b < sb.size - sb.nblocks || !PointsTo(d0, its[i].addrs, b))
  {
    MarkedIs(d0, sb, b);
    MarkedIs(d1, sb, b);
    assert BitSet(d0, sb, b) <==> (b < sb.DataStart() || b in owner);
    assert BitSet(d1, sb, b) <==> (b < sb.DataStart() || b in owner.Keys - OwnedIn(owner, i, 0, SLOTS));
    if b >= sb.DataStart() {
      PointsIs(d0, its[i], b);
      if s: nat :| s < SLOTS && Ptr(d0, its[i], s) == b {
        OwnedPtr(d0, sb, its, owner, i, s);
      }
    }
    hide MarkedAt; hide BitSet; hide Ptr; hide PointsTo; hide SlotsOwn;
  }

  lemma PointsIs(disk: Disk, ip: Inode, b: nat)
    requires |ip.addrs| == NDIRECT + 1 && b > 0
    ensures PointsTo(disk, ip.addrs, b) <==> exists s: nat :: s < SLOTS && Ptr(disk, ip, s) == b
  {
    if k :| 0 <= k < 13 && ip.addrs[k] == b {
      assert Ptr(disk, ip, k) == b;
    }
    if 0 < ip.addrs[12] < |disk| {
      if k :| 0 <= k < 128 && disk[ip.addrs[12]][k] == b {
        assert Ptr(disk, ip, k + 13) == b;
      }
    }
    if s: nat :| s < SLOTS && Ptr(disk, ip, s) == b {
      assert s > 12 ==> disk[ip.addrs[12]][s - 13] == b;
    }
  }
}
