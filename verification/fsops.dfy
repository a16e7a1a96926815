/** What the steps of the file system do to its values: allocation, growing a file, writing into it,
    updating an inode on disk, truncation. */
module FsOps {
  import opened Machine
  import opened Blocks
  import opened Bytes
  import opened FsSpec

  // ---------------------------------------------------------------- allocation

  // balloc: mark the block in the map, then zero it.
  function Allocated(disk: Disk, sb: Superblock, b: nat): (r: Disk)
    requires sb.Ok() && |disk| == sb.size && b < sb.size
    ensures |r| == |disk|
  {
    disk[sb.BBlock(b) := SetBit(disk[sb.BBlock(b)], b % BPB)][b := ZeroBlock()]
  }

  // The blocks that hold the free map.
  function MapBlocks(sb: Superblock): set<nat> {
    set b | 0 <= b < sb.size :: sb.BBlock(b)
  }

  // No pointer in use changes, in any inode.
  predicate PtrsKept(disk: Disk, its: seq<Inode>, disk': Disk, its': seq<Inode>)
    requires |its| == |its'|
    requires forall i | 0 <= i < |its| :: |its[i].addrs| == |its'[i].addrs| == NDIRECT + 1
  {
    forall i: nat, s: nat {:trigger Ptr(disk', its'[i], s)} {:trigger Ptr(disk, its[i], s)} |
      i < |its| && s < SLOTS && Ptr(disk, its[i], s) != 0 :: Ptr(disk', its'[i], s) == Ptr(disk, its[i], s)
  }

  predicate SameOnDisk(disk: Disk, disk': Disk, sb: Superblock)
    requires sb.Ok() && |disk| == |disk'| == sb.size
  {
    forall x | sb.inodestart <= x < sb.bmapstart :: disk'[x] == disk[x]
  }

  // Only pointers of inode inum changed in memory.
  predicate OnlyAddrs(its: seq<Inode>, its': seq<Inode>, inum: nat) {
    && |its'| == |its| && inum < |its|
    && its'[inum] == its[inum].(addrs := its'[inum].addrs)
    && forall i | 0 <= i < |its| && i != inum :: its'[i] == its[i]
  }

  // Inode inum may have got new blocks; nothing else changed, and no file reads differently.
  predicate Grown(disk: Disk, its: seq<Inode>, owner: map<nat, Slot>, disk': Disk, its': seq<Inode>,
                  owner': map<nat, Slot>, sb: Superblock, inum: nat) {
    && Owned(disk, sb, its, owner) && Owned(disk', sb, its', owner')
    && OnlyAddrs(its, its', inum)
    && PtrsKept(disk, its, disk', its') && SameFiles(disk, its, disk', its') && SameOnDisk(disk, disk', sb)
  }

  lemma AllocatedParts(disk: Disk, sb: Superblock, b: nat)
    requires sb.Ok() && |disk| == sb.size && sb.DataStart() <= b < sb.size
    ensures SameOnDisk(disk, Allocated(disk, sb, b), sb) && 3 <= sb.bmapstart <= sb.BBlock(b) < sb.DataStart()
    ensures Allocated(disk, sb, b)[b] == ZeroBlock()
  {
    hide SetBit;
  }

  lemma AllocKeepsMap(disk: Disk, sb: Superblock, used: set<nat>, b: nat)
    requires sb.Ok() && |disk| == sb.size && FreeMap(disk, sb, used) && sb.DataStart() <= b < sb.size
    ensures FreeMap(Allocated(disk, sb, b), sb, used + {b})
  {
    hide FreeMap; hide SetBit;
    SetBitKeeps(disk, sb, used, b);
    OtherWriteKeepsMap(disk[sb.BBlock(b) := SetBit(disk[sb.BBlock(b)], b % BPB)], sb, used + {b}, b, ZeroBlock());
  }

  lemma AllocKeepsOwned(disk: Disk, sb: Superblock, its: seq<Inode>, owner: map<nat, Slot>, b: nat)
    requires Owned(disk, sb, its, owner) && sb.DataStart() <= b < sb.size && b !in owner
    ensures Owned(Allocated(disk, sb, b), sb, its, owner) && Fresh(Allocated(disk, sb, b), sb, owner, b)
  {
    AllocatedParts(disk, sb, b);
    hide Ptr; hide SetBit; hide SlotsOwn; hide OwnersPoint;
    var x := sb.BBlock(b);
    var d := SetBit(disk[x], b % BPB);
    MetaWriteKeepsOwned(disk, sb, its, owner, x, d);
    DataWriteKeepsOwned(disk[x := d], sb, its, owner, b, ZeroBlock());
  }

  lemma AllocKeepsPtr(disk: Disk, sb: Superblock, its: seq<Inode>, owner: map<nat, Slot>, b: nat, i: nat, s: nat)
    requires Owned(disk, sb, its, owner) && sb.DataStart() <= b < sb.size && b !in owner && i < |its| && s < SLOTS
    ensures Ptr(Allocated(disk, sb, b), its[i], s) == Ptr(disk, its[i], s)
  {
    AllocatedParts(disk, sb, b);
    hide Ptr; hide SetBit; hide Owned;
    var x := sb.BBlock(b);
    var d := SetBit(disk[x], b % BPB);
    MetaWriteKeepsOwned(disk, sb, its, owner, x, d);
    MetaWritePtr(disk, sb, its, owner, x, d, i, s);
    DataWritePtr(disk[x := d], sb, its, owner, b, ZeroBlock(), i, s);
  }

  lemma AllocKeepsFiles(disk: Disk, sb: Superblock, its: seq<Inode>, owner: map<nat, Slot>, b: nat)
    requires Owned(disk, sb, its, owner) && sb.DataStart() <= b < sb.size && b !in owner
    ensures SameFiles(disk, its, Allocated(disk, sb, b), its)
  {
    AllocatedParts(disk, sb, b);
    hide Ptr; hide SetBit; hide SlotsOwn; hide OwnersPoint; hide FileByte;
    var x := sb.BBlock(b);
    var d := SetBit(disk[x], b % BPB);
    MetaWriteKeepsOwned(disk, sb, its, owner, x, d);
    MetaWriteKeepsFiles(disk, sb, its, owner, x, d);
    forall i: nat, o: nat | i < |its| && o < MAXFILE * BSIZE
      ensures FileByte(Allocated(disk, sb, b), its[i], o) == FileByte(disk, its[i], o)
    {
      DataWriteFile(disk[x := d], sb, its, owner, b, ZeroBlock(), i, o);
    }
  }

  // ---------------------------------------------------------------- growing

  lemma GrownSame(disk: Disk, sb: Superblock, its: seq<Inode>, owner: map<nat, Slot>, inum: nat)
    requires Owned(disk, sb, its, owner) && inum < |its|
    ensures Grown(disk, its, owner, disk, its, owner, sb, inum)
  {
    hide Ptr; hide FileByte;
  }

  lemma GrownTrans(d0: Disk, its0: seq<Inode>, own0: map<nat, Slot>, d1: Disk, its1: seq<Inode>, own1: map<nat, Slot>,
                   d2: Disk, its2: seq<Inode>, own2: map<nat, Slot>, sb: Superblock, inum: nat)
    requires Grown(d0, its0, own0, d1, its1, own1, sb, inum) && Grown(d1, its1, own1, d2, its2, own2, sb, inum)
    ensures Grown(d0, its0, own0, d2, its2, own2, sb, inum)
  {
    hide Ptr; hide FileByte; hide SlotsOwn; hide OwnersPoint;
    assert PtrsKept(d0, its0, d2, its2) by { hide SameFiles; }
    assert SameFiles(d0, its0, d2, its2) by { hide PtrsKept; }
  }

  lemma AllocGrows(disk: Disk, sb: Superblock, its: seq<Inode>, owner: map<nat, Slot>, b: nat, inum: nat)
    requires Owned(disk, sb, its, owner) && sb.DataStart() <= b < sb.size && b !in owner && inum < |its|
    ensures Grown(disk, its, owner, Allocated(disk, sb, b), its, owner, sb, inum)
    ensures Fresh(Allocated(disk, sb, b), sb, owner, b)
  {
    AllocatedParts(disk, sb, b);
    AllocKeepsOwned(disk, sb, its, owner, b);
    AllocKeepsFiles(disk, sb, its, owner, b);
    hide Ptr; hide FileByte; hide SlotsOwn; hide OwnersPoint; hide SameFiles; hide Allocated; hide SameOnDisk;
    hide Fresh;
    forall i: nat, s: nat | i < |its| && s < SLOTS
      ensures Ptr(Allocated(disk, sb, b), its[i], s) == Ptr(disk, its[i], s)
    {
      AllocKeepsPtr(disk, sb, its, owner, b, i, s);
    }
  }

  lemma AttachGrows(disk: Disk, sb: Superblock, its: seq<Inode>, owner: map<nat, Slot>, inum: nat, s: nat, b: nat)
    requires Owned(disk, sb, its, owner) && inum < |its| && s <= INDIRECT && its[inum].addrs[s] == 0
    requires Fresh(disk, sb, owner, b)
    ensures Grown(disk, its, owner, disk, WithAddr(its, inum, s, b), owner[b := Slot(inum, s)], sb, inum)
  {
    AttachKeepsOwned(disk, sb, its, owner, inum, s, b);
    AttachKeepsFiles(disk, sb, its, owner, inum, s, b);
    var its' := WithAddr(its, inum, s, b);
    assert Ptr(disk, its[inum], s) == 0;
    hide Ptr; hide SlotsOwn; hide OwnersPoint; hide SameFiles; hide FileByte;
    forall i: nat, t: nat | i < |its| && t < SLOTS && Ptr(disk, its[i], t) != 0
      ensures Ptr(disk, its'[i], t) == Ptr(disk, its[i], t)
    {
      if i == inum {
        AttachPtr(disk, its[inum], s, b, t);
      }
    }
    assert PtrsKept(disk, its, disk, its');
  }

  lemma EntryGrows(disk: Disk, sb: Superblock, its: seq<Inode>, owner: map<nat, Slot>, inum: nat, j: nat, b: nat)
    requires Owned(disk, sb, its, owner) && inum < |its| && j < NINDIRECT && Fresh(disk, sb, owner, b)
    requires 0 < its[inum].addrs[INDIRECT] < |disk| && Ptr(disk, its[inum], j + INDIRECT + 1) == 0
    ensures Grown(disk, its, owner, WithEntry(disk, its[inum].addrs[INDIRECT], j, b), its,
                  owner[b := Slot(inum, j + INDIRECT + 1)], sb, inum)
  {
    var a := its[inum].addrs[INDIRECT];
    OwnedPtr(disk, sb, its, owner, inum, INDIRECT);
    EntryKeepsOwned(disk, sb, its, owner, inum, j, b);
    EntryKeepsFiles(disk, sb, its, owner, inum, j, b);
    var disk' := WithEntry(disk, a, j, b);
    assert a == Ptr(disk, its[inum], INDIRECT);
    assert SameOnDisk(disk, disk', sb);
    hide Ptr; hide SlotsOwn; hide OwnersPoint; hide SameFiles; hide FileByte; hide WithEntry; hide SameOnDisk;
    forall i: nat, t: nat | i < |its| && t < SLOTS && Ptr(disk, its[i], t) != 0
      ensures Ptr(disk', its[i], t) == Ptr(disk, its[i], t)
    {
      EntryPtr(disk, sb, its, owner, inum, j, b, i, t);
    }
    assert PtrsKept(disk, its, disk', its);
  }

  // ---------------------------------------------------------------- holes

  predicate AllNoHoles(disk: Disk, its: seq<Inode>)
    requires forall i | 0 <= i < |its| :: |its[i].addrs| == NDIRECT + 1
  {
    forall i | 0 <= i < |its| :: NoHoles(disk, its[i])
  }

  // ---------------------------------------------------------------- updating an inode on disk

  function Updated(disk: Disk, sb: Superblock, its: seq<Inode>, inum: nat): (r: Disk)
    requires sb.Ok() && |disk| == sb.size && inum < |its| == sb.ninodes && |its[inum].addrs| == NDIRECT + 1
    ensures |r| == |disk|
  {
    disk[sb.IBlock(inum) := PutInode(disk[sb.IBlock(inum)], inum % IPB, its[inum])]
  }

  lemma UpdatedOnDisk(disk: Disk, sb: Superblock, its: seq<Inode>, inum: nat, i: nat)
    requires sb.Ok() && |disk| == sb.size && inum < |its| == sb.ninodes && |its[inum].addrs| == NDIRECT + 1
    requires i < sb.ninodes
    ensures OnDisk(Updated(disk, sb, its, inum), sb, i) == if i == inum then its[inum] else OnDisk(disk, sb, i)
  {
    hide DInode; hide PutInode;
    InodeRoundTrip(disk[sb.IBlock(inum)], inum % IPB, its[inum], i % IPB);
  }

  lemma UpdatedKeeps(disk: Disk, sb: Superblock, its: seq<Inode>, owner: map<nat, Slot>, used: set<nat>, inum: nat)
    requires Owned(disk, sb, its, owner) && FreeMap(disk, sb, used) && inum < |its|
    ensures Owned(Updated(disk, sb, its, inum), sb, its, owner) && FreeMap(Updated(disk, sb, its, inum), sb, used)
    ensures SameFiles(disk, its, Updated(disk, sb, its, inum), its)
    ensures PtrsKept(disk, its, Updated(disk, sb, its, inum), its)
  {
    var x := sb.IBlock(inum);
    var d := PutInode(disk[x], inum % IPB, its[inum]);
    assert 1 < x < sb.bmapstart <= sb.DataStart();
    hide Ptr; hide PutInode; hide SlotsOwn; hide OwnersPoint; hide FreeMap; hide FileByte;
    MetaWriteKeepsOwned(disk, sb, its, owner, x, d);
    MetaWriteKeepsFiles(disk, sb, its, owner, x, d);
    OtherWriteKeepsMap(disk, sb, used, x, d);
    forall i: nat, s: nat | i < |its| && s < SLOTS
      ensures Ptr(Updated(disk, sb, its, inum), its[i], s) == Ptr(disk, its[i], s)
    {
      MetaWritePtr(disk, sb, its, owner, x, d, i, s);
    }
  }

  // ip->size = size
  function Resized(its: seq<Inode>, inum: nat, size: Uint): (r: seq<Inode>)
    requires inum < |its|
    ensures |r| == |its| && forall k | 0 <= k < |its| && k != inum :: r[k] == its[k]
    ensures r[inum].addrs == its[inum].addrs && r[inum].size == size
  {
    its[inum := its[inum].(size := size)]
  }

  lemma ResizedKeeps(disk: Disk, sb: Superblock, its: seq<Inode>, owner: map<nat, Slot>, inum: nat, size: Uint)
    requires Owned(disk, sb, its, owner) && inum < |its|
    ensures Owned(disk, sb, Resized(its, inum, size), owner)
    ensures SameFiles(disk, its, disk, Resized(its, inum, size)) && PtrsKept(disk, its, disk, Resized(its, inum, size))
  {
    var its' := Resized(its, inum, size);
    forall i: nat, s: nat | i < |its| && s < SLOTS
      ensures Ptr(disk, its'[i], s) == Ptr(disk, its[i], s)
    {}
    hide Ptr;
    hide SlotOf; hide Unpack;
    assert SlotsOwn(disk, its', owner) && OwnersPoint(disk, sb, its', owner);
  }

  // ---------------------------------------------------------------- writing into a file

  // Every file reads as before but file inum, whose bytes from off on are now src.
  predicate FilesWritten(disk: Disk, its: seq<Inode>, disk': Disk, its': seq<Inode>, inum: nat, off: nat,
                         src: seq<Byte>)
    requires |its| == |its'|
    requires forall i | 0 <= i < |its| :: |its[i].addrs| == |its'[i].addrs| == NDIRECT + 1
  {
    forall i: nat, o: nat {:trigger FileByte(disk', its'[i], o)} | i < |its| && o < MAXFILE * BSIZE ::
      FileByte(disk', its'[i], o) ==
      if i == inum && off <= o < off + |src| then src[o - off] else FileByte(disk, its[i], o)
  }

  // src has been written at off, and blocks for it added.
  predicate Writing(disk: Disk, its: seq<Inode>, disk': Disk, its': seq<Inode>, owner': map<nat, Slot>,
                    sb: Superblock, inum: nat, off: nat, src: seq<Byte>) {
    && Shape(disk, sb, its) && Owned(disk', sb, its', owner') && OnlyAddrs(its, its', inum)
    && PtrsKept(disk, its, disk', its') && SameOnDisk(disk, disk', sb)
    && FilesWritten(disk, its, disk', its', inum, off, src)
  }

  lemma WritingNothing(disk: Disk, its: seq<Inode>, owner: map<nat, Slot>, sb: Superblock, inum: nat, off: nat)
    requires Owned(disk, sb, its, owner) && inum < |its|
    ensures Writing(disk, its, disk, its, owner, sb, inum, off, [])
  {
    hide Ptr; hide FileByte; hide SlotsOwn; hide OwnersPoint;
  }

  lemma WritingGrown(d0: Disk, its0: seq<Inode>, d1: Disk, its1: seq<Inode>, own1: map<nat, Slot>,
                     d2: Disk, its2: seq<Inode>, own2: map<nat, Slot>,
                     sb: Superblock, inum: nat, off: nat, src: seq<Byte>)
    requires Writing(d0, its0, d1, its1, own1, sb, inum, off, src) && Grown(d1, its1, own1, d2, its2, own2, sb, inum)
    ensures Writing(d0, its0, d2, its2, own2, sb, inum, off, src)
  {
    hide Ptr; hide FileByte; hide SlotsOwn; hide OwnersPoint;
    assert PtrsKept(d0, its0, d2, its2) by { hide SameFiles; hide FilesWritten; }
    assert FilesWritten(d0, its0, d2, its2, inum, off, src) by { hide PtrsKept; hide SameOnDisk; }
  }

  // One turn of writei's loop: more goes to offset o = off + |src|, within the block at x.
  lemma WritingBlock(d0: Disk, its0: seq<Inode>, d1: Disk, its: seq<Inode>, owner: map<nat, Slot>, sb: Superblock,
                     inum: nat, off: nat, src: seq<Byte>, x: nat, more: seq<Byte>)
    requires Writing(d0, its0, d1, its, owner, sb, inum, off, src)
    requires var o := off + |src|;
      && o % BSIZE + |more| <= BSIZE && o < MAXFILE * BSIZE
      && x == Ptr(d1, its[inum], SlotOf(o / BSIZE)) && x != 0
    ensures x < |d1| && sb.DataStart() <= x
    ensures var d2 := d1[x := Splice(d1[x], (off + |src|) % BSIZE, more)];
      && Writing(d0, its0, d2, its, owner, sb, inum, off, src + more)
      && forall i: nat, s: nat | i < |its| && s < SLOTS :: Ptr(d2, its[i], s) == Ptr(d1, its[i], s)
  {
    hide Ptr; hide Unpack; hide SlotsOwn; hide OwnersPoint; hide Splice; hide FilesWritten;
    var o := off + |src|;
    var s := SlotOf(o / BSIZE);
    OwnedPtr(d1, sb, its, owner, inum, s);
    var d := Splice(d1[x], o % BSIZE, more);
    var d2 := d1[x := d];
    assert Plain(sb, owner, x);
    DataWriteKeepsOwned(d1, sb, its, owner, x, d);
    forall i: nat, t: nat | i < |its| && t < SLOTS
      ensures Ptr(d2, its[i], t) == Ptr(d1, its[i], t)
    {
      DataWritePtr(d1, sb, its, owner, x, d, i, t);
    }
    assert PtrsKept(d0, its0, d2, its);
    WrittenBlock(d0, its0, d1, its, owner, sb, inum, off, src, x, more);
  }

  lemma WrittenBlock(d0: Disk, its0: seq<Inode>, d1: Disk, its: seq<Inode>, owner: map<nat, Slot>, sb: Superblock,
                     inum: nat, off: nat, src: seq<Byte>, x: nat, more: seq<Byte>)
    requires Writing(d0, its0, d1, its, owner, sb, inum, off, src)
    requires var o := off + |src|;
      && o % BSIZE + |more| <= BSIZE && o < MAXFILE * BSIZE
      && x in owner && owner[x] == Slot(inum, SlotOf(o / BSIZE)) && sb.DataStart() <= x < |d1|
    ensures FilesWritten(d0, its0, d1[x := Splice(d1[x], (off + |src|) % BSIZE, more)], its, inum, off, src + more)
  {
    hide Ptr; hide Unpack; hide SlotsOwn; hide OwnersPoint; hide Splice; hide PtrsKept; hide FileByte;
    var o := off + |src|;
    var d := Splice(d1[x], o % BSIZE, more);
    var d2 := d1[x := d];
    SpliceBytes(d1[x], o % BSIZE, more);
    forall i: nat, q: nat | i < |its| && q < MAXFILE * BSIZE
      ensures FileByte(d2, its[i], q) ==
              if i == inum && off <= q < off + |src + more| then (src + more)[q - off] else FileByte(d0, its0[i], q)
    {
      DataWriteFile(d1, sb, its, owner, x, d, i, q);
      if owner[x] == Slot(i, SlotOf(q / BSIZE)) {
        SlotOfInjective(o / BSIZE, q / BSIZE);
        OldByte(d1, sb, its, owner, x, i, q);
      }
    }
  }

  lemma SlotOfInjective(m: nat, n: nat)
    requires m < MAXFILE && n < MAXFILE && SlotOf(m) == SlotOf(n)
    ensures m == n
  {}

  lemma OldByte(disk: Disk, sb: Superblock, its: seq<Inode>, owner: map<nat, Slot>, x: nat, i: nat, q: nat)
    requires Owned(disk, sb, its, owner) && x in owner && i < |its| && q < MAXFILE * BSIZE
        && owner[x] == Slot(i, SlotOf(q / BSIZE))
    ensures x < |disk| && FileByte(disk, its[i], q) == Unpack(disk[x])[q % BSIZE]
  {
    hide Ptr; hide Unpack; hide SlotOf;
    assert Ptr(disk, its[owner[x].inum], owner[x].s) == x;
  }

  // One turn of writei's loop, growing the file first.
  lemma WritingTurn(d0: Disk, its0: seq<Inode>, d1: Disk, its1: seq<Inode>, own1: map<nat, Slot>,
                    mid: Disk, its2: seq<Inode>, own2: map<nat, Slot>, sb: Superblock,
                    inum: nat, off: nat, src: seq<Byte>, x: nat, more: seq<Byte>)
    requires Writing(d0, its0, d1, its1, own1, sb, inum, off, src) && Grown(d1, its1, own1, mid, its2, own2, sb, inum)
    requires var o := off + |src|;
      && more != [] && o % BSIZE + |more| <= BSIZE && o < MAXFILE * BSIZE
      && x == Ptr(mid, its2[inum], SlotOf(o / BSIZE)) && x != 0
    ensures x < |mid| && sb.DataStart() <= x
    ensures Writing(d0, its0, mid[x := Splice(mid[x], (off + |src|) % BSIZE, more)], its2, own2,
                    sb, inum, off, src + more)
    ensures PtrsKept(d1, its1, mid[x := Splice(mid[x], (off + |src|) % BSIZE, more)], its2)
    ensures Ptr(mid[x := Splice(mid[x], (off + |src|) % BSIZE, more)], its2[inum], SlotOf((off + |src|) / BSIZE)) == x
  {
    hide Ptr; hide SlotsOwn; hide OwnersPoint; hide Splice; hide FilesWritten; hide SlotOf; hide SameFiles;
    WritingGrown(d0, its0, d1, its1, own1, mid, its2, own2, sb, inum, off, src);
    WritingBlock(d0, its0, mid, its2, own2, sb, inum, off, src, x, more);
  }

  lemma MappedTurn(d1: Disk, its1: seq<Inode>, d2: Disk, its2: seq<Inode>, inum: nat, size: nat, o: nat, m: nat)
    requires |its1| == |its2| && inum < |its1|
    requires forall i | 0 <= i < |its1| :: |its1[i].addrs| == |its2[i].addrs| == NDIRECT + 1
    requires PtrsKept(d1, its1, d2, its2) && o % BSIZE + m <= BSIZE && m > 0 && o < MAXFILE * BSIZE
    requires Mapped(d1, its1[inum], if o > size then o else size) && Ptr(d2, its2[inum], SlotOf(o / BSIZE)) != 0
    ensures Mapped(d2, its2[inum], if o + m > size then o + m else size)
    ensures Ptr(d1, its1[inum], SlotOf(o / BSIZE)) != 0 || o + m > size
  {
    hide Ptr; hide SlotOf;
    forall bn: nat | bn < MAXFILE && bn * BSIZE < (if o + m > size then o + m else size)
      ensures Ptr(d2, its2[inum], SlotOf(bn)) != 0
    {
      if bn != o / BSIZE {
        assert Ptr(d1, its1[inum], SlotOf(bn)) != 0;
      }
    }
  }

  // c with src at off; off is at most the length of c.
  function SpliceFile(c: seq<Byte>, off: nat, src: seq<Byte>): (s: seq<Byte>)
    requires off <= |c|
    ensures |s| == Max(|c|, off + |src|)
    ensures forall k | 0 <= k < |s| :: s[k] == if off <= k < off + |src| then src[k - off] else c[k]
  {
    c[..off] + src + (if off + |src| < |c| then c[off + |src|..] else [])
  }

  // What writei does to the file.
  lemma WrittenContents(d0: Disk, its0: seq<Inode>, d1: Disk, its: seq<Inode>, inum: nat, off: nat, src: seq<Byte>)
    requires |its| == |its0| && inum < |its|
    requires forall i | 0 <= i < |its| :: |its0[i].addrs| == |its[i].addrs| == NDIRECT + 1
    requires FilesWritten(d0, its0, d1, its, inum, off, src)
    requires off <= its0[inum].size <= MAXFILE * BSIZE && off + |src| <= MAXFILE * BSIZE
    requires its[inum].size == if off + |src| > its0[inum].size then off + |src| else its0[inum].size
    ensures Contents(d1, its[inum]) == SpliceFile(Contents(d0, its0[inum]), off, src)
  {
    hide FileByte;
    var c := Contents(d1, its[inum]);
    var s := SpliceFile(Contents(d0, its0[inum]), off, src);
    assert |c| == |s|;
    forall o | 0 <= o < |c|
      ensures c[o] == s[o]
    {
      assert c[o] == FileByte(d1, its[inum], o);
    }
  }

  // ---------------------------------------------------------------- counting the blocks of a write

  function FileBlocks(disk: Disk, ip: Inode, lo: nat, hi: nat): set<nat>
    requires |ip.addrs| == NDIRECT + 1
  {
    set bn: nat | lo <= bn < hi && bn < MAXFILE :: Ptr(disk, ip, SlotOf(bn))
  }

  function IndirectSet(ip: Inode): set<nat>
    requires |ip.addrs| == NDIRECT + 1
  {
    if ip.addrs[INDIRECT] == 0 then {} else {ip.addrs[INDIRECT]}
  }

  lemma FileBlocksKept(d0: Disk, its0: seq<Inode>, d1: Disk, its: seq<Inode>, inum: nat, lo: nat, hi: nat)
    requires |its| == |its0| && inum < |its|
    requires forall i | 0 <= i < |its| :: |its0[i].addrs| == |its[i].addrs| == NDIRECT + 1
    requires PtrsKept(d0, its0, d1, its)
    requires forall bn: nat | lo <= bn < hi && bn < MAXFILE :: Ptr(d0, its0[inum], SlotOf(bn)) != 0
    ensures FileBlocks(d1, its[inum], lo, hi) == FileBlocks(d0, its0[inum], lo, hi)
    ensures IndirectSet(its0[inum]) <= IndirectSet(its[inum])
  {
    assert Ptr(d0, its0[inum], INDIRECT) == its0[inum].addrs[INDIRECT];
    assert Ptr(d1, its[inum], INDIRECT) == its[inum].addrs[INDIRECT];
    hide Ptr; hide SlotOf;
    forall bn: nat | lo <= bn < hi && bn < MAXFILE
      ensures Ptr(d1, its[inum], SlotOf(bn)) == Ptr(d0, its0[inum], SlotOf(bn))
    {}
  }

  lemma FileBlocksNext(disk: Disk, ip: Inode, lo: nat, hi: nat)
    requires |ip.addrs| == NDIRECT + 1 && lo <= hi
    ensures FileBlocks(disk, ip, lo, lo) == {}
    ensures FileBlocks(disk, ip, lo, hi + 1) ==
            FileBlocks(disk, ip, lo, hi) + (if hi < MAXFILE then {Ptr(disk, ip, SlotOf(hi))} else {})
  {
    hide Ptr; hide SlotOf;
  }

  lemma {:induction false} FileBlocksCount(disk: Disk, ip: Inode, lo: nat, hi: nat)
    requires |ip.addrs| == NDIRECT + 1 && lo <= hi
    ensures |FileBlocks(disk, ip, lo, hi)| <= hi - lo
    decreases hi - lo
  {
    hide Ptr; hide SlotOf; hide FileBlocks;
    FileBlocksNext(disk, ip, lo, lo);
    if lo < hi {
      FileBlocksCount(disk, ip, lo, hi - 1);
      FileBlocksNext(disk, ip, lo, hi - 1);
    }
  }

  function Ceil(o: nat): nat { (o + BSIZE - 1) / BSIZE }

  // The blocks of the file written so far, and one more turn.
  lemma LoggedTurn(d1: Disk, its1: seq<Inode>, d2: Disk, its2: seq<Inode>, inum: nat, off: nat, o: nat, m: nat, x: nat,
                   size: nat)
    requires |its1| == |its2| && inum < |its1| && off <= o
    requires forall i | 0 <= i < |its1| :: |its1[i].addrs| == |its2[i].addrs| == NDIRECT + 1
    requires PtrsKept(d1, its1, d2, its2) && Mapped(d1, its1[inum], if o > size then o else size)
    requires m > 0 && o % BSIZE + m <= BSIZE && o < MAXFILE * BSIZE && x == Ptr(d2, its2[inum], SlotOf(o / BSIZE))
    ensures FileBlocks(d1, its1[inum], off / BSIZE, Ceil(o)) + {x} <=
            FileBlocks(d2, its2[inum], off / BSIZE, Ceil(o + m))
    ensures IndirectSet(its1[inum]) <= IndirectSet(its2[inum])
  {
    hide Ptr; hide SlotOf;
    FileBlocksKept(d1, its1, d2, its2, inum, off / BSIZE, Ceil(o));
    hide FileBlocks;
    FileBlocksSub(d2, its2[inum], off / BSIZE, Ceil(o), Ceil(o + m));
    FileBlocksIn(d2, its2[inum], off / BSIZE, Ceil(o + m), o / BSIZE);
  }

  lemma FileBlocksSub(disk: Disk, ip: Inode, lo: nat, hi: nat, hi': nat)
    requires |ip.addrs| == NDIRECT + 1 && hi <= hi'
    ensures FileBlocks(disk, ip, lo, hi) <= FileBlocks(disk, ip, lo, hi')
  {
    hide Ptr; hide SlotOf;
  }

  lemma FileBlocksIn(disk: Disk, ip: Inode, lo: nat, hi: nat, bn: nat)
    requires |ip.addrs| == NDIRECT + 1 && lo <= bn < hi && bn < MAXFILE
    ensures Ptr(disk, ip, SlotOf(bn)) in FileBlocks(disk, ip, lo, hi)
  {
    hide Ptr; hide SlotOf;
  }

  // All that a write of n > 0 bytes at off may log.
  function WriteSet(disk: Disk, sb: Superblock, ip: Inode, inum: nat, off: nat, n: nat): set<nat>
    requires |ip.addrs| == NDIRECT + 1
  {
    MapBlocks(sb) + IndirectSet(ip) + FileBlocks(disk, ip, off / BSIZE, Ceil(off + n)) + {sb.IBlock(inum)}
  }

  // A write of at most 1536 bytes, at any alignment, logs at most 7 blocks if the map is one block.
  lemma WriteSetCount(disk: Disk, sb: Superblock, ip: Inode, inum: nat, off: nat, n: nat)
    requires |ip.addrs| == NDIRECT + 1 && n <= 1536 && sb.size <= BPB
    ensures |WriteSet(disk, sb, ip, inum, off, n)| <= 7 <= MAXOPBLOCKS
  {
    FileBlocksCount(disk, ip, off / BSIZE, Ceil(off + n));
    assert MapBlocks(sb) <= {sb.bmapstart};
    assert |MapBlocks(sb)| <= 1 by { if MapBlocks(sb) != {} { assert MapBlocks(sb) == {sb.bmapstart}; } }
  }

  // ---------------------------------------------------------------- truncation

  // The blocks of slots lo <= s < hi of inode i.
  function OwnedIn(owner: map<nat, Slot>, i: nat, lo: nat, hi: nat): set<nat> {
    set b | b in owner && owner[b].inum == i && lo <= owner[b].s < hi
  }

  lemma OwnedInNext(disk: Disk, sb: Superblock, its: seq<Inode>, owner: map<nat, Slot>, i: nat, lo: nat, s: nat)
    requires Owned(disk, sb, its, owner) && i < |its| && lo <= s < SLOTS
    ensures var p := Ptr(disk, its[i], s);
      OwnedIn(owner, i, lo, s + 1) == OwnedIn(owner, i, lo, s) + (if p == 0 then {} else {p})
    ensures Ptr(disk, its[i], s) !in OwnedIn(owner, i, 0, s)
  {
    OwnedPtr(disk, sb, its, owner, i, s);
    hide Ptr;
    forall b | b in owner && owner[b] == Slot(i, s)
      ensures b == Ptr(disk, its[i], s)
    {
      assert Ptr(disk, its[owner[b].inum], owner[b].s) == b;
    }
  }

  lemma OwnedInAll(disk: Disk, sb: Superblock, its: seq<Inode>, owner: map<nat, Slot>, i: nat)
    requires Owned(disk, sb, its, owner) && i < |its|
    ensures Others(owner, i).Keys == owner.Keys - OwnedIn(owner, i, 0, SLOTS)
    ensures OwnedIn(owner, i, 0, SLOTS) ==
            OwnedIn(owner, i, 0, INDIRECT) + OwnedIn(owner, i, INDIRECT, INDIRECT + 1)
              + OwnedIn(owner, i, INDIRECT + 1, SLOTS)
    ensures its[i].addrs[INDIRECT] == 0 ==>
              OwnedIn(owner, i, INDIRECT, INDIRECT + 1) == {} && OwnedIn(owner, i, INDIRECT + 1, SLOTS) == {}
  {
    if its[i].addrs[INDIRECT] == 0 {
      forall b | b in owner && owner[b].inum == i
        ensures owner[b].s < INDIRECT
      {
        assert Ptr(disk, its[owner[b].inum], owner[b].s) == b;
      }
    }
  }

  // Only blocks of the free map changed.
  predicate MapOnly(disk: Disk, disk': Disk, sb: Superblock) {
    |disk'| == |disk| && forall x | 0 <= x < |disk| && !(sb.bmapstart <= x < sb.DataStart()) :: disk'[x] == disk[x]
  }

  lemma MapOnlyPtr(disk: Disk, disk': Disk, sb: Superblock, its: seq<Inode>, owner: map<nat, Slot>, i: nat, s: nat)
    requires Owned(disk, sb, its, owner) && MapOnly(disk, disk', sb) && i < |its| && s < SLOTS
    ensures Ptr(disk', its[i], s) == Ptr(disk, its[i], s)
  {
    OwnedPtr(disk, sb, its, owner, i, INDIRECT);
  }

  lemma MapOnlyKeeps(disk: Disk, disk': Disk, sb: Superblock, its: seq<Inode>, owner: map<nat, Slot>)
    requires Owned(disk, sb, its, owner) && MapOnly(disk, disk', sb)
    ensures Owned(disk', sb, its, owner) && SameFiles(disk, its, disk', its) && SameOnDisk(disk, disk', sb)
    ensures PtrsKept(disk, its, disk', its)
  {
    hide Ptr; hide SlotOf; hide Unpack;
    forall i: nat, s: nat | i < |its| && s < SLOTS
      ensures Ptr(disk', its[i], s) == Ptr(disk, its[i], s)
    {
      MapOnlyPtr(disk, disk', sb, its, owner, i, s);
    }
    forall i: nat, o: nat | i < |its| && o < MAXFILE * BSIZE
      ensures FileByte(disk', its[i], o) == FileByte(disk, its[i], o)
    {
      OwnedPtr(disk, sb, its, owner, i, SlotOf(o / BSIZE));
    }
    assert SlotsOwn(disk', its, owner) && OwnersPoint(disk', sb, its, owner);
  }
}
