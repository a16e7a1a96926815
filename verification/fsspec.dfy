/** The file system on disk as values: inodes, the blocks their slots point to, who owns each block,
    the free map, and what a file contains. */
module FsSpec {
  import opened Machine
  import opened Blocks
  import opened Bytes

  const NDIRECT: nat := 12
  const NINDIRECT: nat := 128
  const MAXFILE: nat := 140  // blocks
  const IPB: nat := 8        // inodes per block

  // ---------------------------------------------------------------- layout

  datatype Superblock =
    Superblock(size: nat, nblocks: nat, ninodes: nat, nlog: nat, logstart: nat, inodestart: nat, bmapstart: nat)
  {
    function DataStart(): int { size - nblocks }
    function BBlock(b: nat): nat { b / BPB + bmapstart }
    function IBlock(i: nat): nat { i / IPB + inodestart }

    // In order: boot block, superblock, log, inodes, free map, data.
    predicate Ok() {
      && 2 <= logstart && logstart + nlog <= inodestart
      && inodestart + ninodes / IPB + 1 <= bmapstart
      && bmapstart + size / BPB + 1 <= DataStart() <= size < UINT
    }
  }

  function ReadSb(b: Block): Superblock {
    Superblock(b[0], b[1], b[2], b[3], b[4], b[5], b[6])
  }

  datatype Inode = Inode(typ: Short, major: Short, minor: Short, nlink: Short, size: Uint, addrs: seq<Uint>)

  // struct dinode is 16 uints, the first two of them four shorts.
  function InodeWords(ip: Inode): (w: seq<Uint>)
    requires |ip.addrs| == NDIRECT + 1
    ensures |w| == 16
  {
    [ip.typ + 0x1_0000 * ip.major, ip.minor + 0x1_0000 * ip.nlink, ip.size] + ip.addrs
  }

  function DInode(b: Block, k: nat): (ip: Inode)
    requires k < IPB
    ensures |ip.addrs| == NDIRECT + 1
  {
    var w := b[16 * k..16 * k + 16];
    Inode(w[0] % 0x1_0000, w[0] / 0x1_0000, w[1] % 0x1_0000, w[1] / 0x1_0000, w[2], w[3..])
  }

  function PutInode(b: Block, k: nat, ip: Inode): (r: Block)
    requires k < IPB && |ip.addrs| == NDIRECT + 1
  {
    b[..16 * k] + InodeWords(ip) + b[16 * k + 16..]
  }

  lemma InodeRoundTrip(b: Block, k: nat, ip: Inode, j: nat)
    requires k < IPB && j < IPB && |ip.addrs| == NDIRECT + 1
    ensures DInode(PutInode(b, k, ip), j) == if j == k then ip else DInode(b, j)
  {
    var r := PutInode(b, k, ip);
    if j == k {
      assert r[16 * j..16 * j + 16] == InodeWords(ip);
      assert InodeWords(ip)[3..] == ip.addrs;
    } else {
      assert r[16 * j..16 * j + 16] == b[16 * j..16 * j + 16];
    }
  }

  // The copy of inode i on disk.
  function OnDisk(disk: Disk, sb: Superblock, i: nat): Inode
    requires sb.Ok() && |disk| == sb.size && i < sb.ninodes
  {
    DInode(disk[sb.IBlock(i)], i % IPB)
  }

  // ---------------------------------------------------------------- slots

  // The slots of an inode: 12 direct pointers, the indirect pointer, the entries of the indirect block.
  const INDIRECT: nat := 12
  const SLOTS: nat := 141

  datatype Slot = Slot(inum: nat, s: nat)

  function Ptr(disk: Disk, ip: Inode, s: nat): (a: nat)
    requires |ip.addrs| == NDIRECT + 1 && s < SLOTS
  {
    if s <= INDIRECT then ip.addrs[s]
    else if ip.addrs[INDIRECT] == 0 || ip.addrs[INDIRECT] >= |disk| then 0
    else disk[ip.addrs[INDIRECT]][s - INDIRECT - 1]
  }

  // The slot of the bn-th block of a file.
  function SlotOf(bn: nat): (s: nat)
    requires bn < MAXFILE
    ensures s < SLOTS && s != INDIRECT
  {
    if bn < NDIRECT then bn else bn + 1
  }

  // The super block in memory is the one on disk, and the disk has its size.
  predicate SbOk(disk: Disk, sb: Superblock) {
    sb.Ok() && |disk| == sb.size && ReadSb(disk[1]) == sb
  }

  predicate Shape(disk: Disk, sb: Superblock, its: seq<Inode>) {
    && SbOk(disk, sb) && |its| == sb.ninodes
    && forall i | 0 <= i < |its| :: |its[i].addrs| == NDIRECT + 1
  }

  // Every block a slot points to is owned by that slot alone.
  predicate SlotsOwn(disk: Disk, its: seq<Inode>, owner: map<nat, Slot>)
    requires forall i | 0 <= i < |its| :: |its[i].addrs| == NDIRECT + 1
  {
    forall i: nat, s: nat {:trigger Ptr(disk, its[i], s)} | i < |its| && s < SLOTS && Ptr(disk, its[i], s) != 0 ::
      Ptr(disk, its[i], s) in owner && owner[Ptr(disk, its[i], s)] == Slot(i, s)
  }

  // Every owned block is a data block that its slot points to.
  predicate OwnersPoint(disk: Disk, sb: Superblock, its: seq<Inode>, owner: map<nat, Slot>)
    requires forall i | 0 <= i < |its| :: |its[i].addrs| == NDIRECT + 1
  {
    forall b | b in owner ::
      && sb.DataStart() <= b < sb.size && owner[b].inum < |its| && owner[b].s < SLOTS
      && Ptr(disk, its[owner[b].inum], owner[b].s) == b
  }

  predicate Owned(disk: Disk, sb: Superblock, its: seq<Inode>, owner: map<nat, Slot>) {
    && Shape(disk, sb, its)
    && SlotsOwn(disk, its, owner)
    && OwnersPoint(disk, sb, its, owner)
  }

  lemma OwnedPtr(disk: Disk, sb: Superblock, its: seq<Inode>, owner: map<nat, Slot>, i: nat, s: nat)
    requires Owned(disk, sb, its, owner) && i < |its| && s < SLOTS
    ensures var p := Ptr(disk, its[i], s);
        p == 0 || (p in owner && owner[p] == Slot(i, s) && sb.DataStart() <= p < sb.size)
  {
    hide Ptr;
  }

  // ---------------------------------------------------------------- free map

  predicate BitSet(disk: Disk, sb: Superblock, b: nat)
    requires sb.Ok() && |disk| == sb.size && b < sb.size
  {
    Bit(disk[sb.BBlock(b)], b % BPB)
  }

  // The set bits are those of the metadata and of the blocks in use.
  predicate FreeMap(disk: Disk, sb: Superblock, used: set<nat>)
    requires sb.Ok() && |disk| == sb.size
  {
    forall b: nat | b < sb.size :: BitSet(disk, sb, b) <==> (b < sb.DataStart() || b in used)
  }

  // The map and the inodes agree: a bit is set exactly for metadata and for blocks that some slot of
  // some inode points to, and then no other slot does.
  lemma MapIsOwnership(disk: Disk, sb: Superblock, its: seq<Inode>, owner: map<nat, Slot>, b: nat)
    requires Owned(disk, sb, its, owner) && FreeMap(disk, sb, owner.Keys) && b < sb.size
    ensures BitSet(disk, sb, b) <==>
              b < sb.DataStart() || exists i: nat, s: nat :: i < |its| && s < SLOTS && Ptr(disk, its[i], s) == b
    ensures b > 0 ==> forall i: nat, s: nat, j: nat, t: nat |
              && i < |its| && s < SLOTS && Ptr(disk, its[i], s) == b
              && j < |its| && t < SLOTS && Ptr(disk, its[j], t) == b :: i == j && s == t
  {
    hide Ptr; hide BitSet;
    assert BitSet(disk, sb, b) <==> (b < sb.DataStart() || b in owner);
    if b in owner {
      assert Ptr(disk, its[owner[b].inum], owner[b].s) == b;
    }
    if b > 0 {
      forall i: nat, s: nat | i < |its| && s < SLOTS && Ptr(disk, its[i], s) == b
        ensures b in owner && owner[b] == Slot(i, s)
      {
        OwnedPtr(disk, sb, its, owner, i, s);
      }
    }
  }

  lemma SetBitKeeps(disk: Disk, sb: Superblock, used: set<nat>, b: nat)
    requires sb.Ok() && |disk| == sb.size && FreeMap(disk, sb, used) && b < sb.size
    ensures FreeMap(disk[sb.BBlock(b) := SetBit(disk[sb.BBlock(b)], b % BPB)], sb, used + {b})
  {
    hide Bit; hide SetBit;
    var x := sb.BBlock(b);
    var disk' := disk[x := SetBit(disk[x], b % BPB)];
    forall c: nat | c < sb.size
      ensures BitSet(disk', sb, c) <==> (c < sb.DataStart() || c in used + {b})
    {
      BitsOfBlock(disk[x], b % BPB, c % BPB);
      assert BitSet(disk, sb, c) <==> (c < sb.DataStart() || c in used);
      if sb.BBlock(c) == x && c % BPB == b % BPB {
        assert c == b;
      }
    }
  }

  lemma ClearBitKeeps(disk: Disk, sb: Superblock, used: set<nat>, b: nat)
    requires sb.Ok() && |disk| == sb.size && FreeMap(disk, sb, used) && sb.DataStart() <= b < sb.size
    ensures FreeMap(disk[sb.BBlock(b) := ClearBit(disk[sb.BBlock(b)], b % BPB)], sb, used - {b})
  {
    hide Bit; hide ClearBit;
    var x := sb.BBlock(b);
    var disk' := disk[x := ClearBit(disk[x], b % BPB)];
    forall c: nat | c < sb.size
      ensures BitSet(disk', sb, c) <==> (c < sb.DataStart() || c in used - {b})
    {
      BitsOfBlock(disk[x], b % BPB, c % BPB);
      assert BitSet(disk, sb, c) <==> (c < sb.DataStart() || c in used);
      if sb.BBlock(c) == x && c % BPB == b % BPB {
        assert c == b;
      }
    }
  }

  // Nothing but writes to the map's own blocks changes the map.
  lemma OtherWriteKeepsMap(disk: Disk, sb: Superblock, used: set<nat>, x: nat, d: Block)
    requires sb.Ok() && |disk| == sb.size && FreeMap(disk, sb, used)
    requires x < sb.bmapstart || sb.DataStart() <= x < sb.size
    ensures FreeMap(disk[x := d], sb, used)
  {
    var disk' := disk[x := d];
    hide Bit;
    forall c: nat | c < sb.size
      ensures BitSet(disk', sb, c) <==> (c < sb.DataStart() || c in used)
    {
      assert BitSet(disk, sb, c) <==> (c < sb.DataStart() || c in used);
    }
  }

  // ---------------------------------------------------------------- contents

  // The byte at offset o of a file; a block not yet allocated counts as zeros.
  function FileByte(disk: Disk, ip: Inode, o: nat): Byte
    requires |ip.addrs| == NDIRECT + 1 && o < MAXFILE * BSIZE
  {
    var a := Ptr(disk, ip, SlotOf(o / BSIZE));
    if a == 0 || a >= |disk| then 0 else Unpack(disk[a])[o % BSIZE]
  }

  // The first n bytes of the file have blocks.
  predicate Mapped(disk: Disk, ip: Inode, n: nat)
    requires |ip.addrs| == NDIRECT + 1
  {
    forall bn: nat | bn < MAXFILE && bn * BSIZE < n :: Ptr(disk, ip, SlotOf(bn)) != 0
  }

  predicate NoHoles(disk: Disk, ip: Inode)
    requires |ip.addrs| == NDIRECT + 1
  {
    ip.size <= MAXFILE * BSIZE && Mapped(disk, ip, ip.size)
  }

  function Contents(disk: Disk, ip: Inode): (s: seq<Byte>)
    requires |ip.addrs| == NDIRECT + 1 && ip.size <= MAXFILE * BSIZE
    ensures |s| == ip.size && forall o | 0 <= o < |s| :: s[o] == FileByte(disk, ip, o)
  {
    seq(ip.size, o requires 0 <= o < ip.size => FileByte(disk, ip, o))
  }

  // ---------------------------------------------------------------- writes to metadata blocks

  lemma MetaWritePtr(disk: Disk, sb: Superblock, its: seq<Inode>, owner: map<nat, Slot>, x: nat, d: Block, i: nat,
                     s: nat)
    requires Owned(disk, sb, its, owner) && 1 < x < sb.DataStart() && i < |its| && s < SLOTS
    ensures Ptr(disk[x := d], its[i], s) == Ptr(disk, its[i], s)
  {
    OwnedPtr(disk, sb, its, owner, i, INDIRECT);
  }

  lemma MetaWriteKeepsOwned(disk: Disk, sb: Superblock, its: seq<Inode>, owner: map<nat, Slot>, x: nat, d: Block)
    requires Owned(disk, sb, its, owner) && 1 < x < sb.DataStart()
    ensures Owned(disk[x := d], sb, its, owner)
  {
    var disk' := disk[x := d];
    hide Ptr;
    forall i: nat, s: nat | i < |its| && s < SLOTS
      ensures Ptr(disk', its[i], s) == Ptr(disk, its[i], s)
    {
      MetaWritePtr(disk, sb, its, owner, x, d, i, s);
    }
    assert disk'[1] == disk[1] && OwnersPoint(disk', sb, its, owner);
  }

  // Every file reads the same in both states.
  predicate SameFiles(disk: Disk, its: seq<Inode>, disk': Disk, its': seq<Inode>)
    requires |its| == |its'|
    requires forall i | 0 <= i < |its| :: |its[i].addrs| == |its'[i].addrs| == NDIRECT + 1
  {
    forall i: nat, o: nat {:trigger FileByte(disk', its'[i], o)} | i < |its| && o < MAXFILE * BSIZE ::
      FileByte(disk', its'[i], o) == FileByte(disk, its[i], o)
  }

  lemma MetaWriteKeepsFiles(disk: Disk, sb: Superblock, its: seq<Inode>, owner: map<nat, Slot>, x: nat, d: Block)
    requires Owned(disk, sb, its, owner) && 1 < x < sb.DataStart()
    ensures SameFiles(disk, its, disk[x := d], its)
  {
    hide Ptr; hide SlotOf; hide Unpack;
    forall i: nat, o: nat | i < |its| && o < MAXFILE * BSIZE
      ensures FileByte(disk[x := d], its[i], o) == FileByte(disk, its[i], o)
    {
      var s := SlotOf(o / BSIZE);
      MetaWritePtr(disk, sb, its, owner, x, d, i, s);
      OwnedPtr(disk, sb, its, owner, i, s);
    }
  }

  // ---------------------------------------------------------------- writes to data blocks

  // A data block that is not some file's indirect block.
  predicate Plain(sb: Superblock, owner: map<nat, Slot>, x: nat) {
    sb.DataStart() <= x < sb.size && (x in owner ==> owner[x].s != INDIRECT)
  }

  lemma DataWritePtr(disk: Disk, sb: Superblock, its: seq<Inode>, owner: map<nat, Slot>, x: nat, d: Block, i: nat,
                     s: nat)
    requires Owned(disk, sb, its, owner) && Plain(sb, owner, x) && i < |its| && s < SLOTS
    ensures Ptr(disk[x := d], its[i], s) == Ptr(disk, its[i], s)
  {
    OwnedPtr(disk, sb, its, owner, i, INDIRECT);
  }

  lemma DataWriteKeepsOwned(disk: Disk, sb: Superblock, its: seq<Inode>, owner: map<nat, Slot>, x: nat, d: Block)
    requires Owned(disk, sb, its, owner) && Plain(sb, owner, x)
    ensures Owned(disk[x := d], sb, its, owner)
  {
    var disk' := disk[x := d];
    hide Ptr;
    forall i: nat, s: nat | i < |its| && s < SLOTS
      ensures Ptr(disk', its[i], s) == Ptr(disk, its[i], s)
    {
      DataWritePtr(disk, sb, its, owner, x, d, i, s);
    }
    assert disk'[1] == disk[1] && OwnersPoint(disk', sb, its, owner);
  }

  // The write changes the one file block that x holds, if any.
  lemma DataWriteFile(disk: Disk, sb: Superblock, its: seq<Inode>, owner: map<nat, Slot>, x: nat, d: Block, i: nat,
                      o: nat)
    requires Owned(disk, sb, its, owner) && Plain(sb, owner, x) && i < |its| && o < MAXFILE * BSIZE
    ensures FileByte(disk[x := d], its[i], o) ==
            if x in owner && owner[x] == Slot(i, SlotOf(o / BSIZE)) then Unpack(d)[o % BSIZE]
            else FileByte(disk, its[i], o)
  {
    hide Ptr; hide Unpack; hide SlotOf;
    var s := SlotOf(o / BSIZE);
    DataWritePtr(disk, sb, its, owner, x, d, i, s);
    OwnedPtr(disk, sb, its, owner, i, s);
  }

  // ---------------------------------------------------------------- attaching a block to a slot

  // ip->addrs[s] = b, for a block b of zeros
  lemma AttachPtr(disk: Disk, ip: Inode, s: nat, b: nat, t: nat)
    requires |ip.addrs| == NDIRECT + 1 && s <= INDIRECT && t < SLOTS && b < |disk| && b < UINT && ip.addrs[s] == 0
    requires disk[b] == ZeroBlock()
    ensures Ptr(disk, ip.(addrs := ip.addrs[s := b]), t) == if t == s then b else Ptr(disk, ip, t)
  {}

  // its after ip->addrs[s] = b
  function WithAddr(its: seq<Inode>, i: nat, s: nat, b: Uint): (r: seq<Inode>)
    requires i < |its| && |its[i].addrs| == NDIRECT + 1 && s <= INDIRECT
    ensures |r| == |its| && |r[i].addrs| == NDIRECT + 1 && forall k | 0 <= k < |its| && k != i :: r[k] == its[k]
  {
    its[i := its[i].(addrs := its[i].addrs[s := b])]
  }

  // b is a block of zeros that no slot points to.
  predicate Fresh(disk: Disk, sb: Superblock, owner: map<nat, Slot>, b: nat) {
    sb.DataStart() <= b < sb.size <= |disk| && 0 < b < UINT && b !in owner && disk[b] == ZeroBlock()
  }

  lemma AttachKeepsOwned(disk: Disk, sb: Superblock, its: seq<Inode>, owner: map<nat, Slot>, i: nat, s: nat, b: nat)
    requires Owned(disk, sb, its, owner) && i < |its| && s <= INDIRECT && its[i].addrs[s] == 0
        && Fresh(disk, sb, owner, b)
    ensures Owned(disk, sb, WithAddr(its, i, s, b), owner[b := Slot(i, s)])
  {
    var its' := WithAddr(its, i, s, b);
    var owner' := owner[b := Slot(i, s)];
    assert Ptr(disk, its[i], s) == 0;
    hide Ptr;
    forall k: nat, t: nat | k < |its| && t < SLOTS
      ensures Ptr(disk, its'[k], t) == if k == i && t == s then b else Ptr(disk, its[k], t)
    {
      if k == i {
        AttachPtr(disk, its[i], s, b, t);
      }
    }
    assert OwnersPoint(disk, sb, its', owner');
  }

  lemma AttachKeepsFiles(disk: Disk, sb: Superblock, its: seq<Inode>, owner: map<nat, Slot>, i: nat, s: nat, b: nat)
    requires Owned(disk, sb, its, owner) && i < |its| && s <= INDIRECT && its[i].addrs[s] == 0
        && Fresh(disk, sb, owner, b)
    ensures SameFiles(disk, its, disk, WithAddr(its, i, s, b))
  {
    var its' := WithAddr(its, i, s, b);
    assert Ptr(disk, its[i], s) == 0;
    ZeroBytes();
    hide Ptr; hide Unpack; hide SlotOf;
    forall k: nat, o: nat | k < |its| && o < MAXFILE * BSIZE
      ensures FileByte(disk, its'[k], o) == FileByte(disk, its[k], o)
    {
      if k == i {
        AttachPtr(disk, its[i], s, b, SlotOf(o / BSIZE));
      }
    }
  }

  // a[j] = b in the indirect block
  function WithEntry(disk: Disk, a: nat, j: nat, b: Uint): (r: Disk)
    requires a < |disk| && j < NINDIRECT
    ensures |r| == |disk|
  {
    disk[a := disk[a][j := b]]
  }

  lemma EntryPtr(disk: Disk, sb: Superblock, its: seq<Inode>, owner: map<nat, Slot>, i: nat, j: nat, b: nat, k: nat,
                 t: nat)
    requires Owned(disk, sb, its, owner) && i < |its| && k < |its| && t < SLOTS && j < NINDIRECT && b < UINT
    requires 0 < its[i].addrs[INDIRECT] < |disk|
    ensures Ptr(WithEntry(disk, its[i].addrs[INDIRECT], j, b), its[k], t) ==
            if k == i && t == j + INDIRECT + 1 then b else Ptr(disk, its[k], t)
  {
    OwnedPtr(disk, sb, its, owner, i, INDIRECT);
    OwnedPtr(disk, sb, its, owner, k, INDIRECT);
  }

  lemma EntryKeepsOwned(disk: Disk, sb: Superblock, its: seq<Inode>, owner: map<nat, Slot>, i: nat, j: nat, b: nat)
    requires Owned(disk, sb, its, owner) && i < |its| && j < NINDIRECT && Fresh(disk, sb, owner, b)
    requires its[i].addrs[INDIRECT] != 0 && Ptr(disk, its[i], j + INDIRECT + 1) == 0
    ensures its[i].addrs[INDIRECT] < |disk|
    ensures Owned(WithEntry(disk, its[i].addrs[INDIRECT], j, b), sb, its, owner[b := Slot(i, j + INDIRECT + 1)])
  {
    OwnedPtr(disk, sb, its, owner, i, INDIRECT);
    var a := its[i].addrs[INDIRECT];
    assert a == Ptr(disk, its[i], INDIRECT);
    var disk' := WithEntry(disk, a, j, b);
    hide Ptr;
    assert disk'[1] == disk[1];
    forall k: nat, t: nat | k < |its| && t < SLOTS
      ensures Ptr(disk', its[k], t) == if k == i && t == j + INDIRECT + 1 then b else Ptr(disk, its[k], t)
    {
      EntryPtr(disk, sb, its, owner, i, j, b, k, t);
    }
    assert OwnersPoint(disk', sb, its, owner[b := Slot(i, j + INDIRECT + 1)]);
  }

  lemma EntryKeepsFiles(disk: Disk, sb: Superblock, its: seq<Inode>, owner: map<nat, Slot>, i: nat, j: nat, b: nat)
    requires Owned(disk, sb, its, owner) && i < |its| && j < NINDIRECT && Fresh(disk, sb, owner, b)
    requires 0 < its[i].addrs[INDIRECT] < |disk| && Ptr(disk, its[i], j + INDIRECT + 1) == 0
    ensures SameFiles(disk, its, WithEntry(disk, its[i].addrs[INDIRECT], j, b), its)
  {
    var a := its[i].addrs[INDIRECT];
    assert a == Ptr(disk, its[i], INDIRECT);
    OwnedPtr(disk, sb, its, owner, i, INDIRECT);
    var disk' := WithEntry(disk, a, j, b);
    ZeroBytes();
    hide Ptr; hide Unpack; hide SlotOf;
    forall k: nat, o: nat | k < |its| && o < MAXFILE * BSIZE
      ensures FileByte(disk', its[k], o) == FileByte(disk, its[k], o)
    {
      var s := SlotOf(o / BSIZE);
      EntryPtr(disk, sb, its, owner, i, j, b, k, s);
      OwnedPtr(disk, sb, its, owner, k, s);
    }
  }

  // ---------------------------------------------------------------- releasing a file's blocks

  function Others(owner: map<nat, Slot>, i: nat): (r: map<nat, Slot>) {
    map b | b in owner && owner[b].inum != i :: owner[b]
  }

  function Emptied(its: seq<Inode>, i: nat): (r: seq<Inode>)
    requires i < |its|
    ensures |r| == |its| && |r[i].addrs| == NDIRECT + 1 && forall k | 0 <= k < |its| && k != i :: r[k] == its[k]
  {
    its[i := its[i].(size := 0, addrs := seq(NDIRECT + 1, _ => 0))]
  }

  lemma EmptiedKeepsOwned(disk: Disk, sb: Superblock, its: seq<Inode>, owner: map<nat, Slot>, i: nat)
    requires Owned(disk, sb, its, owner) && i < |its|
    ensures Owned(disk, sb, Emptied(its, i), Others(owner, i))
  {
    var its' := Emptied(its, i);
    forall t: nat | t < SLOTS
      ensures Ptr(disk, its'[i], t) == 0
    {}
    hide Ptr;
    assert SlotsOwn(disk, its', Others(owner, i));
  }
}
