/** The inode layer over logged blocks: allocation of blocks, the block map of a file, truncation,
    reading and writing. A panic (no free block, freeing a free block) is the result ok == false. */
module Fs {
  import opened Machine
  import opened Blocks
  import opened Bytes
  import opened FsSpec
  import opened FsOps
  import opened DiskFormat
  import opened FsFormat
  import LogProtocol

  const T_DEV: Short := 3
  const NDEV: nat := 10

  // What the driver of a device would answer, if its major number is that of one in devsw.
  function Driver<T>(ip: Inode, devsw: map<nat, T>, none: T): (r: T)
    ensures ip.major >= 10 || ip.major !in devsw ==> r == none
    ensures ip.major < 10 && ip.major in devsw ==> r == devsw[ip.major]
  {
    if ip.major < NDEV && ip.major in devsw then devsw[ip.major] else none
  }

  lemma MappedPtr(disk: Disk, ip: Inode, n: nat, o: nat)
    requires |ip.addrs| == NDIRECT + 1 && Mapped(disk, ip, n) && o < n && o < MAXFILE * BSIZE
    ensures Ptr(disk, ip, SlotOf(o / BSIZE)) != 0
  {}

  // A block of the free map is for BPB blocks.
  lemma MapBlockOf(sb: Superblock, b: nat, bi: nat)
    requires b % BPB == 0 && bi < BPB
    ensures sb.BBlock(b + bi) == sb.BBlock(b) && (b + bi) % BPB == bi
  {}

  lemma MapBlockNext(b: nat)
    requires b % BPB == 0
    ensures (b + BPB) % BPB == 0
  {}

  class FileSystem {
    // What bread returns: the logical value of each block.
    var disk: Disk
    var sb: Superblock
    // The inodes as they are in memory.
    var its: seq<Inode>
    // Whose block each data block is, and the blocks log_written since the operation began.
    ghost var owner: map<nat, Slot>
    ghost var logged: set<nat>
    // The operation under way, the logical disk when it began, and its changes to blocks since.
    ghost var op: nat
    ghost var start: Disk
    ghost var journal: seq<LogProtocol.Update>

    // The journal accounts for every change.
    ghost predicate Kept()
      reads this`disk, this`op, this`start, this`journal
    {
      && (forall i | 0 <= i < |journal| :: journal[i].op == op && journal[i].bno < |start|)
      && disk == LogProtocol.Replay(start, journal)
    }

    ghost predicate Inv()
      reads this
    {
      Owned(disk, sb, its, owner) && FreeMap(disk, sb, owner.Keys) && AllNoHoles(disk, its)
    }

    // The inodes on disk are those in memory.
    ghost predicate Synced()
      reads this
    {
      Shape(disk, sb, its) && forall i: nat | i < |its| :: OnDisk(disk, sb, i) == its[i]
    }

    // begin_op
    ghost method Begin(id: nat)
      modifies this`op, this`start, this`journal, this`logged
      ensures Kept() && op == id && start == disk && journal == [] && logged == {}
    {
      op, start, journal, logged := id, disk, [], {};
    }

    method Bread(b: nat) returns (d: Block)
      requires b < |disk|
      ensures d == disk[b]
    {
      d := disk[b];
    }

    method LogWrite(b: nat, d: Block)
      requires b < |disk|
      requires Kept()
      modifies this`disk, this`logged, this`journal
      ensures Kept()
      ensures disk == old(disk)[b := d] && logged == old(logged) + {b}
    {
      ghost var was, u := journal, LogProtocol.Update(op, b, d);
      disk := disk[b := d];
      journal := was + [u];
      assert journal[..|was|] == was;
      logged := logged + {b};
    }

    method ReadSuper()
      requires SbOk(disk, sb)
      modifies this`sb
      ensures sb == old(sb)
    {
      var d := Bread(1);
      sb := ReadSb(d);
    }

    method Bzero(b: nat)
      requires b < |disk|
      requires Kept()
      modifies this`disk, this`logged, this`journal
      ensures Kept()
      ensures disk == old(disk)[b := ZeroBlock()] && logged == old(logged) + {b}
    {
      hide Kept;
      LogWrite(b, ZeroBlock());
    }

    // ---------------------------------------------------------------- balloc and bfree

    // The first clear bit among those of block b's map block, from b on.
    method ScanMap(b: nat) returns (found: bool, bi: nat)
      requires SbOk(disk, sb) && b < sb.size && b % BPB == 0
      ensures forall c | b <= c < b + bi && c < sb.size :: BitSet(disk, sb, c)
      ensures found ==> bi < BPB && b + bi < sb.size && !BitSet(disk, sb, b + bi)
      ensures !found ==> bi == BPB || b + bi == sb.size
    {
      hide Bit;
      var d := Bread(sb.BBlock(b));
      bi := 0;
      while bi < BPB && b + bi < sb.size
        invariant bi <= BPB && b + bi <= sb.size
        invariant forall c | b <= c < b + bi :: BitSet(disk, sb, c)
      {
        MapBlockOf(sb, b, bi);
        if !Bit(d, bi) {
          return true, bi;
        }
        assert BitSet(disk, sb, b + bi);
        bi := bi + 1;
      }
      found := false;
    }

    // The first free block, marked and zeroed.
    method Balloc() returns (ok: bool, r: nat)
      requires SbOk(disk, sb)
      requires Kept()
      modifies this`disk, this`logged, this`journal
      ensures Kept()
      ensures !ok ==> disk == old(disk) && forall c: nat | c < sb.size :: BitSet(disk, sb, c)
      ensures ok ==> r < sb.size && !BitSet(old(disk), sb, r) && forall c: nat | c < r :: BitSet(old(disk), sb, c)
      ensures ok ==> disk == Allocated(old(disk), sb, r) && logged == old(logged) + {sb.BBlock(r), r}
      ensures !ok ==> AllMarked(disk, sb.bmapstart, sb.size)
      ensures ok ==> FirstUnmarked(old(disk), sb.bmapstart, r) && Allocates(old(disk), disk, sb.bmapstart, r)
    {
      hide Kept; hide FirstUnmarked; hide AllMarked; hide Allocates;
      hide BitSet; hide SetBit;
      var b := 0;
      while b < sb.size
        invariant Kept()
        invariant b % BPB == 0 && disk == old(disk) && logged == old(logged)
        invariant forall c: nat | c < b && c < sb.size :: BitSet(disk, sb, c)
        decreases sb.size - b
      {
        var found, bi := ScanMap(b);
        if found {
          var d := Bread(sb.BBlock(b));
          MapBlockOf(sb, b, bi);
          AllocatedIs(disk, sb, b + bi);
          MarksAre(disk, sb, b + bi);
          LogWrite(sb.BBlock(b), SetBit(d, bi));
          Bzero(b + bi);
          return true, b + bi;
        }
        MapBlockNext(b);
        b := b + BPB;
      }
      MarksAre(disk, sb, sb.size);
      ok, r := false, 0;
    }

    method Bfree(b: nat) returns (ok: bool)
      requires SbOk(disk, sb) && b < sb.size
      requires Kept()
      modifies this`sb, this`disk, this`logged, this`journal
      ensures Kept()
      ensures sb == old(sb) && ok == BitSet(old(disk), sb, b)
      ensures ok ==> disk == old(disk)[sb.BBlock(b) := ClearBit(old(disk)[sb.BBlock(b)], b % BPB)]
      ensures ok ==> logged == old(logged) + {sb.BBlock(b)}
      ensures ok == MarkedAt(old(disk), sb.bmapstart, b) && (ok ==> Frees(old(disk), disk, sb.bmapstart, b))
    {
      MarkedIs(disk, sb, b);
      FreedIs(disk, sb, b);
      hide Kept; hide MarkedAt; hide Frees;
      hide ClearBit; hide Bit;
      ReadSuper();
      var d := Bread(sb.BBlock(b));
      if !Bit(d, b % BPB) {
        return false;
      }
      LogWrite(sb.BBlock(b), ClearBit(d, b % BPB));
      ok := true;
    }

    // ---------------------------------------------------------------- bmap

    // balloc, for a slot of inode inum: the block is one that no slot points to.
    method AllocFor(inum: nat) returns (ok: bool, b: nat)
      requires Owned(disk, sb, its, owner) && FreeMap(disk, sb, owner.Keys) && inum < |its|
      requires Kept()
      modifies this`disk, this`logged, this`journal
      ensures Kept()
      ensures !ok ==> DiskFull(sb, owner)
      ensures ok ==> Grown(old(disk), its, owner, disk, its, owner, sb, inum)
      ensures ok ==> Fresh(disk, sb, owner, b) && FreeMap(disk, sb, owner.Keys + {b})
      ensures ok ==> forall i: nat, s: nat | i < |its| && s < SLOTS :: Ptr(disk, its[i], s) == Ptr(old(disk), its[i], s)
      ensures ok ==> logged <= old(logged) + MapBlocks(sb) + {b}
    {
      hide Kept;
      hide Grown; hide Fresh; hide Allocated; hide SlotsOwn; hide OwnersPoint; hide BitSet; hide Ptr;
      ok, b := Balloc();
      if !ok {
        FullMap(disk, sb, owner);
      } else {
        AllocGrows(old(disk), sb, its, owner, b, inum);
        hide Shape;
        AllocKeepsMap(old(disk), sb, owner.Keys, b);
        forall i: nat, s: nat | i < |its| && s < SLOTS
          ensures Ptr(disk, its[i], s) == Ptr(old(disk), its[i], s)
        {
          AllocKeepsPtr(old(disk), sb, its, owner, b, i, s);
        }
      }
    }

    // addr = ip->addrs[s], allocated if there is none
    method Addr(inum: nat, s: nat) returns (ok: bool, addr: nat)
      requires Owned(disk, sb, its, owner) && FreeMap(disk, sb, owner.Keys) && inum < |its| && s <= INDIRECT
      requires Kept()
      modifies this`disk, this`logged, this`journal, this`its, this`owner
      ensures Kept()
      ensures !ok ==> owner == old(owner) && DiskFull(sb, owner)
      ensures ok ==> Grown(old(disk), old(its), old(owner), disk, its, owner, sb, inum) && FreeMap(disk, sb, owner.Keys)
      ensures ok ==> addr != 0 && its[inum].addrs[s] == addr && logged <= old(logged) + MapBlocks(sb) + {addr}
      ensures ok ==> forall t | 0 <= t < NDIRECT + 1 && t != s :: its[inum].addrs[t] == old(its)[inum].addrs[t]
      ensures ok ==> OthersKept(old(disk), old(its)[inum], disk, its[inum], s)
      ensures old(its[inum].addrs[s]) != 0 ==>
                ok && disk == old(disk) && its == old(its) && owner == old(owner) && logged == old(logged)
    {
      hide Kept;
      hide Grown; hide Fresh; hide SlotsOwn; hide OwnersPoint; hide Ptr; hide FreeMap; hide DiskFull;
      hide OthersKept;
      addr := its[inum].addrs[s];
      GrownSame(disk, sb, its, owner, inum);
      OthersSame(disk, its[inum], s);
      if addr != 0 {
        return true, addr;
      }
      ok, addr := AllocFor(inum);
      if ok {
        GrownEnd(old(disk), its, owner, disk, its, owner, sb, inum);
        FreshBlock(disk, sb, owner, addr);
        AttachGrows(disk, sb, its, owner, inum, s, addr);
        AttachOthers(old(disk), disk, its[inum], s, addr);
        GrownTrans(old(disk), its, owner, disk, its, owner, disk, WithAddr(its, inum, s, addr),
          owner[addr := Slot(inum, s)], sb, inum);
        its := WithAddr(its, inum, s, addr);
        owner := owner[addr := Slot(inum, s)];
        assert owner.Keys == old(owner).Keys + {addr};
      }
    }

    // The entry of the indirect block a for file block bn, allocated if there is none.
    method Entry(inum: nat, a: nat, j: nat) returns (ok: bool, addr: nat)
      requires Owned(disk, sb, its, owner) && FreeMap(disk, sb, owner.Keys) && inum < |its| && j < NINDIRECT
      requires 0 < a < |disk| && a == its[inum].addrs[INDIRECT]
      requires Kept()
      modifies this`disk, this`logged, this`journal, this`owner
      ensures Kept()
      ensures !ok ==> owner == old(owner) && DiskFull(sb, owner)
      ensures ok ==> Grown(old(disk), its, old(owner), disk, its, owner, sb, inum) && FreeMap(disk, sb, owner.Keys)
      ensures ok ==> addr != 0 && Ptr(disk, its[inum], j + INDIRECT + 1) == addr
      ensures ok ==> OthersKept(old(disk), its[inum], disk, its[inum], j + INDIRECT + 1)
      ensures ok ==> logged <= old(logged) + MapBlocks(sb) + {addr, a}
      ensures Ptr(old(disk), its[inum], j + INDIRECT + 1) != 0 ==>
                ok && disk == old(disk) && owner == old(owner) && logged == old(logged)
    {
      hide Kept;
      hide Grown; hide Fresh; hide SlotsOwn; hide OwnersPoint; hide FreeMap; hide DiskFull; hide WithEntry;
      hide OthersKept;
      var d := Bread(a);
      addr := d[j];
      GrownSame(disk, sb, its, owner, inum);
      OthersSame(disk, its[inum], j + INDIRECT + 1);
      if addr != 0 {
        return true, addr;
      }
      ok, addr := AllocFor(inum);
      if ok {
        GrownEnd(old(disk), its, owner, disk, its, owner, sb, inum);
        IndirectSame(old(disk), disk, its[inum]);
        FreshBlock(disk, sb, owner, addr);
        EntryGrows(disk, sb, its, owner, inum, j, addr);
        hide Ptr;
        ghost var disk1 := disk;
        LogWrite(a, d[j := addr]);
        WithEntryIs(disk1, a, j, addr);
        EntryOthers(old(disk), disk1, sb, its, owner, inum, j, addr);
        EntryPtr(disk1, sb, its, owner, inum, j, addr, inum, j + INDIRECT + 1);
        GrownTrans(old(disk), its, owner, disk1, its, owner, disk, its,
          owner[addr := Slot(inum, j + INDIRECT + 1)], sb, inum);
        OwnedPtr(old(disk), sb, its, owner, inum, INDIRECT);
        EntryMap(disk1, sb, owner.Keys + {addr}, a, d[j := addr], its, owner, inum);
        owner := owner[addr := Slot(inum, j + INDIRECT + 1)];
        assert owner.Keys == old(owner).Keys + {addr};
      }
    }

    // The disk block of the bn-th block of inode inum, allocated if there is none.
    method Bmap(inum: nat, bn: nat) returns (ok: bool, addr: nat)
      requires Owned(disk, sb, its, owner) && FreeMap(disk, sb, owner.Keys) && inum < |its|
      requires Kept()
      modifies this`disk, this`logged, this`journal, this`its, this`owner
      ensures Kept()
      ensures !ok ==> bn >= 140 || DiskFull(sb, owner)
      ensures ok ==> bn < 140
      ensures ok ==> Grown(old(disk), old(its), old(owner), disk, its, owner, sb, inum) && FreeMap(disk, sb, owner.Keys)
      ensures ok ==> addr != 0 && |its[inum].addrs| == NDIRECT + 1 && addr == Ptr(disk, its[inum], SlotOf(bn))
      ensures ok && bn < 12 ==> addr == its[inum].addrs[bn]
      ensures ok && bn >= 12 ==> 0 < its[inum].addrs[12] < |disk| && addr == disk[its[inum].addrs[12]][bn - 12]
      ensures ok ==> PointersKept(old(disk), old(its)[inum].addrs, disk, its[inum].addrs, bn, bn + 1)
      ensures ok && bn < 12 ==> its[inum].addrs == old(its)[inum].addrs[bn := addr]
      ensures ok ==> logged <= old(logged) + MapBlocks(sb) + {addr} + IndirectSet(its[inum])
      ensures bn < MAXFILE && Ptr(old(disk), old(its)[inum], SlotOf(bn)) != 0 ==>
                ok && disk == old(disk) && its == old(its) && owner == old(owner) && logged == old(logged)
    {
      hide Kept;
      hide Grown; hide Fresh; hide SlotsOwn; hide OwnersPoint; hide FreeMap; hide DiskFull; hide OthersKept;
      hide PointersKept;
      if bn < NDIRECT {
        ok, addr := Addr(inum, bn);
        if ok {
          GrownEnd(old(disk), old(its), old(owner), disk, its, owner, sb, inum);
          BlocksOf(disk, its[inum], bn);
          PointersAre(old(disk), old(its)[inum], disk, its[inum], bn);
        }
        return;
      }
      if bn - NDIRECT < NINDIRECT {
        var a;
        ok, a := Addr(inum, INDIRECT);
        if !ok {
          return false, 0;
        }
        GrownEnd(old(disk), old(its), old(owner), disk, its, owner, sb, inum);
        IndirectBlock(disk, sb, its, owner, inum);
        ghost var d1, ip1, own1 := disk, its[inum], owner;
        ok, addr := Entry(inum, a, bn - NDIRECT);
        if ok {
          GrownTrans(old(disk), old(its), old(owner), d1, its, own1, disk, its, owner, sb, inum);
          BlocksOf(disk, its[inum], bn);
          OthersTrans(old(disk), old(its)[inum], d1, ip1, disk, its[inum], SlotOf(bn));
          PointersAre(old(disk), old(its)[inum], disk, its[inum], bn);
        }
        return;
      }
      ok, addr := false, 0;
    }

    // ---------------------------------------------------------------- iupdate and itrunc

    method IUpdate(inum: nat)
      requires Shape(disk, sb, its) && inum < |its|
      requires Kept()
      modifies this`disk, this`logged, this`journal
      ensures Kept()
      ensures disk == Updated(old(disk), sb, its, inum) && logged == old(logged) + {sb.IBlock(inum)}
      ensures PutsNode(old(disk), disk, sb.inodestart, inum, NodeOf(its[inum]))
    {
      UpdatedIs(disk, sb, its, inum);
      hide Kept; hide PutsNode;
      var d := Bread(sb.IBlock(inum));
      LogWrite(sb.IBlock(inum), PutInode(d, inum % IPB, its[inum]));
    }

    // bfree of an owned block that has not been freed yet
    method Release(b: nat, ghost used: set<nat>, ghost was: Disk)
      requires SbOk(disk, sb) && FreeMap(disk, sb, used) && b in used && sb.DataStart() <= b < sb.size
          && MapOnly(was, disk, sb)
      requires Kept()
      modifies this`sb, this`disk, this`logged, this`journal
      ensures Kept()
      ensures sb == old(sb) && SbOk(disk, sb) && FreeMap(disk, sb, used - {b}) && MapOnly(was, disk, sb)
      ensures logged <= old(logged) + MapBlocks(sb)
    {
      hide Kept;
      hide ClearBit; hide Bit;
      assert BitSet(disk, sb, b);
      ClearBitKeeps(disk, sb, used, b);
      var x := sb.BBlock(b);
      assert x in MapBlocks(sb);
      assert sb.bmapstart <= x < sb.DataStart();
      hide FreeMap; hide BitSet;
      var ok := Bfree(b);
      assert ok;
      assert disk[1] == old(disk)[1];
    }

    // The direct blocks; the pointers of the inode as it was are in was.
    method FreeDirect(inum: nat, ghost d0: Disk, ghost was: seq<Inode>)
      requires Owned(d0, sb, was, owner) && SbOk(disk, sb) && FreeMap(disk, sb, owner.Keys) && MapOnly(d0, disk, sb)
      requires its == was && inum < |its|
      requires Kept()
      modifies this`disk, this`sb, this`its, this`logged, this`journal
      ensures Kept()
      ensures sb == old(sb) && SbOk(disk, sb) && MapOnly(d0, disk, sb) && logged <= old(logged) + MapBlocks(sb)
      ensures FreeMap(disk, sb, owner.Keys - OwnedIn(owner, inum, 0, INDIRECT))
      ensures OnlyAddrs(was, its, inum) && |its[inum].addrs| == NDIRECT + 1
      ensures forall t | 0 <= t <= INDIRECT :: its[inum].addrs[t] == if t < NDIRECT then 0 else was[inum].addrs[t]
    {
      hide Kept;
      hide FreeMap; hide MapOnly; hide SlotsOwn; hide OwnersPoint; hide MapBlocks;
      var i := 0;
      assert owner.Keys - OwnedIn(owner, inum, 0, 0) == owner.Keys;
      while i < NDIRECT
        invariant Kept()
        invariant i <= NDIRECT && sb == old(sb) && SbOk(disk, sb) && MapOnly(d0, disk, sb) && owner == old(owner)
        invariant FreeMap(disk, sb, owner.Keys - OwnedIn(owner, inum, 0, i)) && logged <= old(logged) + MapBlocks(sb)
        invariant OnlyAddrs(was, its, inum) && |its[inum].addrs| == NDIRECT + 1
        invariant forall t | 0 <= t <= INDIRECT :: its[inum].addrs[t] == if t < i then 0 else was[inum].addrs[t]
      {
        ghost var used := owner.Keys - OwnedIn(owner, inum, 0, i);
        NextSlot(d0, sb, was, owner, inum, 0, i, used);
        assert owner.Keys - OwnedIn(owner, inum, 0, i + 1) ==
               if its[inum].addrs[i] == 0 then used else used - {its[inum].addrs[i] as nat};
        if its[inum].addrs[i] != 0 {
          Release(its[inum].addrs[i], used, d0);
          its := its[inum := its[inum].(addrs := its[inum].addrs[i := 0])];
        }
        i := i + 1;
      }
    }

    // The indirect block and the blocks it points to.
    method FreeIndirect(inum: nat, ghost d0: Disk, ghost was: seq<Inode>)
      requires Owned(d0, sb, was, owner) && SbOk(disk, sb) && MapOnly(d0, disk, sb) && inum < |was|
      requires FreeMap(disk, sb, owner.Keys - OwnedIn(owner, inum, 0, INDIRECT))
      requires OnlyAddrs(was, its, inum) && |its[inum].addrs| == NDIRECT + 1
      requires its[inum].addrs[INDIRECT] == was[inum].addrs[INDIRECT]
      requires Kept()
      modifies this`disk, this`sb, this`its, this`logged, this`journal
      ensures Kept()
      ensures sb == old(sb) && SbOk(disk, sb) && MapOnly(d0, disk, sb) && logged <= old(logged) + MapBlocks(sb)
      ensures FreeMap(disk, sb, owner.Keys - OwnedIn(owner, inum, 0, SLOTS))
      ensures its == old(its)[inum := old(its)[inum].(addrs := old(its)[inum].addrs[INDIRECT := 0])]
    {
      hide Kept;
      hide FreeMap; hide SlotsOwn; hide OwnersPoint; hide MapBlocks;
      OwnedInAll(d0, sb, was, owner, inum);
      var a := its[inum].addrs[INDIRECT];
      ghost var u0 := owner.Keys - OwnedIn(owner, inum, 0, INDIRECT);
      if a != 0 {
        NextSlot(d0, sb, was, owner, inum, INDIRECT, INDIRECT, u0);
        var d := Bread(a);
        assert d == d0[a];
        hide MapOnly;
        var j := 0;
        assert u0 - OwnedIn(owner, inum, INDIRECT + 1, INDIRECT + 1) == u0;
        while j < NINDIRECT
          invariant Kept()
          invariant j <= NINDIRECT && sb == old(sb) && SbOk(disk, sb) && MapOnly(d0, disk, sb) && owner == old(owner)
          invariant FreeMap(disk, sb, u0 - OwnedIn(owner, inum, INDIRECT + 1, INDIRECT + 1 + j)) && its == old(its)
          invariant logged <= old(logged) + MapBlocks(sb)
        {
          ghost var used := u0 - OwnedIn(owner, inum, INDIRECT + 1, INDIRECT + 1 + j);
          NextSlot(d0, sb, was, owner, inum, INDIRECT + 1, INDIRECT + 1 + j, used);
          assert u0 - OwnedIn(owner, inum, INDIRECT + 1, INDIRECT + 1 + j + 1) ==
                 if d[j] == 0 then used else used - {d[j] as nat};
          if d[j] != 0 {
            Release(d[j], used, d0);
          }
          j := j + 1;
        }
        ghost var used := u0 - OwnedIn(owner, inum, INDIRECT + 1, SLOTS);
        Release(a, used, d0);
        assert used - {a} == owner.Keys - OwnedIn(owner, inum, 0, SLOTS);
        its := its[inum := its[inum].(addrs := its[inum].addrs[INDIRECT := 0])];
      } else {
        assert u0 == owner.Keys - OwnedIn(owner, inum, 0, SLOTS);
        assert its[inum].addrs[INDIRECT := 0] == its[inum].addrs;
      }
    }

    // Truncation frees exactly the blocks of the inode, and leaves it empty in memory and on disk.
    method Itrunc(inum: nat)
      requires Inv() && inum < |its|
      requires Kept()
      modifies this`disk, this`sb, this`its, this`logged, this`journal, this`owner
      ensures Kept()
      ensures Inv() && sb == old(sb)
      ensures owner == Others(old(owner), inum) && its == Emptied(old(its), inum)
      ensures its == old(its)[inum := old(its)[inum].(size := 0, addrs := seq(13, _ => 0))]
      ensures |old(its)[inum].addrs| == 13
           && Unmarks(old(disk), disk, sb.bmapstart, sb.size - sb.nblocks, old(its)[inum].addrs)
      ensures FreeMap(disk, sb, old(owner).Keys - OwnedIn(old(owner), inum, 0, SLOTS))
      ensures forall i: nat | i < |its| :: OnDisk(disk, sb, i) == if i == inum then its[i] else OnDisk(old(disk), sb, i)
      ensures forall i: nat, o: nat {:trigger FileByte(disk, its[i], o)} |
                i < |its| && i != inum && o < MAXFILE * BSIZE ::
                FileByte(disk, its[i], o) == FileByte(old(disk), old(its)[i], o)
      ensures logged <= old(logged) + MapBlocks(sb) + {sb.IBlock(inum)}
    {
      hide Kept;
      hide SlotsOwn; hide OwnersPoint; hide FreeMap; hide MapBlocks; hide AllNoHoles; hide FileByte; hide OnDisk;
      hide Unmarks;
      ghost var d0, was := disk, its;
      FreeDirect(inum, d0, was);
      FreeIndirect(inum, d0, was);
      its := its[inum := its[inum].(size := 0)];
      assert its[inum].addrs == Emptied(was, inum)[inum].addrs;
      assert its == Emptied(was, inum);
      ghost var d1 := disk;
      OwnedInAll(d0, sb, was, owner, inum);
      TruncatedKeeps(d0, d1, sb, was, owner, inum);
      owner := Others(owner, inum);
      IUpdate(inum);
      UpdatedKeeps(d1, sb, its, owner, owner.Keys, inum);
      UpdatedNoHoles(d1, disk, its);
      assert owner.Keys == old(owner).Keys - OwnedIn(old(owner), inum, 0, SLOTS);
      TruncatedMarks(d0, disk, sb, was, old(owner), inum);
      forall i: nat | i < |its|
        ensures OnDisk(disk, sb, i) == if i == inum then its[i] else OnDisk(d0, sb, i)
      {
        UpdatedOnDisk(d1, sb, its, inum, i);
        OnDiskSame(d0, d1, sb, i);
      }
    }

    // What iput does with the last reference to an inode that has no links.
    method Free(inum: nat)
      requires Inv() && inum < |its|
      requires Kept()
      modifies this`disk, this`sb, this`its, this`logged, this`journal, this`owner
      ensures Kept()
      ensures Inv() && sb == old(sb) && owner == Others(old(owner), inum)
      ensures its == Retyped(Emptied(old(its), inum), inum, 0)
      ensures its == old(its)[inum := old(its)[inum].(typ := 0, size := 0, addrs := seq(13, _ => 0))]
      ensures |old(its)[inum].addrs| == 13
           && Unmarks(old(disk), disk, sb.bmapstart, sb.size - sb.nblocks, old(its)[inum].addrs)
      ensures forall i: nat | i < |its| :: OnDisk(disk, sb, i) == if i == inum then its[i] else OnDisk(old(disk), sb, i)
      ensures forall i: nat, o: nat {:trigger FileByte(disk, its[i], o)} |
                i < |its| && i != inum && o < MAXFILE * BSIZE ::
                FileByte(disk, its[i], o) == FileByte(old(disk), old(its)[i], o)
      ensures logged <= old(logged) + MapBlocks(sb) + {sb.IBlock(inum)}
    {
      hide Kept; hide SlotsOwn; hide OwnersPoint; hide FreeMap; hide MapBlocks; hide AllNoHoles; hide FileByte;
      hide OnDisk; hide Emptied; hide Others; hide Unmarks;
      ghost var d0, its0, owner0 := disk, its, owner;
      OwnedInAll(d0, sb, its0, owner0, inum);
      Itrunc(inum);
      ghost var d1, its1 := disk, its;
      RetypedKeeps(disk, sb, its, owner, inum, 0);
      its := its[inum := its[inum].(typ := 0)];
      IUpdate(inum);
      UpdatedKeeps(d1, sb, its, owner, owner.Keys, inum);
      UpdatedNoHoles(d1, disk, its);
      TruncatedMarks(d0, disk, sb, its0, owner0, inum);
      forall i: nat | i < |its|
        ensures OnDisk(disk, sb, i) == if i == inum then its[i] else OnDisk(d0, sb, i)
      {
        UpdatedOnDisk(d1, sb, its, inum, i);
      }
      forall i: nat, o: nat | i < |its| && i != inum && o < MAXFILE * BSIZE
        ensures FileByte(disk, its[i], o) == FileByte(d0, its0[i], o)
      {
        assert FileByte(disk, its[i], o) == FileByte(d1, its1[i], o);
      }
    }

    // ---------------------------------------------------------------- readi and writei

    // One turn of readi's loop: m bytes of the file from o on, out of one block.
    method ReadTurn(inum: nat, o: nat, m: nat) returns (ok: bool, part: seq<Byte>)
      requires Inv() && inum < |its| && o % BSIZE + m <= BSIZE && m > 0 && o + m <= its[inum].size
      requires Kept()
      modifies this`disk, this`its, this`owner, this`logged, this`journal
      ensures Kept()
      ensures ok && disk == old(disk) && its == old(its) && owner == old(owner) && logged == old(logged)
      ensures |part| == m && part == Contents(disk, its[inum])[o..o + m]
    {
      hide Kept; hide PointersKept;
      hide SlotsOwn; hide OwnersPoint; hide FreeMap; hide FileByte; hide Ptr; hide Grown; hide DiskFull; hide Unpack;
      assert NoHoles(disk, its[inum]);
      hide AllNoHoles; hide Contents;
      var addr;
      assert o / BSIZE * BSIZE < its[inum].size;
      ok, addr := Bmap(inum, o / BSIZE);
      OwnedPtr(disk, sb, its, owner, inum, SlotOf(o / BSIZE));
      var d := Bread(addr);
      BlockBytes(disk, its[inum], o, m, addr);
      part := Unpack(d)[o % BSIZE..o % BSIZE + m];
    }

    // Reading returns the stretch of the contents that is asked for and there, and changes nothing:
    // bmap finds every block, so it never allocates here.
    method Readi(inum: nat, off: Uint, n: Uint, devsw: map<nat, (int, seq<Byte>)>)
      returns (ok: bool, r: int, dst: seq<Byte>)
      requires Inv() && inum < |its|
      requires Kept()
      modifies this`disk, this`its, this`owner, this`logged, this`journal
      ensures Kept()
      ensures ok && disk == old(disk) && its == old(its) && owner == old(owner) && logged == old(logged)
      ensures its[inum].typ == 3 ==> (r, dst) == Driver(its[inum], devsw, (-1, []))
      ensures its[inum].typ != 3 && (off > its[inum].size || off + n >= 0x1_0000_0000) ==> r == -1
      ensures its[inum].typ != 3 && off <= its[inum].size && off + n < 0x1_0000_0000 ==>
                && r == |dst| == Min(off + n, its[inum].size) - off
                && dst == Contents(disk, its[inum])[off..Min(off + n, its[inum].size)]
                && |its[inum].addrs| == 13 && HasBytes(disk, its[inum].addrs, off, dst)
    {
      hide Kept; hide HasBytes; hide PointersKept;
      hide SlotsOwn; hide OwnersPoint; hide FreeMap; hide FileByte; hide Ptr; hide Grown; hide DiskFull; hide Unpack;
      if its[inum].typ == T_DEV {
        var answer := Driver(its[inum], devsw, (-1, []));
        return true, answer.0, answer.1;
      }
      if off > its[inum].size || (off + n) % UINT < off {
        return true, -1, [];
      }
      var n' := if off + n > its[inum].size then its[inum].size - off else n;
      ghost var c := Contents(disk, its[inum]);
      assert NoHoles(disk, its[inum]);
      ContentsAre(disk, sb, its, owner, inum, off, n');
      hide AllNoHoles; hide Contents;
      dst := [];
      var tot, o := 0, off;
      while tot < n'
        invariant Kept()
        invariant tot <= n' && o == off + tot && dst == c[off..off + tot]
        invariant disk == old(disk) && its == old(its) && owner == old(owner) && logged == old(logged)
        decreases n' - tot
      {
        var m := Min(n' - tot, BSIZE - o % BSIZE);
        var part;
        ok, part := ReadTurn(inum, o, m);
        dst := dst + part;
        assert c[off..off + tot] + c[o..o + m] == c[off..o + m];
        tot := tot + m;
        o := o + m;
      }
      ok, r := true, n';
    }

    // One turn of writei's loop: more goes to offset o, within one block.
    method WriteTurn(inum: nat, more: seq<Byte>, o: nat) returns (ok: bool, ghost x: nat, ghost mid: Disk)
      requires Owned(disk, sb, its, owner) && FreeMap(disk, sb, owner.Keys) && inum < |its|
      requires o < MAXFILE * BSIZE && o % BSIZE + |more| <= BSIZE
      requires Kept()
      modifies this`disk, this`its, this`owner, this`logged, this`journal
      ensures Kept()
      ensures !ok ==> DiskFull(sb, owner)
      ensures ok ==> Grown(old(disk), old(its), old(owner), mid, its, owner, sb, inum)
      ensures ok ==> |its[inum].addrs| == NDIRECT + 1 && x == Ptr(mid, its[inum], SlotOf(o / BSIZE)) && 0 < x < |mid|
      ensures ok ==>
                disk == mid[x := Splice(mid[x], o % BSIZE, more)] && |disk| == sb.size && FreeMap(disk, sb, owner.Keys)
      ensures ok ==> logged <= old(logged) + MapBlocks(sb) + {x} + IndirectSet(its[inum])
      ensures Ptr(old(disk), old(its)[inum], SlotOf(o / BSIZE)) != 0 ==> ok && its == old(its)
      ensures ok ==> PointersKept(old(disk), old(its)[inum].addrs, disk, its[inum].addrs, o / 512, o / 512 + 1)
    {
      hide Kept; hide PointersKept;
      hide Grown; hide FreeMap; hide Ptr; hide DiskFull; hide Splice; hide SlotOf; hide SlotsOwn; hide OwnersPoint;
      hide MapBlocks;
      var addr;
      ok, addr := Bmap(inum, o / BSIZE);
      mid, x := disk, addr;
      if ok {
        GrownEnd(old(disk), old(its), old(owner), disk, its, owner, sb, inum);
        OwnedPtr(disk, sb, its, owner, inum, SlotOf(o / BSIZE));
        var d := Bread(addr);
        OtherWriteKeepsMap(disk, sb, owner.Keys, addr, Splice(d, o % BSIZE, more));
        PointersStay(disk, sb, its, owner, inum, o / BSIZE, Splice(d, o % BSIZE, more));
        LogWrite(addr, Splice(d, o % BSIZE, more));
        PointersThen(old(disk), old(its)[inum].addrs, mid, its[inum].addrs, disk, its[inum].addrs, o / BSIZE,
          o / BSIZE + 1);
      }
    }

    // writei's loop.
    method WriteBlocks(inum: nat, src: seq<Byte>, off: nat) returns (ok: bool)
      requires Owned(disk, sb, its, owner) && FreeMap(disk, sb, owner.Keys) && inum < |its|
      requires off <= its[inum].size && off + |src| <= MAXFILE * BSIZE && Mapped(disk, its[inum], its[inum].size)
      requires Kept()
      modifies this`disk, this`its, this`owner, this`logged, this`journal
      ensures Kept()
      ensures !ok ==> DiskFull(sb, owner)
      ensures ok ==> Writing(old(disk), old(its), disk, its, owner, sb, inum, off, src) && FreeMap(disk, sb, owner.Keys)
      ensures ok ==> Mapped(disk, its[inum], Max(old(its[inum].size), off + |src|))
      ensures ok ==> its == old(its) || off + |src| > old(its[inum].size)
      ensures !ok ==> off + |src| > old(its[inum].size)
      ensures ok ==> logged <= old(logged) + MapBlocks(sb) + IndirectSet(its[inum])
                                 + FileBlocks(disk, its[inum], off / BSIZE, Ceil(off + |src|))
      ensures ok ==>
        PointersKept(old(disk), old(its)[inum].addrs, disk, its[inum].addrs, off / 512, (off + |src| + 511) / 512)
    {
      hide Kept; hide PointersKept;
      hide FreeMap; hide Ptr; hide DiskFull; hide Splice; hide SlotOf; hide SlotsOwn; hide OwnersPoint; hide MapBlocks;
      hide FilesWritten; hide SameFiles; hide Mapped; hide PtrsKept; hide FileBlocks; hide IndirectSet; hide Grown;
      ghost var d0, its0, size := disk, its, its[inum].size;
      var tot, o, n := 0, off, |src|;
      WritingNothing(disk, its, owner, sb, inum, off);
      PointersSame(disk, its[inum].addrs, off / 512, (off + 511) / 512);
      assert src[..0] == [];
      while tot < n
        invariant Kept()
        invariant tot <= n && o == off + tot
        invariant Writing(d0, its0, disk, its, owner, sb, inum, off, src[..tot]) && FreeMap(disk, sb, owner.Keys)
        invariant Mapped(disk, its[inum], if o > size then o else size)
        invariant its == its0 || o > size
        invariant PointersKept(d0, its0[inum].addrs, disk, its[inum].addrs, off / 512, (o + 511) / 512)
        invariant logged <= old(logged) + MapBlocks(sb) + IndirectSet(its[inum])
            + FileBlocks(disk, its[inum], off / BSIZE, Ceil(o))
        decreases n - tot
      {
        var m := Min(n - tot, BSIZE - o % BSIZE);
        ghost var d1, its1, own1 := disk, its, owner;
        ghost var x, mid;
        if o < size {
          MappedPtr(disk, its[inum], size, o);
        }
        ok, x, mid := WriteTurn(inum, src[tot..tot + m], o);
        if !ok {
          return;
        }
        WritingTurn(d0, its0, d1, its1, own1, mid, its, owner, sb, inum, off, src[..tot], x, src[tot..tot + m]);
        assert src[..tot] + src[tot..tot + m] == src[..tot + m];
        MappedTurn(d1, its1, disk, its, inum, size, o, m);
        LoggedTurn(d1, its1, disk, its, inum, off, o, m, x, size);
        PointersTrans(d0, its0[inum].addrs, d1, its1[inum].addrs, disk, its[inum].addrs, off / 512, (o + 511) / 512,
          o / 512);
        LastTurn(o, m);
        tot := tot + m;
        o := o + m;
      }
      assert src[..tot] == src;
      ok := true;
    }

    // Writing splices src into the contents of the file at off; no other file changes, the free map
    // and the ownership of blocks stay right, and the inode on disk keeps up with the one in memory.
    method Writei(inum: nat, src: seq<Byte>, off: Uint, devsw: map<nat, int>) returns (ok: bool, r: int)
      requires Inv() && inum < |its| && |src| < UINT
      requires Kept()
      modifies this`disk, this`its, this`owner, this`logged, this`journal
      ensures Kept()
      ensures !ok ==> DiskFull(sb, owner)
      ensures !ok ==> off + |src| > old(its[inum].size)
      ensures ok ==> Inv() && |its| == old(|its|)
      ensures ok ==> forall i: nat | i < |its| && i != inum ::
                its[i] == old(its)[i] && OnDisk(disk, sb, i) == OnDisk(old(disk), sb, i)
      ensures ok ==> its[inum] == old(its)[inum].(addrs := its[inum].addrs, size := its[inum].size)
      ensures old(its[inum].typ) == 3 ==>
                && ok && r == Driver(old(its)[inum], devsw, -1)
                && disk == old(disk) && its == old(its) && owner == old(owner) && logged == old(logged)
      ensures ok && old(its[inum].typ) != 3 && (off > old(its[inum].size) || off + |src| > 140 * 512) ==>
                r == -1 && disk == old(disk) && its == old(its) && owner == old(owner) && logged == old(logged)
      ensures ok && old(its[inum].typ) != 3 && off <= old(its[inum].size) && off + |src| <= 140 * 512 ==>
                && r == |src| && FilesWritten(old(disk), old(its), disk, its, inum, off, src)
                && Contents(disk, its[inum]) == SpliceFile(Contents(old(disk), old(its)[inum]), off, src)
                && its[inum].size == Max(old(its[inum].size), off + |src|)
                && |its[inum].addrs| == 13 && HasBytes(disk, its[inum].addrs, off, src)
      ensures ok && off + |src| <= 140 * 512 ==>
        PointersKept(old(disk), old(its)[inum].addrs, disk, its[inum].addrs, off / 512, (off + |src| + 511) / 512)
      ensures ok && OnDisk(old(disk), sb, inum) == old(its)[inum] ==> OnDisk(disk, sb, inum) == its[inum]
      ensures ok ==> logged <= old(logged) + WriteSet(disk, sb, its[inum], inum, off, |src|)
    {
      hide Kept; hide PointersKept;
      hide SlotsOwn; hide OwnersPoint; hide FreeMap; hide FileByte; hide Ptr; hide DiskFull; hide Contents; hide OnDisk;
      hide AllNoHoles; hide FilesWritten; hide SpliceFile; hide MapBlocks; hide FileBlocks; hide IndirectSet;
      hide Writing;
      hide Mapped; hide HasBytes;
      var n := |src|;
      PointersSame(disk, its[inum].addrs, off / 512, (off + n + 511) / 512);
      if its[inum].typ == T_DEV {
        return true, Driver(its[inum], devsw, -1);
      }
      if off > its[inum].size || (off + n) % UINT < off {
        return true, -1;
      }
      if off + n > MAXFILE * BSIZE {
        return true, -1;
      }
      ghost var d0, its0 := disk, its;
      NoHolesAt(disk, its, inum);
      ok := WriteBlocks(inum, src, off);
      if !ok {
        return false, -1;
      }
      ghost var d1, its1 := disk, its;
      WritingParts(d0, its0, d1, its1, owner, sb, inum, off, src);
      if n > 0 && off + n > its[inum].size {
        its := Resized(its, inum, off + n);
        IUpdate(inum);
        WriteGrew(d0, its0, d1, its1, owner, sb, inum, off, src);
        UpdateKeeps(d1, sb, its1, owner, its, inum);
        PointersThen(d0, its0[inum].addrs, d1, its[inum].addrs, disk, its[inum].addrs, off / 512,
          (off + n + 511) / 512);
      } else {
        WriteKept(d0, its0, d1, its1, owner, sb, inum, off, src);
      }
      WrittenContents(d0, its0, disk, its, inum, off, src);
      WrittenBytes(disk, sb, its, owner, inum, Contents(d0, its0[inum]), off, src);
      r := n;
    }
  }

  lemma WritingParts(d0: Disk, its0: seq<Inode>, d1: Disk, its1: seq<Inode>, owner: map<nat, Slot>, sb: Superblock,
                     inum: nat, off: nat, src: seq<Byte>)
    requires Writing(d0, its0, d1, its1, owner, sb, inum, off, src)
    ensures Owned(d1, sb, its1, owner) && OnlyAddrs(its0, its1, inum) && Shape(d0, sb, its0)
    ensures forall i: nat | i < |its0| :: OnDisk(d1, sb, i) == OnDisk(d0, sb, i)
  {
    hide OnDisk; hide FilesWritten; hide PtrsKept; hide SlotsOwn; hide OwnersPoint; hide SameOnDisk;
    forall i: nat | i < |its0|
      ensures OnDisk(d1, sb, i) == OnDisk(d0, sb, i)
    {
      OnDiskSame(d0, d1, sb, i);
    }
  }

  // A write inside the file needs no new blocks.
  lemma WriteKept(d0: Disk, its0: seq<Inode>, d1: Disk, its1: seq<Inode>, owner: map<nat, Slot>, sb: Superblock,
                  inum: nat, off: nat, src: seq<Byte>)
    requires Writing(d0, its0, d1, its1, owner, sb, inum, off, src) && AllNoHoles(d0, its0)
    ensures AllNoHoles(d1, its1) && FilesWritten(d0, its0, d1, its1, inum, off, src)
  {
    hide FilesWritten; hide PtrsKept; hide SlotsOwn; hide OwnersPoint; hide SameOnDisk; hide AllNoHoles;
    KeptNoHoles(d0, its0, d1, its1);
  }

  lemma WriteGrew(d0: Disk, its0: seq<Inode>, d1: Disk, its1: seq<Inode>, owner: map<nat, Slot>, sb: Superblock,
                  inum: nat, off: nat, src: seq<Byte>)
    requires Writing(d0, its0, d1, its1, owner, sb, inum, off, src) && AllNoHoles(d0, its0)
        && FreeMap(d1, sb, owner.Keys)
    requires off + |src| <= MAXFILE * BSIZE && Mapped(d1, its1[inum], off + |src|)
    ensures var its2 := Resized(its1, inum, off + |src|); var d2 := Updated(d1, sb, its2, inum);
      && Owned(d2, sb, its2, owner) && FreeMap(d2, sb, owner.Keys) && AllNoHoles(d2, its2)
      && FilesWritten(d0, its0, d2, its2, inum, off, src)
      && IndirectSet(its2[inum]) == IndirectSet(its1[inum])
      && FileBlocks(d2, its2[inum], off / BSIZE, Ceil(off + |src|)) ==
           FileBlocks(d1, its1[inum], off / BSIZE, Ceil(off + |src|))
      && forall i: nat | i < |its2| :: OnDisk(d2, sb, i) == if i == inum then its2[i] else OnDisk(d0, sb, i)
  {
    hide FilesWritten; hide PtrsKept; hide SlotsOwn; hide OwnersPoint; hide AllNoHoles; hide Updated; hide Resized;
    hide SameFiles; hide OnDisk; hide FreeMap; hide FileBlocks; hide IndirectSet; hide Ptr; hide SameOnDisk;
    hide SlotOf;
    var its2 := Resized(its1, inum, off + |src|);
    var d2 := Updated(d1, sb, its2, inum);
    ResizedKeeps(d1, sb, its1, owner, inum, off + |src|);
    UpdatedKeeps(d1, sb, its2, owner, owner.Keys, inum);
    WrittenSame(d0, its0, d1, its1, d1, its2, inum, off, src);
    WrittenSame(d0, its0, d1, its2, d2, its2, inum, off, src);
    KeptNoHoles(d0, its0, d1, its1);
    ResizedNoHoles(d1, its1, inum, off + |src|);
    UpdatedNoHoles(d1, d2, its2);
    SameBlocks(d1, its1, its2, d2, inum, off / BSIZE, Ceil(off + |src|));
    WritingParts(d0, its0, d1, its1, owner, sb, inum, off, src);
    forall i: nat | i < |its2|
      ensures OnDisk(d2, sb, i) == if i == inum then its2[i] else OnDisk(d0, sb, i)
    {
      UpdatedOnDisk(d1, sb, its2, inum, i);
    }
  }

  lemma WrittenSame(d0: Disk, its0: seq<Inode>, d1: Disk, its1: seq<Inode>, d2: Disk, its2: seq<Inode>,
                    inum: nat, off: nat, src: seq<Byte>)
    requires |its0| == |its1| == |its2|
    requires forall i | 0 <= i < |its0| :: |its0[i].addrs| == |its1[i].addrs| == |its2[i].addrs| == NDIRECT + 1
    requires FilesWritten(d0, its0, d1, its1, inum, off, src) && SameFiles(d1, its1, d2, its2)
    ensures FilesWritten(d0, its0, d2, its2, inum, off, src)
  {
    hide FileByte;
  }

  lemma ResizedNoHoles(disk: Disk, its: seq<Inode>, inum: nat, size: Uint)
    requires forall i | 0 <= i < |its| :: |its[i].addrs| == NDIRECT + 1
    requires AllNoHoles(disk, its) && inum < |its| && size <= MAXFILE * BSIZE && Mapped(disk, its[inum], size)
    ensures AllNoHoles(disk, Resized(its, inum, size))
  {
    var its' := Resized(its, inum, size);
    forall s: nat | s < SLOTS
      ensures Ptr(disk, its'[inum], s) == Ptr(disk, its[inum], s)
    {}
    hide Ptr; hide SlotOf;
    forall i | 0 <= i < |its|
      ensures NoHoles(disk, its'[i])
    {
      assert NoHoles(disk, its[i]);
    }
  }

  // The blocks of the file do not depend on its size, nor on writes outside of it.
  lemma SameBlocks(d1: Disk, its1: seq<Inode>, its2: seq<Inode>, d2: Disk, inum: nat, lo: nat, hi: nat)
    requires inum < |its1| == |its2|
    requires forall i | 0 <= i < |its1| :: |its1[i].addrs| == |its2[i].addrs| == NDIRECT + 1
    requires its1[inum].addrs == its2[inum].addrs && PtrsKept(d1, its2, d2, its2)
    requires forall bn: nat | lo <= bn < hi && bn < MAXFILE :: Ptr(d1, its1[inum], SlotOf(bn)) != 0
    ensures FileBlocks(d2, its2[inum], lo, hi) == FileBlocks(d1, its1[inum], lo, hi)
    ensures IndirectSet(its2[inum]) == IndirectSet(its1[inum])
  {
    forall bn: nat | lo <= bn < hi && bn < MAXFILE
      ensures Ptr(d2, its2[inum], SlotOf(bn)) == Ptr(d1, its1[inum], SlotOf(bn))
    {
      assert Ptr(d1, its2[inum], SlotOf(bn)) == Ptr(d1, its1[inum], SlotOf(bn));
    }
    hide Ptr; hide SlotOf;
  }

  lemma GrownEnd(disk: Disk, its: seq<Inode>, owner: map<nat, Slot>, disk': Disk, its': seq<Inode>,
                 owner': map<nat, Slot>, sb: Superblock, inum: nat)
    requires Grown(disk, its, owner, disk', its', owner', sb, inum)
    ensures Owned(disk', sb, its', owner') && OnlyAddrs(its, its', inum)
  {}

  lemma IndirectSame(disk: Disk, disk': Disk, ip: Inode)
    requires |ip.addrs| == NDIRECT + 1 && 0 < ip.addrs[INDIRECT] < |disk| == |disk'|
    requires forall s: nat | s < SLOTS :: Ptr(disk', ip, s) == Ptr(disk, ip, s)
    ensures disk'[ip.addrs[INDIRECT]] == disk[ip.addrs[INDIRECT]]
  {
    var a := ip.addrs[INDIRECT];
    forall k | 0 <= k < WORDS
      ensures disk'[a][k] == disk[a][k]
    {
      assert Ptr(disk', ip, k + INDIRECT + 1) == Ptr(disk, ip, k + INDIRECT + 1);
    }
  }

  lemma IndirectBlock(disk: Disk, sb: Superblock, its: seq<Inode>, owner: map<nat, Slot>, i: nat)
    requires Owned(disk, sb, its, owner) && i < |its|
    ensures its[i].addrs[INDIRECT] < |disk|
  {
    OwnedPtr(disk, sb, its, owner, i, INDIRECT);
  }

  lemma WithEntryIs(disk: Disk, a: nat, j: nat, b: Uint)
    requires a < |disk| && j < NINDIRECT
    ensures WithEntry(disk, a, j, b) == disk[a := disk[a][j := b]]
  {}

  lemma EntryMap(disk: Disk, sb: Superblock, used: set<nat>, a: nat, d: Block, its: seq<Inode>, owner: map<nat, Slot>,
                 i: nat)
    requires Owned(disk, sb, its, owner) && FreeMap(disk, sb, used) && i < |its| && 0 < a == its[i].addrs[INDIRECT]
    ensures a < sb.size && FreeMap(disk[a := d], sb, used)
  {
    OwnedPtr(disk, sb, its, owner, i, INDIRECT);
    OtherWriteKeepsMap(disk, sb, used, a, d);
  }

  lemma OnDiskSame(disk: Disk, disk': Disk, sb: Superblock, i: nat)
    requires sb.Ok() && |disk| == |disk'| == sb.size && SameOnDisk(disk, disk', sb) && i < sb.ninodes
    ensures OnDisk(disk', sb, i) == OnDisk(disk, sb, i)
  {
    hide DInode;
  }

  // What a slot of the inode being truncated points to is in use until it is freed.
  lemma NextSlot(disk: Disk, sb: Superblock, its: seq<Inode>, owner: map<nat, Slot>, i: nat, lo: nat, s: nat,
                 used: set<nat>)
    requires Owned(disk, sb, its, owner) && i < |its| && lo <= s < SLOTS && |its[i].addrs| == NDIRECT + 1
    requires forall b | b in owner && owner[b] == Slot(i, s) :: b in used
    ensures var p := Ptr(disk, its[i], s);
      && OwnedIn(owner, i, lo, s + 1) == OwnedIn(owner, i, lo, s) + (if p == 0 then {} else {p})
      && (p != 0 ==> p in used && sb.DataStart() <= p < sb.size && p in owner && owner[p] == Slot(i, s))
  {
    hide Ptr;
    OwnedInNext(disk, sb, its, owner, i, lo, s);
    OwnedPtr(disk, sb, its, owner, i, s);
  }

  lemma TruncatedKeeps(d0: Disk, d1: Disk, sb: Superblock, its: seq<Inode>, owner: map<nat, Slot>, inum: nat)
    requires Owned(d0, sb, its, owner) && MapOnly(d0, d1, sb) && inum < |its| && AllNoHoles(d0, its)
    ensures Owned(d1, sb, Emptied(its, inum), Others(owner, inum)) && AllNoHoles(d1, Emptied(its, inum))
    ensures SameFiles(d0, its, d1, its) && SameOnDisk(d0, d1, sb)
  {
    hide Ptr; hide SlotsOwn; hide OwnersPoint; hide FileByte;
    MapOnlyKeeps(d0, d1, sb, its, owner);
    EmptiedKeepsOwned(d1, sb, its, owner, inum);
    KeptNoHoles(d0, its, d1, its);
    forall i | 0 <= i < |its|
      ensures NoHoles(d1, Emptied(its, inum)[i])
    {
      assert NoHoles(d1, its[i]);
    }
  }

  // ip->type = typ
  function Retyped(its: seq<Inode>, inum: nat, typ: Short): (r: seq<Inode>)
    requires inum < |its|
    ensures |r| == |its| && forall k | 0 <= k < |its| && k != inum :: r[k] == its[k]
    ensures r[inum].addrs == its[inum].addrs && r[inum].size == its[inum].size
  {
    its[inum := its[inum].(typ := typ)]
  }

  lemma RetypedKeeps(disk: Disk, sb: Superblock, its: seq<Inode>, owner: map<nat, Slot>, inum: nat, typ: Short)
    requires Owned(disk, sb, its, owner) && inum < |its| && AllNoHoles(disk, its)
    ensures var its' := Retyped(its, inum, typ);
      && Owned(disk, sb, its', owner) && AllNoHoles(disk, its')
      && SameFiles(disk, its, disk, its')
  {
    var its' := Retyped(its, inum, typ);
    forall i: nat, s: nat | i < |its| && s < SLOTS
      ensures Ptr(disk, its'[i], s) == Ptr(disk, its[i], s)
    {}
    hide Ptr; hide SlotOf; hide Unpack;
    assert SlotsOwn(disk, its', owner) && OwnersPoint(disk, sb, its', owner);
    hide SlotsOwn; hide OwnersPoint; hide FileByte;
    KeptNoHoles(disk, its, disk, its');
  }

  lemma KeptNoHoles(disk: Disk, its: seq<Inode>, disk': Disk, its': seq<Inode>)
    requires |its| == |its'|
    requires forall i | 0 <= i < |its| ::
               |its[i].addrs| == |its'[i].addrs| == NDIRECT + 1 && its[i].size == its'[i].size
    requires PtrsKept(disk, its, disk', its') && AllNoHoles(disk, its)
    ensures AllNoHoles(disk', its')
  {
    hide Ptr; hide SlotOf;
    forall i | 0 <= i < |its|
      ensures NoHoles(disk', its'[i])
    {
      assert NoHoles(disk, its[i]);
    }
  }

  lemma UpdatedNoHoles(disk: Disk, disk': Disk, its: seq<Inode>)
    requires forall i | 0 <= i < |its| :: |its[i].addrs| == NDIRECT + 1
    requires PtrsKept(disk, its, disk', its) && AllNoHoles(disk, its)
    ensures AllNoHoles(disk', its)
  {
    hide AllNoHoles; hide PtrsKept;
    KeptNoHoles(disk, its, disk', its);
  }

  lemma BlockByte(disk: Disk, ip: Inode, o: nat, addr: nat, k: nat)
    requires |ip.addrs| == NDIRECT + 1 && o % BSIZE + k < BSIZE && o + k < MAXFILE * BSIZE
    requires addr == Ptr(disk, ip, SlotOf(o / BSIZE)) && 0 < addr < |disk|
    ensures Unpack(disk[addr])[o % BSIZE + k] == FileByte(disk, ip, o + k)
  {
    hide Ptr; hide Unpack; hide SlotOf;
    assert (o + k) / BSIZE == o / BSIZE && (o + k) % BSIZE == o % BSIZE + k;
  }

  lemma BlockBytes(disk: Disk, ip: Inode, o: nat, m: nat, addr: nat)
    requires |ip.addrs| == NDIRECT + 1 && ip.size <= MAXFILE * BSIZE && o + m <= ip.size && o % BSIZE + m <= BSIZE
        && m > 0
    requires addr == Ptr(disk, ip, SlotOf(o / BSIZE)) && 0 < addr < |disk|
    ensures Unpack(disk[addr])[o % BSIZE..o % BSIZE + m] == Contents(disk, ip)[o..o + m]
  {
    hide Ptr; hide Unpack; hide SlotOf; hide FileByte;
    var s := Unpack(disk[addr])[o % BSIZE..o % BSIZE + m];
    var t := Contents(disk, ip)[o..o + m];
    forall k: nat | k < m
      ensures s[k] == t[k]
    {
      BlockByte(disk, ip, o, addr, k);
    }
  }

  lemma NoHolesAt(disk: Disk, its: seq<Inode>, i: nat)
    requires forall i | 0 <= i < |its| :: |its[i].addrs| == NDIRECT + 1
    requires AllNoHoles(disk, its) && i < |its|
    ensures its[i].size <= MAXFILE * BSIZE && Mapped(disk, its[i], its[i].size)
  {
    assert NoHoles(disk, its[i]);
  }

  // Every data block has an owner.
  predicate DiskFull(sb: Superblock, owner: map<nat, Slot>) {
    forall c: nat | sb.DataStart() <= c < sb.size :: c in owner
  }

  lemma FullMap(disk: Disk, sb: Superblock, owner: map<nat, Slot>)
    requires sb.Ok() && |disk| == sb.size && FreeMap(disk, sb, owner.Keys)
    requires forall c: nat | c < sb.size :: BitSet(disk, sb, c)
    ensures DiskFull(sb, owner)
  {
    hide BitSet;
    forall c: nat | sb.DataStart() <= c < sb.size
      ensures c in owner
    {
      assert BitSet(disk, sb, c);
    }
  }

  lemma FreshBlock(disk: Disk, sb: Superblock, owner: map<nat, Slot>, b: nat)
    requires Fresh(disk, sb, owner, b)
    ensures 0 < b < UINT && b !in owner && sb.DataStart() <= b < sb.size <= |disk| && disk[b] == ZeroBlock()
  {}
}
