/** The buffer cache: a doubly linked ring of buffers through a list head, kept in order of last
    release, over a disk whose blocks are read and written whole. */
module Bio {
  import opened Blocks

  // What a buffer holds, apart from its links.
  datatype Info = Info(
    dev: nat,
    blockno: nat,
    valid: bool,    // B_VALID
    dirty: bool,    // B_DIRTY
    locked: bool,   // held in the sleep lock
    refcnt: nat,
    data: Block)
  {
    predicate Free() {
      refcnt == 0 && !dirty
    }

    predicate Is(d: nat, b: nat) {
      dev == d && blockno == b
    }
  }

  class Buf {
    var prev: Buf
    var next: Buf
    var info: Info

    constructor ()
    {
      prev, next := this, this;
      info := Info(0, 0, false, false, false, 0, seq(WORDS, _ => 0));
    }
  }

  type Infos = map<Buf, Info>

  // ---------------------------------------------------------------- the cache as a value

  // `touched` are the buffers whose data changed since they were last logged or written.
  ghost predicate FlagsOk(m: Infos, touched: set<Buf>, nblocks: nat) {
    && (forall x | x in m :: (m[x].dirty ==> m[x].valid) && (m[x].valid ==> m[x].dev == 1 && m[x].blockno < nblocks))
    && (forall x | x in m :: m[x].locked ==> m[x].refcnt > 0)
    && (forall x | x in touched :: x in m && m[x].locked && m[x].valid)
  }

  // No two buffers hold the same block of a real device.
  ghost predicate Distinct(m: Infos) {
    forall x, y | x in m && y in m && x != y && m[x].dev == m[y].dev >= 1 :: m[x].blockno != m[y].blockno
  }

  ghost predicate Cached(m: Infos, n: nat) {
    exists x | x in m :: m[x].valid && m[x].blockno == n
  }

  // The logical contents of a block are those of its valid buffer, or else of the disk; and a
  // buffer that is neither pinned nor being changed agrees with the disk.
  ghost predicate DataOk(m: Infos, touched: set<Buf>, disk: Disk, logical: Disk) {
    && |logical| == |disk|
    && (forall x | x in m && m[x].valid && m[x].blockno < |disk| :: m[x].data == logical[m[x].blockno])
    && (forall x | x in m && m[x].valid && m[x].blockno < |disk| && !m[x].dirty && x !in touched ::
          m[x].data == disk[m[x].blockno])
    && (forall n: nat | n < |disk| && !Cached(m, n) :: logical[n] == disk[n])
  }

  // The ring is in order of last release, most recent first.
  // `released` is when each buffer last moved to the front.
  ghost predicate OrderOk(released: map<Buf, int>, ring: seq<Buf>, clock: int) {
    && (forall i | 1 <= i < |ring| - 1 :: ring[i] in released && released[ring[i]] < clock)
    && (forall i, j | 1 <= i < j < |ring| - 1 :: released[ring[i]] > released[ring[j]])
  }

  ghost predicate CacheOk(m: Infos, touched: set<Buf>, disk: Disk, logical: Disk) {
    FlagsOk(m, touched, |disk|) && Distinct(m) && DataOk(m, touched, disk, logical)
  }

  // binit: the list in reverse order of storage, and nothing cached.
  lemma FreshRing(storage: seq<Buf>, ring: seq<Buf>, released: map<Buf, int>, head: Buf)
    requires |ring| == |storage| + 2 && ring[0] == head == ring[|ring| - 1] && head !in storage
    requires forall i | 1 <= i <= |storage| ::
               ring[i] == storage[|storage| - i] && ring[i] in released && released[ring[i]] == |storage| - i
    ensures MembersOk(ring, head, set x | x in storage) && OrderOk(released, ring, |storage|)
  {
    assert forall i | 0 <= i < |storage| :: storage[i] == ring[|storage| - i];
  }

  lemma FreshCache(m: Infos, disk: Disk)
    requires forall x | x in m :: !m[x].valid && !m[x].dirty && !m[x].locked && m[x].dev == 0
    ensures CacheOk(m, {}, disk, disk)
  {}

  lemma CachedMono(m: Infos, m': Infos)
    requires forall x | x in m && m[x].valid :: x in m' && m'[x].valid && m'[x].blockno == m[x].blockno
    ensures forall n | Cached(m, n) :: Cached(m', n)
  {
    forall n | Cached(m, n)
      ensures Cached(m', n)
    {
      var x: Buf :| x in m && m[x].valid && m[x].blockno == n;
      assert m'[x].valid && m'[x].blockno == n;
    }
  }

  // Taking another reference to a buffer changes the logical contents of no block.
  lemma HitKeeps(m: Infos, t: set<Buf>, disk: Disk, logical: Disk, r: Buf, i: Info)
    requires CacheOk(m, t, disk, logical) && r in m
    requires i == m[r].(refcnt := m[r].refcnt + 1, locked := true)
    ensures CacheOk(m[r := i], t, disk, logical)
  {
    CachedMono(m, m[r := i]);
  }

  lemma LockKeeps(m: Infos, t: set<Buf>, disk: Disk, logical: Disk, r: Buf, i: Info)
    requires CacheOk(m, t, disk, logical) && r in m && m[r].refcnt > 0 && i == m[r].(locked := true)
    ensures CacheOk(m[r := i], t, disk, logical)
  {
    CachedMono(m, m[r := i]);
  }

  // Nor does taking a free buffer away from its old block.
  lemma RecycleKeeps(m: Infos, t: set<Buf>, disk: Disk, logical: Disk, r: Buf, i: Info)
    requires CacheOk(m, t, disk, logical) && r in m && m[r].Free() && i.dev >= 1
    requires forall x | x in m :: !m[x].Is(i.dev, i.blockno)
    requires !i.valid && !i.dirty && i.refcnt == 1
    ensures CacheOk(m[r := i], t, disk, logical)
  {
    var m' := m[r := i];
    assert m[r].valid ==> r !in t && m[r].data == disk[m[r].blockno] == logical[m[r].blockno];
    forall n: nat | Cached(m, n) && !(m[r].valid && m[r].blockno == n)
      ensures Cached(m', n)
    {
      var x: Buf :| x in m && m[x].valid && m[x].blockno == n;
      assert m'[x].valid && m'[x].blockno == n;
    }
  }

  // Nor does reading the block in.
  lemma LoadKeeps(m: Infos, t: set<Buf>, disk: Disk, logical: Disk, r: Buf, i: Info)
    requires CacheOk(m, t, disk, logical) && r in m && !m[r].valid && m[r].dev == 1 && m[r].blockno < |disk|
    requires i == m[r].(valid := true, data := disk[m[r].blockno])
    ensures CacheOk(m[r := i], t, disk, logical)
  {
    CachedMono(m, m[r := i]);
    assert !m[r].dirty && r !in t;
    assert !Cached(m, m[r].blockno);
  }

  // Writing a valid buffer out: the disk block takes the buffer's data.
  lemma WriteKeeps(m: Infos, t: set<Buf>, disk: Disk, logical: Disk, r: Buf, i: Info)
    requires CacheOk(m, t, disk, logical) && r in m && m[r].valid && m[r].dev == 1
    requires i == m[r].(dirty := false)
    ensures m[r].blockno < |disk| && CacheOk(m[r := i], t - {r}, disk[m[r].blockno := m[r].data], logical)
  {
    var m' := m[r := i];
    assert forall x | x in m && x != r && m[x].valid :: m'[x] == m[x] && m[x].blockno != m[r].blockno;
    CachedMono(m, m');
    assert m'[r].valid && Cached(m', m[r].blockno);
    hide Cached;
  }

  // Changing the data of a locked buffer changes the contents of that block and of no other.
  lemma ModifyKeeps(m: Infos, t: set<Buf>, disk: Disk, logical: Disk, r: Buf, v: Block)
    requires CacheOk(m, t, disk, logical) && r in m && m[r].valid && m[r].locked
    ensures m[r].blockno < |logical|
    ensures CacheOk(m[r := m[r].(data := v)], t + {r}, disk, logical[m[r].blockno := v])
  {
    var m' := m[r := m[r].(data := v)];
    CachedMono(m, m');
    assert m'[r].valid && Cached(m', m[r].blockno);
  }

  // A buffer may be let go once what was changed in it is pinned or written.
  lemma UnlockKeeps(m: Infos, t: set<Buf>, disk: Disk, logical: Disk, r: Buf, i: Info)
    requires CacheOk(m, t, disk, logical) && r in m && m[r].valid && (r in t ==> m[r].dirty)
    requires i == m[r].(locked := false, refcnt := i.refcnt)
    ensures CacheOk(m[r := i], t - {r}, disk, logical)
  {
    CachedMono(m, m[r := i]);
  }

  // ---------------------------------------------------------------- blocks held, and blocks pinned

  ghost function HeldOf(m: Infos): set<nat> {
    set x | x in m && m[x].locked :: m[x].blockno
  }

  ghost function PinnedOf(m: Infos): set<nat> {
    set x | x in m && m[x].dirty :: m[x].blockno
  }

  // A buffer taken for block b is one more block held.
  lemma HeldTaken(m: Infos, r: Buf, i: Info)
    requires r in m && !m[r].locked && i.locked && i.dirty == m[r].dirty && (i.dirty ==> i.blockno == m[r].blockno)
    ensures HeldOf(m[r := i]) == HeldOf(m) + {i.blockno} && PinnedOf(m[r := i]) == PinnedOf(m)
  {
    var m' := m[r := i];
    assert m'[r].locked && m'[r].blockno == i.blockno;
    forall x | x in m && x != r
      ensures m'[x] == m[x]
    {}
    forall b | b in HeldOf(m)
      ensures b in HeldOf(m')
    {
      var x: Buf :| x in m && m[x].locked && m[x].blockno == b;
      assert m'[x].locked && m'[x].blockno == b;
    }
    SamePins(m, m');
  }

  lemma SamePins(m: Infos, m': Infos)
    requires m'.Keys == m.Keys
    requires forall x | x in m :: m'[x].dirty == m[x].dirty && (m[x].dirty ==> m'[x].blockno == m[x].blockno)
    ensures PinnedOf(m') == PinnedOf(m)
  {
    forall b | b in PinnedOf(m)
      ensures b in PinnedOf(m')
    {
      var x: Buf :| x in m && m[x].dirty && m[x].blockno == b;
      assert m'[x].dirty && m'[x].blockno == b;
    }
  }

  lemma SameHeld(m: Infos, m': Infos)
    requires m'.Keys == m.Keys
    requires forall x | x in m :: m'[x].locked == m[x].locked && m'[x].blockno == m[x].blockno
    ensures HeldOf(m') == HeldOf(m)
  {
    forall b | b in HeldOf(m)
      ensures b in HeldOf(m')
    {
      var x: Buf :| x in m && m[x].locked && m[x].blockno == b;
      assert m'[x].locked && m'[x].blockno == b;
    }
  }

  // One let go is one less: no other buffer has its block.
  lemma HeldDropped(m: Infos, t: set<Buf>, disk: Disk, logical: Disk, r: Buf, i: Info)
    requires CacheOk(m, t, disk, logical) && r in m && m[r].valid && (forall x | x in m && m[x].locked :: m[x].valid)
    requires i == m[r].(locked := false, refcnt := i.refcnt)
    ensures HeldOf(m[r := i]) == HeldOf(m) - {m[r].blockno} && PinnedOf(m[r := i]) == PinnedOf(m)
  {
    hide DataOk;
    var m' := m[r := i];
    forall b | b in HeldOf(m) && b != m[r].blockno
      ensures b in HeldOf(m')
    {
      var x: Buf :| x in m && m[x].locked && m[x].blockno == b;
      assert m'[x].locked && m'[x].blockno == b;
    }
    forall x | x in m && x != r && m[x].locked
      ensures m[x].blockno != m[r].blockno
    {
      assert m[x].dev == m[r].dev == 1;
    }
    SamePins(m, m');
  }

  lemma PinTaken(m: Infos, r: Buf, i: Info)
    requires r in m && i.dirty && i.blockno == m[r].blockno && i.locked == m[r].locked
    ensures PinnedOf(m[r := i]) == PinnedOf(m) + {i.blockno} && HeldOf(m[r := i]) == HeldOf(m)
  {
    var m' := m[r := i];
    assert m'[r].dirty && m'[r].blockno == i.blockno;
    forall b | b in PinnedOf(m)
      ensures b in PinnedOf(m')
    {
      var x: Buf :| x in m && m[x].dirty && m[x].blockno == b;
      assert m'[x].dirty && m'[x].blockno == b;
    }
    SameHeld(m, m');
  }

  lemma PinDropped(m: Infos, t: set<Buf>, disk: Disk, logical: Disk, r: Buf, i: Info)
    requires CacheOk(m, t, disk, logical) && r in m && m[r].valid && i.blockno == m[r].blockno
    requires !i.dirty && i.locked == m[r].locked
    ensures PinnedOf(m[r := i]) == PinnedOf(m) - {m[r].blockno} && HeldOf(m[r := i]) == HeldOf(m)
  {
    hide DataOk;
    var m' := m[r := i];
    forall b | b in PinnedOf(m) && b != m[r].blockno
      ensures b in PinnedOf(m')
    {
      var x: Buf :| x in m && m[x].dirty && m[x].blockno == b;
      assert m'[x].dirty && m'[x].blockno == b;
    }
    forall x | x in m && x != r && m[x].dirty
      ensures m[x].blockno != m[r].blockno
    {
      assert m[x].dev == m[r].dev == 1;
    }
    SameHeld(m, m');
  }

  // ---------------------------------------------------------------- bcache

  class Bcache {
    const head: Buf
    var disk: Disk

    ghost const bufs: set<Buf>
    ghost var ring: seq<Buf>       // head, the buffers from most to least recently released, head
    ghost var logical: Disk        // what a reader of the cache finds in each block
    ghost var history: seq<Disk>   // the disk after every block write so far
    ghost var touched: set<Buf>    // locked buffers changed and not yet logged or written
    ghost var released: map<Buf, int>
    ghost var clock: int           // the number of moves to the front so far

    // next and prev are inverse around one ring of distinct buffers through the head.
    ghost predicate LinkedOk()
      reads this, set x | x in ring
    {
      && |ring| >= 2 && ring[0] == head && ring[|ring| - 1] == head
      && (forall i, j | 0 <= i < j < |ring| - 1 :: ring[i] != ring[j])
      && (forall i | 0 <= i < |ring| - 1 :: ring[i].next == ring[i + 1] && ring[i + 1].prev == ring[i])
    }

    // The ring holds every buffer once.
    ghost predicate RingOk()
      reads this, head, bufs
    {
      MembersOk(ring, head, bufs) && LinkedOk()
    }

    ghost function Infos(): (m: Infos)
      reads bufs
      ensures m.Keys == bufs && forall x | x in bufs :: m[x] == x.info
    {
      map x | x in bufs :: x.info
    }

    ghost predicate Valid()
      reads this, head, bufs
    {
      RingOk() && OrderOk(released, ring, clock) && CacheOk(Infos(), touched, disk, logical)
    }

    // The disk has taken one more block write since `was`.
    twostate predicate Wrote(b: nat, v: Block)
      reads this
    {
      b < |old(disk)| && disk == old(disk)[b := v] && history == old(history) + [disk]
    }

    // The ring is untouched when no link is written.
    twostate lemma RingFrame()
      requires old(RingOk()) && ring == old(ring)
      requires forall x | x in bufs :: x.next == old(x.next) && x.prev == old(x.prev)
      requires head.next == old(head.next) && head.prev == old(head.prev)
      ensures RingOk()
    {}

    // binit: link the static array of zeroed buffers into a ring, the last one at the front.
    constructor (storage: seq<Buf>, head: Buf, disk: Disk)
      requires forall i, j | 0 <= i < j < |storage| :: storage[i] != storage[j]
      requires head !in storage
      requires forall x | x in storage :: !x.info.valid && !x.info.dirty && !x.info.locked && x.info.dev == 0
      modifies storage, head
      ensures Valid() && this.disk == logical == disk && history == []
      ensures this.head == head && (bufs == set x | x in storage)
      ensures |ring| == |storage| + 2 && forall i | 1 <= i <= |storage| :: ring[i] == storage[|storage| - i]
    {
      this.head := head;
      this.disk, logical := disk, disk;
      bufs := set x | x in storage;
      ring, history, touched, released, clock := [head, head], [], {}, map[], 0;
      new;
      hide MembersOk; hide OrderOk; hide CacheOk;
      head.prev := head;
      head.next := head;
      var n := 0;
      while n < |storage|
        invariant 0 <= n <= |storage|
        invariant LinkedOk() && |ring| == n + 2 && clock == n
        invariant forall i | 1 <= i <= n ::
                    ring[i] == storage[n - i] && ring[i] in released && released[ring[i]] == n - i
        invariant forall x | x in storage :: !x.info.valid && !x.info.dirty && !x.info.locked && x.info.dev == 0
        invariant this.disk == logical == disk && history == [] && touched == {}
      {
        assert head.next == ring[0 + 1];
        InsertFront(storage[n]);
        n := n + 1;
      }
      FreshRing(storage, ring, released, head);
      FreshCache(Infos(), disk);
    }

    // The assignments that put a buffer right after the head.
    method InsertFront(b: Buf)
      requires LinkedOk() && b !in ring
      modifies this`ring, this`clock, this`released, b`next, b`prev, head`next, head.next`prev
      ensures LinkedOk() && ring == old([head, b] + ring[1..])
      ensures released == old(released)[b := old(clock)] && clock == old(clock) + 1
    {
      b.next := head.next;
      b.prev := head;
      head.next.prev := b;
      head.next := b;
      released, clock := released[b := clock], clock + 1;
      ring := [head, b] + ring[1..];
      ghost var was := old(ring);
      assert |ring| == |was| + 1 && forall i | 2 <= i < |ring| :: ring[i] == was[1..][i - 2] == was[i - 1];
      assert old(head.next == was[0 + 1]) && ring[2] == was[1];
      assert head.next == b && b.prev == head && b.next == ring[2] && ring[2].prev == b;
      forall i | 2 <= i < |ring| - 1
        ensures ring[i].next == ring[i + 1] && ring[i + 1].prev == ring[i]
      {
        assert ring[i + 1] == was[i + 1 - 1];
        assert was[0] != was[1] && (i < |was| - 1 ==> was[i] != was[1]);
        assert old(was[i - 1].next == was[i - 1 + 1] && was[i - 1 + 1].prev == was[i - 1]);
      }
    }

    // The assignments that take a buffer out of the ring.
    method Unlink(b: Buf, ghost k: nat)
      requires LinkedOk() && 1 <= k < |ring| - 1 && ring[k] == b
      modifies this`ring, b.next`prev, b.prev`next
      ensures LinkedOk() && ring == old(ring[..k] + ring[k + 1..]) && b !in ring
    {
      ghost var was := ring;
      assert was[k - 1].next == was[k - 1 + 1] && b.next == was[k + 1] && b.prev == was[k - 1];
      b.next.prev := b.prev;
      b.prev.next := b.next;
      ring := was[..k] + was[k + 1..];
      forall i | 0 <= i < |ring| - 1
        ensures ring[i].next == ring[i + 1] && ring[i + 1].prev == ring[i]
      {
        var j := if i < k then i else i + 1;
        assert ring[i] == was[j] && (i + 1 != k ==> ring[i + 1] == was[j + 1]);
        assert old(was[j].next == was[j + 1] && was[j + 1].prev == was[j]);
      }
      assert forall i | 0 <= i < |ring| :: ring[i] == was[if i < k then i else i + 1];
    }

    // The walk from the front of the ring for the buffer of a block.
    method Lookup(dev: nat, blockno: nat) returns (r: Buf?)
      requires RingOk()
      ensures r != null ==> r in bufs && r.info.Is(dev, blockno)
      ensures r == null ==> forall x | x in bufs :: !x.info.Is(dev, blockno)
    {
      var b := head.next;
      ghost var i := 1;
      assert b == ring[0 + 1];
      while b != head
        invariant 1 <= i < |ring| && b == ring[i]
        invariant forall j | 1 <= j < i :: !ring[j].info.Is(dev, blockno)
        decreases |ring| - i
      {
        if b.info.dev == dev && b.info.blockno == blockno {
          return b;
        }
        b := b.next;
        i := i + 1;
      }
      return null;
    }

    ghost predicate LeastRecent(r: Buf)
      reads this, bufs
    {
      r in released && forall x | x in bufs && x != r && x.info.Free() :: x in released && released[x] > released[r]
    }

    // The least recently released buffer that is neither referenced nor pinned.
    method Victim() returns (r: Buf?)
      requires RingOk() && OrderOk(released, ring, clock)
      ensures r == null <==> forall x | x in bufs :: !x.info.Free()
      ensures r != null ==> r in bufs && r.info.Free()
      ensures r != null ==> LeastRecent(r)
      ensures r != null ==> exists i | 1 <= i < |ring| - 1 ::
                  ring[i] == r && forall j | i < j < |ring| - 1 :: !ring[j].info.Free()
    {
      var b := head.prev;
      ghost var i := |ring| - 2;
      assert b == ring[i] && ring[i + 1] == head;
      while b != head
        invariant 0 <= i < |ring| - 1 && b == ring[i]
        invariant forall j | i < j < |ring| - 1 :: !ring[j].info.Free()
        decreases i
      {
        if b.info.refcnt == 0 && !b.info.dirty {
          forall x | x in bufs && x != b && x.info.Free()
            ensures x in released && b in released && released[x] > released[b]
          {
            var j :| 0 <= j < |ring| && ring[j] == x;
            assert 1 <= j < i;
          }
          return b;
        }
        assert ring[i - 1 + 1].prev == ring[i - 1];
        b := b.prev;
        i := i - 1;
      }
      return null;
    }

    // No buffer can be recycled.
    ghost predicate Full()
      reads this, bufs
    {
      forall x | x in bufs :: !x.info.Free()
    }

    ghost predicate Has(dev: nat, blockno: nat)
      reads this, bufs
    {
      exists x | x in bufs :: x.info.Is(dev, blockno)
    }

    ghost predicate Unlocked(dev: nat, blockno: nat)
      reads this, bufs
    {
      forall x | x in bufs && x.info.Is(dev, blockno) :: !x.info.locked
    }

    // A buffer its caller holds, as bread returns it.
    ghost predicate Held(b: Buf)
      reads this, bufs, b
    {
      b in bufs && b.info.valid && b.info.locked && b.info.refcnt > 0
    }

    lemma LockedNotTouched()
      requires Valid()
      ensures forall x | x in touched :: x in bufs && x.info.locked && x.info.refcnt > 0
      ensures |disk| == |logical|
      ensures forall x | x in bufs && x.info.valid ::
                x.info.dev == 1 && x.info.blockno < |disk| && x.info.data == logical[x.info.blockno]
      ensures forall x | x in bufs :: (x.info.dirty ==> x.info.valid) && (x.info.locked ==> x.info.refcnt > 0)
    {
      hide RingOk; hide OrderOk; hide Distinct;
      assert forall x | x in bufs :: Infos()[x] == x.info;
    }

    lemma OneBuffer(r: Buf, dev: nat, blockno: nat)
      requires Valid() && r in bufs && r.info.Is(dev, blockno) && dev >= 1
      ensures Unlocked(dev, blockno) <==> !r.info.locked
    {
      hide RingOk; hide OrderOk; hide DataOk; hide FlagsOk;
      ghost var m := Infos();
      forall x | x in bufs && x.info.Is(dev, blockno)
        ensures x == r
      {
        assert m[x] == x.info && m[r] == r.info;
      }
    }

    // Find the block's buffer, or recycle one for it; null is the panic "no buffers". If somebody else has
    // the buffer locked, the caller has a reference to it and waits in acquiresleep.
    method Bget(dev: nat, blockno: nat) returns (r: Buf?, waits: bool)
      requires Valid() && dev >= 1
      modifies bufs`info
      ensures Valid() && (waits <==> !old(Unlocked(dev, blockno)))
      ensures r == null <==> old(!Has(dev, blockno) && forall x | x in bufs :: !x.info.Free())
      ensures r == null ==> Infos() == old(Infos())
      ensures r != null ==> r in bufs && (r in touched ==> waits)
      ensures r != null && old(Has(dev, blockno)) ==>
        && old(r.info.Is(dev, blockno)) && waits == old(r.info.locked)
        && Infos() == old(Infos())[r := old(r.info).(refcnt := old(r.info.refcnt) + 1, locked := true)]
      ensures r != null && !old(Has(dev, blockno)) ==>
        && old(r.info.Free() && LeastRecent(r))
        && Infos() == old(Infos())[r := Info(dev, blockno, false, false, true, 1, old(r.info.data))]
    {
      hide CacheOk; hide OrderOk; hide RingOk; hide LinkedOk;
      LockedNotTouched();
      r := Lookup(dev, blockno);
      if r != null {
        OneBuffer(r, dev, blockno);
        waits := r.info.locked;
        Take(r);
        return;
      }
      waits := false;
      r := Victim();
      if r != null {
        Recycle(r, dev, blockno);
      }
    }

    // bget's branch for a cached block.
    method Take(r: Buf)
      requires Valid() && r in bufs
      modifies r`info
      ensures Valid() && Infos() == old(Infos())[r := old(r.info).(refcnt := old(r.info.refcnt) + 1, locked := true)]
    {
      hide CacheOk; hide OrderOk; hide RingOk; hide LinkedOk;
      ghost var m := Infos();
      r.info := r.info.(refcnt := r.info.refcnt + 1, locked := true);
      RingFrame();
      assert Infos() == m[r := r.info];
      HitKeeps(m, touched, disk, logical, r, r.info);
    }

    // bget's branch for a block that is not cached.
    method Recycle(r: Buf, dev: nat, blockno: nat)
      requires Valid() && r in bufs && r.info.Free() && dev >= 1 && !Has(dev, blockno)
      modifies r`info
      ensures Valid() && Infos() == old(Infos())[r := Info(dev, blockno, false, false, true, 1, old(r.info.data))]
    {
      hide CacheOk; hide OrderOk; hide RingOk; hide LinkedOk;
      ghost var m := Infos();
      r.info := r.info.(dev := dev, blockno := blockno, valid := false, dirty := false, locked := true, refcnt := 1);
      RingFrame();
      assert Infos() == m[r := r.info];
      assert forall x | x in m :: !m[x].Is(dev, blockno);
      RecycleKeeps(m, touched, disk, logical, r, r.info);
    }

    // iderw's branch for a dirty buffer: its data become those of the disk block.
    method WriteBack(b: Buf)
      requires Valid() && b in bufs && b.info.valid && b.info.dirty
      modifies this`disk, this`history, this`touched, b`info
      ensures Valid() && Wrote(b.info.blockno, b.info.data) && touched == old(touched) - {b}
      ensures Infos() == old(Infos())[b := old(b.info).(dirty := false)]
    {
      hide CacheOk; hide OrderOk; hide RingOk; hide LinkedOk;
      LockedNotTouched();
      ghost var m := Infos();
      WriteKeeps(m, touched, disk, logical, b, b.info.(dirty := false));
      b.info := b.info.(dirty := false);
      disk := disk[b.info.blockno := b.info.data];
      history := history + [disk];
      touched := touched - {b};
      RingFrame();
      assert Infos() == m[b := b.info];
    }

    // iderw's branch for a buffer not yet valid.
    method ReadIn(b: Buf)
      requires Valid() && b in bufs && !b.info.valid && b.info.dev == 1 && b.info.blockno < |disk|
      modifies b`info
      ensures Valid() && Infos() == old(Infos())[b := old(b.info).(valid := true, data := disk[old(b.info.blockno)])]
    {
      hide CacheOk; hide OrderOk; hide RingOk; hide LinkedOk;
      ghost var m := Infos();
      LoadKeeps(m, touched, disk, logical, b, b.info.(valid := true, data := disk[b.info.blockno]));
      b.info := b.info.(data := disk[b.info.blockno], valid := true);
      RingFrame();
      assert Infos() == m[b := b.info];
    }

    // iderw on the memory disk: write the buffer if dirty, else read it.
    method Iderw(b: Buf)
      requires Valid() && b in bufs && b.info.locked
      requires !(b.info.valid && !b.info.dirty)  // "nothing to do"
      requires b.info.dev == 1 && b.info.blockno < |disk| && (b.info.dirty ==> b.info.valid)
      modifies this`disk, this`history, this`touched, b`info
      ensures Valid()
      ensures old(b.info.dirty) ==> Wrote(b.info.blockno, b.info.data) && touched == old(touched) - {b}
      ensures old(b.info.dirty) ==> Infos() == old(Infos())[b := old(b.info).(dirty := false)]
      ensures !old(b.info.dirty) ==> disk == old(disk) && history == old(history) && touched == old(touched)
      ensures !old(b.info.dirty) ==> b.info.data == disk[old(b.info.blockno)]
      ensures !old(b.info.dirty) ==> Infos() == old(Infos())[b := old(b.info).(valid := true, data := b.info.data)]
    {
      hide CacheOk; hide OrderOk; hide RingOk; hide LinkedOk; hide Valid;
      if b.info.dirty {
        WriteBack(b);
      } else {
        ReadIn(b);
      }
    }

    // Return the locked buffer of a block, holding the block's logical contents, or wait for it. Nothing any
    // reader of the cache could see has changed.
    method Bread(blockno: nat) returns (r: Buf?, waits: bool)
      requires Valid() && blockno < |disk|
      modifies this`disk, this`history, this`touched, bufs`info
      ensures Valid() && disk == old(disk) && history == old(history) && touched == old(touched)
      ensures waits <==> !old(Unlocked(1, blockno))
      ensures r == null <==> old(!Has(1, blockno) && forall x | x in bufs :: !x.info.Free())
      ensures r == null ==> Infos() == old(Infos())
      ensures r != null ==> r in bufs && Infos() == old(Infos())[r := r.info]
      ensures waits ==> r != null && old(r.info.Is(1, blockno) && r.info.locked)
      ensures waits ==> r.info == old(r.info).(refcnt := old(r.info.refcnt) + 1)
      ensures r != null && !waits ==>
        && Held(r) && r !in touched && r.info.Is(1, blockno) && r.info.data == logical[blockno]
        && !old(r.info.locked) && (old(r.info.dirty) ==> old(r.info.Is(1, blockno)))
        && r.info.dirty == old(r.info.dirty)
      ensures r != null && !waits ==>
        if old(Has(1, blockno)) then old(r.info.Is(1, blockno)) && r.info.refcnt == old(r.info.refcnt) + 1
        else old(r.info.refcnt == 0 && LeastRecent(r)) && r.info.refcnt == 1
    {
      hide CacheOk; hide OrderOk; hide RingOk; hide LinkedOk; hide LeastRecent;
      LockedNotTouched();
      r, waits := Bget(1, blockno);
      LockedNotTouched();
      if r != null && !waits {
        FillIn(r, blockno);
      }
    }

    // bread once the buffer is locked: read the block in if it has not been.
    method FillIn(r: Buf, blockno: nat)
      requires Valid() && r in bufs && r.info.locked && r.info.refcnt > 0 && r.info.Is(1, blockno) && blockno < |disk|
      requires r !in touched && (r.info.dirty ==> r.info.valid)
      modifies this`disk, this`history, this`touched, r`info
      ensures Valid() && disk == old(disk) && history == old(history) && touched == old(touched)
      ensures Held(r) && r.info.data == logical[blockno]
      ensures r.info == old(r.info).(valid := true, data := r.info.data)
      ensures Infos() == old(Infos())[r := r.info]
    {
      hide CacheOk; hide OrderOk; hide RingOk; hide LinkedOk;
      if !r.info.valid {
        Iderw(r);
      }
      LockedNotTouched();
    }

    // acquiresleep lets a waiter go on: the buffer is now locked by it, and bread returns it.
    method Granted(r: Buf, blockno: nat)
      requires Valid() && r in bufs && !r.info.locked && r.info.refcnt > 0 && r.info.Is(1, blockno) && blockno < |disk|
      modifies this`disk, this`history, this`touched, r`info
      ensures Valid() && disk == old(disk) && history == old(history) && touched == old(touched)
      ensures Held(r) && r !in touched && r.info.data == logical[blockno]
      ensures r.info == old(r.info).(valid := true, locked := true, data := r.info.data)
      ensures Infos() == old(Infos())[r := r.info]
    {
      hide CacheOk; hide OrderOk; hide RingOk; hide LinkedOk;
      LockedNotTouched();
      ghost var m := Infos();
      Lock(r);
      FillIn(r, blockno);
      assert m[r := m[r].(locked := true)][r := r.info] == m[r := r.info];
    }

    method Lock(r: Buf)
      requires Valid() && r in bufs && r.info.refcnt > 0
      modifies r`info
      ensures Valid() && Infos() == old(Infos())[r := old(r.info).(locked := true)]
    {
      hide CacheOk; hide OrderOk; hide RingOk; hide LinkedOk;
      ghost var m := Infos();
      LockKeeps(m, touched, disk, logical, r, r.info.(locked := true));
      r.info := r.info.(locked := true);
      RingFrame();
      assert Infos() == m[r := r.info];
    }

    // The memmove of a caller into the data of a buffer it holds.
    method SetData(b: Buf, v: Block)
      requires Valid() && Held(b)
      modifies this`logical, this`touched, b`info
      ensures Valid() && old(b.info.blockno) < |old(logical)|
      ensures logical == old(logical)[old(b.info.blockno) := v] && touched == old(touched) + {b}
      ensures Infos() == old(Infos())[b := old(b.info).(data := v)]
    {
      hide CacheOk; hide OrderOk; hide RingOk; hide LinkedOk;
      ghost var m := Infos();
      LockedNotTouched();
      ModifyKeeps(m, touched, disk, logical, b, v);
      b.info := b.info.(data := v);
      logical := logical[b.info.blockno := v];
      touched := touched + {b};
      RingFrame();
      assert Infos() == m[b := b.info];
    }

    method Bwrite(b: Buf)
      requires Valid() && Held(b)
      modifies this`disk, this`history, this`touched, b`info
      ensures Valid() && Wrote(b.info.blockno, b.info.data) && touched == old(touched) - {b}
      ensures Infos() == old(Infos())[b := old(b.info).(dirty := false)]
    {
      hide CacheOk; hide OrderOk; hide RingOk; hide LinkedOk;
      ghost var m := Infos();
      MarkDirty(b);
      LockedNotTouched();
      hide Valid;
      Iderw(b);
      assert m[b := m[b].(dirty := true)][b := b.info] == m[b := b.info];
    }

    method MarkDirty(b: Buf)
      requires Valid() && Held(b)
      modifies b`info
      ensures Valid() && Infos() == old(Infos())[b := old(b.info).(dirty := true)]
    {
      hide CacheOk; hide OrderOk; hide RingOk; hide LinkedOk;
      ghost var m := Infos();
      PinKeeps(m, touched, disk, logical, b);
      b.info := b.info.(dirty := true);
      RingFrame();
      assert Infos() == m[b := b.info];
    }

    // log_write's B_DIRTY: the buffer stays in the cache until it is written.
    method Pin(b: Buf)
      requires Valid() && Held(b)
      modifies this`touched, b`info
      ensures Valid() && touched == old(touched) - {b}
      ensures Infos() == old(Infos())[b := old(b.info).(dirty := true)]
    {
      hide CacheOk; hide OrderOk; hide RingOk; hide LinkedOk;
      ghost var m := Infos();
      PinKeeps(m, touched, disk, logical, b);
      b.info := b.info.(dirty := true);
      touched := touched - {b};
      RingFrame();
      assert Infos() == m[b := b.info];
    }

    // The assignments of brelse that move a buffer right after the head.
    method MoveToFront(b: Buf)
      requires RingOk() && OrderOk(released, ring, clock) && b in bufs
      modifies this`ring, this`clock, this`released, head`next, head`prev, bufs`next, bufs`prev
      ensures RingOk() && OrderOk(released, ring, clock) && ring[1] == b
      ensures released == old(released)[b := old(clock)] && clock == old(clock) + 1
      ensures exists k :: 1 <= k < |old(ring)| - 1 && old(ring)[k] == b && ring == Moved(old(ring), k)
    {
      ghost var k :| 0 <= k < |ring| && ring[k] == b;
      ghost var was := ring;
      Neighbours(k);
      OnceOnly(k);
      MovedIs(was, k);
      MovedMembers(was, k, head, bufs);
      MovedOrder(was, k, released, clock);
      hide LinkedOk; hide OrderOk; hide Moved; hide MembersOk;
      Unlink(b, k);
      FirstInRing();
      InsertFront(b);
    }

    lemma OnceOnly(k: nat)
      requires LinkedOk() && 1 <= k < |ring| - 1
      ensures ring[k] !in ring[..k] + ring[k + 1..]
    {}

    lemma Neighbours(k: nat)
      requires RingOk() && k < |ring| && ring[k] != head
      ensures 1 <= k < |ring| - 1 && ring[k].next in ring && ring[k].prev in ring
    {
      assert ring[k - 1 + 1].prev == ring[k - 1] && ring[k].next == ring[k + 1];
    }

    lemma FirstInRing()
      requires LinkedOk()
      ensures head.next in ring
    {
      assert ring[0].next == ring[0 + 1];
    }

    // Release the buffer; on its last reference, move it to the front of the ring. What was
    // changed in it must have been logged or written.
    method Brelse(b: Buf)
      requires Valid() && Held(b) && b !in touched
      modifies this`ring, this`clock, this`released, head, bufs
      ensures Valid()
      ensures Infos() == old(Infos())[b := old(b.info).(locked := false, refcnt := old(b.info.refcnt) - 1)]
      ensures b.info.refcnt > 0 ==> ring == old(ring) && released == old(released) && clock == old(clock)
      ensures b.info.refcnt == 0 ==> released == old(released)[b := old(clock)] && clock == old(clock) + 1
      ensures b.info.refcnt == 0 ==> |ring| > 1 && ring[1] == b
      ensures b.info.refcnt == 0 ==>
          exists k :: 1 <= k < |old(ring)| - 1 && old(ring)[k] == b && ring == Moved(old(ring), k)
    {
      hide CacheOk; hide OrderOk; hide RingOk; hide LinkedOk;
      Unlock(b);
      ghost var m := Infos();
      if b.info.refcnt == 0 {
        MoveToFront(b);
        assert Infos() == m;
      }
    }

    method Unlock(b: Buf)
      requires Valid() && Held(b) && b !in touched
      modifies b`info
      ensures Valid()
      ensures Infos() == old(Infos())[b := old(b.info).(locked := false, refcnt := old(b.info.refcnt) - 1)]
    {
      hide CacheOk; hide OrderOk; hide RingOk; hide LinkedOk;
      ghost var m := Infos();
      b.info := b.info.(locked := false, refcnt := b.info.refcnt - 1);
      RingFrame();
      UnlockKeeps(m, touched, disk, logical, b, b.info);
      assert touched - {b} == touched && Infos() == m[b := b.info];
    }
  }

  ghost predicate MembersOk(ring: seq<Buf>, head: Buf, bufs: set<Buf>) {
    && head !in bufs
    && (forall x | x in ring :: x == head || x in bufs)
    && (forall x | x in bufs :: x in ring)
  }

  // The ring with its k-th buffer moved to the front.
  ghost function Moved(was: seq<Buf>, k: nat): (ring: seq<Buf>)
    requires 1 <= k < |was| - 1
    ensures |ring| == |was|
    ensures forall i | 0 <= i < |ring| ::
        ring[i] == if i == 1 then was[k] else if 1 < i <= k then was[i - 1] else was[i]
  {
    [was[0], was[k]] + (was[..k] + was[k + 1..])[1..]
  }

  lemma MovedIs(was: seq<Buf>, k: nat)
    requires 1 <= k < |was| - 1
    ensures Moved(was, k) == [was[0], was[k]] + (was[..k] + was[k + 1..])[1..]
  {}

  lemma MovedMembers(was: seq<Buf>, k: nat, head: Buf, bufs: set<Buf>)
    requires 1 <= k < |was| - 1 && MembersOk(was, head, bufs)
    ensures MembersOk(Moved(was, k), head, bufs)
  {
    forall x | x in was
      ensures x in Moved(was, k)
    {
      var i :| 0 <= i < |was| && was[i] == x;
      assert x == Moved(was, k)[if i == k then 1 else if 1 <= i < k then i + 1 else i];
    }
  }

  lemma MovedOrder(was: seq<Buf>, k: nat, released: map<Buf, int>, clock: int)
    requires OrderOk(released, was, clock) && 1 <= k < |was| - 1
    requires was[k] !in was[..k] + was[k + 1..]
    ensures OrderOk(released[was[k] := clock], Moved(was, k), clock + 1)
  {
    var rest := was[..k] + was[k + 1..];
    assert forall i | 0 <= i < |was| && i != k :: was[i] == rest[if i < k then i else i - 1];
  }

  // Pinning a buffer changes no contents.
  lemma PinKeeps(m: Infos, t: set<Buf>, disk: Disk, logical: Disk, r: Buf)
    requires CacheOk(m, t, disk, logical) && r in m && m[r].valid
    ensures CacheOk(m[r := m[r].(dirty := true)], t, disk, logical)
    ensures CacheOk(m[r := m[r].(dirty := true)], t - {r}, disk, logical)
  {
    CachedMono(m, m[r := m[r].(dirty := true)]);
  }
}
