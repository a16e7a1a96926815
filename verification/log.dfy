/** log.c itself, over the buffer cache: the loops that copy blocks between the log and their
    homes, and the header that decides between them. */
module Log {
  import opened Machine
  import opened Blocks
  import opened LogSpec
  import opened Bio

  // The log and the cache under it as values: the blocks on disk and as read through the cache, lh, and
  // the blocks that are pinned, held, and changed in a held buffer but not yet logged.
  datatype Memory = Memory(disk: Disk, logical: Disk, header: seq<nat>, pinned: set<nat>, held: set<nat>,
                           unlogged: set<nat>, outstanding: int, committing: bool)

  class Log {
    const L: Layout
    const cache: Bcache
    var outstanding: int
    var committing: bool
    var n: nat                // lh.n
    const block: array<nat>   // lh.block

    ghost function Header(): (h: seq<nat>)
      requires n <= block.Length
      reads this, block
    {
      block[..n]
    }

    ghost function Held(): set<nat>
      reads cache, cache.bufs
    {
      HeldOf(cache.Infos())
    }

    ghost function Pinned(): set<nat>
      reads cache, cache.bufs
    {
      PinnedOf(cache.Infos())
    }

    // Blocks that have changed in a held buffer and are not logged yet.
    ghost function Unlogged(): set<nat>
      reads cache, cache.bufs
    {
      set x | x in cache.bufs && x in cache.touched :: x.info.blockno
    }

    ghost function Value(): Memory
      requires n <= block.Length
      reads this, block, cache, cache.bufs
    {
      Memory(cache.disk, cache.logical, Header(), Pinned(), Held(), Unlogged(), outstanding, committing)
    }

    // Nobody is between bget and the reading of the block.
    ghost predicate Settled()
      reads cache, cache.head, cache.bufs
    {
      cache.Valid() && forall x | x in cache.bufs && x.info.locked :: x.info.valid
    }

    // The cached log blocks are as on disk.
    ghost predicate Shaped()
      reads this, block, cache, cache.head, cache.bufs
    {
      && L.Ok() && Settled() && |cache.disk| == |cache.logical| == L.total
      && block.Length == LOGSIZE && n <= LOGSIZE && HeaderOk(L, Header())
      && LogClean(L, cache.disk, cache.logical)
    }

    // Nothing is being changed, and nobody holds a block that commit() or recovery works on. Others may be
    // held by processes that read them.
    ghost predicate Quiet()
      requires n <= block.Length
      reads this, block, cache, cache.bufs
    {
      cache.touched == {} && forall b | b in Held() :: !L.InLog(b) && b !in Header()
    }

    // As during a commit.
    ghost predicate Idle()
      reads this, block, cache, cache.head, cache.bufs
    {
      Shaped() && Quiet()
    }

    // What holds outside commits, also while operations hold buffers: the header on disk is empty, and
    // the header in memory has the pinned blocks and every other block whose contents differ from the disk.
    ghost predicate Open()
      reads this, block, cache, cache.head, cache.bufs
    {
      && Shaped() && Recorded(L, cache.disk, cache.logical, Header(), Unlogged())
      && Pinned() == BlocksOf(Header())
    }

    // As the last operation ends.
    ghost predicate Valid()
      reads this, block, cache, cache.head, cache.bufs
    {
      Open() && Quiet()
    }

    constructor (L: Layout, cache: Bcache)
      requires L.Ok() && cache.Valid() && |cache.disk| == L.total && cache.logical == cache.disk
      requires cache.touched == {} && forall x | x in cache.bufs :: !x.info.locked && !x.info.dirty
      ensures Idle() && this.L == L && this.cache == cache && Header() == [] && outstanding == 0 && !committing
      ensures Held() == {} && Pinned() == {}
    {
      hide CacheOk; hide OrderOk; hide Bcache.RingOk; hide Bcache.LinkedOk; hide Bcache.Valid;
      this.L, this.cache := L, cache;
      outstanding, committing, n := 0, false, 0;
      block := new nat[LOGSIZE];
    }

    lemma NotLocked(b: nat)
      requires b !in Held()
      ensures cache.Unlocked(1, b)
    {
      ghost var m := cache.Infos();
      forall x | x in cache.bufs && x.info.locked
        ensures x.info.blockno in Held()
      {
        assert m[x] == x.info;
      }
    }

    // bread of a block that nobody holds, by somebody who may hold buffer a.
    method Read(blockno: nat, ghost a: Buf?) returns (r: Buf?)
      requires Settled() && blockno < |cache.disk| && blockno !in Held()
      modifies cache`disk, cache`history, cache`touched, cache.bufs`info
      ensures Settled() || r == null
      ensures cache.disk == old(cache.disk) && cache.history == old(cache.history)
      ensures cache.touched == old(cache.touched)
      ensures r != null ==>
                && cache.Held(r) && r !in cache.touched
                && r.info.blockno == blockno && r.info.data == cache.logical[blockno]
                && Held() == old(Held()) + {blockno} && Pinned() == old(Pinned()) && Unlogged() == old(Unlogged())
      ensures r != null && a != null && old(a in cache.bufs && a.info.locked) ==> a != r && a.info == old(a.info)
      ensures r == null ==> cache.Full()
    {
      hide CacheOk; hide OrderOk; hide Bcache.RingOk; hide Bcache.LinkedOk; hide Bcache.Valid;
      ghost var m := cache.Infos();
      NotLocked(blockno);
      var waits;
      r, waits := cache.Bread(blockno);
      if r != null {
        ghost var m' := cache.Infos();
        HeldTaken(m, r, r.info);
        forall x | x in cache.bufs && x != r
          ensures x.info == m[x]
        {
          assert m'[x] == m[x];
        }
        assert r !in cache.touched && m'[r] == r.info;
        cache.LockedNotTouched();
      }
    }

    // brelse
    method Release(b: Buf, ghost a: Buf?)
      requires Settled() && cache.Held(b) && b !in cache.touched
      modifies cache`ring, cache`clock, cache`released, cache.head, cache.bufs
      ensures Settled() && Held() == old(Held()) - {old(b.info.blockno)} && Pinned() == old(Pinned())
      ensures Unlogged() == old(Unlogged())
      ensures a != null && a in cache.bufs && a != b ==> a.info == old(a.info)
    {
      hide OrderOk; hide Bcache.RingOk; hide Bcache.LinkedOk; hide Distinct; hide DataOk; hide FlagsOk;
      ghost var m, t, d, l := cache.Infos(), cache.touched, cache.disk, cache.logical;
      assert forall x | x in m && m[x].locked :: m[x].valid;
      HeldDropped(m, t, d, l, b, m[b].(locked := false, refcnt := m[b].refcnt - 1));
      hide CacheOk;
      hide Bcache.Valid;
      cache.Brelse(b);
      ghost var m' := cache.Infos();
      forall x | x in cache.bufs && x != b
        ensures x.info == m[x]
      {
        assert m'[x] == m[x];
      }
      assert m'[b] == b.info;
    }

    // Give a held buffer new data and write it out.
    method WriteBuf(b: Buf, v: Block)
      requires Settled() && cache.Held(b) && cache.touched == {}
      modifies cache`disk, cache`history, cache`touched, cache`logical, b`info
      ensures Settled() && cache.touched == {} && b.info.blockno < |old(cache.logical)|
      ensures cache.Wrote(b.info.blockno, v) && cache.logical == old(cache.logical)[b.info.blockno := v]
      ensures b.info == old(b.info).(data := v, dirty := false)
      ensures Held() == old(Held()) && Pinned() == old(Pinned()) - {b.info.blockno}
    {
      hide OrderOk; hide Bcache.RingOk; hide Bcache.LinkedOk; hide Distinct; hide DataOk; hide FlagsOk;
      ghost var m := cache.Infos();
      PinDropped(m, cache.touched, cache.disk, cache.logical, b, m[b].(data := v, dirty := false));
      hide CacheOk;
      hide Bcache.Valid;
      cache.SetData(b, v);
      cache.Bwrite(b);
      assert m[b := m[b].(data := v)][b := b.info] == m[b := b.info];
      assert cache.Infos()[b] == b.info;
    }

    // The body of both copying loops once the two buffers are at hand: the data of `from` go to
    // `to`, which is written out, and both are released.
    method CopyOut(from: Buf, to: Buf)
      requires Settled() && cache.Held(from) && cache.Held(to) && from != to && cache.touched == {}
      modifies cache, cache.head, cache.bufs
      ensures Settled() && cache.touched == {}
      ensures old(to.info.blockno) < |old(cache.logical)|
      ensures cache.Wrote(old(to.info.blockno), old(from.info.data))
      ensures cache.logical == old(cache.logical)[old(to.info.blockno) := old(from.info.data)]
      ensures Held() == old(Held()) - {old(from.info.blockno)} - {old(to.info.blockno)}
      ensures Pinned() == old(Pinned()) - {old(to.info.blockno)}
    {
      hide CacheOk; hide Bcache.Valid; hide Settled; hide Held; hide Pinned;
      WriteBuf(to, from.info.data);
      Release(from, to);
      Release(to, null);
    }

    // Copy a block and write the copy out. False is a panic for want of buffers, with nothing
    // written.
    method CopyBlock(src: nat, dst: nat, dstFirst: bool) returns (ok: bool)
      requires Settled() && |cache.logical| == |cache.disk| && src < |cache.disk| && dst < |cache.disk|
      requires src != dst && cache.touched == {} && src !in Held() && dst !in Held()
      modifies cache, cache.head, cache.bufs
      ensures ok ==> Settled() && cache.touched == {} && cache.Wrote(dst, old(cache.logical[src]))
      ensures ok ==> cache.logical == old(cache.logical)[dst := old(cache.logical[src])]
      ensures ok ==> Held() == old(Held()) && Pinned() == old(Pinned()) - {dst}
      ensures !ok ==> cache.disk == old(cache.disk) && cache.history == old(cache.history)
      ensures !ok ==> cache.Full()
    {
      hide CacheOk; hide Bcache.Valid; hide Bcache.Full; hide Settled; hide Held; hide Pinned;
      var first, second := if dstFirst then dst else src, if dstFirst then src else dst;
      ghost var held := Held();
      var a := Read(first, null);
      if a == null {
        return false;
      }
      var b := Read(second, a);
      if b == null {
        return false;
      }
      assert held + {first} + {second} - {src} - {dst} == held;
      assert held + {first} + {second} - {dst} - {src} == held;
      if dstFirst {
        CopyOut(b, a);
      } else {
        CopyOut(a, b);
      }
      ok := true;
    }

    // What every method below keeps fixed.
    twostate predicate SameLog()
      reads this, block
    {
      n == old(n) && block[..] == old(block[..])
    }

    // One iteration of write_log.
    method WriteOne(tail: nat, ghost tx: Tx) returns (ok: bool)
      requires Idle() && tail < n && tx.Ok() && tx.L == L && tx.h == Header()
      requires cache.disk == tx.Filled(tx.before, tail) && SameHome(L, cache.logical, tx.logical)
      modifies cache, cache.head, cache.bufs
      ensures SameLog()
      ensures ok ==> Idle() && SameHome(L, cache.logical, tx.logical)
      ensures ok ==> cache.disk == tx.Filled(tx.before, tail + 1) && cache.history == old(cache.history) + [cache.disk]
      ensures ok ==> Held() == old(Held()) && Pinned() == old(Pinned()) - {L.Slot(tail)}
      ensures !ok ==> cache.disk == old(cache.disk) && cache.history == old(cache.history)
      ensures !ok ==> cache.Full()
    {
      hide CacheOk; hide Bcache.Valid; hide Bcache.Full; hide Settled; hide Held; hide Pinned; hide Recorded;
      assert block[tail] == Header()[tail] && L.Home(Header()[tail]) && L.InLog(L.Slot(tail));
      ghost var d, v, x := cache.disk, cache.logical, cache.logical[Header()[tail]];
      CleanWrite(L, d, v, L.Slot(tail), x);
      SlotWritten(L, v, tx.logical, tail, x);
      hide HeaderOk; hide LogClean; hide SameHome;
      ok := CopyBlock(block[tail], L.start + tail + 1, true);
    }

    // write_log. A panic may cut the copying short.
    method WriteLog() returns (ok: bool, ghost done: nat)
      requires Idle()
      modifies cache, cache.head, cache.bufs
      ensures SameLog() && done <= n && (ok ==> Idle() && done == n)
      ensures ok ==> Held() == old(Held()) && Pinned() <= old(Pinned())
      ensures ok ==> SameHome(L, cache.logical, old(cache.logical))
      ensures var tx := Tx(L, old(cache.disk), old(cache.logical), Header());
        && tx.Ok() && cache.disk == tx.Filled(tx.before, done)
        && FillWrites(tx, old(cache.history), cache.history, done)
      ensures ok ==> ToLog(L.start, Header(), old(cache.logical), cache.disk)
      ensures !ok ==> cache.Full()
    {
      hide ToLog;
      hide CacheOk; hide Bcache.Valid; hide Bcache.Full; hide Settled; hide Held; hide Pinned; hide Idle; hide SameHome;
      hide HeaderOk; hide FillWrites;
      NothingCopied();
      ghost var tx := Tx(L, cache.disk, cache.logical, Header());
      ghost var h0 := cache.history;
      done := 0;
      var tail := 0;
      while tail < n
        invariant tail <= n && done == tail && SameLog() && Idle() && SameHome(L, cache.logical, tx.logical)
        invariant Held() == old(Held()) && Pinned() <= old(Pinned())
        invariant cache.disk == tx.Filled(tx.before, tail) && FillWrites(tx, h0, cache.history, tail)
      {
        FillWritesNext(tx, h0, cache.history, tail);
        var copied := WriteOne(tail, tx);
        if !copied {
          ok := false;
          return;
        }
        tail, done := tail + 1, done + 1;
      }
      tx.FilledLog();
      ok := true;
    }

    lemma NothingCopied()
      requires Idle()
      ensures n <= block.Length
      ensures var tx := Tx(L, cache.disk, cache.logical, Header());
        && tx.Ok() && SameHome(L, tx.logical, tx.logical) && cache.disk == tx.Filled(tx.before, 0)
        && FillWrites(tx, cache.history, cache.history, 0)
    {
      hide CacheOk; hide Bcache.Valid; hide Settled; hide Held; hide Pinned;
    }

    // One iteration of install_trans.
    method InstallOne(tail: nat, ghost d: Disk, ghost v: Disk) returns (ok: bool)
      requires Idle() && tail < n && LogClean(L, d, v)
      requires cache.disk == Install(L, d, Header(), tail) && cache.logical == Install(L, v, Header(), tail)
      modifies cache, cache.head, cache.bufs
      ensures SameLog() && HeaderOk(L, Header()) && (ok ==> Idle())
      ensures ok ==>
                cache.disk == Install(L, d, Header(), tail + 1) && cache.history == old(cache.history) + [cache.disk]
      ensures ok ==> cache.logical == Install(L, v, Header(), tail + 1)
      ensures !ok ==> cache.disk == old(cache.disk) && cache.history == old(cache.history)
      ensures ok ==> Held() == old(Held()) && Pinned() == old(Pinned()) - {Header()[tail]}
      ensures !ok ==> cache.Full()
    {
      hide CacheOk; hide Bcache.Valid; hide Bcache.Full; hide Settled; hide Held; hide Pinned;
      assert block[tail] == Header()[tail] && L.Home(Header()[tail]) && L.InLog(L.Slot(tail));
      InstallStep(L, d, v, Header(), tail);
      ok := CopyBlock(L.start + tail + 1, block[tail], false);
    }

    // install_trans: each logged block goes to its home.
    method InstallTrans() returns (ok: bool, ghost done: nat)
      requires Idle()
      modifies cache, cache.head, cache.bufs
      ensures SameLog() && done <= n && HeaderOk(L, Header()) && (ok ==> Idle() && done == n)
      ensures ok ==> Held() == old(Held()) && Pinned() == Dropped(old(Pinned()), Header(), n)
      ensures ok ==> cache.logical == Install(L, old(cache.logical), Header(), n)
      ensures cache.disk == Install(L, old(cache.disk), Header(), done)
      ensures InstallWrites(L, old(cache.disk), Header(), old(cache.history), cache.history, done)
      ensures ok ==> FromLog(L.start, Header(), old(cache.disk), cache.disk)
      ensures !ok ==> cache.Full()
    {
      hide FromLog;
      hide CacheOk; hide Bcache.Valid; hide Bcache.Full; hide Settled; hide Held; hide Pinned; hide Idle;
      hide HeaderOk; hide LogClean;
      hide Install; hide InstallWrites; hide Dropped;
      NothingInstalled();
      ghost var d, v, h, h0 := cache.disk, cache.logical, Header(), cache.history;
      DroppedStep(Pinned(), h, 0);
      InstallNone(L, d, h);
      InstallNone(L, v, h);
      done := 0;
      var tail := 0;
      while tail < n
        invariant tail <= n && done == tail && SameLog() && Idle()
        invariant Held() == old(Held()) && Pinned() == Dropped(old(Pinned()), h, tail)
        invariant cache.disk == Install(L, d, h, tail) && cache.logical == Install(L, v, h, tail)
        invariant InstallWrites(L, d, h, h0, cache.history, tail)
      {
        InstallWritesNext(L, d, h, h0, cache.history, tail);
        DroppedStep(old(Pinned()), h, tail);
        var copied := InstallOne(tail, d, v);
        if !copied {
          return false, done;
        }
        tail, done := tail + 1, done + 1;
      }
      InstalledFromLog(L, d, h);
      ok := true;
    }

    lemma NothingInstalled()
      requires Idle()
      ensures L.Ok() && n <= block.Length && HeaderOk(L, Header()) && LogClean(L, cache.disk, cache.logical)
      ensures |cache.disk| == |cache.logical| == L.total
      ensures InstallWrites(L, cache.disk, Header(), cache.history, cache.history, 0)
    {
      hide CacheOk; hide Bcache.Valid; hide Settled; hide Held; hide Pinned;
    }

    // The in-memory header laid over the header block.
    method FillHead(b: Block) returns (d: Block)
      requires n <= block.Length < WORDS && forall i | 0 <= i < n :: block[i] < UINT
      ensures d == EncodeHead(b, Header())
    {
      d := b[0 := n];
      var i := 0;
      while i < n
        invariant i <= n && |d| == WORDS && d[0] == n
        invariant forall k | 1 <= k <= i :: d[k] == block[k - 1]
        invariant forall k | i < k < WORDS :: d[k] == b[k]
      {
        d := d[i + 1 := block[i]];
        i := i + 1;
      }
      assert d == [n] + block[..n] + b[n + 1..];
    }

    lemma HeadReady()
      requires Idle()
      ensures L.InLog(L.start) && L.start !in Held() && forall i | 0 <= i < n :: block[i] < UINT
      ensures cache.logical[L.start] == cache.disk[L.start]
      ensures var h := EncodeHead(cache.disk[L.start], Header());
        LogClean(L, cache.disk[L.start := h], cache.logical[L.start := h])
    {
      hide CacheOk; hide Bcache.Valid; hide Settled; hide Held; hide Pinned; hide EncodeHead;
      CleanWrite(L, cache.disk, cache.logical, L.start, EncodeHead(cache.disk[L.start], Header()));
    }

    // write_head
    method WriteHead() returns (ok: bool)
      requires Idle()
      modifies cache, cache.head, cache.bufs
      ensures SameLog() && (ok ==> Idle())
      ensures ok ==> Held() == old(Held()) && Pinned() == old(Pinned()) - {L.start}
      ensures ok ==> cache.Wrote(L.start, EncodeHead(old(cache.disk)[L.start], Header()))
      ensures ok ==> cache.disk[L.start][0] == n && forall i: nat | i < n :: cache.disk[L.start][i + 1] == block[i]
      ensures ok ==> cache.logical == old(cache.logical)[L.start := cache.disk[L.start]]
      ensures !ok ==> cache.disk == old(cache.disk) && cache.history == old(cache.history)
      ensures !ok ==> cache.Full()
    {
      hide CacheOk; hide Bcache.Valid; hide Bcache.Full; hide Settled; hide Held; hide Pinned;
      hide HeaderOk; hide LogClean; hide Unlogged; hide EncodeHead; hide Recorded;
      HeadReady();
      Regained(Held(), L.start);
      var buf := Read(L.start, null);
      if buf == null {
        return false;
      }
      var hb := FillHead(buf.info.data);
      WriteBuf(buf, hb);
      Release(buf, null);
      ok := true;
    }

    // log.lh.n = 0; write_head()
    method ClearHead() returns (ok: bool)
      requires Idle()
      modifies this`n, cache, cache.head, cache.bufs
      ensures ok ==> Idle() && Header() == []
      ensures ok ==> Held() == old(Held()) && Pinned() == old(Pinned()) - {L.start}
      ensures ok ==> cache.Wrote(L.start, EncodeHead(old(cache.disk)[L.start], []))
      ensures ok ==> cache.logical == old(cache.logical)[L.start := cache.disk[L.start]]
      ensures !ok ==> cache.disk == old(cache.disk) && cache.history == old(cache.history)
      ensures !ok ==> cache.Full()
    {
      hide CacheOk; hide Bcache.Valid; hide Bcache.Full; hide Settled; hide Held; hide Pinned;
      n := 0;
      assert Header() == [];
      ok := WriteHead();
    }

    // The header block laid over the in-memory header.
    method LoadHead(b: Block)
      requires b[0] <= LOGSIZE == block.Length
      modifies this`n, block
      ensures n == b[0] && Header() == DecodeHead(b) && forall i: nat | i < n :: block[i] == b[i + 1]
    {
      n := b[0];
      var i := 0;
      while i < n
        modifies block
        invariant i <= n
        invariant forall j | 0 <= j < i :: block[j] == b[j + 1]
      {
        block[i] := b[i + 1];
        i := i + 1;
      }
      assert Header() == DecodeHead(b);
    }

    // read_head
    method ReadHead() returns (ok: bool)
      requires Idle() && Held() == {}
      requires cache.logical[L.start][0] <= LOGSIZE && HeaderOk(L, DecodeHead(cache.logical[L.start]))
      modifies this`n, block, cache, cache.head, cache.bufs
      ensures cache.disk == old(cache.disk) && cache.history == old(cache.history)
      ensures ok ==> Idle() && cache.logical == old(cache.logical) && Header() == DecodeHead(cache.logical[L.start])
      ensures ok ==> Held() == {} && Pinned() == old(Pinned())
      ensures ok ==> n == cache.disk[L.start][0] && forall i: nat | i < n :: block[i] == cache.disk[L.start][i + 1]
      ensures !ok ==> cache.Full()
    {
      hide CacheOk; hide Bcache.Valid; hide Bcache.Full; hide Settled; hide Held; hide Pinned;
      assert cache.logical[L.start] == cache.disk[L.start] by { assert L.InLog(L.start); }
      hide HeaderOk; hide LogClean; hide Unlogged;
      Regained(Held(), L.start);
      var buf := Read(L.start, null);
      if buf == null {
        return false;
      }
      LoadHead(buf.info.data);
      Release(buf, null);
      ok := true;
    }

    lemma AtRest()
      requires Idle() && Header() == [] && Pinned() == {} && cache.disk[L.start][0] == 0
      requires SameHome(L, cache.logical, cache.disk)
      ensures Valid()
    {
      hide Held; hide Pinned; hide Settled;
    }

    // recover_from_log, run once at boot over a cold cache. Wherever it is cut short, what it has
    // written is a prefix of one recovery.
    method RecoverFromLog() returns (ok: bool)
      requires Idle() && Held() == {} && Pinned() == {} && DiskOk(L, cache.disk) && cache.logical == cache.disk
      modifies this`n, block, cache, cache.head, cache.bufs
      ensures ok ==> Valid() && Header() == [] && cache.disk == Recover(L, old(cache.disk))
      ensures ok ==> Held() == {} && Pinned() == {} && cache.logical == cache.disk
      ensures RecoveryWrites(L, old(cache.disk), old(cache.history), cache.history)
      ensures ok ==> |cache.history| == |old(cache.history)| + |DecodeHead(old(cache.disk)[L.start])| + 1
      ensures ok ==> PutInPlace(L.start, old(cache.disk), cache.disk)
      ensures !ok ==> cache.Full()
    {
      hide PutInPlace; hide CacheOk; hide Bcache.Valid; hide Bcache.Full; hide Settled; hide Held; hide Pinned;
      hide LogClean; hide EncodeHead; hide Recorded; hide Unlogged; hide HeaderOk; hide Install; hide RecoveryWrites;
      ghost var d, h0 := cache.disk, cache.history;
      RecoveryBegun(L, d, h0, h0, 0);
      ok := ReadHead();
      if !ok {
        return;
      }
      ghost var done;
      ok, done := InstallTrans();
      RecoveryBegun(L, d, h0, cache.history, done);
      if !ok {
        return;
      }
      RecoverWrite(L, d, n);
      AllDropped({}, Header(), L.start);
      hide Dropped;
      ghost var h1 := cache.history;
      ok := ClearHead();
      if ok {
        RecoveryEnded(L, d, h0, h1, cache.disk);
        RecoveredBlocks(L, d);
        AtRest();
      }
    }

    // commit. Whether it ends or a panic cuts it short, the disks it goes through are those of
    // one transaction; so a crash after any of its block writes recovers all of it or nothing.
    method Commit() returns (ok: bool)
      requires Valid()
      modifies this`n, cache, cache.head, cache.bufs
      ensures ok ==> Valid() && Header() == [] && Held() == old(Held()) && Pinned() == {}
      ensures ok ==> SameHome(L, cache.logical, old(cache.logical))
      ensures |old(cache.history)| <= |cache.history| && cache.history[..|old(cache.history)|] == old(cache.history)
      ensures var tx := Tx(L, old(cache.disk), old(cache.logical), old(Header()));
        var ds := [old(cache.disk)] + cache.history[|old(cache.history)|..];
        && tx.Ok() && tx.Trace(ds) && tx.CrashSafe(ds)
        && (ok ==> |ds| == if old(n) == 0 then 1 else tx.Writes() + 1)
        && (ok ==> cache.disk == ds[|ds| - 1])
      ensures old(n) == 0 ==> ok
      ensures ok && old(n) > 0 ==> Saved(L.start, old(Header()), old(cache.logical), cache.disk)
      ensures !ok ==> cache.Full()
    {
      hide Saved; hide Tx.Trace; hide Tx.CrashSafe;
      hide CacheOk; hide Bcache.Valid; hide Bcache.Full; hide Settled; hide Held; hide Pinned;
      ghost var tx := Tx(L, cache.disk, cache.logical, Header());
      ghost var d, h0 := cache.disk, cache.history;
      NoneUnlogged();
      tx.RecordedIsComplete();
      ok := true;
      if n > 0 {
        ghost var ds := [d];
        ok, ds := CommitParts(tx);
        tx.TraceStart(ds);
        assert [d] + cache.history[|h0|..] == ds;
        tx.TraceIsCrashSafe(ds);
        if ok {
          NoneUnlogged();
          tx.CommittedRecords(ds, cache.logical);
          tx.CommittedBlocks(ds);
        }
      } else {
        ghost var ds := [d];
        tx.TraceFill(ds);
        assert [d] + cache.history[|h0|..] == ds;
        tx.TraceIsCrashSafe(ds);
        assert Header() == [];
      }
    }

    lemma NoneUnlogged()
      requires n <= block.Length && Quiet()
      ensures Unlogged() == {}
    {}

    // The four calls inside commit().
    method CommitParts(ghost tx: Tx) returns (ok: bool, ghost ds: seq<Disk>)
      requires Idle() && tx == Tx(L, cache.disk, cache.logical, Header())
      modifies this`n, cache, cache.head, cache.bufs
      ensures ok ==> Idle() && Header() == [] && Held() == old(Held())
      ensures ok ==> old(Pinned()) <= BlocksOf(tx.h) ==> Pinned() == {}
      ensures ok ==> SameHome(L, cache.logical, tx.logical)
      ensures tx.Ok() && tx.Trace(ds) && cache.history == old(cache.history) + ds[1..]
      ensures ok ==> |ds| == tx.Writes() + 1 && cache.disk == ds[|ds| - 1]
      ensures !ok ==> cache.Full()
    {
      hide CacheOk; hide Bcache.Valid; hide Bcache.Full; hide Settled; hide Held; hide Pinned; hide Tx.Trace;
      hide HeaderOk; hide LogClean; hide Tx.Filled;
      ok, ds := CommitBegin(tx);
      if ok {
        ghost var rest;
        ok, rest := CommitRest(tx, ds);
        Joined(old(cache.history), ds, rest);
        ds := ds + rest;
      }
    }

    // First write_log and write_head,
    method CommitBegin(ghost tx: Tx) returns (ok: bool, ghost ds: seq<Disk>)
      requires Idle() && tx == Tx(L, cache.disk, cache.logical, Header())
      modifies cache, cache.head, cache.bufs
      ensures SameLog() && tx.Ok() && tx.Trace(ds) && cache.history == old(cache.history) + ds[1..]
      ensures ok ==> Idle() && |ds| == n + 2 && cache.disk == ds[n + 1]
      ensures ok ==> Held() == old(Held()) && Pinned() <= old(Pinned())
      ensures ok ==> SameHome(L, cache.logical, tx.logical) && SlotsHold(tx, cache.logical)
      ensures !ok ==> cache.Full()
    {
      hide CacheOk; hide Bcache.Valid; hide Bcache.Full; hide Settled; hide Held; hide Pinned; hide Tx.Trace;
      hide HeaderOk; hide EncodeHead; hide SameHome; hide SlotsHold;
      ghost var h0 := cache.history;
      ghost var done;
      ok, done := WriteLog();
      ds := [tx.before] + cache.history[|h0|..];
      tx.TraceFill(ds);
      Grown(h0, cache.history, [tx.before]);
      if ok {
        tx.FilledAt(tx.before, n);
        SlotsCached(tx, cache.disk, cache.logical);
        ok, ds := CommitHead(tx, ds, h0);
      }
    }

    method CommitHead(ghost tx: Tx, ghost filled: seq<Disk>, ghost was: seq<Disk>)
      returns (ok: bool, ghost ds: seq<Disk>)
      requires Idle() && tx.Ok() && tx.L == L && tx.h == Header()
      requires tx.Trace(filled) && |filled| == n + 1 && cache.disk == filled[n] && cache.history == was + filled[1..]
      requires SameHome(L, cache.logical, tx.logical) && SlotsHold(tx, cache.logical)
      modifies cache, cache.head, cache.bufs
      ensures SameLog() && tx.Trace(ds) && cache.history == was + ds[1..]
      ensures ok ==> Idle() && |ds| == n + 2 && cache.disk == ds[n + 1]
      ensures ok ==> Held() == old(Held()) && Pinned() <= old(Pinned())
      ensures ok ==> SameHome(L, cache.logical, tx.logical) && SlotsHold(tx, cache.logical)
      ensures !ok ==> cache.Full()
    {
      ghost var v := cache.logical;
      hide CacheOk; hide Bcache.Valid; hide Bcache.Full; hide Settled; hide Held; hide Pinned; hide Tx.Trace;
      hide HeaderOk; hide EncodeHead; hide SameHome; hide SlotsHold; hide Idle;
      InLogOk();
      ds := filled;
      ok := WriteHead();
      if !ok {
        return;
      }
      StartWritten(tx, v, cache.disk[L.start]);
      tx.TraceSnoc(ds, cache.disk);
      Joined(was, ds, [cache.disk]);
      ds := ds + [cache.disk];
    }

    lemma InLogOk()
      requires Idle()
      ensures L.Ok() && |cache.disk| == |cache.logical| == L.total && n <= block.Length && HeaderOk(L, Header())
    {}

    // and then install_trans and the write_head that erases the transaction from the log.
    method CommitRest(ghost tx: Tx, ghost ds: seq<Disk>) returns (ok: bool, ghost rest: seq<Disk>)
      requires Idle() && tx.Ok() && tx.L == L && tx.h == Header() && tx.Trace(ds)
      requires |ds| == n + 2 && cache.disk == ds[n + 1]
      requires SameHome(L, cache.logical, tx.logical) && SlotsHold(tx, cache.logical)
      modifies this`n, cache, cache.head, cache.bufs
      ensures ok ==> Idle() && Header() == [] && Held() == old(Held())
      ensures ok ==> old(Pinned()) <= BlocksOf(tx.h) ==> Pinned() == {}
      ensures ok ==> SameHome(L, cache.logical, tx.logical)
      ensures tx.Trace(ds + rest) && cache.history == old(cache.history) + rest
      ensures ok ==> |ds + rest| == tx.Writes() + 1 && cache.disk == (ds + rest)[|ds + rest| - 1]
      ensures !ok ==> cache.Full()
    {
      hide CacheOk; hide Bcache.Valid; hide Bcache.Full; hide Settled; hide Held; hide Pinned;
      hide Tx.Trace; hide HeaderOk; hide EncodeHead; hide SameHome; hide SlotsHold; hide Idle; hide Dropped;
      InLogOk();
      ghost var p, h1 := Pinned(), cache.history;
      ok, rest := CommitInstall(tx, ds);
      if !ok {
        return;
      }
      if p <= BlocksOf(tx.h) {
        AllDropped(p, tx.h, L.start);
      }
      ghost var all, v := ds + rest, cache.logical;
      ok := ClearHead();
      if !ok {
        return;
      }
      InLogOk();
      StartHome(tx, v, cache.disk[L.start]);
      tx.TraceSnoc(all, cache.disk);
      assert all + [cache.disk] == ds + (rest + [cache.disk]);
      rest := rest + [cache.disk];
    }

    method CommitInstall(ghost tx: Tx, ghost ds: seq<Disk>) returns (ok: bool, ghost rest: seq<Disk>)
      requires Idle() && tx.Ok() && tx.L == L && tx.h == Header() && tx.Trace(ds)
      requires |ds| == n + 2 && cache.disk == ds[n + 1]
      requires SameHome(L, cache.logical, tx.logical) && SlotsHold(tx, cache.logical)
      modifies cache, cache.head, cache.bufs
      ensures SameLog() && (ok ==> Idle() && Held() == old(Held()) && Pinned() == Dropped(old(Pinned()), tx.h, n))
      ensures ok ==> SameHome(L, cache.logical, tx.logical)
      ensures tx.Trace(ds + rest) && cache.history == old(cache.history) + rest
      ensures ok ==> |ds + rest| == tx.Writes() && cache.disk == (ds + rest)[|ds + rest| - 1]
      ensures !ok ==> cache.Full()
    {
      hide CacheOk; hide Bcache.Valid; hide Bcache.Full; hide Settled; hide Held; hide Pinned; hide Dropped;
      hide Tx.Trace; hide HeaderOk; hide EncodeHead; hide SameHome; hide SlotsHold; hide Idle; hide Install;
      InLogOk();
      ghost var h1, v, done := cache.history, cache.logical, 0;
      ok, done := InstallTrans();
      rest := cache.history[|h1|..];
      tx.TraceInstall(ds, rest);
      Grown(h1, cache.history, ds);
      if ok {
        HomesRestored(tx, v, cache.logical);
        LastInstalled(tx.L, ds, rest, tx.h, cache.disk);
      }
    }

    // One turn of begin_op's loop: false means the caller sleeps on the log and tries again.
    method TryBeginOp() returns (admitted: bool)
      modifies this`outstanding
      ensures admitted <==> !committing && n + (old(outstanding) + 1) * 10 <= 30
      ensures outstanding == old(outstanding) + if admitted then 1 else 0
      ensures old(Open()) ==> Open() && Value() == old(Value()).(outstanding := outstanding)
    {
      hide CacheOk; hide Bcache.Valid; hide Settled; hide Held; hide Pinned; hide Recorded; hide HeaderOk;
      hide LogClean;
      if committing {
        admitted := false;
      } else if n + (outstanding + 1) * MAXOPBLOCKS > LOGSIZE {
        admitted := false;
      } else {
        outstanding := outstanding + 1;
        admitted := true;
      }
    }

    // The search of log_write through the header, and the absorption of a block that is there already.
    method Record(blockno: nat)
      requires n < block.Length
      modifies this`n, block
      ensures n <= block.Length
      ensures Header() == if blockno in old(Header()) then old(Header()) else old(Header()) + [blockno]
    {
      var i := 0;
      while i < n && block[i] != blockno
        invariant i <= n && forall j | 0 <= j < i :: block[j] != blockno
      {
        i := i + 1;
      }
      ghost var h := Header();
      block[i] := blockno;
      if i == n {
        n := n + 1;
        assert Header() == h + [blockno];
      } else {
        assert Header() == h && h[i] == blockno;
      }
    }

    // The flag that log_write sets.
    method PinBuf(b: Buf)
      requires Settled() && cache.Held(b)
      modifies cache`touched, b`info
      ensures Settled() && b.info == old(b.info).(dirty := true) && cache.touched == old(cache.touched) - {b}
      ensures Pinned() == old(Pinned()) + {b.info.blockno} && Held() == old(Held())
      ensures Unlogged() == old(Unlogged()) - {b.info.blockno}
    {
      hide OrderOk; hide Bcache.RingOk; hide Bcache.LinkedOk; hide DataOk;
      ghost var m, t := cache.Infos(), cache.touched;
      assert FlagsOk(m, t, |cache.disk|) && Distinct(m);
      PinTaken(m, b, m[b].(dirty := true));
      OthersElsewhere(m, t, |cache.disk|, b);
      hide CacheOk; hide Bcache.Valid; hide Distinct; hide FlagsOk; hide PinnedOf; hide HeldOf;
      cache.Pin(b);
      assert cache.Infos()[b] == b.info;
      assert forall x | x in m && x != b :: cache.Infos()[x] == m[x];
      UnloggedLess(m, t, b);
    }

    lemma UnloggedLess(m: Infos, t: set<Buf>, b: Buf)
      requires m.Keys == cache.bufs && b in cache.bufs && cache.touched == t - {b} && b.info.blockno == m[b].blockno
      requires forall x | x in cache.bufs && x != b :: x.info == m[x]
      requires forall x | x in t && x in m && x != b :: m[x].blockno != m[b].blockno
      ensures Unlogged() == (set x | x in cache.bufs && x in t :: m[x].blockno) - {b.info.blockno}
    {
      forall k | k in (set x | x in cache.bufs && x in t :: m[x].blockno) && k != b.info.blockno
        ensures k in Unlogged()
      {
        var x :| x in cache.bufs && x in t && m[x].blockno == k;
        assert x.info.blockno == k && x in cache.touched;
      }
    }

    // log_write: record the block number once and pin the buffer. False is one of its panics.
    method LogWrite(b: Buf) returns (ok: bool)
      requires Open() && cache.Held(b) && L.Home(b.info.blockno)
      modifies this`n, block, cache`touched, b`info
      ensures ok <==> old(n < 30 && n < L.size - 1 && outstanding >= 1)
      ensures ok ==> Open()
      ensures ok ==>
        Header() == if b.info.blockno in old(Header()) then old(Header()) else old(Header()) + [b.info.blockno]
      ensures ok ==> b.info == old(b.info).(dirty := true) && cache.touched == old(cache.touched) - {b}
      ensures ok ==> Value() == old(Value()).(header := Header(), pinned := old(Pinned()) + {b.info.blockno},
                                              unlogged := old(Unlogged()) - {b.info.blockno})
    {
      hide CacheOk; hide Bcache.Valid; hide Settled; hide Held; hide Pinned; hide Recorded;
      if n >= LOGSIZE || n >= L.size - 1 {
        return false;  // "too big a transaction"
      }
      if outstanding < 1 {
        return false;  // "log_write outside of trans"
      }
      ghost var h, x := Header(), Unlogged();
      Record(b.info.blockno);
      PinBuf(b);
      RecordedLogged(L, cache.disk, cache.logical, h, x, Header(), Unlogged());
      ok := true;
    }

    // The memmove of an operation into a buffer it holds.
    method Change(b: Buf, v: Block)
      requires Open() && cache.Held(b) && L.Home(b.info.blockno)
      modifies cache`logical, cache`touched, b`info
      ensures Open() && cache.Held(b) && b.info == old(b.info).(data := v)
      ensures cache.logical == old(cache.logical)[b.info.blockno := v] && cache.touched == old(cache.touched) + {b}
      ensures Value() == old(Value()).(logical := cache.logical, unlogged := old(Unlogged()) + {b.info.blockno})
    {
      hide CacheOk; hide Bcache.Valid; hide Settled; hide Held; hide Pinned; hide Recorded; hide Unlogged;
      hide HeaderOk;
      ghost var d, l, x := cache.disk, cache.logical, Unlogged();
      SetBuf(b, v);
      RecordedChanged(L, d, l, Header(), x, b.info.blockno, v);
    }

    method SetBuf(b: Buf, v: Block)
      requires Settled() && cache.Held(b)
      modifies cache`logical, cache`touched, b`info
      ensures Settled() && cache.Held(b) && b.info == old(b.info).(data := v) && b.info.blockno < |old(cache.logical)|
      ensures cache.logical == old(cache.logical)[b.info.blockno := v] && cache.touched == old(cache.touched) + {b}
      ensures Pinned() == old(Pinned()) && Held() == old(Held())
      ensures Unlogged() == old(Unlogged()) + {b.info.blockno}
    {
      hide CacheOk; hide Bcache.Valid;
      ghost var m, t := cache.Infos(), cache.touched;
      cache.SetData(b, v);
      ghost var m' := cache.Infos();
      assert m'[b] == b.info;
      assert forall x | x in m && x != b :: x.info == m'[x] == m[x];
      SamePins(m, m');
      SameHeld(m, m');
    }

    // bread and brelse by any process outside commits.
    method Get(blockno: nat) returns (r: Buf?)
      requires Open() && blockno < L.total && blockno !in Held()
      modifies cache`disk, cache`history, cache`touched, cache.bufs`info
      ensures cache.disk == old(cache.disk) && cache.touched == old(cache.touched)
      ensures r != null ==> Open() && cache.Held(r) && r !in cache.touched && r.info.blockno == blockno
      ensures r != null ==>
                r.info.data == cache.logical[blockno] && Value() == old(Value()).(held := old(Held()) + {blockno})
      ensures r == null ==> cache.Full()
    {
      hide CacheOk; hide Bcache.Valid; hide Bcache.Full; hide Settled; hide Held; hide Pinned; hide Recorded;
      hide HeaderOk;
      hide Unlogged; hide LogClean;
      r := Read(blockno, null);
    }

    method Put(b: Buf)
      requires Open() && cache.Held(b) && b !in cache.touched
      modifies cache`ring, cache`clock, cache`released, cache.head, cache.bufs
      ensures Open() && Value() == old(Value()).(held := old(Held()) - {old(b.info.blockno)})
    {
      hide CacheOk; hide Bcache.Valid; hide Settled; hide Held; hide Pinned; hide Recorded; hide HeaderOk;
      hide Unlogged; hide LogClean;
      Release(b, null);
    }

    // What an operation does to change a block, as in bzero: read it, change the buffer, log it and let
    // it go.
    method Rewrite(blockno: nat, v: Block) returns (ok: bool)
      requires Open() && L.Home(blockno) && blockno !in Held()
      modifies this`n, block, cache, cache.head, cache.bufs
      ensures ok ==> Open() && blockno in Header() && cache.touched == old(cache.touched)
      ensures ok ==> cache.logical == old(cache.logical)[blockno := v] && cache.disk == old(cache.disk)
      ensures !ok ==> cache.Full() || old(n >= 30 || n >= L.size - 1 || outstanding < 1)
    {
      hide CacheOk; hide Bcache.Valid; hide Bcache.Full; hide Settled; hide Held; hide Pinned; hide Recorded;
      hide HeaderOk; hide Open;
      ghost var x := cache.touched;
      var b := Get(blockno);
      if b == null {
        return false;
      }
      Change(b, v);
      ok := LogWrite(b);
      if ok {
        Regained(x, b);
        Put(b);
      }
    }

    // end_op: the last operation to end commits. False is a panic inside commit().
    method EndOp() returns (ok: bool)
      requires outstanding >= 1 && !committing && (outstanding == 1 ==> Valid())
      modifies this`outstanding, this`committing, this`n, cache, cache.head, cache.bufs
      ensures outstanding == old(outstanding) - 1
      ensures old(outstanding) > 1 ==> ok && !committing && n == old(n) && cache.history == old(cache.history)
      ensures old(outstanding) > 1 && old(Open()) ==> Open() && Value() == old(Value()).(outstanding := outstanding)
      ensures old(outstanding) == 1 && ok ==>
        && Valid() && SameHome(L, cache.logical, old(cache.logical))
        && Value() == Memory(cache.disk, cache.logical, [], {}, old(Held()), {}, 0, false)
      ensures old(outstanding) == 1 ==>
        |old(cache.history)| <= |cache.history| && cache.history[..|old(cache.history)|] == old(cache.history)
      ensures old(outstanding) == 1 ==>
        var tx := Tx(L, old(cache.disk), old(cache.logical), old(Header()));
        var ds := [old(cache.disk)] + cache.history[|old(cache.history)|..];
        && tx.Ok() && tx.Trace(ds) && tx.CrashSafe(ds)
        && (ok ==> |ds| == (if old(n) == 0 then 1 else tx.Writes() + 1) && cache.disk == ds[|ds| - 1])
      ensures old(outstanding) == 1 && old(n) > 0 && ok ==>
                Saved(L.start, old(Header()), old(cache.logical), cache.disk)
      ensures old(n) == 0 ==> ok
      ensures !ok ==> cache.Full()
    {
      hide Saved;
      hide CacheOk; hide Bcache.Valid; hide Bcache.Full; hide Settled; hide Held; hide Pinned;
      hide Tx.Trace; hide Tx.CrashSafe; hide Recorded;
      ok := true;
      outstanding := outstanding - 1;
      if outstanding == 0 {
        committing := true;
        ok := Commit();
        if ok {
          committing := false;
        }
      }
    }
  }

  lemma Regained<T>(x: set<T>, b: T)
    requires b !in x
    ensures x + {b} - {b} == x
  {}

  // The disks written since `was` are those of k copies of write_log, or of install_trans.
  ghost predicate FillWrites(tx: Tx, was: seq<Disk>, now: seq<Disk>, k: nat)
    requires tx.Ok() && k <= |tx.h|
  {
    && |now| == |was| + k && now[..|was|] == was
    && forall i | |was| <= i < |now| :: now[i] == tx.Filled(tx.before, i - |was| + 1)
  }

  lemma FillWritesNext(tx: Tx, was: seq<Disk>, now: seq<Disk>, k: nat)
    requires tx.Ok() && k < |tx.h| && FillWrites(tx, was, now, k)
    ensures FillWrites(tx, was, now + [tx.Filled(tx.before, k + 1)], k + 1)
  {
    hide HeaderOk;
  }

  ghost predicate InstallWrites(L: Layout, d: Disk, h: seq<nat>, was: seq<Disk>, now: seq<Disk>, k: nat)
    requires L.Ok() && |d| == L.total && HeaderOk(L, h) && k <= |h|
  {
    && |now| == |was| + k && now[..|was|] == was
    && forall i | |was| <= i < |now| :: now[i] == Install(L, d, h, i - |was| + 1)
  }

  lemma InstallWritesNext(L: Layout, d: Disk, h: seq<nat>, was: seq<Disk>, now: seq<Disk>, k: nat)
    requires L.Ok() && |d| == L.total && HeaderOk(L, h) && k < |h| && InstallWrites(L, d, h, was, now, k)
    ensures InstallWrites(L, d, h, was, now + [Install(L, d, h, k + 1)], k + 1)
  {
    hide HeaderOk; hide Install;
  }

  lemma InstallNone(L: Layout, d: Disk, h: seq<nat>)
    requires L.Ok() && |d| == L.total && HeaderOk(L, h)
    ensures Install(L, d, h, 0) == d
  {}

  // The blocks of p but for the first k of h.
  function Dropped(p: set<nat>, h: seq<nat>, k: nat): set<nat>
    requires k <= |h|
  {
    if k == 0 then p else Dropped(p, h, k - 1) - {h[k - 1]}
  }

  lemma DroppedStep(p: set<nat>, h: seq<nat>, k: nat)
    requires k <= |h|
    ensures Dropped(p, h, 0) == p
    ensures k < |h| ==> Dropped(p, h, k + 1) == Dropped(p, h, k) - {h[k]}
  {}

  lemma {:induction false} DroppedIs(p: set<nat>, h: seq<nat>, k: nat)
    requires k <= |h|
    ensures forall b :: b in Dropped(p, h, k) <==> b in p && b !in h[..k]
  {
    if k > 0 {
      DroppedIs(p, h, k - 1);
      assert h[..k] == h[..k - 1] + [h[k - 1]];
    }
  }

  lemma AllDropped(p: set<nat>, h: seq<nat>, b: nat)
    requires p <= BlocksOf(h)
    ensures Dropped(p, h, |h|) - {b} == {}
  {
    DroppedIs(p, h, |h|);
    assert h[..|h|] == h;
  }

  lemma SlotWritten(L: Layout, v: Disk, e: Disk, k: nat, x: Block)
    requires SameHome(L, v, e) && k + 1 < L.size && L.Slot(k) < L.total
    ensures SameHome(L, v[L.Slot(k) := x], e)
  {}

  lemma CleanWrite(L: Layout, d: Disk, v: Disk, b: nat, x: Block)
    requires L.Ok() && LogClean(L, d, v) && b < L.total
    ensures LogClean(L, d[b := x], v[b := x])
  {}

  lemma OthersElsewhere(m: Infos, t: set<Buf>, n: nat, b: Buf)
    requires FlagsOk(m, t, n) && Distinct(m) && b in m && m[b].valid
    ensures forall x | x in t && x in m && x != b :: m[x].blockno != m[b].blockno
  {
    forall x | x in t && x in m && x != b
      ensures m[x].blockno != m[b].blockno
    {
      assert m[x].dev == m[b].dev == 1;
    }
  }

  function BlocksOf(h: seq<nat>): set<nat> {
    set b | b in h
  }

  // Logging a block records it.
  lemma RecordedLogged(L: Layout, disk: Disk, logical: Disk, h: seq<nat>, x: set<nat>, h': seq<nat>, x': set<nat>)
    requires Recorded(L, disk, logical, h, x)
    requires forall b | b in h || b in x :: b in h' || b in x'
    ensures Recorded(L, disk, logical, h', x')
  {}

  // Changing a block leaves that one to be recorded.
  lemma RecordedChanged(L: Layout, disk: Disk, logical: Disk, h: seq<nat>, x: set<nat>, b: nat, v: Block)
    requires Recorded(L, disk, logical, h, x) && L.Home(b)
    ensures Recorded(L, disk, logical[b := v], h, x + {b})
  {}

  // The log slots are cached with what belongs in them.
  ghost predicate SlotsHold(tx: Tx, v: Disk)
    requires tx.Ok()
  {
    forall i: nat | i < |tx.h| :: tx.L.start < tx.L.Slot(i) < |v| && v[tx.L.Slot(i)] == tx.logical[tx.h[i]]
  }

  lemma SlotsCached(tx: Tx, d: Disk, v: Disk)
    requires tx.Ok() && LogClean(tx.L, d, v) && d == tx.Filled(tx.before, |tx.h|)
    requires forall i: nat | i < |tx.h| :: d[tx.L.Slot(i)] == tx.logical[tx.h[i]]
    ensures SlotsHold(tx, v)
  {
    assert forall i: nat | i < |tx.h| :: tx.L.InLog(tx.L.Slot(i));
  }

  // The header block is none of the homes and none of the slots.
  lemma StartHome(tx: Tx, v: Disk, x: Block)
    requires tx.Ok() && SameHome(tx.L, v, tx.logical)
    ensures SameHome(tx.L, v[tx.L.start := x], tx.logical)
  {}

  lemma StartWritten(tx: Tx, v: Disk, x: Block)
    requires tx.Ok() && SameHome(tx.L, v, tx.logical) && SlotsHold(tx, v)
    ensures SameHome(tx.L, v[tx.L.start := x], tx.logical) && SlotsHold(tx, v[tx.L.start := x])
  {}

  lemma HomesRestored(tx: Tx, v: Disk, w: Disk)
    requires tx.Ok() && SameHome(tx.L, v, tx.logical) && SlotsHold(tx, v) && w == Install(tx.L, v, tx.h, |tx.h|)
    ensures SameHome(tx.L, w, tx.logical)
  {
    tx.InstallRestores(v, w);
  }

  lemma LastInstalled(L: Layout, ds: seq<Disk>, rest: seq<Disk>, h: seq<nat>, d: Disk)
    requires L.Ok() && HeaderOk(L, h) && |ds| == |h| + 2 && |rest| == |h| && |ds[|h| + 1]| == L.total
    requires forall k | 0 <= k < |rest| :: rest[k] == Install(L, ds[|h| + 1], h, k + 1)
    requires d == Install(L, ds[|h| + 1], h, |h|)
    ensures d == (ds + rest)[|ds + rest| - 1]
  {}

  lemma Joined(was: seq<Disk>, ds: seq<Disk>, es: seq<Disk>)
    requires |ds| >= 1
    ensures was + ds[1..] + es == was + (ds + es)[1..]
  {}

  lemma Grown(was: seq<Disk>, now: seq<Disk>, ds: seq<Disk>)
    requires |was| <= |now| && now[..|was|] == was && |ds| >= 1
    ensures now == was + now[|was|..]
    ensures now == was + (([ds[0]] + now[|was|..])[1..])
  {}

  lemma RecoveryEnded(L: Layout, d: Disk, was: seq<Disk>, now: seq<Disk>, last: Disk)
    requires DiskOk(L, d) && RecoveryWrites(L, d, was, now)
    requires var n := |DecodeHead(d[L.start])|; |now| == |was| + n && last == RecoverDisk(L, d, n + 1)
    ensures RecoveryWrites(L, d, was, now + [last])
  {}

  // The disks written since `was` are those of a recovery from d, perhaps cut short.
  ghost predicate RecoveryWrites(L: Layout, d: Disk, was: seq<Disk>, now: seq<Disk>)
    requires DiskOk(L, d)
  {
    && |was| <= |now| <= |was| + |DecodeHead(d[L.start])| + 1
    && now[..|was|] == was
    && (forall i | |was| <= i < |now| :: now[i] == RecoverDisk(L, d, i - |was| + 1))
  }

  lemma RecoveryBegun(L: Layout, d: Disk, was: seq<Disk>, now: seq<Disk>, done: nat)
    requires DiskOk(L, d) && done <= |DecodeHead(d[L.start])|
    requires |now| == |was| + done && now[..|was|] == was
    requires forall i | |was| <= i < |now| :: now[i] == Install(L, d, DecodeHead(d[L.start]), i - |was| + 1)
    ensures RecoveryWrites(L, d, was, now)
  {}

  ghost predicate LogClean(L: Layout, disk: Disk, logical: Disk) {
    |disk| == |logical| == L.total && forall b: nat | L.InLog(b) && b < L.total :: logical[b] == disk[b]
  }

  lemma InstallStep(L: Layout, d: Disk, v: Disk, h: seq<nat>, k: nat)
    requires L.Ok() && HeaderOk(L, h) && k < |h| && LogClean(L, d, v)
    ensures Install(L, d, h, k + 1) == Install(L, d, h, k)[h[k] := Install(L, v, h, k)[L.Slot(k)]]
    ensures Install(L, v, h, k + 1) == Install(L, v, h, k)[h[k] := Install(L, v, h, k)[L.Slot(k)]]
    ensures LogClean(L, Install(L, d, h, k + 1), Install(L, v, h, k + 1))
  {
    InstallAt(L, d, h, k + 1);
    InstallAt(L, v, h, k + 1);
    InstallAt(L, d, h, k);
    InstallAt(L, v, h, k);
    assert L.InLog(L.Slot(k)) && L.Slot(k) !in h[..k];
    assert forall b: nat | L.InLog(b) && b < L.total :: b !in h[..k + 1];
  }
}
