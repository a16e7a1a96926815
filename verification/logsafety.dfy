/** Every step of the logging system keeps its invariant, so every run does: at every moment a crash
    would recover exactly the last committed state, and no operation is ever split. */
module LogSafety {
  import opened Machine
  import opened Blocks
  import opened LogSpec
  import opened LogProtocol

  // ---------------------------------------------------------------- sums over the processes

  lemma {:induction false} OpsUpdate(ops: seq<Op>, p: nat, o: Op)
    requires p < |ops|
    ensures Weight(ops[p]) <= Reserved(ops)
    ensures Reserved(ops[p := o]) == Reserved(ops) - Weight(ops[p]) + Weight(o)
    ensures CountOps(ops[p := o]) + (if ops[p].Op? then 1 else 0) == CountOps(ops) + if o.Op? then 1 else 0
  {
    var n := |ops| - 1;
    if p < n {
      OpsUpdate(ops[..n], p, o);
      assert ops[p := o][..n] == ops[..n][p := o];
    } else {
      assert ops[p := o][..n] == ops[..n];
    }
  }

  lemma {:induction false} ReservedBound(ops: seq<Op>)
    ensures Reserved(ops) <= CountOps(ops) * MAXOPBLOCKS
  {
    if ops != [] {
      ReservedBound(ops[..|ops| - 1]);
    }
  }

  lemma {:induction false} NoneRunning(ops: seq<Op>)
    ensures CountOps(ops) == 0 <==> forall p | 0 <= p < |ops| :: ops[p].NoOp?
  {
    if ops != [] {
      var n := |ops| - 1;
      NoneRunning(ops[..n]);
      if CountOps(ops) == 0 {
        assert forall p | 0 <= p < n :: ops[p] == ops[..n][p];
      } else if CountOps(ops[..n]) != 0 {
        var p :| 0 <= p < n && !ops[..n][p].NoOp?;
        assert ops[p] == ops[..n][p];
      }
    }
  }

  // ---------------------------------------------------------------- what a crash would recover

  lemma CommittingParts(s: State)
    requires Inv(s) && s.phase.Committing?
    ensures s.L.Ok() && |s.init| == s.L.total == |s.disk| && Atomic(s)
    ensures var tx, k := s.phase.tx, s.phase.k;
      && tx.Ok() && tx.L == s.L && tx.h == s.lh && k <= tx.Writes() && tx.Mid(s.disk, k) && tx.Complete()
      && SameHome(s.L, if k <= |s.lh| then tx.before else tx.logical, Durable(s))
  {}

  lemma MidCommitRecovers(s: State)
    requires Inv(s) && s.phase.Committing?
    ensures DiskOk(s.L, s.disk) && SameHome(s.L, Recover(s.L, s.disk), Durable(s))
  {
    hide Inv; hide Durable; hide Recover;
    CommittingParts(s);
    var tx, k := s.phase.tx, s.phase.k;
    tx.MidRecovers(s.disk, k);
    RecoverAt(s.L, s.disk);
    var e := if k <= |s.lh| then tx.before else tx.logical;
    assert forall b: nat | s.L.Home(b) :: Recover(s.L, s.disk)[b] == e[b];
  }

  // The main theorem on states: recovery from the disk of any state gives the updates up to the
  // last commit point, all of them and nothing else.
  lemma CrashRecoversCommitted(s: State)
    requires Inv(s)
    ensures DiskOk(s.L, s.disk) && SameHome(s.L, Recover(s.L, s.disk), Durable(s))
    ensures Ready(s)
  {
    match s.phase
    case Running =>
      CleanHead(s.L, s.disk);
      RecoverAt(s.L, s.disk);
    case Committing(_, _) =>
      MidCommitRecovers(s);
    case Recovering(d, k) =>
      RecoveryRestarts(s.L, d, k);
  }

  // ---------------------------------------------------------------- begin_op

  lemma BeginOps(s: State, p: nat)
    requires OpsOk(s) && p < |s.ops| && s.ops[p].NoOp?
    ensures OpsOk(Begun(s, p))
  {
    OpsUpdate(s.ops, p, Op(s.nextId, 0));
  }

  lemma BeginSpace(s: State, p: nat)
    requires OpsOk(s) && p < |s.ops| && s.ops[p].NoOp? && HasSpace(s)
    ensures |s.lh| + Reserved(Begun(s, p).ops) <= LOGSIZE
  {
    OpsUpdate(s.ops, p, Op(s.nextId, 0));
    ReservedBound(s.ops);
  }

  lemma BeginAtomic(s: State, p: nat)
    requires Atomic(s) && p < |s.ops|
    ensures Atomic(Begun(s, p))
  {}

  lemma BeginKeeps(s: State, p: nat)
    requires Inv(s) && Enabled(s, BeginOp(p))
    ensures Inv(Begun(s, p))
  {
    hide OpsOk; hide Atomic; hide HeaderOk; hide SameHome; hide Reserved; hide View;
    BeginOps(s, p);
    BeginSpace(s, p);
    BeginAtomic(s, p);
  }

  // ---------------------------------------------------------------- buffers

  lemma AtomicFrame(s: State, t: State)
    requires Atomic(s) && t.L == s.L && t.updates == s.updates && t.committed == s.committed
    requires t.nextId == s.nextId && t.ops == s.ops
    ensures Atomic(t)
  {}

  // A step that leaves every block's logical contents alone, and the disk, the log and the
  // operations as they are.
  lemma ViewFrame(s: State, t: State)
    requires Inv(s) && Atomic(t) && |t.disk| == t.L.total
    requires t == s.(cache := t.cache, locks := t.locks) && (s.phase.Recovering? ==> t.locks == s.locks)
    requires View(t.disk, t.cache) == View(s.disk, s.cache)
    ensures PhaseOk(t) && LogicalOk(t)
  {
    hide CacheOk; hide PinsOk; hide OpsOk; hide HeaderOk; hide SameHome; hide Reserved; hide Tx.Mid; hide View;
    hide Atomic;
  }

  lemma AcquireCache(s: State, p: nat, b: nat)
    requires CacheOk(s) && b < s.L.total && b !in s.locks
    ensures CacheOk(Acquired(s, p, b))
    ensures View(s.disk, Acquired(s, p, b).cache) == View(s.disk, s.cache)
  {}

  lemma AcquireOps(s: State, p: nat, b: nat)
    requires OpsOk(s) && PinsOk(s) && b < |s.disk|
    ensures OpsOk(Acquired(s, p, b)) && PinsOk(Acquired(s, p, b))
  {}

  // Reading a block changes nothing a process can read.
  lemma AcquireKeeps(s: State, p: nat, b: nat)
    requires Inv(s) && Enabled(s, Acquire(p, b))
    ensures Inv(Acquired(s, p, b))
  {
    assert |s.disk| == s.L.total;
    hide CacheOk; hide PinsOk; hide OpsOk; hide Atomic; hide HeaderOk; hide PhaseOk; hide LogicalOk; hide View;
    AcquireCache(s, p, b);
    AcquireOps(s, p, b);
    AtomicFrame(s, Acquired(s, p, b));
    ViewFrame(s, Acquired(s, p, b));
  }

  lemma ReplaySnoc(init: Disk, us: seq<Update>, u: Update)
    requires u.bno < |init| && forall i | 0 <= i < |us| :: us[i].bno < |init|
    ensures Replay(init, us + [u]) == Replay(init, us)[u.bno := u.data]
  {
    assert (us + [u])[..|us|] == us;
  }

  lemma ModifyCache(s: State, p: nat, b: nat, data: Block)
    requires CacheOk(s) && InOp(s, p) && b in s.locks
    ensures CacheOk(Modified(s, p, b, data))
  {}

  lemma ModifyPins(s: State, p: nat, b: nat, data: Block)
    requires PinsOk(s) && InOp(s, p) && b in s.cache
    ensures PinsOk(Modified(s, p, b, data))
  {}

  lemma ModifyView(s: State, p: nat, b: nat, data: Block)
    requires InOp(s, p) && b in s.cache && b < |s.disk|
    ensures View(s.disk, Modified(s, p, b, data).cache) == View(s.disk, s.cache)[b := data]
  {}

  lemma ModifyAtomic(s: State, p: nat, b: nat, data: Block)
    requires Atomic(s) && OpsOk(s) && InOp(s, p) && s.L.Home(b) && b in s.cache
    ensures Atomic(Modified(s, p, b, data))
    ensures OpsOk(Modified(s, p, b, data))
    ensures Modified(s, p, b, data).updates[..s.committed] == s.updates[..s.committed]
  {}

  lemma ModifyLogical(s: State, p: nat, b: nat, data: Block)
    requires |s.init| == s.L.total && Atomic(s) && LogicalOk(s) && !s.phase.Recovering?
    requires InOp(s, p) && s.L.Home(b) && b in s.cache && |s.disk| == s.L.total
    requires Atomic(Modified(s, p, b, data))
    ensures LogicalOk(Modified(s, p, b, data))
  {
    hide View;
    ModifyView(s, p, b, data);
    ReplaySnoc(s.init, s.updates, Update(s.ops[p].id, b, data));
  }

  lemma SomeoneRuns(s: State, p: nat)
    requires OpsOk(s) && InOp(s, p)
    ensures s.outstanding > 0
  {
    NoneRunning(s.ops);
  }

  lemma ModifyKeeps(s: State, p: nat, b: nat, data: Block)
    requires Inv(s) && Enabled(s, Modify(p, b, data))
    ensures Inv(Modified(s, p, b, data))
  {
    assert b in s.cache && |s.disk| == s.L.total;
    assert s.committed <= |s.updates|;
    hide CacheOk; hide PinsOk; hide OpsOk; hide Atomic; hide HeaderOk; hide LogicalOk; hide View; hide SameHome;
    hide Replay;
    ModifyCache(s, p, b, data);
    ModifyPins(s, p, b, data);
    ModifyAtomic(s, p, b, data);
    ModifyLogical(s, p, b, data);
    SomeoneRuns(s, p);
  }

  lemma LogWriteCache(s: State, p: nat, b: nat)
    requires CacheOk(s) && InOp(s, p) && b in s.locks
    ensures CacheOk(Logged(s, p, b))
    ensures View(s.disk, Logged(s, p, b).cache) == View(s.disk, s.cache)
  {
    LogWriteView(s, p, b);
    hide View;
  }

  lemma LogWriteView(s: State, p: nat, b: nat)
    requires InOp(s, p) && b in s.cache
    ensures View(s.disk, Logged(s, p, b).cache) == View(s.disk, s.cache)
  {
    var c := Logged(s, p, b).cache;
    assert forall x | x in c :: x in s.cache && c[x].data == s.cache[x].data;
  }

  lemma LogWritePins(s: State, p: nat, b: nat)
    requires PinsOk(s) && InOp(s, p) && b in s.cache && s.phase.Running?
    ensures PinsOk(Logged(s, p, b))
  {}

  lemma LogWriteOps(s: State, p: nat, b: nat)
    requires OpsOk(s) && Atomic(s) && InOp(s, p) && b in s.cache
    requires b in s.lh || s.ops[p].appended < MAXOPBLOCKS
    requires |s.lh| + Reserved(s.ops) <= LOGSIZE
    ensures var t := Logged(s, p, b); OpsOk(t) && Atomic(t) && |t.lh| + Reserved(t.ops) <= LOGSIZE
  {
    OpsUpdate(s.ops, p, Op(s.ops[p].id, s.ops[p].appended + 1));
  }

  // Absorption keeps the logged block numbers distinct, and the guard keeps room for each.
  lemma LogWriteHeader(s: State, p: nat, b: nat)
    requires HeaderOk(s.L, s.lh) && !LogPanics(s) && s.L.Home(b) && b in s.cache && InOp(s, p)
    ensures HeaderOk(s.L, Logged(s, p, b).lh)
  {}

  lemma LogWritePhase(s: State, p: nat, b: nat)
    requires s.L.Ok() && |s.init| == |s.disk| == s.L.total && Atomic(s) && PhaseOk(s) && LogicalOk(s)
    requires s.phase.Running? && InOp(s, p) && b in s.cache && s.outstanding > 0
    requires Atomic(Logged(s, p, b)) && |Logged(s, p, b).lh| + Reserved(Logged(s, p, b).ops) <= LOGSIZE
    requires View(s.disk, Logged(s, p, b).cache) == View(s.disk, s.cache)
    ensures PhaseOk(Logged(s, p, b)) && LogicalOk(Logged(s, p, b))
  {
    hide Atomic; hide SameHome; hide Replay; hide Reserved; hide View;
  }

  lemma LogWriteKeeps(s: State, p: nat, b: nat)
    requires Inv(s) && Enabled(s, LogWrite(p, b)) && !LogPanics(s)
    ensures Inv(Logged(s, p, b))
  {
    assert b in s.cache && |s.disk| == s.L.total;
    hide CacheOk; hide PinsOk; hide OpsOk; hide Atomic; hide HeaderOk; hide View; hide SameHome; hide Replay;
    hide Reserved; hide LogicalOk;
    LogWriteCache(s, p, b);
    LogWritePins(s, p, b);
    LogWriteOps(s, p, b);
    LogWriteHeader(s, p, b);
    SomeoneRuns(s, p);
    LogWritePhase(s, p, b);
  }

  lemma ReleaseLock(s: State, b: nat)
    requires CacheOk(s) && PinsOk(s) && OpsOk(s) && b in s.locks && !s.locks[b].modified
    ensures var t := s.(locks := s.locks - {b}); CacheOk(t) && PinsOk(t) && OpsOk(t)
  {}

  lemma ReleaseKeeps(s: State, p: nat, b: nat)
    requires Inv(s) && Enabled(s, Release(p, b))
    ensures Inv(s.(locks := s.locks - {b}))
  {
    var t := s.(locks := s.locks - {b});
    assert |s.disk| == s.L.total;
    hide CacheOk; hide PinsOk; hide OpsOk; hide Atomic; hide HeaderOk; hide PhaseOk; hide LogicalOk; hide View;
    ReleaseLock(s, b);
    AtomicFrame(s, t);
    ViewFrame(s, t);
  }

  lemma EvictCache(s: State, b: nat)
    requires CacheOk(s) && b in s.cache && !s.cache[b].dirty && b !in s.locks
    ensures CacheOk(s.(cache := s.cache - {b}))
    ensures View(s.disk, s.cache - {b}) == View(s.disk, s.cache)
  {
    var c := s.cache - {b};
    assert forall a | a in c :: a in s.cache && c[a] == s.cache[a];
  }

  lemma EvictPins(s: State, b: nat)
    requires PinsOk(s) && OpsOk(s) && b in s.cache && !s.cache[b].dirty
    ensures PinsOk(s.(cache := s.cache - {b})) && OpsOk(s.(cache := s.cache - {b}))
  {}

  // Recycling a buffer changes nothing a process can read.
  lemma EvictKeeps(s: State, b: nat)
    requires Inv(s) && Enabled(s, Evict(b))
    ensures Inv(Evicted(s, b))
  {
    var t := s.(cache := s.cache - {b});
    assert |s.disk| == s.L.total;
    hide CacheOk; hide PinsOk; hide OpsOk; hide Atomic; hide HeaderOk; hide PhaseOk; hide LogicalOk; hide View;
    EvictCache(s, b);
    EvictPins(s, b);
    AtomicFrame(s, t);
    ViewFrame(s, t);
  }

  // ---------------------------------------------------------------- end_op

  lemma EndOps(s: State, p: nat)
    requires OpsOk(s) && Atomic(s) && InOp(s, p) && forall b | b in s.locks :: s.locks[b].owner != p
    ensures OpsOk(Ended(s, p)) && Atomic(Ended(s, p))
    ensures Reserved(Ended(s, p).ops) <= Reserved(s.ops)
    ensures Ended(s, p).outstanding == s.outstanding - 1
    ensures Ended(s, p).outstanding == 0 ==>
      Reserved(Ended(s, p).ops) == 0 && forall b | b in s.locks :: !s.locks[b].modified
  {
    SomeoneRuns(s, p);
    OpsUpdate(s.ops, p, NoOp);
    EndedParts(s, p);
    var t := Ended(s, p);
    hide Ended; hide Reserved;
    assert OpsOk(t) by { hide Atomic; }
    NoneRunning(t.ops);
    ReservedBound(t.ops);
    assert t.outstanding == 0 ==> forall q | 0 <= q < |t.ops| :: t.ops[q].NoOp?;
    assert Atomic(t) by { hide OpsOk; }
  }

  lemma EndedParts(s: State, p: nat)
    requires InOp(s, p) && s.outstanding > 0
    ensures var t := Ended(s, p);
      && t.ops == s.ops[p := NoOp] && t.outstanding == s.outstanding - 1 && t.nextId == s.nextId
      && t.L == s.L && t.locks == s.locks && t.updates == s.updates
      && t.committed == (if t.outstanding == 0 && s.lh == [] then |s.updates| else s.committed)
  {}

  lemma EndPins(s: State, p: nat)
    requires PinsOk(s) && CacheOk(s) && InOp(s, p) && s.phase.Running?
    ensures PinsOk(Ended(s, p)) && CacheOk(Ended(s, p))
  {}

  // Outside the log header's blocks, an unmodified cache agrees with the disk.
  lemma UnloggedAgrees(s: State)
    requires CacheOk(s) && PinsOk(s) && forall b | b in s.locks && s.locks[b].modified :: s.L.Home(b)
    ensures forall b: nat | b < s.L.total && b !in s.lh && !(b in s.locks && s.locks[b].modified) ::
      View(s.disk, s.cache)[b] == s.disk[b]
  {}

  lemma EndPhase(s: State, p: nat)
    requires s.L.Ok() && |s.init| == |s.disk| == s.L.total && Atomic(s) && PhaseOk(s) && LogicalOk(s)
    requires s.phase.Running? && InOp(s, p) && HeaderOk(s.L, s.lh) && Atomic(Ended(s, p))
    requires Ended(s, p).outstanding == s.outstanding - 1
    requires Reserved(Ended(s, p).ops) <= Reserved(s.ops)
    requires Ended(s, p).outstanding == 0 ==> forall b: nat | s.L.Home(b) && b !in s.lh ::
      View(s.disk, s.cache)[b] == s.disk[b]
    ensures PhaseOk(Ended(s, p)) && LogicalOk(Ended(s, p))
  {
    hide Atomic; hide Reserved; hide View; hide HeaderOk;
    var t := Ended(s, p);
    if t.outstanding == 0 {
      if s.lh == [] {
        assert s.updates[..|s.updates|] == s.updates;
      } else {
        var tx := t.phase.tx;
        tx.Start();
      }
    }
  }

  lemma EndKeeps(s: State, p: nat)
    requires Inv(s) && Enabled(s, EndOp(p))
    ensures Inv(Ended(s, p))
  {
    assert |s.disk| == s.L.total;
    UnloggedAgreesInv(s);
    hide CacheOk; hide PinsOk; hide OpsOk; hide Atomic; hide HeaderOk; hide View; hide Reserved; hide LogicalOk;
    hide PhaseOk;
    EndOps(s, p);
    EndPins(s, p);
    EndPhase(s, p);
  }

  lemma UnloggedAgreesInv(s: State)
    requires Inv(s)
    ensures forall b: nat | b < s.L.total && b !in s.lh && !(b in s.locks && s.locks[b].modified) ::
      View(s.disk, s.cache)[b] == s.disk[b]
    ensures forall b | b in s.locks && s.locks[b].modified :: s.L.Home(b)
  {
    hide Atomic; hide PhaseOk; hide LogicalOk; hide HeaderOk; hide View;
    UnloggedAgrees(s);
  }

  // ---------------------------------------------------------------- commit

  // Reading through the cache, each block commit() writes is the one the transaction names.
  lemma CommitReads(tx: Tx, d: Disk, v: Disk, k: nat)
    requires tx.Ok() && |d| == |v| == tx.L.total && k < tx.Writes()
    requires SameHome(tx.L, v, tx.logical) && forall b: nat | tx.L.InLog(b) :: v[b] == d[b]
    ensures Tx(tx.L, v, v, tx.h).Write(v, k) == tx.Write(d, k)
  {
    assert forall i | 0 <= i < |tx.h| :: tx.L.InLog(tx.L.Slot(i)) && v[tx.L.Slot(i)] == d[tx.L.Slot(i)];
    assert tx.L.InLog(tx.L.start);
  }

  lemma CommitStepWrites(s: State)
    requires Inv(s) && s.phase.Committing? && s.phase.k < 2 * |s.lh| + 2
    ensures var v, tx := View(s.disk, s.cache), s.phase.tx;
      tx.Ok() && tx.L == s.L && tx.h == s.lh && |s.disk| == s.L.total && s.outstanding == 0
      && Tx(s.L, v, v, s.lh).Write(v, s.phase.k) == tx.Write(s.disk, s.phase.k)
  {
    LogBlocksAgree(s);
    hide CacheOk; hide PinsOk; hide OpsOk; hide Atomic; hide View; hide Tx.Complete; hide Tx.Mid; hide Durable;
    hide Tx.Write; hide SameHome; hide HeaderOk; hide LogicalOk;
    CommitReads(s.phase.tx, s.disk, View(s.disk, s.cache), s.phase.k);
  }

  lemma LogBlocksAgree(s: State)
    requires Inv(s)
    ensures |s.disk| == s.L.total && forall b: nat | s.L.InLog(b) :: View(s.disk, s.cache)[b] == s.disk[b]
  {
    UnloggedAgreesInv(s);
    hide CacheOk; hide PinsOk; hide Atomic; hide PhaseOk; hide LogicalOk; hide View;
  }

  lemma BwriteCache(s: State, b: nat, v: Block)
    requires CacheOk(s) && b < s.L.total && b !in s.locks
    ensures CacheOk(Bwrite(s, b, v))
    ensures View(Bwrite(s, b, v).disk, Bwrite(s, b, v).cache) == View(s.disk, s.cache)[b := v]
  {}

  lemma CacheFrame(s: State, t: State)
    requires CacheOk(s) && t.L == s.L && t.disk == s.disk && t.cache == s.cache && t.locks == s.locks
    ensures CacheOk(t)
  {}

  lemma CommitPins(s: State, t: State)
    requires PinsOk(s) && HeaderOk(s.L, s.lh) && s.phase.Committing? && s.phase.tx.h == s.lh
        && s.phase.k < 2 * |s.lh| + 2
    requires t.phase == Committing(s.phase.tx, s.phase.k + 1) && t.lh == s.lh && t.L == s.L
    requires exists v :: t.cache == s.cache[CommitTarget(s) := Entry(v, false)]
    ensures PinsOk(t)
  {
    var n, k, c := |s.lh|, s.phase.k, CommitTarget(s);
    assert n < k <= 2 * n || (s.L.InLog(c) && c !in s.lh);
  }

  lemma CommitAtomic(s: State, t: State)
    requires Atomic(s) && OpsOk(s) && s.outstanding == 0
    requires t.L == s.L && t.updates == s.updates && t.nextId == s.nextId && t.ops == s.ops && t.locks == s.locks
    requires t.outstanding == 0 && t.committed in {s.committed, |s.updates|}
    ensures Atomic(t) && OpsOk(t)
  {
    NoneRunning(s.ops);
  }

  // A block written to its home already had that value for the processes.
  lemma CommitView(tx: Tx, d: Disk, k: nat, v: Disk)
    requires tx.Ok() && |d| == |v| == tx.L.total && k < tx.Writes() && tx.Mid(d, k)
    requires SameHome(tx.L, v, tx.logical)
    ensures var w := tx.Write(d, k); SameHome(tx.L, v[w.0 := w.1], v)
  {}

  lemma SameHomeTrans(L: Layout, c: Disk, d: Disk, e: Disk)
    requires SameHome(L, c, d) && SameHome(L, d, e)
    ensures SameHome(L, c, e) && SameHome(L, e, c)
  {}

  // The state just after one more block write of commit().
  ghost predicate CommitNext(s: State, t: State)
    requires s.phase.Committing?
  {
    t == s.(disk := t.disk, cache := t.cache, phase := Committing(s.phase.tx, s.phase.k + 1),
            committed := if s.phase.k == |s.lh| then |s.updates| else s.committed)
  }

  // The header write, and only that, moves the commit point.
  lemma CommitDurable(s: State, t: State)
    requires s.L.Ok() && |s.init| == |s.disk| == s.L.total && Atomic(s) && PhaseOk(s) && LogicalOk(s)
    requires s.phase.Committing? && CommitNext(s, t) && Atomic(t)
    ensures SameHome(s.L, if s.phase.k < |s.lh| then s.phase.tx.before else s.phase.tx.logical, Durable(t))
  {
    assert forall i | 0 <= i < |s.updates| :: s.updates[i].bno < |s.init|;
    hide Atomic; hide View; hide Tx.Complete; hide Replay; hide Tx.Mid; hide Tx.Ok; hide SameHome;
    var tx, v := s.phase.tx, View(s.disk, s.cache);
    assert s.updates[..|s.updates|] == s.updates;
    SameHomeTrans(s.L, v, tx.logical, tx.logical);
    SameHomeTrans(s.L, tx.logical, v, Replay(s.init, s.updates));
  }

  lemma CommitPhase(s: State, t: State, w: (nat, Block))
    requires s.L.Ok() && |s.init| == |s.disk| == s.L.total && Atomic(s) && PhaseOk(s)
    requires s.phase.Committing? && s.phase.k < 2 * |s.lh| + 2
    requires w == s.phase.tx.Write(s.disk, s.phase.k)
    requires CommitNext(s, t) && Atomic(t) && t.disk == s.disk[w.0 := w.1]
    requires View(t.disk, t.cache) == View(s.disk, s.cache)[w.0 := w.1]
    requires SameHome(s.L, if s.phase.k < |s.lh| then s.phase.tx.before else s.phase.tx.logical, Durable(t))
    ensures PhaseOk(t)
    ensures SameHome(s.L, View(t.disk, t.cache), View(s.disk, s.cache))
  {
    hide Atomic; hide View; hide Tx.Complete; hide Replay; hide Tx.Mid; hide Durable; hide SameHome; hide Tx.Write;
    var tx, k := s.phase.tx, s.phase.k;
    var v, v' := View(s.disk, s.cache), View(t.disk, t.cache);
    tx.Step(s.disk, k);
    CommitView(tx, s.disk, k, v);
    SameHomeTrans(s.L, v', v, tx.logical);
  }

  lemma CommitLogical(s: State, t: State)
    requires |s.init| == s.L.total && Atomic(s) && LogicalOk(s) && Atomic(t) && s.phase.Committing? && CommitNext(s, t)
    requires SameHome(s.L, View(t.disk, t.cache), View(s.disk, s.cache))
    ensures LogicalOk(t)
  {}

  lemma CommitWriteKeeps(s: State)
    requires Inv(s) && Enabled(s, CommitStep) && Ready(s) && s.phase.k < 2 * |s.lh| + 2
    ensures Inv(CommitStepped(s))
  {
    hide CacheOk; hide PinsOk; hide OpsOk; hide Atomic; hide HeaderOk; hide View; hide LogicalOk; hide DiskOk;
    hide PhaseOk;
    CommitStepWrites(s);
    var t, w := CommitStepped(s), s.phase.tx.Write(s.disk, s.phase.k);
    BwriteCache(s, w.0, w.1);
    CacheFrame(Bwrite(s, w.0, w.1), t);
    CommitPins(s, t);
    CommitAtomic(s, t);
    CommitDurable(s, t);
    CommitPhase(s, t, w);
    CommitLogical(s, t);
  }

  lemma HomesInstalled(tx: Tx, d: Disk)
    requires tx.Ok() && |d| == tx.L.total && tx.Mid(d, tx.Writes()) && tx.Complete()
    ensures SameHome(tx.L, d, tx.logical) && d[tx.L.start][0] == 0
  {
    assert tx.Homes(d, |tx.h|);
  }

  lemma DonePins(s: State)
    requires PinsOk(s) && CacheOk(s) && s.phase.Committing? && s.phase.tx.h == s.lh && s.phase.k == 2 * |s.lh| + 2
    ensures PinsOk(s.(phase := Running, lh := [])) && CacheOk(s.(phase := Running, lh := []))
  {}

  // The last step of commit(): the header is empty again on disk and in memory.
  lemma CommitDoneKeeps(s: State)
    requires Inv(s) && s.phase.Committing? && s.phase.k == 2 * |s.lh| + 2
    ensures Inv(s.(phase := Running, lh := []))
  {
    assert |s.disk| == s.L.total && s.outstanding == CountOps(s.ops);
    hide CacheOk; hide PinsOk; hide OpsOk; hide Atomic; hide View; hide SameHome; hide Tx.Complete; hide Replay;
    hide Reserved; hide Tx.Mid; hide CountOps;
    DonePins(s);
    HomesInstalled(s.phase.tx, s.disk);
    SameHomeTrans(s.L, s.disk, s.phase.tx.logical, Durable(s));
    ReservedBound(s.ops);
    DoneOps(s);
  }

  lemma DoneOps(s: State)
    requires OpsOk(s) && Atomic(s)
    ensures OpsOk(s.(phase := Running, lh := [])) && Atomic(s.(phase := Running, lh := []))
  {}

  // ---------------------------------------------------------------- crash and recovery

  lemma CrashOps(s: State)
    requires Atomic(s) && Ready(s)
    ensures OpsOk(Crashed(s)) && Atomic(Crashed(s))
    ensures CacheOk(Crashed(s)) && PinsOk(Crashed(s))
    ensures Crashed(s).updates[..s.committed] == s.updates[..s.committed]
  {
    NoneRunning(Crashed(s).ops);
  }

  lemma CrashKeeps(s: State)
    requires Inv(s) && Ready(s)
    ensures Inv(Crashed(s))
  {
    hide CacheOk; hide PinsOk; hide OpsOk; hide Atomic; hide PhaseOk; hide View; hide SameHome; hide Replay;
    hide LogicalOk;
    CrashRecoversCommitted(s);
    CrashOps(s);
    CrashPhase(s);
  }

  lemma CrashPhase(s: State)
    requires Ready(s) && |s.init| == s.L.total && Atomic(s) && Atomic(Crashed(s))
    requires SameHome(s.L, Recover(s.L, s.disk), Durable(s))
    requires Crashed(s).updates[..s.committed] == s.updates[..s.committed]
    ensures PhaseOk(Crashed(s)) && LogicalOk(Crashed(s))
  {
    hide Atomic; hide View; hide SameHome; hide Replay; hide Recover; hide HeaderOk;
  }

  lemma RecoverCache(s: State, b: nat, v: Block)
    requires CacheOk(s) && PinsOk(s) && b < s.L.total && s.phase.Recovering? && s.locks == map[]
    ensures CacheOk(Bwrite(s, b, v)) && PinsOk(Bwrite(s, b, v))
  {}

  lemma CleanView(s: State)
    requires CacheOk(s) && PinsOk(s) && s.locks == map[] && Unpinned(s) == |s.lh|
    ensures View(s.disk, s.cache) == s.disk
  {}

  lemma RecoverFrame(s: State, t: State)
    requires CacheOk(s) && PinsOk(s) && OpsOk(s) && Atomic(s) && s.phase.Recovering?
    requires t == s.(phase := t.phase, lh := t.lh)
        && (if t.phase.Running? then t.lh == [] else t.phase.Recovering? && t.lh == s.lh)
    ensures CacheOk(t) && PinsOk(t) && OpsOk(t) && Atomic(t)
  {}

  lemma NobodyReserves(s: State)
    requires OpsOk(s) && s.outstanding == 0
    ensures Reserved(s.ops) == 0
  {
    ReservedBound(s.ops);
  }

  // The state just after one more block write of recover_from_log().
  ghost predicate RecoverNext(s: State, t: State)
    requires s.phase.Recovering?
  {
    && t == s.(disk := t.disk, cache := t.cache, phase := t.phase, lh := t.lh)
    && (if s.phase.k < |s.lh| then t.phase == Recovering(s.phase.crashed, s.phase.k + 1) && t.lh == s.lh
        else t.phase == Running && t.lh == [])
  }

  lemma RecoverPhase(s: State, t: State)
    requires s.L.Ok() && |s.init| == |s.disk| == s.L.total && Atomic(s) && PhaseOk(s) && OpsOk(s)
    requires s.phase.Recovering? && RecoverNext(s, t)
    requires t.disk == RecoverDisk(s.L, s.phase.crashed, s.phase.k + 1) && Atomic(t)
    requires t.phase.Running? ==> View(t.disk, t.cache) == t.disk
    ensures PhaseOk(t) && LogicalOk(t)
  {
    hide View; hide Replay; hide Atomic; hide OpsOk; hide DiskOk; hide Reserved; hide Install; hide HeaderOk;
    NobodyReserves(s);
    assert s.updates[..|s.updates|] == s.updates;
    RecoverAt(s.L, s.phase.crashed);
  }

  // What recovery is in the middle of, and its next block write.
  lemma RecoverFacts(s: State)
    requires Inv(s) && Ready(s) && s.phase.Recovering?
    ensures s.phase.k <= |s.lh| && |s.disk| == s.L.total && s.locks == map[] && View(s.disk, s.cache) == s.disk
    ensures var b := RecoverTarget(s); var t := RecoverStepped(s);
      b < s.L.total && b < |t.disk| && t == Bwrite(s, b, t.disk[b]).(phase := t.phase, lh := t.lh)
      && DiskOk(s.L, s.phase.crashed) && s.phase.k <= |DecodeHead(s.phase.crashed[s.L.start])|
      && t.disk == RecoverDisk(s.L, s.phase.crashed, s.phase.k + 1)
      && (if s.phase.k < |s.lh| then t.phase == Recovering(s.phase.crashed, s.phase.k + 1) && t.lh == s.lh
          else t.phase == Running && t.lh == [])
  {
    hide CacheOk; hide PinsOk; hide OpsOk; hide Atomic; hide LogicalOk; hide SameHome; hide Recover; hide HeaderOk;
    hide DiskOk; hide Durable; hide Ready; hide RecoverDisk; hide View;
    RecoverHere(s);
    CleanView(s);
    RecoverWrite(s.L, s.phase.crashed, s.phase.k);
  }

  function RecoverTarget(s: State): nat
    requires s.phase.Recovering?
  {
    if s.phase.k < |s.lh| then s.lh[s.phase.k] else s.L.start
  }

  lemma RecoverHere(s: State)
    requires Inv(s) && s.phase.Recovering?
    ensures |s.disk| == s.L.total && s.locks == map[] && s.phase.k <= |s.lh| && RecoverTarget(s) < s.L.total
  {
    hide PinsOk; hide OpsOk; hide Atomic; hide LogicalOk; hide SameHome; hide Recover; hide Durable;
  }

  // One more block installed by recover_from_log, or the log cleared and recovery over.
  lemma RecoverStepKeeps(s: State)
    requires Inv(s) && Ready(s) && s.phase.Recovering?
    ensures Inv(RecoverStepped(s))
  {
    RecoverFacts(s);
    var b, t := RecoverTarget(s), RecoverStepped(s);
    RecoverHeader(s, t);
    hide CacheOk; hide PinsOk; hide OpsOk; hide Atomic; hide View; hide LogicalOk; hide HeaderOk; hide DiskOk;
    hide PhaseOk;
    hide RecoverStepped; hide Ready; hide RecoverDisk;
    RecoverCache(s, b, t.disk[b]);
    RecoverOps(s, b, t.disk[b]);
    RecoverFrame(Bwrite(s, b, t.disk[b]), t);
    CleanView(t);
    RecoverPhase(s, t);
  }

  lemma RecoverHeader(s: State, t: State)
    requires Inv(s) && t.L == s.L && (t.lh == s.lh || t.lh == [])
    ensures HeaderOk(t.L, t.lh)
  {}

  lemma RecoverOps(s: State, b: nat, v: Block)
    requires OpsOk(s) && Atomic(s) && b < |s.disk|
    ensures OpsOk(Bwrite(s, b, v)) && Atomic(Bwrite(s, b, v))
  {}

  // ---------------------------------------------------------------- runs

  lemma StepPhase(s: State, e: Event)
    requires Enabled(s, e)
    ensures (e.CommitStep? ==> s.phase.Committing?) && (e.RecoverStep? ==> s.phase.Recovering?)
  {}

  lemma CallerKeeps(s: State, e: Event)
    requires Inv(s) && Ready(s) && Enabled(s, e) && (e.BeginOp? || e.Acquire? || e.Modify? || e.Release? || e.EndOp?)
    ensures Inv(Apply(s, e))
  {
    hide Inv; hide Ready; hide Enabled; hide Begun; hide Acquired; hide Modified; hide Ended;
    match e {
      case BeginOp(p) => BeginKeeps(s, p);
      case Acquire(p, b) => AcquireKeeps(s, p, b);
      case Modify(p, b, data) => ModifyKeeps(s, p, b, data);
      case Release(p, b) => ReleaseKeeps(s, p, b);
      case EndOp(p) => EndKeeps(s, p);
    }
  }

  lemma LogWritesKeep(s: State, e: Event)
    requires Inv(s) && Ready(s) && Enabled(s, e) && e.LogWrite?
    ensures Inv(Apply(s, e))
  {
    hide Inv; hide Ready; hide Enabled; hide LogPanics; hide Logged; hide Crashed;
    if LogPanics(s) {
      CrashKeeps(s);
    } else {
      LogWriteKeeps(s, e.p, e.b);
    }
  }

  lemma OtherKeeps(s: State, e: Event)
    requires Inv(s) && Ready(s) && Enabled(s, e) && (e.Evict? || e.Crash? || e.RecoverStep?)
    ensures Inv(Apply(s, e))
  {
    hide Inv; hide Ready; hide Enabled; hide Crashed; hide RecoverStepped; hide Evicted;
    StepPhase(s, e);
    match e {
      case Evict(b) => EvictKeeps(s, b);
      case Crash => CrashKeeps(s);
      case RecoverStep => RecoverStepKeeps(s);
    }
  }

  lemma CommitKeeps(s: State)
    requires Inv(s) && Ready(s) && Enabled(s, CommitStep)
    ensures Inv(Apply(s, CommitStep))
  {
    hide Inv; hide Enabled;
    StepPhase(s, CommitStep);
    assert s.phase.k <= 2 * |s.lh| + 2;
    hide Ready;
    assert Apply(s, CommitStep) == CommitStepped(s);
    if s.phase.k == 2 * |s.lh| + 2 {
      CommitDoneKeeps(s);
    } else {
      hide CommitStepped;
      CommitWriteKeeps(s);
    }
  }

  lemma StepKeeps(s: State, e: Event)
    requires Inv(s) && Ready(s) && Enabled(s, e)
    ensures Inv(Apply(s, e)) && Ready(Apply(s, e))
  {
    hide Inv; hide Ready; hide Enabled; hide Apply;
    if e.BeginOp? || e.Acquire? || e.Modify? || e.Release? || e.EndOp? {
      CallerKeeps(s, e);
    } else if e.CommitStep? {
      CommitKeeps(s);
    } else if e.LogWrite? {
      LogWritesKeep(s, e);
    } else {
      OtherKeeps(s, e);
    }
    CrashRecoversCommitted(Apply(s, e));
  }

  // A run of the system: its states, each reached from the one before by some step.
  ghost predicate Run(ss: seq<State>) {
    && |ss| > 0
    && Boots(ss[0])
    && (forall i | 0 <= i < |ss| - 1 :: StepsTo(ss[i], ss[i + 1]))
  }

  ghost predicate StepsTo(s: State, t: State) {
    Ready(s) && exists e :: Enabled(s, e) && t == Apply(s, e)
  }

  // A freshly made file system: empty log, nothing cached, nobody running.
  ghost predicate Boots(s: State) {
    && DiskOk(s.L, s.disk) && s.disk[s.L.start][0] == 0
    && s.init == s.disk && s.cache == map[] && s.locks == map[] && s.lh == [] && s.outstanding == 0
    && (forall p | 0 <= p < |s.ops| :: s.ops[p].NoOp?)
    && s.phase == Running && s.updates == [] && s.committed == 0
  }

  lemma BootKeeps(s: State)
    requires Boots(s)
    ensures Inv(s)
  {
    NoneRunning(s.ops);
    ReservedBound(s.ops);
  }

  lemma {:induction false} RunKeeps(ss: seq<State>, i: nat)
    requires Run(ss) && i < |ss|
    ensures Inv(ss[i]) && Ready(ss[i])
  {
    hide Inv; hide Ready; hide Enabled; hide Apply; hide Boots;
    if i == 0 {
      BootKeeps(ss[0]);
      CrashRecoversCommitted(ss[0]);
    } else {
      RunKeeps(ss, i - 1);
      assert StepsTo(ss[i - 1], ss[i - 1 + 1]);
      var e :| Enabled(ss[i - 1], e) && ss[i] == Apply(ss[i - 1], e);
      StepKeeps(ss[i - 1], e);
    }
  }

  // Over every run: recovering the disk of any state gives the state at the last commit point, and
  // the updates of each operation are all before that point or all after it.
  lemma EveryRunIsCrashSafe(ss: seq<State>, i: nat)
    requires Run(ss) && i < |ss|
    ensures var s := ss[i];
      && DiskOk(s.L, s.disk) && |s.init| == s.L.total && s.committed <= |s.updates| && UpdatesOk(s.L, s.updates)
      && SameHome(s.L, Recover(s.L, s.disk), Replay(s.init, s.updates[..s.committed]))
      && (forall j, k | 0 <= j < |s.updates| && 0 <= k < |s.updates| && s.updates[j].op == s.updates[k].op ::
            j < s.committed <==> k < s.committed)
  {
    RunKeeps(ss, i);
    CrashRecoversCommitted(ss[i]);
    hide SameHome; hide Recover; hide Replay; hide PhaseOk; hide CacheOk; hide PinsOk; hide DiskOk;
    var s := ss[i];
    forall j, k | 0 <= j < |s.updates| && 0 <= k < |s.updates| && s.updates[j].op == s.updates[k].op
      ensures j < s.committed <==> k < s.committed
    {}
  }

  // Durability: when no operation is running and no commit is under way, every change so far would
  // survive a crash.
  lemma QuietMeansDurable(ss: seq<State>, i: nat)
    requires Run(ss) && i < |ss|
    ensures ss[i].phase.Running? && ss[i].outstanding == 0 ==> ss[i].committed == |ss[i].updates|
  {
    RunKeeps(ss, i);
  }

  // Log space: what is logged and what the running operations may still log fit in the log.
  lemma LogSpaceReserved(ss: seq<State>, i: nat)
    requires Run(ss) && i < |ss|
    ensures |ss[i].lh| + Reserved(ss[i].ops) <= LOGSIZE
    ensures forall j, k | 0 <= j < k < |ss[i].lh| :: ss[i].lh[j] != ss[i].lh[k]
  {
    RunKeeps(ss, i);
    if !ss[i].phase.Running? {
      NobodyReserves(ss[i]);
    }
  }

  // commit() runs only while no operation does, and starts from an empty header on disk.
  lemma CommitRunsAlone(ss: seq<State>, i: nat)
    requires Run(ss) && i < |ss|
    ensures ss[i].phase.Committing? ==> forall p | 0 <= p < |ss[i].ops| :: ss[i].ops[p].NoOp?
    ensures ss[i].phase.Running? ==> DiskOk(ss[i].L, ss[i].disk) && DecodeHead(ss[i].disk[ss[i].L.start]) == []
  {
    RunKeeps(ss, i);
    NoneRunning(ss[i].ops);
  }

  // Until it is installed, before and after the commit point, a logged block is pinned, and its home on
  // disk is as it was before this commit, which up to the header write is the last durable contents.
  lemma LoggedBlocksStayPinned(ss: seq<State>, i: nat, j: nat)
    requires Run(ss) && i < |ss| && !ss[i].phase.Recovering? && Unpinned(ss[i]) <= j < |ss[i].lh|
    ensures var s := ss[i]; var b := s.lh[j];
      && b in s.cache && s.cache[b].dirty && !Enabled(s, Evict(b))
      && s.L.Home(b) && |s.disk| == |s.init| == s.L.total && Atomic(s)
      && (s.phase.Committing? ==> |s.phase.tx.before| == s.L.total && s.disk[b] == s.phase.tx.before[b])
      && (s.phase.Running? || s.phase.k <= |s.lh| ==> s.disk[b] == Durable(s)[b])
  {
    hide Run; hide Inv; hide Ready; hide Durable; hide Atomic; hide Enabled;
    RunKeeps(ss, i);
    PinnedHome(ss[i], j);
    PinnedDisk(ss[i], j);
    DirtyStays(ss[i], ss[i].lh[j]);
  }

  lemma DirtyStays(s: State, b: nat)
    requires b in s.cache && s.cache[b].dirty
    ensures !Enabled(s, Evict(b))
  {}

  lemma PinnedHome(s: State, j: nat)
    requires Inv(s) && Unpinned(s) <= j < |s.lh|
    ensures |s.disk| == |s.init| == s.L.total && Atomic(s)
    ensures var b := s.lh[j]; b in s.cache && s.cache[b].dirty && s.L.Home(b)
  {
    hide Replay; hide OpsOk; hide View; hide SameHome; hide Atomic;
  }

  lemma PinnedDisk(s: State, j: nat)
    requires Inv(s) && !s.phase.Recovering? && Unpinned(s) <= j < |s.lh| && s.L.Home(s.lh[j])
    requires |s.disk| == |s.init| == s.L.total && Atomic(s)
    ensures var b := s.lh[j];
      && (s.phase.Committing? ==> |s.phase.tx.before| == s.L.total && s.disk[b] == s.phase.tx.before[b])
      && (s.phase.Running? || s.phase.k <= |s.lh| ==> s.disk[b] == Durable(s)[b])
  {
    hide Replay; hide Atomic; hide OpsOk; hide PinsOk; hide CacheOk; hide View;
    if s.phase.Committing? {
      assert s.phase.tx.Homes(s.disk, s.phase.tx.Installed(s.phase.k));
    }
  }
}
