/** The code of the log over the buffer cache makes the steps of the logging system: each of its methods is
    one step, and each block write of a commit or of recovery is one. What is proved of every run of the
    system is so true of the code. */
module LogRefines {
  import opened Machine
  import opened Blocks
  import opened LogSpec
  import opened LogProtocol
  import opened LogSafety
  import Bio
  import Code = Log

  // The state as the code has it. Clean buffers do not matter: they are as on disk.
  ghost predicate Shows(s: State, v: Code.Memory) {
    && !s.phase.Recovering? && (s.phase.Committing? <==> v.committing)
    && s.disk == v.disk && View(s.disk, s.cache) == v.logical
    && s.lh == v.header && s.outstanding == v.outstanding
    && ShowsLocks(s.locks, v.held, v.unlogged) && ShowsPins(s.cache, v.pinned)
  }

  ghost predicate ShowsLocks(locks: map<nat, Lock>, held: set<nat>, unlogged: set<nat>) {
    && (forall b: nat :: b in held <==> b in locks)
    && (forall b: nat :: b in unlogged <==> b in locks && locks[b].modified)
  }

  ghost predicate ShowsPins(cache: map<nat, Entry>, pinned: set<nat>) {
    forall b: nat :: b in pinned <==> b in cache && cache[b].dirty
  }

  ghost predicate Sound(s: State) {
    Inv(s) && Ready(s)
  }

  // ---------------------------------------------------------------- what the steps do to what is shown

  lemma BeginShows(s: State, v: Code.Memory, p: nat)
    requires Sound(s) && Shows(s, v) && p < |s.ops| && s.ops[p].NoOp?
    ensures Enabled(s, Event.BeginOp(p)) <==>
              !v.committing && |v.header| + (v.outstanding + 1) * MAXOPBLOCKS <= LOGSIZE
    ensures Enabled(s, Event.BeginOp(p)) ==> Shows(Apply(s, Event.BeginOp(p)), v.(outstanding := v.outstanding + 1))
  {
    hide Inv; hide Ready; hide View; hide ShowsPins; hide ShowsLocks;
  }

  lemma AcquiredShows(s: State, v: Code.Memory, p: nat, b: nat)
    requires CacheOk(s) && Shows(s, v) && b < s.L.total && b !in s.locks
    ensures Shows(Acquired(s, p, b), v.(held := v.held + {b}))
  {
    AcquireCache(s, p, b);
    hide View; hide CacheOk;
    LockTaken(s.locks, v.held, v.unlogged, b, p);
    if b !in s.cache {
      PinsKept(s.cache, v.pinned, b, Entry(s.disk[b], false));
    }
    hide ShowsLocks; hide ShowsPins;
  }

  lemma LockTaken(locks: map<nat, Lock>, held: set<nat>, unlogged: set<nat>, b: nat, p: nat)
    requires ShowsLocks(locks, held, unlogged) && b !in locks
    ensures ShowsLocks(locks[b := Lock(p, false)], held + {b}, unlogged)
  {}

  lemma LockMarked(locks: map<nat, Lock>, held: set<nat>, unlogged: set<nat>, b: nat, l: Lock)
    requires ShowsLocks(locks, held, unlogged) && b in locks
    ensures ShowsLocks(locks[b := l], held, if l.modified then unlogged + {b} else unlogged - {b})
  {}

  lemma PinsKept(cache: map<nat, Entry>, pinned: set<nat>, b: nat, x: Entry)
    requires ShowsPins(cache, pinned) && x.dirty == (b in cache && cache[b].dirty)
    ensures ShowsPins(cache[b := x], pinned)
  {}

  lemma PinAdded(cache: map<nat, Entry>, pinned: set<nat>, b: nat, x: Entry)
    requires ShowsPins(cache, pinned) && x.dirty
    ensures ShowsPins(cache[b := x], pinned + {b})
  {}

  lemma AcquireShows(s: State, v: Code.Memory, p: nat, b: nat)
    requires Sound(s) && Shows(s, v) && b < s.L.total && b !in v.held
    ensures Enabled(s, Acquire(p, b))
    ensures Shows(Apply(s, Acquire(p, b)), v.(held := v.held + {b}))
  {
    CacheFacts(s);
    hide Inv; hide Ready; hide View; hide CacheOk; hide Acquired;
    AcquiredShows(s, v, p, b);
    hide ShowsPins; hide ShowsLocks;
  }

  lemma CacheFacts(s: State)
    requires Inv(s)
    ensures CacheOk(s) && |s.disk| == s.L.total
  {
    hide PinsOk; hide OpsOk; hide Atomic; hide PhaseOk; hide LogicalOk; hide HeaderOk;
  }

  lemma ReadyFacts(s: State)
    requires Ready(s)
    ensures |s.disk| == s.L.total && forall b | b in s.locks :: b in s.cache
  {}

  lemma ModifiedShows(s: State, v: Code.Memory, p: nat, b: nat, data: Block)
    requires Shows(s, v) && InOp(s, p) && b in s.cache && b in s.locks && b < |s.disk|
    ensures Shows(Modified(s, p, b, data), v.(logical := v.logical[b := data], unlogged := v.unlogged + {b}))
  {
    ModifyView(s, p, b, data);
    hide View;
    LockMarked(s.locks, v.held, v.unlogged, b, Lock(p, true));
    PinsKept(s.cache, v.pinned, b, Entry(data, s.cache[b].dirty));
    hide ShowsLocks; hide ShowsPins;
  }

  lemma ModifyShows(s: State, v: Code.Memory, p: nat, b: nat, data: Block)
    requires Sound(s) && Shows(s, v) && Enabled(s, Modify(p, b, data))
    ensures b < |v.logical|
    ensures Shows(Apply(s, Modify(p, b, data)), v.(logical := v.logical[b := data], unlogged := v.unlogged + {b}))
  {
    ReadyFacts(s);
    hide Inv; hide Ready; hide Modified; hide ShowsPins; hide ShowsLocks;
    ModifiedShows(s, v, p, b, data);
    hide Shows;
  }

  lemma LoggedShows(s: State, v: Code.Memory, p: nat, b: nat)
    requires Shows(s, v) && InOp(s, p) && b in s.cache && b in s.locks
    ensures var h := if b in v.header then v.header else v.header + [b];
      Shows(Logged(s, p, b), v.(header := h, pinned := v.pinned + {b}, unlogged := v.unlogged - {b}))
  {
    LogWriteView(s, p, b);
    hide View;
    LockMarked(s.locks, v.held, v.unlogged, b, Lock(p, false));
    PinAdded(s.cache, v.pinned, b, Entry(s.cache[b].data, true));
    hide ShowsLocks; hide ShowsPins;
  }

  lemma LogWriteShows(s: State, v: Code.Memory, p: nat, b: nat)
    requires Sound(s) && Shows(s, v) && Enabled(s, LogWrite(p, b)) && !LogPanics(s)
    ensures var h := if b in v.header then v.header else v.header + [b];
      Shows(Apply(s, LogWrite(p, b)), v.(header := h, pinned := v.pinned + {b}, unlogged := v.unlogged - {b}))
  {
    ReadyFacts(s);
    hide Inv; hide Ready; hide Logged; hide Shows;
    LoggedShows(s, v, p, b);
  }

  lemma ReleaseShows(s: State, v: Code.Memory, p: nat, b: nat)
    requires Sound(s) && Shows(s, v) && Enabled(s, Release(p, b))
    ensures Shows(Apply(s, Release(p, b)), v.(held := v.held - {b}))
  {
    hide Inv; hide Ready; hide View;
  }

  // ---------------------------------------------------------------- sequences of steps

  ghost predicate Path(ss: seq<State>, es: seq<Event>) {
    |ss| == |es| + 1 && Linked(ss, es)
  }

  ghost predicate Linked(ss: seq<State>, es: seq<Event>)
    requires |ss| == |es| + 1
  {
    forall k | 0 <= k < |es| :: Ready(ss[k]) && Enabled(ss[k], es[k]) && ss[k + 1] == Apply(ss[k], es[k])
  }

  lemma PathNone(s: State)
    ensures Path([s], [])
  {}

  lemma PathSnoc(ss: seq<State>, es: seq<Event>, e: Event)
    requires Path(ss, es) && Ready(ss[|ss| - 1]) && Enabled(ss[|ss| - 1], e)
    ensures Path(ss + [Apply(ss[|ss| - 1], e)], es + [e])
  {
    hide Ready; hide Enabled; hide Apply;
  }

  lemma PathCons(s: State, e: Event, ss: seq<State>, es: seq<Event>)
    requires Path(ss, es) && Ready(s) && Enabled(s, e) && ss[0] == Apply(s, e)
    ensures Path([s] + ss, [e] + es)
  {
    hide Ready; hide Enabled; hide Apply;
    var ts, fs := [s] + ss, [e] + es;
    forall k | 0 <= k < |fs|
      ensures Ready(ts[k]) && Enabled(ts[k], fs[k]) && ts[k + 1] == Apply(ts[k], fs[k])
    {
      if k > 0 {
        assert ts[k] == ss[k - 1] && fs[k] == es[k - 1] && ts[k + 1] == ss[k - 1 + 1];
      }
    }
  }

  // A path from the end of a run makes a longer run.
  lemma {:induction false} RunExtends(run: seq<State>, ss: seq<State>, es: seq<Event>)
    requires Run(run) && Path(ss, es) && run[|run| - 1] == ss[0]
    ensures Run(run + ss[1..])
  {
    hide Ready; hide Enabled; hide Apply; hide Boots;
    var r := run + ss[1..];
    forall i | 0 <= i < |r| - 1
      ensures StepsTo(r[i], r[i + 1])
    {
      if i < |run| - 1 {
        assert StepsTo(run[i], run[i + 1]);
      } else {
        var k := i - (|run| - 1);
        assert r[i] == ss[k] && r[i + 1] == ss[k + 1];
        assert Enabled(ss[k], es[k]) && ss[k + 1] == Apply(ss[k], es[k]);
      }
    }
  }

  lemma {:induction false} PathKeeps(ss: seq<State>, es: seq<Event>, k: nat)
    requires Path(ss, es) && k <= |es| && Sound(ss[0])
    ensures Sound(ss[k])
  {
    hide Inv; hide Ready; hide Enabled; hide Apply;
    if k > 0 {
      PathKeeps(ss, es, k - 1);
      assert Enabled(ss[k - 1], es[k - 1]) && ss[k - 1 + 1] == Apply(ss[k - 1], es[k - 1]);
      StepKeeps(ss[k - 1], es[k - 1]);
    }
  }

  // ---------------------------------------------------------------- the writes of a commit

  // No block that the commit works on is held.
  ghost predicate Unheld(s: State) {
    forall b | b in s.locks :: !s.L.InLog(b) && b !in s.lh
  }

  // s is n steps into the commit of tx.
  ghost predicate Into(s: State, tx: Tx, n: nat, s0: State) {
    && s.phase == Committing(tx, n) && s.L == s0.L && s.lh == s0.lh && s.locks == s0.locks
    && s.updates == s0.updates && s.outstanding == s0.outstanding && s.init == s0.init && |s.disk| == s.L.total
  }

  lemma CommitWrites(s: State, s0: State, tx: Tx, n: nat)
    requires Sound(s) && Into(s, tx, n, s0) && Unheld(s0) && n < 2 * |s.lh| + 2
    ensures tx.Ok() && tx.L == s.L && tx.h == s.lh && Enabled(s, CommitStep)
    ensures var t := Apply(s, CommitStep); Into(t, tx, n + 1, s0) && t.disk == tx.After(s.disk, n)
  {
    TargetFree(s, n);
    CommitStepWrites(s);
    hide Inv; hide View; hide Tx.Write;
    CommitSteppedIs(s, tx, n);
    ApplyCommit(s);
    hide Ready; hide CommitStepped; hide Apply; hide Enabled;
  }

  lemma ApplyCommit(s: State)
    requires Ready(s) && Enabled(s, CommitStep)
    ensures Apply(s, CommitStep) == CommitStepped(s)
  {
    hide CommitStepped; hide Ready; hide Enabled;
  }

  lemma CommitSteppedIs(s: State, tx: Tx, n: nat)
    requires Ready(s) && s.phase == Committing(tx, n) && n < 2 * |s.lh| + 2 && tx.Ok() && tx.L == s.L && tx.h == s.lh
    requires |s.disk| == s.L.total
    requires var v := View(s.disk, s.cache); Tx(s.L, v, v, s.lh).Write(v, n) == tx.Write(s.disk, n)
    ensures var t := CommitStepped(s);
      && t.phase == Committing(tx, n + 1) && t.disk == tx.After(s.disk, n)
      && t == s.(disk := t.disk, cache := t.cache, phase := t.phase, committed := t.committed)
  {
    hide View; hide Tx.Write;
  }

  lemma TargetFree(s: State, n: nat)
    requires Inv(s) && s.phase.Committing? && s.phase.k == n <= 2 * |s.lh| + 2 && Unheld(s)
    ensures CommitTarget(s) !in s.locks
  {
    hide CacheOk; hide PinsOk; hide OpsOk; hide Atomic; hide PhaseOk; hide LogicalOk;
    assert s.L.InLog(s.L.start);
    assert n < |s.lh| ==> s.L.InLog(s.L.Slot(n));
  }

  lemma {:induction false} CommitRuns(s: State, tx: Tx, ds: seq<Disk>) returns (ss: seq<State>, es: seq<Event>)
    requires Sound(s) && s.phase == Committing(tx, 0) && Unheld(s)
    requires tx.Ok() && tx.h == s.lh && tx.before == s.disk && tx.Trace(ds)
    ensures Path(ss, es) && |ss| == |ds| && ss[0] == s && Sound(ss[|ss| - 1])
    ensures forall k | 0 <= k < |ss| :: ss[k].disk == ds[k]
    ensures forall k | 0 <= k < |es| :: es[k] == CommitStep
    ensures Into(ss[|ss| - 1], tx, |ds| - 1, s)
    decreases |ds|
  {
    hide Linked;
    hide Inv; hide Ready; hide Enabled; hide Apply; hide Tx.After;
    if |ds| == 1 {
      SizeOf(s);
      PathNone(s);
      ss, es := [s], [];
    } else {
      var m := ds[..|ds| - 1];
      tx.TraceAt(ds, |ds| - 1);
      ss, es := CommitRuns(s, tx, m);
      var t := ss[|ss| - 1];
      CommitWrites(t, s, tx, |m| - 1);
      StepKeeps(t, CommitStep);
      PathSnoc(ss, es, CommitStep);
      ss, es := ss + [Apply(t, CommitStep)], es + [CommitStep];
    }
  }

  lemma SizeOf(s: State)
    requires Ready(s)
    ensures |s.disk| == s.L.total
  {}

  // The header is empty again, and nothing is pinned.
  lemma CommitEnds(s: State, s0: State, tx: Tx)
    requires Sound(s) && Into(s, tx, 2 * |s.lh| + 2, s0) && Unheld(s0)
    ensures Enabled(s, CommitStep)
    ensures var t := Apply(s, CommitStep);
      && Sound(t) && t.phase == Running && t.lh == [] && t.locks == s0.locks && t.disk == s.disk
      && t.updates == s0.updates && t.init == s0.init && t.outstanding == s0.outstanding && t.L == s0.L
  {
    TargetFree(s, 2 * |s.lh| + 2);
    StepKeeps(s, CommitStep);
    hide Inv;
  }

  // ---------------------------------------------------------------- reading through the cache at rest

  // Two states with the same changes read the same, if their log blocks do.
  lemma SameReading(s: State, t: State, v: Disk)
    requires Inv(s) && Inv(t) && !s.phase.Recovering? && !t.phase.Recovering?
    requires t.L == s.L && t.init == s.init && t.updates == s.updates
    requires SameHome(s.L, v, View(s.disk, s.cache))
    requires forall b: nat | s.L.InLog(b) && b < s.L.total :: v[b] == t.disk[b]
    ensures View(t.disk, t.cache) == v
  {
    LogBlocksAgree(t);
    ReadsUpdates(s);
    ReadsUpdates(t);
    hide Inv; hide View; hide Replay;
    forall b: nat | b < s.L.total
      ensures View(t.disk, t.cache)[b] == v[b]
    {
      if s.L.InLog(b) {
      } else {
        assert s.L.Home(b);
      }
    }
  }

  lemma ReadsUpdates(s: State)
    requires Inv(s) && !s.phase.Recovering?
    ensures s.L.Ok() && |s.init| == s.L.total && UpdatesOk(s.L, s.updates)
    ensures SameHome(s.L, View(s.disk, s.cache), Replay(s.init, s.updates))
  {
    hide CacheOk; hide PinsOk; hide OpsOk; hide PhaseOk; hide HeaderOk; hide View; hide Replay; hide SameHome;
  }

  // Between commits only blocks of the header are pinned.
  lemma NothingPinned(s: State)
    requires Inv(s) && s.phase.Running? && s.lh == []
    ensures ShowsPins(s.cache, {})
  {
    hide CacheOk; hide OpsOk; hide Atomic; hide PhaseOk; hide LogicalOk; hide HeaderOk;
  }

  // ---------------------------------------------------------------- the code

  // begin_op's guard.
  method BeginOp(log: Code.Log, ghost s: State, ghost p: nat) returns (admitted: bool, ghost t: State)
    requires log.Open() && Sound(s) && s.L == log.L && Shows(s, log.Value()) && p < |s.ops| && s.ops[p].NoOp?
    modifies log`outstanding
    ensures log.Open() && (admitted <==> Enabled(s, Event.BeginOp(p)))
    ensures t == (if admitted then Apply(s, Event.BeginOp(p)) else s) && Shows(t, log.Value())
  {
    OpenSize(log);
    BeginShows(s, log.Value(), p);
    t := if Enabled(s, Event.BeginOp(p)) then Apply(s, Event.BeginOp(p)) else s;
    hide Sound; hide Apply; hide Code.Log.Open; hide Enabled; hide Shows;
    admitted := log.TryBeginOp();
  }

  // bread
  method Get(log: Code.Log, b: nat, ghost s: State, ghost p: nat) returns (r: Bio.Buf?, ghost t: State)
    requires log.Open() && Sound(s) && s.L == log.L && Shows(s, log.Value()) && b < log.L.total && b !in log.Held()
    modifies log.cache`disk, log.cache`history, log.cache`touched, log.cache.bufs`info
    ensures r != null ==> log.Open() && log.cache.Held(r) && r !in log.cache.touched && r.info.blockno == b
    ensures r != null ==> r.info.data == log.cache.logical[b]
    ensures Enabled(s, Acquire(p, b)) && t == Apply(s, Acquire(p, b)) && (r != null ==> Shows(t, log.Value()))
    ensures r == null ==> log.cache.Full()
  {
    ghost var v := log.Value();
    AcquireShows(s, v, p, b);
    t := Apply(s, Acquire(p, b));
    hide Sound; hide Apply; hide Code.Log.Open; hide Enabled; hide Shows;
    OpenSize(log);
    r := log.Get(b);
  }

  lemma OpenSize(log: Code.Log)
    requires log.Open()
    ensures log.block.Length == LOGSIZE && log.n <= LOGSIZE && |log.cache.logical| == log.L.total
  {}

  // The memmove into a buffer.
  method Change(log: Code.Log, b: Bio.Buf, data: Block, ghost s: State, ghost p: nat) returns (ghost t: State)
    requires log.Open() && Sound(s) && s.L == log.L && Shows(s, log.Value()) && log.cache.Held(b)
    requires Enabled(s, Modify(p, b.info.blockno, data))
    modifies log.cache`logical, log.cache`touched, b`info
    ensures log.Open() && log.cache.Held(b) && b.info == old(b.info).(data := data)
    ensures t == Apply(s, Modify(p, b.info.blockno, data)) && Shows(t, log.Value())
  {
    ModifyShows(s, log.Value(), p, b.info.blockno, data);
    t := Apply(s, Modify(p, b.info.blockno, data));
    OpenSize(log);
    hide Sound; hide Apply; hide Code.Log.Open; hide Enabled; hide Shows;
    log.Change(b, data);
  }

  // log_write; false is the panic of a full log.
  method LogWriteStep(log: Code.Log, b: Bio.Buf, ghost s: State, ghost p: nat) returns (ok: bool, ghost t: State)
    requires log.Open() && Sound(s) && s.L == log.L && Shows(s, log.Value()) && log.cache.Held(b)
    requires Enabled(s, LogWrite(p, b.info.blockno))
    modifies log`n, log.block, log.cache`touched, b`info
    ensures ok <==> !LogPanics(s)
    ensures ok ==> log.Open() && log.cache.Held(b) && b !in log.cache.touched
    ensures t == Apply(s, LogWrite(p, old(b.info.blockno))) && (ok ==> Shows(t, log.Value()))
  {
    ghost var k := b.info.blockno;
    SomebodyRuns(s, p);
    if !LogPanics(s) {
      LogWriteShows(s, log.Value(), p, k);
    }
    t := Apply(s, LogWrite(p, k));
    OpenSize(log);
    hide Sound; hide Apply; hide Code.Log.Open; hide Shows;
    ok := log.LogWrite(b);
  }

  lemma SomebodyRuns(s: State, p: nat)
    requires Inv(s) && InOp(s, p)
    ensures s.outstanding >= 1
  {
    hide CacheOk; hide PinsOk; hide Atomic; hide PhaseOk; hide LogicalOk; hide HeaderOk;
    SomeoneRuns(s, p);
  }

  // brelse
  method Put(log: Code.Log, b: Bio.Buf, ghost s: State, ghost p: nat) returns (ghost t: State)
    requires log.Open() && Sound(s) && s.L == log.L && Shows(s, log.Value()) && log.cache.Held(b)
    requires b !in log.cache.touched && Enabled(s, Release(p, b.info.blockno))
    modifies log.cache`ring, log.cache`clock, log.cache`released, log.cache.head, log.cache.bufs
    ensures log.Open() && t == Apply(s, Release(p, old(b.info.blockno))) && Shows(t, log.Value())
  {
    ReleaseShows(s, log.Value(), p, b.info.blockno);
    t := Apply(s, Release(p, b.info.blockno));
    OpenSize(log);
    hide Sound; hide Apply; hide Code.Log.Open; hide Enabled; hide Shows;
    log.Put(b);
  }

  // ---------------------------------------------------------------- end_op

  // What end_op begins with.
  lemma EndBegins(s: State, v: Code.Memory, p: nat)
    requires Sound(s) && Shows(s, v) && Enabled(s, Event.EndOp(p))
    ensures var t := Apply(s, Event.EndOp(p));
      && Sound(t) && s.outstanding >= 1 && t.L == s.L && t.init == s.init && t.updates == s.updates
      && t.disk == s.disk && t.locks == s.locks && t.lh == s.lh && t.outstanding == s.outstanding - 1
      && s.phase.Running?
      && (s.outstanding > 1 ==> Shows(t, v.(outstanding := v.outstanding - 1)))
      && (s.outstanding == 1 ==> v.unlogged == {})
      && (s.outstanding == 1 && s.lh != [] ==> t.phase == Committing(Tx(s.L, v.disk, v.logical, s.lh), 0))
      && (s.outstanding == 1 && s.lh == [] ==> t.phase == Running)
  {
    StepKeeps(s, Event.EndOp(p));
    EndedNow(s, p);
    hide Inv; hide Ready; hide View; hide ShowsPins; hide Ended;
  }

  lemma EndedNow(s: State, p: nat)
    requires Sound(s) && Enabled(s, Event.EndOp(p))
    ensures Apply(s, Event.EndOp(p)) == Ended(s, p) && s.outstanding >= 1
    ensures var t := Ended(s, p);
      && t == s.(ops := t.ops, outstanding := s.outstanding - 1, committed := t.committed, phase := t.phase)
      && var tx := Tx(s.L, s.disk, View(s.disk, s.cache), s.lh);
         t.phase == if s.outstanding == 1 && s.lh != [] then Committing(tx, 0) else s.phase
    ensures s.outstanding == 1 ==> forall b | b in s.locks :: !s.locks[b].modified
  {
    OpFacts(s);
    hide Inv; hide Ready; hide View; hide OpsOk; hide Atomic;
    EndOps(s, p);
  }

  lemma OpFacts(s: State)
    requires Inv(s)
    ensures OpsOk(s) && Atomic(s)
  {
    hide CacheOk; hide PinsOk; hide OpsOk; hide Atomic; hide PhaseOk; hide LogicalOk; hide HeaderOk;
  }

  lemma TouchedShown(log: Code.Log)
    requires log.Settled()
    ensures log.cache.touched != {} ==> log.Unlogged() != {}
  {
    log.cache.LockedNotTouched();
    hide CacheOk; hide Bio.Bcache.Valid;
    if log.cache.touched != {} {
      var x :| x in log.cache.touched;
      assert x.info.blockno in log.Unlogged();
    }
  }

  // The disks written since `was` are those that the path goes through from its n-th state on.
  ghost predicate Writes(ss: seq<State>, n: nat, was: seq<Disk>, now: seq<Disk>) {
    && was <= now && n + |now| - |was| <= |ss|
    && forall i | |was| <= i < |now| :: now[i] == ss[n + i - |was|].disk
  }

  lemma PathWrites(ss: seq<State>, ds: seq<Disk>, was: seq<Disk>, now: seq<Disk>)
    requires was <= now && |ds| >= 1 && ds == [ds[0]] + now[|was|..] && |ss| >= |ds| + 1
    requires forall k | 0 <= k < |ds| :: ss[k + 1].disk == ds[k]
    ensures Writes(ss, 2, was, now)
  {
    forall i | |was| <= i < |now|
      ensures now[i] == ss[2 + i - |was|].disk
    {
      var k := i - |was| + 1;
      assert ds[k] == now[i] && ss[k + 1].disk == ds[k];
    }
  }

  // The commit of a last operation, as far as ds goes.
  lemma CommitPath(s: State, v: Code.Memory, p: nat, ds: seq<Disk>) returns (ss: seq<State>, es: seq<Event>)
    requires Sound(s) && Shows(s, v) && Enabled(s, Event.EndOp(p)) && s.outstanding == 1 && s.lh != [] && Unheld(s)
    requires var tx := Tx(s.L, v.disk, v.logical, v.header); tx.Ok() && tx.Trace(ds)
    ensures Path(ss, es) && |ss| == |ds| + 1 && ss[0] == s && es[0] == Event.EndOp(p) && Sound(ss[|ss| - 1])
    ensures forall k | 1 <= k < |es| :: es[k] == CommitStep
    ensures forall k | 0 <= k < |ds| :: ss[k + 1].disk == ds[k]
    ensures Into(ss[|ss| - 1], Tx(s.L, v.disk, v.logical, s.lh), |ds| - 1, Apply(s, Event.EndOp(p)))
  {
    hide Linked; hide Inv; hide Enabled; hide Apply; hide Ready; hide Tx.Trace; hide ShowsPins; hide ShowsLocks;
    hide View;
    EndBegins(s, v, p);
    var t := Apply(s, Event.EndOp(p));
    var tx := Tx(s.L, v.disk, v.logical, s.lh);
    var ts, fs := CommitRuns(t, tx, ds);
    ss, es := [s] + ts, [Event.EndOp(p)] + fs;
    hide Into; hide Sound;
    PathCons(s, Event.EndOp(p), ts, fs);
  }

  // A state with nothing logged, after one in which the same changes had been made.
  lemma RestShows(s: State, t: State, v: Code.Memory, w: Code.Memory)
    requires Sound(s) && Sound(t) && Shows(s, v) && v.unlogged == {} && t.phase == Running && t.lh == []
    requires t.L == s.L && t.init == s.init && t.updates == s.updates && t.locks == s.locks && t.outstanding == 0
    requires SameHome(s.L, w.logical, v.logical) && Code.LogClean(s.L, w.disk, w.logical)
    requires w == Code.Memory(t.disk, w.logical, [], {}, v.held, {}, 0, false)
    ensures Shows(t, w)
  {
    NothingPinned(t);
    SameReading(s, t, w.logical);
    hide Inv; hide Ready; hide View; hide ShowsPins;
  }

  lemma OpenClean(log: Code.Log)
    requires log.Open()
    ensures Code.LogClean(log.L, log.cache.disk, log.cache.logical) && log.n <= log.block.Length
  {}

  lemma QuietNow(log: Code.Log, s: State)
    requires log.Open() && Shows(s, log.Value()) && s.L == log.L && Unheld(s) && log.Unlogged() == {}
    ensures log.Valid()
  {
    TouchedShown(log);
    hide View; hide ShowsPins;
  }

  // The whole commit, or what there is of it.
  lemma WholePath(s: State, v: Code.Memory, p: nat, ds: seq<Disk>, whole: bool, w: Code.Memory)
    returns (ss: seq<State>, es: seq<Event>)
    requires Sound(s) && Shows(s, v) && Enabled(s, Event.EndOp(p)) && s.outstanding == 1 && s.lh != [] && Unheld(s)
    requires var tx := Tx(s.L, v.disk, v.logical, v.header);
      && tx.Ok() && tx.Trace(ds)
      && (whole ==> |ds| == tx.Writes() + 1 && w == Code.Memory(ds[|ds| - 1], w.logical, [], {}, v.held, {}, 0, false))
    requires whole ==> SameHome(s.L, w.logical, v.logical) && Code.LogClean(s.L, w.disk, w.logical)
    ensures Path(ss, es) && |ss| >= |ds| + 1 && ss[0] == s && es[0] == Event.EndOp(p)
    ensures forall k | 1 <= k < |es| :: es[k] == CommitStep
    ensures forall k | 0 <= k < |ds| :: ss[k + 1].disk == ds[k]
    ensures whole ==> Shows(ss[|ss| - 1], w)
  {
    hide Inv; hide Ready; hide Apply; hide Enabled; hide Tx.Trace; hide ShowsPins; hide ShowsLocks; hide View;
    hide Linked;
    EndBegins(s, v, p);
    var t := Apply(s, Event.EndOp(p));
    ss, es := CommitPath(s, v, p, ds);
    if whole {
      var last, tx := ss[|ss| - 1], Tx(s.L, v.disk, v.logical, s.lh);
      CommitEnds(last, t, tx);
      PathSnoc(ss, es, CommitStep);
      ss, es := ss + [Apply(last, CommitStep)], es + [CommitStep];
      RestShows(s, ss[|ss| - 1], v, w);
    }
  }

  // end_op: the step of that name, and if it is the last operation to end, a step for each block that the
  // commit writes and one for its end. If a panic cuts the commit short, so are the steps.
  method EndOp(log: Code.Log, ghost s: State, ghost p: nat)
    returns (ok: bool, ghost ss: seq<State>, ghost es: seq<Event>)
    requires log.Open() && Sound(s) && s.L == log.L && Shows(s, log.Value()) && Enabled(s, Event.EndOp(p))
    requires s.outstanding == 1 ==> Unheld(s)
    modifies log`outstanding, log`committing, log`n, log.cache, log.cache.head, log.cache.bufs
    ensures Path(ss, es) && ss[0] == s && |es| >= 1 && es[0] == Event.EndOp(p)
    ensures forall k | 1 <= k < |es| :: es[k] == CommitStep
    ensures Writes(ss, 2, old(log.cache.history), log.cache.history)
    ensures ok ==> log.Open() && Shows(ss[|ss| - 1], log.Value())
    ensures !ok ==> log.cache.Full()
  {
    hide Inv; hide Ready; hide Apply; hide Enabled; hide Tx.Trace; hide Tx.CrashSafe; hide Linked;
    hide ShowsPins; hide ShowsLocks; hide View; hide Code.Log.Open;
    OpenClean(log);
    ghost var v, h0, t := log.Value(), log.cache.history, Apply(s, Event.EndOp(p));
    ghost var last := s.outstanding == 1;
    EndBegins(s, v, p);
    PathNone(t);
    PathCons(s, Event.EndOp(p), [t], []);
    if last {
      QuietNow(log, s);
    }
    ok := log.EndOp();
    ss, es := [s] + [t], [Event.EndOp(p)] + [];
    if ok {
      OpenClean(log);
    }
    if last && s.lh != [] {
      ghost var ds := [v.disk] + log.cache.history[|h0|..];
      ss, es := WholePath(s, v, p, ds, ok, if ok then log.Value() else v);
      PathWrites(ss, ds, h0, log.cache.history);
    } else {
      assert log.cache.history == h0;
      if last {
        RestShows(s, t, v, log.Value());
      }
    }
  }

  // ---------------------------------------------------------------- recovery

  // s is n steps into the recovery of disk d.
  ghost predicate Recovered(s: State, d: Disk, n: nat, s0: State) {
    && s.L == s0.L && s.locks == s0.locks && s.updates == s0.updates && s.init == s0.init
    && s.outstanding == s0.outstanding
    && (if n <= |s0.lh| then s.phase == Recovering(d, n) && s.lh == s0.lh else s.phase == Running && s.lh == [])
  }

  lemma RecoverWrites(s: State, d: Disk, n: nat, s0: State)
    requires Sound(s) && Recovered(s, d, n, s0) && n <= |s0.lh|
    ensures DiskOk(s.L, d) && n <= |DecodeHead(d[s.L.start])| && Enabled(s, RecoverStep)
    ensures var t := Apply(s, RecoverStep); Recovered(t, d, n + 1, s0) && t.disk == RecoverDisk(s.L, d, n + 1)
  {
    hide Inv; hide View; hide RecoverDisk; hide DiskOk; hide RecoverStepped; hide Ready; hide Apply; hide Enabled;
    RecoverFacts(s);
    ApplyRecover(s);
  }

  lemma ApplyRecover(s: State)
    requires Ready(s) && s.phase.Recovering?
    ensures Enabled(s, RecoverStep) && Apply(s, RecoverStep) == RecoverStepped(s)
  {
    hide RecoverStepped; hide Ready;
  }

  lemma {:induction false} RecoverRuns(s: State, n: nat) returns (ss: seq<State>, es: seq<Event>)
    requires Sound(s) && s.phase == Recovering(s.disk, 0) && n <= |s.lh| + 1
    ensures Path(ss, es) && |es| == n && ss[0] == s && Sound(ss[n]) && Recovered(ss[n], s.disk, n, s)
    ensures forall k | 0 <= k < n :: es[k] == RecoverStep
    ensures DiskOk(s.L, s.disk) && |s.lh| == |DecodeHead(s.disk[s.L.start])|
    ensures forall k | 1 <= k <= n :: ss[k].disk == RecoverDisk(s.L, s.disk, k)
  {
    hide Linked; hide Inv; hide Ready; hide Enabled; hide Apply; hide RecoverDisk; hide DiskOk;
    CrashedHead(s);
    if n == 0 {
      PathNone(s);
      ss, es := [s], [];
    } else {
      ss, es := RecoverRuns(s, n - 1);
      RecoverWrites(ss[n - 1], s.disk, n - 1, s);
      StepKeeps(ss[n - 1], RecoverStep);
      PathSnoc(ss, es, RecoverStep);
      ss, es := ss + [Apply(ss[n - 1], RecoverStep)], es + [RecoverStep];
    }
  }

  lemma CrashedHead(s: State)
    requires Inv(s) && s.phase == Recovering(s.disk, 0)
    ensures DiskOk(s.L, s.disk) && s.lh == DecodeHead(s.disk[s.L.start]) && s.locks == map[] && s.outstanding == 0
  {
    hide CacheOk; hide PinsOk; hide OpsOk; hide Atomic; hide LogicalOk; hide HeaderOk; hide SameHome; hide Recover;
  }

  lemma RecoveredShows(s: State, v: Code.Memory)
    requires Sound(s) && s.phase == Running && s.lh == [] && s.locks == map[] && s.outstanding == 0
    requires v == Code.Memory(s.disk, s.disk, [], {}, {}, {}, 0, false)
    ensures Shows(s, v)
  {
    NothingPinned(s);
    CleanNow(s);
    hide Inv; hide Ready; hide View;
  }

  lemma CleanNow(s: State)
    requires Inv(s) && s.phase == Running && s.lh == [] && s.locks == map[]
    ensures View(s.disk, s.cache) == s.disk
  {
    hide OpsOk; hide Atomic; hide PhaseOk; hide LogicalOk; hide HeaderOk; hide View;
    CleanView(s);
  }

  lemma RecoverDone(L: Layout, d: Disk)
    requires DiskOk(L, d)
    ensures RecoverDisk(L, d, |DecodeHead(d[L.start])| + 1) == Recover(L, d)
  {
    hide DiskOk; hide Recover;
  }

  lemma RecoveryLength(L: Layout, d: Disk, was: seq<Disk>, now: seq<Disk>)
    requires DiskOk(L, d) && Code.RecoveryWrites(L, d, was, now)
    ensures was <= now && |now| <= |was| + |DecodeHead(d[L.start])| + 1
  {
    hide DiskOk; hide RecoverDisk;
  }

  lemma RecoveryPath(ss: seq<State>, L: Layout, d: Disk, was: seq<Disk>, now: seq<Disk>)
    requires DiskOk(L, d) && Code.RecoveryWrites(L, d, was, now) && |ss| == |now| - |was| + 1
    requires |ss| <= |DecodeHead(d[L.start])| + 2
    requires forall k | 1 <= k < |ss| :: ss[k].disk == RecoverDisk(L, d, k)
    ensures Writes(ss, 1, was, now)
  {
    hide DiskOk; hide RecoverDisk;
  }

  // The code after a crash: on the same disk, with an empty cache, it makes the steps of recovery.
  method Boot(log: Code.Log, ghost s: State) returns (ok: bool, ghost ss: seq<State>, ghost es: seq<Event>)
    requires log.Idle() && log.Held() == {} && log.Pinned() == {} && log.outstanding == 0 && !log.committing
    requires Sound(s) && s.L == log.L && s.phase == Recovering(s.disk, 0)
    requires log.cache.disk == log.cache.logical == s.disk
    modifies log`n, log.block, log.cache, log.cache.head, log.cache.bufs
    ensures Path(ss, es) && ss[0] == s && forall k | 0 <= k < |es| :: es[k] == RecoverStep
    ensures Writes(ss, 1, old(log.cache.history), log.cache.history)
    ensures ok ==> log.Open() && Shows(ss[|ss| - 1], log.Value())
    ensures !ok ==> log.cache.Full()
  {
    hide Linked; hide Inv; hide Ready; hide Apply; hide Enabled; hide Code.Log.Idle; hide Code.Log.Open; hide View;
    hide RecoverDisk; hide DiskOk; hide Writes; hide Code.RecoveryWrites; hide Recover;
    CrashedHead(s);
    ghost var h0 := log.cache.history;
    ok := log.RecoverFromLog();
    RecoveryLength(s.L, s.disk, h0, log.cache.history);
    ss, es := RecoverRuns(s, |log.cache.history| - |h0|);
    RecoveryPath(ss, s.L, s.disk, h0, log.cache.history);
    if ok {
      NothingUnlogged(log);
      OpenClean(log);
      RecoverDone(s.L, s.disk);
      RecoveredShows(ss[|ss| - 1], log.Value());
    }
  }

  lemma NothingUnlogged(log: Code.Log)
    requires log.Valid() && log.Header() == []
    ensures log.Unlogged() == {}
  {
    log.NoneUnlogged();
  }

  // What every run gives of the code: a crash would recover the changes before the commit point, and what
  // the code reads is every change.
  lemma CodeIsCrashSafe(run: seq<State>, i: nat, v: Code.Memory)
    requires Run(run) && i < |run| && Shows(run[i], v)
    ensures var s := run[i];
      && DiskOk(s.L, v.disk) && |s.init| == s.L.total && UpdatesOk(s.L, s.updates) && s.committed <= |s.updates|
      && SameHome(s.L, Recover(s.L, v.disk), Replay(s.init, s.updates[..s.committed]))
      && SameHome(s.L, v.logical, Replay(s.init, s.updates))
      && (s.phase.Running? && v.outstanding == 0 ==> s.committed == |s.updates|)
  {
    hide Run; hide Recover; hide Replay; hide SameHome; hide Inv; hide Ready; hide DiskOk;
    RunKeeps(run, i);
    EveryRunIsCrashSafe(run, i);
    QuietMeansDurable(run, i);
    ReadsUpdates(run[i]);
  }
}
