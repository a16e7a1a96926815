/** Every run of the process table keeps its invariant. */
module ProcSafety {
  import opened ProcSpec

  // ---------------------------------------------------------------- steps that only schedule

  datatype Life = Free | Being | Living | Dead

  function LifeOf(q: Proc): Life {
    match q.state
    case UNUSED => Free
    case EMBRYO => Being
    case ZOMBIE => Dead
    case _ => Living
  }

  predicate SameSlot(q: Proc, q': Proc) {
    q'.pid == q.pid && q'.parent == q.parent && LifeOf(q') == LifeOf(q)
  }

  // Nobody is born, adopted, dies or is reaped, and nobody enters or leaves fork.
  predicate SameLives(s: Sys, s': Sys) {
    && |s.procs| == |s'.procs| == |s.doing| == |s'.doing| == NPROC
    && s' == s.(procs := s'.procs, doing := s'.doing)
    && (forall i | 0 <= i < NPROC :: SameSlot(s.procs[i], s'.procs[i]))
    && (forall i | 0 <= i < NPROC ::
          s'.doing[i] == s.doing[i] || (!s.doing[i].Forking? && !s'.doing[i].Forking?))
    && (forall i | 0 <= i < NPROC && s.doing[i].Forking? :: s'.procs[i].state == SLEEPING ==>
         s.procs[i].state == SLEEPING)
  }

  // A process asleep afterwards was so before.
  predicate StillAsleep(s: Sys, s': Sys, p: nat)
    requires |s.procs| == |s'.procs| == |s.doing| == |s'.doing| && p < |s.procs|
  {
    s'.procs[p].state == SLEEPING ==> s'.procs[p] == s.procs[p] && s'.doing[p] == s.doing[p]
  }

  lemma SameKids(t: seq<Proc>, t': seq<Proc>, p: int)
    requires |t| == |t'|
    requires forall i | 0 <= i < |t| ::
               (t'[i].parent == p <==> t[i].parent == p) && (ZombieOf(t'[i], p) <==> ZombieOf(t[i], p))
    ensures HasKids(t', p) == HasKids(t, p) && HasZombie(t', p) == HasZombie(t, p)
  {
    if HasZombie(t, p) {
      var i :| 0 <= i < |t| && ZombieOf(t[i], p);
      assert ZombieOf(t'[i], p);
    }
    if HasZombie(t', p) {
      var i :| 0 <= i < |t| && ZombieOf(t'[i], p);
      assert ZombieOf(t[i], p);
    }
    if HasKids(t, p) {
      var i :| 0 <= i < |t| && t[i].parent == p;
      assert t'[i].parent == p;
    }
  }

  lemma SameLivesReaped(s: Sys, s': Sys)
    requires TableOk(s) && TableOk(s') && SameLives(s, s') && ReapedOnce(s)
    ensures ReapedOnce(s')
  {
    forall pid | pid in s'.exited && pid !in s'.reaped
      ensures exists i :: 0 <= i < NPROC && ZombieWith(s', i, pid)
    {
      var i :| 0 <= i < NPROC && ZombieWith(s, i, pid);
      assert SameSlot(s.procs[i], s'.procs[i]);
      assert ZombieWith(s', i, pid);
    }
  }

  lemma SameLivesSlots(s: Sys, s': Sys)
    requires Inv(s) && SameLives(s, s')
    ensures TableOk(s') && forall i | 0 <= i < NPROC :: SlotOk(s', i)
  {
    hide HasZombie; hide HasKids; hide ReapedOnce; hide WaiterOk; hide PairOk;
    assert SameSlot(s.procs[s.init], s'.procs[s.init]);
    forall i | 0 <= i < NPROC
      ensures SlotOk(s', i)
    {
      assert SlotOk(s, i) && SameSlot(s.procs[i], s'.procs[i]);
      var q := s.procs[i].parent;
      if 0 <= q < NPROC {
        assert SameSlot(s.procs[q], s'.procs[q]) && SlotOk(s, q);
      }
      if s.doing[i].Forking? {
        assert SameSlot(s.procs[s.doing[i].child], s'.procs[s.doing[i].child]);
      }
    }
  }

  lemma SameLivesPairs(s: Sys, s': Sys)
    requires Inv(s) && SameLives(s, s') && TableOk(s')
    ensures forall i, j | 0 <= i < NPROC && 0 <= j < NPROC :: PairOk(s', i, j)
  {
    hide HasZombie; hide HasKids; hide ReapedOnce; hide WaiterOk; hide SlotOk;
    forall i, j | 0 <= i < NPROC && 0 <= j < NPROC
      ensures PairOk(s', i, j)
    {
      assert PairOk(s, i, j) && SameSlot(s.procs[i], s'.procs[i]) && SameSlot(s.procs[j], s'.procs[j]);
    }
  }

  // One process, x, may have gone to sleep.
  lemma SameLivesKeep(s: Sys, s': Sys, x: nat)
    requires Inv(s) && SameLives(s, s')
    requires forall p | 0 <= p < NPROC && p != x :: StillAsleep(s, s', p)
    requires x < NPROC ==> StillAsleep(s, s', x) || (TableOk(s') ==> WaiterOk(s', x))
    ensures Inv(s')
  {
    SameLivesSlots(s, s');
    SameLivesPairs(s, s');
    SameLivesReaped(s, s');
    hide ReapedOnce; hide SlotOk; hide PairOk;
    forall p | 0 <= p < NPROC
      ensures WaiterOk(s', p)
    {
      assert WaiterOk(s, p);
      if StillAsleep(s, s', p) {
        assert forall i | 0 <= i < NPROC :: SameSlot(s.procs[i], s'.procs[i]);
        SameKids(s.procs, s'.procs, p);
      }
    }
  }

  lemma InvTable(s: Sys)
    requires Inv(s)
    ensures TableOk(s)
  {}

  lemma SleepKeeps(s: Sys, p: nat, a: int)
    requires Inv(s) && Enabled(s, Event.Sleep(p, a))
    ensures Inv(Apply(s, Event.Sleep(p, a)))
  {
    InvTable(s);
    hide Inv;
    SameLivesKeep(s, Apply(s, Event.Sleep(p, a)), p);
  }

  // The slot recv finds by its caller's pid is the caller's own.
  lemma RecvKeeps(s: Sys, p: nat)
    requires Inv(s) && Enabled(s, Recv(p))
    ensures FirstPid(s.procs, s.procs[p].pid, 0) == p
    ensures Inv(Apply(s, Recv(p)))
  {
    InvTable(s);
    var q := FirstPid(s.procs, s.procs[p].pid, 0);
    assert q <= p;
    assert PairOk(s, p, q);
    hide Inv;
    SameLivesKeep(s, Apply(s, Recv(p)), p);
  }

  lemma NotifyKeeps(s: Sys, q: nat)
    requires Inv(s)
    ensures Inv(Apply(s, Notify(q)))
  {
    InvTable(s);
    hide Inv;
    SameLivesKeep(s, Apply(s, Notify(q)), NPROC);
  }

  lemma ResumeKeeps(s: Sys, p: nat)
    requires Inv(s) && Enabled(s, Resume(p))
    ensures Inv(Apply(s, Resume(p)))
  {
    InvTable(s);
    hide Inv;
    SameLivesKeep(s, Apply(s, Resume(p)), NPROC);
  }

  lemma WakeupKeeps(s: Sys, a: int)
    requires Inv(s)
    ensures Inv(Apply(s, Event.Wakeup(a)))
  {
    InvTable(s);
    hide Inv;
    SameLivesKeep(s, Apply(s, Event.Wakeup(a)), NPROC);
  }

  lemma KillKeeps(s: Sys, pid: nat)
    requires Inv(s)
    ensures Inv(Apply(s, Kill(pid)))
  {
    InvTable(s);
    hide Inv;
    SameLivesKeep(s, Apply(s, Kill(pid)), NPROC);
  }

  lemma DispatchKeeps(s: Sys, p: nat)
    requires Inv(s) && Enabled(s, Dispatch(p))
    ensures Inv(Apply(s, Dispatch(p)))
  {
    InvTable(s);
    hide Inv;
    SameLivesKeep(s, Apply(s, Dispatch(p)), NPROC);
  }

  lemma YieldKeeps(s: Sys, p: nat)
    requires Inv(s) && Enabled(s, Yield(p))
    ensures Inv(Apply(s, Yield(p)))
  {
    InvTable(s);
    hide Inv;
    SameLivesKeep(s, Apply(s, Yield(p)), NPROC);
  }

  // ---------------------------------------------------------------- fork

  lemma AllocKeeps(s: Sys, p: nat)
    requires Inv(s) && Enabled(s, Alloc(p))
    ensures Inv(Apply(s, Alloc(p)))
  {
    var i := FirstFree(s.procs, 0);
    if i < |s.procs| {
      var s' := Apply(s, Alloc(p));
      assert SlotOk(s, i) && SlotOk(s, p) && SlotOk(s, s.init);
      AllocSlots(s, s', p, i);
      AllocPairs(s, s', p, i);
      AllocRest(s, s', p, i);
    }
  }

  // s' is s with slot i taken by p for a child.
  predicate Allocated(s: Sys, s': Sys, p: nat, i: nat) {
    && TableOk(s) && At(s, p, Running) && i < NPROC && s.procs[i].state == UNUSED && s.procs[i].parent == -1
    && s' == s.(procs := s.procs[i := s.procs[i].(state := EMBRYO, pid := s.nextpid)], nextpid := s.nextpid + 1,
                doing := s.doing[p := Forking(i)])
  }

  lemma AllocSlots(s: Sys, s': Sys, p: nat, i: nat)
    requires Inv(s) && Allocated(s, s', p, i)
    ensures TableOk(s') && forall k | 0 <= k < NPROC :: SlotOk(s', k)
  {
    hide HasZombie; hide HasKids; hide WaiterOk; hide PairOk; hide Distinct;
    assert SlotOk(s, p) && SlotOk(s, i) && SlotOk(s, s.init);
    assert s.nextpid !in s.exited && s.nextpid !in s.reaped by {
      assert forall pid | pid in s.reaped :: pid in s.exited;
    }
    hide ReapedOnce;
    forall k | 0 <= k < NPROC
      ensures SlotOk(s', k)
    {
      assert SlotOk(s, k);
    }
  }

  lemma AllocPairs(s: Sys, s': Sys, p: nat, i: nat)
    requires Inv(s) && Allocated(s, s', p, i) && TableOk(s')
    ensures forall j, k | 0 <= j < NPROC && 0 <= k < NPROC :: PairOk(s', j, k)
  {
    hide HasZombie; hide HasKids; hide WaiterOk; hide ReapedOnce;
    forall j, k | 0 <= j < NPROC && 0 <= k < NPROC
      ensures PairOk(s', j, k)
    {
      assert PairOk(s, j, k) && SlotOk(s, j) && SlotOk(s, k);
    }
  }

  lemma AllocRest(s: Sys, s': Sys, p: nat, i: nat)
    requires Inv(s) && Allocated(s, s', p, i) && TableOk(s')
    ensures (forall k | 0 <= k < NPROC :: WaiterOk(s', k)) && ReapedOnce(s')
  {
    hide SlotOk; hide PairOk; hide Distinct;
    forall k | 0 <= k < NPROC
      ensures WaiterOk(s', k)
    {
      assert WaiterOk(s, k);
      SameKids(s.procs, s'.procs, k);
    }
    hide HasZombie; hide HasKids; hide WaiterOk;
    ZombiesStay(s, s');
  }

  // Slots that were zombies still are, with their pids.
  lemma ZombiesStay(s: Sys, s': Sys)
    requires TableOk(s) && TableOk(s') && ReapedOnce(s)
    requires s'.exited == s.exited && s'.reaped == s.reaped && s.nextpid <= s'.nextpid
    requires forall i | 0 <= i < NPROC && Zombie(s.procs[i]) :: s'.procs[i] == s.procs[i]
    ensures ReapedOnce(s')
  {
    forall pid | pid in s'.exited && pid !in s'.reaped
      ensures exists i :: 0 <= i < NPROC && ZombieWith(s', i, pid)
    {
      var i :| 0 <= i < NPROC && ZombieWith(s, i, pid);
      assert ZombieWith(s', i, pid);
    }
  }

  // s' is s with p's child slot i changed: given up, adopted or born.
  predicate ChildSet(s: Sys, s': Sys, p: nat, i: nat, q: Proc, d: Doing) {
    && TableOk(s) && InFork(s, p) && i == s.doing[p].child && i < NPROC
    && s' == s.(procs := s.procs[i := q], doing := s.doing[p := d])
    && q.pid == s.procs[i].pid
    && ((q.state == UNUSED && q.parent == s.procs[i].parent == -1 && d == Running)
        || (q.state == EMBRYO && q.parent == p && d == Forking(i))
        || (q.state == RUNNABLE && q.parent == s.procs[i].parent == p && d == Running))
  }

  lemma ChildKeeps(s: Sys, s': Sys, p: nat, i: nat, q: Proc, d: Doing)
    requires Inv(s) && ChildSet(s, s', p, i, q, d)
    ensures Inv(s')
  {
    ChildSlots(s, s', p, i, q, d);
    ChildPairs(s, s', p, i, q, d);
    ChildRest(s, s', p, i, q, d);
    hide SlotOk; hide PairOk; hide WaiterOk; hide ReapedOnce;
  }

  lemma ChildSlots(s: Sys, s': Sys, p: nat, i: nat, q: Proc, d: Doing)
    requires Inv(s) && ChildSet(s, s', p, i, q, d)
    ensures TableOk(s') && forall k | 0 <= k < NPROC :: SlotOk(s', k)
  {
    hide HasZombie; hide HasKids; hide WaiterOk; hide ReapedOnce;
    assert SlotOk(s, p) && SlotOk(s, i) && SlotOk(s, s.init);
    forall k | 0 <= k < NPROC
      ensures SlotOk(s', k)
    {
      assert SlotOk(s, k) && PairOk(s, p, k) && PairOk(s, k, p);
      var u := s.procs[k].parent;
      if 0 <= u < NPROC {
        assert SlotOk(s, u) && PairOk(s, p, u);
      }
    }
  }

  lemma ChildPairs(s: Sys, s': Sys, p: nat, i: nat, q: Proc, d: Doing)
    requires Inv(s) && ChildSet(s, s', p, i, q, d) && TableOk(s')
    ensures forall j, k | 0 <= j < NPROC && 0 <= k < NPROC :: PairOk(s', j, k)
  {
    hide HasZombie; hide HasKids; hide WaiterOk; hide ReapedOnce;
    assert SlotOk(s, p);
    forall j, k | 0 <= j < NPROC && 0 <= k < NPROC
      ensures PairOk(s', j, k)
    {
      assert PairOk(s, j, k);
    }
  }

  lemma ChildRest(s: Sys, s': Sys, p: nat, i: nat, q: Proc, d: Doing)
    requires Inv(s) && ChildSet(s, s', p, i, q, d) && TableOk(s')
    ensures (forall k | 0 <= k < NPROC :: WaiterOk(s', k)) && ReapedOnce(s')
  {
    hide PairOk; hide Distinct;
    assert SlotOk(s, p) && SlotOk(s, i);
    forall k | 0 <= k < NPROC
      ensures WaiterOk(s', k)
    {
      assert WaiterOk(s, k);
      if k != p {
        SameKids(s.procs, s'.procs, k);
      }
    }
    hide HasZombie; hide HasKids; hide WaiterOk;
    ZombiesStay(s, s');
  }

  lemma ForkKeeps(s: Sys, e: Event)
    requires Inv(s) && Enabled(s, e) && (e.Abandon? || e.Adopt? || e.Birth?)
    ensures Inv(Apply(s, e))
  {
    InvTable(s);
    var p := e.p;
    ForkerSlot(s, p);
    hide Inv;
    var s' := Apply(s, e);
    var i := s.doing[p].child;
    assert s.doing[p := s.doing[p]] == s.doing;
    ChildKeeps(s, s', p, i, s'.procs[i], s'.doing[p]);
  }

  lemma ForkerSlot(s: Sys, p: nat)
    requires Inv(s) && InFork(s, p)
    ensures s.procs[s.doing[p].child].state == EMBRYO
  {
    assert SlotOk(s, p);
  }

  // ---------------------------------------------------------------- exit

  // What exit by p makes of slot i.
  lemma ExitedAt(t: seq<Proc>, p: nat, init: nat, i: nat)
    requires p < |t| && init < |t| && i < |t| && t[p].state == RUNNING
    ensures var q, r := t[i], Exited(t, p, init)[i];
      && r.pid == q.pid && r.killed == q.killed && r.chan == q.chan
      && r.parent == (if q.parent == p then init else q.parent)
      && (i == p ==> r.state == ZOMBIE)
      && (i != p && q.state != SLEEPING ==> r.state == q.state)
      && (i != p && q.state == SLEEPING ==>
            var woken := q.chan == OfProc(t[p].parent) || (HasZombie(t, p) && q.chan == OfProc(init));
            r.state == if woken then RUNNABLE else SLEEPING)
  {
    hide HasZombie;
  }

  predicate Exiting(s: Sys, s': Sys, p: nat) {
    && TableOk(s) && At(s, p, Running) && p != s.init
    && s' == s.(procs := Exited(s.procs, p, s.init), exited := s.exited + [s.procs[p].pid])
  }

  lemma ExitSlots(s: Sys, s': Sys, p: nat)
    requires Inv(s) && Exiting(s, s', p)
    ensures TableOk(s') && forall k | 0 <= k < NPROC :: SlotOk(s', k)
  {
    hide HasZombie; hide HasKids; hide WaiterOk; hide ReapedOnce; hide Exited;
    assert SlotOk(s, p) && SlotOk(s, s.init);
    ExitedAt(s.procs, p, s.init, s.init);
    forall k | 0 <= k < NPROC
      ensures SlotOk(s', k)
    {
      assert SlotOk(s, k) && PairOk(s, k, p) && PairOk(s, p, k);
      ExitedAt(s.procs, p, s.init, k);
      var u := s.procs[k].parent;
      if 0 <= u < NPROC {
        ExitedAt(s.procs, p, s.init, u);
      }
      if s.doing[k].Forking? {
        ExitedAt(s.procs, p, s.init, s.doing[k].child);
      }
    }
  }

  lemma ExitPairs(s: Sys, s': Sys, p: nat)
    requires Inv(s) && Exiting(s, s', p) && TableOk(s')
    ensures forall j, k | 0 <= j < NPROC && 0 <= k < NPROC :: PairOk(s', j, k)
  {
    hide HasZombie; hide HasKids; hide WaiterOk; hide ReapedOnce; hide SlotOk; hide Exited;
    forall j, k | 0 <= j < NPROC && 0 <= k < NPROC
      ensures PairOk(s', j, k)
    {
      assert PairOk(s, j, k);
      ExitedAt(s.procs, p, s.init, j);
      ExitedAt(s.procs, p, s.init, k);
    }
  }

  // The parent of a new zombie, and init if it inherits one, are no longer blocked.
  lemma ExitWaiter(s: Sys, s': Sys, p: nat, q: nat)
    requires Inv(s) && Exiting(s, s', p) && TableOk(s') && q < NPROC
    ensures WaiterOk(s', q)
  {
    hide ReapedOnce; hide PairOk; hide Exited; hide HasZombie; hide HasKids;
    assert WaiterOk(s, q) && SlotOk(s, p);
    ExitedAt(s.procs, p, s.init, q);
    if Blocked(s', q) {
      ExitKids(s.procs, s'.procs, p, s.init, q);
    }
  }

  lemma ExitKids(t: seq<Proc>, t': seq<Proc>, p: nat, init: nat, q: nat)
    requires p < |t| && init < |t| && q < |t| && t[p].state == RUNNING && t' == Exited(t, p, init) && q != p
    requires t[p].parent != q && t[p].parent != p && !HasZombie(t, q) && HasKids(t, q)
        && (q == init ==> !HasZombie(t, p))
    ensures !HasZombie(t', q) && HasKids(t', q)
  {
    hide Exited;
    forall i | 0 <= i < |t'|
      ensures !ZombieOf(t'[i], q)
    {
      ExitedAt(t, p, init, i);
      assert !ZombieOf(t[i], q);
      if q == init {
        assert !ZombieOf(t[i], p);
      }
    }
    var j :| 0 <= j < |t| && t[j].parent == q;
    ExitedAt(t, p, init, j);
    assert t'[j].parent == q;
  }

  lemma ExitReaped(s: Sys, s': Sys, p: nat)
    requires Inv(s) && Exiting(s, s', p) && TableOk(s')
    ensures ReapedOnce(s')
  {
    hide HasZombie; hide HasKids; hide WaiterOk; hide PairOk; hide Exited;
    assert SlotOk(s, p);
    ExitedAt(s.procs, p, s.init, p);
    assert ZombieWith(s', p, s.procs[p].pid);
    forall pid | pid in s'.exited && pid !in s'.reaped
      ensures exists i :: 0 <= i < NPROC && ZombieWith(s', i, pid)
    {
      if pid != s.procs[p].pid {
        var i :| 0 <= i < NPROC && ZombieWith(s, i, pid);
        ExitedAt(s.procs, p, s.init, i);
        assert ZombieWith(s', i, pid);
      }
    }
  }

  lemma ExitKeeps(s: Sys, p: nat)
    requires Inv(s) && Enabled(s, Exit(p))
    ensures Inv(Apply(s, Exit(p)))
  {
    var s' := Apply(s, Exit(p));
    assert Exiting(s, s', p);
    ExitSlots(s, s', p);
    ExitPairs(s, s', p);
    forall q | 0 <= q < NPROC
      ensures WaiterOk(s', q)
    {
      ExitWaiter(s, s', p, q);
    }
    ExitReaped(s, s', p);
    hide SlotOk; hide PairOk; hide WaiterOk; hide ReapedOnce; hide Exited;
  }

  // ---------------------------------------------------------------- wait

  predicate Reaping(s: Sys, s': Sys, p: nat, i: nat) {
    && TableOk(s) && p < NPROC && s.procs[p].state == RUNNING && !s.doing[p].Forking? && i < NPROC && i != p
    && ZombieOf(s.procs[i], p)
    && s' == s.(procs := s.procs[p := s.procs[p].(chan := Nothing)][i := Reaped(s.procs[i])],
         doing := s.doing[p := Running],
                reaped := s.reaped + [s.procs[i].pid])
  }

  lemma ReapSlots(s: Sys, s': Sys, p: nat, i: nat)
    requires Inv(s) && Reaping(s, s', p, i)
    ensures TableOk(s') && forall k | 0 <= k < NPROC :: SlotOk(s', k)
  {
    hide HasZombie; hide HasKids; hide WaiterOk;
    assert SlotOk(s, p) && SlotOk(s, i) && SlotOk(s, s.init);
    assert 0 !in s.exited && 0 !in s.reaped && 0 !in s'.reaped by {
      assert forall pid | pid in s.reaped :: pid in s.exited;
    }
    hide ReapedOnce;
    forall k | 0 <= k < NPROC
      ensures SlotOk(s', k)
    {
      assert SlotOk(s, k) && PairOk(s, k, i) && PairOk(s, i, k);
    }
  }

  lemma ReapPairs(s: Sys, s': Sys, p: nat, i: nat)
    requires Inv(s) && Reaping(s, s', p, i) && TableOk(s')
    ensures forall j, k | 0 <= j < NPROC && 0 <= k < NPROC :: PairOk(s', j, k)
  {
    hide HasZombie; hide HasKids; hide WaiterOk; hide ReapedOnce;
    forall j, k | 0 <= j < NPROC && 0 <= k < NPROC
      ensures PairOk(s', j, k)
    {
      assert PairOk(s, j, k) && SlotOk(s, j);
    }
  }

  lemma ReapRest(s: Sys, s': Sys, p: nat, i: nat)
    requires Inv(s) && Reaping(s, s', p, i) && TableOk(s')
    ensures (forall k | 0 <= k < NPROC :: WaiterOk(s', k)) && ReapedOnce(s')
  {
    hide PairOk;
    assert SlotOk(s, i);
    hide ReapedOnce;
    forall k | 0 <= k < NPROC
      ensures WaiterOk(s', k)
    {
      assert WaiterOk(s, k);
      if k != p {
        SameKids(s.procs, s'.procs, k);
      }
    }
    hide HasZombie; hide HasKids; hide WaiterOk;
    ReapedNext(s, s', p, i);
  }

  lemma ReapedNext(s: Sys, s': Sys, p: nat, i: nat)
    requires Inv(s) && Reaping(s, s', p, i) && TableOk(s') && ExitOk(s, i)
    ensures ReapedOnce(s')
  {
    hide HasZombie; hide HasKids; hide WaiterOk; hide PairOk; hide SlotOk;
    forall pid | pid in s'.exited && pid !in s'.reaped
      ensures exists k :: 0 <= k < NPROC && ZombieWith(s', k, pid)
    {
      assert pid !in s.reaped && pid != s.procs[i].pid by {
        assert s'.reaped[|s.reaped|] == s.procs[i].pid;
        assert forall x | x in s.reaped :: x in s'.reaped;
      }
      var k :| 0 <= k < NPROC && ZombieWith(s, k, pid);
      assert ZombieWith(s', k, pid);
    }
  }

  lemma NoZombie(t: seq<Proc>, p: int)
    requires FirstZombie(t, p, 0) == |t|
    ensures !HasZombie(t, p)
  {}

  lemma WaitKeeps(s: Sys, p: nat)
    requires Inv(s) && Enabled(s, Wait(p))
    ensures Inv(Apply(s, Wait(p)))
  {
    InvTable(s);
    hide Inv;
    var s' := Apply(s, Wait(p));
    var t := s.procs[p := s.procs[p].(chan := Nothing)];
    var i := FirstZombie(t, p, 0);
    if i < |t| {
      assert Reaping(s, s', p, i);
      ReapKeeps(s, s', p, i);
    } else if !HasKids(t, p) || t[p].killed {
      SameLivesKeep(s, s', NPROC);
    } else {
      NoZombie(t, p);
      SameKids(t, s'.procs, p);
      SameLivesKeep(s, s', p);
    }
  }

  lemma ReapKeeps(s: Sys, s': Sys, p: nat, i: nat)
    requires Inv(s) && Reaping(s, s', p, i)
    ensures Inv(s')
  {
    ReapSlots(s, s', p, i);
    ReapPairs(s, s', p, i);
    ReapRest(s, s', p, i);
    hide SlotOk; hide PairOk; hide WaiterOk; hide ReapedOnce; hide Reaping;
  }

  // ---------------------------------------------------------------- runs

  lemma StepKeeps(s: Sys, e: Event)
    requires Inv(s) && Enabled(s, e)
    ensures Inv(Apply(s, e))
  {
    hide Inv; hide Apply;
    match e
    case Alloc(p) => AllocKeeps(s, p);
    case Abandon(p) => ForkKeeps(s, e);
    case Adopt(p) => ForkKeeps(s, e);
    case Birth(p) => ForkKeeps(s, e);
    case Exit(p) => ExitKeeps(s, p);
    case Wait(p) => WaitKeeps(s, p);
    case Sleep(p, a) => SleepKeeps(s, p, a);
    case Recv(p) => RecvKeeps(s, p);
    case Resume(p) => ResumeKeeps(s, p);
    case Wakeup(a) => WakeupKeeps(s, a);
    case Notify(q) => NotifyKeeps(s, q);
    case Kill(pid) => KillKeeps(s, pid);
    case Dispatch(p) => DispatchKeeps(s, p);
    case Yield(p) => YieldKeeps(s, p);
  }

  lemma InitInv(s: Sys)
    requires Init(s)
    ensures Inv(s)
  {}

  lemma {:induction false} RunKeeps(run: seq<Sys>, es: seq<Event>, k: nat)
    requires Run(run, es) && k <= |es|
    ensures Inv(run[k])
    decreases k
  {
    hide Inv; hide Apply; hide Enabled;
    if k == 0 {
      InitInv(run[0]);
    } else {
      RunKeeps(run, es, k - 1);
      assert Enabled(run[k - 1], es[k - 1]) && run[k - 1 + 1] == Apply(run[k - 1], es[k - 1]);
      StepKeeps(run[k - 1], es[k - 1]);
    }
  }

  // In every reachable table, every forked process but init has a live parent with a smaller pid.
  lemma ParentsAlive(run: seq<Sys>, es: seq<Event>, k: nat, i: nat)
    requires Run(run, es) && k <= |es| && i < NPROC
    ensures |run[k].procs| == NPROC && run[k].init < NPROC
    ensures var s := run[k];
      i != s.init && Forked(s.procs[i]) ==>
        var q := s.procs[i].parent;
        0 <= q < NPROC && Alive(s.procs[q]) && s.procs[q].pid < s.procs[i].pid
  {
    RunKeeps(run, es, k);
    hide Run;
    assert SlotOk(run[k], i);
  }

  // n steps up from process i, by parent pointers.
  function Ancestor(t: seq<Proc>, i: int, n: nat): int
    decreases n
  {
    if n == 0 || !(0 <= i < |t|) then i else Ancestor(t, t[i].parent, n - 1)
  }

  // The chain of parents of every forked process ends at init.
  lemma {:induction false} ChainEndsAtInit(s: Sys, i: nat)
    requires Inv(s) && i < NPROC && Forked(s.procs[i])
    ensures exists n: nat :: Ancestor(s.procs, i, n) == s.init
    decreases s.procs[i].pid
  {
    if i == s.init {
      assert Ancestor(s.procs, i, 0) == s.init;
    } else {
      assert SlotOk(s, i);
      var q := s.procs[i].parent;
      ChainEndsAtInit(s, q);
      var n: nat :| Ancestor(s.procs, q, n) == s.init;
      assert Ancestor(s.procs, i, n + 1) == s.init;
    }
  }

  // Whenever ptable.lock is free, a process blocked in wait has not been killed, has no zombie child,
  // and has some child.
  lemma NoLostZombie(run: seq<Sys>, es: seq<Event>, k: nat, p: nat)
    requires Run(run, es) && k <= |es| && p < |run[k].procs| == |run[k].doing| && Blocked(run[k], p)
    ensures !run[k].procs[p].killed && !HasZombie(run[k].procs, p) && HasKids(run[k].procs, p)
  {
    RunKeeps(run, es, k);
    hide Run;
    assert WaiterOk(run[k], p);
  }

  // In every run, the pids that have exited are distinct, those reaped are distinct and among them, and
  // the others of them are those of the zombies in the table.
  lemma ZombiesReapedOnce(run: seq<Sys>, es: seq<Event>, k: nat, i: nat)
    requires Run(run, es) && k <= |es| && i < NPROC
    ensures var s := run[k];
      && |s.procs| == NPROC && Distinct(s.exited) && Distinct(s.reaped)
      && (forall pid | pid in s.reaped :: pid in s.exited)
      && s.procs[i].pid !in s.reaped && (s.procs[i].pid in s.exited <==> Zombie(s.procs[i]))
    ensures var s := run[k];
      forall pid | pid in s.exited && pid !in s.reaped ::
        exists j :: 0 <= j < NPROC && Zombie(s.procs[j]) && s.procs[j].pid == pid
  {
    RunKeeps(run, es, k);
    hide Run;
    var s := run[k];
    assert SlotOk(s, i);
    forall pid | pid in s.exited && pid !in s.reaped
      ensures exists j :: 0 <= j < NPROC && Zombie(s.procs[j]) && s.procs[j].pid == pid
    {
      var j :| 0 <= j < NPROC && ZombieWith(s, j, pid);
      assert Zombie(s.procs[j]);
    }
  }

  // Once wait has returned a pid, no slot has it, so to kill it does nothing.
  lemma ReapedIsGone(run: seq<Sys>, es: seq<Event>, k: nat, pid: nat)
    requires Run(run, es) && k <= |es| && pid in run[k].reaped
    ensures forall i | 0 <= i < |run[k].procs| :: run[k].procs[i].pid != pid
    ensures Apply(run[k], Kill(pid)) == run[k]
  {
    RunKeeps(run, es, k);
    hide Run;
    forall i | 0 <= i < |run[k].procs|
      ensures run[k].procs[i].pid != pid
    {
      assert SlotOk(run[k], i);
    }
  }

  // wait collects a zombie child if there is one, whichever other children there are; it gives up
  // exactly if there is none and the caller has no children or has been killed.
  lemma WaitCollects(s: Sys, p: nat)
    requires Inv(s) && Enabled(s, Wait(p))
    ensures var s' := Apply(s, Wait(p));
      && (HasZombie(s.procs, p) <==> |s'.reaped| == |s.reaped| + 1)
      && (|s'.reaped| == |s.reaped| + 1 ==>
            exists i :: 0 <= i < NPROC && ZombieOf(s.procs[i], p) && s'.reaped == s.reaped + [s.procs[i].pid]
              && s'.procs[i].state == UNUSED)
      && (|s'.reaped| == |s.reaped| ==>
            (s'.procs[p].state == RUNNING <==> !HasKids(s.procs, p) || s.procs[p].killed))
  {
    hide Inv;
    InvTable(s);
    var t := s.procs[p := s.procs[p].(chan := Nothing)];
    var i := FirstZombie(t, p, 0);
    SameKids(s.procs, t, p);
    if i < |t| {
      assert ZombieOf(s.procs[i], p);
    } else {
      NoZombie(t, p);
    }
  }

  // ---------------------------------------------------------------- a flag that outlives its process

  // A free slot whose killed flag is set: the next process there is born killed.
  predicate Marked(s: Sys, i: nat) {
    i < |s.procs| && s.procs[i].state == UNUSED && s.procs[i].killed
  }

  predicate NoneMarked(s: Sys) {
    forall i | 0 <= i < |s.procs| :: !Marked(s, i)
  }

  // allocproc does not clear the flag, so it must not be set in a free slot. Two steps set it: kill
  // with the pid of a free slot (0 will do), and a fork that fails after its child has been killed.
  lemma MarkedIff(s: Sys, e: Event)
    requires Inv(s) && Enabled(s, e) && NoneMarked(s)
    ensures var hit := FirstPid(s.procs, if e.Kill? then e.pid else 0, 0);
      NoneMarked(Apply(s, e)) <==>
        !(e.Kill? && hit < |s.procs| && s.procs[hit].state == UNUSED)
          && !(e.Abandon? && s.procs[s.doing[e.p].child].killed)
  {
    InvTable(s);
    hide Inv;
    var s' := Apply(s, e);
    if e.Kill? {
      var hit := FirstPid(s.procs, e.pid, 0);
      if hit < |s.procs| {
        assert Marked(s', hit) == (s.procs[hit].state == UNUSED);
        assert forall i | 0 <= i < |s.procs| && i != hit :: Marked(s', i) == Marked(s, i);
      }
    } else if e.Abandon? {
      var c := s.doing[e.p].child;
      assert Marked(s', c) == s.procs[c].killed;
      assert forall i | 0 <= i < |s.procs| && i != c :: Marked(s', i) == Marked(s, i);
    } else {
      OthersUnmarked(s, e);
    }
  }

  // The child that allocproc makes has the flag of the free slot it gets.
  lemma BornKilled(s: Sys, p: nat)
    requires Inv(s) && Enabled(s, Alloc(p)) && FirstFree(s.procs, 0) < |s.procs|
    ensures var i := FirstFree(s.procs, 0); var t := Apply(s, Alloc(p));
      && t.doing[p] == Forking(i) && t.procs[i].state == EMBRYO && t.procs[i].pid == s.nextpid
      && (t.procs[i].killed <==> Marked(s, i))
  {
    InvTable(s);
    hide Inv;
  }

  // No step but kill and the reaping of a zombie changes the flag of a slot, so the child is born with it.
  lemma FlagStays(s: Sys, e: Event, i: nat)
    requires TableOk(s) && Enabled(s, e) && i < NPROC
    ensures Apply(s, e).procs[i].killed != s.procs[i].killed ==>
              (e.Kill? && i == FirstPid(s.procs, e.pid, 0)) || (e.Wait? && s.procs[i].state == ZOMBIE)
  {
    hide HasZombie; hide HasKids;
    if e.Exit? {
      ExitedAt(s.procs, e.p, s.init, i);
    }
  }

  // A slot gets a pid in fork, the next one, and loses it when wait reaps it. So a slot whose fork failed
  // keeps its pid.
  lemma PidStays(s: Sys, e: Event, i: nat)
    requires TableOk(s) && Enabled(s, e) && i < NPROC
    ensures var q, r := s.procs[i], Apply(s, e).procs[i];
      r.pid == if e.Alloc? && r.state == EMBRYO && q.state == UNUSED then s.nextpid
        else if e.Wait? && q.state == ZOMBIE && r.state == UNUSED then 0 else q.pid
  {
    hide HasZombie; hide HasKids;
    if e.Exit? {
      ExitedAt(s.procs, e.p, s.init, i);
    }
  }

  // What a process sleeps on: only its own sleeping and waking up again change it.
  lemma ChanStays(s: Sys, e: Event, i: nat)
    requires Inv(s) && Enabled(s, e) && i < NPROC
    ensures |s.procs| == NPROC
    ensures var q, r := s.procs[i], Apply(s, e).procs[i];
      r.chan == if e == Wait(i) then if r.state == SLEEPING then OfProc(i) else Nothing
        else if e == Recv(i) then OfProc(i)
        else if e.Sleep? && e.p == i then Address(e.a)
        else if e == Resume(i) then Nothing else q.chan
  {
    InvTable(s);
    if e.Recv? {
      RecvKeeps(s, e.p);
    }
    hide Inv; hide HasZombie; hide HasKids; hide FirstPid; hide FirstFree;
    if e.Exit? {
      ExitedAt(s.procs, e.p, s.init, i);
    }
  }

  // A slot's parent is set in fork and in the exit of the parent, and cleared when wait reaps it.
  lemma ParentStays(s: Sys, e: Event, i: nat)
    requires TableOk(s) && Enabled(s, e) && i < NPROC
    ensures var q, r := s.procs[i], Apply(s, e).procs[i];
      r.parent == if e.Adopt? && s.doing[e.p] == Forking(i) then e.p
        else if e.Exit? && q.parent == e.p then s.init
        else if e.Wait? && q.state == ZOMBIE && r.state == UNUSED then -1 else q.parent
  {
    hide HasZombie; hide HasKids;
    if e.Exit? {
      ExitedAt(s.procs, e.p, s.init, i);
    }
  }

  // Which steps take a slot from one state to another.
  predicate Turns(s: Sys, e: Event, i: nat, q: Proc, r: Proc) {
    match (q.state, r.state)
    case (UNUSED, EMBRYO) => e.Alloc? && forall k | 0 <= k < i < |s.procs| :: s.procs[k].state != UNUSED
    case (EMBRYO, UNUSED) => e.Abandon? && e.p < |s.doing| && s.doing[e.p] == Forking(i)
    case (EMBRYO, RUNNABLE) => e.Birth? && e.p < |s.doing| && s.doing[e.p] == Forking(i)
    case (RUNNABLE, RUNNING) => e == Dispatch(i)
    case (RUNNING, RUNNABLE) => e == Yield(i)
    case (RUNNING, SLEEPING) =>
      (e == Wait(i) && r.chan == OfProc(i)) || (e.Sleep? && e.p == i && r.chan == Address(e.a)) || e == Recv(i)
    case (RUNNING, ZOMBIE) => e == Exit(i)
    case (ZOMBIE, UNUSED) => q.parent >= 0 && e == Wait(q.parent)
    case (SLEEPING, RUNNABLE) =>
      || (e.Wakeup? && q.chan == Address(e.a))
      || (e.Notify? && q.chan == OfProc(e.q))
      || (e.Kill? && q.pid == e.pid)
      || (e.Exit? && e.p < |s.procs| && q.chan == OfProc(s.procs[e.p].parent))
      || (e.Exit? && q.chan == OfProc(s.init) && HasZombie(s.procs, e.p))
    case _ => false
  }

  lemma StateTurns(s: Sys, e: Event, i: nat)
    requires Inv(s) && Enabled(s, e) && i < NPROC
    ensures |s.procs| == NPROC
    ensures var q, r := s.procs[i], Apply(s, e).procs[i]; q.state == r.state || Turns(s, e, i, q, r)
  {
    InvTable(s);
    if e.Abandon? || e.Adopt? || e.Birth? {
      ForkerSlot(s, e.p);
    }
    hide Inv; hide HasZombie; hide HasKids;
    if e.Exit? {
      ExitedAt(s.procs, e.p, s.init, i);
    }
  }

  lemma OthersUnmarked(s: Sys, e: Event)
    requires TableOk(s) && Enabled(s, e) && NoneMarked(s) && !e.Kill? && !e.Abandon?
    ensures NoneMarked(Apply(s, e))
  {
    hide HasZombie; hide HasKids;
    forall i | 0 <= i < |s.procs|
      ensures !Marked(Apply(s, e), i)
    {
      assert !Marked(s, i);
      if e.Exit? {
        ExitedAt(s.procs, e.p, s.init, i);
      }
    }
  }

  // kill(0) reports success on a fresh table and marks a free slot.
  lemma KillZero(s: Sys)
    requires Init(s) && s.init == 0
    ensures Marked(Apply(s, Kill(0)), 1)
  {
    var i := FirstPid(s.procs, 0, 0);
    assert s.procs[1].pid == 0;
  }
}
