/** A sleep-lock and the sleep/wakeup protocol under it, one lock operation or assignment a step, for
    any number of processes and any interleaving. */
module SleepLock {

  // Where a process stands in acquiresleep, sleep or releasesleep.
  datatype Pc =
    | Idle
    // acquiresleep
    | WantLk         // acquire(&lk->lk)
    | Test           // while (lk->locked)
    | Taken          // locked is set; release(&lk->lk)
    | Held           // between acquiresleep and releasesleep
    // sleep
    | WantTable      // acquire(&ptable.lock)
    | DropLk         // release(lk)
    | GoSleep        // p->state = SLEEPING; sched()
    | Sleeping
    | Runnable       // woken, not yet running
    | Resumed        // back from sched; release(&ptable.lock)
    | WantLkAgain    // acquire(lk)
    // releasesleep
    | RelWant        // acquire(&lk->lk)
    | RelHave        // locked = 0
    | WakeWant       // wakeup: acquire(&ptable.lock)
    | Waking         // wakeup1
    | Woke           // release(&ptable.lock)
    | RelDrop        // release(&lk->lk)

  // Who holds a spinlock: nobody, a process here, or (for ptable.lock) the scheduler or anybody else.
  datatype Owner = Nobody | Proc(p: nat) | Outside

  // Process p has the pid p + 1, and 0 in pid stands for none.
  datatype Sys = Sys(pcs: seq<Pc>, lk: Owner, table: Owner, locked: bool, pid: nat)

  datatype Event =
    | Step(p: nat)      // process p takes its next step
    | Dispatch(p: nat)  // the scheduler, which has ptable.lock, switches to p
    | Kill(p: nat)      // makes a sleeping process runnable
    | OutsideTakes
    | OutsideDrops

  predicate HasLk(c: Pc) {
    c == Test || c == Taken || c == WantTable || c == DropLk || c == RelHave || c == WakeWant || c == Waking
      || c == Woke || c == RelDrop
  }

  predicate HasTable(c: Pc) {
    c == DropLk || c == GoSleep || c == Resumed || c == Waking || c == Woke
  }

  // Is the sleep-lock this process's?
  predicate Holds(c: Pc) {
    c == Taken || c == Held || c == RelWant || c == RelHave
  }

  predicate Enabled(s: Sys, e: Event) {
    match e
    case Step(p) =>
      p < |s.pcs| &&
      (match s.pcs[p]
       case WantLk => s.lk == Nobody
       case WantLkAgain => s.lk == Nobody
       case RelWant => s.lk == Nobody
       case WantTable => s.table == Nobody
       case WakeWant => s.table == Nobody
       case Sleeping => false
       case Runnable => false
       case _ => true)
    case Dispatch(p) => p < |s.pcs| && s.pcs[p] == Runnable && s.table == Outside
    case Kill(p) => p < |s.pcs| && s.pcs[p] == Sleeping && s.table == Outside
    case OutsideTakes => s.table == Nobody
    case OutsideDrops => s.table == Outside
  }

  function Woken(c: Pc): Pc {
    if c == Sleeping then Runnable else c
  }

  function Apply(s: Sys, e: Event): (r: Sys)
    requires Enabled(s, e)
    ensures |r.pcs| == |s.pcs|
  {
    match e
    case Step(p) => StepOf(s, p)
    case Dispatch(p) => s.(pcs := s.pcs[p := Resumed], table := Proc(p))
    case Kill(p) => s.(pcs := s.pcs[p := Runnable])
    case OutsideTakes => s.(table := Outside)
    case OutsideDrops => s.(table := Nobody)
  }

  function StepOf(s: Sys, p: nat): (r: Sys)
    requires Enabled(s, Step(p))
    ensures |r.pcs| == |s.pcs|
  {
    match s.pcs[p]
    case Idle => s.(pcs := s.pcs[p := WantLk])
    case WantLk => s.(pcs := s.pcs[p := Test], lk := Proc(p))
    case Test =>
      if s.locked then s.(pcs := s.pcs[p := WantTable]) else s.(pcs := s.pcs[p := Taken], locked := true, pid := p + 1)
    case Taken => s.(pcs := s.pcs[p := Held], lk := Nobody)
    case Held => s.(pcs := s.pcs[p := RelWant])
    case WantTable => s.(pcs := s.pcs[p := DropLk], table := Proc(p))
    case DropLk => s.(pcs := s.pcs[p := GoSleep], lk := Nobody)
    case GoSleep => s.(pcs := s.pcs[p := Sleeping], table := Outside)
    case Sleeping => s
    case Runnable => s
    case Resumed => s.(pcs := s.pcs[p := WantLkAgain], table := Nobody)
    case WantLkAgain => s.(pcs := s.pcs[p := Test], lk := Proc(p))
    case RelWant => s.(pcs := s.pcs[p := RelHave], lk := Proc(p))
    case RelHave => s.(pcs := s.pcs[p := WakeWant], locked := false, pid := 0)
    case WakeWant => s.(pcs := s.pcs[p := Waking], table := Proc(p))
    case Waking =>
      var woken := seq(|s.pcs|, i requires 0 <= i < |s.pcs| => Woken(s.pcs[i]));
      s.(pcs := woken[p := Woke])
    case Woke => s.(pcs := s.pcs[p := RelDrop], table := Nobody)
    case RelDrop => s.(pcs := s.pcs[p := Idle], lk := Nobody)
  }

  predicate Init(s: Sys) {
    s.lk == Nobody && s.table == Nobody && !s.locked && s.pid == 0 && forall p | 0 <= p < |s.pcs| :: s.pcs[p] == Idle
  }

  predicate Run(run: seq<Sys>, es: seq<Event>) {
    && |run| == |es| + 1 && Init(run[0])
    && forall k | 0 <= k < |es| :: Enabled(run[k], es[k]) && run[k + 1] == Apply(run[k], es[k])
  }

  // ---------------------------------------------------------------- what every run keeps

  // The spinlocks and the sleep-lock are held by exactly the processes whose place says so.
  predicate LocksOk(s: Sys, p: nat)
    requires p < |s.pcs|
  {
    && (HasLk(s.pcs[p]) <==> s.lk == Proc(p))
    && (HasTable(s.pcs[p]) <==> s.table == Proc(p))
    && (Holds(s.pcs[p]) <==> s.locked && s.pid == p + 1)
  }

  // Is the process that has lk about to wake everybody?
  predicate WakerComing(s: Sys) {
    s.lk.Proc? && s.lk.p < |s.pcs| && (s.pcs[s.lk.p] == WakeWant || s.pcs[s.lk.p] == Waking)
  }

  // A process going to sleep or asleep will be woken: the lock is taken, or its waker is on the way.
  predicate SleeperOk(s: Sys, p: nat)
    requires p < |s.pcs|
  {
    && (s.pcs[p] == WantTable || s.pcs[p] == DropLk ==> s.locked)
    && (s.pcs[p] == GoSleep || s.pcs[p] == Sleeping ==> s.locked || WakerComing(s))
  }

  predicate Inv(s: Sys) {
    && s.pid <= |s.pcs| && (s.locked <==> s.pid > 0) && (s.lk.Proc? ==> s.lk.p < |s.pcs|) && s.lk != Outside
    && (s.table.Proc? ==> s.table.p < |s.pcs|)
    && (forall p | 0 <= p < |s.pcs| :: LocksOk(s, p))
    && (forall p | 0 <= p < |s.pcs| :: SleeperOk(s, p))
  }

  lemma StepKeepsOwnLocks(s: Sys, p: nat)
    requires Enabled(s, Step(p)) && LocksOk(s, p)
    ensures LocksOk(StepOf(s, p), p)
  {}

  lemma StepKeepsOtherLocks(s: Sys, p: nat, q: nat)
    requires Enabled(s, Step(p)) && q < |s.pcs| && q != p && LocksOk(s, p) && LocksOk(s, q)
    ensures LocksOk(StepOf(s, p), q)
  {}

  lemma StepKeepsSleepers(s: Sys, p: nat, q: nat)
    requires Enabled(s, Step(p)) && q < |s.pcs| && LocksOk(s, p) && LocksOk(s, q) && SleeperOk(s, q)
    requires s.lk.Proc? ==> s.lk.p < |s.pcs|
    ensures SleeperOk(StepOf(s, p), q)
  {}

  lemma StepKeepsOwners(s: Sys, p: nat)
    requires Inv(s) && Enabled(s, Step(p))
    ensures var r := StepOf(s, p);
      && r.pid <= |r.pcs| && (r.locked <==> r.pid > 0) && (r.lk.Proc? ==> r.lk.p < |r.pcs|) && r.lk != Outside
      && (r.table.Proc? ==> r.table.p < |r.pcs|)
  {
    hide LocksOk; hide SleeperOk;
  }

  lemma StepOfKeeps(s: Sys, p: nat)
    requires Inv(s) && Enabled(s, Step(p))
    ensures Inv(StepOf(s, p))
  {
    hide LocksOk; hide SleeperOk; hide StepOf;
    StepKeepsOwners(s, p);
    forall q | 0 <= q < |s.pcs|
      ensures LocksOk(StepOf(s, p), q) && SleeperOk(StepOf(s, p), q)
    {
      assert LocksOk(s, p) && LocksOk(s, q) && SleeperOk(s, q);
      if q == p {
        StepKeepsOwnLocks(s, p);
      } else {
        StepKeepsOtherLocks(s, p, q);
      }
      StepKeepsSleepers(s, p, q);
    }
  }

  lemma OtherKeeps(s: Sys, e: Event)
    requires Inv(s) && Enabled(s, e) && !e.Step?
    ensures Inv(Apply(s, e))
  {
    var s' := Apply(s, e);
    if s.lk.Proc? {
      assert LocksOk(s, s.lk.p);
    }
    forall q | 0 <= q < |s.pcs|
      ensures LocksOk(s', q) && SleeperOk(s', q)
    {
      assert LocksOk(s, q) && SleeperOk(s, q);
    }
  }

  lemma {:induction false} RunKeeps(run: seq<Sys>, es: seq<Event>, k: nat)
    requires Run(run, es) && k <= |es|
    ensures Inv(run[k])
    decreases k
  {
    if k > 0 {
      hide Inv; hide StepOf; hide Enabled;
      RunKeeps(run, es, k - 1);
      assert run[k - 1 + 1] == Apply(run[k - 1], es[k - 1]);
      if es[k - 1].Step? {
        StepOfKeeps(run[k - 1], es[k - 1].p);
      } else {
        OtherKeeps(run[k - 1], es[k - 1]);
      }
    }
  }

  // holdingsleep: the lock is taken and its pid is the caller's.
  predicate Holding(s: Sys, p: nat) {
    s.locked && s.pid == p + 1
  }

  // It tells whether the caller is between acquiresleep and releasesleep, and a lock that is free names nobody.
  lemma HoldingIff(run: seq<Sys>, es: seq<Event>, k: nat, p: nat)
    requires Run(run, es) && k <= |es| && p < |run[k].pcs|
    ensures Holding(run[k], p) <==> run[k].pcs[p] in {Taken, Held, RelWant, RelHave}
    ensures run[k].locked <==> run[k].pid != 0
  {
    RunKeeps(run, es, k);
    hide Run;
    assert LocksOk(run[k], p);
  }

  // At most one process holds the sleep-lock.
  lemma MutualExclusion(run: seq<Sys>, es: seq<Event>, k: nat, p: nat, q: nat)
    requires Run(run, es) && k <= |es| && p < |run[k].pcs| && q < |run[k].pcs|
    requires Holds(run[k].pcs[p]) && Holds(run[k].pcs[q])
    ensures p == q && run[k].locked && run[k].pid == p + 1
  {
    RunKeeps(run, es, k);
    hide Run;
    assert LocksOk(run[k], p) && LocksOk(run[k], q);
  }

  // No lost wakeup: whenever the inner spinlock is free, a process asleep on the lock means that
  // another one holds it.
  lemma NoLostWakeup(run: seq<Sys>, es: seq<Event>, k: nat, p: nat)
    requires Run(run, es) && k <= |es| && p < |run[k].pcs| && run[k].lk == Nobody && run[k].pcs[p] == Sleeping
    ensures run[k].locked && 1 <= run[k].pid <= |run[k].pcs| && Holds(run[k].pcs[run[k].pid - 1])
  {
    RunKeeps(run, es, k);
    hide Run;
    assert SleeperOk(run[k], p);
    assert LocksOk(run[k], run[k].pid - 1);
  }

  // Once releasesleep has woken the others, none of them is asleep that was so when it did.
  lemma ReleaseWakesAll(s: Sys, p: nat, q: nat)
    requires Inv(s) && Enabled(s, Step(p)) && s.pcs[p] == Waking && q < |s.pcs|
    ensures StepOf(s, p).pcs[q] != Sleeping
    ensures StepOf(s, p).pcs[q] != GoSleep
  {
    assert LocksOk(s, p) && LocksOk(s, q);
  }
}
