/** The life of processes: the process table as a value, what each operation does to it, and runs of
    any number of processes. Everything done while ptable.lock is held is one step. */
module ProcSpec {

  const NPROC: nat := 64

  datatype PState = UNUSED | EMBRYO | SLEEPING | RUNNABLE | RUNNING | ZOMBIE

  // What a process sleeps on: nothing, a slot of the table (in wait and in recv), or some other address.
  datatype Chan = Nothing | OfProc(p: int) | Address(a: int)

  // parent is an index in the table, or -1 for a null pointer.
  datatype Proc = Proc(state: PState, pid: nat, parent: int, chan: Chan, killed: bool)

  // Has the slot a process that fork has finished with?
  predicate Forked(q: Proc) {
    q.state != UNUSED && q.state != EMBRYO
  }

  predicate Alive(q: Proc) {
    Forked(q) && q.state != ZOMBIE
  }

  predicate Zombie(q: Proc) { q.state == ZOMBIE }

  // ---------------------------------------------------------------- the operations on the table

  function Woken(q: Proc, c: Chan): Proc {
    if q.state == SLEEPING && q.chan == c then q.(state := RUNNABLE) else q
  }

  function Wakeup1(t: seq<Proc>, c: Chan): (r: seq<Proc>)
    ensures |r| == |t| && forall i | 0 <= i < |t| :: r[i] == Woken(t[i], c)
  {
    seq(|t|, i requires 0 <= i < |t| => Woken(t[i], c))
  }

  // The first slot at or after i that is free, or |t|.
  function FirstFree(t: seq<Proc>, i: nat): (r: nat)
    requires i <= |t|
    ensures i <= r <= |t| && (r < |t| ==> t[r].state == UNUSED) && forall k | i <= k < r :: t[k].state != UNUSED
    decreases |t| - i
  {
    if i == |t| || t[i].state == UNUSED then i else FirstFree(t, i + 1)
  }

  function FirstPid(t: seq<Proc>, pid: nat, i: nat): (r: nat)
    requires i <= |t|
    ensures i <= r <= |t| && (r < |t| ==> t[r].pid == pid) && forall k | i <= k < r :: t[k].pid != pid
    decreases |t| - i
  {
    if i == |t| || t[i].pid == pid then i else FirstPid(t, pid, i + 1)
  }

  predicate ZombieOf(q: Proc, p: int) { q.parent == p && q.state == ZOMBIE }

  // The first zombie child of p at or after i, or |t|.
  function FirstZombie(t: seq<Proc>, p: int, i: nat): (r: nat)
    requires i <= |t|
    ensures i <= r <= |t| && (r < |t| ==> ZombieOf(t[r], p)) && forall k | i <= k < r :: !ZombieOf(t[k], p)
    decreases |t| - i
  {
    if i == |t| || ZombieOf(t[i], p) then i else FirstZombie(t, p, i + 1)
  }

  predicate HasKids(t: seq<Proc>, p: int) {
    exists i | 0 <= i < |t| :: t[i].parent == p
  }

  predicate HasZombie(t: seq<Proc>, p: int) {
    exists i | 0 <= i < |t| :: ZombieOf(t[i], p)
  }

  // exit by p: its parent is woken, its children go to init, which is woken if one of them is a zombie.
  function Exited(t: seq<Proc>, p: nat, init: nat): (r: seq<Proc>)
    requires p < |t| && init < |t|
    ensures |r| == |t|
  {
    var t1 := Wakeup1(t, OfProc(t[p].parent));
    var t2 := if HasZombie(t, p) then Wakeup1(t1, OfProc(init)) else t1;
    seq(|t|, i requires 0 <= i < |t| =>
      var q := if t2[i].parent == p then t2[i].(parent := init) else t2[i];
      if i == p then q.(state := ZOMBIE) else q)
  }

  function Reaped(q: Proc): Proc {
    q.(pid := 0, parent := -1, killed := false, state := UNUSED)
  }

  // ---------------------------------------------------------------- runs

  // What a process is in the middle of.
  datatype Doing = Running | Forking(child: nat) | InWait | InRecv | InSleep

  datatype Sys = Sys(
    procs: seq<Proc>,
    init: nat,
    nextpid: nat,
    doing: seq<Doing>,
    exited: seq<nat>,   // the pids of the processes that have called exit, in order
    reaped: seq<nat>)   // the pids that wait has returned, in order

  datatype Event =
    | Alloc(p: nat)            // allocproc, in fork
    | Abandon(p: nat)          // fork fails for want of memory
    | Adopt(p: nat)            // np->parent = curproc
    | Birth(p: nat)            // np->state = RUNNABLE
    | Exit(p: nat)
    | Wait(p: nat)             // one scan of the table: reap, give up, or go to sleep
    | Sleep(p: nat, a: int)    // on anything but a slot of the table
    | Recv(p: nat)             // the sleep of recv, on the slot found by the caller's pid
    | Resume(p: nat)           // the end of either sleep
    | Wakeup(a: int)
    | Notify(q: nat)           // the wakeup of sending, on any slot
    | Kill(pid: nat)
    | Dispatch(p: nat)         // by the scheduler
    | Yield(p: nat)

  predicate At(s: Sys, p: nat, d: Doing) {
    p < |s.procs| == |s.doing| && s.procs[p].state == RUNNING && s.doing[p] == d
  }

  predicate InFork(s: Sys, p: nat) {
    p < |s.procs| == |s.doing| && s.procs[p].state == RUNNING && s.doing[p].Forking? && s.doing[p].child < |s.procs|
  }

  predicate Enabled(s: Sys, e: Event) {
    match e
    case Alloc(p) => At(s, p, Running)
    case Abandon(p) => InFork(s, p) && s.procs[s.doing[p].child].parent == -1
    case Adopt(p) => InFork(s, p) && s.procs[s.doing[p].child].parent == -1
    case Birth(p) => InFork(s, p) && s.procs[s.doing[p].child].parent == p
    case Exit(p) => At(s, p, Running) && p != s.init && s.init < |s.procs|
    case Wait(p) => At(s, p, Running) || At(s, p, InWait)
    case Sleep(p, _) => At(s, p, Running)
    case Recv(p) => At(s, p, Running)
    case Resume(p) => At(s, p, InSleep) || At(s, p, InRecv)
    case Wakeup(_) => true
    case Notify(_) => true
    case Kill(_) => true
    case Dispatch(p) => p < |s.procs| && s.procs[p].state == RUNNABLE
    case Yield(p) => p < |s.procs| && s.procs[p].state == RUNNING
  }

  function Put(s: Sys, p: nat, q: Proc): Sys
    requires p < |s.procs|
  {
    s.(procs := s.procs[p := q])
  }

  function Apply(s: Sys, e: Event): Sys
    requires Enabled(s, e)
  {
    match e
    case Alloc(p) =>
      var i := FirstFree(s.procs, 0);
      if i == |s.procs| then s
      else
        var t := Put(s, i, s.procs[i].(state := EMBRYO, pid := s.nextpid));
        t.(nextpid := s.nextpid + 1, doing := s.doing[p := Forking(i)])
    case Abandon(p) =>
      var i := s.doing[p].child;
      Put(s, i, s.procs[i].(state := UNUSED)).(doing := s.doing[p := Running])
    case Adopt(p) =>
      var i := s.doing[p].child;
      Put(s, i, s.procs[i].(parent := p))
    case Birth(p) =>
      var i := s.doing[p].child;
      Put(s, i, s.procs[i].(state := RUNNABLE)).(doing := s.doing[p := Running])
    case Exit(p) => s.(procs := Exited(s.procs, p, s.init), exited := s.exited + [s.procs[p].pid])
    case Wait(p) =>
      var t := s.procs[p := s.procs[p].(chan := Nothing)];
      var i := FirstZombie(t, p, 0);
      if i < |t| then s.(procs := t[i := Reaped(t[i])], doing := s.doing[p := Running], reaped := s.reaped + [t[i].pid])
      else if !HasKids(t, p) || t[p].killed then s.(procs := t, doing := s.doing[p := Running])
      else s.(procs := t[p := t[p].(state := SLEEPING, chan := OfProc(p))], doing := s.doing[p := InWait])
    case Sleep(p, a) =>
      Put(s, p, s.procs[p].(state := SLEEPING, chan := Address(a))).(doing := s.doing[p := InSleep])
    case Recv(p) =>
      var q := FirstPid(s.procs, s.procs[p].pid, 0);
      Put(s, p, s.procs[p].(state := SLEEPING, chan := OfProc(q))).(doing := s.doing[p := InRecv])
    case Resume(p) => Put(s, p, s.procs[p].(chan := Nothing)).(doing := s.doing[p := Running])
    case Wakeup(a) => s.(procs := Wakeup1(s.procs, Address(a)))
    case Notify(q) => s.(procs := Wakeup1(s.procs, OfProc(q)))
    case Kill(pid) =>
      var i := FirstPid(s.procs, pid, 0);
      if i == |s.procs| then s
      else
        var q := s.procs[i];
        Put(s, i, q.(killed := true, state := if q.state == SLEEPING then RUNNABLE else q.state))
    case Dispatch(p) => Put(s, p, s.procs[p].(state := RUNNING))
    case Yield(p) => Put(s, p, s.procs[p].(state := RUNNABLE))
  }

  // After userinit: one process, with pid 1.
  predicate Init(s: Sys) {
    && |s.procs| == |s.doing| == NPROC && s.init < NPROC && s.nextpid == 2
    && (forall i | 0 <= i < NPROC :: s.procs[i] ==
          if i == s.init then Proc(RUNNABLE, 1, -1, Nothing, false) else Proc(UNUSED, 0, -1, Nothing, false))
    && (forall i | 0 <= i < NPROC :: s.doing[i] == Running)
    && s.exited == [] && s.reaped == []
  }

  predicate Run(run: seq<Sys>, es: seq<Event>) {
    && |run| == |es| + 1 && Init(run[0])
    && forall k | 0 <= k < |es| :: Enabled(run[k], es[k]) && run[k + 1] == Apply(run[k], es[k])
  }

  // ---------------------------------------------------------------- what every run keeps

  predicate TableOk(s: Sys) {
    && |s.procs| == |s.doing| == NPROC && s.init < NPROC && s.nextpid >= 2
    && Alive(s.procs[s.init]) && s.procs[s.init].pid == 1 && s.procs[s.init].parent == -1
  }

  // A forked process other than init has a live parent with a smaller pid.
  predicate ParentOk(s: Sys, i: nat)
    requires TableOk(s) && i < NPROC
  {
    i != s.init && Forked(s.procs[i]) ==>
      var q := s.procs[i].parent;
      0 <= q < NPROC && Alive(s.procs[q]) && s.procs[q].pid < s.procs[i].pid
  }

  // A free slot has no parent; the parent of a slot being filled is in fork.
  predicate EmbryoOk(s: Sys, i: nat)
    requires TableOk(s) && i < NPROC
  {
    var q := s.procs[i].parent;
    && (s.procs[i].state == UNUSED ==> q == -1)
    && (s.procs[i].state == EMBRYO ==> q == -1 || (0 <= q < NPROC && s.doing[q] == Forking(i)))
  }

  // A process in fork is filling a slot with a greater pid, which is its own or nobody's child.
  predicate ForkerOk(s: Sys, p: nat)
    requires TableOk(s) && p < NPROC
  {
    s.doing[p].Forking? ==>
      var i := s.doing[p].child;
      && Alive(s.procs[p]) && s.procs[p].state != SLEEPING && i < NPROC && i != s.init && s.procs[i].state == EMBRYO
      && s.procs[p].pid < s.procs[i].pid && (s.procs[i].parent == -1 || s.procs[i].parent == p)
  }

  // No two processes fill the same slot.
  predicate ForkersOk(s: Sys, p: nat, q: nat)
    requires TableOk(s) && p < NPROC && q < NPROC
  {
    s.doing[p].Forking? && s.doing[q] == s.doing[p] ==> p == q
  }

  // Pids have been handed out, and 1 is init's alone.
  predicate PidOk(s: Sys, i: nat)
    requires TableOk(s) && i < NPROC
  {
    s.procs[i].pid < s.nextpid && (s.procs[i].state != UNUSED && i != s.init ==> s.procs[i].pid >= 2)
  }

  // The pid of a slot in use is in no other slot, not even a free one.
  predicate PidsOk(s: Sys, i: nat, j: nat)
    requires TableOk(s) && i < NPROC && j < NPROC
  {
    s.procs[i].state != UNUSED && s.procs[j].pid == s.procs[i].pid ==> i == j
  }

  // Blocked in wait. (A process in recv sleeps on its own slot as well.)
  predicate Blocked(s: Sys, p: nat)
    requires p < |s.procs| == |s.doing|
  {
    s.procs[p].state == SLEEPING && s.doing[p] == InWait
  }

  predicate SleepsOn(s: Sys, p: nat)
    requires p < |s.procs| == |s.doing|
  {
    match s.doing[p]
    case InWait => s.procs[p].chan == OfProc(p)
    case InRecv => s.procs[p].chan == OfProc(p)
    case InSleep => s.procs[p].chan.Address?
    case _ => false
  }

  // A process asleep is in wait, in recv or in another sleep; one blocked in wait has not been killed,
  // has no zombie to collect, and has some child to wait for.
  predicate WaiterOk(s: Sys, p: nat)
    requires TableOk(s) && p < NPROC
  {
    && (s.procs[p].state == SLEEPING ==> SleepsOn(s, p))
    && (Blocked(s, p) ==> !s.procs[p].killed && !HasZombie(s.procs, p) && HasKids(s.procs, p))
  }

  predicate Distinct(x: seq<nat>) {
    forall i, j | 0 <= i < j < |x| :: x[i] != x[j]
  }

  predicate ZombieWith(s: Sys, i: nat, pid: nat)
    requires TableOk(s) && i < NPROC
  {
    Zombie(s.procs[i]) && s.procs[i].pid == pid
  }

  // A slot in use has never been reaped, and is a zombie if and only if it has exited.
  predicate ExitOk(s: Sys, i: nat)
    requires TableOk(s) && i < NPROC
  {
    s.procs[i].pid !in s.reaped && (s.procs[i].pid in s.exited <==> Zombie(s.procs[i]))
  }

  // Every process that has exited is either still a zombie or has been reaped, once.
  predicate ReapedOnce(s: Sys)
    requires TableOk(s)
  {
    && Distinct(s.exited) && Distinct(s.reaped)
    && (forall pid | pid in s.exited :: 0 < pid < s.nextpid)
    && (forall pid | pid in s.reaped :: pid in s.exited)
    && (forall pid | pid in s.exited && pid !in s.reaped :: exists i :: 0 <= i < NPROC && ZombieWith(s, i, pid))
  }

  predicate SlotOk(s: Sys, i: nat)
    requires TableOk(s) && i < NPROC
  {
    ParentOk(s, i) && EmbryoOk(s, i) && ForkerOk(s, i) && PidOk(s, i) && ExitOk(s, i)
  }

  predicate PairOk(s: Sys, i: nat, j: nat)
    requires TableOk(s) && i < NPROC && j < NPROC
  {
    ForkersOk(s, i, j) && PidsOk(s, i, j)
  }

  predicate Inv(s: Sys) {
    && TableOk(s)
    && (forall i | 0 <= i < NPROC :: SlotOk(s, i))
    && (forall i, j | 0 <= i < NPROC && 0 <= j < NPROC :: PairOk(s, i, j))
    && (forall p | 0 <= p < NPROC :: WaiterOk(s, p))
    && ReapedOnce(s)
  }
}
