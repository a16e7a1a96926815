/** The process table in place: the scans that allocproc, exit, wait, wakeup1 and kill make over it
    while they hold ptable.lock. */
module Processes {
  import opened ProcSpec

  datatype WaitResult = Pid(pid: nat) | GaveUp | MustSleep

  // What exit by p makes of slot k: r.
  ghost predicate ExitRow(t: seq<Proc>, p: nat, init: nat, k: nat, r: Proc)
    requires p < |t| && k < |t|
  {
    var zombie := exists z | 0 <= z < |t| :: t[z].parent == p && t[z].state == ZOMBIE;
    var woken := t[k].chan == OfProc(t[p].parent) || (zombie && t[k].chan == OfProc(init));
    && r.pid == t[k].pid && r.chan == t[k].chan && r.killed == t[k].killed
    && r.parent == (if t[k].parent == p then init else t[k].parent)
    && r.state == if k == p then ZOMBIE else if t[k].state == SLEEPING && woken then RUNNABLE else t[k].state
  }

  // A round of wait by p with result r leaves u: the first zombie child's slot is cleared, or nothing has
  // changed.
  ghost predicate WaitGives(t: seq<Proc>, p: nat, r: WaitResult, u: seq<Proc>)
    requires p < |t|
  {
    match r
    case Pid(pid) =>
      exists i | 0 <= i < |t| ::
        && t[i].parent == p && t[i].state == ZOMBIE && t[i].pid == pid
        && (forall k | 0 <= k < i :: t[k].parent != p || t[k].state != ZOMBIE)
        && u == t[i := Proc(UNUSED, 0, -1, t[i].chan, false)]
    case GaveUp => u == t && ((forall k | 0 <= k < |t| :: t[k].parent != p) || (t[p].killed && NoneDead(t, p)))
    case MustSleep => u == t && !t[p].killed && NoneDead(t, p) && exists k | 0 <= k < |t| :: t[k].parent == p
  }

  ghost predicate NoneDead(t: seq<Proc>, p: nat) {
    forall k | 0 <= k < |t| :: t[k].parent != p || t[k].state != ZOMBIE
  }

  class Ptable {
    const proc: array<Proc>
    var nextpid: nat
    const initproc: nat

    ghost predicate Valid()
      reads this, proc
    {
      proc.Length == NPROC && initproc < NPROC
    }

    constructor (proc: array<Proc>, initproc: nat, nextpid: nat)
      requires proc.Length == NPROC && initproc < NPROC
      ensures Valid() && this.proc == proc && this.initproc == initproc && this.nextpid == nextpid
    {
      this.proc, this.initproc, this.nextpid := proc, initproc, nextpid;
    }

    // allocproc, up to the release of the lock; NPROC if there is no free slot.
    method AllocProc() returns (i: nat)
      requires Valid()
      modifies proc, this`nextpid
      ensures i == FirstFree(old(proc[..]), 0) && i <= 64 == proc.Length
      ensures (i < 64 ==> old(proc[..])[i].state == UNUSED) && forall k | 0 <= k < i :: old(proc[k]).state != UNUSED
      ensures i == NPROC ==> proc[..] == old(proc[..]) && nextpid == old(nextpid)
      ensures i < NPROC ==>
                nextpid == old(nextpid) + 1
                && proc[..] == old(proc[..])[i := old(proc[..])[i].(state := EMBRYO, pid := old(nextpid))]
    {
      i := 0;
      while i < NPROC
        invariant i <= NPROC && FirstFree(proc[..], i) == FirstFree(proc[..], 0)
      {
        if proc[i].state == UNUSED {
          proc[i] := proc[i].(state := EMBRYO, pid := nextpid);
          nextpid := nextpid + 1;
          return;
        }
        i := i + 1;
      }
    }

    method Wakeup1(c: Chan)
      requires Valid()
      modifies proc
      ensures proc[..] == ProcSpec.Wakeup1(old(proc[..]), c)
      ensures forall k | 0 <= k < proc.Length ::
                proc[k] == if old(proc[k]).state == SLEEPING && old(proc[k]).chan == c
                           then old(proc[k]).(state := RUNNABLE) else old(proc[k])
    {
      var i := 0;
      while i < NPROC
        invariant i <= NPROC
        invariant forall k | 0 <= k < NPROC :: proc[k] == if k < i then Woken(old(proc[k]), c) else old(proc[k])
      {
        if proc[i].state == SLEEPING && proc[i].chan == c {
          proc[i] := proc[i].(state := RUNNABLE);
        }
        i := i + 1;
      }
    }

    // exit, from acquire(&ptable.lock) to sched.
    method Exit(p: nat)
      requires Valid() && p < NPROC
      modifies proc
      ensures proc[..] == Exited(old(proc[..]), p, initproc)
      ensures proc.Length == 64 && forall k | 0 <= k < 64 :: ExitRow(old(proc[..]), p, initproc, k, proc[k])
    {
      ghost var t := proc[..];
      Wakeup1(OfProc(proc[p].parent));
      var i := 0;
      SomeNone(t, p);
      while i < NPROC
        invariant i <= NPROC
        invariant forall k | 0 <= k < NPROC :: proc[k] == HandedOver(t, p, initproc, i, k)
      {
        ghost var u := proc[..];
        SomeNext(t, p, i);
        WokenLife(t[i], OfProc(t[p].parent), OfProc(initproc));
        if proc[i].parent == p {
          proc[i] := proc[i].(parent := initproc);
          if proc[i].state == ZOMBIE {
            Wakeup1(OfProc(initproc));
          }
        }
        HandedOverNext(t, p, initproc, i, u, proc[..]);
        i := i + 1;
      }
      SomeAll(t, p);
      proc[p] := proc[p].(state := ZOMBIE);
      ExitedIs(t, p, initproc, proc[..]);
      ExitedRows(t, p, initproc);
    }

    // One round of wait's outer loop, up to the call of sleep.
    method WaitRound(p: nat) returns (r: WaitResult)
      requires Valid() && p < NPROC
      modifies proc
      ensures var t := old(proc[..]); var i := FirstZombie(t, p, 0);
        if i < NPROC then r == Pid(t[i].pid) && proc[..] == t[i := Reaped(t[i])]
        else proc[..] == t && r == if !HasKids(t, p) || t[p].killed then GaveUp else MustSleep
      ensures proc.Length == 64 && WaitGives(old(proc[..]), p, r, proc[..])
    {
      ghost var t := proc[..];
      var havekids := false;
      var i := 0;
      while i < NPROC
        invariant i <= NPROC && proc[..] == t && FirstZombie(t, p, i) == FirstZombie(t, p, 0)
        invariant havekids <==> exists k | 0 <= k < i :: t[k].parent == p
      {
        if proc[i].parent == p {
          havekids := true;
          if proc[i].state == ZOMBIE {
            r := Pid(proc[i].pid);
            proc[i] := Reaped(proc[i]);
            return;
          }
        }
        i := i + 1;
      }
      if !havekids || proc[p].killed {
        return GaveUp;
      }
      r := MustSleep;
    }

    method Kill(pid: nat) returns (ok: bool)
      requires Valid()
      modifies proc
      ensures var t := old(proc[..]); var i := FirstPid(t, pid, 0);
        if i == NPROC then !ok && proc[..] == t
        else
          var state := if t[i].state == SLEEPING then RUNNABLE else t[i].state;
          ok && proc[..] == t[i := t[i].(killed := true, state := state)]
      ensures proc.Length == 64 && (ok <==> exists i | 0 <= i < 64 :: old(proc[..])[i].pid == pid)
      ensures forall k | 0 <= k < 64 :: proc[k] != old(proc[..])[k] ==>
                old(proc[..])[k].pid == pid && forall j | 0 <= j < k :: old(proc[..])[j].pid != pid
    {
      ghost var t := proc[..];
      var i := 0;
      while i < NPROC
        invariant i <= NPROC && proc[..] == t && FirstPid(t, pid, i) == FirstPid(t, pid, 0)
      {
        if proc[i].pid == pid {
          proc[i] := proc[i].(killed := true);
          if proc[i].state == SLEEPING {
            proc[i] := proc[i].(state := RUNNABLE);
          }
          return true;
        }
        i := i + 1;
      }
      ok := false;
    }
  }

  // ---------------------------------------------------------------- handing children over to init

  // Is there a zombie child of p below n?
  predicate SomeZombie(t: seq<Proc>, p: int, n: nat)
    requires n <= |t|
  {
    exists k | 0 <= k < n :: ZombieOf(t[k], p)
  }

  // Slot k after exit's loop has looked at the slots below n.
  function HandedOver(t: seq<Proc>, p: nat, init: nat, n: nat, k: nat): Proc
    requires p < |t| && n <= |t| && k < |t|
  {
    var q := Woken(t[k], OfProc(t[p].parent));
    var r := if SomeZombie(t, p, n) then Woken(q, OfProc(init)) else q;
    if k < n && r.parent == p then r.(parent := init) else r
  }

  lemma SomeNone(t: seq<Proc>, p: int)
    ensures !SomeZombie(t, p, 0)
  {}

  lemma SomeNext(t: seq<Proc>, p: int, n: nat)
    requires n < |t|
    ensures SomeZombie(t, p, n + 1) == (SomeZombie(t, p, n) || ZombieOf(t[n], p))
  {
    if SomeZombie(t, p, n) {
      var k :| 0 <= k < n && ZombieOf(t[k], p);
      assert 0 <= k < n + 1 && ZombieOf(t[k], p);
    }
  }

  lemma SomeAll(t: seq<Proc>, p: int)
    ensures SomeZombie(t, p, |t|) == HasZombie(t, p)
  {}

  lemma WokenLife(q: Proc, c: Chan, d: Chan)
    ensures Woken(Woken(q, c), d).parent == Woken(q, c).parent == q.parent
    ensures (Woken(q, c).state == ZOMBIE <==> q.state == ZOMBIE)
        && (Woken(Woken(q, c), d).state == ZOMBIE <==> q.state == ZOMBIE)
    ensures Woken(Woken(q, d), d) == Woken(q, d)
  {}

  lemma HandedOverNext(t: seq<Proc>, p: nat, init: nat, i: nat, u: seq<Proc>, v: seq<Proc>)
    requires p < |t| == |u| == |v| && i < |t|
    requires forall k | 0 <= k < |t| :: u[k] == HandedOver(t, p, init, i, k)
    requires SomeZombie(t, p, i + 1) == (SomeZombie(t, p, i) || ZombieOf(t[i], p))
    requires var w := if u[i].parent == p then u[i := u[i].(parent := init)] else u;
      v == if u[i].parent == p && u[i].state == ZOMBIE then ProcSpec.Wakeup1(w, OfProc(init)) else w
    ensures forall k | 0 <= k < |t| :: v[k] == HandedOver(t, p, init, i + 1, k)
  {
    hide SomeZombie;
  }

  lemma ExitedRows(t: seq<Proc>, p: nat, init: nat)
    requires p < |t| && init < |t|
    ensures forall k | 0 <= k < |t| :: ExitRow(t, p, init, k, Exited(t, p, init)[k])
  {
    hide Exited; hide ExitRow;
    forall k | 0 <= k < |t|
      ensures ExitRow(t, p, init, k, Exited(t, p, init)[k])
    {
      ExitedRow(t, p, init, k);
    }
  }

  lemma ExitedRow(t: seq<Proc>, p: nat, init: nat, k: nat)
    requires p < |t| && init < |t| && k < |t|
    ensures ExitRow(t, p, init, k, Exited(t, p, init)[k])
  {
    assert HasZombie(t, p) <==> exists z | 0 <= z < |t| :: t[z].parent == p && t[z].state == ZOMBIE by {
      if z :| 0 <= z < |t| && t[z].parent == p && t[z].state == ZOMBIE {
        assert ZombieOf(t[z], p);
      }
    }
    hide HasZombie;
  }

  lemma ExitedIs(t: seq<Proc>, p: nat, init: nat, v: seq<Proc>)
    requires p < |t| == |v| && init < |t| && SomeZombie(t, p, |t|) == HasZombie(t, p)
    requires forall k | 0 <= k < |t| ::
      v[k] == if k == p then HandedOver(t, p, init, |t|, k).(state := ZOMBIE) else HandedOver(t, p, init, |t|, k)
    ensures v == Exited(t, p, init)
  {
    hide SomeZombie; hide HasZombie;
  }
}
