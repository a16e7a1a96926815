/** The scheduler's loop in place: it keeps its position in each container, marks the slots it has
    selected while the log is on, and switches the log off. Of the processes it runs, only the system call
    that switches the log on is modelled. */
module Schedulers {
  import opened SchedSpec

  class Scheduler {
    var cs: seq<Container>
    var count: nat  // containerNum
    var log: bool

    ghost predicate Valid()
      reads this
    {
      |cs| == NCONT && SysOk(Value())
    }

    ghost function Value(): Sys
      reads this
    {
      Sys(cs, count, log)
    }

    constructor (cs: seq<Container>, count: nat, log: bool)
      requires |cs| == NCONT && SysOk(Sys(cs, count, log))
      ensures Valid() && Value() == Sys(cs, count, log) && |cs| == 10
    {
      this.cs, this.count, this.log := cs, count, log;
    }

    // The selection; SLOTS if the container is empty.
    method Choose(c: nat) returns (slot: nat)
      requires Valid() && c < count
      modifies this`cs
      ensures Valid() && slot == Selected(old(cs)[c]) && cs == old(cs)[c := Select(old(cs)[c], log)]
      ensures Chosen(old(cs)[c], log, slot, cs[c])
    {
      hide Scan; hide Chosen;
      SelectChooses(cs[c], log);
      var process := cs[c].process;
      var itr: nat, num := cs[c].cur, 0;
      while num < SLOTS
        invariant cs == old(cs) && num <= SLOTS && itr <= SLOTS
            && Scan(process, itr, num) == Scan(process, cs[c].cur, 0)
        decreases SLOTS - num
      {
        ScanTurn(process, itr, num);
        itr := itr % SLOTS;
        if process[itr] != 0 {
          cs := cs[c := cs[c].(cur := itr + 1)];
          if log {
            cs := cs[c := cs[c].(seen := cs[c].seen[itr := true])];
          }
          return itr;
        }
        num := num + 1;
        itr := itr + 1;
      }
      NoneLeft(process, itr, num);
      assert cs[c := cs[c]] == cs;
      slot := SLOTS;
    }

    // The check after a visit: has the log seen every process of the container?
    method Check(c: nat)
      requires Valid() && c < count && log
      modifies this`cs
      ensures Valid()
      ensures cs == old(cs)[c := if AllSeen(old(cs)[c]) then old(cs)[c].(done := true) else old(cs)[c]]
      ensures Checked(old(cs)[c], cs[c])
    {
      var fault, itr := false, 0;
      while itr < SLOTS
        invariant itr <= SLOTS && cs == old(cs) && !fault
        invariant forall i | 0 <= i < itr && cs[c].process[i] != 0 :: cs[c].seen[i]
      {
        if cs[c].process[itr] != 0 && !cs[c].seen[itr] {
          fault := true;
          break;
        }
        itr := itr + 1;
      }
      assert fault <==> !AllSeen(cs[c]);
      assert cs[c := cs[c]] == cs;
      if !fault {
        cs := cs[c := cs[c].(done := true)];
      }
    }

    method Clear()
      requires Valid()
      modifies this`cs
      ensures Valid() && cs == Cleared(old(cs), count)
    {
      ghost var cs1 := cs;
      var c := 1;
      while c < count
        invariant 1 <= c && (c <= count || c == 1) && |cs| == |cs1|
        invariant forall i | 0 <= i < |cs| ::
                    cs[i] == if 1 <= i < c then cs1[i].(done := false, seen := seq(|cs1[i].seen|, _ => false))
                             else cs1[i]
      {
        cs := cs[c := cs[c].(done := false, seen := seq(SLOTS, _ => false))];
        assert cs[c].seen == seq(|cs1[c].seen|, _ => false);
        c := c + 1;
      }
    }

    // A visit of each container. A process that runs in the visit of container on switches the log on.
    method VisitAll(on: nat)
      requires Valid()
      modifies this`cs, this`log
      ensures Valid() && cs == Visited(old(cs), count, old(log), on) && log == (old(log) || on < count)
    {
      hide Visit; hide Select; hide Selected; hide AllSeen; hide Chosen; hide Checked;
      ghost var cs0 := cs;
      var c := 0;
      while c < count
        invariant c <= count && Valid() && log == (old(log) || on < c) && cs == Visited(cs0, c, old(log), on)
      {
        VisitParts(cs[c], log, log || on == c);
        VisitedNext(cs0, c, old(log), on);
        var _ := Choose(c);
        if c == on {
          log := true;
        }
        if log {
          Check(c);
        }
        c := c + 1;
      }
    }

    // The end of the log, if all containers but 0 are done.
    method EndSession()
      requires Valid() && log
      modifies this`cs, this`log
      ensures Valid() && log == !AllDone(old(cs), count)
      ensures cs == if AllDone(old(cs), count) then Cleared(old(cs), count) else old(cs)
    {
      var fault, c := false, 1;
      while c < count
        invariant 1 <= c && (c <= count || c == 1) && !fault
        invariant forall i | 1 <= i < c :: cs[i].done
      {
        if !cs[c].done {
          fault := true;
          break;
        }
        c := c + 1;
      }
      assert fault <==> !AllDone(cs, count);
      if !fault {
        log := false;
        Clear();
      }
    }

    // One round; no process switches the log on in it if on is not below count.
    method OneRound(on: nat)
      returns (ghost slots: seq<nat>, ghost mids: seq<Container>, ghost ends: seq<Container>)
      requires Valid()
      modifies this`cs, this`log
      ensures Valid() && Value() == Round(old(Value()), on)
      ensures RoundIs(old(Value()), on, slots, mids, ends, Value())
    {
      hide RoundIs; hide Visited; hide AllDone; hide Cleared;
      slots, mids, ends := RoundOf(Value(), on);
      VisitAll(on);
      if log {
        EndSession();
      }
    }
  }

  lemma NoneLeft(process: seq<nat>, itr: nat, num: nat)
    requires |process| == SLOTS && num >= SLOTS
    ensures Scan(process, itr, num) == SLOTS
  {}

  lemma VisitParts(c: Container, before: bool, after: bool)
    requires SchedSpec.Valid(c)
    ensures var s := Select(c, before); Visit(c, before, after) == if after && AllSeen(s) then s.(done := true) else s
  {}

  lemma VisitedNext(cs: seq<Container>, c: nat, log: bool, on: nat)
    requires c < |cs| && forall i | 0 <= i < |cs| :: SchedSpec.Valid(cs[i])
    ensures Visited(cs, c, log, on)[c] == cs[c]
    ensures Visited(cs, c + 1, log, on) == Visited(cs, c, log, on)[c := Visit(cs[c], log || on < c, log || on <= c)]
  {
    hide Visit;
  }
}
