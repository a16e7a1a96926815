/** The container scheduler on one CPU: which slot of a container a visit selects, and when the
    scheduler log has seen every slot. The slots of the containers are given and stay as they are. */
module SchedSpec {

  const SLOTS: nat := 10  // PROCESS_COUNT
  const NCONT: nat := 10

  // process holds a process for each slot, 0 for none; seen is schedulerHelper, and cur curLocation.
  datatype Container = Container(process: seq<nat>, seen: seq<bool>, cur: nat, done: bool)

  predicate Valid(c: Container) {
    |c.process| == |c.seen| == SLOTS && c.cur <= SLOTS
  }

  // ---------------------------------------------------------------- selection

  // The search from itr on, with num slots already looked at; SLOTS if all are empty.
  function Scan(process: seq<nat>, itr: nat, num: nat): (r: nat)
    requires |process| == SLOTS
    ensures r <= SLOTS && (r < SLOTS ==> process[r] != 0)
    decreases SLOTS - num
  {
    if num >= SLOTS then SLOTS
    else if process[itr % SLOTS] != 0 then itr % SLOTS
    else Scan(process, itr % SLOTS + 1, num + 1)
  }

  function Selected(c: Container): (r: nat)
    requires Valid(c)
    ensures r <= SLOTS && (r < SLOTS ==> c.process[r] != 0)
  {
    Scan(c.process, c.cur, 0)
  }

  // The selection of one visit, with the log on or off.
  function Select(c: Container, log: bool): (r: Container)
    requires Valid(c)
    ensures Valid(r) && r.process == c.process
  {
    var i := Selected(c);
    if i == SLOTS then c else c.(cur := i + 1, seen := if log then c.seen[i := true] else c.seen)
  }

  predicate AllSeen(c: Container)
    requires Valid(c)
  {
    forall i | 0 <= i < SLOTS && c.process[i] != 0 :: c.seen[i]
  }

  // A visit: the selection, a run of the selected process, which may switch the log on, and the check.
  function Visit(c: Container, before: bool, after: bool): (r: Container)
    requires Valid(c)
    ensures Valid(r) && r.process == c.process
  {
    var s := Select(c, before);
    if after && AllSeen(s) then s.(done := true) else s
  }

  function Visits(c: Container, log: bool, n: nat): (r: Container)
    requires Valid(c)
    ensures Valid(r) && r.process == c.process
  {
    if n == 0 then c else Visit(Visits(c, log, n - 1), log, log)
  }

  // ---------------------------------------------------------------- occupied slots, in order

  function Occupied(process: seq<nat>, n: nat): (r: seq<nat>)
    requires n <= |process|
    ensures |r| <= n && forall k | 0 <= k < |r| :: r[k] < n && process[r[k]] != 0
  {
    if n == 0 then [] else Occupied(process, n - 1) + (if process[n - 1] != 0 then [n - 1] else [])
  }

  lemma {:induction false} OccupiedPrefix(process: seq<nat>, m: nat, n: nat)
    requires m <= n <= |process|
    ensures Occupied(process, m) <= Occupied(process, n)
    decreases n
  {
    if m < n {
      OccupiedPrefix(process, m, n - 1);
    }
  }

  lemma {:induction false} OccupiedAll(process: seq<nat>, n: nat, i: nat)
    requires i < n <= |process| && process[i] != 0
    ensures i in Occupied(process, n)
  {
    OccupiedPrefix(process, i + 1, n);
    var o := Occupied(process, i + 1);
    assert o[|o| - 1] == i;
    assert Occupied(process, n)[|o| - 1] == i;
  }

  lemma {:induction false} OccupiedIncreasing(process: seq<nat>, n: nat, j: nat, k: nat)
    requires n <= |process| && j < k < |Occupied(process, n)|
    ensures Occupied(process, n)[j] < Occupied(process, n)[k]
    decreases n
  {
    if k < |Occupied(process, n - 1)| {
      OccupiedIncreasing(process, n - 1, j, k);
    }
  }

  // The first occupied slot at or after i, or SLOTS.
  function FirstAt(process: seq<nat>, i: nat): (r: nat)
    requires i <= |process| == SLOTS
    ensures i <= r <= SLOTS && (r < SLOTS ==> process[r] != 0) && forall k | i <= k < r :: process[k] == 0
    decreases SLOTS - i
  {
    if i == SLOTS || process[i] != 0 then i else FirstAt(process, i + 1)
  }

  // One turn of the search, wherever itr stands.
  lemma ScanTurn(process: seq<nat>, itr: nat, num: nat)
    requires |process| == SLOTS && itr <= SLOTS && num < SLOTS
    ensures var i := itr % SLOTS;
      i < SLOTS && Scan(process, itr, num) == if process[i] != 0 then i else Scan(process, i + 1, num + 1)
  {}

  lemma ScanStep(process: seq<nat>, i: nat, num: nat)
    requires |process| == SLOTS && i < SLOTS && num < SLOTS
    ensures Scan(process, i, num) == if process[i] != 0 then i else Scan(process, i + 1, num + 1)
  {
    assert i % 10 == i;
  }

  lemma {:induction false} ScanUp(process: seq<nat>, i: nat, num: nat)
    requires |process| == SLOTS && i < SLOTS && num < SLOTS
    ensures FirstAt(process, i) < SLOTS && num + (FirstAt(process, i) - i) < SLOTS ==>
        Scan(process, i, num) == FirstAt(process, i)
    ensures FirstAt(process, i) == SLOTS && num + (SLOTS - i) < SLOTS ==>
        Scan(process, i, num) == Scan(process, SLOTS, num + (SLOTS - i))
    decreases SLOTS - i
  {
    hide Scan;
    ScanStep(process, i, num);
    if process[i] == 0 && i + 1 < SLOTS && num + 1 < SLOTS {
      ScanUp(process, i + 1, num + 1);
    }
  }

  lemma ScanWraps(process: seq<nat>, num: nat)
    requires |process| == SLOTS && num < SLOTS
    ensures Scan(process, SLOTS, num) == Scan(process, 0, num)
  {
    assert 10 % 10 == 0 % 10;
  }

  // The search goes up from cur and then around to the first slot.
  lemma ScanIs(process: seq<nat>, cur: nat)
    requires |process| == SLOTS && cur <= SLOTS && FirstAt(process, 0) < SLOTS
    ensures Scan(process, cur, 0) ==
            if FirstAt(process, cur) < SLOTS then FirstAt(process, cur) else FirstAt(process, 0)
  {
    hide Scan;
    var f := FirstAt(process, 0);
    if cur < SLOTS {
      ScanUp(process, cur, 0);
    }
    if FirstAt(process, cur) == SLOTS && cur > 0 {
      assert f < cur;
      ScanWraps(process, SLOTS - cur);
      ScanUp(process, 0, SLOTS - cur);
    }
  }

  // The occupied slots below the first at or after i are those below i.
  lemma {:induction false} FirstIsNext(process: seq<nat>, i: nat)
    requires i <= |process| == SLOTS
    ensures var f := FirstAt(process, i); var n := |Occupied(process, i)|;
      if f == SLOTS then |Occupied(process, SLOTS)| == n
      else n < |Occupied(process, SLOTS)| && Occupied(process, SLOTS)[n] == f && |Occupied(process, f + 1)| == n + 1
    decreases SLOTS - i
  {
    if i < SLOTS {
      if process[i] == 0 {
        FirstIsNext(process, i + 1);
      } else {
        OccupiedPrefix(process, i + 1, SLOTS);
        assert Occupied(process, i + 1)[|Occupied(process, i)|] == i;
      }
    }
  }

  // ---------------------------------------------------------------- rotation

  // Where in the list of occupied slots the search will stop.
  function Rank(c: Container): (r: nat)
    requires Valid(c)
  {
    var n := |Occupied(c.process, c.cur)|;
    if n == |Occupied(c.process, SLOTS)| then 0 else n
  }

  // n places on from r in a circle of k.
  function Around(r: nat, n: nat, k: nat): nat {
    if r + n < k then r + n else r + n - k
  }

  lemma SelectedIs(c: Container, log: bool)
    requires Valid(c) && Occupied(c.process, SLOTS) != []
    ensures var o := Occupied(c.process, SLOTS);
      Rank(c) < |o| && Selected(c) == o[Rank(c)] && Rank(Select(c, log)) == Around(Rank(c), 1, |o|)
  {
    hide Scan; hide FirstAt; hide Occupied;
    FirstIsNext(c.process, c.cur);
    FirstIsNext(c.process, 0);
    NoneBelow(c.process);
    OccupiedPrefix(c.process, c.cur, SLOTS);
    ScanIs(c.process, c.cur);
  }

  lemma NoneBelow(process: seq<nat>)
    requires |process| == SLOTS
    ensures Occupied(process, 0) == []
  {}

  lemma {:induction false} VisitsRank(c: Container, log: bool, n: nat)
    requires Valid(c) && n < |Occupied(c.process, SLOTS)|
    ensures Rank(c) < |Occupied(c.process, SLOTS)|
    ensures Rank(Visits(c, log, n)) == Around(Rank(c), n, |Occupied(c.process, SLOTS)|)
  {
    hide Occupied; hide Selected; hide Rank; hide AllSeen;
    SelectedIs(c, log);
    if n > 0 {
      VisitsRank(c, log, n - 1);
      SelectedIs(Visits(c, log, n - 1), log);
      SameRank(Select(Visits(c, log, n - 1), log), Visits(c, log, n));
    }
  }

  lemma SameRank(c: Container, d: Container)
    requires Valid(c) && Valid(d) && c.process == d.process && c.cur == d.cur
    ensures Rank(c) == Rank(d)
  {
    hide Occupied;
  }

  // The slot that visit n selects, counting from 0.
  function Pick(c: Container, log: bool, n: nat): (r: nat)
    requires Valid(c)
    ensures r <= SLOTS
  {
    Selected(Visits(c, log, n))
  }

  lemma PickIs(c: Container, log: bool, n: nat)
    requires Valid(c) && n < |Occupied(c.process, SLOTS)|
    ensures var o := Occupied(c.process, SLOTS);
      Rank(c) < |o| && Around(Rank(c), n, |o|) < |o| && Pick(c, log, n) == o[Around(Rank(c), n, |o|)]
  {
    VisitsRank(c, log, n);
    hide Occupied; hide Rank; hide Selected;
    SelectedIs(Visits(c, log, n), log);
  }

  lemma PicksDiffer(c: Container, log: bool, m: nat, n: nat)
    requires Valid(c) && m < n < |Occupied(c.process, SLOTS)|
    ensures Pick(c, log, m) != Pick(c, log, n)
  {
    var o := Occupied(c.process, SLOTS);
    PickIs(c, log, m);
    PickIs(c, log, n);
    var a, b := Around(Rank(c), m, |o|), Around(Rank(c), n, |o|);
    if a < b {
      OccupiedIncreasing(c.process, SLOTS, a, b);
    } else {
      OccupiedIncreasing(c.process, SLOTS, b, a);
    }
  }

  lemma SomePick(c: Container, log: bool, i: nat)
    requires Valid(c) && i < SLOTS && c.process[i] != 0
    ensures exists n :: 0 <= n < |Occupied(c.process, SLOTS)| && Pick(c, log, n) == i
  {
    var o := Occupied(c.process, SLOTS);
    OccupiedAll(c.process, SLOTS, i);
    var j :| 0 <= j < |o| && o[j] == i;
    hide Occupied; hide Rank; hide Pick; hide Selected; hide Select;
    SelectedIs(c, log);
    var r := Rank(c);
    var n := if r <= j then j - r else j + |o| - r;
    assert Around(r, n, |o|) == j;
    PickIs(c, log, n);
    hide Around;
    assert Pick(c, log, n) == i;
  }

  // If k slots are occupied, any k consecutive visits select each of them exactly once.
  lemma EachSlotOnce(c: Container, log: bool, i: nat)
    requires Valid(c) && i < SLOTS && c.process[i] != 0
    ensures var k := |Occupied(c.process, SLOTS)|;
      && (exists n :: 0 <= n < k && Pick(c, log, n) == i)
      && forall m, n | 0 <= m < n < k :: Pick(c, log, m) != Pick(c, log, n)
  {
    SomePick(c, log, i);
    hide Occupied; hide Pick;
    forall m, n | 0 <= m < n < |Occupied(c.process, SLOTS)|
      ensures Pick(c, log, m) != Pick(c, log, n)
    {
      PicksDiffer(c, log, m, n);
    }
  }

  // ---------------------------------------------------------------- the log's barrier

  predicate Unseen(c: Container) {
    Valid(c) && !c.done && forall i | 0 <= i < SLOTS :: !c.seen[i]
  }

  lemma SeenByVisit(c: Container, i: nat)
    requires Valid(c) && i < SLOTS
    ensures Visit(c, true, true).seen[i] <==> c.seen[i] || Selected(c) == i
  {
    hide Selected; hide AllSeen;
  }

  // What n visits have seen.
  lemma {:induction false} SeenIs(c: Container, n: nat, i: nat)
    requires Unseen(c) && i < SLOTS
    ensures Visits(c, true, n).seen[i] <==> exists m :: 0 <= m < n && Pick(c, true, m) == i
  {
    hide Visit; hide Selected;
    if n > 0 {
      SeenIs(c, n - 1, i);
      SeenByVisit(Visits(c, true, n - 1), i);
      assert Pick(c, true, n - 1) == Selected(Visits(c, true, n - 1));
      hide Pick; hide Visits;
      if exists m :: 0 <= m < n - 1 && Pick(c, true, m) == i {
        var m :| 0 <= m < n - 1 && Pick(c, true, m) == i;
        assert 0 <= m < n && Pick(c, true, m) == i;
      }
    }
  }

  // All occupied slots have been seen after as many visits, and not before.
  lemma AllSeenIff(c: Container, n: nat)
    requires Unseen(c)
    ensures AllSeen(Visits(c, true, n)) <==> n >= |Occupied(c.process, SLOTS)|
  {
    var o := Occupied(c.process, SLOTS);
    if n < |o| {
      var i := Pick(c, true, n);
      PickIs(c, true, n);
      SeenIs(c, n, i);
      forall m | 0 <= m < n
        ensures Pick(c, true, m) != i
      {
        PicksDiffer(c, true, m, n);
      }
      assert c.process[i] != 0 && !Visits(c, true, n).seen[i];
    } else {
      forall i | 0 <= i < SLOTS && c.process[i] != 0
        ensures Visits(c, true, n).seen[i]
      {
        EachSlotOnce(c, true, i);
        SeenIs(c, n, i);
      }
    }
  }

  function Rounds(c: Container): nat
    requires Valid(c)
  {
    var k := |Occupied(c.process, SLOTS)|;
    if k == 0 then 1 else k
  }

  // A container is done after as many visits as it has occupied slots, but at least one.
  lemma {:induction false} DoneIff(c: Container, n: nat)
    requires Unseen(c)
    ensures Visits(c, true, n).done <==> n >= Rounds(c)
  {
    hide Visit; hide AllSeen; hide Occupied;
    if n > 0 {
      DoneIff(c, n - 1);
      AllSeenIff(c, n);
      VisitDone(Visits(c, true, n - 1));
    }
  }

  lemma VisitDone(c: Container)
    requires Valid(c)
    ensures Visit(c, true, true).done <==> c.done || AllSeen(Visit(c, true, true))
  {
    hide Selected;
  }

  // ---------------------------------------------------------------- sessions of the log

  datatype Sys = Sys(cs: seq<Container>, count: nat, log: bool)

  predicate SysOk(s: Sys) {
    s.count <= |s.cs| && forall i | 0 <= i < |s.cs| :: Valid(s.cs[i])
  }

  // Containers below count after a visit each. A process running in the visit of container on switches
  // the log on; if on is not below count, none does.
  function Visited(cs: seq<Container>, count: nat, log: bool, on: nat): (r: seq<Container>)
    requires count <= |cs| && forall i | 0 <= i < |cs| :: Valid(cs[i])
    ensures |r| == |cs|
    ensures forall i | 0 <= i < |cs| ::
              r[i] == if i < count then Visit(cs[i], log || on < i, log || on <= i) else cs[i]
  {
    seq(|cs|, i requires 0 <= i < |cs| =>
      if i < count then Visit(cs[i], log || on < i, log || on <= i) else cs[i])
  }

  // Container 0 is not waited for.
  predicate AllDone(cs: seq<Container>, count: nat)
    requires count <= |cs|
  {
    forall i | 1 <= i < count :: cs[i].done
  }

  // Nor are its marks cleared.
  function Cleared(cs: seq<Container>, count: nat): (r: seq<Container>)
    requires count <= |cs|
    ensures |r| == |cs|
    ensures forall i | 0 <= i < |cs| ::
              r[i] == if 1 <= i < count then cs[i].(done := false, seen := seq(|cs[i].seen|, _ => false)) else cs[i]
  {
    seq(|cs|, i requires 0 <= i < |cs| =>
      if 1 <= i < count then cs[i].(done := false, seen := seq(|cs[i].seen|, _ => false)) else cs[i])
  }

  // One round of the scheduler's endless loop.
  function Round(s: Sys, on: nat): (r: Sys)
    requires SysOk(s)
    ensures SysOk(r) && r.count == s.count && |r.cs| == |s.cs|
    ensures forall i | 0 <= i < |s.cs| :: r.cs[i].process == s.cs[i].process
  {
    var cs, log := Visited(s.cs, s.count, s.log, on), s.log || on < s.count;
    if log && AllDone(cs, s.count) then Sys(Cleared(cs, s.count), s.count, false) else Sys(cs, s.count, log)
  }

  // A run: ons says in which visit of each round, if any, a process makes the system call.
  function RunOf(s: Sys, ons: seq<nat>): (r: Sys)
    requires SysOk(s)
    ensures SysOk(r) && r.count == s.count && |r.cs| == |s.cs|
    ensures forall i | 0 <= i < |s.cs| :: r.cs[i].process == s.cs[i].process
  {
    if ons == [] then s else Round(RunOf(s, ons[..|ons| - 1]), ons[|ons| - 1])
  }

  // ---------------------------------------------------------------- a round, slot by slot

  // The slots of c from i up to j are empty.
  predicate Empty(c: Container, i: nat, j: nat) {
    forall k | i <= k < j :: k < |c.process| ==> c.process[k] == 0
  }

  // The search stops at the first process from cur up, or else from slot 0 up; 10 stands for none.
  predicate StopsAt(c: Container, slot: nat) {
    if slot >= 10 then slot == 10 && Empty(c, 0, 10)
    else if slot < |c.process| && c.process[slot] != 0 then
      if c.cur <= slot then Empty(c, c.cur, slot) else Empty(c, c.cur, 10) && Empty(c, 0, slot)
    else false
  }

  // That slot is marked if the log is on, and the next search starts after it; nothing else changes.
  predicate Chosen(c: Container, log: bool, slot: nat, r: Container) {
    && StopsAt(c, slot) && r.process == c.process && r.done == c.done && |r.seen| == |c.seen|
    && r.cur == (if slot < 10 then slot + 1 else c.cur)
    && forall i | 0 <= i < |c.seen| :: r.seen[i] == (c.seen[i] || (log && i == slot))
  }

  // The check marks the container done if every process in it has been marked.
  predicate Checked(c: Container, r: Container) {
    && r.process == c.process && r.seen == c.seen && r.cur == c.cur
    && (r.done <==> c.done || forall i | 0 <= i < 10 && i < |c.process| && c.process[i] != 0 ::
                      i < |c.seen| && c.seen[i])
  }

  predicate VisitIs(c: Container, before: bool, after: bool, slot: nat, mid: Container, r: Container) {
    Chosen(c, before, slot, mid) && if after then Checked(mid, r) else r == mid
  }

  lemma VisitStops(c: Container, before: bool, after: bool)
    requires Valid(c)
    ensures VisitIs(c, before, after, Selected(c), Select(c, before), Visit(c, before, after))
  {
    hide Selected; hide Select; hide Chosen;
    SelectChooses(c, before);
  }

  lemma SelectChooses(c: Container, log: bool)
    requires Valid(c)
    ensures Chosen(c, log, Selected(c), Select(c, log))
  {
    hide Scan; hide StopsAt;
    SelectedStops(c);
  }

  lemma SelectedStops(c: Container)
    requires Valid(c)
    ensures StopsAt(c, Selected(c))
  {
    hide Scan;
    var f, g := FirstAt(c.process, c.cur), FirstAt(c.process, 0);
    if g < SLOTS {
      ScanIs(c.process, c.cur);
    } else {
      assert forall k | 0 <= k < SLOTS :: c.process[k] == 0;
    }
  }

  // What is left of the marks of container i if the session ends, and nothing but container 0's stays.
  predicate Wiped(c: Container, i: nat, r: Container) {
    if i == 0 then r == c
    else r.process == c.process && r.cur == c.cur && !r.done && |r.seen| == |c.seen| && true !in r.seen
  }

  // A round: every container below count is visited, with the log on from the visit that switches it on. If it
  // is on at the end and all of them but container 0 are done, it goes off and their marks are wiped.
  predicate RoundIs(s: Sys, on: nat, slots: seq<nat>, mids: seq<Container>, ends: seq<Container>, r: Sys) {
    && |slots| == |mids| == |ends| == s.count <= |s.cs| == |r.cs| && r.count == s.count
    && (forall i | 0 <= i < s.count :: VisitIs(s.cs[i], s.log || on < i, s.log || on <= i, slots[i], mids[i], ends[i]))
    && (forall i | s.count <= i < |s.cs| :: r.cs[i] == s.cs[i])
    && var off := (s.log || on < s.count) && forall i | 1 <= i < s.count :: ends[i].done;
    && r.log == ((s.log || on < s.count) && !off)
    && forall i | 0 <= i < s.count :: if off then Wiped(ends[i], i, r.cs[i]) else r.cs[i] == ends[i]
  }

  // The rounds of the runs below are of that kind.
  lemma RoundOf(s: Sys, on: nat) returns (slots: seq<nat>, mids: seq<Container>, ends: seq<Container>)
    requires SysOk(s)
    ensures RoundIs(s, on, slots, mids, ends, Round(s, on))
  {
    hide Visit; hide Select; hide Selected; hide VisitIs;
    slots := seq(s.count, i requires 0 <= i < s.count => Selected(s.cs[i]));
    mids := seq(s.count, i requires 0 <= i < s.count => Select(s.cs[i], s.log || on < i));
    ends := Visited(s.cs, s.count, s.log, on)[..s.count];
    forall i | 0 <= i < s.count
      ensures VisitIs(s.cs[i], s.log || on < i, s.log || on <= i, slots[i], mids[i], ends[i])
    {
      VisitStops(s.cs[i], s.log || on < i, s.log || on <= i);
    }
  }

  // ---------------------------------------------------------------- runs

  // The log is off and no container but 0, whose marks are never cleared, has marks left over.
  predicate Ready(s: Sys) {
    SysOk(s) && !s.log && forall i | 1 <= i < s.count :: Unseen(s.cs[i])
  }

  lemma QuietVisit(c: Container)
    requires Unseen(c)
    ensures Unseen(Visit(c, false, false))
  {
    hide Selected;
  }

  lemma RoundReady(s: Sys, on: nat)
    requires SysOk(s) && (s.log || Ready(s)) && !Round(s, on).log
    ensures Ready(Round(s, on))
  {
    hide Visit; hide AllDone;
    if !s.log && on >= s.count {
      forall i | 1 <= i < s.count
        ensures Unseen(Round(s, on).cs[i])
      {
        QuietVisit(s.cs[i]);
      }
    }
  }

  // Whenever the log is off it is ready for a session, however many sessions there have been.
  lemma {:induction false} OffMeansReady(s: Sys, ons: seq<nat>)
    requires Ready(s)
    ensures !RunOf(s, ons).log ==> Ready(RunOf(s, ons))
  {
    hide Unseen; hide SysOk; hide Round;
    if ons != [] {
      OffMeansReady(s, ons[..|ons| - 1]);
      if !RunOf(s, ons).log {
        RoundReady(RunOf(s, ons[..|ons| - 1]), ons[|ons| - 1]);
      }
    } else {
      assert RunOf(s, ons) == s;
    }
  }

  // How many full rounds container j still needs at the end of a round in which the log was switched on
  // in the visit of container c: those before c missed that round, c had its selection but not its check
  // in it unlogged, and those after c had it whole.
  function Due(s: Sys, c: nat, j: nat): nat
    requires SysOk(s) && j < s.count
  {
    if j < c then Rounds(s.cs[j])
    else if j > c then Rounds(s.cs[j]) - 1
    else |Occupied(s.cs[j].process, SLOTS)|
  }

  // The greatest of these over the containers below n other than 0.
  function Wait(s: Sys, c: nat, n: nat): (m: nat)
    requires SysOk(s) && n <= s.count
  {
    if n <= 1 then 0
    else
      var m := Wait(s, c, n - 1);
      if Due(s, c, n - 1) > m then Due(s, c, n - 1) else m
  }

  lemma {:induction false} WaitIs(s: Sys, c: nat, n: nat, m: nat)
    requires SysOk(s) && n <= s.count
    ensures m >= Wait(s, c, n) <==> forall j | 1 <= j < n :: m >= Due(s, c, j)
  {
    hide Due;
    if n > 1 {
      WaitIs(s, c, n - 1, m);
    }
  }

  // The wait depends on which slots are occupied only, and those stay as they are.
  lemma {:induction false} WaitSame(s: Sys, r: Sys, c: nat, n: nat)
    requires SysOk(s) && SysOk(r) && n <= s.count == r.count
    requires forall i | 0 <= i < n :: r.cs[i].process == s.cs[i].process
    ensures Wait(r, c, n) == Wait(s, c, n)
  {
    hide Occupied;
    if n > 1 {
      WaitSame(s, r, c, n - 1);
    }
  }

  // Container j n full rounds after that round.
  function After(s: Sys, c: nat, j: nat, n: nat): (r: Container)
    requires SysOk(s) && j < s.count
    ensures Valid(r)
  {
    Visits(Visit(s.cs[j], c < j, c <= j), true, n)
  }

  lemma {:induction false} VisitsShift(c: Container, n: nat)
    requires Valid(c)
    ensures Visits(Visit(c, true, true), true, n) == Visits(c, true, n + 1)
  {
    hide Visit;
    if n > 0 {
      VisitsShift(c, n - 1);
    } else {
      assert Visits(c, true, 0) == c;
    }
  }

  lemma {:induction false} StaysDone(c: Container, n: nat)
    requires Valid(c) && c.done
    ensures Visits(c, true, n).done
  {
    hide Selected; hide AllSeen;
    if n > 0 {
      StaysDone(c, n - 1);
    }
  }

  // Selected without a mark, and then checked: done only if there is nothing to mark.
  lemma HalfVisit(c: Container)
    requires Unseen(c)
    ensures var v := Visit(c, false, true); if Occupied(c.process, SLOTS) == [] then v.done else Unseen(v)
  {
    hide Selected;
    var o := Occupied(c.process, SLOTS);
    forall i | 0 <= i < SLOTS && c.process[i] != 0
      ensures o != []
    {
      OccupiedAll(c.process, SLOTS, i);
    }
    if o != [] {
      assert c.process[o[0]] != 0 && !Select(c, false).seen[o[0]];
    }
  }

  lemma DoneAfter(s: Sys, c: nat, j: nat, n: nat)
    requires SysOk(s) && j < s.count && Unseen(s.cs[j])
    ensures After(s, c, j, n).done <==> n >= Due(s, c, j)
  {
    hide Visit; hide Occupied; hide Visits; hide Unseen;
    var x := s.cs[j];
    if j < c {
      QuietVisit(x);
      DoneIff(Visit(x, false, false), n);
    } else if j > c {
      VisitsShift(x, n);
      DoneIff(x, n + 1);
    } else {
      HalfVisit(x);
      if Occupied(x.process, SLOTS) == [] {
        StaysDone(Visit(x, false, true), n);
      } else {
        DoneIff(Visit(x, false, true), n);
      }
    }
  }

  // A session in progress: every container has had the switching round and n full rounds.
  predicate Logging(s: Sys, c: nat, n: nat, r: Sys)
    requires SysOk(s)
  {
    && r.log && r.count == s.count && |r.cs| == |s.cs|
    && forall j | 0 <= j < s.count :: r.cs[j] == After(s, c, j, n)
  }

  lemma DoneThen(s: Sys, c: nat, n: nat, v: seq<Container>)
    requires Ready(s) && |v| == |s.cs| && forall j | 0 <= j < s.count :: v[j] == After(s, c, j, n)
    ensures AllDone(v, s.count) <==> n >= Wait(s, c, s.count)
  {
    hide After; hide Due; hide Wait; hide Unseen;
    WaitIs(s, c, s.count, n);
    forall j | 1 <= j < s.count
      ensures v[j].done <==> n >= Due(s, c, j)
    {
      DoneAfter(s, c, j, n);
    }
  }

  lemma FirstVisits(s: Sys, c: nat)
    requires SysOk(s) && !s.log
    ensures forall j | 0 <= j < s.count :: Visited(s.cs, s.count, false, c)[j] == After(s, c, j, 0)
  {
    hide Visit;
  }

  lemma NextVisits(s: Sys, c: nat, n: nat, r: Sys, on: nat)
    requires SysOk(s) && SysOk(r) && Logging(s, c, n, r)
    ensures forall j | 0 <= j < s.count :: Visited(r.cs, r.count, true, on)[j] == After(s, c, j, n + 1)
  {
    hide Visit;
  }

  // The round in which the log is switched on.
  lemma FirstRound(s: Sys, c: nat)
    requires Ready(s) && c < s.count
    ensures var r := Round(s, c);
      if Wait(s, c, s.count) > 0 then Logging(s, c, 0, r) else !r.log
  {
    hide After; hide Wait; hide Visit; hide AllDone; hide Unseen;
    FirstVisits(s, c);
    DoneThen(s, c, 0, Visited(s.cs, s.count, false, c));
  }

  // A round of a session.
  lemma NextRound(s: Sys, c: nat, n: nat, r: Sys, on: nat)
    requires Ready(s) && SysOk(r) && Logging(s, c, n, r)
    ensures var t := Round(r, on);
      if Wait(s, c, s.count) > n + 1 then Logging(s, c, n + 1, t) else !t.log
  {
    hide After; hide Wait; hide Visit; hide AllDone; hide Unseen;
    NextVisits(s, c, n, r, on);
    DoneThen(s, c, n + 1, Visited(r.cs, r.count, true, on));
  }

  lemma {:induction false} Session(s: Sys, c: nat, more: seq<nat>)
    requires Ready(s) && c < s.count && |more| <= Wait(s, c, s.count)
    ensures var r := RunOf(Round(s, c), more);
      if |more| < Wait(s, c, s.count) then Logging(s, c, |more|, r) else !r.log
  {
    hide Unseen; hide SysOk; hide Wait; hide Logging; hide Round;
    if more == [] {
      FirstRound(s, c);
    } else {
      Session(s, c, more[..|more| - 1]);
      NextRound(s, c, |more| - 1, RunOf(Round(s, c), more[..|more| - 1]), more[|more| - 1]);
    }
  }

  lemma {:induction false} RunThen(s: Sys, a: seq<nat>, b: seq<nat>)
    requires SysOk(s)
    ensures RunOf(s, a + b) == RunOf(RunOf(s, a), b)
  {
    hide Round; hide SysOk;
    if b == [] {
      assert a + b == a;
    } else {
      RunThen(s, a, b[..|b| - 1]);
      assert (a + b)[..|a + b| - 1] == a + b[..|b| - 1];
    }
  }

  // After any run, with any number of sessions behind it: a log switched on in the visit of container c
  // stays on for the full rounds that the slowest container is due and no longer, and is then ready again.
  lemma LogSwitchesOff(s: Sys, before: seq<nat>, c: nat, more: seq<nat>)
    requires Ready(s) && !RunOf(s, before).log && c < s.count && |more| <= Wait(s, c, s.count)
    ensures var r := RunOf(s, before + [c] + more);
      if |more| < Wait(s, c, s.count) then r.log else Ready(r)
  {
    hide Wait; hide Unseen; hide Round;
    var t := RunOf(s, before);
    OffMeansReady(s, before);
    WaitSame(s, t, c, s.count);
    RunThen(s, before, [c]);
    assert RunOf(t, [c]) == Round(RunOf(t, []), c);
    RunThen(s, before + [c], more);
    Session(t, c, more);
    OffMeansReady(s, before + [c] + more);
  }

  // A session lasts no longer than the fullest container other than 0 has occupied slots, or one round.
  lemma SessionsEnd(s: Sys, c: nat, k: nat)
    requires SysOk(s) && k >= 1 && forall j | 1 <= j < s.count :: k >= |Occupied(s.cs[j].process, SLOTS)|
    ensures Wait(s, c, s.count) <= k
  {
    hide Wait; hide Occupied;
    WaitIs(s, c, s.count, k);
  }
}
