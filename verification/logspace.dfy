/** When log_write can panic for want of log space although every operation keeps to its reservation:
    the log must have room for LOGSIZE blocks behind its header. */
module LogSpace {
  import opened Machine
  import opened Blocks
  import opened LogSpec
  import opened LogProtocol
  import opened LogSafety

  // Process p adds block b to the header, in an operation that has not used up its reservation.
  ghost predicate EntitledAppend(s: State, p: nat, b: nat) {
    Enabled(s, Event.LogWrite(p, b)) && b !in s.lh
  }

  lemma {:induction false} ReservedForEach(ops: seq<Op>, p: nat)
    requires p < |ops|
    ensures Reserved(ops) >= Weight(ops[p])
  {
    if p < |ops| - 1 {
      ReservedForEach(ops[..|ops| - 1], p);
    }
  }

  // With LOGSIZE + 1 blocks of log, no append within a reservation panics.
  lemma AppendNeverPanics(ss: seq<State>, i: nat, p: nat, b: nat)
    requires Run(ss) && i < |ss| && EntitledAppend(ss[i], p, b) && ss[i].L.size > LOGSIZE
    ensures !LogPanics(ss[i])
  {
    hide Run;
    LogSpaceReserved(ss, i);
    ReservedForEach(ss[i].ops, p);
  }

  lemma WithinBounds(s: State)
    requires Inv(s)
    ensures |s.lh| <= LOGSIZE && forall q: nat | InOp(s, q) :: s.ops[q].appended <= MAXOPBLOCKS
  {
    hide CacheOk; hide PinsOk; hide Atomic; hide PhaseOk; hide LogicalOk;
  }

  // There, a write within the rules panics exactly if the header is full; and then its block is in the
  // header already and no running operation has any of its reservation left.
  lemma LogWritePanicsIff(ss: seq<State>, i: nat, p: nat, b: nat)
    requires Run(ss) && i < |ss| && Enabled(ss[i], Event.LogWrite(p, b)) && ss[i].L.size > LOGSIZE
    ensures LogPanics(ss[i]) <==> |ss[i].lh| == LOGSIZE
    ensures LogPanics(ss[i]) ==> b in ss[i].lh
    ensures LogPanics(ss[i]) ==> forall q: nat | InOp(ss[i], q) :: ss[i].ops[q].appended == MAXOPBLOCKS
  {
    hide Run; hide Reserved; hide Inv;
    LogSpaceReserved(ss, i);
    RunKeeps(ss, i);
    WithinBounds(ss[i]);
    forall q: nat | InOp(ss[i], q)
      ensures Weight(ss[i].ops[q]) <= LOGSIZE - |ss[i].lh|
    {
      ReservedForEach(ss[i].ops, q);
    }
  }

  // ---------------------------------------------------------------- a run that fills a smaller log

  // The i-th block outside the log.
  function HomeAt(L: Layout, i: nat): (b: nat)
    ensures !L.InLog(b)
  {
    if i < L.start then i else i + L.size
  }

  function Homes(L: Layout, n: nat): (h: seq<nat>)
    ensures |h| == n && forall i | 0 <= i < n :: h[i] == HomeAt(L, i)
  {
    seq(n, i requires 0 <= i < n => HomeAt(L, i))
  }

  lemma HomesDistinct(L: Layout, n: nat)
    ensures HomeAt(L, n) !in Homes(L, n)
    ensures Homes(L, n + 1) == Homes(L, n) + [HomeAt(L, n)]
  {}

  // How many of n appended blocks are process p's, each taking ten in turn.
  function Share(n: nat, p: nat): nat {
    if n < MAXOPBLOCKS * p then 0 else if n < MAXOPBLOCKS * (p + 1) then n - MAXOPBLOCKS * p else MAXOPBLOCKS
  }

  // Three operations have logged the first n home blocks between them.
  ghost predicate Filled(s: State, L: Layout, n: nat) {
    && s.phase.Running? && s.L == L && s.locks == map[] && s.lh == Homes(L, n)
    && |s.ops| == 3 && forall p | 0 <= p < 3 :: s.ops[p].Op? && s.ops[p].appended == Share(n, p)
  }

  function Last(ss: seq<State>): State
    requires ss != []
  {
    ss[|ss| - 1]
  }

  lemma Extend(ss: seq<State>, e: Event)
    requires Run(ss) && Ready(Last(ss)) && Enabled(Last(ss), e)
    ensures Run(ss + [Apply(Last(ss), e)])
  {
    hide Ready; hide Enabled; hide Apply; hide Boots;
    var r := ss + [Apply(Last(ss), e)];
    forall i | 0 <= i < |r| - 1
      ensures StepsTo(r[i], r[i + 1])
    {
      if i < |ss| - 1 {
        assert StepsTo(ss[i], ss[i + 1]);
      }
    }
  }

  lemma Next(ss: seq<State>, e: Event) returns (r: seq<State>)
    requires Run(ss) && ss != [] && Enabled(Last(ss), e)
    ensures Run(r) && r != [] && Ready(Last(ss)) && Last(r) == Apply(Last(ss), e)
  {
    hide Run; hide Inv; hide Ready; hide Enabled; hide Apply;
    RunKeeps(ss, |ss| - 1);
    Extend(ss, e);
    r := ss + [Apply(Last(ss), e)];
  }

  // Three operations begin on an empty log.
  lemma Start(L: Layout) returns (ss: seq<State>)
    requires L.Ok()
    ensures Run(ss) && ss != [] && Filled(Last(ss), L, 0)
  {
    var disk: Disk := seq(L.total, _ => seq(WORDS, _ => 0));
    var s := State(L, disk, disk, map[], map[], [], seq(3, _ => NoOp), 0, Running, [], 0, 0);
    CleanHead(L, disk);
    ss := [s];
    assert Run(ss);
    hide Run; hide Ready; hide DiskOk; hide HeaderOk;
    ss := Next(ss, BeginOp(0));
    ss := Next(ss, BeginOp(1));
    ss := Next(ss, BeginOp(2));
    assert Homes(L, 0) == [];
  }

  lemma LogOne(ss: seq<State>, L: Layout, n: nat) returns (r: seq<State>)
    requires Run(ss) && ss != [] && Filled(Last(ss), L, n) && n < LOGSIZE && n < L.size - 1 && HomeAt(L, n) < L.total
    ensures Run(r) && r != [] && Filled(Last(r), L, n + 1)
  {
    hide Run; hide Ready; hide HeaderOk;
    var p, b := n / MAXOPBLOCKS, HomeAt(L, n);
    HomesDistinct(L, n);
    r := Next(ss, Acquire(p, b));
    r := Next(r, Event.LogWrite(p, b));
    r := Next(r, Release(p, b));
    assert Last(r).locks == map[];
  }

  lemma {:induction false} Fill(L: Layout, n: nat) returns (ss: seq<State>)
    requires L.Ok() && n <= LOGSIZE && n <= L.size - 1 && L.size + n <= L.total
    ensures Run(ss) && ss != [] && Filled(Last(ss), L, n)
    decreases n
  {
    hide Run; hide Filled;
    if n == 0 {
      ss := Start(L);
    } else {
      ss := Fill(L, n - 1);
      ss := LogOne(ss, L, n - 1);
    }
  }

  // With fewer blocks of log, some run of three operations reaches an append within its reservation
  // that panics.
  lemma SmallLogPanics(L: Layout) returns (ss: seq<State>, p: nat, b: nat)
    requires L.Ok() && L.size <= LOGSIZE && 2 * L.size <= L.total
    ensures Run(ss) && ss != [] && Last(ss).L == L && EntitledAppend(Last(ss), p, b) && LogPanics(Last(ss))
  {
    var n := L.size - 1;
    ss := Fill(L, n);
    p, b := n / MAXOPBLOCKS, HomeAt(L, n);
    hide Run; hide Ready;
    HomesDistinct(L, n);
    ss := Next(ss, Acquire(p, b));
  }

  // Given enough blocks outside it, a log is large enough for the reservations if and only if it has
  // more than LOGSIZE blocks, its header included. (mkfs makes it LOGSIZE.)
  lemma ReservationsFitIff(L: Layout)
    requires L.Ok() && 2 * L.size <= L.total
    ensures L.size > LOGSIZE <==>
            forall ss: seq<State>, p: nat, b: nat ::
              Run(ss) && ss != [] && Last(ss).L == L && EntitledAppend(Last(ss), p, b) ==> !LogPanics(Last(ss))
  {
    hide Run; hide LogPanics; hide EntitledAppend;
    if L.size > LOGSIZE {
      forall ss: seq<State>, p: nat, b: nat |
        Run(ss) && ss != [] && Last(ss).L == L && EntitledAppend(Last(ss), p, b)
        ensures !LogPanics(Last(ss))
      {
        AppendNeverPanics(ss, |ss| - 1, p, b);
      }
    } else {
      var ss, p, b := SmallLogPanics(L);
      assert Run(ss) && ss != [] && Last(ss).L == L && EntitledAppend(Last(ss), p, b) && LogPanics(Last(ss));
    }
  }

  // Such a panic is reached: a run that writes once more a block that is in the full header already.
  lemma FullLogAbsorbs(L: Layout) returns (ss: seq<State>)
    requires L.Ok() && L.size > LOGSIZE && L.size + LOGSIZE <= L.total
    ensures Run(ss) && ss != [] && var s := Last(ss);
      Enabled(s, Event.LogWrite(0, HomeAt(L, 0))) && HomeAt(L, 0) in s.lh && LogPanics(s)
  {
    ss := Fill(L, LOGSIZE);
    hide Run; hide Ready;
    assert Homes(L, LOGSIZE)[0] == HomeAt(L, 0);
    ss := Next(ss, Acquire(0, HomeAt(L, 0)));
  }
}
