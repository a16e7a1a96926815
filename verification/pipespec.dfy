/** A pipe as a queue of bytes with sets of sleeping readers and writers, and runs of any number of
    readers and writers over it. What happens while the pipe's lock is held is one step. */
module PipeSpec {
  import opened Machine

  const PIPESIZE: nat := 512

  datatype Pipe = Pipe(queue: seq<Byte>, readopen: bool, writeopen: bool, onRead: set<nat>, onWrite: set<nat>)

  // How a stretch of a call ends: it returns, fails, or sleeps.
  datatype Outcome = Done | Failed | Asleep

  // ---------------------------------------------------------------- the operations

  // The bytes a writer gets into the pipe before it is full.
  function Space(p: Pipe, src: seq<Byte>): (k: nat)
    requires |p.queue| <= PIPESIZE
    ensures k <= |src| && |p.queue| + k <= PIPESIZE && (k < |src| ==> |p.queue| + k == PIPESIZE)
  {
    Min(|src|, PIPESIZE - |p.queue|)
  }

  function WriteOutcome(p: Pipe, src: seq<Byte>, killed: bool): Outcome
    requires |p.queue| <= PIPESIZE
  {
    if Space(p, src) == |src| then Done else if !p.readopen || killed then Failed else Asleep
  }

  // pipewrite by process me, from taking the lock to letting go of it; src is what is still to go.
  function WriteStep(p: Pipe, me: nat, src: seq<Byte>, killed: bool): Pipe
    requires |p.queue| <= PIPESIZE
  {
    var full := p.(queue := p.queue + src[..Space(p, src)]);
    match WriteOutcome(p, src, killed)
    case Done => full.(onRead := {})
    case Failed => full
    case Asleep => full.(onRead := {}, onWrite := p.onWrite + {me})
  }

  function ReadOutcome(p: Pipe, killed: bool): Outcome {
    if p.queue == [] && p.writeopen then (if killed then Failed else Asleep) else Done
  }

  function Taken(p: Pipe, n: int): (k: nat)
    ensures k <= |p.queue|
  {
    if n <= 0 then 0 else Min(n, |p.queue|)
  }

  // piperead by process me of up to n bytes.
  function ReadStep(p: Pipe, me: nat, n: int, killed: bool): Pipe {
    match ReadOutcome(p, killed)
    case Done => p.(queue := p.queue[Taken(p, n)..], onWrite := {})
    case Failed => p
    case Asleep => p.(onRead := p.onRead + {me})
  }

  function CloseStep(p: Pipe, writable: bool): Pipe {
    if writable then p.(writeopen := false, onRead := {}) else p.(readopen := false, onWrite := {})
  }

  // ---------------------------------------------------------------- runs

  // written and delivered are all bytes put into and got out of the pipe, in order; pending is what
  // each writer that slept in its call has still to write, and waiting how much each reader wants.
  datatype Sys = Sys(pipe: Pipe, written: seq<Byte>, delivered: seq<Byte>, pending: map<nat, seq<Byte>>,
                     waiting: map<nat, int>)

  datatype Event =
    | Write(me: nat, src: seq<Byte>, killed: bool)
    | WriteOn(me: nat, killed: bool)             // woken in pipewrite
    | Read(me: nat, n: int, killed: bool)
    | ReadOn(me: nat, killed: bool)              // woken in piperead
    | Close(writable: bool)
    | Kill(q: nat)                               // wakes q wherever it sleeps

  predicate Idle(s: Sys, me: nat) {
    me !in s.pending && me !in s.waiting
  }

  predicate Enabled(s: Sys, e: Event) {
    match e
    case Write(me, _, _) => Idle(s, me) && s.pipe.writeopen
    case WriteOn(me, _) => me in s.pending && me !in s.pipe.onWrite
    case Read(me, _, _) => Idle(s, me) && s.pipe.readopen
    case ReadOn(me, _) => me in s.waiting && me !in s.pipe.onRead
    case Close(w) => if w then s.pipe.writeopen else s.pipe.readopen
    case Kill(_) => true
  }

  predicate Writes(s: Sys, e: Event) {
    e.Write? || (e.WriteOn? && e.me in s.pending)
  }

  function Source(s: Sys, e: Event): seq<Byte>
    requires Writes(s, e)
  {
    if e.Write? then e.src else s.pending[e.me]
  }

  function AfterWrite(s: Sys, me: nat, src: seq<Byte>, killed: bool): Sys
    requires |s.pipe.queue| <= PIPESIZE
  {
    var k := Space(s.pipe, src);
    s.(pipe := WriteStep(s.pipe, me, src, killed), written := s.written + src[..k],
       pending := if WriteOutcome(s.pipe, src, killed) == Asleep then s.pending[me := src[k..]] else s.pending - {me})
  }

  function AfterRead(s: Sys, me: nat, n: int, killed: bool): Sys {
    var out := ReadOutcome(s.pipe, killed);
    s.(pipe := ReadStep(s.pipe, me, n, killed),
       delivered := if out == Done then s.delivered + s.pipe.queue[..Taken(s.pipe, n)] else s.delivered,
       waiting := if out == Asleep then s.waiting[me := n] else s.waiting - {me})
  }

  function Apply(s: Sys, e: Event): Sys
    requires |s.pipe.queue| <= PIPESIZE && Enabled(s, e)
  {
    match e
    case Write(me, src, killed) => AfterWrite(s, me, src, killed)
    case WriteOn(me, killed) => AfterWrite(s, me, s.pending[me], killed)
    case Read(me, n, killed) => AfterRead(s, me, n, killed)
    case ReadOn(me, killed) => AfterRead(s, me, s.waiting[me], killed)
    case Close(w) => s.(pipe := CloseStep(s.pipe, w))
    case Kill(q) => s.(pipe := s.pipe.(onRead := s.pipe.onRead - {q}, onWrite := s.pipe.onWrite - {q}))
  }

  const START: Sys := Sys(Pipe([], true, true, {}, {}), [], [], map[], map[])

  predicate Run(run: seq<Sys>, es: seq<Event>) {
    && |run| == |es| + 1 && run[0] == START
    && forall k | 0 <= k < |es| ::
         |run[k].pipe.queue| <= PIPESIZE && Enabled(run[k], es[k]) && run[k + 1] == Apply(run[k], es[k])
  }

  // ---------------------------------------------------------------- first in, first out

  // What has come out, followed by what is inside, is what has gone in; and it is never too much.
  predicate Fifo(s: Sys) {
    s.delivered + s.pipe.queue == s.written && |s.pipe.queue| <= PIPESIZE
  }

  lemma WriteKeepsFifo(s: Sys, me: nat, src: seq<Byte>, killed: bool)
    requires Fifo(s)
    ensures Fifo(AfterWrite(s, me, src, killed))
  {
    var more := src[..Space(s.pipe, src)];
    assert s.delivered + (s.pipe.queue + more) == (s.delivered + s.pipe.queue) + more;
  }

  lemma ReadKeepsFifo(s: Sys, me: nat, n: int, killed: bool)
    requires Fifo(s)
    ensures Fifo(AfterRead(s, me, n, killed))
  {
    var k := Taken(s.pipe, n);
    assert s.pipe.queue == s.pipe.queue[..k] + s.pipe.queue[k..];
    assert s.delivered + s.pipe.queue == (s.delivered + s.pipe.queue[..k]) + s.pipe.queue[k..];
  }

  lemma StepKeepsFifo(s: Sys, e: Event)
    requires Fifo(s) && Enabled(s, e)
    ensures Fifo(Apply(s, e))
  {
    hide AfterWrite; hide AfterRead;
    match e
    case Write(me, src, killed) => WriteKeepsFifo(s, me, src, killed);
    case WriteOn(me, killed) => WriteKeepsFifo(s, me, s.pending[me], killed);
    case Read(me, n, killed) => ReadKeepsFifo(s, me, n, killed);
    case ReadOn(me, killed) => ReadKeepsFifo(s, me, s.waiting[me], killed);
    case Close(_) => FifoQueue(s, Apply(s, e));
    case Kill(_) => FifoQueue(s, Apply(s, e));
  }

  lemma FifoQueue(s: Sys, s': Sys)
    requires Fifo(s) && s'.pipe.queue == s.pipe.queue && s'.delivered == s.delivered && s'.written == s.written
    ensures Fifo(s')
  {}

  // Over every run, for any number of readers and writers, bytes come out in the order they went in,
  // and at most PIPESIZE are inside.
  lemma {:induction false} PipeIsFifo(run: seq<Sys>, es: seq<Event>, k: nat)
    requires Run(run, es) && k <= |es|
    ensures run[k].delivered + run[k].pipe.queue == run[k].written && |run[k].pipe.queue| <= 512
    decreases k
  {
    hide Apply; hide Enabled;
    if k > 0 {
      PipeIsFifo(run, es, k - 1);
      StepKeepsFifo(run[k - 1], es[k - 1]);
      assert run[k - 1 + 1] == Apply(run[k - 1], es[k - 1]);
    }
  }

  // ---------------------------------------------------------------- what a call does

  predicate Reads(s: Sys, e: Event) {
    e.Read? || (e.ReadOn? && e.me in s.waiting)
  }

  function Wanted(s: Sys, e: Event): int
    requires Reads(s, e)
  {
    if e.Read? then e.n else s.waiting[e.me]
  }

  // A read takes as many bytes as are wanted and there; it waits only for want of any, and fails only
  // then and when killed.
  lemma ReadDelivers(s: Sys, e: Event)
    requires |s.pipe.queue| <= 512 && Enabled(s, e) && Reads(s, e)
    ensures var t := Apply(s, e); var n := |t.delivered| - |s.delivered|;
      && s.delivered <= t.delivered && t.delivered + t.pipe.queue == s.delivered + s.pipe.queue
      && (e.me in t.waiting <==> s.pipe.queue == [] && s.pipe.writeopen && !e.killed)
      && (e.me in t.waiting ==> t.waiting[e.me] == Wanted(s, e) && e.me in t.pipe.onRead)
      && n <= Max(Wanted(s, e), 0) && (n == Max(Wanted(s, e), 0) || t.pipe.queue == [])
      && (s.pipe.queue != [] ==> t.pipe.onWrite == {})
      && (s.pipe.queue != [] && Wanted(s, e) > 0 ==> n > 0)
  {
    var k := Taken(s.pipe, Wanted(s, e));
    assert s.pipe.queue == s.pipe.queue[..k] + s.pipe.queue[k..];
    assert s.delivered + s.pipe.queue == (s.delivered + s.pipe.queue[..k]) + s.pipe.queue[k..];
  }

  // A write puts all of its bytes in, or fills the pipe; then it waits for room, unless nobody is left to
  // read or it has been killed.
  lemma WriteTakes(s: Sys, e: Event)
    requires |s.pipe.queue| <= 512 && Enabled(s, e) && Writes(s, e)
    ensures var t := Apply(s, e); var src := Source(s, e); var k := |t.written| - |s.written|;
      && 0 <= k <= |src| && t.written == s.written + src[..k] && t.pipe.queue == s.pipe.queue + src[..k]
      && (k == |src| || |t.pipe.queue| == 512)
      && (e.me in t.pending <==> k < |src| && s.pipe.readopen && !e.killed)
      && (e.me in t.pending ==> t.pending[e.me] == src[k..] && e.me in t.pipe.onWrite)
      && (k == |src| || e.me in t.pending ==> t.pipe.onRead == {})
  {}

  // ---------------------------------------------------------------- sleepers

  // A sleeping writer finds the pipe full and a reader possible.
  predicate WritersOk(p: Pipe) {
    p.onWrite != {} ==> |p.queue| == 512 && p.readopen
  }

  // A sleeping reader finds the pipe empty and a writer possible.
  predicate ReadersOk(p: Pipe) {
    p.onRead != {} ==> p.queue == [] && p.writeopen
  }

  // A writer that fails for being killed, or for want of readers, after it has filled the pipe while
  // readers sleep: it goes without waking them.
  predicate LeavesReaders(s: Sys, e: Event)
    requires |s.pipe.queue| <= PIPESIZE
  {
    Writes(s, e) && s.pipe.onRead != {} && |s.pipe.queue| < PIPESIZE < |s.pipe.queue| + |Source(s, e)|
      && (!s.pipe.readopen || e.killed)
  }

  lemma StepKeepsWriters(s: Sys, e: Event)
    requires |s.pipe.queue| <= PIPESIZE && Enabled(s, e) && WritersOk(s.pipe)
    ensures WritersOk(Apply(s, e).pipe)
  {}

  // Exactly the steps described leave a reader asleep over a pipe with something in it.
  lemma StepKeepsReadersIff(s: Sys, e: Event)
    requires |s.pipe.queue| <= PIPESIZE && Enabled(s, e) && ReadersOk(s.pipe)
    ensures ReadersOk(Apply(s, e).pipe) <==> !LeavesReaders(s, e)
  {}

  lemma {:induction false} NoLostWriter(run: seq<Sys>, es: seq<Event>, k: nat)
    requires Run(run, es) && k <= |es|
    ensures WritersOk(run[k].pipe)
    decreases k
  {
    hide Apply; hide Enabled; hide WritersOk;
    if k > 0 {
      NoLostWriter(run, es, k - 1);
      StepKeepsWriters(run[k - 1], es[k - 1]);
      assert run[k - 1 + 1] == Apply(run[k - 1], es[k - 1]);
    } else {
      EmptyPipe();
    }
  }

  lemma EmptyPipe()
    ensures WritersOk(START.pipe) && ReadersOk(START.pipe)
  {}

  lemma {:induction false} NoLostReader(run: seq<Sys>, es: seq<Event>, k: nat)
    requires Run(run, es) && k <= |es| && forall j | 0 <= j < k :: !LeavesReaders(run[j], es[j])
    ensures ReadersOk(run[k].pipe)
    decreases k
  {
    hide Apply; hide Enabled; hide ReadersOk; hide LeavesReaders;
    if k > 0 {
      NoLostReader(run, es, k - 1);
      StepKeepsReadersIff(run[k - 1], es[k - 1]);
      assert run[k - 1 + 1] == Apply(run[k - 1], es[k - 1]);
    } else {
      EmptyPipe();
    }
  }

  // The run that shows it: a reader sleeps on the empty pipe, then a killed writer fills it and fails.
  lemma ReaderLeftAsleep(src: seq<Byte>)
    requires |src| > PIPESIZE
    ensures exists run: seq<Sys>, es: seq<Event> ::
              Run(run, es) && |es| == 2 && 1 in run[2].pipe.onRead && |run[2].pipe.queue| == PIPESIZE
  {
    var es := [Read(1, 1, false), Write(2, src, true)];
    var s1 := Apply(START, es[0]);
    var s2 := Apply(s1, es[1]);
    var run := [START, s1, s2];
    assert Run(run, es);
    assert 1 in run[2].pipe.onRead && |run[2].pipe.queue| == PIPESIZE;
  }
}
