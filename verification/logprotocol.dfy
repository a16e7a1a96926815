/** Every run of the logging system: any number of processes calling begin_op, bread, log_write,
    brelse and end_op in any interleaving, the block writes of commit() and of recovery one at a
    time, buffers loaded and recycled at any moment, and a crash possible between any two steps. */
module LogProtocol {
  import opened Machine
  import opened Blocks
  import opened LogSpec

  // A valid buffer of the cache; `dirty` is B_DIRTY.
  datatype Entry = Entry(data: Block, dirty: bool)

  // The sleep lock of a buffer: who holds it, and whether its data changed since log_write.
  datatype Lock = Lock(owner: nat, modified: bool)

  // What each process is doing: outside any transaction, or in the operation with this identity,
  // which has so far added `appended` blocks to the log header.
  datatype Op = NoOp | Op(id: nat, appended: nat)

  // One change of a buffer's data, and the operation it belongs to.
  datatype Update = Update(op: nat, bno: nat, data: Block)

  datatype Phase =
    | Running
    | Committing(tx: Tx, k: nat)        // k block writes of commit() are done
    | Recovering(crashed: Disk, k: nat) // k block writes of recover_from_log() are done

  datatype State = State(
    L: Layout,
    init: Disk,
    disk: Disk,
    cache: map<nat, Entry>,
    locks: map<nat, Lock>,
    lh: seq<nat>,          // log.lh
    ops: seq<Op>,
    outstanding: nat,      // log.outstanding
    phase: Phase,
    updates: seq<Update>,  // every change since `init` that no crash has undone
    committed: nat,        // how many of them the last completed header write made durable
    nextId: nat)

  datatype Event =
    | BeginOp(p: nat)
    | Acquire(p: nat, b: nat)           // bread returns the locked buffer
    | Modify(p: nat, b: nat, data: Block)
    | LogWrite(p: nat, b: nat)
    | Release(p: nat, b: nat)           // brelse
    | EndOp(p: nat)
    | CommitStep
    | Evict(b: nat)                     // bget recycles the buffer of block b
    | Crash
    | RecoverStep

  // ---------------------------------------------------------------- reading through the cache

  function View(disk: Disk, cache: map<nat, Entry>): (v: Disk)
    ensures |v| == |disk|
    ensures forall b | 0 <= b < |disk| :: v[b] == if b in cache then cache[b].data else disk[b]
  {
    seq(|disk|, b requires 0 <= b < |disk| => if b in cache then cache[b].data else disk[b])
  }

  function Weight(o: Op): nat {
    if o.Op? && o.appended <= MAXOPBLOCKS then MAXOPBLOCKS - o.appended else 0
  }

  // The log space the running operations may still use.
  function Reserved(ops: seq<Op>): nat {
    if ops == [] then 0 else Reserved(ops[..|ops| - 1]) + Weight(ops[|ops| - 1])
  }

  function CountOps(ops: seq<Op>): nat {
    if ops == [] then 0 else CountOps(ops[..|ops| - 1]) + if ops[|ops| - 1].Op? then 1 else 0
  }

  ghost predicate UpdatesOk(L: Layout, us: seq<Update>) {
    forall i | 0 <= i < |us| :: L.Home(us[i].bno)
  }

  function Replay(init: Disk, us: seq<Update>): (d: Disk)
    requires forall i | 0 <= i < |us| :: us[i].bno < |init|
    ensures |d| == |init|
  {
    if us == [] then init
    else
      var u := us[|us| - 1];
      Replay(init, us[..|us| - 1])[u.bno := u.data]
  }

  // ---------------------------------------------------------------- steps

  // The guard of begin_op: false means the caller sleeps on the log.
  predicate HasSpace(s: State) {
    s.phase.Running? && |s.lh| + (s.outstanding + 1) * MAXOPBLOCKS <= LOGSIZE
  }

  // The check at the head of log_write that panics.
  predicate LogPanics(s: State) {
    |s.lh| >= LOGSIZE || |s.lh| >= s.L.size - 1
  }

  predicate Holds(s: State, p: nat, b: nat) {
    b in s.locks && s.locks[b].owner == p
  }

  predicate InOp(s: State, p: nat) {
    p < |s.ops| && s.ops[p].Op?
  }

  // When each step can happen. Callers keep to the rules of log.c and bio.c: they change only
  // home blocks, inside an operation, under the buffer lock; they log what they changed before
  // releasing it; and one operation adds at most MAXOPBLOCKS blocks to the header.
  ghost predicate Enabled(s: State, e: Event) {
    match e
    case BeginOp(p) => p < |s.ops| && s.ops[p].NoOp? && HasSpace(s)
    case Acquire(p, b) => !s.phase.Recovering? && b < s.L.total && b !in s.locks
    case Modify(p, b, data) => s.phase.Running? && InOp(s, p) && Holds(s, p, b) && s.L.Home(b)
    case LogWrite(p, b) => s.phase.Running? && InOp(s, p) && Holds(s, p, b) && s.L.Home(b)
                           && (b in s.lh || s.ops[p].appended < MAXOPBLOCKS)
    case Release(p, b) => !s.phase.Recovering? && Holds(s, p, b) && !s.locks[b].modified
    case EndOp(p) => s.phase.Running? && InOp(s, p) && forall b | b in s.locks :: s.locks[b].owner != p
    case CommitStep => s.phase.Committing? && CommitTarget(s) !in s.locks
    case Evict(b) => b in s.cache && !s.cache[b].dirty && b !in s.locks
    case Crash => true
    case RecoverStep => s.phase.Recovering?
  }

  // The buffer the next block write of commit() locks.
  function CommitTarget(s: State): nat
    requires s.phase.Committing?
  {
    var n, k := |s.lh|, s.phase.k;
    if k < n then s.L.Slot(k) else if n < k <= 2 * n then s.lh[k - n - 1] else s.L.start
  }

  // What the steps rely on to be defined at all; it follows from the invariant below.
  ghost predicate Ready(s: State) {
    && DiskOk(s.L, s.disk)
    && HeaderOk(s.L, s.lh)
    && s.committed <= |s.updates|
    && (forall b | b in s.locks :: b in s.cache)
    && (s.phase.Committing? ==> s.phase.k <= 2 * |s.lh| + 2)
  }

  // bwrite: the buffer and the disk block take the data together, and the buffer is clean.
  function Bwrite(s: State, b: nat, v: Block): State
    requires b < |s.disk|
  {
    s.(disk := s.disk[b := v], cache := s.cache[b := Entry(v, false)])
  }

  // What a restart finds: the disk, and nothing else. The in-memory header is read from it.
  ghost function Crashed(s: State): State
    requires Ready(s)
  {
    s.(cache := map[], locks := map[], lh := DecodeHead(s.disk[s.L.start]),
       ops := seq(|s.ops|, _ => NoOp), outstanding := 0, phase := Recovering(s.disk, 0),
       updates := s.updates[..s.committed])
  }

  ghost function Begun(s: State, p: nat): State
    requires p < |s.ops|
  {
    s.(ops := s.ops[p := Op(s.nextId, 0)], outstanding := s.outstanding + 1, nextId := s.nextId + 1)
  }

  ghost function Acquired(s: State, p: nat, b: nat): State
    requires b < |s.disk|
  {
    s.(cache := if b in s.cache then s.cache else s.cache[b := Entry(s.disk[b], false)],
       locks := s.locks[b := Lock(p, false)])
  }

  ghost function Modified(s: State, p: nat, b: nat, data: Block): State
    requires b in s.cache && InOp(s, p)
  {
    s.(cache := s.cache[b := Entry(data, s.cache[b].dirty)], locks := s.locks[b := Lock(p, true)],
       updates := s.updates + [Update(s.ops[p].id, b, data)])
  }

  ghost function Logged(s: State, p: nat, b: nat): State
    requires b in s.cache && InOp(s, p)
  {
    var t := s.(cache := s.cache[b := Entry(s.cache[b].data, true)], locks := s.locks[b := Lock(p, false)]);
    if b in s.lh then t  // absorbed
    else t.(lh := s.lh + [b], ops := s.ops[p := Op(s.ops[p].id, s.ops[p].appended + 1)])
  }

  ghost function Evicted(s: State, b: nat): State {
    s.(cache := s.cache - {b})
  }

  ghost function Ended(s: State, p: nat): State
    requires InOp(s, p)
  {
    var t := s.(ops := s.ops[p := NoOp], outstanding := if s.outstanding > 0 then s.outstanding - 1 else 0);
    if t.outstanding > 0 then t
    else if s.lh == [] then t.(committed := |s.updates|)
    else t.(phase := Committing(Tx(s.L, s.disk, View(s.disk, s.cache), s.lh), 0))
  }

  ghost function CommitStepped(s: State): State
    requires Ready(s) && s.phase.Committing?
  {
    if s.phase.k == 2 * |s.lh| + 2 then s.(phase := Running, lh := [])
    else
      var v := View(s.disk, s.cache);
      var w := Tx(s.L, v, v, s.lh).Write(v, s.phase.k);
      Bwrite(s, w.0, w.1).(phase := Committing(s.phase.tx, s.phase.k + 1),
        committed := if s.phase.k == |s.lh| then |s.updates| else s.committed)
  }

  ghost function RecoverStepped(s: State): State
    requires Ready(s) && s.phase.Recovering?
  {
    var v, k := View(s.disk, s.cache), s.phase.k;
    if k < |s.lh| then
      Bwrite(s, s.lh[k], v[s.L.Slot(k)]).(phase := Recovering(s.phase.crashed, k + 1))
    else
      Bwrite(s, s.L.start, EncodeHead(v[s.L.start], [])).(phase := Running, lh := [])
  }

  ghost function Apply(s: State, e: Event): State
    requires Ready(s) && Enabled(s, e)
  {
    match e
    case BeginOp(p) => Begun(s, p)
    case Acquire(p, b) => Acquired(s, p, b)
    case Modify(p, b, data) => Modified(s, p, b, data)
    case LogWrite(p, b) => if LogPanics(s) then Crashed(s) else Logged(s, p, b)
    case Release(p, b) => s.(locks := s.locks - {b})
    case EndOp(p) => Ended(s, p)
    case CommitStep => CommitStepped(s)
    case Evict(b) => Evicted(s, b)
    case Crash => Crashed(s)
    case RecoverStep => RecoverStepped(s)
  }

  // ---------------------------------------------------------------- the invariant

  // Every buffer that is neither logged nor being modified agrees with the disk.
  ghost predicate CacheOk(s: State) {
    && |s.disk| == s.L.total
    && (forall b | b in s.cache :: b < s.L.total)
    && (forall b | b in s.locks :: b in s.cache)
    && (forall b | b in s.cache && !s.cache[b].dirty && !(b in s.locks && s.locks[b].modified) ::
          s.cache[b].data == s.disk[b])
  }

  // Exactly the logged blocks that are not yet installed are pinned by B_DIRTY.
  ghost predicate PinsOk(s: State) {
    && (forall b | b in s.cache && s.cache[b].dirty :: b in s.lh && Unpinned(s) <= IndexOf(s.lh, b))
    && (forall i | Unpinned(s) <= i < |s.lh| :: s.lh[i] in s.cache && s.cache[s.lh[i]].dirty)
  }

  ghost function IndexOf(h: seq<nat>, b: nat): (i: nat)
    requires b in h
    ensures i < |h| && h[i] == b
  {
    var i :| 0 <= i < |h| && h[i] == b;
    i
  }

  // How many blocks of the header are already installed.
  function Unpinned(s: State): (n: nat)
    ensures n <= |s.lh|
  {
    match s.phase
    case Running => 0
    case Committing(tx, k) => if tx.h == s.lh then tx.Installed(k) else 0
    case Recovering(_, _) => |s.lh|
  }

  ghost predicate OpsOk(s: State) {
    && s.outstanding == CountOps(s.ops)
    && (forall p | 0 <= p < |s.ops| && s.ops[p].Op? :: s.ops[p].appended <= MAXOPBLOCKS && s.ops[p].id < s.nextId)
    && (forall b | b in s.locks && s.locks[b].modified :: s.L.Home(b) && InOp(s, s.locks[b].owner))
  }

  // No operation is split by the commit point.
  ghost predicate Atomic(s: State) {
    && s.committed <= |s.updates|
    && UpdatesOk(s.L, s.updates)
    && (forall i | 0 <= i < |s.updates| :: s.updates[i].op < s.nextId)
    && (forall i, p | 0 <= i < s.committed && 0 <= p < |s.ops| && s.ops[p].Op? :: s.updates[i].op != s.ops[p].id)
    && (forall i, j | 0 <= i < s.committed <= j < |s.updates| :: s.updates[i].op != s.updates[j].op)
  }

  ghost function Durable(s: State): Disk
    requires |s.init| == s.L.total && s.committed <= |s.updates| && UpdatesOk(s.L, s.updates)
  {
    Replay(s.init, s.updates[..s.committed])
  }

  ghost predicate PhaseOk(s: State)
    requires s.L.Ok() && |s.init| == s.L.total == |s.disk| && Atomic(s)
  {
    match s.phase
    case Running =>
      && s.disk[s.L.start][0] == 0
      && |s.lh| + Reserved(s.ops) <= LOGSIZE
      && SameHome(s.L, s.disk, Durable(s))
      && (s.outstanding == 0 ==> s.lh == [] && s.committed == |s.updates|)
    case Committing(tx, k) =>
      && s.outstanding == 0
      && tx.Ok() && tx.L == s.L && tx.h == s.lh && k <= tx.Writes() && tx.Complete()
      && tx.Mid(s.disk, k)
      && SameHome(s.L, View(s.disk, s.cache), tx.logical)
      && SameHome(s.L, if k <= |s.lh| then tx.before else tx.logical, Durable(s))
      && (k > |s.lh| ==> s.committed == |s.updates|)
    case Recovering(d, k) =>
      && s.outstanding == 0 && s.locks == map[] && s.committed == |s.updates|
      && DiskOk(s.L, d) && s.lh == DecodeHead(d[s.L.start]) && k <= |s.lh|
      && s.disk == RecoverDisk(s.L, d, k)
      && SameHome(s.L, Recover(s.L, d), Durable(s))
  }

  // What the processes read through the cache is every change made so far.
  ghost predicate LogicalOk(s: State)
    requires |s.init| == s.L.total && Atomic(s)
  {
    s.phase.Recovering? || SameHome(s.L, View(s.disk, s.cache), Replay(s.init, s.updates))
  }

  ghost predicate Inv(s: State) {
    && s.L.Ok() && |s.init| == s.L.total
    && HeaderOk(s.L, s.lh)
    && CacheOk(s)
    && PinsOk(s)
    && OpsOk(s)
    && Atomic(s)
    && PhaseOk(s)
    && LogicalOk(s)
  }
}
