/** The redo log on disk: what a header block means, what one commit writes and in which order,
    and what a restart makes of the disk after a crash between any two of those writes. */
module LogSpec {
  import opened Machine
  import opened Blocks

  // The log occupies blocks [start, start + size): the header block, then the data slots.
  datatype Layout = Layout(start: nat, size: nat, total: nat) {
    predicate Ok() {
      1 <= size && start + size <= total <= UINT
    }

    predicate InLog(b: nat) {
      start <= b < start + size
    }

    predicate Home(b: nat) {
      b < total && !InLog(b)
    }

    function Slot(i: nat): nat {
      start + 1 + i
    }
  }

  // The block numbers of one transaction: distinct home blocks, one free slot for each.
  predicate HeaderOk(L: Layout, h: seq<nat>) {
    && |h| <= LOGSIZE
    && |h| < L.size
    && (forall i | 0 <= i < |h| :: L.Home(h[i]))
    && (forall i, j | 0 <= i < j < |h| :: h[i] != h[j])
  }

  // ---------------------------------------------------------------- header block

  // A header block holds `n` and then n block numbers.
  function DecodeHead(b: Block): (h: seq<nat>)
    requires b[0] < WORDS
  {
    seq(b[0], i requires 0 <= i < b[0] => b[i + 1])
  }

  // write_head: only `n` and the first n entries of the old header block change.
  function EncodeHead(b: Block, h: seq<nat>): (r: Block)
    requires |h| < WORDS && forall i | 0 <= i < |h| :: h[i] < UINT
    ensures r[0] == |h| && DecodeHead(r) == h && r[|h| + 1..] == b[|h| + 1..]
    ensures forall i | 0 <= i < |h| :: r[i + 1] == h[i]
  {
    [|h|] + h + b[|h| + 1..]
  }

  ghost predicate DiskOk(L: Layout, d: Disk) {
    && L.Ok()
    && |d| == L.total
    && d[L.start][0] <= LOGSIZE
    && HeaderOk(L, DecodeHead(d[L.start]))
  }

  ghost predicate SameHome(L: Layout, d: Disk, e: Disk) {
    |d| == |e| == L.total && forall b: nat | L.Home(b) :: d[b] == e[b]
  }

  // The header on disk is empty, and home blocks other than those of h and x are as on disk.
  ghost predicate Recorded(L: Layout, disk: Disk, logical: Disk, h: seq<nat>, x: set<nat>) {
    && L.Ok() && |disk| == |logical| == L.total
    && disk[L.start][0] == 0
    && forall b: nat | L.Home(b) && b !in h && b !in x :: logical[b] == disk[b]
  }

  // ---------------------------------------------------------------- restart

  // install_trans after k iterations: the k first log slots copied to their homes.
  function Install(L: Layout, d: Disk, h: seq<nat>, k: nat): (r: Disk)
    requires L.Ok() && |d| == L.total && HeaderOk(L, h) && k <= |h|
    ensures |r| == |d|
  {
    if k == 0 then d
    else
      var p := Install(L, d, h, k - 1);
      p[h[k - 1] := p[L.Slot(k - 1)]]
  }

  // Each block of h has in e what the blocks after the header block have in d.
  ghost predicate FromLog(start: nat, h: seq<nat>, d: Disk, e: Disk) {
    start + |h| < |d| && forall i: nat | i < |h| :: h[i] < |e| && e[h[i]] == d[start + i + 1]
  }

  // The blocks after the header block have in e what the blocks of h have in v.
  ghost predicate ToLog(start: nat, h: seq<nat>, v: Disk, e: Disk) {
    start + |h| < |e| && forall i: nat | i < |h| :: h[i] < |v| && e[start + i + 1] == v[h[i]]
  }

  // No home is in the log, so each home gets its slot and every other block keeps its contents.
  lemma {:induction false} InstallAt(L: Layout, d: Disk, h: seq<nat>, k: nat)
    requires L.Ok() && |d| == L.total && HeaderOk(L, h) && k <= |h|
    ensures forall i | 0 <= i < k :: Install(L, d, h, k)[h[i]] == d[L.Slot(i)] == d[L.start + i + 1]
    ensures forall b: nat | b < |d| && b !in h[..k] :: Install(L, d, h, k)[b] == d[b]
  {
    if k > 0 {
      InstallAt(L, d, h, k - 1);
      assert h[..k] == h[..k - 1] + [h[k - 1]];
      assert L.InLog(L.Slot(k - 1)) && L.Slot(k - 1) !in h[..k - 1];
    }
  }

  lemma InstalledFromLog(L: Layout, d: Disk, h: seq<nat>)
    requires L.Ok() && |d| == L.total && HeaderOk(L, h)
    ensures FromLog(L.start, h, d, Install(L, d, h, |h|))
  {
    InstallAt(L, d, h, |h|);
  }

  // recover_from_log run to its end.
  function Recover(L: Layout, d: Disk): (r: Disk)
    requires DiskOk(L, d)
  {
    var h := DecodeHead(d[L.start]);
    Install(L, d, h, |h|)[L.start := EncodeHead(d[L.start], [])]
  }

  // The disk after the first k block writes of recover_from_log.
  function RecoverDisk(L: Layout, d: Disk, k: nat): (r: Disk)
    requires DiskOk(L, d) && k <= |DecodeHead(d[L.start])| + 1
    ensures |r| == |d|
  {
    var h := DecodeHead(d[L.start]);
    if k <= |h| then Install(L, d, h, k) else Recover(L, d)
  }

  lemma CleanHead(L: Layout, d: Disk)
    requires L.Ok() && |d| == L.total && d[L.start][0] == 0
    ensures DiskOk(L, d) && DecodeHead(d[L.start]) == []
  {}

  // What Recover leaves in each home block.
  lemma RecoverAt(L: Layout, d: Disk)
    requires DiskOk(L, d)
    ensures var h := DecodeHead(d[L.start]); var r := Recover(L, d);
      && DiskOk(L, r) && DecodeHead(r[L.start]) == []
      && (forall i | 0 <= i < |h| :: r[h[i]] == d[L.Slot(i)])
      && (forall b: nat | L.Home(b) && b !in h :: r[b] == d[b])
  {
    var h := DecodeHead(d[L.start]);
    var r := Recover(L, d);
    InstallAt(L, d, h, |h|);
    CleanHead(L, r);
    assert h[..|h|] == h;
  }

  // The blocks of r are those of d with the log that starts at block `start` put in place. Word 0 of the
  // header block says how many blocks are logged, its word i where the i-th of them belongs, and the i-th
  // block after the header what it is to hold.
  ghost predicate PutInPlace(start: nat, d: Disk, r: Disk) {
    && |r| == |d| && start < |d| && d[start][0] <= 30 && start + d[start][0] < |d|
    && r[start] == d[start][0 := 0]
    && (forall i | 1 <= i <= d[start][0] :: d[start][i] < |r| && r[d[start][i]] == d[start + i])
    && (forall b: nat | b < |d| && b != start && b !in d[start][1..d[start][0] + 1] :: r[b] == d[b])
  }

  // The same without slots, headers and installing.
  lemma RecoveredBlocks(L: Layout, d: Disk)
    requires DiskOk(L, d)
    ensures PutInPlace(L.start, d, Recover(L, d))
  {
    var h := DecodeHead(d[L.start]);
    var r := Recover(L, d);
    InstallAt(L, d, h, |h|);
    assert h[..|h|] == h == d[L.start][1..|h| + 1];
    assert L.InLog(L.start);
    forall i | 1 <= i <= |h|
      ensures d[L.start][i] < |r| && r[d[L.start][i]] == d[L.start + i]
    {
      assert d[L.start][i] == h[i - 1];
    }
  }

  // A crash during recovery loses nothing: recovering again gives the same home blocks.
  lemma RecoveryRestarts(L: Layout, d: Disk, k: nat)
    requires DiskOk(L, d) && k <= |DecodeHead(d[L.start])| + 1
    ensures var e := RecoverDisk(L, d, k);
      DiskOk(L, e) && SameHome(L, Recover(L, e), Recover(L, d))
  {
    var h := DecodeHead(d[L.start]);
    var e := RecoverDisk(L, d, k);
    RecoverAt(L, d);
    if k <= |h| {
      InstallAt(L, d, h, k);
      assert L.InLog(L.start) && L.start !in h[..k];
      assert e[L.start] == d[L.start];
      RecoverAt(L, e);
      assert forall i | 0 <= i < |h| :: L.InLog(L.Slot(i)) && L.Slot(i) !in h[..k];
      forall b: nat | L.Home(b)
        ensures Recover(L, e)[b] == Recover(L, d)[b]
      {
        if b in h {
          var i :| 0 <= i < |h| && h[i] == b;
          assert Recover(L, e)[h[i]] == e[L.Slot(i)] == d[L.Slot(i)];
        } else {
          assert b !in h[..k];
        }
      }
    } else {
      RecoverAt(L, e);
    }
  }

  // One more block write of recover_from_log.
  lemma RecoverWrite(L: Layout, d: Disk, k: nat)
    requires DiskOk(L, d) && k <= |DecodeHead(d[L.start])|
    ensures var h, e := DecodeHead(d[L.start]), RecoverDisk(L, d, k);
      && e[L.start] == d[L.start]
      && RecoverDisk(L, d, k + 1) == if k < |h| then e[h[k] := e[L.Slot(k)]]
           else e[L.start := EncodeHead(e[L.start], [])]
  {
    InstallAt(L, d, DecodeHead(d[L.start]), k);
    assert L.InLog(L.start) && L.start !in DecodeHead(d[L.start])[..k];
  }

  // Any number of restarts, each of which may itself be cut short after any of its writes.
  ghost predicate Restarts(L: Layout, ds: seq<Disk>) {
    && |ds| > 0
    && (forall i | 0 <= i < |ds| :: DiskOk(L, ds[i]))
    && (forall i | 0 < i < |ds| :: CutRecovery(L, ds[i - 1], ds[i]))
  }

  ghost predicate CutRecovery(L: Layout, d: Disk, e: Disk)
    requires DiskOk(L, d)
  {
    exists k: nat | k <= |DecodeHead(d[L.start])| + 1 :: e == RecoverDisk(L, d, k)
  }

  lemma {:induction false} AnyNumberOfRestarts(L: Layout, ds: seq<Disk>)
    requires Restarts(L, ds)
    ensures SameHome(L, Recover(L, ds[|ds| - 1]), Recover(L, ds[0]))
  {
    if |ds| > 1 {
      var ms := ds[..|ds| - 1];
      AnyNumberOfRestarts(L, ms);
      var d, e := ds[|ds| - 2], ds[|ds| - 1];
      assert CutRecovery(L, d, e);
      var k: nat :| k <= |DecodeHead(d[L.start])| + 1 && e == RecoverDisk(L, d, k);
      RecoveryRestarts(L, d, k);
    }
  }

  // ---------------------------------------------------------------- commit

  // The contents v of the blocks h are in the blocks of d after the header block, and of those at home.
  ghost predicate Saved(start: nat, h: seq<nat>, v: Disk, d: Disk) {
    && start + |h| < |d| == |v| && d[start][0] == 0
    && forall i: nat | i < |h| :: h[i] < |v| && d[start + i + 1] == v[h[i]] == d[h[i]]
  }

  // One transaction: the disk before it, the contents the cache holds for each block, and the
  // block numbers in the in-memory header.
  datatype Tx = Tx(L: Layout, before: Disk, logical: Disk, h: seq<nat>) {

    ghost predicate Ok() {
      L.Ok() && |before| == |logical| == L.total && HeaderOk(L, h)
    }

    // The number of block writes in commit().
    function Writes(): nat {
      2 * |h| + 2
    }

    // The k-th block write of commit(): first the log slots, then the header, then the homes,
    // then the emptied header.
    ghost function Write(d: Disk, k: nat): (w: (nat, Block))
      requires Ok() && |d| == L.total && k < Writes()
      ensures w.0 < L.total
    {
      if k < |h| then (L.Slot(k), logical[h[k]])
      else if k == |h| then (L.start, EncodeHead(d[L.start], h))
      else if k <= 2 * |h| then (h[k - |h| - 1], d[L.Slot(k - |h| - 1)])
      else (L.start, EncodeHead(d[L.start], []))
    }

    ghost function After(d: Disk, k: nat): (e: Disk)
      requires Ok() && |d| == L.total && k < Writes()
      ensures |e| == L.total
    {
      var w := Write(d, k);
      d[w.0 := w.1]
    }

    // The successive disks of a commit() cut short after |ds| - 1 block writes.
    ghost predicate Trace(ds: seq<Disk>)
      requires Ok()
    {
      && 1 <= |ds| <= Writes() + 1
      && ds[0] == before
      && (forall i | 0 <= i < |ds| :: |ds[i]| == L.total)
      && (forall i | 0 <= i < |ds| - 1 :: ds[i + 1] == After(ds[i], i))
    }

    // write_log after k iterations.
    ghost function Filled(d: Disk, k: nat): (e: Disk)
      requires Ok() && |d| == L.total && k <= |h|
      ensures |e| == L.total
    {
      if k == 0 then d else Filled(d, k - 1)[L.Slot(k - 1) := logical[h[k - 1]]]
    }

    lemma TraceSnoc(ds: seq<Disk>, d: Disk)
      requires Ok() && Trace(ds) && |ds| <= Writes()
      requires |d| == L.total && d == After(ds[|ds| - 1], |ds| - 1)
      ensures Trace(ds + [d])
    {}

    // The block writes of commit() one by one: the copies into the log, the header, the copies to the
    // homes, and the header emptied.
    lemma WritesAre(ds: seq<Disk>, k: nat)
      requires Ok() && Trace(ds) && k + 1 < |ds|
      ensures |ds[k]| == |ds[k + 1]| == L.total && |h| <= 30
      ensures k < |h| ==> ds[k + 1] == ds[k][L.start + k + 1 := logical[h[k]]]
      ensures k == |h| ==> var e := ds[k + 1][L.start];
        && ds[k + 1] == ds[k][L.start := e] && e[0] == |h| && (forall i | 0 <= i < |h| :: e[i + 1] == h[i])
        && (forall i | |h| < i < WORDS :: e[i] == ds[k][L.start][i])
      ensures |h| < k <= 2 * |h| ==> ds[k + 1] == ds[k][h[k - |h| - 1] := ds[k][L.start + k - |h|]]
      ensures k == 2 * |h| + 1 ==> ds[k + 1] == ds[k][L.start := ds[k][L.start][0 := 0]]
    {
      assert ds[k + 1] == After(ds[k], k);
      if k == |h| {
        var b, e := ds[k][L.start], ds[k + 1][L.start];
        assert e[|h| + 1..] == b[|h| + 1..];
        assert forall i | |h| < i < WORDS :: e[i] == e[|h| + 1..][i - |h| - 1];
      }
      if k == 2 * |h| + 1 {
        assert EncodeHead(ds[k][L.start], []) == ds[k][L.start][0 := 0];
      }
    }

    // The copies write_log makes begin a commit.
    lemma {:induction false} TraceFill(ds: seq<Disk>)
      requires Ok() && 1 <= |ds| <= |h| + 1
      requires forall k | 0 <= k < |ds| :: ds[k] == Filled(before, k)
      ensures Trace(ds)
    {
      if |ds| > 1 {
        var m := ds[..|ds| - 1];
        TraceFill(m);
        TraceSnoc(m, ds[|ds| - 1]);
        assert ds == m + [ds[|ds| - 1]];
      }
    }

    // Once the slots are filled, installing them gives each home its logical contents.
    lemma InstallRestores(v: Disk, v': Disk)
      requires Ok() && |v| == |v'| == L.total && v' == Install(L, v, h, |h|)
      requires forall i: nat | i < |h| :: v[L.Slot(i)] == logical[h[i]]
      requires forall b: nat | L.Home(b) :: v[b] == logical[b]
      ensures forall b: nat | L.Home(b) :: v'[b] == logical[b]
    {
      InstallAt(L, v, h, |h|);
      assert h[..|h|] == h;
      forall b: nat | L.Home(b)
        ensures v'[b] == logical[b]
      {
        if b in h {
          var i :| 0 <= i < |h| && h[i] == b;
          assert v'[h[i]] == v[L.Slot(i)];
        }
      }
    }

    lemma {:induction false} FilledAt(d: Disk, k: nat)
      requires Ok() && |d| == L.total && k <= |h|
      ensures forall i: nat | i < k :: Filled(d, k)[L.Slot(i)] == logical[h[i]]
    {
      if k > 0 {
        FilledAt(d, k - 1);
      }
    }

    lemma FilledLog()
      requires Ok()
      ensures ToLog(L.start, h, logical, Filled(before, |h|))
    {
      FilledAt(before, |h|);
      forall i: nat | i < |h|
        ensures Filled(before, |h|)[L.start + i + 1] == logical[h[i]]
      {
        assert Filled(before, |h|)[L.Slot(i)] == logical[h[i]];
      }
    }

    lemma InstallIsAfter(d: Disk, j: nat)
      requires Ok() && |d| == L.total && j < |h|
      ensures After(Install(L, d, h, j), |h| + 1 + j) == Install(L, d, h, j + 1)
    {}

    lemma InstalledLast(ds: seq<Disk>, m: seq<Disk>)
      requires Ok() && |ds| == |h| + 2 && |m| <= |h| && |ds[|h| + 1]| == L.total
      requires forall k | 0 <= k < |m| :: m[k] == Install(L, ds[|h| + 1], h, k + 1)
      ensures (ds + m)[|ds + m| - 1] == Install(L, ds[|h| + 1], h, |m|)
    {}

    lemma TraceStart(ds: seq<Disk>)
      requires Ok() && Trace(ds)
      ensures |ds| >= 1 && ds[0] == before
    {}

    lemma TraceSizes(ds: seq<Disk>, k: nat)
      requires Ok() && Trace(ds) && k < |ds|
      ensures |ds[k]| == L.total
    {}

    // The copies install_trans makes continue it.
    lemma {:induction false} TraceInstall(ds: seq<Disk>, es: seq<Disk>)
      requires Ok() && Trace(ds) && |ds| == |h| + 2 && |es| <= |h|
      requires forall k | 0 <= k < |es| :: es[k] == Install(L, ds[|h| + 1], h, k + 1)
      ensures Trace(ds + es)
    {
      hide After; hide HeaderOk; hide Trace; hide Install;
      if es == [] {
        assert ds + es == ds;
      } else {
        var m, d := es[..|es| - 1], es[|es| - 1];
        TraceInstall(ds, m);
        TraceSizes(ds, |h| + 1);
        InstalledLast(ds, m);
        InstallIsAfter(ds[|h| + 1], |m|);
        TraceSnoc(ds + m, d);
        assert ds + es == ds + m + [d];
      }
    }

    // How many homes the first k writes have installed.
    function Installed(k: nat): (i: nat)
      ensures i <= |h|
    {
      if k <= |h| then 0 else if k - |h| - 1 <= |h| then k - |h| - 1 else |h|
    }

    ghost predicate Homes(d: Disk, n: nat)
      requires Ok() && |d| == L.total
    {
      && (forall i: nat | i < |h| :: d[h[i]] == if i < n then logical[h[i]] else before[h[i]])
      && (forall b: nat | L.Home(b) && b !in h :: d[b] == before[b])
    }

    // What the disk holds after k of the writes.
    ghost predicate Mid(d: Disk, k: nat)
      requires Ok() && |d| == L.total && k <= Writes()
    {
      && (forall i: nat | i < |h| && i < k :: d[L.Slot(i)] == logical[h[i]])
      && (if k <= |h| || k == Writes() then d[L.start][0] == 0
          else d[L.start][0] == |h| && DecodeHead(d[L.start]) == h)
      && Homes(d, Installed(k))
    }

    // A write into the log region leaves the home blocks alone.
    lemma LogWriteKeepsHomes(d: Disk, n: nat, b: nat, v: Block)
      requires Ok() && |d| == L.total && Homes(d, n) && L.InLog(b)
      ensures Homes(d[b := v], n)
    {}

    lemma SlotStep(d: Disk, k: nat)
      requires Ok() && |d| == L.total && k < |h| && Mid(d, k)
      ensures Mid(After(d, k), k + 1)
    {
      LogWriteKeepsHomes(d, 0, L.Slot(k), logical[h[k]]);
    }

    lemma HeadStep(d: Disk)
      requires Ok() && |d| == L.total && Mid(d, |h|)
      ensures Mid(After(d, |h|), |h| + 1)
    {
      hide Ok; hide Mid; hide Homes; hide After; hide EncodeHead; hide HeaderOk; hide DecodeHead;
      HeadWrites(d);
      MidParts(d, |h|);
      LogWriteKeepsHomes(d, 0, L.start, EncodeHead(d[L.start], h));
      MidIf(After(d, |h|), |h| + 1);
    }

    // What Mid says, with a bound for each index.
    ghost predicate Slots(d: Disk, n: nat) {
      forall i: nat | i < |h| && i < n :: L.Slot(i) < |d| && h[i] < |logical| && d[L.Slot(i)] == logical[h[i]]
    }

    lemma MidParts(d: Disk, k: nat)
      requires Ok() && |d| == L.total && k <= Writes() && Mid(d, k)
      ensures L.start < |d| && Slots(d, k) && Homes(d, Installed(k))
    {}

    lemma MidIf(d: Disk, k: nat)
      requires Ok() && |d| == L.total && k <= Writes() && Slots(d, k) && Homes(d, Installed(k)) && L.start < |d|
      requires if k <= |h| || k == Writes() then d[L.start][0] == 0
               else d[L.start][0] == |h| && |h| < WORDS && DecodeHead(d[L.start]) == h
      ensures Mid(d, k)
    {}

    // Writing the header touches no other block of the log.
    lemma HeadWrites(d: Disk)
      requires Ok() && |d| == L.total
      ensures L.start < |d| && L.InLog(L.start) && |h| < WORDS && forall i | 0 <= i < |h| :: h[i] < UINT
      ensures forall i: nat | i < |h| :: L.Slot(i) < |d| && L.Slot(i) != L.start
      ensures var e := EncodeHead(d[L.start], h);
        After(d, |h|) == d[L.start := e] && e[0] == |h| && DecodeHead(e) == h
      ensures var e := EncodeHead(d[L.start], []); After(d, 2 * |h| + 1) == d[L.start := e] && e[0] == 0
    {
      assert forall i: nat | i < |h| :: L.InLog(L.Slot(i));
    }


    lemma HomeStep(d: Disk, i: nat)
      requires Ok() && |d| == L.total && i < |h| && Mid(d, |h| + 1 + i)
      ensures Mid(After(d, |h| + 1 + i), |h| + 2 + i)
    {
      var e := After(d, |h| + 1 + i);
      HomeWrite(d, i);
      hide After; hide HeaderOk;
      assert forall j: nat | j < |h| :: e[L.Slot(j)] == logical[h[j]];
    }

    // Installing a block touches nothing in the log.
    lemma HomeWrite(d: Disk, i: nat)
      requires Ok() && |d| == L.total && i < |h|
      ensures h[i] < |d| && L.start < |d| && forall j: nat | j < |h| :: L.Slot(j) < |d|
      ensures After(d, |h| + 1 + i) == d[h[i] := d[L.Slot(i)]]
      ensures h[i] != L.start && forall j: nat | j < |h| :: L.Slot(j) != h[i]
    {
      assert L.InLog(L.start) && forall j: nat | j < |h| :: L.InLog(L.Slot(j));
    }

    lemma ClearStep(d: Disk)
      requires Ok() && |d| == L.total && Mid(d, 2 * |h| + 1)
      ensures Mid(After(d, 2 * |h| + 1), Writes())
    {
      hide Ok; hide Mid; hide Homes; hide After; hide EncodeHead; hide HeaderOk; hide DecodeHead;
      HeadWrites(d);
      MidParts(d, 2 * |h| + 1);
      LogWriteKeepsHomes(d, |h|, L.start, EncodeHead(d[L.start], []));
      MidIf(After(d, 2 * |h| + 1), Writes());
    }

    lemma Step(d: Disk, k: nat)
      requires Ok() && |d| == L.total && k < Writes() && Mid(d, k)
      ensures Mid(After(d, k), k + 1)
    {
      hide Tx.Mid; hide Tx.After; hide HeaderOk;
      if k < |h| {
        SlotStep(d, k);
      } else if k == |h| {
        HeadStep(d);
      } else if k <= 2 * |h| {
        HomeStep(d, k - |h| - 1);
      } else {
        ClearStep(d);
      }
    }

    lemma Start()
      requires Ok() && before[L.start][0] == 0
      ensures Mid(before, 0)
    {}

    lemma TraceAt(ds: seq<Disk>, k: nat)
      requires Ok() && Trace(ds) && k < |ds|
      ensures k <= Writes() && |ds[k]| == L.total && ds[0] == before
      ensures k > 0 ==> |ds[k - 1]| == L.total && ds[k] == After(ds[k - 1], k - 1)
    {
      hide After; hide HeaderOk;
      if k > 0 {
        assert ds[k - 1 + 1] == After(ds[k - 1], k - 1);
      }
    }

    lemma {:induction false} TraceShape(ds: seq<Disk>, k: nat)
      requires Ok() && before[L.start][0] == 0 && Trace(ds) && k < |ds|
      ensures |ds[k]| == L.total && k <= Writes() && Mid(ds[k], k)
    {
      hide After; hide HeaderOk; hide Trace; hide Mid;
      TraceAt(ds, k);
      if k == 0 {
        Start();
      } else {
        TraceShape(ds, k - 1);
        Step(ds[k - 1], k - 1);
      }
    }

    // What recovery makes of a commit cut short: nothing of it up to the header write, all after.
    lemma MidRecovers(d: Disk, k: nat)
      requires Ok() && |d| == L.total && k <= Writes() && Mid(d, k)
      ensures DiskOk(L, d)
      ensures forall b: nat | L.Home(b) ::
        Recover(L, d)[b] == if k > |h| && b in h then logical[b] else before[b]
    {
      if |h| < k < Writes() {
        RecoverAt(L, d);
        forall b: nat | L.Home(b)
          ensures Recover(L, d)[b] == if b in h then logical[b] else before[b]
        {
          if b in h {
            var i :| 0 <= i < |h| && h[i] == b;
            assert Recover(L, d)[h[i]] == d[L.Slot(i)];
          }
        }
      } else {
        CleanHead(L, d);
        RecoverAt(L, d);
      }
    }

    // The cache differs from the disk only in the blocks of this transaction.
    ghost predicate Complete()
      requires Ok()
    {
      && before[L.start][0] == 0
      && (forall b: nat | L.Home(b) && b !in h :: logical[b] == before[b])
    }

    lemma RecordedIsComplete()
      requires Ok() && Recorded(L, before, logical, h, {})
      ensures Complete()
    {}

    // At the end of a commit nothing is left to record.
    lemma CommittedRecords(ds: seq<Disk>, v: Disk)
      requires Ok() && Complete() && Trace(ds) && |ds| == Writes() + 1 && |v| == L.total
      requires forall b: nat | L.Home(b) :: v[b] == logical[b]
      ensures Recorded(L, ds[|ds| - 1], v, [], {})
    {
      TraceShape(ds, |ds| - 1);
      var d := ds[|ds| - 1];
      forall b: nat | L.Home(b)
        ensures v[b] == d[b]
      {
        if b in h {
          var i: nat :| i < |h| && h[i] == b;
          assert d[h[i]] == logical[h[i]];
        }
      }
    }

    // At the end of a commit both copies of every logged block are on disk.
    lemma CommittedBlocks(ds: seq<Disk>)
      requires Ok() && before[L.start][0] == 0 && Trace(ds) && |ds| == Writes() + 1
      ensures Saved(L.start, h, logical, ds[Writes()])
    {
      TraceShape(ds, Writes());
      forall i: nat | i < |h|
        ensures ds[Writes()][L.start + i + 1] == logical[h[i]]
      {
        assert ds[Writes()][L.Slot(i)] == logical[h[i]];
      }
    }

    // The commit point: for a crash after k of the block writes of commit(), recovery restores
    // the contents before the transaction if the header is not yet written, and else those after.
    lemma CommitIsAtomic(ds: seq<Disk>, k: nat)
      requires Ok() && Complete() && Trace(ds) && k < |ds|
      ensures DiskOk(L, ds[k])
      ensures SameHome(L, Recover(L, ds[k]), if k <= |h| then before else logical)
    {
      TraceShape(ds, k);
      MidRecovers(ds[k], k);
      RecoverAt(L, ds[k]);
      var e := if k <= |h| then before else logical;
      assert forall b: nat | L.Home(b) :: Recover(L, ds[k])[b] == e[b];
    }

    // Every disk of a commit, whole or cut short, recovers to all of the transaction or to none.
    ghost predicate CrashSafe(ds: seq<Disk>)
      requires Ok()
    {
      forall k: nat | k < |ds| ::
        DiskOk(L, ds[k]) && SameHome(L, Recover(L, ds[k]), if k <= |h| then before else logical)
    }

    lemma TraceIsCrashSafe(ds: seq<Disk>)
      requires Ok() && Complete() && Trace(ds)
      ensures CrashSafe(ds)
    {
      forall k: nat | k < |ds|
        ensures DiskOk(L, ds[k]) && SameHome(L, Recover(L, ds[k]), if k <= |h| then before else logical)
      {
        CommitIsAtomic(ds, k);
      }
    }

    // ... and however many restarts follow, each cut short anywhere.
    lemma CommitSurvivesCrashes(ds: seq<Disk>, k: nat, rs: seq<Disk>)
      requires Ok() && Complete() && Trace(ds) && k < |ds|
      requires Restarts(L, rs) && rs[0] == ds[k]
      ensures SameHome(L, Recover(L, rs[|rs| - 1]), if k <= |h| then before else logical)
    {
      CommitIsAtomic(ds, k);
      AnyNumberOfRestarts(L, rs);
    }
  }
}
