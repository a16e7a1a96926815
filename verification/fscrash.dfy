/** The file system over the log: whenever the machine crashes, and however often recovery is cut short,
    the disk it leaves is a consistent file system whose files are those after some first operations. */
module FsCrash {
  import opened Machine
  import opened Blocks
  import opened Bytes
  import opened FsSpec
  import opened FsOps
  import opened DiskFormat
  import opened FsFormat
  import opened Fs
  import opened LogSpec
  import opened LogProtocol
  import opened LogSafety

  // ---------------------------------------------------------------- a disk as a file system

  predicate SameLayout(L: Layout, sb: Superblock) {
    sb.Ok() && L.start == sb.logstart && L.size == sb.nlog && L.total == sb.size
  }

  function Inodes(d: Disk, sb: Superblock): (r: seq<Inode>)
    requires sb.Ok() && |d| == sb.size
    ensures |r| == sb.ninodes && forall i | 0 <= i < |r| :: r[i] == OnDisk(d, sb, i) && |r[i].addrs| == NDIRECT + 1
  {
    seq(sb.ninodes, i requires 0 <= i < sb.ninodes => OnDisk(d, sb, i))
  }

  // Each block in use belongs to one slot of one inode, the free map says so, and no file has holes.
  ghost predicate Consistent(d: Disk, sb: Superblock) {
    && SbOk(d, sb)
    && AllNoHoles(d, Inodes(d, sb))
    && exists owner :: Owned(d, sb, Inodes(d, sb), owner) && FreeMap(d, sb, owner.Keys)
  }

  function FileOf(d: Disk, ip: Inode): (s: seq<Byte>)
    requires |ip.addrs| == NDIRECT + 1
  {
    if ip.size <= MAXFILE * BSIZE then Contents(d, ip) else []
  }

  // The contents of every file.
  function FilesOf(d: Disk, sb: Superblock): (fs: seq<seq<Byte>>)
    requires sb.Ok() && |d| == sb.size
    ensures |fs| == sb.ninodes && forall i | 0 <= i < |fs| :: fs[i] == FileOf(d, Inodes(d, sb)[i])
  {
    var its := Inodes(d, sb);
    seq(|its|, i requires 0 <= i < |its| => FileOf(d, its[i]))
  }

  // ---------------------------------------------------------------- the log region does not matter

  lemma HomeInodes(L: Layout, sb: Superblock, d: Disk, e: Disk)
    requires SameLayout(L, sb) && SameHome(L, d, e)
    ensures Inodes(d, sb) == Inodes(e, sb) && d[1] == e[1]
  {
    hide DInode;
    forall i: nat | i < sb.ninodes
      ensures OnDisk(d, sb, i) == OnDisk(e, sb, i)
    {
      assert L.Home(sb.IBlock(i));
    }
    assert L.Home(1);
  }

  lemma HomePtr(L: Layout, sb: Superblock, d: Disk, e: Disk, its: seq<Inode>, owner: map<nat, Slot>, i: nat, s: nat)
    requires SameLayout(L, sb) && SameHome(L, d, e) && Owned(e, sb, its, owner) && i < |its| && s < SLOTS
    ensures Ptr(d, its[i], s) == Ptr(e, its[i], s)
  {
    OwnedPtr(e, sb, its, owner, i, INDIRECT);
    var a := its[i].addrs[INDIRECT];
    assert a != 0 ==> L.Home(a);
  }

  lemma HomeOwned(L: Layout, sb: Superblock, d: Disk, e: Disk, its: seq<Inode>, owner: map<nat, Slot>)
    requires SameLayout(L, sb) && SameHome(L, d, e) && Owned(e, sb, its, owner)
    ensures Owned(d, sb, its, owner)
    ensures forall i: nat, s: nat | i < |its| && s < SLOTS :: Ptr(d, its[i], s) == Ptr(e, its[i], s)
  {
    assert L.Home(1);
    hide Ptr; hide SameHome;
    forall i: nat, s: nat | i < |its| && s < SLOTS
      ensures Ptr(d, its[i], s) == Ptr(e, its[i], s)
    {
      HomePtr(L, sb, d, e, its, owner, i, s);
    }
    assert OwnersPoint(d, sb, its, owner);
  }

  lemma HomeMap(L: Layout, sb: Superblock, d: Disk, e: Disk, used: set<nat>)
    requires SameLayout(L, sb) && SameHome(L, d, e) && FreeMap(e, sb, used)
    ensures FreeMap(d, sb, used)
  {
    hide Bit;
    forall b: nat | b < sb.size
      ensures BitSet(d, sb, b) <==> (b < sb.DataStart() || b in used)
    {
      assert L.Home(sb.BBlock(b));
      assert BitSet(e, sb, b) <==> (b < sb.DataStart() || b in used);
    }
  }

  lemma HomeFile(L: Layout, sb: Superblock, d: Disk, e: Disk, its: seq<Inode>, owner: map<nat, Slot>, i: nat)
    requires SameLayout(L, sb) && SameHome(L, d, e) && Owned(e, sb, its, owner) && i < |its|
    ensures FileOf(d, its[i]) == FileOf(e, its[i])
  {
    hide Ptr; hide SlotOf; hide Unpack; hide SlotsOwn; hide OwnersPoint;
    forall o | 0 <= o < MAXFILE * BSIZE
      ensures FileByte(d, its[i], o) == FileByte(e, its[i], o)
    {
      var s := SlotOf(o / BSIZE);
      HomePtr(L, sb, d, e, its, owner, i, s);
      OwnedPtr(e, sb, its, owner, i, s);
      var a := Ptr(e, its[i], s);
      assert a != 0 ==> L.Home(a);
    }
  }

  // Two disks that differ in the log region only are the same file system.
  lemma HomeConsistent(L: Layout, sb: Superblock, d: Disk, e: Disk)
    requires SameLayout(L, sb) && SameHome(L, d, e) && Consistent(e, sb)
    ensures Consistent(d, sb) && FilesOf(d, sb) == FilesOf(e, sb)
  {
    hide SameHome; hide FreeMap; hide Ptr; hide OnDisk; hide SlotsOwn; hide OwnersPoint; hide FileOf;
    var its := Inodes(e, sb);
    var owner :| Owned(e, sb, its, owner) && FreeMap(e, sb, owner.Keys);
    HomeInodes(L, sb, d, e);
    HomeOwned(L, sb, d, e, its, owner);
    HomeMap(L, sb, d, e, owner.Keys);
    SamePtrNoHoles(d, e, its);
    hide AllNoHoles;
    forall i | 0 <= i < |its|
      ensures FileOf(d, its[i]) == FileOf(e, its[i])
    {
      HomeFile(L, sb, d, e, its, owner, i);
    }
  }

  lemma SamePtrNoHoles(d: Disk, e: Disk, its: seq<Inode>)
    requires forall i | 0 <= i < |its| :: |its[i].addrs| == NDIRECT + 1
    requires forall i: nat, s: nat | i < |its| && s < SLOTS :: Ptr(d, its[i], s) == Ptr(e, its[i], s)
    requires AllNoHoles(e, its)
    ensures AllNoHoles(d, its)
  {
    hide Ptr; hide SlotOf;
    forall i | 0 <= i < |its|
      ensures NoHoles(d, its[i])
    {
      assert NoHoles(e, its[i]);
    }
  }

  // ---------------------------------------------------------------- operations

  // What a transaction does: writei, or the freeing of an inode by iput.
  datatype Call = Write(inum: nat, off: nat, src: seq<Byte>) | Free(inum: nat)

  function Performed(fs: seq<seq<Byte>>, c: Call): (r: seq<seq<Byte>>)
    ensures |r| == |fs|
  {
    if c.inum >= |fs| then fs
    else
      match c
      case Write(inum, off, src) =>
        if off <= |fs[inum]| && off + |src| <= MAXFILE * BSIZE then fs[inum := SpliceFile(fs[inum], off, src)] else fs
      case Free(inum) => fs[inum := []]
  }

  // An operation that ran to its end, and its changes to blocks.
  datatype Done = Done(call: Call, op: nat, writes: seq<Update>)

  ghost predicate Fit(us: seq<Update>, n: nat) {
    forall i | 0 <= i < |us| :: us[i].bno < n
  }

  // Its changes take disk d to that of a consistent file system in which just its call has happened.
  ghost predicate DoneFrom(x: Done, sb: Superblock, d: Disk) {
    && SbOk(d, sb)
    && (forall i | 0 <= i < |x.writes| :: x.writes[i].op == x.op)
    && Fit(x.writes, |d|)
    && Consistent(Replay(d, x.writes), sb)
    && FilesOf(Replay(d, x.writes), sb) == Performed(FilesOf(d, sb), x.call)
  }

  // Nor does an operation depend on the log region.
  lemma {:induction false} ReplayHome(L: Layout, d: Disk, e: Disk, us: seq<Update>)
    requires SameHome(L, d, e) && Fit(us, L.total)
    ensures SameHome(L, Replay(d, us), Replay(e, us))
  {
    if us != [] {
      ReplayHome(L, d, e, us[..|us| - 1]);
    }
  }

  lemma DoneAnywhere(L: Layout, sb: Superblock, x: Done, d: Disk, e: Disk)
    requires SameLayout(L, sb) && SameHome(L, d, e) && Consistent(e, sb) && DoneFrom(x, sb, e)
    ensures DoneFrom(x, sb, d)
  {
    hide Consistent; hide FilesOf;
    HomeConsistent(L, sb, d, e);
    ReplayHome(L, d, e, x.writes);
    HomeConsistent(L, sb, Replay(d, x.writes), Replay(e, x.writes));
    assert SbOk(d, sb) by { assert L.Home(1); }
  }

  // ---------------------------------------------------------------- operations one after another

  function Flat(h: seq<Done>): (us: seq<Update>) {
    if h == [] then [] else Flat(h[..|h| - 1]) + h[|h| - 1].writes
  }

  function AllPerformed(fs: seq<seq<Byte>>, h: seq<Done>): (r: seq<seq<Byte>>) {
    if h == [] then fs else Performed(AllPerformed(fs, h[..|h| - 1]), h[|h| - 1].call)
  }

  ghost predicate History(sb: Superblock, init: Disk, h: seq<Done>) {
    if h == [] then Consistent(init, sb)
    else
      var g := h[..|h| - 1];
      History(sb, init, g) && Fit(Flat(g), |init|) && DoneFrom(h[|h| - 1], sb, Replay(init, Flat(g)))
  }

  lemma {:induction false} ReplayAppend(d: Disk, a: seq<Update>, b: seq<Update>)
    requires Fit(a, |d|) && Fit(b, |d|)
    ensures Fit(a + b, |d|) && Replay(d, a + b) == Replay(Replay(d, a), b)
  {
    if b == [] {
      assert a + b == a;
    } else {
      ReplayAppend(d, a, b[..|b| - 1]);
      assert (a + b)[..|a + b| - 1] == a + b[..|b| - 1];
    }
  }

  lemma {:induction false} HistoryEnds(sb: Superblock, init: Disk, h: seq<Done>)
    requires History(sb, init, h)
    ensures SbOk(init, sb) && Fit(Flat(h), |init|)
    ensures Consistent(Replay(init, Flat(h)), sb)
    ensures FilesOf(Replay(init, Flat(h)), sb) == AllPerformed(FilesOf(init, sb), h)
  {
    hide FilesOf; hide Performed;
    if h != [] {
      var g := h[..|h| - 1];
      HistoryEnds(sb, init, g);
      ReplayAppend(init, Flat(g), h[|h| - 1].writes);
    }
  }

  // A transaction run on what the log shows, after any crashes, adds to the history.
  lemma HistoryGrows(L: Layout, sb: Superblock, init: Disk, h: seq<Done>, x: Done, d: Disk)
    requires SameLayout(L, sb) && History(sb, init, h) && DoneFrom(x, sb, d)
    requires Fit(Flat(h), |init|) && SameHome(L, d, Replay(init, Flat(h)))
    ensures History(sb, init, h + [x])
  {
    hide Consistent; hide FilesOf; hide Replay; hide DoneFrom; hide Flat;
    var e := Replay(init, Flat(h));
    HistoryEnds(sb, init, h);
    HomeConsistent(L, sb, d, e);
    DoneAnywhere(L, sb, x, e, d);
    assert (h + [x])[..|h + [x]| - 1] == h;
  }

  lemma {:induction false} HistoryPrefix(sb: Superblock, init: Disk, h: seq<Done>, m: nat)
    requires History(sb, init, h) && m <= |h|
    ensures History(sb, init, h[..m])
    decreases |h|
  {
    hide DoneFrom; hide Consistent;
    if m == |h| {
      assert h[..m] == h;
    } else {
      HistoryPrefix(sb, init, h[..|h| - 1], m);
      assert h[..|h| - 1][..m] == h[..m];
    }
  }

  // ---------------------------------------------------------------- operations interleaved

  // The changes to block b, in order.
  function OnBlock(us: seq<Update>, b: nat): seq<Update> {
    if us == [] then []
    else
      var u := us[|us| - 1];
      OnBlock(us[..|us| - 1], b) + if u.bno == b then [u] else []
  }

  // The changes us are those of the operations h and of unfinished ones, tail, in some interleaving that
  // to each block is as if they had followed one another.
  ghost predicate Interleaves(us: seq<Update>, h: seq<Done>, tail: seq<Update>) {
    forall b: nat :: OnBlock(us, b) == OnBlock(Flat(h) + tail, b)
  }

  // Every operation has an identity of its own.
  ghost predicate Named(h: seq<Done>, tail: seq<Update>) {
    && (forall i, k | 0 <= i < |h| && 0 <= k < |h[i].writes| :: h[i].writes[k].op == h[i].op)
    && (forall i, j | 0 <= i < j < |h| :: h[i].op != h[j].op)
    && (forall i, k | 0 <= i < |h| && 0 <= k < |tail| :: h[i].op != tail[k].op)
  }

  ghost predicate Late(us: seq<Update>, o: nat, c: nat) {
    exists p :: c <= p < |us| && us[p].op == o
  }

  ghost predicate Early(us: seq<Update>, o: nat, c: nat) {
    exists p :: 0 <= p < c && p < |us| && us[p].op == o
  }

  ghost predicate Overlaps(us: seq<Update>, x: nat, y: nat) {
    exists p, q :: 0 <= p < q < |us| && us[p].op == x && us[q].op == y
  }

  // No operation was over before one ahead of it in h began.
  ghost predicate InOrder(us: seq<Update>, h: seq<Done>) {
    forall i, j | 0 <= i < j < |h| && Late(us, h[i].op, 0) && Late(us, h[j].op, 0) :: Overlaps(us, h[i].op, h[j].op)
  }

  // Point c splits no operation.
  ghost predicate Whole(us: seq<Update>, c: nat) {
    forall j, k | 0 <= j < |us| && 0 <= k < |us| && us[j].op == us[k].op :: j < c <==> k < c
  }

  lemma {:induction false} OnBlockConcat(a: seq<Update>, b: seq<Update>, n: nat)
    ensures OnBlock(a + b, n) == OnBlock(a, n) + OnBlock(b, n)
  {
    if b == [] {
      assert a + b == a;
    } else {
      OnBlockConcat(a, b[..|b| - 1], n);
      assert (a + b)[..|a + b| - 1] == a + b[..|b| - 1];
    }
  }

  lemma {:induction false} OnBlockHas(us: seq<Update>, n: nat, u: Update)
    ensures u in OnBlock(us, n) <==> u in us && u.bno == n
  {
    if us != [] {
      OnBlockHas(us[..|us| - 1], n, u);
      assert us == us[..|us| - 1] + [us[|us| - 1]];
    }
  }

  function LastData(d: Block, us: seq<Update>): Block {
    if us == [] then d else us[|us| - 1].data
  }

  lemma {:induction false} ReplayAt(d: Disk, us: seq<Update>, n: nat)
    requires Fit(us, |d|) && n < |d|
    ensures Replay(d, us)[n] == LastData(d[n], OnBlock(us, n))
  {
    if us != [] {
      ReplayAt(d, us[..|us| - 1], n);
    }
  }

  // What a sequence of changes makes of a disk depends on the order at each block only.
  lemma {:induction false} SameReplay(d: Disk, us: seq<Update>, ws: seq<Update>)
    requires Fit(us, |d|) && Fit(ws, |d|) && forall n: nat :: OnBlock(us, n) == OnBlock(ws, n)
    ensures Replay(d, us) == Replay(d, ws)
  {
    hide Replay;
    forall n: nat | n < |d|
      ensures Replay(d, us)[n] == Replay(d, ws)[n]
    {
      ReplayAt(d, us, n);
      ReplayAt(d, ws, n);
    }
  }

  lemma {:induction false} FlatSplit(h: seq<Done>, m: nat)
    requires m <= |h|
    ensures Flat(h) == Flat(h[..m]) + Flat(h[m..])
    decreases |h|
  {
    hide Flat;
    if m == |h| {
      assert h[..m] == h && h[m..] == [];
      FlatEmpty();
    } else {
      var a, b := h[..m], h[m..];
      FlatSplit(h[..|h| - 1], m);
      assert h[..|h| - 1][..m] == a && h[..|h| - 1][m..] == b[..|b| - 1];
      FlatLast(h);
      FlatLast(b);
      assert Flat(a) + Flat(b[..|b| - 1]) + h[|h| - 1].writes == Flat(a) + (Flat(b[..|b| - 1]) + h[|h| - 1].writes);
    }
  }

  lemma FlatEmpty()
    ensures Flat([]) == []
  {}

  lemma FlatLast(h: seq<Done>)
    requires h != []
    ensures Flat(h) == Flat(h[..|h| - 1]) + h[|h| - 1].writes
  {}

  // A change in a history is by one of its operations.
  lemma {:induction false} FlatBy(h: seq<Done>, u: Update)
    requires u in Flat(h) && Named(h, [])
    ensures exists i :: 0 <= i < |h| && h[i].op == u.op
  {
    var g, x := h[..|h| - 1], h[|h| - 1];
    if u in x.writes {
      assert h[|h| - 1].op == u.op;
    } else {
      assert u in Flat(g);
      NamedPrefix(h, |h| - 1);
      FlatBy(g, u);
      var i :| 0 <= i < |g| && g[i].op == u.op;
      assert h[i].op == u.op;
    }
  }

  lemma {:induction false} NamedPrefix(h: seq<Done>, m: nat)
    requires Named(h, []) && m <= |h|
    ensures Named(h[..m], []) && Named(h[m..], [])
  {}

  lemma {:induction false} FirstLate(us: seq<Update>, h: seq<Done>, c: nat, i: nat) returns (m: nat)
    requires i <= |h| && forall k | 0 <= k < i :: !Late(us, h[k].op, c)
    ensures m <= |h| && (forall k | 0 <= k < m :: !Late(us, h[k].op, c)) && (m < |h| ==> Late(us, h[m].op, c))
    decreases |h| - i
  {
    hide Late;
    if i == |h| || Late(us, h[i].op, c) {
      m := i;
    } else {
      m := FirstLate(us, h, c, i + 1);
    }
  }

  // The operations before point c are the first m.
  lemma {:induction false} CommittedFirst(us: seq<Update>, h: seq<Done>, c: nat) returns (m: nat)
    requires InOrder(us, h) && Whole(us, c)
    ensures m <= |h|
    ensures forall i | 0 <= i < m :: !Late(us, h[i].op, c)
    ensures forall i | m <= i < |h| :: !Early(us, h[i].op, c)
    ensures (forall i | 0 <= i < |h| :: !Late(us, h[i].op, c)) ==> m == |h|
  {
    m := FirstLate(us, h, c, 0);
    if m < |h| {
      var q :| c <= q < |us| && us[q].op == h[m].op;
      forall p | 0 <= p < c && p < |us|
        ensures us[p].op != h[m].op
      {
        assert us[p].op == us[q].op ==> (p < c <==> q < c);
      }
      forall i | m < i < |h|
        ensures !Early(us, h[i].op, c)
      {
        NotEarly(us, h, c, m, i);
      }
    }
  }

  lemma {:induction false} NotEarly(us: seq<Update>, h: seq<Done>, c: nat, m: nat, i: nat)
    requires InOrder(us, h) && Whole(us, c) && m < i < |h| && Late(us, h[m].op, c) && !Early(us, h[m].op, c)
    ensures !Early(us, h[i].op, c)
  {
    var q0 :| c <= q0 < |us| && us[q0].op == h[m].op;
    assert Late(us, h[m].op, 0);
    if Late(us, h[i].op, 0) {
      var p, q :| 0 <= p < q < |us| && us[p].op == h[m].op && us[q].op == h[i].op;
      assert c <= p;
      forall p0 | 0 <= p0 < |us| && us[p0].op == h[i].op
        ensures c <= p0
      {
        assert q < c <==> p0 < c;
      }
    }
  }

  // Two ways to cut the same changes in two, each with the operations in `first` before the cut, are one.
  lemma {:induction false} OneCut(x: seq<Update>, y: seq<Update>, v: seq<Update>, w: seq<Update>, first: set<nat>)
    requires x + y == v + w
    requires (forall u | u in x :: u.op in first) && (forall u | u in v :: u.op in first)
    requires (forall u | u in y :: u.op !in first) && (forall u | u in w :: u.op !in first)
    ensures x == v
  {
    NoLonger(x, y, v, w, first);
    NoLonger(v, w, x, y, first);
    assert x == (x + y)[..|x|] && v == (v + w)[..|v|];
  }

  lemma {:induction false} NoLonger(x: seq<Update>, y: seq<Update>, v: seq<Update>, w: seq<Update>, first: set<nat>)
    requires x + y == v + w && (forall u | u in v :: u.op in first) && (forall u | u in y :: u.op !in first)
    ensures |v| <= |x|
  {
    var z := x + y;
    assert forall k | 0 <= k < |v| :: z[k] == v[k] && z[k] in v;
    assert forall k | |x| <= k < |z| :: z[k] == y[k - |x|] && z[k] in y;
    assert |x| < |z| ==> z[|x|].op !in first;
  }

  // Up to point c the changes to each block are those of the first m operations.
  lemma {:induction false} CommittedChanges(us: seq<Update>, h: seq<Done>, tail: seq<Update>, c: nat, m: nat, n: nat)
    requires c <= |us| && m <= |h| && Named(h, tail) && Interleaves(us, h, tail)
    requires forall i | 0 <= i < m :: !Late(us, h[i].op, c)
    requires forall i | m <= i < |h| :: !Early(us, h[i].op, c)
    requires forall k | 0 <= k < |tail| :: !Early(us, tail[k].op, c)
    ensures OnBlock(us[..c], n) == OnBlock(Flat(h[..m]), n)
  {
    var first := set i | 0 <= i < m :: h[i].op;
    var rest := Flat(h[m..]) + tail;
    FlatSplit(h, m);
    assert us == us[..c] + us[c..] && Flat(h) + tail == Flat(h[..m]) + rest;
    OnBlockConcat(us[..c], us[c..], n);
    OnBlockConcat(Flat(h[..m]), rest, n);
    assert OnBlock(us, n) == OnBlock(Flat(h) + tail, n);
    forall u
      ensures u in OnBlock(us[..c], n) ==> u.op in first
      ensures u in OnBlock(us[c..], n) ==> u.op !in first
      ensures u in OnBlock(Flat(h[..m]), n) ==> u.op in first
      ensures u in OnBlock(rest, n) ==> u.op !in first
    {
      OnBlockHas(us[..c], n, u);
      OnBlockHas(us[c..], n, u);
      OnBlockHas(us, n, u);
      OnBlockHas(Flat(h) + tail, n, u);
      OnBlockHas(Flat(h[..m]), n, u);
      OnBlockHas(rest, n, u);
      FirstOnes(h, tail, m, u);
      SideOf(us, h, tail, c, m, u);
    }
    OneCut(OnBlock(us[..c], n), OnBlock(us[c..], n), OnBlock(Flat(h[..m]), n), OnBlock(rest, n), first);
  }

  lemma {:induction false} FirstOnes(h: seq<Done>, tail: seq<Update>, m: nat, u: Update)
    requires Named(h, tail) && m <= |h|
    ensures var first := set i | 0 <= i < m :: h[i].op;
      && (u in Flat(h[..m]) ==> u.op in first) && (u in Flat(h[m..]) + tail ==> u.op !in first)
  {
    NamedPrefix(h, m);
    hide Flat;
    if u in Flat(h[..m]) {
      FlatBy(h[..m], u);
      var i :| 0 <= i < |h[..m]| && h[..m][i].op == u.op;
      assert h[i].op == u.op;
    }
    if u in Flat(h[m..]) {
      FlatBy(h[m..], u);
      var i :| 0 <= i < |h[m..]| && h[m..][i].op == u.op;
      assert h[m + i].op == u.op;
    }
  }

  // A change before c is by one of the first m, and one after it is not.
  lemma {:induction false} SideOf(us: seq<Update>, h: seq<Done>, tail: seq<Update>, c: nat, m: nat, u: Update)
    requires c <= |us| && m <= |h| && Named(h, tail)
    requires forall i | 0 <= i < m :: !Late(us, h[i].op, c)
    requires forall i | m <= i < |h| :: !Early(us, h[i].op, c)
    requires forall k | 0 <= k < |tail| :: !Early(us, tail[k].op, c)
    ensures var first := set i | 0 <= i < m :: h[i].op;
      && (u in us[..c] && u in Flat(h) + tail ==> u.op in first) && (u in us[c..] ==> u.op !in first)
  {
    hide Flat;
    if u in us[..c] {
      var p :| 0 <= p < c && us[..c][p] == u;
      assert us[p].op == u.op;
      assert Early(us, u.op, c);
      NamedPrefix(h, |h|);
      assert h[..|h|] == h;
      if u in Flat(h) {
        FlatBy(h, u);
        var i :| 0 <= i < |h| && h[i].op == u.op;
        assert i < m;
      }
    }
    if u in us[c..] {
      var p :| 0 <= p < |us| - c && us[c..][p] == u;
      assert us[c + p].op == u.op;
      assert Late(us, u.op, c);
    }
  }

  ghost predicate ByRunning(s: State, us: seq<Update>) {
    forall i | 0 <= i < |us| :: exists p: nat :: InOp(s, p) && s.ops[p].id == us[i].op
  }

  // What is before the commit point is by no running operation, and if none runs nothing is unfinished.
  lemma {:induction false} UnfinishedAfter(s: State, tail: seq<Update>)
    requires Inv(s) && ByRunning(s, tail)
    ensures forall k | 0 <= k < |tail| :: !Early(s.updates, tail[k].op, s.committed)
    ensures Whole(s.updates, s.committed) && s.committed <= |s.updates| && UpdatesOk(s.L, s.updates)
  {
    hide PhaseOk; hide LogicalOk; hide CacheOk; hide PinsOk;
    forall k | 0 <= k < |tail|
      ensures !Early(s.updates, tail[k].op, s.committed)
    {
      var o := tail[k].op;
      assert exists q: nat :: InOp(s, q) && s.ops[q].id == o;
      var p: nat :| InOp(s, p) && s.ops[p].id == o;
      assert forall j | 0 <= j < s.committed :: s.updates[j].op != s.ops[p].id;
    }
  }

  // The main result. A state of any run of the logging system in which transactions, perhaps some of them
  // unfinished, have interleaved as if one had followed the other: crash there, and recover, with any
  // number of further crashes on the way. The disk is a consistent file system whose files are as after
  // the first m transactions, those before the commit point; and after all of them if none was running
  // and no commit was under way.
  lemma {:induction false} FilesSurviveCrashes(ss: seq<State>, i: nat, sb: Superblock, h: seq<Done>,
                                              tail: seq<Update>, rs: seq<Disk>)
    returns (m: nat)
    requires Run(ss) && i < |ss| && SameLayout(ss[i].L, sb)
    requires History(sb, ss[i].init, h) && Named(h, tail) && ByRunning(ss[i], tail)
    requires Interleaves(ss[i].updates, h, tail) && InOrder(ss[i].updates, h)
    requires Restarts(ss[i].L, rs) && rs[0] == ss[i].disk
    ensures m <= |h| && SbOk(ss[i].init, sb)
    ensures forall k | 0 <= k < |h| ::
              if k < m then !Late(ss[i].updates, h[k].op, ss[i].committed)
              else !Early(ss[i].updates, h[k].op, ss[i].committed)
    ensures var r := Recover(ss[i].L, rs[|rs| - 1]);
      Consistent(r, sb) && FilesOf(r, sb) == AllPerformed(FilesOf(ss[i].init, sb), h[..m])
    ensures ss[i].phase.Running? && ss[i].outstanding == 0 ==> m == |h|
  {
    hide Run; hide Inv; hide Consistent; hide FilesOf; hide Recover; hide Replay; hide History; hide Flat;
    hide SameHome; hide AllPerformed; hide Interleaves; hide InOrder; hide Named; hide ByRunning; hide Whole;
    hide OnBlock;
    var s := ss[i];
    RunKeeps(ss, i);
    EveryRunIsCrashSafe(ss, i);
    QuietMeansDurable(ss, i);
    UnfinishedAfter(s, tail);
    m := CommittedFirst(s.updates, h, s.committed);
    HistoryPrefix(sb, s.init, h, m);
    HistoryEnds(sb, s.init, h[..m]);
    forall n: nat
      ensures OnBlock(s.updates[..s.committed], n) == OnBlock(Flat(h[..m]), n)
    {
      CommittedChanges(s.updates, h, tail, s.committed, m, n);
    }
    SameReplay(s.init, s.updates[..s.committed], Flat(h[..m]));
    AnyNumberOfRestarts(s.L, rs);
    var d, e, f := Recover(s.L, rs[|rs| - 1]), Recover(s.L, s.disk), Replay(s.init, Flat(h[..m]));
    SameHomeTrans(s.L, d, e, f);
    HomeConsistent(s.L, sb, d, f);
  }

  // Transactions that do follow one another are such an interleaving.
  lemma {:induction false} SerialInterleaves(h: seq<Done>, tail: seq<Update>)
    requires Named(h, tail)
    ensures Interleaves(Flat(h) + tail, h, tail) && InOrder(Flat(h) + tail, h)
  {
    var us := Flat(h) + tail;
    forall i, j | 0 <= i < j < |h| && Late(us, h[i].op, 0) && Late(us, h[j].op, 0)
      ensures Overlaps(us, h[i].op, h[j].op)
    {
      SerialOverlap(h, tail, i, j);
    }
  }

  lemma {:induction false} SerialOverlap(h: seq<Done>, tail: seq<Update>, i: nat, j: nat)
    requires Named(h, tail) && i < j < |h|
    requires Late(Flat(h) + tail, h[i].op, 0) && Late(Flat(h) + tail, h[j].op, 0)
    ensures Overlaps(Flat(h) + tail, h[i].op, h[j].op)
  {
    var us := Flat(h) + tail;
    var p :| 0 <= p < |us| && us[p].op == h[i].op;
    var q :| 0 <= q < |us| && us[q].op == h[j].op;
    FlatSplit(h, j);
    assert us == Flat(h[..j]) + (Flat(h[j..]) + tail);
    FirstOnes(h, tail, j, us[p]);
    FirstOnes(h, tail, j, us[q]);
    hide Flat;
    assert p < |Flat(h[..j])| <= q;
  }

  // What the files are that a consistent disk has: the bytes of the blocks that each inode points to.
  lemma FilesOnDisk(d: Disk, sb: Superblock, i: nat)
    requires Consistent(d, sb) && i < sb.ninodes
    ensures sb.inodestart + i / 8 < |d|
    ensures var n := NodeAt(d, sb.inodestart, i);
      |FilesOf(d, sb)[i]| == n.size && HasBytes(d, n.addrs, 0, FilesOf(d, sb)[i])
  {
    hide Owned; hide FreeMap; hide AllNoHoles; hide OnDisk; hide NodeAt; hide Contents; hide HasBytes; hide NoHoles;
    var its := Inodes(d, sb);
    var owner :| Owned(d, sb, its, owner) && FreeMap(d, sb, owner.Keys);
    NodeIs(d, sb, i);
    NoHolesAt(d, its, i);
    ContentsAre(d, sb, its, owner, i, 0, its[i].size);
    assert Contents(d, its[i])[0..its[i].size] == Contents(d, its[i]);
  }

  // ---------------------------------------------------------------- the transactions of the code

  lemma SyncedConsistent(d: Disk, sb: Superblock, its: seq<Inode>, owner: map<nat, Slot>)
    requires Owned(d, sb, its, owner) && FreeMap(d, sb, owner.Keys) && AllNoHoles(d, its)
    requires forall i: nat | i < |its| :: OnDisk(d, sb, i) == its[i]
    ensures Consistent(d, sb) && Inodes(d, sb) == its
    ensures forall i | 0 <= i < |its| :: its[i].size <= MAXFILE * BSIZE && FilesOf(d, sb)[i] == Contents(d, its[i])
  {
    hide Owned; hide FreeMap; hide OnDisk; hide Contents; hide Mapped;
    assert Shape(d, sb, its) by { ShapeOf(d, sb, its, owner); }
    assert Inodes(d, sb) == its;
    assert forall i | 0 <= i < |its| :: NoHoles(d, its[i]);
  }

  lemma ShapeOf(d: Disk, sb: Superblock, its: seq<Inode>, owner: map<nat, Slot>)
    requires Owned(d, sb, its, owner)
    ensures Shape(d, sb, its)
  {}

  // Files of the same size and bytes are the same.
  lemma SameContents(d: Disk, ip: Inode, e: Disk, jp: Inode)
    requires |ip.addrs| == |jp.addrs| == NDIRECT + 1 && ip.size == jp.size <= MAXFILE * BSIZE
    requires forall o: nat | o < MAXFILE * BSIZE :: FileByte(d, ip, o) == FileByte(e, jp, o)
    ensures Contents(d, ip) == Contents(e, jp)
  {
    hide FileByte;
  }

  method WriteTx(fs: FileSystem, inum: nat, src: seq<Byte>, off: Uint, ghost id: nat)
    returns (ok: bool, r: int, ghost x: Done)
    requires fs.Inv() && fs.Synced() && inum < |fs.its| && fs.its[inum].typ != T_DEV && |src| < UINT
    modifies fs`disk, fs`its, fs`owner, fs`logged, fs`op, fs`start, fs`journal
    ensures ok ==> fs.Inv() && fs.Synced()
    ensures ok ==> x.call == Call.Write(inum, off, src) && x.op == id
    ensures ok ==> DoneFrom(x, fs.sb, old(fs.disk)) && fs.disk == Replay(old(fs.disk), x.writes)
  {
    hide Owned; hide FreeMap; hide FileByte; hide OnDisk; hide AllNoHoles; hide Contents; hide Consistent; hide FilesOf;
    hide FilesWritten; hide SpliceFile; hide Replay;
    ghost var d0, its0 := fs.disk, fs.its;
    ShapeOf(fs.disk, fs.sb, fs.its, fs.owner);
    SyncedConsistent(d0, fs.sb, its0, fs.owner);
    fs.Begin(id);
    ok, r := fs.Writei(inum, src, off, map[]);
    x := Done(Call.Write(inum, off, src), id, fs.journal);
    if ok {
      ShapeOf(fs.disk, fs.sb, fs.its, fs.owner);
      SyncedConsistent(fs.disk, fs.sb, fs.its, fs.owner);
      WritePerforms(d0, its0, fs.disk, fs.its, fs.sb, inum, off, src);
    }
  }

  lemma WritePerforms(d0: Disk, its0: seq<Inode>, d1: Disk, its1: seq<Inode>, sb: Superblock,
                      inum: nat, off: nat, src: seq<Byte>)
    requires Shape(d0, sb, its0) && Shape(d1, sb, its1) && inum < |its0|
    requires forall i | 0 <= i < |its0| ::
               its0[i].size <= MAXFILE * BSIZE && FilesOf(d0, sb)[i] == Contents(d0, its0[i])
    requires forall i | 0 <= i < |its1| ::
               its1[i].size <= MAXFILE * BSIZE && FilesOf(d1, sb)[i] == Contents(d1, its1[i])
    requires forall i | 0 <= i < |its0| && i != inum :: its1[i] == its0[i]
    requires if off <= its0[inum].size && off + |src| <= MAXFILE * BSIZE then
        && FilesWritten(d0, its0, d1, its1, inum, off, src)
        && Contents(d1, its1[inum]) == SpliceFile(Contents(d0, its0[inum]), off, src)
      else d1 == d0 && its1 == its0
    ensures FilesOf(d1, sb) == Performed(FilesOf(d0, sb), Call.Write(inum, off, src))
  {
    hide FileByte; hide SpliceFile; hide FilesOf;
    if off <= its0[inum].size && off + |src| <= MAXFILE * BSIZE {
      forall i | 0 <= i < |its0| && i != inum
        ensures Contents(d1, its1[i]) == Contents(d0, its0[i])
      {
        SameContents(d1, its1[i], d0, its0[i]);
      }
    }
  }

  method FreeTx(fs: FileSystem, inum: nat, ghost id: nat) returns (ghost x: Done)
    requires fs.Inv() && fs.Synced() && inum < |fs.its|
    modifies fs`disk, fs`sb, fs`its, fs`owner, fs`logged, fs`op, fs`start, fs`journal
    ensures fs.Inv() && fs.Synced() && fs.sb == old(fs.sb)
    ensures x.call == Call.Free(inum) && x.op == id
    ensures DoneFrom(x, fs.sb, old(fs.disk)) && fs.disk == Replay(old(fs.disk), x.writes)
  {
    hide Owned; hide FreeMap; hide FileByte; hide OnDisk; hide AllNoHoles; hide Contents; hide Consistent; hide FilesOf;
    hide Replay;
    ghost var d0, its0 := fs.disk, fs.its;
    ShapeOf(fs.disk, fs.sb, fs.its, fs.owner);
    SyncedConsistent(d0, fs.sb, its0, fs.owner);
    fs.Begin(id);
    fs.Free(inum);
    ShapeOf(fs.disk, fs.sb, fs.its, fs.owner);
    SyncedConsistent(fs.disk, fs.sb, fs.its, fs.owner);
    x := Done(Call.Free(inum), id, fs.journal);
    FreePerforms(d0, its0, fs.disk, fs.its, fs.sb, inum);
  }

  lemma FreePerforms(d0: Disk, its0: seq<Inode>, d1: Disk, its1: seq<Inode>, sb: Superblock, inum: nat)
    requires Shape(d0, sb, its0) && Shape(d1, sb, its1) && inum < |its0|
    requires forall i | 0 <= i < |its0| ::
               its0[i].size <= MAXFILE * BSIZE && FilesOf(d0, sb)[i] == Contents(d0, its0[i])
    requires forall i | 0 <= i < |its1| ::
               its1[i].size <= MAXFILE * BSIZE && FilesOf(d1, sb)[i] == Contents(d1, its1[i])
    requires forall i | 0 <= i < |its0| && i != inum :: its1[i] == its0[i]
    requires its1[inum].size == 0
    requires forall i: nat, o: nat {:trigger FileByte(d1, its1[i], o)} |
               i < |its1| && i != inum && o < MAXFILE * BSIZE ::
               FileByte(d1, its1[i], o) == FileByte(d0, its0[i], o)
    ensures FilesOf(d1, sb) == Performed(FilesOf(d0, sb), Call.Free(inum))
  {
    hide FileByte; hide FilesOf;
    forall i | 0 <= i < |its0| && i != inum
      ensures Contents(d1, its1[i]) == Contents(d0, its0[i])
    {
      SameContents(d1, its1[i], d0, its0[i]);
    }
    assert Contents(d1, its1[inum]) == [];
  }
}
