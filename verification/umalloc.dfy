/** The Kernighan and Ritchie allocator: an address-ordered circular free list threaded through
    block headers. Addresses count header units; 0 is the null pointer. */
module Umalloc {
  import opened Machine

  const HEADER: nat := 8  // sizeof(Header)

  datatype Option<T> = None | Some(value: T)

  // The position after i in a ring of n.
  function Succ(i: nat, n: nat): (j: nat)
    requires i < n
    ensures j < n
  {
    if i + 1 < n then i + 1 else 0
  }

  // How many steps lead from i to j in a ring of n.
  function Steps(i: nat, j: nat, n: nat): (d: nat)
    requires i < n && j < n
    ensures d < n
  {
    if i <= j then j - i else j - i + n
  }

  ghost predicate Rising(ring: seq<int>) {
    forall i, j | 0 <= i < j < |ring| :: ring[i] < ring[j]
  }

  ghost predicate LinkedAt(ring: seq<int>, ptr: map<int, int>, i: nat)
    requires i < |ring|
  {
    ring[i] in ptr && ptr[ring[i]] == ring[Succ(i, |ring|)]
  }

  ghost predicate Linked(ring: seq<int>, ptr: map<int, int>) {
    && (forall i | 0 <= i < |ring| :: ring[i] in ptr)
    && (forall i | 0 <= i < |ring| :: LinkedAt(ring, ptr, i))
  }

  lemma StepsSucc(i: nat, j: nat, n: nat)
    requires i < n && j < n
    ensures i != j ==> Steps(Succ(i, n), j, n) == Steps(i, j, n) - 1
    ensures Succ(j, n) != i ==> Steps(i, Succ(j, n), n) == Steps(i, j, n) + 1
    ensures Steps(Succ(i, n), i, n) == n - 1
  {}

  // The free list: a ring that starts at the static header `base`, rises in address, and wraps
  // only after its last block.
  ghost predicate RingOk(base: int, ring: seq<int>, ptr: map<int, int>) {
    |ring| > 0 && ring[0] == base && Rising(ring) && Linked(ring, ptr)
  }

  // Every block, free or allocated, has its size in its header and lies between base and brk.
  ghost predicate HeadersOk(base: int, brk: int, size: map<int, int>, blocks: map<int, int>) {
    forall a | a in blocks :: a in size && size[a] == blocks[a] >= 1 && base < a && a + blocks[a] <= brk
  }

  // The blocks tile the memory obtained from sbrk: `owner` maps each of its units to the one
  // block the unit belongs to.
  ghost predicate TilesOk(blocks: map<int, int>, owner: map<int, int>) {
    && (forall x | x in owner :: InBlock(blocks, owner[x], x))
    && (forall a, x | InBlock(blocks, a, x) :: x in owner && owner[x] == a)
  }

  predicate InBlock(blocks: map<int, int>, a: int, x: int) {
    a in blocks && a <= x < a + blocks[a]
  }

  // The free blocks are among the blocks, and no two of them touch, except where `loose` says
  // that two neighbours may.
  ghost predicate GapsOk(ring: seq<int>, blocks: map<int, int>, loose: set<int>) {
    && (forall i | 1 <= i < |ring| :: ring[i] in blocks)
    && (forall i | 1 <= i < |ring| - 1 :: End(blocks, ring[i]) <= ring[i + 1])
    && (forall i | 1 <= i < |ring| - 1 && i !in loose :: End(blocks, ring[i]) != ring[i + 1])
  }

  function End(blocks: map<int, int>, a: int): int {
    if a in blocks then a + blocks[a] else a
  }

  lemma BlocksDisjoint(blocks: map<int, int>, owner: map<int, int>, a: int, b: int)
    requires TilesOk(blocks, owner) && a in blocks && b in blocks && a < b && blocks[b] >= 1
    ensures a + blocks[a] <= b
  {
    assert InBlock(blocks, b, b) && !InBlock(blocks, a, b);
  }

  // p is the last free block below bp.
  ghost predicate LastBelow(ring: seq<int>, bp: int, p: int) {
    p in ring && p < bp && forall x | x in ring :: x < bp ==> x <= p
  }

  // A search that starts after the free block f meets x before it comes to a.
  predicate MetBefore(f: int, x: int, a: int) {
    if f < a then f < x < a else f < x || x < a
  }

  // a is the first free block after f that has n units.
  ghost predicate FirstFit(ring: seq<int>, size: map<int, int>, f: int, n: int, a: int) {
    && f in ring && a in ring && a in size && size[a] >= n
    && forall x | x in ring && MetBefore(f, x, a) :: x in size && size[x] < n
  }

  lemma PlaceIsLast(ring: seq<int>, i: nat, bp: int)
    requires Rising(ring) && Place(ring, i, bp)
    ensures LastBelow(ring, bp, ring[i])
  {
    forall k | 0 <= k < |ring|
      ensures ring[k] < bp ==> ring[k] <= ring[i]
    {
      assert k > i ==> ring[i + 1] <= ring[k];
    }
  }

  lemma BeforeIsLast(ring: seq<int>, i: nat)
    requires Rising(ring) && 1 <= i < |ring|
    ensures LastBelow(ring, ring[i], ring[i - 1])
  {
    forall k | 0 <= k < |ring| && ring[k] < ring[i]
      ensures ring[k] <= ring[i - 1]
    {
      assert k < i;
    }
  }

  // ---------------------------------------------------------------- the ring

  // Where bp belongs: after ring[i].
  ghost predicate Place(ring: seq<int>, i: nat, bp: int) {
    i < |ring| && ring[i] < bp && (i + 1 < |ring| ==> bp < ring[i + 1])
  }

  function Inserted(ring: seq<int>, i: nat, bp: int): (r: seq<int>)
    requires i < |ring|
    ensures |r| == |ring| + 1
    ensures forall k | 0 <= k < |r| :: r[k] == if k <= i then ring[k] else if k == i + 1 then bp else ring[k - 1]
  {
    ring[..i + 1] + [bp] + ring[i + 1..]
  }

  function Removed(ring: seq<int>, i: nat): (r: seq<int>)
    requires i < |ring|
    ensures |r| == |ring| - 1
    ensures forall k | 0 <= k < |r| :: r[k] == if k < i then ring[k] else ring[k + 1]
  {
    ring[..i] + ring[i + 1..]
  }

  lemma InsertRising(ring: seq<int>, i: nat, bp: int)
    requires Rising(ring) && Place(ring, i, bp)
    ensures Rising(Inserted(ring, i, bp))
  {
    var r := Inserted(ring, i, bp);
    forall k, j | 0 <= k < j < |r|
      ensures r[k] < r[j]
    {
      assert k == i + 1 ==> ring[i + 1] <= ring[j - 1];
      assert j == i + 1 ==> ring[k] <= ring[i];
    }
  }

  lemma InsertLinked(ring: seq<int>, ptr: map<int, int>, i: nat, bp: int)
    requires Linked(ring, ptr) && i < |ring| && bp !in ring
    requires forall j | 0 <= j < |ring| && j != i :: ring[j] != ring[i]
    ensures Linked(Inserted(ring, i, bp), ptr[bp := ptr[ring[i]]][ring[i] := bp])
  {
    var r, q := Inserted(ring, i, bp), ptr[bp := ptr[ring[i]]][ring[i] := bp];
    assert LinkedAt(ring, ptr, i);
    forall k | 0 <= k < |r|
      ensures r[k] in q && LinkedAt(r, q, k)
    {
      if k != i && k != i + 1 {
        var j := if k < i then k else k - 1;
        assert LinkedAt(ring, ptr, j) && r[k] == ring[j] && q[r[k]] == ptr[ring[j]];
      }
    }
  }

  lemma InsertRing(base: int, ring: seq<int>, ptr: map<int, int>, i: nat, bp: int)
    requires RingOk(base, ring, ptr) && Place(ring, i, bp)
    ensures RingOk(base, Inserted(ring, i, bp), ptr[bp := ptr[ring[i]]][ring[i] := bp])
  {
    InsertRising(ring, i, bp);
    forall j | 0 <= j < |ring|
      ensures ring[j] != bp && (j != i ==> ring[j] != ring[i])
    {
      assert j > i ==> ring[i + 1] <= ring[j];
    }
    InsertLinked(ring, ptr, i, bp);
  }

  lemma RemoveRising(ring: seq<int>, i: nat)
    requires Rising(ring) && i < |ring|
    ensures Rising(Removed(ring, i))
  {}

  lemma RemoveLinked(ring: seq<int>, ptr: map<int, int>, i: nat)
    requires Linked(ring, ptr) && i + 1 < |ring|
    requires forall j | 0 <= j < |ring| && j != i :: ring[j] != ring[i]
    ensures Linked(Removed(ring, i + 1), ptr[ring[i] := ptr[ring[i + 1]]])
  {
    var r, q := Removed(ring, i + 1), ptr[ring[i] := ptr[ring[i + 1]]];
    assert LinkedAt(ring, ptr, i) && LinkedAt(ring, ptr, i + 1);
    forall k | 0 <= k < |r|
      ensures r[k] in q && LinkedAt(r, q, k)
    {
      if k != i {
        var j := if k < i then k else k + 1;
        assert LinkedAt(ring, ptr, j);
      }
    }
  }

  lemma RemoveRing(base: int, ring: seq<int>, ptr: map<int, int>, i: nat)
    requires RingOk(base, ring, ptr) && i + 1 < |ring|
    ensures ptr[ring[i]] == ring[i + 1]
    ensures RingOk(base, Removed(ring, i + 1), ptr[ring[i] := ptr[ring[i + 1]]])
  {
    MemberLinked(ring, ptr, i);
    forall j | 0 <= j < |ring| && j != i
      ensures ring[j] != ring[i]
    {}
    RemoveRising(ring, i + 1);
    RemoveLinked(ring, ptr, i);
  }

  // ---------------------------------------------------------------- blocks and units

  // Two neighbouring blocks become one.
  function Merged(blocks: map<int, int>, a: int, b: int): map<int, int>
    requires a in blocks && b in blocks
  {
    (blocks - {b})[a := blocks[a] + blocks[b]]
  }

  ghost function Given(owner: map<int, int>, b: int, a: int): (o: map<int, int>)
    ensures o.Keys == owner.Keys
    ensures forall x | x in owner :: o[x] == if owner[x] == b then a else owner[x]
  {
    map x | x in owner :: if owner[x] == b then a else owner[x]
  }

  lemma MergeTiles(blocks: map<int, int>, owner: map<int, int>, a: int, b: int)
    requires TilesOk(blocks, owner) && a in blocks && b in blocks && b == a + blocks[a] && blocks[a] >= 1
        && blocks[b] >= 1
    ensures TilesOk(Merged(blocks, a, b), Given(owner, b, a))
  {
    var bs, o := Merged(blocks, a, b), Given(owner, b, a);
    forall c, x | InBlock(bs, c, x)
      ensures x in o && o[x] == c
    {
      assert InBlock(blocks, if c == a && x >= b then b else c, x);
    }
    forall x | x in o
      ensures InBlock(bs, o[x], x)
    {
      assert InBlock(blocks, owner[x], x);
    }
  }

  // The last n units of a block become a block of their own.
  ghost function Cut(owner: map<int, int>, a: int, b: int): (o: map<int, int>)
    ensures o.Keys == owner.Keys
    ensures forall x | x in owner :: o[x] == if owner[x] == a && x >= b then b else owner[x]
  {
    map x | x in owner :: if owner[x] == a && x >= b then b else owner[x]
  }

  lemma SplitTiles(blocks: map<int, int>, owner: map<int, int>, a: int, n: int)
    requires TilesOk(blocks, owner) && a in blocks && 1 <= n < blocks[a]
    requires forall c | c in blocks :: blocks[c] >= 1
    ensures var b := a + blocks[a] - n;
      b !in blocks && TilesOk(blocks[a := blocks[a] - n][b := n], Cut(owner, a, b))
  {
    var b := a + blocks[a] - n;
    assert InBlock(blocks, a, b);
    assert !InBlock(blocks, b, b);
    var o, bs := Cut(owner, a, b), blocks[a := blocks[a] - n][b := n];
    forall c, x | InBlock(bs, c, x)
      ensures x in o && o[x] == c
    {
      assert InBlock(blocks, if c == b then a else c, x);
    }
    forall x | x in o
      ensures InBlock(bs, o[x], x)
    {
      assert InBlock(blocks, owner[x], x);
    }
  }

  function Units(a: int, n: nat): (s: set<int>)
    ensures forall x :: x in s <==> a <= x < a + n
  {
    if n == 0 then {} else Units(a, n - 1) + {a + n - 1}
  }

  // Fresh memory from sbrk becomes one block.
  ghost function Extended(owner: map<int, int>, a: int, n: nat): (o: map<int, int>)
    ensures o.Keys == owner.Keys + Units(a, n)
    ensures forall x | x in o :: o[x] == if x in Units(a, n) then a else owner[x]
  {
    map x | x in owner.Keys + Units(a, n) :: if x in Units(a, n) then a else owner[x]
  }

  lemma GrowTiles(blocks: map<int, int>, owner: map<int, int>, a: int, n: nat)
    requires TilesOk(blocks, owner) && n >= 1
    requires forall b | b in blocks :: b + blocks[b] <= a && blocks[b] >= 1
    ensures a !in blocks && TilesOk(blocks[a := n], Extended(owner, a, n))
  {
    var o, bs := Extended(owner, a, n), blocks[a := n];
    forall c, x | InBlock(bs, c, x)
      ensures x in o && o[x] == c
    {
      if c != a {
        assert InBlock(blocks, c, x);
      }
    }
    forall x | x in o
      ensures InBlock(bs, o[x], x)
    {
      if x !in Units(a, n) {
        assert InBlock(blocks, owner[x], x);
      }
    }
  }

  // ---------------------------------------------------------------- what free does

  // The allocator's state as a value: the header words, and the ring and blocks they stand for.
  datatype State = State(ring: seq<int>, ptr: map<int, int>, size: map<int, int>,
                         blocks: map<int, int>, owner: map<int, int>)

  ghost predicate StateOk(base: int, brk: int, s: State, loose: set<int>) {
    && RingOk(base, s.ring, s.ptr)
    && HeadersOk(base, brk, s.size, s.blocks) && TilesOk(s.blocks, s.owner)
    && base in s.size && s.size[base] == 0
    && GapsOk(s.ring, s.blocks, loose)
  }

  // bp goes back on the list after ring[i], before any merging.
  ghost function Listed(s: State, i: nat, bp: int): State
    requires i < |s.ring| && s.ring[i] in s.ptr
  {
    s.(ring := Inserted(s.ring, i, bp), ptr := s.ptr[bp := s.ptr[s.ring[i]]][s.ring[i] := bp])
  }

  lemma ListedGaps(ring: seq<int>, blocks: map<int, int>, owner: map<int, int>, i: nat, bp: int)
    requires GapsOk(ring, blocks, {}) && Place(ring, i, bp) && bp in blocks && Rising(ring) && TilesOk(blocks, owner)
    requires forall a | a in blocks :: blocks[a] >= 1
    ensures GapsOk(Inserted(ring, i, bp), blocks, {i as int, i + 1})
  {
    var r := Inserted(ring, i, bp);
    if i >= 1 {
      BlocksDisjoint(blocks, owner, ring[i], bp);
    }
    if i + 1 < |ring| {
      BlocksDisjoint(blocks, owner, bp, ring[i + 1]);
    }
    hide TilesOk; hide Rising;
    forall k | 1 <= k < |r| - 1
      ensures End(blocks, r[k]) <= r[k + 1] && (k != i && k != i + 1 ==> End(blocks, r[k]) != r[k + 1])
    {
      if k > i + 1 {
        assert r[k] == ring[k - 1] && r[k + 1] == ring[k - 1 + 1];
      }
    }
  }

  lemma ListedOk(base: int, brk: int, s: State, i: nat, bp: int)
    requires StateOk(base, brk, s, {}) && Place(s.ring, i, bp) && bp in s.blocks
    ensures s.ring[i] in s.ptr && StateOk(base, brk, Listed(s, i, bp), {i as int, i + 1})
  {
    assert forall a | a in s.blocks :: s.blocks[a] >= 1;
    assert s.ring[i] in s.ptr;
    hide Linked; hide HeadersOk; hide TilesOk; hide GapsOk; hide Rising; hide Inserted;
    InsertRing(base, s.ring, s.ptr, i, bp);
    ListedGaps(s.ring, s.blocks, s.owner, i, bp);
  }

  // ring[k] takes over the block that follows it on the list and in memory.
  ghost function Joined(s: State, k: nat): State
    requires k + 1 < |s.ring| && s.ring[k] in s.blocks && s.ring[k + 1] in s.blocks && s.ring[k + 1] in s.ptr
    requires s.ring[k] in s.size && s.ring[k + 1] in s.size
  {
    var a, b := s.ring[k], s.ring[k + 1];
    State(Removed(s.ring, k + 1), s.ptr[a := s.ptr[b]], s.size[a := s.size[a] + s.size[b]],
          Merged(s.blocks, a, b), Given(s.owner, b, a))
  }

  ghost predicate Joinable(base: int, brk: int, s: State, k: nat, loose: set<int>) {
    && StateOk(base, brk, s, loose) && 1 <= k < |s.ring| - 1
    && End(s.blocks, s.ring[k]) == s.ring[k + 1]
    && k + 1 !in loose && forall x | x in loose :: x <= k
  }

  lemma JoinableBlocks(base: int, brk: int, s: State, k: nat, loose: set<int>)
    requires Joinable(base, brk, s, k, loose)
    ensures var a, b := s.ring[k], s.ring[k + 1];
      && a in s.blocks && b in s.blocks && b in s.ptr && a in s.size && b in s.size
      && s.blocks[a] >= 1 && s.blocks[b] >= 1 && b == a + s.blocks[a] && base < a && Rising(s.ring)
  {
    hide TilesOk; hide Linked;
    assert s.ring[k + 1] in s.ptr by { assert Linked(s.ring, s.ptr); MemberLinked(s.ring, s.ptr, k + 1); }
  }

  lemma MemberLinked(ring: seq<int>, ptr: map<int, int>, i: nat)
    requires Linked(ring, ptr) && i < |ring|
    ensures ring[i] in ptr && ptr[ring[i]] == ring[Succ(i, |ring|)]
  {
    assert LinkedAt(ring, ptr, i);
  }

  lemma JoinedOk(base: int, brk: int, s: State, k: nat, loose: set<int>)
    requires Joinable(base, brk, s, k, loose)
    ensures s.ring[k] in s.blocks && s.ring[k + 1] in s.blocks && s.ring[k + 1] in s.ptr
    ensures s.ring[k] in s.size && s.ring[k + 1] in s.size
    ensures StateOk(base, brk, Joined(s, k), loose - {k as int})
  {
    hide RingOk; hide Linked; hide HeadersOk; hide TilesOk; hide GapsOk; hide Rising; hide End;
    JoinableBlocks(base, brk, s, k, loose);
    JoinedRing(base, brk, s, k, loose);
    JoinedHeaders(base, brk, s, k, loose);
    MergeTiles(s.blocks, s.owner, s.ring[k], s.ring[k + 1]);
  }

  lemma JoinedRing(base: int, brk: int, s: State, k: nat, loose: set<int>)
    requires Joinable(base, brk, s, k, loose)
    requires s.ring[k] in s.blocks && s.ring[k + 1] in s.blocks && s.ring[k + 1] in s.ptr
    requires s.ring[k] in s.size && s.ring[k + 1] in s.size
    ensures RingOk(base, Joined(s, k).ring, Joined(s, k).ptr)
    ensures GapsOk(Joined(s, k).ring, Joined(s, k).blocks, loose - {k as int})
  {
    hide Linked; hide HeadersOk; hide TilesOk; hide GapsOk; hide Rising; hide Removed; hide Merged; hide Given;
    hide End;
    RemoveRing(base, s.ring, s.ptr, k);
    JoinedGaps(s.ring, s.blocks, k, loose);
  }

  lemma JoinedHeaders(base: int, brk: int, s: State, k: nat, loose: set<int>)
    requires Joinable(base, brk, s, k, loose)
    requires s.ring[k] in s.blocks && s.ring[k + 1] in s.blocks && s.ring[k + 1] in s.ptr
    requires s.ring[k] in s.size && s.ring[k + 1] in s.size
    ensures HeadersOk(base, brk, Joined(s, k).size, Joined(s, k).blocks)
    ensures base in Joined(s, k).size && Joined(s, k).size[base] == 0
  {
    hide RingOk; hide TilesOk; hide GapsOk; hide Removed; hide Given;
  }

  lemma JoinedGaps(ring: seq<int>, blocks: map<int, int>, k: nat, loose: set<int>)
    requires GapsOk(ring, blocks, loose) && Rising(ring) && 1 <= k < |ring| - 1
    requires End(blocks, ring[k]) == ring[k + 1]
    requires k + 1 !in loose && forall x | x in loose :: x <= k
    ensures GapsOk(Removed(ring, k + 1), Merged(blocks, ring[k], ring[k + 1]), loose - {k as int})
  {
    var r, bs := Removed(ring, k + 1), Merged(blocks, ring[k], ring[k + 1]);
    forall i | 1 <= i < |r|
      ensures r[i] in bs
      ensures End(bs, r[i]) == if i == k then End(blocks, ring[k + 1]) else End(blocks, r[i])
    {
      assert r[i] != ring[k + 1] && (i != k ==> r[i] != ring[k]);
    }
  }

  // The allocated blocks and their sizes.
  ghost function Alloc(s: State): map<int, int> {
    map a | a in s.blocks && a !in s.ring :: s.blocks[a]
  }

  ghost predicate HasFree(s: State, n: int) {
    exists a | a in s.ring :: a in s.blocks && s.blocks[a] >= n
  }

  lemma InsertedMembers(ring: seq<int>, i: nat, bp: int)
    requires i < |ring|
    ensures forall x :: x in Inserted(ring, i, bp) <==> x in ring || x == bp
  {
    var r := Inserted(ring, i, bp);
    assert r[i + 1] == bp;
    forall k | 0 <= k < |ring|
      ensures ring[k] in r
    {
      assert r[if k <= i then k else k + 1] == ring[k];
    }
  }

  lemma RemovedMembers(ring: seq<int>, i: nat)
    requires i < |ring| && Rising(ring)
    ensures forall x :: x in Removed(ring, i) <==> x in ring && x != ring[i]
  {
    var r := Removed(ring, i);
    forall k | 0 <= k < |ring| && k != i
      ensures ring[k] in r && ring[k] != ring[i]
    {
      assert r[if k < i then k else k - 1] == ring[k];
    }
  }

  lemma ListedAllocated(s: State, i: nat, bp: int)
    requires i < |s.ring| && s.ring[i] in s.ptr && bp in s.blocks && bp !in s.ring
    ensures Alloc(Listed(s, i, bp)) == Alloc(s) - {bp} && HasFree(Listed(s, i, bp), s.blocks[bp])
  {
    InsertedMembers(s.ring, i, bp);
  }

  lemma JoinedAllocated(s: State, k: nat, n: int)
    requires k + 1 < |s.ring| && s.ring[k] in s.blocks && s.ring[k + 1] in s.blocks && s.ring[k + 1] in s.ptr
    requires s.ring[k] in s.size && s.ring[k + 1] in s.size && Rising(s.ring)
    requires s.blocks[s.ring[k]] >= 1 && s.blocks[s.ring[k + 1]] >= 1 && HasFree(s, n)
    ensures Alloc(Joined(s, k)) == Alloc(s) && HasFree(Joined(s, k), n)
  {
    var t := Joined(s, k);
    var a, b := s.ring[k], s.ring[k + 1];
    hide Removed;
    RemovedMembers(s.ring, k + 1);
    assert a != b;
    assert Alloc(t) == Alloc(s);
    var c :| c in s.ring && c in s.blocks && s.blocks[c] >= n;
    assert a in t.ring && a in t.blocks && t.blocks[a] == s.blocks[a] + s.blocks[b];
    assert c != a && c != b ==> c in t.ring && t.blocks[c] == s.blocks[c];
  }

  // The free blocks are those of `ring`, perhaps fewer, and perhaps bp.
  ghost predicate Within(r: seq<int>, ring: seq<int>, bp: int) {
    forall x | x in r :: x in ring || x == bp
  }

  lemma ListedWithin(s: State, i: nat, bp: int)
    requires i < |s.ring| && s.ring[i] in s.ptr
    ensures Within(Listed(s, i, bp).ring, s.ring, bp)
  {
    InsertedMembers(s.ring, i, bp);
  }

  lemma JoinedWithin(s: State, k: nat, ring: seq<int>, bp: int)
    requires k + 1 < |s.ring| && s.ring[k] in s.blocks && s.ring[k + 1] in s.blocks && s.ring[k + 1] in s.ptr
    requires s.ring[k] in s.size && s.ring[k + 1] in s.size && Rising(s.ring) && Within(s.ring, ring, bp)
    ensures Within(Joined(s, k).ring, ring, bp)
  {
    RemovedMembers(s.ring, k + 1);
  }

  // ---------------------------------------------------------------- free as a whole

  ghost predicate UpperTouches(s: State, i: nat, bp: int) {
    i + 1 < |s.ring| && End(s.blocks, bp) == s.ring[i + 1]
  }

  // Two neighbours that do not touch need no exception.
  lemma Separate(base: int, brk: int, s: State, loose: set<int>, k: int)
    requires StateOk(base, brk, s, loose)
    requires 1 <= k < |s.ring| - 1 ==> End(s.blocks, s.ring[k]) != s.ring[k + 1]
    ensures StateOk(base, brk, s, loose - {k})
  {
    hide RingOk; hide HeadersOk; hide TilesOk;
  }

  // The state after the test of the block above: bp is listed, and merged with that block if they
  // touch.
  ghost function Upper(s: State, i: nat, bp: int): State
    requires i < |s.ring| && s.ring[i] in s.ptr && bp in s.blocks && bp in s.size
    requires UpperTouches(s, i, bp) ==> s.ring[i + 1] in s.blocks && s.ring[i + 1] in s.ptr && s.ring[i + 1] in s.size
  {
    var l := Listed(s, i, bp);
    if UpperTouches(s, i, bp) then
      assert l.ring[i + 2] == s.ring[i + 1];
      Joined(l, i + 1)
    else l
  }

  lemma UpperDefined(base: int, brk: int, s: State, i: nat, bp: int)
    requires StateOk(base, brk, s, {}) && Place(s.ring, i, bp) && bp in s.blocks
    ensures s.ring[i] in s.ptr && s.ring[i] in s.size && bp in s.size && s.size[bp] == s.blocks[bp]
    ensures i + 1 < |s.ring| ==> s.ring[i + 1] in s.blocks && s.ring[i + 1] in s.ptr && s.ring[i + 1] in s.size
    ensures s.ptr[s.ring[i]] == s.ring[Succ(i, |s.ring|)] && s.ring[0] == base < bp && base <= s.ring[i]
    ensures i >= 1 ==> s.ring[i] in s.blocks && s.size[s.ring[i]] == s.blocks[s.ring[i]]
    ensures i == 0 ==> s.size[s.ring[i]] == 0
  {
    hide TilesOk;
    MemberLinked(s.ring, s.ptr, i);
  }

  // What both halves of free establish: `loose` says which gap is still to be looked at.
  ghost predicate Progress(base: int, brk: int, s: State, t: State, i: nat, bp: int, loose: set<int>)
    requires bp in s.blocks
  {
    && StateOk(base, brk, t, loose) && Alloc(t) == Alloc(s) - {bp} && t.owner.Keys == s.owner.Keys
    && HasFree(t, s.blocks[bp]) && i < |t.ring| <= |s.ring| + 1 && i < |s.ring| && t.ring[i] == s.ring[i]
    && Within(t.ring, s.ring, bp)
  }

  lemma UpperApart(base: int, brk: int, s: State, i: nat, bp: int)
    requires StateOk(base, brk, s, {}) && Place(s.ring, i, bp) && bp in s.blocks && bp !in s.ring
    requires s.ring[i] in s.ptr && bp in s.size && !UpperTouches(s, i, bp)
    ensures var t := Upper(s, i, bp);
      Progress(base, brk, s, t, i, bp, {i as int}) && i + 1 < |t.ring| && t.ring[i + 1] == bp
  {
    hide StateOk; hide Within; hide HasFree; hide Alloc; hide End; hide Rising;
    ListedOk(base, brk, s, i, bp);
    ListedAllocated(s, i, bp);
    ListedWithin(s, i, bp);
    var l, both := Listed(s, i, bp), {i as int, i + 1};
    assert l.ring[i] == s.ring[i] && l.ring[i + 1] == bp && (i + 1 < |s.ring| ==> l.ring[i + 2] == s.ring[i + 1]);
    assert both - {i + 1} == {i as int};
    Separate(base, brk, l, both, i + 1);
  }

  lemma UpperMerged(base: int, brk: int, s: State, i: nat, bp: int)
    requires StateOk(base, brk, s, {}) && Place(s.ring, i, bp) && bp in s.blocks && bp !in s.ring
    requires s.ring[i] in s.ptr && bp in s.size && UpperTouches(s, i, bp)
    requires s.ring[i + 1] in s.blocks && s.ring[i + 1] in s.ptr && s.ring[i + 1] in s.size
    ensures var t := Upper(s, i, bp);
      Progress(base, brk, s, t, i, bp, {i as int}) && i + 1 < |t.ring| && t.ring[i + 1] == bp
  {
    hide StateOk; hide Within; hide HasFree; hide Alloc; hide End; hide Rising;
    ListedOk(base, brk, s, i, bp);
    ListedAllocated(s, i, bp);
    ListedWithin(s, i, bp);
    var l, both := Listed(s, i, bp), {i as int, i + 1};
    assert l.ring[i] == s.ring[i] && l.ring[i + 1] == bp && l.ring[i + 2] == s.ring[i + 1];
    assert both - {i + 1} == {i as int};
    JoinableBlocks(base, brk, l, i + 1, both);
    JoinedOk(base, brk, l, i + 1, both);
    JoinedAllocated(l, i + 1, s.blocks[bp]);
    JoinedWithin(l, i + 1, s.ring, bp);
  }

  lemma LowerApart(base: int, brk: int, s: State, u: State, i: nat, bp: int)
    requires bp in s.blocks && Progress(base, brk, s, u, i, bp, {i as int})
    requires i + 1 < |u.ring| && u.ring[i + 1] == bp
    requires i >= 1 ==> End(u.blocks, u.ring[i]) != bp
    ensures Progress(base, brk, s, u, i, bp, {})
  {
    hide StateOk; hide Within; hide HasFree; hide Alloc; hide End;
    assert {i as int} - {i as int} == {};
    Separate(base, brk, u, {i as int}, i);
  }

  lemma LowerMerged(base: int, brk: int, s: State, u: State, i: nat, bp: int)
    requires bp in s.blocks && Progress(base, brk, s, u, i, bp, {i as int})
    requires i + 1 < |u.ring| && u.ring[i + 1] == bp
    requires i >= 1 && End(u.blocks, u.ring[i]) == bp
    ensures u.ring[i] in u.blocks && bp in u.blocks && bp in u.ptr && u.ring[i] in u.size && bp in u.size
    ensures Progress(base, brk, s, Joined(u, i), i, bp, {})
  {
    hide StateOk; hide Within; hide HasFree; hide Alloc; hide End; hide Rising;
    assert {i as int} - {i as int} == {};
    JoinableBlocks(base, brk, u, i, {i as int});
    JoinedOk(base, brk, u, i, {i as int});
    JoinedAllocated(u, i, s.blocks[bp]);
    JoinedWithin(u, i, s.ring, bp);
  }

  // The first test of free finds out whether the block above touches,
  lemma UpperTest(base: int, brk: int, s: State, i: nat, bp: int)
    requires StateOk(base, brk, s, {}) && Place(s.ring, i, bp) && bp in s.blocks
    ensures var p := s.ring[i];
      && p in s.ptr && p in s.size && bp in s.size && s.ptr[p] in s.ptr && s.ptr[p] in s.size
      && p >= base && (UpperTouches(s, i, bp) <==> bp + s.size[bp] == s.ptr[p])
      && (i + 1 < |s.ring| ==> s.ptr[p] == s.ring[i + 1] != p && s.ring[i + 1] in s.blocks)
  {
    UpperDefined(base, brk, s, i, bp);
    BaseDefined(base, brk, s, {});
    hide StateOk;
    assert End(s.blocks, bp) == bp + s.size[bp] > bp by { SizesPositive(base, brk, s, bp); }
  }

  lemma SizesPositive(base: int, brk: int, s: State, a: int)
    requires StateOk(base, brk, s, {}) && a in s.blocks
    ensures s.blocks[a] >= 1
  {}

  lemma BaseDefined(base: int, brk: int, s: State, loose: set<int>)
    requires StateOk(base, brk, s, loose)
    ensures s.ring[0] == base && base in s.ptr && base in s.size && s.size[base] == 0
  {
    MemberLinked(s.ring, s.ptr, 0);
  }

  // and its assignments are those of the merge, but for the link to bp, which comes last.
  lemma UpperWords(base: int, brk: int, s: State, i: nat, bp: int, p: int) returns (u: State)
    requires StateOk(base, brk, s, {}) && Place(s.ring, i, bp) && bp in s.blocks && bp !in s.ring && p == s.ring[i]
    requires p in s.ptr && s.ptr[p] in s.ptr && s.ptr[p] in s.size && bp in s.size
    ensures Progress(base, brk, s, u, i, bp, {i as int}) && i + 1 < |u.ring| && u.ring[i + 1] == bp
    ensures u.size == FreeSizeUp(s.ptr, s.size, p, bp) && u.ptr == FreePtrUp(s.ptr, s.size, p, bp)[p := bp]
  {
    hide StateOk; hide Alloc; hide HasFree; hide End; hide Progress; hide Upper; hide FreeSizeUp; hide FreePtrUp;
    UpperTest(base, brk, s, i, bp);
    if UpperTouches(s, i, bp) {
      UpperMerged(base, brk, s, i, bp);
      MergedWords(s, i, bp, p);
    } else {
      UpperApart(base, brk, s, i, bp);
      ApartWords(s, i, bp, p);
    }
    u := Upper(s, i, bp);
  }

  lemma MergedWords(s: State, i: nat, bp: int, p: int)
    requires i + 1 < |s.ring| && p == s.ring[i] && bp in s.blocks && bp !in s.ring && UpperTouches(s, i, bp)
    requires s.ring[i + 1] in s.blocks && s.ring[i + 1] in s.ptr && s.ring[i + 1] in s.size && s.ring[i + 1] != p
    requires p in s.ptr && s.ptr[p] == s.ring[i + 1] && bp in s.size && bp + s.size[bp] == s.ptr[p]
    ensures var u := Upper(s, i, bp);
      u.size == FreeSizeUp(s.ptr, s.size, p, bp) && u.ptr == FreePtrUp(s.ptr, s.size, p, bp)[p := bp]
  {
    var l := Listed(s, i, bp);
    assert l.ring[i + 1] == bp && l.ring[i + 2] == s.ring[i + 1];
    assert bp != p && bp != s.ring[i + 1];
  }

  lemma ApartWords(s: State, i: nat, bp: int, p: int)
    requires i < |s.ring| && p == s.ring[i] && bp in s.blocks && !UpperTouches(s, i, bp)
    requires p in s.ptr && s.ptr[p] in s.ptr && s.ptr[p] in s.size && bp in s.size && bp + s.size[bp] != s.ptr[p]
    ensures var u := Upper(s, i, bp);
      u.size == FreeSizeUp(s.ptr, s.size, p, bp) && u.ptr == FreePtrUp(s.ptr, s.size, p, bp)[p := bp]
  {}

  // Likewise for the second test.
  lemma LowerWords(base: int, brk: int, s: State, u: State, i: nat, bp: int, p: int) returns (t: State)
    requires bp in s.blocks && Progress(base, brk, s, u, i, bp, {i as int})
    requires i + 1 < |u.ring| && u.ring[i + 1] == bp && p == u.ring[i] && bp in u.ptr && bp in u.size
    ensures Progress(base, brk, s, t, i, bp, {})
    ensures p in u.size && bp in u.size
    ensures t.size == if p + u.size[p] == bp then u.size[p := u.size[p] + u.size[bp]] else u.size
    ensures t.ptr == if p + u.size[p] == bp then u.ptr[p := u.ptr[bp]] else u.ptr
  {
    hide StateOk; hide Alloc; hide HasFree; hide End; hide Progress;
    LowerTest(base, brk, s, u, i, bp, p);
    if p + u.size[p] == bp {
      LowerMerged(base, brk, s, u, i, bp);
      t := Joined(u, i);
    } else {
      LowerApart(base, brk, s, u, i, bp);
      t := u;
    }
  }

  lemma LowerTest(base: int, brk: int, s: State, u: State, i: nat, bp: int, p: int)
    requires bp in s.blocks && Progress(base, brk, s, u, i, bp, {i as int})
    requires i + 1 < |u.ring| && u.ring[i + 1] == bp && p == u.ring[i]
    ensures p in u.size && (p + u.size[p] == bp <==> i >= 1 && End(u.blocks, u.ring[i]) == bp)
  {
    hide StateOk; hide Alloc; hide HasFree;
    BaseDefined(base, brk, u, {i as int});
    FreeBlock(base, brk, u, {i as int}, i + 1);
    if i >= 1 {
      FreeBlock(base, brk, u, {i as int}, i);
    }
  }

  // Whatever free's tests find, they leave a good state in which bp is free.
  lemma FreedOk(base: int, brk: int, s: State, i: nat, bp: int, p: int) returns (t: State)
    requires StateOk(base, brk, s, {}) && Place(s.ring, i, bp) && bp in s.blocks && bp !in s.ring && p == s.ring[i]
    requires p in s.ptr && s.ptr[p] in s.ptr && s.ptr[p] in s.size && bp in s.size && p in s.size
    ensures Progress(base, brk, s, t, i, bp, {})
    ensures t.ptr == FreePtr(s.ptr, s.size, p, bp) && t.size == FreeSize(s.ptr, s.size, p, bp)
  {
    hide StateOk; hide Alloc; hide HasFree; hide End;
    var u := UpperWords(base, brk, s, i, bp, p);
    t := LowerWords(base, brk, s, u, i, bp, p);
  }

  // The header words free leaves, test by test.
  function FreeSizeUp(ptr: map<int, int>, size: map<int, int>, p: int, bp: int): (z: map<int, int>)
    requires p in ptr && ptr[p] in size && bp in size
  {
    if bp + size[bp] == ptr[p] then size[bp := size[bp] + size[ptr[p]]] else size
  }

  function FreePtrUp(ptr: map<int, int>, size: map<int, int>, p: int, bp: int): (q: map<int, int>)
    requires p in ptr && ptr[p] in ptr && bp in size
  {
    ptr[bp := if bp + size[bp] == ptr[p] then ptr[ptr[p]] else ptr[p]]
  }

  function FreeSize(ptr: map<int, int>, size: map<int, int>, p: int, bp: int): (z: map<int, int>)
    requires p in ptr && ptr[p] in size && bp in size && p in size
  {
    var z := FreeSizeUp(ptr, size, p, bp);
    if p + z[p] == bp then z[p := z[p] + z[bp]] else z
  }

  function FreePtr(ptr: map<int, int>, size: map<int, int>, p: int, bp: int): (q: map<int, int>)
    requires p in ptr && ptr[p] in ptr && ptr[p] in size && bp in size && p in size
  {
    var q := FreePtrUp(ptr, size, p, bp);
    var z := FreeSizeUp(ptr, size, p, bp);
    q[p := if p + z[p] == bp then q[bp] else bp]
  }

  // Every free block is as it was, or is the one that the block from bp to `end` is now part of.
  ghost predicate FreeAsBefore(ring: seq<int>, size: map<int, int>, r: seq<int>, z: map<int, int>, bp: int, end: int) {
    forall x | x in r :: x in z && (x in ring || x == bp)
        && ((x != bp && x in size && z[x] == size[x]) || x <= bp < end <= x + z[x])
  }

  lemma FreedBlocks(base: int, brk: int, s: State, t: State, i: nat, bp: int, p: int)
    requires StateOk(base, brk, s, {}) && Place(s.ring, i, bp) && bp in s.blocks && bp !in s.ring && p == s.ring[i]
    requires p in s.ptr && s.ptr[p] in s.ptr && s.ptr[p] in s.size && bp in s.size && p in s.size
    requires Progress(base, brk, s, t, i, bp, {}) && t.size == FreeSize(s.ptr, s.size, p, bp)
    ensures FreeAsBefore(s.ring, s.size, t.ring, t.size, bp, bp + s.size[bp])
  {
    hide StateOk; hide Alloc; hide HasFree; hide Progress; hide Within; hide FreeAsBefore; hide FreeSize;
    assert Within(t.ring, s.ring, bp) && StateOk(base, brk, t, {}) by { ProgressParts(base, brk, s, t, i, bp, {}); }
    FreeSizes(base, brk, s);
    FreeSizes(base, brk, t);
    SizesPositive(base, brk, s, bp);
    UpperDefined(base, brk, s, i, bp);
    BaseDefined(base, brk, s, {});
    assert s.size[s.ptr[p]] >= 0;
    FreeSizeBlocks(s.ring, s.ptr, s.size, t.ring, p, bp);
  }

  lemma ProgressParts(base: int, brk: int, s: State, t: State, i: nat, bp: int, loose: set<int>)
    requires bp in s.blocks && Progress(base, brk, s, t, i, bp, loose)
    ensures StateOk(base, brk, t, loose) && Within(t.ring, s.ring, bp)
  {}

  lemma FreeSizes(base: int, brk: int, s: State)
    requires StateOk(base, brk, s, {})
    ensures forall x | x in s.ring :: x in s.size && s.size[x] >= 0
  {
    hide StateOk;
    forall i | 0 <= i < |s.ring|
      ensures s.ring[i] in s.size && s.size[s.ring[i]] >= 0
    {
      if i == 0 {
        BaseDefined(base, brk, s, {});
      } else {
        FreeBlock(base, brk, s, {}, i);
      }
    }
  }

  lemma FreeSizeBlocks(ring: seq<int>, ptr: map<int, int>, size: map<int, int>, r: seq<int>, p: int, bp: int)
    requires p < bp && p in ptr && ptr[p] in ptr && ptr[p] in size && bp in size && p in size
    requires Within(r, ring, bp) && p in ring && size[bp] >= 1 && size[ptr[p]] >= 0
    requires forall x | x in ring :: x in size
    ensures FreeAsBefore(ring, size, r, FreeSize(ptr, size, p, bp), bp, bp + size[bp])
  {
    var z := FreeSize(ptr, size, p, bp);
    assert z[bp] >= size[bp];
    forall x | x in r
      ensures x in z && ((x != bp && x in size && z[x] == size[x]) || x <= bp < bp + size[bp] <= x + z[x])
    {
      assert x != p && x != bp ==> z[x] == size[x];
    }
  }

  // ---------------------------------------------------------------- what malloc does

  // The block after ring[k] leaves the list whole.
  ghost function TakenWhole(s: State, k: nat): State
    requires k + 1 < |s.ring| && s.ring[k + 1] in s.ptr
  {
    s.(ring := Removed(s.ring, k + 1), ptr := s.ptr[s.ring[k] := s.ptr[s.ring[k + 1]]])
  }

  lemma WholeGaps(ring: seq<int>, blocks: map<int, int>, k: nat)
    requires GapsOk(ring, blocks, {}) && Rising(ring) && 1 <= k < |ring|
    requires forall i | 1 <= i < |ring| :: ring[i] in blocks ==> blocks[ring[i]] >= 1
    ensures GapsOk(Removed(ring, k), blocks, {})
  {
    var r := Removed(ring, k);
    forall i | 1 <= i < |r| - 1
      ensures End(blocks, r[i]) < r[i + 1]
    {
      var j := if i < k then i else i + 1;
      assert r[i] == ring[j] && ring[j + 1] <= r[i + 1];
    }
  }

  lemma TakenWholeOk(base: int, brk: int, s: State, k: nat)
    requires StateOk(base, brk, s, {}) && k + 1 < |s.ring|
    ensures s.ring[k + 1] in s.ptr && s.ring[k + 1] in s.blocks && s.ptr[s.ring[k]] == s.ring[k + 1]
    ensures var t, a := TakenWhole(s, k), s.ring[k + 1];
      StateOk(base, brk, t, {}) && a !in Alloc(s) && Alloc(t) == Alloc(s)[a := s.blocks[a]] && k < |t.ring|
        && t.ring[k] == s.ring[k]
  {
    hide RingOk; hide Linked; hide HeadersOk; hide TilesOk; hide GapsOk; hide Rising; hide Removed;
    FreeBlock(base, brk, s, {}, k + 1);
    RemovedMembers(s.ring, k + 1);
    RemoveRing(base, s.ring, s.ptr, k);
    WholeGaps(s.ring, s.blocks, k + 1);
    var t, a := TakenWhole(s, k), s.ring[k + 1];
    assert a in Alloc(t) && forall x | x in Alloc(t) :: x == a || x in Alloc(s);
    assert forall x | x in Alloc(s) :: x in Alloc(t);
    assert Alloc(t) == Alloc(s)[a := s.blocks[a]];
  }

  // What the invariant says of one free block.
  lemma FreeBlock(base: int, brk: int, s: State, loose: set<int>, k: nat)
    requires StateOk(base, brk, s, loose) && 1 <= k < |s.ring|
    ensures var a := s.ring[k];
      a in s.blocks && a in s.ptr && a in s.size && s.size[a] == s.blocks[a] >= 1 && base < a
    ensures Rising(s.ring) && base !in s.blocks && forall i | 0 <= i < |s.ring| :: base <= s.ring[i]
    ensures forall i | 1 <= i < |s.ring| :: s.ring[i] in s.blocks && s.blocks[s.ring[i]] >= 1
    ensures forall c | c in s.blocks :: s.blocks[c] >= 1
  {
    hide TilesOk;
    MemberLinked(s.ring, s.ptr, k);
    hide Linked;
  }

  // The last n units of a free block leave it as a block of their own.
  ghost function TakenTail(s: State, a: int, n: int): State
    requires a in s.blocks && a in s.size
  {
    var z := s.size[a] - n;
    var b := a + z;
    State(s.ring, s.ptr, s.size[a := z][b := n], s.blocks[a := z][b := n], Cut(s.owner, a, b))
  }

  lemma TakenTailOk(base: int, brk: int, s: State, k: nat, n: int)
    requires StateOk(base, brk, s, {}) && 1 <= k < |s.ring|
    requires s.ring[k] in s.blocks ==> 1 <= n < s.blocks[s.ring[k]]
    ensures var a := s.ring[k]; a in s.blocks && a in s.size && s.size[a] == s.blocks[a]
    ensures var t, a := TakenTail(s, s.ring[k], n), s.ring[k];
      var b := a + s.size[a] - n;
      StateOk(base, brk, t, {}) && b !in Alloc(s) && Alloc(t) == Alloc(s)[b := n]
  {
    hide RingOk; hide Linked; hide HeadersOk; hide TilesOk; hide GapsOk; hide Rising; hide Cut;
    FreeBlock(base, brk, s, {}, k);
    var a := s.ring[k];
    var b := a + s.size[a] - n;
    SplitTiles(s.blocks, s.owner, a, n);
    TailHeaders(base, brk, s.size, s.blocks, a, n);
    TailGaps(s.ring, s.blocks, k, n);
    assert s.ring[0] == base by { BaseDefined(base, brk, s, {}); }
    assert b !in s.ring;
    assert Alloc(TakenTail(s, a, n)) == Alloc(s)[b := n];
  }

  lemma TailHeaders(base: int, brk: int, size: map<int, int>, blocks: map<int, int>, a: int, n: int)
    requires HeadersOk(base, brk, size, blocks) && a in blocks && 1 <= n < blocks[a] && base in size && size[base] == 0
    ensures var z := size[a] - n; var b := a + z;
      base != b && HeadersOk(base, brk, size[a := z][b := n], blocks[a := z][b := n]) && size[a := z][b := n][base] == 0
  {}

  lemma TailGaps(ring: seq<int>, blocks: map<int, int>, k: nat, n: int)
    requires GapsOk(ring, blocks, {}) && Rising(ring) && 1 <= k < |ring| && 1 <= n < blocks[ring[k]]
    requires ring[k] + blocks[ring[k]] - n !in blocks
    ensures var a := ring[k]; var z := blocks[a] - n; GapsOk(ring, blocks[a := z][a + z := n], {})
  {}

  // Memory new from sbrk enters as a block the program holds.
  ghost function Grown(s: State, hp: int, n: nat): State {
    s.(size := s.size[hp := n], blocks := s.blocks[hp := n], owner := Extended(s.owner, hp, n))
  }

  lemma GrownOk(base: int, brk: int, s: State, hp: int, n: nat)
    requires StateOk(base, brk, s, {}) && base < brk <= hp && n >= 1
    ensures var t := Grown(s, hp, n);
      StateOk(base, hp + n, t, {}) && hp !in s.blocks && hp !in s.ring && Alloc(t) == Alloc(s)[hp := n]
  {
    hide RingOk; hide Linked; hide HeadersOk; hide TilesOk; hide GapsOk; hide Rising; hide Extended;
    var t := Grown(s, hp, n);
    GrownHeaders(base, brk, s.size, s.blocks, hp, n);
    GrowTiles(s.blocks, s.owner, hp, n);
    assert hp !in s.ring by { NotFree(base, brk, s, hp); }
    GrownGaps(s.ring, s.blocks, hp, n);
    assert Alloc(t) == Alloc(s)[hp := n];
  }

  lemma NotFree(base: int, brk: int, s: State, hp: int)
    requires StateOk(base, brk, s, {}) && hp !in s.blocks && hp != base
    ensures hp !in s.ring
  {
    hide Linked; hide TilesOk; hide HeadersOk;
  }

  lemma GrownHeaders(base: int, brk: int, size: map<int, int>, blocks: map<int, int>, hp: int, n: int)
    requires HeadersOk(base, brk, size, blocks) && base < brk <= hp && n >= 1 && base in size && size[base] == 0
    ensures HeadersOk(base, hp + n, size[hp := n], blocks[hp := n]) && size[hp := n][base] == 0
    ensures hp !in blocks && forall b | b in blocks :: b + blocks[b] <= hp && blocks[b] >= 1
  {}

  lemma GrownGaps(ring: seq<int>, blocks: map<int, int>, hp: int, n: int)
    requires GapsOk(ring, blocks, {}) && hp !in blocks && hp !in ring
    ensures GapsOk(ring, blocks[hp := n], {})
  {}

  // ---------------------------------------------------------------- the heap

  // Block headers needed for nbytes and their own header, in the 32-bit arithmetic of malloc.
  function Nunits(nbytes: nat): (n: nat)
    requires nbytes < UINT
    ensures n >= 1
  {
    (nbytes + HEADER - 1) % UINT / HEADER + 1
  }

  // The block malloc takes holds the bytes asked for exactly when that arithmetic does not wrap, and is
  // then the smallest that does; when it wraps, the block is a header alone.
  lemma NunitsSuffice(nbytes: nat)
    requires nbytes < UINT
    ensures var n := Nunits(nbytes);
      && ((n - 1) * 8 >= nbytes <==> nbytes + 7 < 0x1_0000_0000)
      && (n - 2) * 8 < nbytes && (nbytes + 7 >= 0x1_0000_0000 ==> n == 1)
  {}

  // What morecore asks of sbrk, in units.
  function Request(nunits: nat): nat {
    if nunits < 4096 then 4096 else nunits
  }

  // The same in bytes, as the int that sbrk gets.
  function SbrkBytes(nunits: nat): int {
    var n := Request(nunits) * HEADER % UINT;
    if n < UINT / 2 then n else n - UINT
  }

  // From 2^31 bytes on, sbrk is asked for no memory at all, or to shrink the process.
  lemma SbrkAsksIff(nbytes: nat)
    requires nbytes < UINT
    ensures var n := Nunits(nbytes);
      if n * 8 >= 0x8000_0000 then SbrkBytes(n) == n * 8 - 0x1_0000_0000 <= 0
      else SbrkBytes(n) == if n < 4096 then 32768 else n * 8
  {}

  // What sbrk answers to morecore: nothing, or the start of the memory asked for.
  predicate Answer(more: Option<int>, brk: int, nunits: nat) {
    more.Some? ==> more.value >= brk && SbrkBytes(nunits) == Request(nunits) * HEADER
  }

  class Heap {
    const base: int           // the static header
    var ptr: map<int, int>    // s.ptr of each header in memory
    var size: map<int, int>   // s.size of each header in memory
    var freep: int
    var brk: int              // the first unit sbrk has not handed out

    ghost var ring: seq<int>           // the free list from base upwards
    ghost var blocks: map<int, int>    // every block and its size
    ghost var owner: map<int, int>     // the block of each unit

    ghost predicate Valid()
      reads this
    {
      && 0 < base < brk
      && (freep == 0 ==> ring == [] && blocks == map[] && owner == map[])
      && (freep != 0 ==> StateOk(base, brk, Now(), {}) && freep in ring)
    }

    // The blocks in the program's hands, and their sizes.
    ghost function Allocated(): map<int, int>
      reads this
    {
      Alloc(Now())
    }

    ghost function Now(): State
      reads this
    {
      State(ring, ptr, size, blocks, owner)
    }

    constructor (base: int, brk: int)
      requires 0 < base < brk
      ensures Valid() && blocks == map[] && this.base == base && this.brk == brk
    {
      this.base, this.brk, freep := base, brk, 0;
      ptr, size, ring, blocks, owner := map[], map[], [], map[], map[];
    }

    // The search loop of free: the last free block below bp.
    method FindPlace(bp: int) returns (p: int, ghost i: nat)
      requires freep != 0 && RingOk(base, ring, ptr) && freep in ring && base < bp && bp !in ring
      ensures Place(ring, i, bp) && p == ring[i] && LastBelow(ring, bp, p)
    {
      hide Linked; hide LastBelow;
      ghost var n := |ring|;
      ghost var j := PlaceOf(ring, bp);
      p := freep;
      i :| 0 <= i < n && ring[i] == p;
      NextOf(i);
      while !(bp > p && bp < ptr[p])
        invariant i < n && p == ring[i] && p in ptr
        decreases Steps(i, j, n)
      {
        NextOf(i);
        if p >= ptr[p] && (bp > p || bp < ptr[p]) {
          break;
        }
        p := ptr[p];
        i := Succ(i, n);
        NextOf(i);
      }
      NextOf(i);
      PlaceIsLast(ring, i, bp);
    }

    lemma NextOf(i: nat)
      requires Linked(ring, ptr) && i < |ring|
      ensures ring[i] in ptr && ptr[ring[i]] == ring[Succ(i, |ring|)]
    {
      MemberLinked(ring, ptr, i);
    }

    lemma FreeReady(bp: int)
      requires Valid() && bp in Allocated()
      ensures freep != 0 && RingOk(base, ring, ptr) && base < bp && bp !in ring && bp in blocks && bp in size
          && Allocated()[bp] == blocks[bp] == size[bp]
    {}

    // free
    method Free(ap: int)
      requires Valid() && ap - 1 in Allocated()
      modifies this
      ensures Valid() && freep != 0 && brk == old(brk) && owner.Keys == old(owner.Keys)
      ensures Allocated() == old(Allocated()) - {ap - 1}
      ensures HasFree(Now(), old(Allocated())[ap - 1]) && |ring| <= |old(ring)| + 1
      ensures LastBelow(old(ring), ap - 1, freep)
      ensures FreeAsBefore(old(ring), old(size), ring, size, ap - 1, ap - 1 + old(Allocated())[ap - 1])
    {
      hide StateOk; hide Alloc; hide Linked; hide End; hide HasFree; hide RingOk; hide LastBelow; hide FreeAsBefore;
      var bp := ap - 1;
      ghost var s := Now();
      FreeReady(bp);
      ghost var i;
      var p;
      p, i := FindPlace(bp);
      UpperTest(base, brk, s, i, bp);
      ghost var t := FreedOk(base, brk, s, i, bp, p);
      FreedBlocks(base, brk, s, t, i, bp, p);
      if bp + size[bp] == ptr[p] {
        size := size[bp := size[bp] + size[ptr[p]]];
        ptr := ptr[bp := ptr[ptr[p]]];
      } else {
        ptr := ptr[bp := ptr[p]];
      }
      if p + size[p] == bp {
        size := size[p := size[p] + size[bp]];
        ptr := ptr[p := ptr[bp]];
      } else {
        ptr := ptr[p := bp];
      }
      assert ptr == t.ptr && size == t.size;
      freep := p;
      ring, blocks, owner := t.ring, t.blocks, t.owner;
      assert Now() == t && t.ring[i] in t.ring;
    }

    // No free block has n units.
    ghost predicate Unfit(n: int)
      reads this
    {
      !HasFree(Now(), n)
    }

    // morecore. `more` is what sbrk answers.
    method Morecore(nunits: nat, more: Option<int>) returns (p: int)
      requires Valid() && freep != 0 && nunits >= 1 && Answer(more, brk, nunits)
      modifies this
      ensures Valid() && freep != 0
      ensures more.None? ==> p == 0 && Now() == old(Now()) && freep == old(freep) && brk == old(brk)
      ensures more.Some? ==> p == freep && HasFree(Now(), nunits) && Allocated() == old(Allocated())
      ensures more.Some? ==> owner.Keys == old(owner.Keys) + Units(more.value, Request(nunits))
      ensures more.Some? ==> brk == more.value + if nunits < 4096 then 4096 else nunits
      ensures more.Some? ==> LastBelow(old(ring), more.value, freep)
      ensures more.Some? ==> FreeAsBefore(old(ring), old(size), ring, size, more.value, brk)
      ensures |ring| <= |old(ring)| + 1
    {
      hide StateOk; hide Alloc; hide HasFree; hide LastBelow; hide FreeAsBefore;
      var nu := nunits;
      if nu < 4096 {
        nu := 4096;
      }
      if more.None? {
        return 0;
      }
      var hp := more.value;
      ghost var s := Now();
      GrownOk(base, brk, s, hp, nu);
      size := size[hp := nu];
      brk := hp + nu;
      blocks, owner := blocks[hp := nu], Extended(owner, hp, nu);
      assert Now() == Grown(s, hp, nu);
      Free(hp + 1);
      GrownAsBefore(s.ring, s.size, ring, size, hp, nu);
      MoreFree(Now(), nu, nunits);
      assert old(Allocated())[hp := nu] - {hp} == old(Allocated()) by { NotAllocated(s, hp); }
      p := freep;
    }

    // The search of malloc has looked at every block from just after freep up to ring[i].
    ghost predicate Searched(f: nat, i: nat, n: int)
      reads this
    {
      && f < |ring| && i < |ring| && ring[f] == freep
      && (forall j | 0 <= j < |ring| && Steps(Succ(f, |ring|), j, |ring|) < Steps(Succ(f, |ring|), i, |ring|) ::
            ring[j] in size && size[ring[j]] < n)
    }

    lemma SearchStarts(f: nat, n: int)
      requires f < |ring| && ring[f] == freep
      ensures Searched(f, Succ(f, |ring|), n)
    {}

    lemma SearchStep(f: nat, i: nat, n: int)
      requires Searched(f, i, n) && ring[i] in size && size[ring[i]] < n && i != f
      ensures Searched(f, Succ(i, |ring|), n)
    {
      StepsSucc(Succ(f, |ring|), i, |ring|);
    }

    lemma FreepAt() returns (f: nat)
      requires Valid() && freep != 0
      ensures f < |ring| && ring[f] == freep
    {
      f :| f < |ring| && ring[f] == freep;
    }

    // Once the search is back at freep, nothing fits.
    lemma SearchEnds(f: nat, n: int)
      requires Searched(f, f, n) && ring[f] in size && size[ring[f]] < n && Valid() && freep != 0
      ensures !HasFree(Now(), n) && forall x | x in ring :: x in size && size[x] < n
    {
      StepsSucc(f, f, |ring|);
      hide RingOk; hide TilesOk; hide GapsOk;
      forall j | 0 <= j < |ring|
        ensures ring[j] in size && size[ring[j]] < n
      {
        if j != f {
          StepsSucc(f, j, |ring|);
          assert Steps(Succ(f, |ring|), j, |ring|) < Steps(Succ(f, |ring|), f, |ring|);
        }
      }
    }

    // The block at which the search stops is the first that fits.
    lemma SearchFinds(f: nat, i: nat, n: int)
      requires Valid() && freep != 0 && Searched(f, i, n) && ring[i] in size && size[ring[i]] >= n
      ensures FirstFit(ring, size, freep, n, ring[i])
    {
      hide Linked; hide TilesOk; hide GapsOk; hide HeadersOk;
      forall j | 0 <= j < |ring| && MetBefore(freep, ring[j], ring[i])
        ensures ring[j] in size && size[ring[j]] < n
      {
        assert Steps(Succ(f, |ring|), j, |ring|) < Steps(Succ(f, |ring|), i, |ring|);
      }
    }

    // No free block has n units, but the one that ends with the memory sbrk gave last.
    ghost predicate OnlyLast(was: seq<int>, hp: int, n: int)
      reads this
    {
      forall x | x in ring :: x in size && (size[x] < n || (x + size[x] == brk && (x == hp || x in was)))
    }

    lemma GrownFits(s: State, hp: int, n: int)
      requires Valid() && freep != 0 && FreeAsBefore(s.ring, s.size, ring, size, hp, brk)
      requires forall x | x in s.ring :: x in s.size && s.size[x] < n
      ensures OnlyLast(s.ring, hp, n)
    {
      hide RingOk; hide TilesOk;
      BaseDefined(base, brk, Now(), {});
      forall x | x in ring && x in size && x <= hp < brk <= x + size[x]
        ensures x + size[x] == brk
      {}
    }

    lemma FitIsLast(was: seq<int>, hp: int, n: int, x: int)
      requires OnlyLast(was, hp, n) && x in ring && x in size && size[x] >= n
      ensures x + size[x] == brk && (x == hp || x in was)
    {}

    // A block of n units lies ahead of ring[i], no further than freep.
    ghost predicate Ahead(f: nat, i: nat, g: nat, n: int)
      reads this
    {
      && f < |ring| && i < |ring| && ring[f] == freep
      && g < |ring| && ring[g] in size && size[ring[g]] >= n
      && Steps(i, g, |ring|) <= Steps(i, f, |ring|)
    }

    // After morecore, a block that fits is met within one trip round the ring.
    lemma AheadStarts(n: int) returns (f: nat, g: nat)
      requires Valid() && freep != 0 && HasFree(Now(), n)
      ensures f < |ring| && g < |ring| && ring[f] == freep && Ahead(f, Succ(f, |ring|), g, n)
    {
      f :| f < |ring| && ring[f] == freep;
      var a :| a in ring && a in blocks && blocks[a] >= n;
      g :| g < |ring| && ring[g] == a;
      StepsSucc(f, f, |ring|);
    }

    lemma AheadStep(f: nat, i: nat, g: nat, n: int)
      requires Ahead(f, i, g, n) && i != g && i != f
      ensures Ahead(f, Succ(i, |ring|), g, n) && Steps(Succ(i, |ring|), g, |ring|) < Steps(i, g, |ring|)
    {
      StepsSucc(i, g, |ring|);
      StepsSucc(i, f, |ring|);
    }

    // prevp->s.ptr = p->s.ptr
    method TakeWhole(p: int, prevp: int, ghost k: nat)
      requires Valid() && freep != 0 && 1 <= k < |ring| && ring[k] == p && ring[k - 1] == prevp && p in size
      modifies this
      ensures p in old(blocks) && old(blocks)[p] == old(size)[p] && p !in old(Allocated())
      ensures StateOk(base, brk, Now(), {}) && freep == old(freep) && brk == old(brk) && owner.Keys == old(owner.Keys)
      ensures Allocated() == old(Allocated())[p := old(size)[p]] && prevp in ring && prevp != 0 && p > base
      ensures ring == Removed(old(ring), k)
    {
      hide StateOk; hide Alloc;
      ghost var s := Now();
      FreeBlock(base, brk, s, {}, k);
      TakenWholeOk(base, brk, s, k - 1);
      ptr := ptr[prevp := ptr[p]];
      ring := Removed(ring, k);
      assert Now() == TakenWhole(s, k - 1);
    }

    // p->s.size -= nunits; p += p->s.size; p->s.size = nunits
    method TakeTail(p: int, prevp: int, nunits: int, ghost k: nat) returns (b: int)
      requires Valid() && freep != 0 && 1 <= k < |ring| && ring[k] == p && ring[k - 1] == prevp && p in size
      requires size[p] > nunits >= 1
      modifies this
      ensures b !in old(Allocated()) && b > base
      ensures StateOk(base, brk, Now(), {}) && freep == old(freep) && brk == old(brk) && owner.Keys == old(owner.Keys)
      ensures Allocated() == old(Allocated())[b := nunits] && prevp in ring && prevp != 0
      ensures ring == old(ring) && b == p + old(size)[p] - nunits
    {
      hide StateOk; hide Alloc;
      ghost var s := Now();
      FreeBlock(base, brk, s, {}, k);
      TakenTailOk(base, brk, s, k, nunits);
      ghost var t := TakenTail(s, p, nunits);
      size := size[p := size[p] - nunits];
      b := p + size[p];
      size := size[b := nunits];
      blocks, owner := t.blocks, t.owner;
      assert Now() == t;
    }

    // Take nunits from the free block p == ring[k], whose predecessor is prevp.
    method Take(p: int, prevp: int, nunits: int, ghost k: nat) returns (r: int)
      requires Valid() && freep != 0 && 1 <= k < |ring| && ring[k] == p && ring[k - 1] == prevp
      requires p in size && size[p] >= nunits >= 1
      modifies this
      ensures Valid() && freep == prevp != 0 && brk == old(brk) && owner.Keys == old(owner.Keys)
      ensures r > 1 && r - 1 !in old(Allocated()) && Allocated() == old(Allocated())[r - 1 := nunits]
      ensures r - 1 == p + old(size)[p] - nunits && LastBelow(ring, p, freep)
    {
      hide StateOk; hide Alloc;
      FreeBlock(base, brk, Now(), {}, k);
      BeforeIsLast(ring, k);
      RemovedMembers(ring, k);
      hide Rising; hide Removed;
      var b := p;
      if size[p] == nunits {
        TakeWhole(p, prevp, k);
      } else {
        b := TakeTail(p, prevp, nunits, k);
      }
      freep := prevp;
      r := b + 1;
    }

    // One step of the walk round the ring.
    lemma At(i: nat)
      requires Valid() && freep != 0 && i < |ring|
      ensures ring[i] in ptr && ring[i] in size && ptr[ring[i]] == ring[Succ(i, |ring|)]
      ensures i == 0 ==> size[ring[i]] == 0
    {
      MemberLinked(ring, ptr, i);
      assert i > 0 ==> ring[i] in blocks;
    }

    lemma FitIsFree(i: nat, n: nat)
      requires Valid() && freep != 0 && i < |ring| && ring[i] in size && size[ring[i]] >= n >= 1
      ensures HasFree(Now(), n) && i >= 1
    {
      assert i > 0 ==> ring[i] in blocks;
    }

    lemma SamePlace(i: nat, j: nat)
      requires Valid() && freep != 0 && i < |ring| && j < |ring| && ring[i] == ring[j]
      ensures i == j
    {
      hide Linked; hide TilesOk; hide GapsOk; hide HeadersOk;
    }

    // A block that is ahead of a place it has reached is at that place, or still to come.
    lemma AheadIsHere(f: nat, i: nat, g: nat, n: int)
      requires i < |ring| && ring[i] in size && size[ring[i]] < n
      ensures Ahead(f, i, g, n) ==> i != f && i != g
    {}

    // The first call makes a ring of the static header alone.
    method Init()
      requires Valid() && freep == 0
      modifies this
      ensures Valid() && freep == base && ring == [base] && brk == old(brk)
      ensures blocks == map[] && blocks == old(blocks) && owner == old(owner) && Allocated() == old(Allocated())
    {
      ptr := ptr[base := base];
      freep := base;
      size := size[base := 0];
      ring := [base];
    }

    // The loop of malloc: which free block it stops at, how often it calls morecore, and how many blocks it
    // looks at before and after.
    method Search(nunits: nat, more: Option<int>)
      returns (r: int, ghost a: int, ghost grew: bool, ghost calls: nat, ghost before: nat, ghost after: nat)
      requires Valid() && freep != 0 && nunits >= 1 && Answer(more, brk, nunits)
      modifies this
      ensures Valid() && grew == (more.Some? && old(Unfit(nunits)))
      ensures r == 0 <==> more.None? && old(Unfit(nunits))
      ensures !grew ==> brk == old(brk) && owner.Keys == old(owner.Keys)
      ensures r == 0 ==> Now() == old(Now()) && freep == old(freep)
      ensures r != 0 ==> r - 1 !in old(Allocated()) && Allocated() == old(Allocated())[r - 1 := nunits]
      ensures r != 0 ==> LastBelow(ring, a, freep)
      ensures r != 0 && !grew ==>
          FirstFit(old(ring), old(size), old(freep), nunits, a) && r - 1 == a + old(size)[a] - nunits
      ensures grew ==> owner.Keys == old(owner.Keys) + Units(more.value, Request(nunits))
      ensures grew ==> brk == more.value + if nunits < 4096 then 4096 else nunits
      ensures grew ==> r - 1 == brk - nunits && (a == more.value || a in old(ring))
      ensures calls == if old(Unfit(nunits)) then 1 else 0
      ensures 1 <= before <= |old(ring)| && after <= |old(ring)| + 1 && (after > 0 <==> grew)
    {
      hide StateOk; hide Alloc; hide HasFree; hide Searched; hide Ahead; hide Request; hide Units; hide Steps;
      hide Answer; hide FirstFit; hide LastBelow; hide FreeAsBefore; hide OnlyLast; hide Valid;
      a, grew, calls, before, after := 0, false, 0, 0, 0;
      ghost var s := Now();
      var prevp := freep;
      ghost var f: nat := FreepAt();
      ghost var k: nat, i: nat, g: nat := f, Succ(f, |ring|), 0;
      At(k);
      SearchStarts(f, nunits);
      StepsSucc(f, f, |ring|);
      var p := ptr[prevp];
      while true
        invariant Valid() && freep != 0
        invariant f < |ring| && ring[f] == freep && i < |ring| && p == ring[i]
        invariant k < |ring| && prevp == ring[k] && Succ(k, |ring|) == i
        invariant !grew ==> Now() == s && freep == old(freep) && brk == old(brk) && Searched(f, i, nunits)
        invariant grew ==> Allocated() == old(Allocated())
        invariant g < |ring| && (grew ==> more.Some? && old(Unfit(nunits)) && Ahead(f, i, g, nunits))
        invariant grew ==> owner.Keys == old(owner.Keys) + Units(more.value, Request(nunits))
        invariant grew ==> brk == more.value + if nunits < 4096 then 4096 else nunits
        invariant grew ==> OnlyLast(s.ring, more.value, nunits)
        invariant calls == if grew then 1 else 0
        invariant !grew ==> before + Steps(i, f, |ring|) == |ring| - 1 && after == 0
        invariant grew ==> 1 <= before <= |old(ring)| && |ring| <= |old(ring)| + 1
        invariant grew ==> after + Steps(i, g, |ring|) < |ring|
        decreases if grew then 0 else 1, if grew then Steps(i, g, |ring|) else Steps(i, f, |ring|)
      {
        At(i);
        before, after := if grew then before else before + 1, if grew then after + 1 else after;
        if size[p] >= nunits {
          FitIsFree(i, nunits);
          a := p;
          if grew {
            FitIsLast(s.ring, more.value, nunits, p);
          } else {
            SearchFinds(f, i, nunits);
          }
          r := Take(p, prevp, nunits, k + 1);
          return;
        }
        if p == freep {
          SamePlace(i, f);
          AheadIsHere(f, f, g, nunits);
          assert !grew;
          SearchEnds(f, nunits);
          p := Morecore(nunits, more);
          calls := calls + 1;
          if p == 0 {
            r := 0;
            return;
          }
          grew := true;
          GrownFits(s, more.value, nunits);
          f, g := AheadStarts(nunits);
          At(f);
          prevp, k := p, f;
          p, i := ptr[p], Succ(f, |ring|);
        } else {
          if grew {
            AheadIsHere(f, i, g, nunits);
            AheadStep(f, i, g, nunits);
          } else {
            SearchStep(f, i, nunits);
            StepsSucc(i, f, |ring|);
          }
          prevp, k := p, i;
          p, i := ptr[p], Succ(i, |ring|);
        }
      }
    }

    // malloc: null is returned only if no free block fits and sbrk gives no more; otherwise the end of the first
    // block that fits, searched for from where the last call left off, or the end of the new memory.
    method Malloc(nbytes: nat, more: Option<int>) returns (r: int, ghost a: int, ghost grew: bool)
      requires Valid() && nbytes < UINT && Answer(more, brk, Nunits(nbytes))
      modifies this
      ensures Valid() && grew == (more.Some? && old(Unfit(Nunits(nbytes))))
      ensures r == 0 <==> more.None? && old(Unfit(Nunits(nbytes)))
      ensures !grew ==> brk == old(brk) && owner.Keys == old(owner.Keys)
      ensures r == 0 ==> Allocated() == old(Allocated())
      ensures r == 0 && old(freep) != 0 ==> Now() == old(Now()) && freep == old(freep)
      ensures r != 0 ==> r - 1 !in old(Allocated()) && Allocated() == old(Allocated())[r - 1 := Nunits(nbytes)]
      ensures r != 0 ==> LastBelow(ring, a, freep)
      ensures r != 0 && !grew ==>
          FirstFit(old(ring), old(size), old(freep), Nunits(nbytes), a) && r - 1 == a + old(size)[a] - Nunits(nbytes)
      ensures grew ==> owner.Keys == old(owner.Keys) + Units(more.value, Request(Nunits(nbytes)))
      ensures grew ==> brk == more.value + if Nunits(nbytes) < 4096 then 4096 else Nunits(nbytes)
      ensures grew ==> r - 1 == brk - Nunits(nbytes)
    {
      hide StateOk; hide Alloc; hide HasFree; hide Searched; hide Ahead; hide Request; hide FirstFit; hide LastBelow;
      var nunits := Nunits(nbytes);
      if freep == 0 {
        NoneFree(Now(), nunits);
        Init();
        NoneFree(Now(), nunits);
      }
      ghost var calls, before, after;
      r, a, grew, calls, before, after := Search(nunits, more);
    }
  }

  lemma NoneFree(s: State, n: int)
    requires s.blocks == map[]
    ensures !HasFree(s, n)
  {}

  lemma MoreFree(s: State, m: int, n: int)
    requires HasFree(s, m) && n <= m
    ensures HasFree(s, n)
  {}

  lemma GrownAsBefore(ring: seq<int>, size: map<int, int>, r: seq<int>, z: map<int, int>, hp: int, n: int)
    requires FreeAsBefore(ring, size[hp := n], r, z, hp, hp + n)
    ensures FreeAsBefore(ring, size, r, z, hp, hp + n)
  {}

  lemma NotAllocated(s: State, hp: int)
    requires hp !in s.blocks
    ensures hp !in Alloc(s)
  {}

  ghost function PlaceOf(ring: seq<int>, bp: int): (j: nat)
    requires Rising(ring) && |ring| > 0 && ring[0] < bp && bp !in ring
    ensures Place(ring, j, bp)
  {
    var n := |ring| - 1;
    if ring[n] < bp then n else PlaceOf(ring[..n], bp)
  }
}
