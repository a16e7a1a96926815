/** The allocator of physical frames: a list threaded through the free pages themselves. A frame
    number stands for the kernel address of the frame, 0 for a null pointer. */
module Kalloc {
  import opened VmSpec

  function Next(free: seq<nat>, k: nat): nat {
    if k + 1 < |free| then free[k + 1] else 0
  }

  // The pages of free, each linked to the next by its first word.
  predicate Chain(mem: Mem, head: nat, free: seq<nat>) {
    && head == (if free == [] then 0 else free[0])
    && (forall k | 0 <= k < |free| :: free[k] < |mem|)
    && (forall k | 0 <= k < |free| :: mem[free[k]][0] == Next(free, k))
  }

  predicate Distinct(free: seq<nat>) {
    forall j, k | 0 <= j < k < |free| :: free[j] != free[k]
  }

  // Every frame behind the kernel is either on the list or in use.
  ghost predicate Partition(free: seq<nat>, first: nat, used: set<nat>) {
    forall f: nat :: f in free || f in used <==> first <= f < FRAMES
  }

  ghost predicate FreeOk(mem: Mem, head: nat, free: seq<nat>, first: nat, used: set<nat>) {
    && |mem| == FRAMES && 0 < first
    && Chain(mem, head, free) && Distinct(free) && Partition(free, first, used)
    && forall f | f in free :: f !in used
  }

  // memset(v, 1, PGSIZE), then r->next = next
  function Junk(next: nat): (p: Page)
    requires next < FRAMES
    ensures p[0] == next && forall k | 1 <= k < ENTRIES :: p[k] == 0x0101_0101
  {
    seq(ENTRIES, _ => 0x0101_0101)[0 := next]
  }

  // Writing to a page in use does not disturb the list.
  lemma UsedWriteKeeps(mem: Mem, head: nat, free: seq<nat>, first: nat, used: set<nat>, f: nat, p: Page)
    requires FreeOk(mem, head, free, first, used) && f in used
    ensures f < |mem| && FreeOk(mem[f := p], head, free, first, used)
  {
    forall k | 0 <= k < |free|
      ensures free[k] != f
    {
      assert free[k] in free;
    }
  }

  lemma TakeHead(mem: Mem, head: nat, free: seq<nat>, first: nat, used: set<nat>)
    requires FreeOk(mem, head, free, first, used) && head != 0
    ensures free != [] && head == free[0] && head < |mem| && head !in used && first <= head
    ensures FreeOk(mem, mem[head][0], free[1..], first, used + {head})
  {
    assert free[0] in free;
    assert mem[free[0]][0] == Next(free, 0);
    forall k | 0 <= k < |free[1..]|
      ensures mem[free[1..][k]][0] == Next(free[1..], k)
    {
      assert free[1..][k] == free[k + 1];
      assert mem[free[k + 1]][0] == Next(free, k + 1);
    }
    forall f: nat
      ensures f in free <==> f == head || f in free[1..]
    {
      if f in free[1..] {
        var k :| 0 <= k < |free| - 1 && free[1..][k] == f;
        assert free[k + 1] == f;
      }
    }
    forall f | f in free[1..]
      ensures f !in used + {head}
    {
      var k :| 0 <= k < |free| - 1 && free[1..][k] == f;
      assert free[k + 1] == f && free[0] != free[k + 1];
    }
  }

  lemma PutChain(mem: Mem, head: nat, free: seq<nat>, f: nat)
    requires |mem| == FRAMES && Chain(mem, head, free) && f !in free && head < FRAMES && f < FRAMES
    ensures Chain(mem[f := Junk(head)], f, [f] + free)
  {
    var mem', free' := mem[f := Junk(head)], [f] + free;
    forall k | 0 <= k < |free'|
      ensures free'[k] < |mem'| && mem'[free'[k]][0] == Next(free', k)
    {
      if k > 0 {
        var i := k - 1;
        assert free'[k] == free[i] && free[i] in free && mem[free[i]][0] == Next(free, i);
        assert Next(free', k) == Next(free, i);
      }
    }
  }

  lemma PutHead(mem: Mem, head: nat, free: seq<nat>, first: nat, used: set<nat>, f: nat)
    requires FreeOk(mem, head, free, first, used) && f in used && head < FRAMES
    ensures f < |mem| && FreeOk(mem[f := Junk(head)], f, [f] + free, first, used - {f})
  {
    hide Chain;
    var free' := [f] + free;
    assert f !in free;
    PutChain(mem, head, free, f);
    forall k | 0 <= k < |free|
      ensures free[k] in free
    {}
    forall g: nat
      ensures g in free' <==> g == f || g in free
    {
      if g in free {
        var k :| 0 <= k < |free| && free[k] == g;
        assert free'[k + 1] == g;
      }
    }
  }

  class Kmem {
    var mem: Mem
    var freelist: nat
    ghost var free: seq<nat>
    const first: nat  // the first frame after the kernel

    ghost predicate Free(used: set<nat>)
      reads this
    {
      FreeOk(mem, freelist, free, first, used)
    }

    // Memory before freerange: nothing is free, so all of it counts as used.
    constructor (mem: Mem, first: nat, ghost used: set<nat>)
      requires |mem| == FRAMES && 0 < first <= FRAMES && forall f: nat :: f in used <==> first <= f < FRAMES
      ensures this.mem == mem && this.first == first && Free(used)
    {
      this.mem, this.first, freelist := mem, first, 0;
      free := [];
    }

    method Kfree(f: nat, ghost used: set<nat>)
      requires Free(used) && f in used
      modifies this`mem, this`freelist, this`free
      ensures first <= f < FRAMES && Free(used - {f})
      ensures |mem| == FRAMES == |old(mem)| && mem == old(mem)[f := mem[f]]
      ensures free == [f] + old(free) && forall k | 1 <= k < 1024 :: mem[f][k] == 0x0101_0101
      ensures freelist == f && mem[f][0] == old(freelist)
    {
      PutHead(mem, freelist, free, first, used, f);
      mem := mem[f := Junk(freelist)];
      freelist := f;
      free := [f] + free;
    }

    // Everything in [vstart, vend), in whole pages.
    method FreeRange(vstart: nat, vend: nat, ghost used: set<nat>)
      requires Free(used) && forall f | PageUp(vstart) <= f < vend / PGSIZE :: f in used
      modifies this`mem, this`freelist, this`free
      ensures Free(set f | f in used && !(PageUp(vstart) <= f < vend / PGSIZE))
      ensures var lo, hi := (vstart + 4095) / 4096, vend / 4096;
        free == Downwards(lo, if lo <= hi then hi - lo else 0) + old(free)
    {
      hide FreeOk;
      var p := PageUp(vstart) * PGSIZE;
      ghost var u := used;
      while p + PGSIZE <= vend
        invariant p % PGSIZE == 0 && (p / PGSIZE == PageUp(vstart) || PageUp(vstart) <= p / PGSIZE <= vend / PGSIZE)
        invariant Free(u) && u == (set f | f in used && !(PageUp(vstart) <= f < p / PGSIZE))
        invariant free == Downwards(PageUp(vstart), p / PGSIZE - PageUp(vstart)) + old(free)
      {
        assert p / PGSIZE in u;
        DownwardsNext(PageUp(vstart), p / PGSIZE - PageUp(vstart));
        Kfree(p / PGSIZE, u);
        u := u - {p / PGSIZE};
        p := p + PGSIZE;
      }
      assert u == set f | f in used && !(PageUp(vstart) <= f < vend / PGSIZE);
    }

    // 0 if there is no free frame.
    method Kalloc(ghost used: set<nat>) returns (f: nat)
      requires Free(used)
      modifies this`freelist, this`free
      ensures |mem| == FRAMES && (f == 0 <==> old(free) == [])
      ensures f == 0 ==> Free(used) && free == [] && forall g | first <= g < FRAMES :: g in used
      ensures f != 0 ==> Free(used + {f}) && first <= f < FRAMES && f !in used
      ensures f == old(freelist) && (f != 0 ==> freelist == mem[f][0] && old(free) == [f] + free)
    {
      if free != [] {
        assert free[0] in free;
      }
      f := freelist;
      if f != 0 {
        TakeHead(mem, freelist, free, first, used);
        freelist := mem[f][0];
        free := free[1..];
      }
    }
  }

  // The n numbers from lo on, the greatest first.
  function Downwards(lo: nat, n: nat): (s: seq<nat>)
    ensures |s| == n && forall k | 0 <= k < n :: s[k] == lo + n - 1 - k
  {
    seq(n, k requires 0 <= k < n => lo + n - 1 - k)
  }

  lemma DownwardsNext(lo: nat, n: nat)
    ensures Downwards(lo, n + 1) == [lo + n] + Downwards(lo, n)
  {}

  // PGROUNDUP(a) / PGSIZE
  function PageUp(a: nat): nat { (a + PGSIZE - 1) / PGSIZE }
}
