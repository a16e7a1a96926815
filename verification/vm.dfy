/** Page tables over the frame allocator: walking, mapping, growing and shrinking user memory,
    building, copying and freeing address spaces. */
module Vm {
  import opened Machine
  import opened VmSpec
  import opened VmOps
  import opened VmFrames
  import opened Kalloc
  import opened Mmu
  import opened VmSees

  // The frame of page v became v's, if v is a user page.
  function NowUser(owner: map<nat, Use>, d: nat, v: nat, f: nat): map<nat, Use> {
    if v < USERPAGES then MapUser(owner, d, v, f) else owner
  }

  // Pages lo <= w < hi are mapped to the frames from f on.
  ghost predicate RangeMapped(mem: Mem, mem': Mem, d: nat, lo: nat, hi: nat, f: nat, perm: nat)
    requires d < |mem| == |mem'| && perm < PGSIZE
  {
    forall w: nat {:trigger Pte(mem', d, w)} {:trigger Pte(mem, d, w)} | w < ALLPAGES ::
      Pte(mem', d, w) == if lo <= w < hi then MkEntry(f + (w - lo), perm) else Pte(mem, d, w)
  }

  datatype KMap = KMap(virt: nat, physStart: nat, physEnd: nat, perm: nat)

  function KMaps(data: nat): (ks: seq<KMap>)
    requires KERNLINK < data
  {
    [KMap(KERNBASE, 0, EXTMEM, PTE_W), KMap(KERNLINK, KERNLINK - KERNBASE, data - KERNBASE, 0),
     KMap(data, data - KERNBASE, PHYSTOP, PTE_W), KMap(DEVSPACE, DEVSPACE, 0, PTE_W)]
  }

  // The page behind the first k entries of the table.
  function Bound(data: nat, k: nat): nat {
    if k == 0 then USERPAGES else if k == 1 then KERNLINK / PGSIZE else if k == 2 then data / PGSIZE
    else if k == 3 then USERPAGES + FRAMES else ALLPAGES
  }

  predicate DataOk(data: nat) {
    data % PGSIZE == 0 && KERNLINK < data < KERNBASE + PHYSTOP
  }

  // No user pages yet, and the first k entries of the kernel's table.
  ghost predicate KernelMapped(mem: Mem, d: nat, data: nat, k: nat)
    requires d < |mem|
  {
    forall v: nat {:trigger Pte(mem, d, v)} | v < ALLPAGES ::
      Pte(mem, d, v) == if v < Bound(data, k) then KernEntry(data, v) else 0
  }

  class Space {
    const km: Kmem
    const data: nat  // where the kernel's data starts
    ghost var owner: map<nat, Use>

    // Every frame is on the free list or has one use, and the tables agree with the uses.
    ghost predicate Valid()
      reads this, km
    {
      km.Free(owner.Keys) && Owned(km.mem, owner)
    }

    ghost predicate Dir(d: nat)
      reads this, km
    {
      IsDir(km.mem, owner, d)
    }

    constructor (km: Kmem, data: nat)
      requires km.Free({}) && DataOk(data)
      ensures Valid() && this.km == km && this.data == data && owner == map[]
    {
      this.km, this.data, owner := km, data, map[];
    }

    // Write a page that is in use.
    method Store(f: nat, p: Page)
      requires km.Free(owner.Keys) && f in owner
      modifies km`mem
      ensures f < FRAMES == |km.mem| && km.mem == old(km.mem)[f := p] && km.Free(owner.Keys)
    {
      UsedWriteKeeps(km.mem, km.freelist, km.free, km.first, owner.Keys, f, p);
      km.mem := km.mem[f := p];
    }

    // walkpgdir: the table with the entry for va; 0 if there is none and none can be made.
    method Walk(d: nat, va: nat, alloc: bool) returns (t: nat)
      requires Valid() && Dir(d) && va < UINT
      modifies km, this`owner
      ensures Valid() && Dir(d) && |km.mem| == |old(km.mem)| == FRAMES && t < FRAMES
      ensures TablesAdded(old(km.mem), old(owner), km.mem, owner, d) && SamePtes(old(km.mem), km.mem, d)
      ensures t != 0 ==> HasTable(km.mem, d, va / PGSIZE) && t == Frame(km.mem[d][va / PGSIZE / ENTRIES])
      ensures t == 0 ==> !Present(old(km.mem)[d][va / PGSIZE / ENTRIES])
      ensures t == 0 || !alloc || Present(old(km.mem)[d][va / PGSIZE / ENTRIES]) ==>
          km.mem == old(km.mem) && owner == old(owner) && km.free == old(km.free)
      ensures t != 0 && !Present(old(km.mem)[d][va / PGSIZE / ENTRIES]) ==>
                && alloc && t !in old(owner) && owner == old(owner)[t := Table(d, va / PGSIZE / ENTRIES)]
                && km.mem == WithTable(old(km.mem)[t := ZeroPage()], d, va / PGSIZE / ENTRIES, t)
      ensures t == 0 && alloc ==> forall f | km.first <= f < FRAMES :: f in owner
      ensures var i := va / PGSIZE / ENTRIES;
        Took(old(km.mem)[d], |old(km.free)|, km.mem[d], |km.free|, i, i + 1) && (t != 0 ==> Present(km.mem[d][i]))
      ensures t == 0 && alloc ==> km.free == []
    {
      hide Owned; hide FreeOk; hide Pte; hide Present; hide Frame; hide MkEntry; hide Took;
      TookNone(km.mem[d], |km.free|, va / PGSIZE / ENTRIES, va / PGSIZE / ENTRIES + 1);
      TablesAddedSelf(km.mem, owner, d);
      UsedAbove(km.mem, km.freelist, km.free, km.first, owner.Keys, d);
      var i := va / PGSIZE / ENTRIES;
      var e := km.mem[d][i];
      if Present(e) {
        EntryOwned(km.mem, owner, d, i);
        UsedAbove(km.mem, km.freelist, km.free, km.first, owner.Keys, Frame(e));
        return Frame(e);
      }
      if !alloc {
        return 0;
      }
      t := km.Kalloc(owner.Keys);
      if t == 0 {
        return 0;
      }
      InstallStep(km.mem, owner, d, i, t, ZeroPage());
      TookOne(km.mem[d], |old(km.free)|, i, MkEntry(t, PTE_W + PTE_U));
      owner := owner[t := Table(d, i)];
      assert owner.Keys == old(owner).Keys + {t};
      Store(t, ZeroPage());
      Store(d, km.mem[d][i := MkEntry(t, PTE_W + PTE_U)]);
    }

    // A turn of the loop of mappages. m1 and o1 are what the walk leaves.
    method MapOne(d: nat, a: nat, p: nat, perm: nat)
      returns (panic: bool, ok: bool, ghost m1: Mem, ghost o1: map<nat, Use>)
      requires Valid() && Dir(d) && perm < PGSIZE && a % PGSIZE == 0 && a < UINT && p / PGSIZE < ALLPAGES
      requires a / PGSIZE < USERPAGES ==> p / PGSIZE in owner && owner[p / PGSIZE] == Other
      modifies km, this`owner
      ensures Valid() && Dir(d) && |km.mem| == |old(km.mem)| == |m1|
      ensures TablesAdded(old(km.mem), old(owner), m1, o1, d) && SamePtes(old(km.mem), m1, d)
      ensures !ok ==> km.mem == m1 && owner == o1
      ensures panic ==> !ok && Present(Pte(m1, d, a / PGSIZE))
      ensures !ok && !panic ==> km.free == [] && !Present(km.mem[d][a / PGSIZE / ENTRIES])
      ensures !ok && !panic ==> forall f | km.first <= f < FRAMES :: f in owner
      ensures ok ==>
                && !Present(Pte(m1, d, a / PGSIZE)) && owner == NowUser(o1, d, a / PGSIZE, p / PGSIZE)
                && TablesAdded(m1, owner, km.mem, owner, d)
                && forall w: nat | w < ALLPAGES ::
                     Pte(km.mem, d, w) == if w == a / PGSIZE then MkEntry(p / PGSIZE, perm) else Pte(m1, d, w)
      ensures var i := a / PGSIZE / ENTRIES;
        Took(old(km.mem)[d], |old(km.free)|, km.mem[d], |km.free|, i, i + 1) && (ok ==> Present(km.mem[d][i]))
    {
      hide Owned; hide FreeOk; hide Pte; hide Present; hide Frame; hide MkEntry; hide SamePtes; hide TablesAdded;
      hide HasTable; hide Took; hide NowUser;
      var t := Walk(d, a, true);
      ghost var v := a / PGSIZE;
      m1, o1 := km.mem, owner;
      if t == 0 {
        return false, false, m1, o1;
      }
      TableHere(m1, o1, d, v);
      if Present(km.mem[t][a / PGSIZE % ENTRIES]) {
        return true, false, m1, o1;  // remap
      }
      MapStep(m1, o1, d, v, p / PGSIZE, perm);
      owner := NowUser(owner, d, v, p / PGSIZE);
      Store(t, km.mem[t][a / PGSIZE % ENTRIES := MkEntry(p / PGSIZE, perm)]);
      panic, ok := false, true;
    }

    // mappages. Meeting a present entry is a panic.
    method MapPages(d: nat, va: nat, size: nat, pa: nat, perm: nat) returns (panic: bool, r: int)
      requires Valid() && Dir(d) && perm < PGSIZE && pa % PGSIZE == 0
      requires size > 0 && va + size <= UINT && pa + PGSIZE + size <= UINT + PGSIZE
      requires pa / PGSIZE + (va + size - 1) / PGSIZE - va / PGSIZE < ALLPAGES
      requires va / PGSIZE < USERPAGES ==>
                 (va + size - 1) / PGSIZE == va / PGSIZE && pa / PGSIZE in owner && owner[pa / PGSIZE] == Other
      modifies km, this`owner
      ensures Valid() && Dir(d) && |km.mem| == |old(km.mem)|
      ensures r == 0 || r == -1
      ensures panic ==> r == -1 && !NoneMapped(old(km.mem), d, va / PGSIZE, (va + size - 1) / PGSIZE + 1)
      ensures r == -1 && !panic ==> forall f | km.first <= f < FRAMES :: f in owner
      ensures r == 0 ==> RangeSeen(old(km.mem), km.mem, d, va / 4096, (va + size - 1) / 4096 + 1, pa / 4096, perm)
      ensures r == 0 ==>
                && NoneMapped(old(km.mem), d, va / PGSIZE, (va + size - 1) / PGSIZE + 1)
                && TablesAdded(old(km.mem), NowUser(old(owner), d, va / PGSIZE, pa / PGSIZE), km.mem, owner, d)
                && RangeMapped(old(km.mem), km.mem, d, va / PGSIZE, (va + size - 1) / PGSIZE + 1, pa / PGSIZE, perm)
      ensures r == -1 ==> TablesAdded(old(km.mem), old(owner), km.mem, owner, d)
      ensures r == -1 ==> forall w: nat | w < USERPAGES :: Pte(km.mem, d, w) == Pte(old(km.mem), d, w)
      ensures var lo, hi := va / PGSIZE, (va + size - 1) / PGSIZE + 1;
        && Took(old(km.mem)[d], |old(km.free)|, km.mem[d], |km.free|, lo / ENTRIES, Upto(lo, hi))
        && (r == 0 ==> HaveTables(km.mem[d], lo / ENTRIES, Upto(lo, hi)))
        && (r == -1 && !panic ==> km.free == [] && !HaveTables(km.mem[d], lo / ENTRIES, Upto(lo, hi)))
    {
      hide Owned; hide FreeOk; hide Pte; hide Present; hide Frame; hide MkEntry; hide SamePtes; hide TablesAdded;
      hide HasTable; hide NoneMapped; hide RangeMapped; hide RangeSeen; hide Took; hide HaveTables; hide Upto;
      hide Made;
      ghost var m0, o0, lo, f0 := km.mem, owner, va / PGSIZE, pa / PGSIZE;
      ghost var n0, hi := |km.free|, (va + size - 1) / PGSIZE + 1;
      MadeNone(m0[d], n0, lo);
      var a, p := va / PGSIZE * PGSIZE, pa;
      var last := (va + size - 1) / PGSIZE * PGSIZE;
      TablesAddedSelf(m0, o0, d);
      NoPagesYet(m0, d, lo, f0, perm);
      LastPage(va, size);
      panic := false;
      while true
        invariant a % PGSIZE == 0 && p % PGSIZE == 0 && lo * PGSIZE <= a <= last && p / PGSIZE == f0 + (a / PGSIZE - lo)
        invariant Valid() && Dir(d) && |km.mem| == |m0|
        invariant TablesAdded(m0, o0, km.mem, owner, d) && RangeMapped(m0, km.mem, d, lo, a / PGSIZE, f0, perm)
        invariant !panic && NoneMapped(m0, d, lo, a / PGSIZE)
        invariant lo < USERPAGES ==> a == last && km.mem == m0 && owner == o0
        invariant Made(m0[d], n0, km.mem[d], |km.free|, lo, a / PGSIZE)
        decreases last - a
      {
        ghost var before, ownedBefore := km.mem, owner;
        ghost var n := |km.free|;
        ghost var v := a / PGSIZE;
        ghost var m1, o1;
        var ok;
        panic, ok, m1, o1 := MapOne(d, a, p, perm);
        MadeNext(m0[d], n0, before[d], n, km.mem[d], |km.free|, lo, v, hi);
        TablesAddedTrans(m0, o0, before, ownedBefore, m1, o1, d);
        RangeWalked(m0, before, m1, d, lo, v, f0, perm);
        NoneMappedNext(m0, d, lo, v, last / PGSIZE + 1);
        if !ok {
          if !panic {
            NotThere(km.mem[d], lo, v, hi);
          }
          return panic, -1;
        }
        MappedSoFar(m0, o0, m1, o1, km.mem, d, lo, v, f0, perm);
        if a == last {
          RangeIs(m0, o0, km.mem, owner, d, lo, v + 1, f0, perm);
          AllMade(m0[d], n0, km.mem[d], |km.free|, lo, hi);
          return false, 0;
        }
        NextPage(a);
        NextPage(p);
        a := a + PGSIZE;
        p := p + PGSIZE;
      }
    }

    // A frame for data, filled in; 0 if there is none.
    method NewPage(p: Page) returns (f: nat)
      requires Valid()
      modifies km, this`owner
      ensures Valid() && |km.mem| == |old(km.mem)| == FRAMES
      ensures f == 0 ==> km.mem == old(km.mem) && owner == old(owner) && old(km.free) == []
      ensures f != 0 ==> |km.free| == |old(km.free)| - 1
      ensures f != 0 ==>
                f < FRAMES && f !in old(owner) && owner == old(owner)[f := Other] && km.mem == old(km.mem)[f := p]
      ensures Untouched(old(km.mem), old(owner), km.mem, owner)
    {
      hide Owned; hide FreeOk;
      f := km.Kalloc(owner.Keys);
      if f != 0 {
        NewPageStep(km.mem, owner, f, p);
        owner := owner[f := Other];
        assert owner.Keys == old(owner).Keys + {f};
        Store(f, p);
      }
    }

    method FreePage(f: nat)
      requires Valid() && f in owner && owner[f] == Other
      modifies km, this`owner
      ensures Valid() && owner == old(owner) - {f} && Untouched(old(km.mem), owner, km.mem, owner)
    {
      hide Owned; hide FreeOk;
      km.Kfree(f, owner.Keys);
      FreePageStep(old(km.mem), owner, f, km.mem[f]);
      owner := owner - {f};
      assert owner.Keys == old(owner).Keys - {f};
    }

    // One turn of deallocuvm's loop, where t is the table for address a.
    method UnmapEntry(t: nat, a: nat, ghost d: nat, ghost m0: Mem, ghost o0: map<nat, Use>, ghost lo: nat)
      requires Valid() && Dir(d) && Owned(m0, o0) && IsDir(m0, o0, d)
      requires a % PGSIZE == 0 && lo <= a / PGSIZE < USERPAGES && Unmapped(m0, o0, km.mem, owner, d, lo, a / PGSIZE)
      requires HasTable(km.mem, d, a / PGSIZE) && t == Frame(km.mem[d][a / PGSIZE / ENTRIES])
      modifies km, this`owner
      ensures Valid() && Dir(d) && |km.mem| == |old(km.mem)|
      ensures Unmapped(m0, o0, km.mem, owner, d, lo, a / PGSIZE + 1)
    {
      hide Owned; hide FreeOk; hide Pte; hide Present; hide Frame; hide Unmapped;
      ghost var v, m1, o1 := a / PGSIZE, km.mem, owner;
      TableHere(m1, o1, d, v);
      var e := km.mem[t][a / PGSIZE % ENTRIES];
      if Present(e) {
        PteOwned(m1, o1, d, v);
        km.Kfree(Frame(e), owner.Keys);
        UnmapStep(m0, o0, m1, o1, d, lo, v, km.mem[Frame(e)]);
        owner := owner - {Frame(e)};
        assert owner.Keys == o1.Keys - {Frame(e)};
        Store(t, km.mem[t][a / PGSIZE % ENTRIES := 0]);
      } else {
        NotHere(m0, o0, km.mem, owner, d, lo, v);
        UnmapSkip(m0, o0, km.mem, owner, d, lo, v, v + 1);
      }
    }

    // Unmaps and frees exactly the pages that a page-by-page loop would, although it steps over
    // 4 MB at a time where there is no table.
    method DeallocUvm(d: nat, oldsz: nat, newsz: nat) returns (r: nat)
      requires Valid() && Dir(d) && oldsz <= KERNBASE
      modifies km, this`owner
      ensures Valid() && Dir(d) && |km.mem| == |old(km.mem)|
      ensures newsz >= oldsz ==> r == oldsz && km.mem == old(km.mem) && owner == old(owner)
      ensures newsz < oldsz ==> LessMemory(old(km.mem), km.mem, d, newsz, oldsz, 0x1_0000_0000)
      ensures newsz < oldsz ==>
                r == newsz && Unmapped(old(km.mem), old(owner), km.mem, owner, d, PageUp(newsz), PageUp(oldsz))
    {
      hide Owned; hide FreeOk; hide Pte; hide Present; hide Frame; hide Unmapped; hide TablesAdded; hide SamePtes;
      hide LessMemory; hide Mapping;
      if newsz >= oldsz {
        return oldsz;
      }
      ghost var m0, o0, lo, hi := km.mem, owner, PageUp(newsz), PageUp(oldsz);
      UnmappedNone(m0, o0, d, lo);
      var a := PageUp(newsz) * PGSIZE;
      while a < oldsz
        invariant a % PGSIZE == 0 && lo <= a / PGSIZE <= USERPAGES && (hi <= a / PGSIZE ==> a >= oldsz)
        invariant Valid() && Dir(d) && |km.mem| == |m0| && Unmapped(m0, o0, km.mem, owner, d, lo, a / PGSIZE)
        invariant forall x: nat | hi <= x < a / PGSIZE && x < USERPAGES :: !Present(Pte(m0, d, x))
        decreases oldsz - a
      {
        ghost var v := a / PGSIZE;
        var t := Walk(d, a, false);
        if t == 0 {
          SkipTo(a);
          a := (a / (PGSIZE * ENTRIES) + 1) * (PGSIZE * ENTRIES) - PGSIZE;
          NoTableHere(m0, o0, km.mem, owner, d, lo, v, a / PGSIZE + 1);
          UnmapSkip(m0, o0, km.mem, owner, d, lo, v, a / PGSIZE + 1);
        } else {
          UnmapEntry(t, a, d, m0, o0, lo);
        }
        NextPage(a);
        a := a + PGSIZE;
      }
      UnmapTrim(m0, o0, km.mem, owner, d, lo, hi, a / PGSIZE);
      UnmappedMapping(m0, o0, km.mem, owner, d, lo, hi);
      LessMemoryIs(m0, o0, km.mem, owner, d, newsz, oldsz, 0x1_0000_0000);
      r := newsz;
    }

    // Frees the directory, its tables and its user pages, and nothing else.
    method FreeVm(d: nat)
      requires Valid() && Dir(d)
      modifies km, this`owner
      ensures Valid() && |km.mem| == |old(km.mem)| == FRAMES
      ensures owner == old(owner) - FramesOf(old(owner), d)
      ensures Untouched(old(km.mem), owner, km.mem, owner)
    {
      hide Owned; hide FreeOk; hide Pte; hide Present; hide Frame; hide Unmapped;
      ghost var m0, o0 := km.mem, owner;
      var _ := DeallocUvm(d, KERNBASE, 0);
      ghost var m1, o1 := km.mem, owner;
      FramesLeft(m0, o0, m1, o1, d);
      ghost var used: set<nat> := o1.Keys;
      var i := 0;
      while i < ENTRIES
        invariant i <= ENTRIES && owner == o1 && km.Free(used) && used == o1.Keys - TablesIn(o1, d, i)
            && |km.mem| == |m1|
        invariant forall f | f in used && f < |m1| :: km.mem[f] == m1[f]
        invariant km.mem[d] == m1[d]
      {
        TablesNext(m1, o1, d, i);
        var e := km.mem[d][i];
        if Present(e) {
          km.Kfree(Frame(e), used);
          used := used - {Frame(e)};
        }
        i := i + 1;
      }
      NotATable(o1, d);
      km.Kfree(d, used);
      DropDirKeeps(m1, o1, d);
      owner := o1 - FramesOf(o1, d);
      assert used - {d} == owner.Keys;
      UntouchedOwned(m1, owner, km.mem);
    }

    // Entry k of the kernel's table.
    method MapKernel(d: nat, k: nat, ghost m0: Mem, ghost o0: map<nat, Use>, ghost n0: nat) returns (ok: bool)
      requires Valid() && Dir(d) && |km.mem| == |m0| == FRAMES && DataOk(data) && k < 4
      requires Owned(m0, o0) && d !in o0 && NewSpace(m0, o0, km.mem, owner, d)
      requires KernelMapped(km.mem, d, data, k) && KernelRow(n0, km.mem[d], |km.free|)
      modifies km, this`owner
      ensures Valid() && Dir(d) && |km.mem| == |m0| && NewSpace(m0, o0, km.mem, owner, d)
      ensures ok ==> KernelMapped(km.mem, d, data, k + 1) && KernelRow(n0, km.mem[d], |km.free|)
      ensures !ok ==> n0 < 65
    {
      hide Owned; hide FreeOk; hide Pte; hide Present; hide Frame; hide MkEntry; hide NewSpace; hide TablesAdded;
      hide KernelMapped; hide RangeMapped; hide Untouched; hide KMaps; hide RangeSeen; hide KernelRow; hide Took;
      hide HaveTables; hide Upto; hide NoneMapped; hide KernelTable;
      KMapBounds(data, k);
      KMapTables(data, k);
      var m := KMaps(data)[k];
      var size := (m.physEnd - m.physStart) % UINT;
      KernelRange(km.mem, d, data, k);
      ghost var m1, o1, n1, lo, hi := km.mem, owner, |km.free|, m.virt / PGSIZE, (m.virt + size - 1) / PGSIZE + 1;
      KernelUnmapped(m1, d, data, k);
      var _, r := MapPages(d, m.virt, size, m.physStart, m.perm);
      KernelRowNext(n0, m1[d], n1, km.mem[d], |km.free|, lo / ENTRIES, Upto(lo, hi));
      NewSpaceGrows(m0, o0, m1, o1, km.mem, owner, d);
      if r < 0 {
        KernelRowShort(n0, km.mem[d], lo / ENTRIES, Upto(lo, hi));
        return false;
      }
      KernelMappedNext(m1, km.mem, d, data, k);
      ok := true;
    }

    // A new directory with the kernel's mappings, or 0 and no frame taken.
    method SetupKvm() returns (d: nat)
      requires Valid() && DataOk(data)
      modifies km, this`owner
      ensures Valid() && |km.mem| == |old(km.mem)| == FRAMES
      ensures d == 0 ==> owner == old(owner) && Untouched(old(km.mem), owner, km.mem, owner)
      ensures d != 0 ==> Dir(d) && d !in old(owner) && NewSpace(old(km.mem), old(owner), km.mem, owner, d)
      ensures d != 0 ==> KernelMapped(km.mem, d, data, 4) && KernelSpace(km.mem, d, data)
      ensures d == 0 <==> |old(km.free)| < 65
      ensures d != 0 ==> |km.free| == |old(km.free)| - 65 && forall i | 0 <= i < 512 :: !Present(km.mem[d][i])
    {
      hide Owned; hide FreeOk; hide Pte; hide Present; hide Frame; hide MkEntry; hide NewSpace; hide TablesAdded;
      hide KernelMapped;
      hide RangeMapped; hide Untouched; hide KMaps; hide KernelSpace; hide RangeSeen; hide KernelRow; hide Took;
      hide HaveTables; hide Upto; hide NoneMapped; hide KernelTable;
      ghost var m0, o0, n0 := km.mem, owner, |km.free|;
      d := km.Kalloc(owner.Keys);
      if d == 0 {
        UntouchedSelf(m0, o0);
        return 0;
      }
      NewDirStep(m0, o0, d, ZeroPage());
      owner := owner[d := Use.Dir];
      assert owner.Keys == o0.Keys + {d};
      Store(d, ZeroPage());
      NothingMapped(km.mem, d, data);
      KernelRowStart(n0);
      var k := 0;
      while k < 4
        invariant k <= 4 && Valid() && Dir(d) && |km.mem| == |m0| == FRAMES
        invariant NewSpace(m0, o0, km.mem, owner, d) && KernelMapped(km.mem, d, data, k)
        invariant KernelRow(n0, km.mem[d], |km.free|)
      {
        var ok := MapKernel(d, k, m0, o0, n0);
        if !ok {
          SpaceRemoved(m0, o0, km.mem, owner, d);
          ghost var m2, o2 := km.mem, owner;
          FreeVm(d);
          UntouchedAfter(m0, o0, m2, o2, km.mem, d);
          return 0;
        }
        k := k + 1;
      }
      KernelIs(km.mem, owner, d, data);
      KernelTabled(km.mem, d, data);
      KernelRowDone(n0, km.mem[d], |km.free|);
    }

    // Grows the user memory from oldsz to newsz by pages of zeros. Meeting a page that is mapped
    // already is a panic. A failure unmaps the pages of the range and leaves the others as they were;
    // only page-table pages may be left over.
    method AllocUvm(d: nat, oldsz: nat, newsz: nat) returns (panic: bool, r: nat)
      requires Valid() && Dir(d) && oldsz < UINT && newsz < UINT
      modifies km, this`owner
      ensures Valid() && Dir(d) && |km.mem| == |old(km.mem)|
      ensures newsz >= 0x8000_0000 ==> !panic && r == 0 && km.mem == old(km.mem) && owner == old(owner)
      ensures newsz < oldsz && newsz < KERNBASE ==>
                !panic && r == oldsz && km.mem == old(km.mem) && owner == old(owner)
      ensures oldsz <= newsz < KERNBASE ==> r == newsz || r == 0
      ensures panic ==> oldsz <= newsz < KERNBASE && !NoneMapped(old(km.mem), d, PageUp(oldsz), PageUp(newsz))
      ensures oldsz <= newsz < 0x8000_0000 && !panic && r == newsz ==>
                MoreMemory(old(km.mem), old(owner).Keys, km.mem, d, oldsz, newsz)
      ensures oldsz <= newsz < 0x8000_0000 && !panic && r != newsz ==>
                LessMemory(old(km.mem), km.mem, d, oldsz, newsz, 0x8000_0000)
      ensures oldsz <= newsz < KERNBASE && !panic && r == newsz ==>
                && NoneMapped(old(km.mem), d, PageUp(oldsz), PageUp(newsz))
                && PagesAdded(old(km.mem), old(owner), km.mem, owner, d, PageUp(oldsz), PageUp(newsz), 0)
      ensures oldsz <= newsz < KERNBASE && !panic && r != newsz ==>
                GivenBack(old(km.mem), old(owner), km.mem, owner, d, PageUp(oldsz), PageUp(newsz), 0)
      ensures oldsz <= newsz < 0x8000_0000 && !panic ==>
                (r == newsz <==>
                 |old(km.free)| >= FramesFor(old(km.mem)[d], (oldsz + 4095) / 4096, (newsz + 4095) / 4096))
    {
      hide Owned; hide FreeOk; hide Pte; hide Present; hide Frame; hide PagesAdded; hide KeptAndNew; hide TablesAdded;
      hide Unmapped;
      hide MapUser; hide RangeMapped; hide MkEntry; hide UserPagesOf; hide PtesAdded; hide Untouched; hide Flags;
      hide MoreMemory; hide LessMemory; hide GivenBack; hide Going; hide FramesFor; hide Took;
      if newsz >= KERNBASE {
        return false, 0;
      }
      if newsz < oldsz {
        return false, oldsz;
      }
      ghost var m0, o0, lo, hi := km.mem, owner, PageUp(oldsz), PageUp(newsz);
      ghost var n0 := |km.free|;
      PagesAddedNone(m0, o0, d, lo);
      GoingStart(m0[d], n0, lo);
      var a := PageUp(oldsz) * PGSIZE;
      while a < newsz
        invariant a % PGSIZE == 0 && lo <= a / PGSIZE <= hi
        invariant Valid() && Dir(d) && |km.mem| == |m0| && PagesAdded(m0, o0, km.mem, owner, d, lo, a / PGSIZE, 0)
        invariant NoneMapped(m0, d, lo, a / PGSIZE)
        invariant Going(m0[d], n0, km.mem[d], |km.free|, lo, a / PGSIZE)
        decreases newsz - a
      {
        var more;
        ghost var row, n := km.mem[d], |km.free|;
        panic, more := AddPage(d, a, oldsz, newsz, m0, o0);
        if !more {
          if !panic {
            GoingShort(m0[d], n0, row, n, lo, a / PGSIZE, hi);
            GivenBackIs(m0, o0, km.mem, owner, d, oldsz, newsz);
          }
          return panic, 0;
        }
        GoingNext(m0[d], n0, row, n, km.mem[d], |km.free|, lo, a / PGSIZE);
        a := a + PGSIZE;
      }
      GoingDone(m0[d], n0, km.mem[d], |km.free|, lo, hi);
      MoreMemoryIs(m0, o0, km.mem, owner, d, oldsz, newsz);
      return false, newsz;
    }

    // One turn of allocuvm's loop: kalloc, memset, mappages, or all the way back.
    method AddPage(d: nat, a: nat, oldsz: nat, newsz: nat, ghost m0: Mem, ghost o0: map<nat, Use>)
      returns (panic: bool, more: bool)
      requires Valid() && Dir(d) && Owned(m0, o0) && IsDir(m0, o0, d) && |km.mem| == |m0|
      requires a % PGSIZE == 0 && PageUp(oldsz) <= a / PGSIZE && a < newsz < KERNBASE
      requires PagesAdded(m0, o0, km.mem, owner, d, PageUp(oldsz), a / PGSIZE, 0)
      requires NoneMapped(m0, d, PageUp(oldsz), a / PGSIZE)
      modifies km, this`owner
      ensures Valid() && Dir(d) && |km.mem| == |m0|
      ensures panic ==> !more && !NoneMapped(m0, d, PageUp(oldsz), PageUp(newsz))
      ensures more ==> NoneMapped(m0, d, PageUp(oldsz), a / PGSIZE + 1)
      ensures more ==> PagesAdded(m0, o0, km.mem, owner, d, PageUp(oldsz), a / PGSIZE + 1, 0)
      ensures !panic && !more ==> GivenBack(m0, o0, km.mem, owner, d, PageUp(oldsz), PageUp(newsz), 0)
      ensures var i := a / PGSIZE / ENTRIES;
        && (more ==> Took(old(km.mem)[d], |old(km.free)|, km.mem[d], |km.free| + 1, i, i + 1) && Present(km.mem[d][i]))
        && (!panic && !more ==> |old(km.free)| < 1 + Absent(old(km.mem)[d], i, i + 1))
    {
      hide Owned; hide FreeOk; hide Pte; hide Frame; hide KeptAndNew; hide TablesAdded; hide Unmapped;
      hide MapUser; hide RangeMapped; hide MkEntry; hide UserPagesOf; hide PtesAdded; hide Untouched; hide Flags;
      hide Present; hide GivenBack; hide NoneMapped; hide Took; hide Absent; hide HaveTables; hide Upto;
      ghost var lo, hi, v, m1, o1 := PageUp(oldsz), PageUp(newsz), a / PGSIZE, km.mem, owner;
      AddedParts(m0, o0, m1, o1, d, lo, v, 0);
      var f := NewPage(ZeroPage());
      if f == 0 {
        var _ := DeallocUvm(d, newsz, oldsz);
        RolledBack(m0, o0, m1, o1, km.mem, owner, d, lo, v, hi, 0);
        return false, false;
      }
      ZeroUnused(km.mem, km.freelist, km.free, km.first, owner.Keys);
      PageTaken(m0, o0, m1, o1, d, lo, v, f);
      ghost var m2, o2, n2 := km.mem, owner, |km.free|;
      OnePage(v);
      AddedParts(m0, o0, m2, o2, d, lo, v, f);
      NoneNext(m0, m2, d, lo, v, hi);
      FreshFrame(m0, o0, m1, o1, d, lo, v, f);
      var r;
      panic, r := MapPages(d, a, PGSIZE, f * PGSIZE, PTE_W + PTE_U);
      if panic {
        return true, false;
      }
      ghost var m3, o3 := km.mem, owner;
      TookPage(m2[d], n2, m3[d], |km.free|, v / ENTRIES);
      if r < 0 {
        PageFailed(m0, o0, m2, o2, m3, o3, d, lo, v, f);
        var _ := DeallocUvm(d, newsz, oldsz);
        RolledBack(m0, o0, m3, o3, km.mem, owner, d, lo, v, hi, f);
        StillOther(m2, o2, m3, o3, km.mem, owner, d, lo, hi, f);
        ghost var m4, o4 := km.mem, owner;
        FreePage(f);
        DropKeepsDir(m4, o4, d, f);
        FreedLast(m0, o0, m4, o4, km.mem, d, lo, hi, f);
        return false, false;
      }
      RangeOne(m2, m3, d, v, f);
      PageAdded(m0, o0, m2, o2, m3, o3, d, lo, v, f);
      more := true;
    }

    // A copy of the user memory below sz in a new address space, with frames of its own; or 0, and
    // every frame taken on the way is free again. Meeting a page that is not mapped is a panic.
    method CopyUvm(d: nat, sz: nat) returns (panic: bool, c: nat)
      requires Valid() && DataOk(data) && Dir(d) && sz <= KERNBASE
      modifies km, this`owner
      ensures Valid() && |km.mem| == |old(km.mem)|
      ensures panic ==> c == 0 && !AllMapped(old(km.mem), d, PageUp(sz))
      ensures c != 0 ==> AllMapped(old(km.mem), d, PageUp(sz))
      ensures c == 0 && !panic ==> owner == old(owner) && Untouched(old(km.mem), owner, km.mem, owner)
      ensures c != 0 ==> Dir(c) && c !in old(owner) && NewSpace(old(km.mem), old(owner), km.mem, owner, c)
      ensures c != 0 ==> Copied(old(km.mem), old(owner), km.mem, d, c, PageUp(sz), data)
      ensures c != 0 ==> SpaceCopied(old(km.mem), old(owner).Keys, km.mem, d, c, sz, data)
      ensures var n := (sz + 4095) / 4096;
        !panic ==> (c == 0 <==> |old(km.free)| < 65 + n + (n + 1023) / 1024)
    {
      hide Owned; hide FreeOk; hide Pte; hide Frame; hide NewSpace; hide Untouched; hide Copied; hide KernelMapped;
      hide Present; hide SpaceCopied; hide KernelSpace; hide Going; hide FramesFor; hide Took;
      ghost var m0, o0 := km.mem, owner;
      c := SetupKvm();
      panic := false;
      if c == 0 {
        return;
      }
      ghost var row0, n0 := km.mem[c], |km.free|;
      UserFrames(row0, PageUp(sz));
      GoingStart(row0, n0, 0);
      CopiedStart(m0, o0, km.mem, d, c, data);
      var i := 0;
      while i < sz
        invariant i % PGSIZE == 0 && i / PGSIZE <= PageUp(sz) && |km.mem| == |m0| == FRAMES
        invariant Valid() && Dir(c) && NewSpace(m0, o0, km.mem, owner, c)
            && Copied(m0, o0, km.mem, d, c, i / PGSIZE, data)
        invariant !panic && AllMapped(m0, d, i / PGSIZE)
        invariant Going(row0, n0, km.mem[c], |km.free|, 0, i / PGSIZE)
        decreases sz - i
      {
        var ok;
        ghost var row, n := km.mem[c], |km.free|;
        panic, ok := CopyPage(d, c, i, m0, o0);
        if panic {
          return true, 0;
        }
        if !ok {
          GoingShort(row0, n0, row, n, 0, i / PGSIZE, PageUp(sz));
          SpaceRemoved(m0, o0, km.mem, owner, c);
          ghost var m2, o2 := km.mem, owner;
          FreeVm(c);
          UntouchedAfter(m0, o0, m2, o2, km.mem, c);
          return false, 0;
        }
        GoingNext(row0, n0, row, n, km.mem[c], |km.free|, 0, i / PGSIZE);
        i := i + PGSIZE;
      }
      GoingDone(row0, n0, km.mem[c], |km.free|, 0, PageUp(sz));
      CopySpaceIs(m0, o0, km.mem, owner, d, c, sz, data);
    }

    // One turn of copyuvm's loop.
    method CopyPage(d: nat, c: nat, i: nat, ghost m0: Mem, ghost o0: map<nat, Use>) returns (panic: bool, ok: bool)
      requires Valid() && Dir(c) && Owned(m0, o0) && IsDir(m0, o0, d) && c !in o0 && |km.mem| == |m0| == FRAMES
      requires i % PGSIZE == 0 && i < KERNBASE
      requires NewSpace(m0, o0, km.mem, owner, c) && Copied(m0, o0, km.mem, d, c, i / PGSIZE, data)
      modifies km, this`owner
      ensures Valid() && Dir(c) && |km.mem| == |m0| && NewSpace(m0, o0, km.mem, owner, c)
      ensures panic <==> !Present(Pte(m0, d, i / PGSIZE))
      ensures panic ==> !ok
      ensures ok ==> Copied(m0, o0, km.mem, d, c, i / PGSIZE + 1, data)
      ensures var j := i / PGSIZE / ENTRIES;
        && (ok ==> Took(old(km.mem)[c], |old(km.free)|, km.mem[c], |km.free| + 1, j, j + 1) && Present(km.mem[c][j]))
        && (!panic && !ok ==> |old(km.free)| < 1 + Absent(old(km.mem)[c], j, j + 1))
    {
      hide Owned; hide FreeOk; hide Pte; hide Frame; hide NewSpace; hide Untouched; hide Copied; hide Present;
      hide TablesAdded;
      hide MapUser; hide RangeMapped; hide MkEntry; hide KernEntry; hide Flags; hide Took; hide Absent;
      hide HaveTables; hide Upto; hide NoneMapped;
      ghost var v, m1, o1 := i / PGSIZE, km.mem, owner;
      OnePage(v);
      ParentPage(m0, o0, m1, o1, d, c, v);
      var t := Walk(d, i, false);
      if t == 0 {
        return true, false;  // pte should exist
      }
      var e := km.mem[t][i / PGSIZE % ENTRIES];
      TableHere(m1, o1, d, v);
      if !Present(e) {
        return true, false;  // page not present
      }
      panic := false;
      var f := NewPage(km.mem[Frame(e)]);
      if f == 0 {
        return false, false;
      }
      ghost var m2, o2, n2 := km.mem, owner, |km.free|;
      FreshForCopy(m0, o0, m1, o1, c, f);
      SamePages(m1, o1, f, m1[Frame(e)], c);
      NotCopiedYet(m0, o0, m1, d, c, v, data);
      NoneCopiedYet(m2, c, v);
      var _, r := MapPages(c, i, PGSIZE, f * PGSIZE, Flags(e));
      ghost var m3, o3 := km.mem, owner;
      TookPage(m2[c], n2, m3[c], |km.free|, v / ENTRIES);
      if r < 0 {
        CopyFailed(m0, o0, m1, o1, m1[Frame(e)], m3, o3, c, f);
        FreePage(f);
        CopyFreed(m0, o0, m3, o3, km.mem, c, f);
        return false, false;
      }
      RangeFrom(m1, m2, m3, c, v, f, Flags(e));
      CopySpace(m0, o0, m1, o1, m3, o3, c, v, f, m1[Frame(e)]);
      CopyStep(m0, o0, m1, o1, m3, o3, d, c, v, f, e, data);
      ok := true;
    }
  }

  lemma RangeIs(m0: Mem, o0: map<nat, Use>, m1: Mem, o1: map<nat, Use>, d: nat, lo: nat, hi: nat, f: nat, perm: nat)
    requires Owned(m0, o0) && IsDir(m0, o0, d) && Owned(m1, o1) && IsDir(m1, o1, d) && |m0| == |m1| && perm < PGSIZE
    requires RangeMapped(m0, m1, d, lo, hi, f, perm)
    ensures RangeSeen(m0, m1, d, lo, hi, f, perm)
  {
    RangeSeenIs(m0, o0, m1, o1, d, lo, hi, f, perm);
  }

  lemma KernelIs(mem: Mem, owner: map<nat, Use>, d: nat, data: nat)
    requires Owned(mem, owner) && IsDir(mem, owner, d) && DataOk(data) && KernelMapped(mem, d, data, 4)
    ensures KernelSpace(mem, d, data)
  {
    hide Owned; hide Pte; hide KernEntry;
    KernelSpaceIs(mem, owner, d, data);
  }

  lemma GivenBackIs(m0: Mem, o0: map<nat, Use>, m1: Mem, o1: map<nat, Use>, d: nat, lo: nat, hi: nat)
    requires Owned(m0, o0) && IsDir(m0, o0, d) && Owned(m1, o1) && IsDir(m1, o1, d) && |m0| == |m1|
    requires GivenBack(m0, o0, m1, o1, d, PageUp(lo), PageUp(hi), 0)
    ensures LessMemory(m0, m1, d, lo, hi, 0x8000_0000)
  {
    hide Owned; hide Pte; hide Mapping; hide KeptAndNew;
    LessMemoryIs(m0, o0, m1, o1, d, lo, hi, 0x8000_0000);
  }

  lemma CopiedStart(m0: Mem, o0: map<nat, Use>, m1: Mem, d: nat, c: nat, data: nat)
    requires d < |m0| && c < |m1| && KernelMapped(m1, c, data, 4)
    ensures Copied(m0, o0, m1, d, c, 0, data)
  {
    hide Pte; hide KernEntry;
    forall v: nat | v < ALLPAGES
      ensures Pte(m1, c, v) == KernEntry(data, v)
    {}
    CopiedNone(m0, o0, m1, d, c, data);
  }

  // The parent's page is where it was.
  lemma ParentPage(m0: Mem, o0: map<nat, Use>, m1: Mem, o1: map<nat, Use>, d: nat, c: nat, v: nat)
    requires Owned(m0, o0) && IsDir(m0, o0, d) && NewSpace(m0, o0, m1, o1, c) && v < USERPAGES
    ensures IsDir(m1, o1, d) && Pte(m1, d, v) == Pte(m0, d, v)
    ensures !Present(m1[d][v / ENTRIES]) ==> !Present(Pte(m0, d, v))
    ensures Present(Pte(m0, d, v)) ==> var f := Frame(Pte(m0, d, v)); f < |m0| == |m1| && m1[f] == m0[f]
  {
    UntouchedPte(m0, o0, m1, o1, d, v);
    if Present(Pte(m0, d, v)) {
      PteOwned(m0, o0, d, v);
    }
  }

  lemma FreshForCopy(m0: Mem, o0: map<nat, Use>, m1: Mem, o1: map<nat, Use>, c: nat, f: nat)
    requires Owned(m0, o0) && NewSpace(m0, o0, m1, o1, c) && f !in o1
    ensures f !in o0
  {
    if f in o0 {
      UsesIn(m0, o0, f);
    }
  }

  lemma SamePages(mem: Mem, owner: map<nat, Use>, f: nat, p: Page, c: nat)
    requires Owned(mem, owner) && f < |mem| && f !in owner && IsDir(mem, owner, c)
    ensures IsDir(mem[f := p], owner[f := Other], c)
    ensures var m2 := mem[f := p]; forall v: nat | v < ALLPAGES :: Pte(m2, c, v) == Pte(mem, c, v)
  {
    hide Owned; hide Pte;
    var m2 := mem[f := p];
    forall v: nat | v < ALLPAGES
      ensures Pte(m2, c, v) == Pte(mem, c, v)
    {
      PageWritePte(mem, owner, f, p, c, v);
    }
  }

  lemma NoneCopiedYet(mem: Mem, c: nat, v: nat)
    requires c < |mem| && v < USERPAGES && !Present(Pte(mem, c, v))
    ensures NoneMapped(mem, c, v, v + 1)
  {}

  lemma NotCopiedYet(m0: Mem, o0: map<nat, Use>, m1: Mem, d: nat, c: nat, v: nat, data: nat)
    requires d < |m0| && c < |m1| && Copied(m0, o0, m1, d, c, v, data) && v < USERPAGES
    ensures !Present(Pte(m1, c, v))
  {
    hide Pte; hide PageCopied;
  }

  lemma CopyFailed(m0: Mem, o0: map<nat, Use>, m1: Mem, o1: map<nat, Use>, p: Page, m3: Mem, o3: map<nat, Use>, c: nat,
                   f: nat)
    requires Owned(m0, o0) && c !in o0 && NewSpace(m0, o0, m1, o1, c) && f < |m1| && f !in o1
    requires TablesAdded(m1[f := p], o1[f := Other], m3, o3, c)
    ensures f in o3 && o3[f] == Other && |m3| == |m0| && f !in o0 && Untouched(m0, o0, m3, o3)
    ensures forall g | g in o3 && g !in o0 :: g == f || g == c || Of(o3[g], c)
  {
    FreshForCopy(m0, o0, m1, o1, c, f);
    NoFrames(m0, o0, c);
    hide Owned;
  }

  lemma CopyFreed(m0: Mem, o0: map<nat, Use>, m3: Mem, o3: map<nat, Use>, m4: Mem, c: nat, f: nat)
    requires f !in o0 && |m3| == |m0| && Untouched(m0, o0, m3, o3) && Untouched(m3, o3 - {f}, m4, o3 - {f})
    requires forall g | g in o3 && g !in o0 :: g == f || g == c || Of(o3[g], c)
    ensures |m4| == |m0| && NewSpace(m0, o0, m4, o3 - {f}, c)
  {}

  lemma RangeFrom(m1: Mem, m2: Mem, m3: Mem, c: nat, v: nat, f: nat, perm: nat)
    requires c < |m1| == |m2| == |m3| && perm < PGSIZE && RangeMapped(m2, m3, c, v, v + 1, f, perm)
    requires forall w: nat | w < ALLPAGES :: Pte(m2, c, w) == Pte(m1, c, w)
    ensures forall w: nat | w < ALLPAGES :: Pte(m3, c, w) == if w == v then MkEntry(f, perm) else Pte(m1, c, w)
  {
    hide Pte; hide MkEntry;
  }

  lemma ZeroUnused(mem: Mem, head: nat, free: seq<nat>, first: nat, used: set<nat>)
    requires FreeOk(mem, head, free, first, used)
    ensures 0 !in used
  {}

  // No page of the range before v is mapped, and page v of m0 is as in m2.
  lemma NoneNext(m0: Mem, m2: Mem, d: nat, lo: nat, v: nat, hi: nat)
    requires d < |m0| == |m2| && UserPagesOf(m0, m2, d, lo, v) && lo <= v < USERPAGES && v < hi
    requires NoneMapped(m0, d, lo, v)
    ensures NoneMapped(m2, d, v, v + 1) ==> NoneMapped(m0, d, lo, v + 1)
    ensures !NoneMapped(m2, d, v, v + 1) ==> !NoneMapped(m0, d, lo, hi)
  {
    hide Pte; hide Present;
    assert Pte(m2, d, v) == Pte(m0, d, v);
  }

  // A free frame is none of those in use before.
  lemma FreshFrame(m0: Mem, o0: map<nat, Use>, m1: Mem, o1: map<nat, Use>, d: nat, lo: nat, v: nat, f: nat)
    requires d < |m0| && KeptAndNew(m0, o0, m1, o1, d, lo, v, 0) && f !in o1
    ensures f !in o0
  {}

  lemma StillOther(m2: Mem, o2: map<nat, Use>, m3: Mem, o3: map<nat, Use>, m4: Mem, o4: map<nat, Use>,
                   d: nat, lo: nat, hi: nat, f: nat)
    requires f in o2 && o2[f] == Other && TablesAdded(m2, o2, m3, o3, d) && d < |m3|
        && Unmapped(m3, o3, m4, o4, d, lo, hi)
    ensures f in o4 && o4[f] == Other
  {
    hide Pte;
  }

  lemma DropKeepsDir(mem: Mem, owner: map<nat, Use>, d: nat, f: nat)
    requires Owned(mem, owner) && IsDir(mem, owner, d) && f in owner && owner[f] == Other
    ensures Owned(mem, owner - {f}) && IsDir(mem, owner - {f}, d)
  {
    DropKeeps(mem, owner, f);
    hide Owned;
  }

  lemma RangeOne(m2: Mem, m3: Mem, d: nat, v: nat, f: nat)
    requires d < |m2| == |m3| && RangeMapped(m2, m3, d, v, v + 1, f, PTE_W + PTE_U)
    ensures forall w: nat | w < ALLPAGES :: Pte(m3, d, w) == if w == v then MkEntry(f, PTE_W + PTE_U) else Pte(m2, d, w)
  {
    hide Pte; hide MkEntry;
  }

  lemma UsedAbove(mem: Mem, head: nat, free: seq<nat>, first: nat, used: set<nat>, f: nat)
    requires FreeOk(mem, head, free, first, used) && f in used
    ensures 0 < first <= f < FRAMES == |mem|
  {}

  lemma RangeWalked(m0: Mem, m1: Mem, m2: Mem, d: nat, lo: nat, v: nat, f: nat, perm: nat)
    requires d < |m0| == |m1| == |m2| && perm < PGSIZE && lo <= v < ALLPAGES
    requires RangeMapped(m0, m1, d, lo, v, f, perm) && SamePtes(m1, m2, d)
    ensures RangeMapped(m0, m2, d, lo, v, f, perm) && Pte(m2, d, v) == Pte(m0, d, v)
    ensures v == lo || lo >= USERPAGES ==> forall w: nat | w < USERPAGES :: Pte(m2, d, w) == Pte(m0, d, w)
  {
    hide Pte; hide MkEntry;
  }

  // Mapping one page: the table entry, and for a user page the owner.
  lemma MapStep(mem: Mem, owner: map<nat, Use>, d: nat, v: nat, f: nat, perm: nat)
    requires Owned(mem, owner) && IsDir(mem, owner, d) && v < ALLPAGES && HasTable(mem, d, v) && f < ALLPAGES
        && perm < PGSIZE
    requires !Present(Pte(mem, d, v)) && (v < USERPAGES ==> f in owner && owner[f] == Other)
    ensures MkEntry(f, perm) < UINT
    ensures var m2 := WithPte(mem, d, v, MkEntry(f, perm)); var o2 := NowUser(owner, d, v, f);
      && Owned(m2, o2) && IsDir(m2, o2, d) && o2.Keys == owner.Keys && TablesAdded(mem, o2, m2, o2, d)
      && Frame(mem[d][v / ENTRIES]) in owner && Frame(mem[d][v / ENTRIES]) < |mem|
      && forall w: nat | w < ALLPAGES :: Pte(m2, d, w) == if w == v then MkEntry(f, perm) else Pte(mem, d, w)
  {
    var e := MkEntry(f, perm);
    EntryOwned(mem, owner, d, v / ENTRIES);
    PteWritten(mem, owner, d, v, e, d, 0);
    hide Pte; hide Owned;
    if v < USERPAGES {
      MapUserKeeps(mem, owner, d, v, e);
    } else {
      MapKernelKeeps(mem, owner, d, v, e);
    }
    SetStep(mem, owner, NowUser(owner, d, v, f), d, v, e);
  }

  lemma NowUserAdded(m0: Mem, o0: map<nat, Use>, m1: Mem, o1: map<nat, Use>, d: nat, v: nat, f: nat)
    requires TablesAdded(m0, o0, m1, o1, d) && (v < USERPAGES ==> f in o0 && o0[f] == Other)
    ensures TablesAdded(m0, NowUser(o0, d, v, f), m1, NowUser(o1, d, v, f), d)
  {}

  lemma MappedSoFar(m0: Mem, o0: map<nat, Use>, m1: Mem, o1: map<nat, Use>, m2: Mem, d: nat, lo: nat, v: nat, f: nat,
                    perm: nat)
    requires d < |m0| == |m1| == |m2| && perm < PGSIZE && lo <= v < ALLPAGES
    requires TablesAdded(m0, o0, m1, o1, d) && RangeMapped(m0, m1, d, lo, v, f, perm)
    requires lo < USERPAGES ==> v == lo && f in o0 && o0[f] == Other
    requires var o2 := NowUser(o1, d, v, f + (v - lo)); TablesAdded(m1, o2, m2, o2, d)
    requires forall w: nat | w < ALLPAGES ::
        Pte(m2, d, w) == if w == v then MkEntry(f + (v - lo), perm) else Pte(m1, d, w)
    ensures TablesAdded(m0, NowUser(o0, d, lo, f), m2, NowUser(o1, d, v, f + (v - lo)), d)
    ensures RangeMapped(m0, m2, d, lo, v + 1, f, perm)
  {
    hide Pte; hide MkEntry; hide TablesAdded;
    NowUserAdded(m0, o0, m1, o1, d, lo, f);
    var o2 := NowUser(o1, d, v, f + (v - lo));
    TablesAddedTrans(m0, NowUser(o0, d, lo, f), m1, NowUser(o1, d, lo, f), m2, o2, d);
  }

  // PGADDR(PDX(a) + 1, 0, 0) - PGSIZE, in pages
  lemma SkipTo(a: nat)
    requires a % PGSIZE == 0 && a < KERNBASE
    ensures var b := (a / (PGSIZE * ENTRIES) + 1) * (PGSIZE * ENTRIES) - PGSIZE;
      b % PGSIZE == 0 && a <= b < KERNBASE && b / PGSIZE + 1 == (a / PGSIZE / ENTRIES + 1) * ENTRIES
  {
    assert a / 0x40_0000 == a / 4096 / 1024;
  }

  lemma NextPage(a: nat)
    requires a % PGSIZE == 0
    ensures (a + PGSIZE) % PGSIZE == 0 && (a + PGSIZE) / PGSIZE == a / PGSIZE + 1
  {}

  lemma LastPage(va: nat, size: nat)
    requires size > 0
    ensures var last := (va + size - 1) / PGSIZE * PGSIZE;
      last % PGSIZE == 0 && last / PGSIZE == (va + size - 1) / PGSIZE && va / PGSIZE * PGSIZE <= last
    ensures va / PGSIZE * PGSIZE / PGSIZE == va / PGSIZE && va / PGSIZE * PGSIZE % PGSIZE == 0
  {}

  lemma NoPagesYet(mem: Mem, d: nat, lo: nat, f: nat, perm: nat)
    requires d < |mem| && perm < PGSIZE
    ensures NoneMapped(mem, d, lo, lo) && RangeMapped(mem, mem, d, lo, lo, f, perm)
  {
    hide Pte; hide Present; hide MkEntry;
  }

  lemma NoneMappedNext(mem: Mem, d: nat, lo: nat, v: nat, hi: nat)
    requires d < |mem| && lo <= v < hi && v < ALLPAGES && NoneMapped(mem, d, lo, v)
    ensures !Present(Pte(mem, d, v)) ==> NoneMapped(mem, d, lo, v + 1)
    ensures Present(Pte(mem, d, v)) ==> !NoneMapped(mem, d, lo, hi)
  {
    hide Pte; hide Present;
  }

  lemma TableHere(mem: Mem, owner: map<nat, Use>, d: nat, v: nat)
    requires Owned(mem, owner) && IsDir(mem, owner, d) && v < ALLPAGES && HasTable(mem, d, v)
    ensures var t := Frame(mem[d][v / ENTRIES]);
      && t < |mem| && t in owner && owner[t] == Table(d, v / ENTRIES) && mem[t][v % ENTRIES] == Pte(mem, d, v)
  {
    EntryOwned(mem, owner, d, v / ENTRIES);
  }

  lemma NoTableHere(m0: Mem, o0: map<nat, Use>, m1: Mem, o1: map<nat, Use>, d: nat, lo: nat, v: nat, w: nat)
    requires Owned(m0, o0) && IsDir(m0, o0, d) && v < USERPAGES && Unmapped(m0, o0, m1, o1, d, lo, v)
    requires d < |m1| && !Present(m1[d][v / ENTRIES]) && w == (v / ENTRIES + 1) * ENTRIES
    ensures forall x: nat | v <= x < w && x < USERPAGES :: !Present(Pte(m0, d, x))
  {
    forall x: nat | v <= x < w && x < USERPAGES
      ensures !Present(Pte(m0, d, x))
    {
      assert x / ENTRIES == v / ENTRIES;
      assert Pte(m1, d, x) == 0;
    }
  }

  lemma NotHere(m0: Mem, o0: map<nat, Use>, m1: Mem, o1: map<nat, Use>, d: nat, lo: nat, v: nat)
    requires Owned(m0, o0) && IsDir(m0, o0, d) && v < USERPAGES && Unmapped(m0, o0, m1, o1, d, lo, v)
    requires d < |m1| && !Present(Pte(m1, d, v))
    ensures !Present(Pte(m0, d, v))
  {
    hide Pte; hide Present;
  }

  lemma NotATable(owner: map<nat, Use>, d: nat)
    requires d in owner && owner[d] == Dir
    ensures d !in TablesIn(owner, d, ENTRIES)
  {}

  lemma UntouchedSelf(mem: Mem, owner: map<nat, Use>)
    ensures Untouched(mem, owner, mem, owner)
  {}

  lemma UntouchedAfter(m0: Mem, o0: map<nat, Use>, m1: Mem, o1: map<nat, Use>, m2: Mem, d: nat)
    requires NewSpace(m0, o0, m1, o1, d) && Untouched(m1, o0, m2, o0)
    ensures Untouched(m0, o0, m2, o0)
  {}

  lemma NothingMapped(mem: Mem, d: nat, data: nat)
    requires d < |mem| && forall v: nat | v < ALLPAGES :: Pte(mem, d, v) == 0
    ensures KernelMapped(mem, d, data, 0)
  {
    hide Pte; hide MkEntry;
  }

  // The table's entries cover the pages between the bounds.
  // The entries of the directory for the pages of entry k.
  lemma KMapTables(data: nat, k: nat)
    requires DataOk(data) && k < 4
    ensures var m := KMaps(data)[k];
      var lo, hi := m.virt / PGSIZE, (m.virt + (m.physEnd - m.physStart) % UINT - 1) / PGSIZE + 1;
      lo < hi <= ALLPAGES && forall i | lo / ENTRIES <= i < Upto(lo, hi) :: KernelTable(i)
  {}

  lemma KernelUnmapped(mem: Mem, d: nat, data: nat, k: nat)
    requires DataOk(data) && d < |mem| && k < 4 && KernelMapped(mem, d, data, k)
    ensures var m := KMaps(data)[k];
      NoneMapped(mem, d, m.virt / PGSIZE, (m.virt + (m.physEnd - m.physStart) % UINT - 1) / PGSIZE + 1)
  {
    hide Pte; hide KernEntry;
  }

  // All its tables are there.
  lemma KernelTabled(mem: Mem, d: nat, data: nat)
    requires DataOk(data) && d < |mem| && KernelMapped(mem, d, data, 4)
    ensures forall i | 0 <= i < ENTRIES && KernelTable(i) :: Present(mem[d][i])
  {
    forall i | 0 <= i < ENTRIES && KernelTable(i)
      ensures Present(mem[d][i])
    {
      assert Pte(mem, d, i * 1024) == KernEntry(data, i * 1024);
      assert i * 1024 / 1024 == i;
      hide MkEntry;
      assert Present(KernEntry(data, i * 1024));
    }
  }

  lemma KMapBounds(data: nat, k: nat)
    requires DataOk(data) && k < 4
    ensures |KMaps(data)| == 4
    ensures var m := KMaps(data)[k]; var size := (m.physEnd - m.physStart) % UINT;
      && m.virt % PGSIZE == 0 && size > 0 && m.virt + size <= UINT && m.physStart % PGSIZE == 0 && m.perm < PGSIZE
      && m.physStart + size <= UINT && KERNBASE <= m.virt
      && (m.virt + size - 1) / PGSIZE + 1 == Bound(data, k + 1)
      && Bound(data, k) <= m.virt / PGSIZE <= Bound(data, k + 1) <= ALLPAGES
      && (k < 3 ==> m.virt / PGSIZE == Bound(data, k))
      && (k == 3 ==> m.virt == m.physStart == DEVSPACE && m.perm == PTE_W)
      && (k < 3 ==> m.physStart == m.virt - KERNBASE && m.perm == if k == 1 then 0 else PTE_W)
  {}

  lemma KernelRange(mem: Mem, d: nat, data: nat, k: nat)
    requires d < |mem| && KernelMapped(mem, d, data, k) && DataOk(data) && k < 4 && Bound(data, k) <= Bound(data, k + 1)
    ensures forall v: nat | Bound(data, k) <= v < ALLPAGES :: !Present(Pte(mem, d, v))
  {
    hide Pte; hide MkEntry;
  }

  lemma KernelMappedNext(mem: Mem, mem': Mem, d: nat, data: nat, k: nat)
    requires d < |mem| == |mem'| && DataOk(data) && k < 4 && KernelMapped(mem, d, data, k) && |KMaps(data)| == 4
    requires var m := KMaps(data)[k]; var size := (m.physEnd - m.physStart) % UINT;
      && m.perm < PGSIZE && size > 0
      && RangeMapped(mem, mem', d, m.virt / PGSIZE, (m.virt + size - 1) / PGSIZE + 1, m.physStart / PGSIZE, m.perm)
    ensures KernelMapped(mem', d, data, k + 1)
  {
    KMapBounds(data, k);
    hide Pte; hide KMaps; hide MkEntry;
    var m := KMaps(data)[k];
    var size := (m.physEnd - m.physStart) % UINT;
    assert m.physStart / PGSIZE == if k == 3 then m.virt / PGSIZE else m.virt / PGSIZE - USERPAGES;
  }
}
