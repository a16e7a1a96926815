/** Two-level page tables as values: what a directory maps, and whose frame each frame is. */
module VmSpec {
  import opened Machine

  const PGSIZE: nat := 4096
  const ENTRIES: nat := 1024        // NPDENTRIES and NPTENTRIES
  const KERNBASE: nat := 0x8000_0000
  const USERPAGES: nat := 0x8_0000  // KERNBASE / PGSIZE
  const ALLPAGES: nat := 0x10_0000
  const PHYSTOP: nat := 0xE00_0000
  const FRAMES: nat := 0xE000       // PHYSTOP / PGSIZE
  const EXTMEM: nat := 0x10_0000
  const KERNLINK: nat := KERNBASE + EXTMEM
  const DEVSPACE: nat := 0xFE00_0000
  const PTE_P: nat := 1
  const PTE_W: nat := 2
  const PTE_U: nat := 4

  type Page = p: seq<Uint> | |p| == ENTRIES witness seq(ENTRIES, _ => 0)

  // Physical memory, a frame at a time.
  type Mem = seq<Page>

  // ---------------------------------------------------------------- entries

  // e & PTE_P, PTE_ADDR(e) / PGSIZE, PTE_FLAGS(e)
  predicate Present(e: nat) { e % 2 == 1 }
  function Frame(e: nat): nat { e / PGSIZE }
  function Flags(e: nat): (r: nat) ensures r < PGSIZE { e % PGSIZE }

  lemma Split(f: nat, r: nat)
    requires r < 4096
    ensures (f * 4096 + r) / 4096 == f && (f * 4096 + r) % 4096 == r && (f * 4096 + r) % 2 == r % 2
  {}

  // f * PGSIZE | perm | PTE_P
  function MkEntry(f: nat, perm: nat): (e: nat)
    requires perm < PGSIZE
    ensures Present(e) && Frame(e) == f && Flags(e) == (if Present(perm) then perm else perm + 1)
  {
    Split(f, if Present(perm) then perm else perm + 1);
    f * 4096 + (if Present(perm) then perm else perm + 1)
  }

  function ZeroPage(): (p: Page)
    ensures forall k | 0 <= k < ENTRIES :: p[k] == 0
  {
    seq(ENTRIES, _ => 0)
  }

  // The page table entry for page v under directory d; 0 where there is no table.
  function Pte(mem: Mem, d: nat, v: nat): (e: nat)
    requires d < |mem| && v < ALLPAGES
  {
    var e := mem[d][v / ENTRIES];
    if Present(e) && Frame(e) < |mem| then mem[Frame(e)][v % ENTRIES] else 0
  }

  // What every address space maps from KERNBASE up: I/O space, kernel text and read-only data, kernel
  // data and free memory, devices. The kernel's data starts at address data.
  function KernEntry(data: nat, v: nat): nat
  {
    if v < USERPAGES then 0
    else if v < KERNLINK / PGSIZE then MkEntry(v - USERPAGES, PTE_W)
    else if v < data / PGSIZE then MkEntry(v - USERPAGES, 0)
    else if v < USERPAGES + FRAMES then MkEntry(v - USERPAGES, PTE_W)
    else if v < DEVSPACE / PGSIZE then 0
    else MkEntry(v, PTE_W)
  }

  // ---------------------------------------------------------------- ownership

  // What an allocated frame is used for: a directory, the i-th table of directory d, the page v of
  // the user memory under d, or something that is no business of page tables.
  datatype Use = Dir | Table(d: nat, i: nat) | User(d: nat, v: nat) | Other

  predicate IsDir(mem: Mem, owner: map<nat, Use>, d: nat) {
    d in owner && owner[d] == Dir && d < |mem|
  }

  ghost predicate EntriesOwn(mem: Mem, owner: map<nat, Use>) {
    forall d: nat, i: nat {:trigger mem[d][i]} | IsDir(mem, owner, d) && i < ENTRIES && Present(mem[d][i]) ::
      Frame(mem[d][i]) in owner && owner[Frame(mem[d][i])] == Table(d, i)
  }

  ghost predicate PtesOwn(mem: Mem, owner: map<nat, Use>) {
    forall d: nat, v: nat {:trigger Pte(mem, d, v)} |
      IsDir(mem, owner, d) && v < USERPAGES && Present(Pte(mem, d, v)) ::
      Frame(Pte(mem, d, v)) in owner && owner[Frame(Pte(mem, d, v))] == User(d, v)
  }

  ghost predicate UseOk(mem: Mem, owner: map<nat, Use>, f: nat, u: Use) {
    match u
    case Dir => true
    case Other => true
    case Table(d, i) =>
      IsDir(mem, owner, d) && i < ENTRIES && Present(mem[d][i]) && Frame(mem[d][i]) == f
        && Flags(mem[d][i]) == PTE_P + PTE_W + PTE_U
    case User(d, v) => IsDir(mem, owner, d) && v < USERPAGES && Present(Pte(mem, d, v)) && Frame(Pte(mem, d, v)) == f
  }

  ghost predicate UsesOk(mem: Mem, owner: map<nat, Use>) {
    forall f | f in owner :: f < |mem| && UseOk(mem, owner, f, owner[f])
  }

  // Every frame a table refers to belongs to that entry and to no other.
  ghost predicate Owned(mem: Mem, owner: map<nat, Use>) {
    EntriesOwn(mem, owner) && PtesOwn(mem, owner) && UsesOk(mem, owner)
  }

  lemma EntryOwned(mem: Mem, owner: map<nat, Use>, d: nat, i: nat)
    requires Owned(mem, owner) && IsDir(mem, owner, d) && i < ENTRIES && Present(mem[d][i])
    ensures var t := Frame(mem[d][i]); t in owner && owner[t] == Table(d, i) && t < |mem|
  {}

  lemma PteOwned(mem: Mem, owner: map<nat, Use>, d: nat, v: nat)
    requires Owned(mem, owner) && IsDir(mem, owner, d) && v < USERPAGES && Present(Pte(mem, d, v))
    ensures var f := Frame(Pte(mem, d, v)); f in owner && owner[f] == User(d, v) && f < |mem|
    ensures Present(mem[d][v / ENTRIES])
  {}

  // No frame is mapped for the user at two places, in one address space or in two, or is also a table.
  lemma NoSharing(mem: Mem, owner: map<nat, Use>, d: nat, v: nat, e: nat, w: nat)
    requires Owned(mem, owner) && IsDir(mem, owner, d) && IsDir(mem, owner, e) && v < USERPAGES && w < USERPAGES
    requires Present(Pte(mem, d, v)) && Present(Pte(mem, e, w)) && Frame(Pte(mem, d, v)) == Frame(Pte(mem, e, w))
    ensures d == e && v == w
    ensures forall i: nat | i < ENTRIES && Present(mem[e][i]) :: Frame(mem[e][i]) != Frame(Pte(mem, d, v))
  {
    PteOwned(mem, owner, d, v);
    PteOwned(mem, owner, e, w);
    hide Pte;
  }

  // ---------------------------------------------------------------- writes to pages that are no tables

  predicate NoTable(owner: map<nat, Use>, f: nat) {
    f in owner ==> owner[f].User? || owner[f].Other?
  }

  lemma PageWritePte(mem: Mem, owner: map<nat, Use>, f: nat, p: Page, d: nat, v: nat)
    requires Owned(mem, owner) && NoTable(owner, f) && f < |mem| && IsDir(mem, owner, d) && v < ALLPAGES
    ensures Pte(mem[f := p], d, v) == Pte(mem, d, v)
  {
    hide PtesOwn; hide UsesOk; hide Present; hide Frame;
  }

  lemma PageWriteKeeps(mem: Mem, owner: map<nat, Use>, f: nat, p: Page)
    requires Owned(mem, owner) && NoTable(owner, f) && f < |mem|
    ensures Owned(mem[f := p], owner)
  {
    var mem' := mem[f := p];
    hide Pte; hide Present; hide Frame;
    forall d: nat, v: nat | IsDir(mem, owner, d) && v < ALLPAGES
      ensures Pte(mem', d, v) == Pte(mem, d, v)
    {
      PageWritePte(mem, owner, f, p, d, v);
    }
    assert forall d: nat | IsDir(mem, owner, d) :: mem'[d] == mem[d];
    assert UsesOk(mem', owner) by {
      forall g | g in owner
        ensures UseOk(mem', owner, g, owner[g])
      {
        assert UseOk(mem, owner, g, owner[g]);
      }
    }
  }

  // Marking a frame that nothing refers to as used, or no longer used.
  lemma TakeKeeps(mem: Mem, owner: map<nat, Use>, f: nat)
    requires Owned(mem, owner) && f < |mem| && f !in owner
    ensures Owned(mem, owner[f := Other])
  {
    hide Pte; hide Present; hide Frame;
    var owner' := owner[f := Other];
    forall g | g in owner'
      ensures UseOk(mem, owner', g, owner'[g])
    {
      if g != f {
        assert UseOk(mem, owner, g, owner[g]);
      }
    }
  }

  lemma DropKeeps(mem: Mem, owner: map<nat, Use>, f: nat)
    requires Owned(mem, owner) && f in owner && owner[f] == Other
    ensures Owned(mem, owner - {f})
  {
    hide Pte; hide Present; hide Frame;
    var owner' := owner - {f};
    forall g | g in owner'
      ensures UseOk(mem, owner', g, owner'[g])
    {
      assert UseOk(mem, owner, g, owner[g]);
    }
  }

  // ---------------------------------------------------------------- installing a table

  // *pde = V2P(t) | PTE_P | PTE_W | PTE_U, for a table t of zeros
  function WithTable(mem: Mem, d: nat, i: nat, t: nat): (r: Mem)
    requires d < |mem| && i < ENTRIES && t < |mem| <= ALLPAGES
    ensures |r| == |mem|
  {
    mem[d := mem[d][i := MkEntry(t, PTE_W + PTE_U)]]
  }

  lemma TableEntry(mem: Mem, owner: map<nat, Use>, d: nat, i: nat, t: nat, e: nat, k: nat)
    requires Owned(mem, owner) && IsDir(mem, owner, d) && i < ENTRIES && t < |mem| <= ALLPAGES
    requires IsDir(mem, owner, e) && k < ENTRIES
    ensures WithTable(mem, d, i, t)[e][k] == if e == d && k == i then MkEntry(t, PTE_W + PTE_U) else mem[e][k]
  {}

  lemma TablePte(mem: Mem, owner: map<nat, Use>, d: nat, i: nat, t: nat, e: nat, v: nat)
    requires Owned(mem, owner) && IsDir(mem, owner, d) && i < ENTRIES && t < |mem| <= ALLPAGES && !Present(mem[d][i])
    requires t in owner && owner[t] == Other && mem[t] == ZeroPage() && IsDir(mem, owner, e) && v < ALLPAGES
    ensures Pte(WithTable(mem, d, i, t), e, v) == Pte(mem, e, v)
  {
    hide PtesOwn; hide UsesOk; hide Present; hide MkEntry; hide Frame;
    TableEntry(mem, owner, d, i, t, e, v / ENTRIES);
  }

  lemma TableKeeps(mem: Mem, owner: map<nat, Use>, d: nat, i: nat, t: nat)
    requires Owned(mem, owner) && IsDir(mem, owner, d) && i < ENTRIES && t < |mem| <= ALLPAGES && !Present(mem[d][i])
    requires t in owner && owner[t] == Other && mem[t] == ZeroPage()
    ensures Owned(WithTable(mem, d, i, t), owner[t := Table(d, i)])
  {
    assert Flags(MkEntry(t, PTE_W + PTE_U)) == PTE_P + PTE_W + PTE_U;
    hide Pte; hide Present; hide MkEntry; hide Frame; hide WithTable;
    var mem' := WithTable(mem, d, i, t);
    var owner' := owner[t := Table(d, i)];
    forall e: nat, v: nat | IsDir(mem, owner, e) && v < ALLPAGES
      ensures Pte(mem', e, v) == Pte(mem, e, v)
    {
      TablePte(mem, owner, d, i, t, e, v);
    }
    forall e: nat, k: nat | IsDir(mem, owner, e) && k < ENTRIES
      ensures mem'[e][k] == if e == d && k == i then MkEntry(t, PTE_W + PTE_U) else mem[e][k]
    {
      TableEntry(mem, owner, d, i, t, e, k);
    }
    forall g | g in owner'
      ensures UseOk(mem', owner', g, owner'[g])
    {
      assert UseOk(mem, owner, g, owner[g]);
    }
    assert EntriesOwn(mem', owner') && PtesOwn(mem', owner');
  }

  // ---------------------------------------------------------------- writing a table entry

  // pgtab[PTX(va)] = e, where pgtab is the table for page v under d
  function WithPte(mem: Mem, d: nat, v: nat, e: Uint): (r: Mem)
    requires d < |mem| && v < ALLPAGES && Frame(mem[d][v / ENTRIES]) < |mem|
    ensures |r| == |mem|
  {
    var t := Frame(mem[d][v / ENTRIES]);
    mem[t := mem[t][v % ENTRIES := e]]
  }

  predicate HasTable(mem: Mem, d: nat, v: nat)
    requires d < |mem| && v < ALLPAGES
  {
    Present(mem[d][v / ENTRIES]) && Frame(mem[d][v / ENTRIES]) < |mem|
  }

  lemma PteWritten(mem: Mem, owner: map<nat, Use>, d: nat, v: nat, e: Uint, c: nat, w: nat)
    requires Owned(mem, owner) && IsDir(mem, owner, d) && v < ALLPAGES && HasTable(mem, d, v)
    requires IsDir(mem, owner, c) && w < ALLPAGES
    ensures WithPte(mem, d, v, e)[c] == mem[c]
    ensures Pte(WithPte(mem, d, v, e), c, w) == if c == d && w == v then e else Pte(mem, c, w)
  {
    hide PtesOwn; hide UsesOk; hide Present; hide Frame;
    EntryOwned(mem, owner, d, v / ENTRIES);
    if Present(mem[c][w / ENTRIES]) {
      EntryOwned(mem, owner, c, w / ENTRIES);
    }
  }

  // What the owners become: page v of d is now frame f's, or nobody's.
  function MapUser(owner: map<nat, Use>, d: nat, v: nat, f: nat): map<nat, Use> {
    owner[f := User(d, v)]
  }

  lemma MapUserKeeps(mem: Mem, owner: map<nat, Use>, d: nat, v: nat, e: Uint)
    requires Owned(mem, owner) && IsDir(mem, owner, d) && v < USERPAGES && HasTable(mem, d, v)
    requires !Present(Pte(mem, d, v)) && Present(e) && Frame(e) in owner && owner[Frame(e)] == Other
    ensures Owned(WithPte(mem, d, v, e), MapUser(owner, d, v, Frame(e)))
  {
    PteWrittenAll(mem, owner, d, v, e);
    hide Pte; hide Present; hide Frame; hide WithPte;
    var mem' := WithPte(mem, d, v, e);
    var owner' := MapUser(owner, d, v, Frame(e));
    forall g | g in owner'
      ensures g < |mem'| && UseOk(mem', owner', g, owner'[g])
    {
      assert UseOk(mem, owner, g, owner[g]);
    }
    assert EntriesOwn(mem', owner') && PtesOwn(mem', owner');
  }

  lemma PteWrittenAll(mem: Mem, owner: map<nat, Use>, d: nat, v: nat, e: Uint)
    requires Owned(mem, owner) && IsDir(mem, owner, d) && v < ALLPAGES && HasTable(mem, d, v)
    ensures forall c: nat | IsDir(mem, owner, c) :: WithPte(mem, d, v, e)[c] == mem[c]
    ensures forall c: nat, w: nat | IsDir(mem, owner, c) && w < ALLPAGES ::
              Pte(WithPte(mem, d, v, e), c, w) == if c == d && w == v then e else Pte(mem, c, w)
  {
    hide Pte; hide Present; hide Frame; hide WithPte; hide Owned;
    forall c: nat, w: nat | IsDir(mem, owner, c) && w < ALLPAGES
      ensures Pte(WithPte(mem, d, v, e), c, w) == if c == d && w == v then e else Pte(mem, c, w)
    {
      PteWritten(mem, owner, d, v, e, c, w);
    }
    forall c: nat | IsDir(mem, owner, c)
      ensures WithPte(mem, d, v, e)[c] == mem[c]
    {
      PteWritten(mem, owner, d, v, e, c, 0);
    }
  }

  lemma MapKernelKeeps(mem: Mem, owner: map<nat, Use>, d: nat, v: nat, e: Uint)
    requires Owned(mem, owner) && IsDir(mem, owner, d) && USERPAGES <= v < ALLPAGES && HasTable(mem, d, v)
    ensures Owned(WithPte(mem, d, v, e), owner)
  {
    PteWrittenAll(mem, owner, d, v, e);
    hide Pte; hide Present; hide Frame; hide WithPte;
    var mem' := WithPte(mem, d, v, e);
    forall g | g in owner
      ensures g < |mem'| && UseOk(mem', owner, g, owner[g])
    {
      assert UseOk(mem, owner, g, owner[g]);
    }
    assert EntriesOwn(mem', owner) && PtesOwn(mem', owner);
  }

  lemma UnmapKeeps(mem: Mem, owner: map<nat, Use>, d: nat, v: nat)
    requires Owned(mem, owner) && IsDir(mem, owner, d) && v < USERPAGES && HasTable(mem, d, v)
        && Present(Pte(mem, d, v))
    ensures Owned(WithPte(mem, d, v, 0), owner - {Frame(Pte(mem, d, v))})
  {
    PteWrittenAll(mem, owner, d, v, 0);
    PteOwned(mem, owner, d, v);
    assert !Present(0);
    hide Pte; hide Present; hide Frame; hide WithPte;
    var mem' := WithPte(mem, d, v, 0);
    var owner' := owner - {Frame(Pte(mem, d, v))};
    forall g | g in owner'
      ensures g < |mem'| && UseOk(mem', owner', g, owner'[g])
    {
      assert UseOk(mem, owner, g, owner[g]);
    }
    assert EntriesOwn(mem', owner') && PtesOwn(mem', owner');
  }

  // ---------------------------------------------------------------- directories

  lemma NewDirKeeps(mem: Mem, owner: map<nat, Use>, d: nat)
    requires Owned(mem, owner) && d in owner && owner[d] == Other && mem[d] == ZeroPage()
    ensures Owned(mem, owner[d := Dir])
  {
    hide Frame;
    var owner' := owner[d := Dir];
    forall i: nat | i < ENTRIES
      ensures !Present(mem[d][i])
    {}
    forall v: nat | v < ALLPAGES
      ensures !Present(Pte(mem, d, v))
    {}
    hide Pte; hide Present;
    forall g | g in owner'
      ensures UseOk(mem, owner', g, owner'[g])
    {
      assert UseOk(mem, owner, g, owner[g]);
    }
    assert EntriesOwn(mem, owner') && PtesOwn(mem, owner');
  }

  // All frames of directory d.
  predicate Of(u: Use, d: nat) {
    (u.Table? || u.User?) && u.d == d
  }

  function FramesOf(owner: map<nat, Use>, d: nat): set<nat> {
    set f | f in owner && (f == d || Of(owner[f], d))
  }

  lemma DropDirKeeps(mem: Mem, owner: map<nat, Use>, d: nat)
    requires Owned(mem, owner) && IsDir(mem, owner, d)
    ensures Owned(mem, owner - FramesOf(owner, d))
  {
    hide Pte; hide Present; hide Frame;
    var owner' := owner - FramesOf(owner, d);
    forall g | g in owner'
      ensures UseOk(mem, owner', g, owner'[g])
    {
      assert UseOk(mem, owner, g, owner[g]);
    }
    assert EntriesOwn(mem, owner') && PtesOwn(mem, owner');
  }
}
