/** How the operations on one page table change memory and the ownership of frames. */
module VmOps {
  import opened Machine
  import opened VmSpec

  // Directory d has got new tables and nothing else has changed hands; no page but those of d's
  // directory and tables has been written.
  ghost predicate TablesAdded(mem: Mem, owner: map<nat, Use>, mem': Mem, owner': map<nat, Use>, d: nat) {
    && |mem'| == |mem|
    && (forall f | f in owner :: f in owner' && owner'[f] == owner[f])
    && (forall f | f in owner && f < |mem| && f != d && owner[f] != Table(d, TableIndex(owner[f])) :: mem'[f] == mem[f])
    && (forall f | f in owner' && f !in owner :: owner'[f].Table? && owner'[f].d == d)
  }

  function TableIndex(u: Use): nat {
    if u.Table? then u.i else 0
  }

  ghost predicate SamePtes(mem: Mem, mem': Mem, d: nat)
    requires d < |mem| == |mem'|
  {
    forall v: nat {:trigger Pte(mem', d, v)} | v < ALLPAGES :: Pte(mem', d, v) == Pte(mem, d, v)
  }

  lemma TablesAddedSelf(mem: Mem, owner: map<nat, Use>, d: nat)
    ensures TablesAdded(mem, owner, mem, owner, d)
  {}

  lemma TablesAddedTrans(m0: Mem, o0: map<nat, Use>, m1: Mem, o1: map<nat, Use>, m2: Mem, o2: map<nat, Use>, d: nat)
    requires TablesAdded(m0, o0, m1, o1, d) && TablesAdded(m1, o1, m2, o2, d)
    ensures TablesAdded(m0, o0, m2, o2, d)
  {}

  // Installing the table t for page v.
  lemma InstallStep(mem: Mem, owner: map<nat, Use>, d: nat, i: nat, t: nat, p: Page)
    requires Owned(mem, owner) && IsDir(mem, owner, d) && i < ENTRIES && t < |mem| <= ALLPAGES && !Present(mem[d][i])
    requires t !in owner && p == ZeroPage()
    ensures var m1 := WithTable(mem[t := p], d, i, t); var o1 := owner[t := Table(d, i)];
      && Owned(m1, o1) && TablesAdded(mem, owner, m1, o1, d) && IsDir(m1, o1, d) && SamePtes(mem, m1, d)
      && m1[d][i] == MkEntry(t, PTE_W + PTE_U)
  {
    hide Owned; hide Pte; hide Present; hide Frame; hide MkEntry;
    var m0 := mem[t := p];
    TakeKeeps(mem, owner, t);
    PageWriteKeeps(mem, owner[t := Other], t, p);
    TableKeeps(m0, owner[t := Other], d, i, t);
    forall v: nat | v < ALLPAGES
      ensures Pte(WithTable(m0, d, i, t), d, v) == Pte(mem, d, v)
    {
      PageWritePte(mem, owner[t := Other], t, p, d, v);
      TablePte(m0, owner[t := Other], d, i, t, d, v);
    }
    assert owner[t := Other][t := Table(d, i)] == owner[t := Table(d, i)];
  }

  // Setting the entry for page v once there is a table.
  lemma SetStep(mem: Mem, owner: map<nat, Use>, owner': map<nat, Use>, d: nat, v: nat, e: Uint)
    requires Owned(mem, owner) && IsDir(mem, owner, d) && v < ALLPAGES && HasTable(mem, d, v)
    requires owner'.Keys == owner.Keys
    requires forall f | f in owner && owner'[f] != owner[f] :: owner[f] == Other && owner'[f] == User(d, v)
    ensures TablesAdded(mem, owner', WithPte(mem, d, v, e), owner', d)
    ensures forall w: nat | w < ALLPAGES :: Pte(WithPte(mem, d, v, e), d, w) == if w == v then e else Pte(mem, d, w)
  {
    PteWrittenAll(mem, owner, d, v, e);
    EntryOwned(mem, owner, d, v / ENTRIES);
    hide Owned; hide Pte; hide Present; hide Frame;
  }

  // ---------------------------------------------------------------- other directories

  // Everything in use stays what it was, with the same contents.
  ghost predicate Untouched(mem: Mem, owner: map<nat, Use>, mem': Mem, owner': map<nat, Use>) {
    && |mem'| == |mem|
    && forall f | f in owner && f < |mem| :: f in owner' && owner'[f] == owner[f] && mem'[f] == mem[f]
  }

  // ... and what is new belongs to directory d.
  ghost predicate NewSpace(mem: Mem, owner: map<nat, Use>, mem': Mem, owner': map<nat, Use>, d: nat) {
    && Untouched(mem, owner, mem', owner')
    && forall f | f in owner' && f !in owner :: f == d || Of(owner'[f], d)
  }

  // Ownership is a matter of the frames in use alone.
  lemma UntouchedPte(mem: Mem, owner: map<nat, Use>, mem': Mem, owner': map<nat, Use>, d: nat, v: nat)
    requires Owned(mem, owner) && Untouched(mem, owner, mem', owner') && IsDir(mem, owner, d) && v < ALLPAGES
    ensures IsDir(mem', owner', d) && Pte(mem', d, v) == Pte(mem, d, v)
  {
    hide Present; hide Frame;
    if Present(mem[d][v / ENTRIES]) {
      EntryOwned(mem, owner, d, v / ENTRIES);
    }
  }

  lemma UntouchedOwned(mem: Mem, owner: map<nat, Use>, mem': Mem)
    requires Owned(mem, owner) && Untouched(mem, owner, mem', owner)
    ensures Owned(mem', owner)
  {
    hide Pte; hide Present; hide Frame;
    forall d: nat, v: nat | IsDir(mem, owner, d) && v < ALLPAGES
      ensures Pte(mem', d, v) == Pte(mem, d, v)
    {
      UntouchedPte(mem, owner, mem', owner, d, v);
    }
    forall f | f in owner
      ensures f < |mem'| && UseOk(mem', owner, f, owner[f])
    {
      assert UseOk(mem, owner, f, owner[f]);
    }
    assert EntriesOwn(mem', owner) && PtesOwn(mem', owner);
  }

  // A directory not in use has no frames.
  lemma NoFrames(mem: Mem, owner: map<nat, Use>, d: nat)
    requires Owned(mem, owner) && d !in owner
    ensures forall f | f in owner :: f != d && !Of(owner[f], d)
  {
    hide Pte; hide Present; hide Frame;
    forall f | f in owner
      ensures !Of(owner[f], d)
    {
      assert UseOk(mem, owner, f, owner[f]);
    }
  }

  // Taking a new space away again.
  lemma SpaceRemoved(mem: Mem, owner: map<nat, Use>, mem': Mem, owner': map<nat, Use>, d: nat)
    requires Owned(mem, owner) && d !in owner && NewSpace(mem, owner, mem', owner', d)
    ensures owner' - FramesOf(owner', d) == owner
  {
    NoFrames(mem, owner, d);
    hide Owned;
    var r := owner' - FramesOf(owner', d);
    forall f | f in owner
      ensures f in r && r[f] == owner[f]
    {
      assert f < |mem| by { UsesIn(mem, owner, f); }
    }
  }

  lemma UsesIn(mem: Mem, owner: map<nat, Use>, f: nat)
    requires Owned(mem, owner) && f in owner
    ensures f < |mem| && UseOk(mem, owner, f, owner[f])
  {}

  lemma NewSpaceGrows(m0: Mem, o0: map<nat, Use>, m1: Mem, o1: map<nat, Use>, m2: Mem, o2: map<nat, Use>, d: nat)
    requires Owned(m0, o0) && d !in o0 && NewSpace(m0, o0, m1, o1, d) && TablesAdded(m1, o1, m2, o2, d)
    ensures NewSpace(m0, o0, m2, o2, d)
  {
    NoFrames(m0, o0, d);
  }

  // ---------------------------------------------------------------- unmapping user pages

  // The frames of pages lo <= v < hi of d.
  function UsersIn(owner: map<nat, Use>, d: nat, lo: nat, hi: nat): set<nat> {
    set f | f in owner && owner[f].User? && owner[f].d == d && lo <= owner[f].v < hi
  }

  lemma UsersNext(mem: Mem, owner: map<nat, Use>, d: nat, lo: nat, v: nat)
    requires Owned(mem, owner) && IsDir(mem, owner, d) && lo <= v < USERPAGES
    ensures UsersIn(owner, d, lo, v + 1) ==
            UsersIn(owner, d, lo, v) + (if Present(Pte(mem, d, v)) then {Frame(Pte(mem, d, v))} else {})
    ensures Present(Pte(mem, d, v)) ==>
        Frame(Pte(mem, d, v)) in owner && Frame(Pte(mem, d, v)) !in UsersIn(owner, d, lo, v)
  {
    if Present(Pte(mem, d, v)) {
      PteOwned(mem, owner, d, v);
    }
    hide Pte; hide Present; hide Frame;
    forall f | f in owner && owner[f] == User(d, v)
      ensures Present(Pte(mem, d, v)) && f == Frame(Pte(mem, d, v))
    {
      UsesIn(mem, owner, f);
    }
  }

  // Where there is no table, no page is mapped.
  lemma UsersSkip(mem: Mem, owner: map<nat, Use>, d: nat, lo: nat, v: nat, w: nat)
    requires Owned(mem, owner) && IsDir(mem, owner, d) && lo <= v <= w
    requires forall x: nat | v <= x < w && x < USERPAGES :: !Present(Pte(mem, d, x))
    ensures UsersIn(owner, d, lo, w) == UsersIn(owner, d, lo, v)
  {
    hide Pte; hide Present; hide Frame;
    forall f | f in owner && owner[f].User? && owner[f].d == d
      ensures !(v <= owner[f].v < w)
    {
      UsesIn(mem, owner, f);
    }
  }

  // Pages lo <= v < hi of d have been unmapped and their frames given up; the tables stay.
  ghost predicate Unmapped(mem: Mem, owner: map<nat, Use>, mem': Mem, owner': map<nat, Use>, d: nat, lo: nat, hi: nat)
    requires d < |mem|
  {
    && |mem'| == |mem| && mem'[d] == mem[d]
    && owner' == owner - UsersIn(owner, d, lo, hi)
    && (forall f | f in owner' && f < |mem| && owner'[f] != Table(d, TableIndex(owner'[f])) :: mem'[f] == mem[f])
    && (forall v: nat {:trigger Pte(mem', d, v)} {:trigger Pte(mem, d, v)} | v < ALLPAGES ::
          Pte(mem', d, v) == if lo <= v < hi && Present(Pte(mem, d, v)) then 0 else Pte(mem, d, v))
  }

  lemma UnmappedNone(mem: Mem, owner: map<nat, Use>, d: nat, lo: nat)
    requires Owned(mem, owner) && IsDir(mem, owner, d)
    ensures Unmapped(mem, owner, mem, owner, d, lo, lo)
  {
    hide Pte;
    assert owner - UsersIn(owner, d, lo, lo) == owner;
  }

  // kfree(v); *pte = 0
  lemma UnmapStep(m0: Mem, o0: map<nat, Use>, m1: Mem, o1: map<nat, Use>, d: nat, lo: nat, v: nat, p: Page)
    requires Owned(m0, o0) && Owned(m1, o1) && IsDir(m0, o0, d) && IsDir(m1, o1, d) && lo <= v < USERPAGES
    requires Unmapped(m0, o0, m1, o1, d, lo, v) && Present(Pte(m1, d, v))
    ensures var f := Frame(Pte(m1, d, v));
      && f < |m1| && HasTable(m1, d, v) && HasTable(m1[f := p], d, v)
      && var m2 := WithPte(m1[f := p], d, v, 0); var o2 := o1 - {f};
         Owned(m2, o2) && IsDir(m2, o2, d) && Unmapped(m0, o0, m2, o2, d, lo, v + 1)
  {
    var f := Frame(Pte(m1, d, v));
    PteOwned(m1, o1, d, v);
    EntryOwned(m1, o1, d, v / ENTRIES);
    PageWriteKeeps(m1, o1, f, p);
    var mm := m1[f := p];
    forall w: nat | w < ALLPAGES
      ensures Pte(mm, d, w) == Pte(m1, d, w)
    {
      PageWritePte(m1, o1, f, p, d, w);
    }
    UnmapKeeps(mm, o1, d, v);
    PteWrittenAll(mm, o1, d, v, 0);
    UsersNext(m0, o0, d, lo, v);
    hide Owned; hide Pte; hide Present; hide Frame;
    assert o1 - {f} == o0 - UsersIn(o0, d, lo, v + 1);
  }

  lemma UnmapSkip(m0: Mem, o0: map<nat, Use>, m1: Mem, o1: map<nat, Use>, d: nat, lo: nat, v: nat, w: nat)
    requires Owned(m0, o0) && IsDir(m0, o0, d) && lo <= v <= w
    requires Unmapped(m0, o0, m1, o1, d, lo, v)
    requires forall x: nat | v <= x < w && x < USERPAGES :: !Present(Pte(m0, d, x))
    requires w <= USERPAGES
    ensures Unmapped(m0, o0, m1, o1, d, lo, w)
  {
    UsersSkip(m0, o0, d, lo, v, w);
    hide Pte; hide Present;
  }

  lemma UnmapTrim(m0: Mem, o0: map<nat, Use>, m1: Mem, o1: map<nat, Use>, d: nat, lo: nat, hi: nat, v: nat)
    requires Owned(m0, o0) && IsDir(m0, o0, d) && lo <= hi <= v && Unmapped(m0, o0, m1, o1, d, lo, v)
    requires forall x: nat | hi <= x < v && x < USERPAGES :: !Present(Pte(m0, d, x))
    requires v <= USERPAGES
    ensures Unmapped(m0, o0, m1, o1, d, lo, hi)
  {
    UsersSkip(m0, o0, d, lo, hi, v);
    hide Pte; hide Present;
  }

  // ---------------------------------------------------------------- taking an address space apart

  function TablesIn(owner: map<nat, Use>, d: nat, n: nat): set<nat> {
    set f | f in owner && owner[f].Table? && owner[f].d == d && owner[f].i < n
  }

  lemma TablesNext(mem: Mem, owner: map<nat, Use>, d: nat, i: nat)
    requires Owned(mem, owner) && IsDir(mem, owner, d) && i < ENTRIES
    ensures TablesIn(owner, d, i + 1) ==
            TablesIn(owner, d, i) + (if Present(mem[d][i]) then {Frame(mem[d][i])} else {})
    ensures Present(mem[d][i]) ==>
        Frame(mem[d][i]) in owner && Frame(mem[d][i]) != d && Frame(mem[d][i]) !in TablesIn(owner, d, i)
  {
    if Present(mem[d][i]) {
      EntryOwned(mem, owner, d, i);
    }
    hide Pte; hide Present; hide Frame;
    forall f | f in owner && owner[f] == Table(d, i)
      ensures Present(mem[d][i]) && f == Frame(mem[d][i])
    {
      UsesIn(mem, owner, f);
    }
  }

  // Once its user pages are gone, a directory has only itself and its tables.
  lemma FramesLeft(m0: Mem, o0: map<nat, Use>, m1: Mem, o1: map<nat, Use>, d: nat)
    requires Owned(m0, o0) && Owned(m1, o1) && IsDir(m0, o0, d) && Unmapped(m0, o0, m1, o1, d, 0, USERPAGES)
    ensures o1.Keys - TablesIn(o1, d, ENTRIES) - {d} == (o1 - FramesOf(o1, d)).Keys
    ensures o1 - FramesOf(o1, d) == o0 - FramesOf(o0, d)
    ensures forall f | f in o1 - FramesOf(o1, d) && f < |m0| :: m1[f] == m0[f]
  {
    forall f | f in o0
      ensures f < |m0| && UseOk(m0, o0, f, o0[f])
    {
      UsesIn(m0, o0, f);
    }
    forall f | f in o1
      ensures f < |m1| && UseOk(m1, o1, f, o1[f])
    {
      UsesIn(m1, o1, f);
    }
    hide Owned; hide Pte; hide Present; hide Frame;
    assert o1 - FramesOf(o1, d) == o0 - FramesOf(o0, d);
  }

  // ---------------------------------------------------------------- an empty directory

  lemma NewDirStep(mem: Mem, owner: map<nat, Use>, d: nat, p: Page)
    requires Owned(mem, owner) && d < |mem| && d !in owner && p == ZeroPage()
    ensures Owned(mem[d := p], owner[d := Dir]) && NewSpace(mem, owner, mem[d := p], owner[d := Dir], d)
    ensures var m1 := mem[d := p]; forall v: nat | v < ALLPAGES :: Pte(m1, d, v) == 0
  {
    var m1 := mem[d := p];
    forall v: nat | v < ALLPAGES
      ensures Pte(m1, d, v) == 0
    {
      assert m1[d][v / ENTRIES] == 0;
    }
    hide Owned; hide Pte;
    TakeKeeps(mem, owner, d);
    PageWriteKeeps(mem, owner[d := Other], d, p);
    NewDirKeeps(mem[d := p], owner[d := Other], d);
    assert owner[d := Other][d := Dir] == owner[d := Dir];
  }

  // A page for data.
  lemma NewPageStep(mem: Mem, owner: map<nat, Use>, f: nat, p: Page)
    requires Owned(mem, owner) && f < |mem| && f !in owner
    ensures Owned(mem[f := p], owner[f := Other]) && Untouched(mem, owner, mem[f := p], owner[f := Other])
  {
    hide Owned;
    TakeKeeps(mem, owner, f);
    PageWriteKeeps(mem, owner[f := Other], f, p);
  }

  lemma FreePageStep(mem: Mem, owner: map<nat, Use>, f: nat, p: Page)
    requires Owned(mem, owner) && f < |mem| && f in owner && owner[f] == Other
    ensures Owned(mem[f := p], owner - {f}) && Untouched(mem, owner - {f}, mem[f := p], owner - {f})
  {
    hide Owned;
    PageWriteKeeps(mem, owner, f, p);
    DropKeeps(mem[f := p], owner, f);
  }

  // ---------------------------------------------------------------- growing user memory

  // Nothing in use has changed hands, no page but those of d's directory and tables has been written,
  // and what is new is a table or one of the pages lo <= v < hi of d, or frame x.
  ghost predicate KeptAndNew(m0: Mem, o0: map<nat, Use>, m1: Mem, o1: map<nat, Use>, d: nat, lo: nat, hi: nat, x: nat) {
    && |m1| == |m0|
    && (forall f | f in o0 :: f in o1 && o1[f] == o0[f])
    && (forall f | f in o0 && f < |m0| && f != d && o0[f] != Table(d, TableIndex(o0[f])) :: m1[f] == m0[f])
    && (forall f | f in o1 && f !in o0 :: f == x || NewPage(o1[f], d, lo, hi))
  }

  // Pages lo <= v < hi of d have got frames of zeros that were free; no other mapping has changed.
  ghost predicate PtesAdded(mem: Mem, owner: map<nat, Use>, mem': Mem, d: nat, lo: nat, hi: nat)
    requires d < |mem| == |mem'|
  {
    forall v: nat {:trigger Pte(mem', d, v)} {:trigger Pte(mem, d, v)} | v < ALLPAGES ::
      if lo <= v < hi then ZeroUserPage(mem', owner, Pte(mem', d, v)) else Pte(mem', d, v) == Pte(mem, d, v)
  }

  // Pages lo <= v < hi have been added; frame x, if not 0, is on its way to becoming the next.
  ghost predicate PagesAdded(mem: Mem, owner: map<nat, Use>, mem': Mem, owner': map<nat, Use>, d: nat, lo: nat, hi: nat,
                             x: nat)
    requires d < |mem|
  {
    KeptAndNew(mem, owner, mem', owner', d, lo, hi, x) && PtesAdded(mem, owner, mem', d, lo, hi)
  }

  predicate NewPage(u: Use, d: nat, lo: nat, hi: nat) {
    (u.Table? && u.d == d) || (u.User? && u.d == d && lo <= u.v < hi)
  }

  // e maps a frame of zeros that was free, writable and for the user.
  predicate ZeroUserPage(mem: Mem, owner: map<nat, Use>, e: nat) {
    Present(e) && Flags(e) == PTE_P + PTE_W + PTE_U && Frame(e) !in owner && Frame(e) < |mem|
      && mem[Frame(e)] == ZeroPage()
  }

  lemma PagesAddedNone(mem: Mem, owner: map<nat, Use>, d: nat, lo: nat)
    requires d < |mem|
    ensures PagesAdded(mem, owner, mem, owner, d, lo, lo, 0)
  {
    hide Pte;
  }

  // kalloc and memset
  lemma PageTaken(m0: Mem, o0: map<nat, Use>, m1: Mem, o1: map<nat, Use>, d: nat, lo: nat, hi: nat, f: nat)
    requires d < |m0| && PagesAdded(m0, o0, m1, o1, d, lo, hi, 0) && Owned(m1, o1) && IsDir(m1, o1, d)
    requires 0 !in o1 && f < |m1| && f !in o1
    ensures PagesAdded(m0, o0, m1[f := ZeroPage()], o1[f := Other], d, lo, hi, f)
    ensures forall v: nat | v < ALLPAGES :: Pte(m1[f := ZeroPage()], d, v) == Pte(m1, d, v)
  {
    var m2 := m1[f := ZeroPage()];
    forall v: nat | v < ALLPAGES
      ensures Pte(m2, d, v) == Pte(m1, d, v)
    {
      PageWritePte(m1, o1, f, ZeroPage(), d, v);
    }
    hide Owned; hide Pte; hide Present; hide Frame; hide Flags;
  }

  // The state after mappages maps frame f for page hi.
  lemma PageAdded(m0: Mem, o0: map<nat, Use>, m1: Mem, o1: map<nat, Use>, m2: Mem, o2: map<nat, Use>, d: nat, lo: nat,
                  hi: nat, f: nat)
    requires d < |m0| == |m1| && PagesAdded(m0, o0, m1, o1, d, lo, hi, f) && Owned(m1, o1) && IsDir(m1, o1, d)
        && lo <= hi < USERPAGES
    requires f in o1 && o1[f] == Other && f !in o0 && f < |m1| && m1[f] == ZeroPage()
    requires TablesAdded(m1, MapUser(o1, d, hi, f), m2, o2, d)
    requires forall w: nat | w < ALLPAGES ::
        Pte(m2, d, w) == if w == hi then MkEntry(f, PTE_W + PTE_U) else Pte(m1, d, w)
    ensures PagesAdded(m0, o0, m2, o2, d, lo, hi + 1, 0)
  {
    hide Owned; hide Pte; hide Present; hide Frame; hide MkEntry; hide Flags; hide PtesAdded; hide KeptAndNew;
    hide TablesAdded;
    hide ZeroUserPage; hide MapUser;
    KeptStep(m0, o0, m1, o1, m2, o2, d, lo, hi, f);
    forall v: nat | v < ALLPAGES
      ensures if lo <= v < hi + 1 then ZeroUserPage(m2, o0, Pte(m2, d, v)) else Pte(m2, d, v) == Pte(m0, d, v)
    {
      PtesAddedAt(m0, o0, m1, o1, d, lo, hi, v);
      if lo <= v < hi {
        ZeroStays(o0, m1, o1, m2, o2, d, hi, v, f, Pte(m1, d, v));
      } else if v == hi {
        ZeroNow(o0, m1, o1, m2, o2, d, hi, f);
      }
    }
    PtesAddedIf(m0, o0, m2, d, lo, hi + 1);
  }

  lemma KeptStep(m0: Mem, o0: map<nat, Use>, m1: Mem, o1: map<nat, Use>, m2: Mem, o2: map<nat, Use>, d: nat, lo: nat,
                 hi: nat, f: nat)
    requires KeptAndNew(m0, o0, m1, o1, d, lo, hi, f) && lo <= hi && f !in o0
    requires TablesAdded(m1, MapUser(o1, d, hi, f), m2, o2, d)
    ensures KeptAndNew(m0, o0, m2, o2, d, lo, hi + 1, 0)
  {}

  lemma ZeroStays(o0: map<nat, Use>, m1: Mem, o1: map<nat, Use>, m2: Mem, o2: map<nat, Use>, d: nat, hi: nat, v: nat,
                  f: nat, e: nat)
    requires ZeroUserPage(m1, o0, e) && Frame(e) in o1 && o1[Frame(e)] == User(d, v) && Frame(e) != d
    requires f in o1 && o1[f] == Other && TablesAdded(m1, MapUser(o1, d, hi, f), m2, o2, d)
    ensures ZeroUserPage(m2, o0, e)
  {
    hide Frame; hide Present; hide Flags;
  }

  lemma ZeroNow(o0: map<nat, Use>, m1: Mem, o1: map<nat, Use>, m2: Mem, o2: map<nat, Use>, d: nat, hi: nat, f: nat)
    requires f in o1 && o1[f] == Other && f !in o0 && f < |m1| && m1[f] == ZeroPage() && f != d
    requires TablesAdded(m1, MapUser(o1, d, hi, f), m2, o2, d)
    ensures ZeroUserPage(m2, o0, MkEntry(f, PTE_W + PTE_U))
  {}

  lemma PtesAddedAt(m0: Mem, o0: map<nat, Use>, m1: Mem, o1: map<nat, Use>, d: nat, lo: nat, hi: nat, v: nat)
    requires d < |m0| == |m1| && PtesAdded(m0, o0, m1, d, lo, hi) && Owned(m1, o1) && IsDir(m1, o1, d)
        && hi <= USERPAGES
    requires v < ALLPAGES
    ensures !(lo <= v < hi) ==> Pte(m1, d, v) == Pte(m0, d, v)
    ensures lo <= v < hi ==> ZeroUserPage(m1, o0, Pte(m1, d, v))
    ensures lo <= v < hi ==> Frame(Pte(m1, d, v)) in o1 && o1[Frame(Pte(m1, d, v))] == User(d, v)
  {
    if lo <= v < hi {
      assert ZeroUserPage(m1, o0, Pte(m1, d, v));
      PteOwned(m1, o1, d, v);
    }
  }

  lemma PtesAddedIf(m0: Mem, o0: map<nat, Use>, m1: Mem, d: nat, lo: nat, hi: nat)
    requires d < |m0| == |m1|
    requires forall v: nat | v < ALLPAGES ::
               if lo <= v < hi then ZeroUserPage(m1, o0, Pte(m1, d, v)) else Pte(m1, d, v) == Pte(m0, d, v)
    ensures PtesAdded(m0, o0, m1, d, lo, hi)
  {
    hide Pte; hide ZeroUserPage;
  }

  // mappages failed: a table at most has been added.
  lemma PageFailed(m0: Mem, o0: map<nat, Use>, m1: Mem, o1: map<nat, Use>, m2: Mem, o2: map<nat, Use>, d: nat, lo: nat,
                   hi: nat, f: nat)
    requires d < |m0| && PagesAdded(m0, o0, m1, o1, d, lo, hi, f) && hi < USERPAGES
    requires TablesAdded(m1, o1, m2, o2, d) && forall w: nat | w < USERPAGES :: Pte(m2, d, w) == Pte(m1, d, w)
    ensures |m2| == |m0| && UserPagesOf(m0, m2, d, lo, hi)
    ensures KeptAndNew(m0, o0, m2, o2, d, lo, hi, f)
  {
    hide Pte; hide Present; hide Frame; hide Flags;
  }

  ghost predicate NoneMapped(mem: Mem, d: nat, lo: nat, hi: nat)
    requires d < |mem|
  {
    forall w: nat | lo <= w < hi && w < ALLPAGES :: !Present(Pte(mem, d, w))
  }

  // What the entry maps, if anything.
  function Mapping(e: nat): nat {
    if Present(e) then e else 0
  }

  // Pages lo <= v < hi of d are unmapped and their frames free; the other pages are as they were, and
  // what is new is a table of d, or frame x.
  ghost predicate GivenBack(m0: Mem, o0: map<nat, Use>, m1: Mem, o1: map<nat, Use>, d: nat, lo: nat, hi: nat, x: nat)
    requires d < |m0| == |m1|
  {
    && KeptAndNew(m0, o0 - UsersIn(o0, d, lo, hi), m1, o1, d, lo, lo, x) && UsersIn(o1, d, lo, hi) == {}
    && (forall f | f in UsersIn(o0, d, lo, hi) :: f !in o1)
    && (forall v: nat {:trigger Pte(m1, d, v)} | v < USERPAGES ::
          Mapping(Pte(m1, d, v)) == if lo <= v < hi then 0 else Mapping(Pte(m0, d, v)))
  }

  // What remains of PagesAdded when only the user part of the table counts.
  ghost predicate UserPagesOf(m0: Mem, m1: Mem, d: nat, lo: nat, hi: nat)
    requires d < |m0| == |m1|
  {
    forall v: nat {:trigger Pte(m1, d, v)} | v < USERPAGES && !(lo <= v < hi) :: Pte(m1, d, v) == Pte(m0, d, v)
  }

  lemma AddedParts(m0: Mem, o0: map<nat, Use>, m1: Mem, o1: map<nat, Use>, d: nat, lo: nat, hi: nat, x: nat)
    requires d < |m0| && PagesAdded(m0, o0, m1, o1, d, lo, hi, x)
    ensures |m1| == |m0| && UserPagesOf(m0, m1, d, lo, hi) && KeptAndNew(m0, o0, m1, o1, d, lo, hi, x)
  {
    hide Pte; hide Present; hide Frame; hide Flags;
  }

  // What the rollback of a failed allocuvm leaves.
  lemma RolledBack(m0: Mem, o0: map<nat, Use>, m1: Mem, o1: map<nat, Use>, m2: Mem, o2: map<nat, Use>,
                   d: nat, lo: nat, v: nat, hi: nat, x: nat)
    requires d < |m0| && lo <= v <= hi <= USERPAGES
    requires |m1| == |m0| && UserPagesOf(m0, m1, d, lo, v) && KeptAndNew(m0, o0, m1, o1, d, lo, v, x)
    requires Unmapped(m1, o1, m2, o2, d, lo, hi)
    ensures |m2| == |m0| && GivenBack(m0, o0, m2, o2, d, lo, hi, x)
  {
    hide Pte; hide Present; hide Frame; hide Flags;
  }

  // kfree(mem), the frame that could not be mapped
  lemma FreedLast(m0: Mem, o0: map<nat, Use>, m1: Mem, o1: map<nat, Use>, m2: Mem, d: nat, lo: nat, hi: nat, x: nat)
    requires d < |m0| == |m1| && GivenBack(m0, o0, m1, o1, d, lo, hi, x)
    requires x !in o0 && Owned(m1, o1 - {x}) && IsDir(m1, o1 - {x}, d) && Untouched(m1, o1 - {x}, m2, o1 - {x})
    ensures |m2| == |m0| && GivenBack(m0, o0, m2, o1 - {x}, d, lo, hi, 0)
  {
    hide Pte; hide Owned;
    forall v: nat | v < USERPAGES
      ensures Pte(m2, d, v) == Pte(m1, d, v)
    {
      UntouchedPte(m1, o1 - {x}, m2, o1 - {x}, d, v);
    }
  }

  // ---------------------------------------------------------------- copying

  ghost predicate AllMapped(mem: Mem, d: nat, n: nat)
    requires d < |mem|
  {
    forall w: nat | w < n && w < ALLPAGES :: Present(Pte(mem, d, w))
  }

  // Page v under c is a private copy of page v under d: same contents and flags, another frame.
  predicate PageCopied(m0: Mem, o0: map<nat, Use>, e: nat, m1: Mem, e': nat) {
    && Present(e') && Flags(e') == Flags(e) && Frame(e') !in o0
    && Frame(e) < |m0| && Frame(e') < |m1| && m1[Frame(e')] == m0[Frame(e)]
  }

  // Pages below n have been copied from d to c; above, c maps what every address space does.
  ghost predicate Copied(m0: Mem, o0: map<nat, Use>, m1: Mem, d: nat, c: nat, n: nat, data: nat)
    requires d < |m0| && c < |m1|
  {
    forall v: nat {:trigger Pte(m1, c, v)} {:trigger Pte(m0, d, v)} | v < ALLPAGES ::
      if v < n then PageCopied(m0, o0, Pte(m0, d, v), m1, Pte(m1, c, v)) else Pte(m1, c, v) == KernEntry(data, v)
  }

  lemma CopiedNone(m0: Mem, o0: map<nat, Use>, m1: Mem, d: nat, c: nat, data: nat)
    requires d < |m0| && c < |m1| && forall v: nat | v < ALLPAGES :: Pte(m1, c, v) == KernEntry(data, v)
    ensures Copied(m0, o0, m1, d, c, 0, data)
  {
    hide Pte; hide KernEntry;
  }

  lemma CopiedIf(m0: Mem, o0: map<nat, Use>, m1: Mem, d: nat, c: nat, n: nat, data: nat)
    requires d < |m0| && c < |m1|
    requires forall v: nat | v < ALLPAGES ::
               if v < n then PageCopied(m0, o0, Pte(m0, d, v), m1, Pte(m1, c, v))
               else Pte(m1, c, v) == KernEntry(data, v)
    ensures Copied(m0, o0, m1, d, c, n, data)
  {
    hide Pte; hide KernEntry; hide PageCopied;
  }

  lemma CopiedAt(m0: Mem, o0: map<nat, Use>, m1: Mem, o1: map<nat, Use>, d: nat, c: nat, n: nat, data: nat, v: nat)
    requires d < |m0| && c < |m1| && Copied(m0, o0, m1, d, c, n, data) && v < ALLPAGES && n <= USERPAGES
    requires Owned(m1, o1) && IsDir(m1, o1, c)
    ensures v >= n ==> Pte(m1, c, v) == KernEntry(data, v)
    ensures v < n ==> PageCopied(m0, o0, Pte(m0, d, v), m1, Pte(m1, c, v))
    ensures v < n ==> Frame(Pte(m1, c, v)) in o1 && o1[Frame(Pte(m1, c, v))] == User(c, v)
  {
    if v < n {
      assert PageCopied(m0, o0, Pte(m0, d, v), m1, Pte(m1, c, v));
      PteOwned(m1, o1, c, v);
    }
  }

  lemma CopyStays(m0: Mem, o0: map<nat, Use>, e: nat, m1: Mem, o1: map<nat, Use>, m2: Mem, o2: map<nat, Use>,
                  c: nat, v: nat, f: nat, p: Page, e': nat, w: nat)
    requires PageCopied(m0, o0, e, m1, e') && Frame(e') in o1 && o1[Frame(e')] == User(c, w) && Frame(e') != c
    requires f < |m1| && f !in o1 && TablesAdded(m1[f := p], MapUser(o1[f := Other], c, v, f), m2, o2, c)
    ensures PageCopied(m0, o0, e, m2, e')
  {
    hide Present; hide Frame; hide Flags;
  }

  lemma CopyNow(m0: Mem, o0: map<nat, Use>, e: nat, m1: Mem, o1: map<nat, Use>, m2: Mem, o2: map<nat, Use>,
                c: nat, v: nat, f: nat)
    requires Present(e) && Frame(e) < |m0| && Frame(e) < |m1| && m1[Frame(e)] == m0[Frame(e)] && f !in o0
    requires f < |m1| && f !in o1 && f != c
    requires TablesAdded(m1[f := m1[Frame(e)]], MapUser(o1[f := Other], c, v, f), m2, o2, c)
    ensures PageCopied(m0, o0, e, m2, MkEntry(f, Flags(e)))
  {
    assert Present(Flags(e));
  }

  lemma CopySpace(m0: Mem, o0: map<nat, Use>, m1: Mem, o1: map<nat, Use>, m2: Mem, o2: map<nat, Use>,
                  c: nat, v: nat, f: nat, p: Page)
    requires Owned(m0, o0) && c !in o0 && NewSpace(m0, o0, m1, o1, c) && f < |m1| && f !in o1
    requires TablesAdded(m1[f := p], MapUser(o1[f := Other], c, v, f), m2, o2, c)
    ensures NewSpace(m0, o0, m2, o2, c)
  {
    NoFrames(m0, o0, c);
    forall g | g in o0
      ensures g < |m0|
    {
      UsesIn(m0, o0, g);
    }
    hide Owned;
  }

  // One turn of copyuvm's loop: page v, whose entry is e, gets a copy in frame f.
  lemma CopyStep(m0: Mem, o0: map<nat, Use>, m1: Mem, o1: map<nat, Use>, m2: Mem, o2: map<nat, Use>,
                 d: nat, c: nat, v: nat, f: nat, e: nat, data: nat)
    requires d < |m0| == |m1| == |m2| && c < |m1| && Owned(m1, o1) && IsDir(m1, o1, c) && v < USERPAGES
        && NewSpace(m0, o0, m1, o1, c)
    requires Copied(m0, o0, m1, d, c, v, data)
    requires e == Pte(m0, d, v) && Present(e) && Frame(e) < |m0| && m1[Frame(e)] == m0[Frame(e)]
    requires f < |m1| && f !in o1 && f !in o0
    requires TablesAdded(m1[f := m1[Frame(e)]], MapUser(o1[f := Other], c, v, f), m2, o2, c)
    requires forall w: nat | w < ALLPAGES :: Pte(m2, c, w) == if w == v then MkEntry(f, Flags(e)) else Pte(m1, c, w)
    ensures Copied(m0, o0, m2, d, c, v + 1, data)
  {
    hide Owned; hide Pte; hide KernEntry; hide Present; hide Frame; hide Flags; hide MkEntry; hide TablesAdded;
    hide Copied; hide PageCopied;
    hide MapUser; hide NewSpace;
    forall w: nat | w < ALLPAGES
      ensures if w < v + 1 then PageCopied(m0, o0, Pte(m0, d, w), m2, Pte(m2, c, w))
          else Pte(m2, c, w) == KernEntry(data, w)
    {
      CopiedAt(m0, o0, m1, o1, d, c, v, data, w);
      if w < v {
        CopyStays(m0, o0, Pte(m0, d, w), m1, o1, m2, o2, c, v, f, m1[Frame(e)], Pte(m1, c, w), w);
      } else if w == v {
        CopyNow(m0, o0, e, m1, o1, m2, o2, c, v, f);
      }
    }
    CopiedIf(m0, o0, m2, d, c, v + 1, data);
  }
}
