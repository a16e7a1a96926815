/** The page tables that the kernel builds, as the processor sees them. */
module VmSees {
  import opened Mmu
  import opened VmSpec
  import opened VmOps

  // What an entry says of the address at offset off of its page.
  function Sees(e: nat, off: nat): Access {
    if e % 2 == 0 then Fault else Hit(e / 4096 * 4096 + off, e / 2 % 2 == 1, e / 4 % 2 == 1)
  }

  // Directory entries allow everything, so the table's entry decides.
  lemma SeesPte(mem: Mem, owner: map<nat, Use>, d: nat, va: nat)
    requires Owned(mem, owner) && IsDir(mem, owner, d) && va < 0x1_0000_0000
    ensures Translate(mem, d, va) == Sees(Pte(mem, d, va / 4096), va % 4096)
  {
    var e := mem[d][va / 0x40_0000];
    assert va / 4096 / 1024 == va / 0x40_0000;
    if e % 2 == 1 {
      EntryOwned(mem, owner, d, va / 0x40_0000);
      AllFlags(e);
    }
  }

  // The flags alone say what is allowed.
  lemma FlagBits(e: nat)
    ensures e / 2 % 2 == Flags(e) / 2 % 2 && e / 4 % 2 == Flags(e) / 4 % 2
  {
    var q, r := e / 4096, Flags(e);
    assert e / 2 == 2048 * q + r / 2 && e / 4 == 1024 * q + r / 4;
    EvenPlus(1024 * q, r / 2);
    EvenPlus(512 * q, r / 4);
  }

  lemma EvenPlus(k: nat, x: nat)
    ensures (2 * k + x) % 2 == x % 2
  {}

  lemma AllFlags(e: nat)
    requires Flags(e) == PTE_P + PTE_W + PTE_U
    ensures e / 2 % 2 == 1 && e / 4 % 2 == 1
  {
    FlagBits(e);
  }

  lemma SeesEntry(f: nat, perm: nat, off: nat)
    requires perm < 4096
    ensures Sees(MkEntry(f, perm), off) == Hit(f * 4096 + off, perm / 2 % 2 == 1, perm / 4 % 2 == 1)
  {
    FlagBits(MkEntry(f, perm));
    hide MkEntry;
  }

  lemma RangeSeenIs(m0: Mem, o0: map<nat, Use>, m1: Mem, o1: map<nat, Use>, d: nat, lo: nat, hi: nat, f: nat, perm: nat)
    requires Owned(m0, o0) && IsDir(m0, o0, d) && Owned(m1, o1) && IsDir(m1, o1, d) && perm < 4096
    requires forall w: nat | w < ALLPAGES ::
        Pte(m1, d, w) == if lo <= w < hi then MkEntry(f + (w - lo), perm) else Pte(m0, d, w)
    ensures RangeSeen(m0, m1, d, lo, hi, f, perm)
  {
    hide Owned; hide Pte; hide Translate; hide Sees; hide MkEntry;
    forall va: nat | va < 0x1_0000_0000
      ensures Translate(m1, d, va) ==
        if lo <= va / 4096 < hi
        then Hit((f + va / 4096 - lo) * 4096 + va % 4096, perm / 2 % 2 == 1, perm / 4 % 2 == 1)
        else Translate(m0, d, va)
    {
      SeesPte(m0, o0, d, va);
      SeesPte(m1, o1, d, va);
      if lo <= va / 4096 < hi {
        SeesEntry(f + (va / 4096 - lo), perm, va % 4096);
      }
    }
  }

  lemma KernelEntrySees(data: nat, va: nat)
    requires data % 4096 == 0 && 0x8010_0000 < data < 0x8E00_0000 && va < 0x1_0000_0000
    ensures Sees(KernEntry(data, va / 4096), va % 4096) == KernelSees(data, va)
  {
    var v := va / 4096;
    if v >= USERPAGES {
      SeesEntry(v - USERPAGES, PTE_W, va % 4096);
      SeesEntry(v - USERPAGES, 0, va % 4096);
      SeesEntry(v, PTE_W, va % 4096);
    }
    hide MkEntry; hide Sees;
    assert Sees(0, va % 4096) == Fault by { NothingSeen(va % 4096); }
  }

  lemma NothingSeen(off: nat)
    ensures Sees(0, off) == Fault
  {}

  lemma KernelSpaceIs(mem: Mem, owner: map<nat, Use>, d: nat, data: nat)
    requires Owned(mem, owner) && IsDir(mem, owner, d)
    requires data % 4096 == 0 && 0x8010_0000 < data < 0x8E00_0000
    requires forall v: nat | v < ALLPAGES :: Pte(mem, d, v) == KernEntry(data, v)
    ensures KernelSpace(mem, d, data)
  {
    hide Owned; hide Pte; hide KernEntry; hide Translate; hide Sees; hide KernelSees;
    forall va: nat | va < 0x1_0000_0000
      ensures Translate(mem, d, va) == KernelSees(data, va)
    {
      SeesPte(mem, owner, d, va);
      KernelEntrySees(data, va);
    }
  }

  lemma MoreMemoryIs(m0: Mem, o0: map<nat, Use>, m1: Mem, o1: map<nat, Use>, d: nat, lo: nat, hi: nat)
    requires Owned(m0, o0) && IsDir(m0, o0, d) && Owned(m1, o1) && IsDir(m1, o1, d)
    requires PagesAdded(m0, o0, m1, o1, d, (lo + 4095) / 4096, (hi + 4095) / 4096, 0)
    ensures MoreMemory(m0, o0.Keys, m1, d, lo, hi)
  {
    hide Owned; hide Pte; hide Translate; hide KeptAndNew; hide Sees; hide ZeroUserPage;
    forall va: nat | va < 0x1_0000_0000
      ensures if (lo + 4095) / 4096 <= va / 4096 < (hi + 4095) / 4096 then ZeroAt(o0.Keys, m1, d, va)
        else Translate(m1, d, va) == Translate(m0, d, va)
    {
      SeesPte(m0, o0, d, va);
      SeesPte(m1, o1, d, va);
      var v := va / 4096;
      if (lo + 4095) / 4096 <= v < (hi + 4095) / 4096 {
        assert ZeroUserPage(m1, o0, Pte(m1, d, v));
        SeesZero(m1, o0, d, va, Pte(m1, d, v));
      }
    }
  }

  lemma SeesZero(mem: Mem, owner: map<nat, Use>, d: nat, va: nat, e: nat)
    requires ZeroUserPage(mem, owner, e) && Translate(mem, d, va) == Sees(e, va % 4096)
    ensures ZeroAt(owner.Keys, mem, d, va)
  {
    AllFlags(e);
    var off := va % 4096;
    assert (e / 4096 * 4096 + off) / 4096 == e / 4096;
    assert ZeroPage() == seq(1024, _ => 0);
    hide Translate;
  }

  lemma LessMemoryIs(m0: Mem, o0: map<nat, Use>, m1: Mem, o1: map<nat, Use>, d: nat, lo: nat, hi: nat, top: nat)
    requires Owned(m0, o0) && IsDir(m0, o0, d) && Owned(m1, o1) && IsDir(m1, o1, d) && top <= 0x1_0000_0000
    requires forall v: nat | v < top / 4096 :: Mapping(Pte(m1, d, v)) ==
               if (lo + 4095) / 4096 <= v < (hi + 4095) / 4096 then 0 else Mapping(Pte(m0, d, v))
    requires top % 4096 == 0
    ensures LessMemory(m0, m1, d, lo, hi, top)
  {
    hide Owned; hide Pte; hide Translate; hide Mapping; hide Sees;
    forall va: nat | va < top
      ensures Translate(m1, d, va) ==
        if (lo + 4095) / 4096 <= va / 4096 < (hi + 4095) / 4096 then Fault else Translate(m0, d, va)
    {
      SeesPte(m0, o0, d, va);
      SeesPte(m1, o1, d, va);
      SeesMapping(Pte(m0, d, va / 4096), Pte(m1, d, va / 4096), va % 4096);
    }
  }

  lemma SeesMapping(e: nat, e': nat, off: nat)
    ensures Mapping(e') == Mapping(e) ==> Sees(e', off) == Sees(e, off)
    ensures Mapping(e') == 0 ==> Sees(e', off) == Fault
  {}

  lemma UnmappedMapping(m0: Mem, o0: map<nat, Use>, m1: Mem, o1: map<nat, Use>, d: nat, lo: nat, hi: nat)
    requires d < |m0| && Unmapped(m0, o0, m1, o1, d, lo, hi)
    ensures forall v: nat | v < ALLPAGES :: Mapping(Pte(m1, d, v)) == if lo <= v < hi then 0 else Mapping(Pte(m0, d, v))
  {
    hide Pte;
  }

  lemma CopySpaceIs(m0: Mem, o0: map<nat, Use>, m1: Mem, o1: map<nat, Use>, d: nat, c: nat, sz: nat, data: nat)
    requires Owned(m0, o0) && IsDir(m0, o0, d) && Owned(m1, o1) && IsDir(m1, o1, c)
    requires data % 4096 == 0 && 0x8010_0000 < data < 0x8E00_0000
    requires Copied(m0, o0, m1, d, c, (sz + 4095) / 4096, data) && sz <= 0x8000_0000
    requires forall v: nat | v < (sz + 4095) / 4096 && v < ALLPAGES :: Present(Pte(m0, d, v))
    ensures SpaceCopied(m0, o0.Keys, m1, d, c, sz, data)
  {
    hide Owned; hide Pte; hide Translate; hide Sees; hide KernelSees; hide KernEntry; hide PageCopied; hide Present;
    forall va: nat | va < 0x1_0000_0000
      ensures if va / 4096 < (sz + 4095) / 4096 then CopyAt(m0, o0.Keys, m1, d, c, va)
        else Translate(m1, c, va) == KernelSees(data, va)
    {
      SeesPte(m0, o0, d, va);
      SeesPte(m1, o1, c, va);
      var v := va / 4096;
      if v < (sz + 4095) / 4096 {
        SeesCopy(m0, o0, m1, d, c, va, Pte(m0, d, v), Pte(m1, c, v));
      } else {
        KernelEntrySees(data, va);
      }
    }
  }

  lemma SeesCopy(m0: Mem, o0: map<nat, Use>, m1: Mem, d: nat, c: nat, va: nat, e: nat, e': nat)
    requires PageCopied(m0, o0, e, m1, e') && Present(e)
    requires Translate(m0, d, va) == Sees(e, va % 4096) && Translate(m1, c, va) == Sees(e', va % 4096)
    ensures CopyAt(m0, o0.Keys, m1, d, c, va)
  {
    var off := va % 4096;
    SameFlags(e, e');
    assert (e / 4096 * 4096 + off) / 4096 == e / 4096 && (e' / 4096 * 4096 + off) / 4096 == e' / 4096;
    hide Translate;
  }

  lemma SameFlags(e: nat, e': nat)
    requires Flags(e) == Flags(e')
    ensures e / 2 % 2 == e' / 2 % 2 && e / 4 % 2 == e' / 4 % 2
  {
    FlagBits(e);
    FlagBits(e');
    hide Flags;
  }
}
