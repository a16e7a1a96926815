/** What the processor makes of an address: the two-level walk of the x86, in numbers, and what the
    address spaces of the kernel are to look like through it. */
module Mmu {
  import opened Machine

  // Memory by frames of 1024 words.
  type Frames = seq<seq<Uint>>

  datatype Access = Fault | Hit(pa: nat, write: bool, user: bool)

  // Address va under the directory in frame d. Both levels must allow an access.
  function Translate(mem: Frames, d: nat, va: nat): Access {
    if d >= |mem| || va / 0x40_0000 >= |mem[d]| then Fault
    else
      var pde := mem[d][va / 0x40_0000];
      if pde % 2 == 0 || pde / 4096 >= |mem| || va / 4096 % 1024 >= |mem[pde / 4096]| then Fault
      else
        var pte := mem[pde / 4096][va / 4096 % 1024];
        if pte % 2 == 0 then Fault
        else Hit(pte / 4096 * 4096 + va % 4096, pde / 2 % 2 == 1 && pte / 2 % 2 == 1,
                 pde / 4 % 2 == 1 && pte / 4 % 2 == 1)
  }

  // The kernel's part of every address space; its data start at address `data`.
  function KernelSees(data: nat, va: nat): Access {
    if va < 0x8000_0000 then Fault
    else if va < 0x8010_0000 then Hit(va - 0x8000_0000, true, false)  // I/O space
    else if va < data then Hit(va - 0x8000_0000, false, false)        // text and read-only data
    else if va < 0x8E00_0000 then Hit(va - 0x8000_0000, true, false)  // data and memory
    else if va < 0xFE00_0000 then Fault
    else Hit(va, true, false)                                         // devices
  }

  ghost predicate KernelSpace(mem: Frames, d: nat, data: nat) {
    forall va: nat | va < 0x1_0000_0000 :: Translate(mem, d, va) == KernelSees(data, va)
  }

  // Address va is the user's to read and write, in a frame that was free, and finds 0 there.
  predicate ZeroAt(used: set<nat>, mem: Frames, d: nat, va: nat) {
    var a := Translate(mem, d, va);
    && a.Hit? && a.write && a.user && a.pa % 4096 == va % 4096
    && a.pa / 4096 < |mem| && a.pa / 4096 !in used && mem[a.pa / 4096] == seq(1024, _ => 0)
  }

  // The pages from lo to below hi are now at the frames from f on, with the permissions of perm.
  ghost predicate RangeSeen(was: Frames, now: Frames, d: nat, lo: nat, hi: nat, f: nat, perm: nat) {
    forall va: nat | va < 0x1_0000_0000 ::
      Translate(now, d, va) ==
      if lo <= va / 4096 < hi
      then Hit((f + va / 4096 - lo) * 4096 + va % 4096, perm / 2 % 2 == 1, perm / 4 % 2 == 1)
      else Translate(was, d, va)
  }

  // From lo to hi, whole pages, there is new memory; nothing else is seen differently.
  ghost predicate MoreMemory(was: Frames, used: set<nat>, now: Frames, d: nat, lo: nat, hi: nat) {
    forall va: nat | va < 0x1_0000_0000 ::
      if (lo + 4095) / 4096 <= va / 4096 < (hi + 4095) / 4096 then ZeroAt(used, now, d, va)
      else Translate(now, d, va) == Translate(was, d, va)
  }

  // From lo to hi, whole pages, there is no memory; below `top` nothing else is seen differently.
  ghost predicate LessMemory(was: Frames, now: Frames, d: nat, lo: nat, hi: nat, top: nat) {
    forall va: nat | va < top ::
      Translate(now, d, va) ==
      if (lo + 4095) / 4096 <= va / 4096 < (hi + 4095) / 4096 then Fault else Translate(was, d, va)
  }

  // Address va under c is a private copy of what it is under d: as much is allowed, and the frame, which
  // was free, has the same contents.
  predicate CopyAt(was: Frames, used: set<nat>, now: Frames, d: nat, c: nat, va: nat) {
    var a, b := Translate(was, d, va), Translate(now, c, va);
    && a.Hit? && b.Hit? && b.write == a.write && b.user == a.user && b.pa % 4096 == a.pa % 4096 == va % 4096
    && b.pa / 4096 !in used && a.pa / 4096 < |was| && b.pa / 4096 < |now|
    && now[b.pa / 4096] == was[a.pa / 4096]
  }

  ghost predicate SpaceCopied(was: Frames, used: set<nat>, now: Frames, d: nat, c: nat, sz: nat, data: nat) {
    forall va: nat | va < 0x1_0000_0000 ::
      if va / 4096 < (sz + 4095) / 4096 then CopyAt(was, used, now, d, c, va)
      else Translate(now, c, va) == KernelSees(data, va)
  }
}
