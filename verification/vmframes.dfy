/** How many frames building and growing an address space takes: one for each page, and one for each table
    that was not there. */
module VmFrames {
  import opened VmSpec

  // How many of the first n entries of a directory have tables.
  function Tables(row: Page, n: nat): nat
    requires n <= ENTRIES
  {
    if n == 0 then 0 else Tables(row, n - 1) + if Present(row[n - 1]) then 1 else 0
  }

  // How many of the entries a <= i < b have none.
  function Absent(row: Page, a: nat, b: nat): nat
    requires b <= ENTRIES
    decreases b
  {
    if b <= a then 0 else Absent(row, a, b - 1) + if Present(row[b - 1]) then 0 else 1
  }

  // With n free frames a directory was `row`, with n' it is row': the missing frames are new tables, for entries
  // a <= i < b.
  ghost predicate Took(row: Page, n: nat, row': Page, n': nat, a: nat, b: nat) {
    && (forall i | 0 <= i < ENTRIES ::
          row'[i] == row[i] || (a <= i < b && !Present(row[i]) && Present(row'[i])))
    && n' + Tables(row', ENTRIES) == n + Tables(row, ENTRIES)
  }

  lemma TookNone(row: Page, n: nat, a: nat, b: nat)
    ensures Took(row, n, row, n, a, b)
  {}

  // One table more.
  lemma {:induction false} TablesPut(row: Page, i: nat, e: nat, n: nat)
    requires i < ENTRIES && n <= ENTRIES && e < 0x1_0000_0000 && !Present(row[i]) && Present(e)
    ensures Tables(row[i := e], n) == Tables(row, n) + if i < n then 1 else 0
  {
    hide Present;
    if n > 0 {
      TablesPut(row, i, e, n - 1);
    }
  }

  lemma TookOne(row: Page, n: nat, i: nat, e: nat)
    requires n > 0 && i < ENTRIES && e < 0x1_0000_0000 && !Present(row[i]) && Present(e)
    ensures Took(row, n, row[i := e], n - 1, i, i + 1)
  {
    TablesPut(row, i, e, ENTRIES);
    hide Present; hide Tables;
  }

  // The tables there are and those wanted there are not, together.
  lemma {:induction false} TablesBalance(row: Page, row': Page, a: nat, b: nat, n: nat)
    requires n <= ENTRIES && a <= b <= ENTRIES
    requires forall i | 0 <= i < ENTRIES :: row'[i] == row[i] || (a <= i < b && !Present(row[i]) && Present(row'[i]))
    ensures var m := if n < a then a else if n < b then n else b;
      Tables(row', n) + Absent(row', a, m) == Tables(row, n) + Absent(row, a, m)
  {
    hide Present;
    if n > 0 {
      TablesBalance(row, row', a, b, n - 1);
    }
  }

  lemma {:induction false} AbsentNone(row: Page, a: nat, b: nat)
    requires b <= ENTRIES
    ensures Absent(row, a, b) == 0 <==> forall i | a <= i < b :: Present(row[i])
    decreases b
  {
    hide Present;
    if b > a {
      AbsentNone(row, a, b - 1);
    }
  }

  lemma {:induction false} AbsentAll(row: Page, a: nat, b: nat)
    requires a <= b <= ENTRIES && forall i | a <= i < b :: !Present(row[i])
    ensures Absent(row, a, b) == b - a
    decreases b
  {
    hide Present;
    if b > a {
      AbsentAll(row, a, b - 1);
    }
  }

  lemma {:induction false} AbsentMore(row: Page, a: nat, b: nat, c: nat)
    requires a <= b <= c <= ENTRIES
    ensures Absent(row, a, b) <= Absent(row, a, c)
    decreases c
  {
    hide Present;
    if b < c {
      AbsentMore(row, a, b, c - 1);
    }
  }

  // ---------------------------------------------------------------- a range of pages

  // The entry behind those of pages lo <= w < v.
  function Upto(lo: nat, v: nat): (b: nat)
    ensures lo / ENTRIES <= b && (v <= ALLPAGES && lo <= ALLPAGES - 1 ==> b <= ENTRIES)
  {
    if v <= lo then lo / ENTRIES else (v - 1) / ENTRIES + 1
  }

  // What it takes to map pages lo <= v < hi, which are not mapped.
  function FramesFor(row: Page, lo: nat, hi: nat): nat
    requires lo <= hi <= ALLPAGES && lo < ALLPAGES
  {
    hi - lo + Absent(row, lo / ENTRIES, Upto(lo, hi))
  }

  predicate HaveTables(row: Page, a: nat, b: nat) {
    forall i | a <= i < b && i < ENTRIES :: Present(row[i])
  }

  // The tables for pages lo <= w < v have been made.
  ghost predicate Made(row0: Page, n0: nat, row: Page, n: nat, lo: nat, v: nat) {
    Took(row0, n0, row, n, lo / ENTRIES, Upto(lo, v)) && HaveTables(row, lo / ENTRIES, Upto(lo, v))
  }

  lemma MadeNone(row: Page, n: nat, lo: nat)
    ensures Made(row, n, row, n, lo, lo)
  {
    TookNone(row, n, lo / ENTRIES, lo / ENTRIES);
  }

  // The walk for page v.
  lemma MadeNext(row0: Page, n0: nat, row: Page, n: nat, row': Page, n': nat, lo: nat, v: nat, hi: nat)
    requires lo <= v < hi <= ALLPAGES && Made(row0, n0, row, n, lo, v)
    requires Took(row, n, row', n', v / ENTRIES, v / ENTRIES + 1)
    ensures Took(row0, n0, row', n', lo / ENTRIES, Upto(lo, hi))
    ensures Present(row'[v / ENTRIES]) ==> Made(row0, n0, row', n', lo, v + 1)
  {
    hide Present; hide Tables;
    assert Upto(lo, v + 1) == v / ENTRIES + 1 && v / ENTRIES <= Upto(lo, v) <= v / ENTRIES + 1 <= Upto(lo, hi);
  }

  lemma AllMade(row0: Page, n0: nat, row: Page, n: nat, lo: nat, hi: nat)
    requires Made(row0, n0, row, n, lo, hi)
    ensures Took(row0, n0, row, n, lo / ENTRIES, Upto(lo, hi)) && HaveTables(row, lo / ENTRIES, Upto(lo, hi))
  {}

  lemma NotThere(row: Page, lo: nat, v: nat, hi: nat)
    requires lo <= v < hi <= ALLPAGES && !Present(row[v / ENTRIES])
    ensures !HaveTables(row, lo / ENTRIES, Upto(lo, hi))
  {
    hide Present;
    assert lo / ENTRIES <= v / ENTRIES < Upto(lo, hi);
  }

  // Pages lo <= w < v have been mapped under a directory that was row0 with n0 free frames.
  ghost predicate Going(row0: Page, n0: nat, row: Page, n: nat, lo: nat, v: nat) {
    && lo <= v <= ALLPAGES && lo < ALLPAGES
    && Took(row0, n0, row, n + (v - lo), lo / ENTRIES, Upto(lo, v))
    && forall i | lo / ENTRIES <= i < Upto(lo, v) :: Present(row[i])
  }

  lemma GoingStart(row: Page, n: nat, lo: nat)
    requires lo < ALLPAGES
    ensures Going(row, n, row, n, lo, lo)
  {
    TookNone(row, n, lo / ENTRIES, lo / ENTRIES);
  }

  lemma GoingNext(row0: Page, n0: nat, row: Page, n: nat, row': Page, n': nat, lo: nat, v: nat)
    requires Going(row0, n0, row, n, lo, v) && v < ALLPAGES
    requires Took(row, n, row', n' + 1, v / ENTRIES, v / ENTRIES + 1) && Present(row'[v / ENTRIES])
    ensures Going(row0, n0, row', n', lo, v + 1)
  {
    hide Present; hide Tables;
    assert Upto(lo, v + 1) == v / ENTRIES + 1 && v / ENTRIES <= Upto(lo, v) <= v / ENTRIES + 1;
  }

  lemma GoingDone(row0: Page, n0: nat, row: Page, n: nat, lo: nat, hi: nat)
    requires Going(row0, n0, row, n, lo, hi)
    ensures n0 == n + FramesFor(row0, lo, hi)
  {
    var a, b := lo / ENTRIES, Upto(lo, hi);
    TablesBalance(row0, row, a, b, ENTRIES);
    AbsentNone(row, a, b);
    hide Present; hide Tables;
  }

  // No frame for the next page, or for its table.
  lemma GoingShort(row0: Page, n0: nat, row: Page, n: nat, lo: nat, v: nat, hi: nat)
    requires Going(row0, n0, row, n, lo, v) && v < hi <= ALLPAGES
    requires n < 1 + Absent(row, v / ENTRIES, v / ENTRIES + 1)
    ensures n0 < FramesFor(row0, lo, hi)
  {
    var a, i, b := lo / ENTRIES, v / ENTRIES, Upto(lo, v);
    GoingDone(row0, n0, row, n, lo, v);
    assert Upto(lo, v + 1) == i + 1 && i <= b <= i + 1 && i + 1 <= Upto(lo, hi);
    AbsentMore(row0, a, i + 1, Upto(lo, hi));
    AbsentMore(row0, a, b, i + 1);
    AbsentNone(row, i, i + 1);
    hide Present; hide Tables; hide Upto;
    if b == i {
      assert row[i] == row0[i];
    }
  }

  // The entry for one page.
  lemma OnePage(v: nat)
    ensures Upto(v, v + 1) == v / ENTRIES + 1
  {}

  // A frame was taken for the page, and then its table was there, or was made, or could not be.
  lemma TookPage(row: Page, n: nat, row': Page, n': nat, i: nat)
    requires i < ENTRIES && Took(row, n, row', n', i, i + 1)
    ensures Took(row, n + 1, row', n' + 1, i, i + 1)
    ensures HaveTables(row', i, i + 1) ==> Present(row'[i])
    ensures !HaveTables(row', i, i + 1) && n' == 0 ==> n + 1 < 1 + Absent(row, i, i + 1)
  {
    hide Present;
    if !Present(row'[i]) {
      assert row' == row;
      assert Absent(row, i, i + 1) == Absent(row, i, i) + 1;
    }
  }

  // A space without user tables.
  lemma UserFrames(row: Page, n: nat)
    requires n <= USERPAGES && forall i | 0 <= i < 512 :: !Present(row[i])
    ensures FramesFor(row, 0, n) == n + (n + 1023) / 1024
  {
    AbsentAll(row, 0, Upto(0, n));
  }

  // ---------------------------------------------------------------- the kernel's tables

  // The entries of the kernel's mappings: 0x80000000 to 0x8E000000, and 0xFE000000 to the end.
  predicate KernelTable(i: nat) {
    512 <= i < 568 || i >= 1016
  }

  function KernelTables(n: nat): nat {
    (if n <= 512 then 0 else if n <= 568 then n - 512 else 56) + if n <= 1016 then 0 else n - 1016
  }

  lemma {:induction false} KernelCount(row: Page, n: nat)
    requires n <= ENTRIES && forall i | 0 <= i < ENTRIES :: Present(row[i]) ==> KernelTable(i)
    ensures Tables(row, n) <= KernelTables(n)
    ensures (forall i | 0 <= i < n && KernelTable(i) :: Present(row[i])) <==> Tables(row, n) == KernelTables(n)
  {
    hide Present;
    if n > 0 {
      KernelCount(row, n - 1);
    }
  }

  // A directory that has only kernel tables, and has taken one frame and theirs of n0.
  ghost predicate KernelRow(n0: nat, row: Page, n: nat) {
    n + 1 + Tables(row, ENTRIES) == n0 && forall i | 0 <= i < ENTRIES :: Present(row[i]) ==> KernelTable(i)
  }

  lemma {:induction false} NoTables(row: Page, n: nat)
    requires n <= ENTRIES && forall i | 0 <= i < n :: !Present(row[i])
    ensures Tables(row, n) == 0
  {
    if n > 0 {
      NoTables(row, n - 1);
    }
  }

  lemma KernelRowStart(n0: nat)
    requires n0 > 0
    ensures KernelRow(n0, ZeroPage(), n0 - 1)
  {
    NoTables(ZeroPage(), ENTRIES);
  }

  lemma KernelRowNext(n0: nat, row: Page, n: nat, row': Page, n': nat, a: nat, b: nat)
    requires KernelRow(n0, row, n) && Took(row, n, row', n', a, b) && forall i | a <= i < b :: KernelTable(i)
    ensures KernelRow(n0, row', n')
  {
    hide Present; hide Tables; hide KernelTable;
  }

  lemma KernelRowShort(n0: nat, row: Page, a: nat, b: nat)
    requires KernelRow(n0, row, 0) && !HaveTables(row, a, b) && forall i | a <= i < b :: KernelTable(i)
    ensures n0 < 65
  {
    KernelCount(row, ENTRIES);
    hide Present; hide Tables;
  }

  lemma KernelRowDone(n0: nat, row: Page, n: nat)
    requires KernelRow(n0, row, n) && forall i | 0 <= i < ENTRIES && KernelTable(i) :: Present(row[i])
    ensures n0 == n + 65 && forall i | 0 <= i < 512 :: !Present(row[i])
  {
    KernelCount(row, ENTRIES);
    hide Present; hide Tables;
  }
}
