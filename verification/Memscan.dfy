/** The driver's walk over a process's page tables through their self-map, AMD64 form (DBKKernel/memscan.c). Pages
    are numbered by bits 12 to 47 of their addresses. There are no 1 GB pages. */
module Memscan {
  const PAGEBASE: int := 0xffff_f680_0000_0000
  const MAX_PTE_POS: int := 0xffff_f6ff_ffff_fff8
  const PAGE_SIZE_LARGE: int := 0x20_0000

  const TWO12: int := 0x1000
  const TWO30: int := 0x4000_0000
  const TWO39: int := 0x80_0000_0000
  const TWO47: int := 0x8000_0000_0000
  const TWO48: int := 0x1_0000_0000_0000
  const TWO64: int := 0x1_0000_0000_0000_0000

  /** Pages, and pages in a page table, a page directory, a directory pointer table. */
  const PAGES: int := 0x10_0000_0000
  const PER1: int := 0x200
  const PER2: int := 0x4_0000
  const PER3: int := 0x800_0000

  /** Where the entries of each level begin in the self-map. */
  const PDEBASE: int := 0xffff_f6fb_4000_0000
  const PDPTEBASE: int := 0xffff_f6fb_7da0_0000
  const PML4EBASE: int := 0xffff_f6fb_7dbe_d000

  predicate Canonical(a: int) { 0 <= a < TWO47 || TWO64 - TWO47 <= a < TWO64 }

  /** Bits 48 to 63 follow bit 47. */
  function SignExtend(a: nat): nat { if a / TWO47 == 1 then a + (TWO64 - TWO48) else a }

  /** `((a & 0xFFFFFFFFFFFF) >> 12) * PTESize + pagebase` */
  function EntryFor(a: nat): nat { a % TWO48 / TWO12 * 8 + PAGEBASE }

  /** `SignExtend(((p - pagebase) / PTESize) << 12)` */
  function MappedBy(p: nat): nat
    requires p >= PAGEBASE
  {
    SignExtend((p - PAGEBASE) / 8 * TWO12)
  }

  function PageOf(a: nat): nat { a % TWO48 / TWO12 }
  function AddressOf(i: nat): nat { SignExtend(i * TWO12) }

  /** The two formulas undo each other, on canonical addresses and on entries of the self-map. */
  lemma SelfMapInverse(a: nat, i: nat)
    requires Canonical(a) && i < PAGES
    ensures MappedBy(EntryFor(a)) == a - a % TWO12 && EntryFor(a) == PAGEBASE + 8 * PageOf(a) && PageOf(a) < PAGES
    ensures EntryFor(MappedBy(PAGEBASE + 8 * i)) == PAGEBASE + 8 * i && MappedBy(PAGEBASE + 8 * i) == AddressOf(i)
    ensures Canonical(AddressOf(i)) && PageOf(AddressOf(i)) == i
  {
    hide EntryFor, MappedBy, PageOf, AddressOf;
    AddressRoundTrip(a);
    PageRoundTrip(i);
    DownFromPte(i);
    assert EntryFor(AddressOf(i)) == PAGEBASE + 8 * PageOf(AddressOf(i)) by { EntryOfPage(AddressOf(i)); }
    EntryOfPage(a);
    DownFromPte(PageOf(a));
  }

  lemma EntryOfPage(a: nat)
    ensures EntryFor(a) == PAGEBASE + 8 * PageOf(a) && PageOf(a) < PAGES
  {}

  lemma PageRoundTrip(i: nat)
    requires i < PAGES
    ensures Canonical(AddressOf(i)) && PageOf(AddressOf(i)) == i
  {
    var x := i * TWO12;
    assert x < TWO48;
    assert AddressOf(i) % TWO48 == x;
  }

  lemma AddressRoundTrip(a: nat)
    requires Canonical(a)
    ensures AddressOf(PageOf(a)) == a - a % TWO12
  {
    var low := a % TWO48;
    assert low / TWO12 * TWO12 == low - low % TWO12;
    assert low % TWO12 == a % TWO12;
  }

  lemma DownFromPte(i: nat)
    requires i < PAGES
    ensures MappedBy(PAGEBASE + 8 * i) == AddressOf(i)
  {}

  /** An entry at `low` pages and 8 * i bytes past the top of the non-canonical gap. */
  lemma EntryAbove(low: nat, i: nat)
    requires low * TWO12 + 8 * i < TWO48
    ensures EntryFor(TWO64 - TWO48 + low * TWO12 + 8 * i) == PAGEBASE + 8 * (low + i / PER1)
  {
    var q, r := i / PER1, i % PER1;
    var x := TWO64 - TWO48 + low * TWO12 + 8 * i;
    assert x % TWO48 == low * TWO12 + 8 * i == (low + q) * TWO12 + 8 * r;
    assert x % TWO48 / TWO12 == low + q;
  }

  /** The entry for an entry is the entry one level up. */
  lemma EntryOfEntry(i: nat)
    requires i < PAGES
    ensures EntryFor(PAGEBASE + 8 * i) == PDEBASE + 8 * (i / PER1)
    ensures EntryFor(PDEBASE + 8 * (i / PER1)) == PDPTEBASE + 8 * (i / PER2)
    ensures EntryFor(PDPTEBASE + 8 * (i / PER2)) == PML4EBASE + 8 * (i / PER3)
  {
    hide EntryFor;
    Nested(i);
    EntryAbove(0xf_6800_0000, i);
    EntryAbove(0xf_6fb4_0000, i / PER1);
    EntryAbove(0xf_6fb7_da00, i / PER2);
  }

  /** Going back down from an entry leads to the first entry of the block it maps; from one past the last entry, to
      one past the last. */
  lemma DownFromPde(j: nat)
    requires j * PER1 <= PAGES
    ensures MappedBy(PDEBASE + 8 * j) == PAGEBASE + 8 * (j * PER1)
  {}

  lemma DownFromPdpte(k: nat)
    requires k * PER2 <= PAGES
    ensures MappedBy(PDPTEBASE + 8 * k) == PDEBASE + 8 * (k * PER1)
  {}

  lemma DownFromPml4e(l: nat)
    requires l * PER3 <= PAGES
    ensures MappedBy(PML4EBASE + 8 * l) == PDPTEBASE + 8 * (l * PER1)
  {}

  // ----- a plain walk of one page -----

  datatype Entry = Entry(p: bool, rw: bool, ps: bool)
  datatype Tables = Tables(pte: nat -> Entry, pde: nat -> Entry, pdpte: nat -> Entry, pml4e: nat -> Entry)

  const PAGE_NOACCESS: int := 0x01
  const PAGE_EXECUTE_READ: int := 0x20
  const PAGE_EXECUTE_READWRITE: int := 0x40

  function Access(rw: bool): int { if rw then PAGE_EXECUTE_READWRITE else PAGE_EXECUTE_READ }

  /** A page as the driver reads it: the walk of section 4.5 of the Intel SDM, Volume 3A, and the R/W bit of the entry
      that maps the page. */
  function Protection(t: Tables, i: nat): int {
    if !t.pml4e(i / PER3).p || !t.pdpte(i / PER2).p || !t.pde(i / PER1).p then PAGE_NOACCESS
    else if t.pde(i / PER1).ps then Access(t.pde(i / PER1).rw)
    else if t.pte(i).p then Access(t.pte(i).rw)
    else PAGE_NOACCESS
  }

  /** Whether every entry above the one that maps page i allows writes. */
  predicate UpperWritable(t: Tables, i: nat) {
    t.pml4e(i / PER3).rw && t.pdpte(i / PER2).rw && (t.pde(i / PER1).ps || t.pde(i / PER1).rw)
  }

  /** A page as the processor treats it: writable when the R/W bits of all its entries say so (section 4.6). */
  function Effective(t: Tables, i: nat): int {
    if !t.pml4e(i / PER3).p || !t.pdpte(i / PER2).p || !t.pde(i / PER1).p then PAGE_NOACCESS
    else
      var upper := t.pml4e(i / PER3).rw && t.pdpte(i / PER2).rw && t.pde(i / PER1).rw;
      if t.pde(i / PER1).ps then Access(upper)
      else if t.pte(i).p then Access(upper && t.pte(i).rw)
      else PAGE_NOACCESS
  }

  /** The driver calls a page writable that the processor does not let be written exactly when an entry above it
      forbids it. */
  lemma EffectiveExactly(t: Tables, i: nat)
    ensures Effective(t, i) == Protection(t, i)
            <==> (Protection(t, i) == PAGE_EXECUTE_READWRITE ==> UpperWritable(t, i))
    ensures Effective(t, i) != Protection(t, i) ==> Effective(t, i) == PAGE_EXECUTE_READ
  {}

  /** Page i, in pages of 4 KB: which tables its entries are in, and what they make of it, with the access constants of
      the Windows API. */
  lemma ProtectionExactly(t: Tables, i: nat)
    ensures var mapped := t.pml4e(i / 0x800_0000).p && t.pdpte(i / 0x4_0000).p && t.pde(i / 0x200).p
                          && (t.pde(i / 0x200).ps || t.pte(i).p);
            var rw := if t.pde(i / 0x200).ps then t.pde(i / 0x200).rw else t.pte(i).rw;
            Protection(t, i) == if !mapped then 0x01 else if rw then 0x40 else 0x20
  {}

  ghost predicate EffectiveIs(t: Tables, a: int, b: int, prot: int) {
    forall i: nat {:trigger Effective(t, i)} :: a <= i < b ==> Effective(t, i) == prot
  }

  ghost predicate AllWritable(t: Tables, a: int, b: int) {
    forall i: nat {:trigger UpperWritable(t, i)} :: a <= i < b ==> UpperWritable(t, i)
  }

  /** What is reported of a region is what the processor makes of it exactly when it is not called writable, or no
      entry above it forbids writes. */
  lemma RegionEffective(t: Tables, a: int, b: int, prot: int)
    requires Uniform(t, a, b, prot)
    ensures EffectiveIs(t, a, b, prot) <==> (prot == PAGE_EXECUTE_READWRITE ==> AllWritable(t, a, b))
  {
    hide Effective, Protection, UpperWritable;
    forall i: nat | a <= i < b
      ensures Effective(t, i) == prot <==> (prot == PAGE_EXECUTE_READWRITE ==> UpperWritable(t, i))
    {
      EffectiveExactly(t, i);
      assert Protection(t, i) == prot;
    }
  }

  /** How many pages are settled by the entry that decides page i: 1, or a whole table's worth. */
  function Span(t: Tables, i: nat): (n: nat)
    ensures Level(n)
  {
    if !t.pml4e(i / PER3).p then PER3
    else if !t.pdpte(i / PER2).p then PER2
    else if !t.pde(i / PER1).p || t.pde(i / PER1).ps then PER1
    else 1
  }

  predicate Uniform(t: Tables, a: int, b: int, prot: int) {
    forall i: nat {:trigger Protection(t, i)} :: a <= i < b ==> Protection(t, i) == prot
  }

  predicate Level(n: nat) { n == 1 || n == PER1 || n == PER2 || n == PER3 }

  /** The first page of the block of n pages that page i is in. */
  function Floor(i: nat, n: nat): nat
    requires Level(n)
  {
    if n == PER3 then i / PER3 * PER3
    else if n == PER2 then i / PER2 * PER2
    else if n == PER1 then i / PER1 * PER1
    else i
  }

  lemma Nested(i: nat)
    ensures i / PER2 == i / PER1 / PER1 && i / PER3 == i / PER2 / PER1 && i / PER3 == i / PER1 / PER2
  {}

  /** All pages of the block around page i are like it. */
  lemma SpanUniform(t: Tables, i: nat, c: nat)
    requires Floor(i, Span(t, i)) == Floor(c, Span(t, i))
    ensures Protection(t, c) == Protection(t, i) && Span(t, c) == Span(t, i)
  {
    Nested(i);
    Nested(c);
  }

  // ----- the walk -----

  /** Page directory entry j maps a 2 MB page. */
  predicate Large(t: Tables, j: nat) {
    t.pml4e(j / PER2).p && t.pdpte(j / PER1).p && t.pde(j).p && t.pde(j).ps
  }

  /** How many of the entries a to b - 1 do. */
  function LargePages(t: Tables, a: nat, b: nat): nat
    decreases b
  {
    if a >= b then 0 else LargePages(t, a, b - 1) + (if Large(t, b - 1) then 1 else 0)
  }

  lemma {:induction false} NoneLarge(t: Tables, a: nat, b: nat, c: nat)
    requires b <= c && forall j: nat :: b <= j < c ==> !Large(t, j)
    ensures LargePages(t, a, c) == LargePages(t, a, b) || a > b
    ensures a >= b ==> LargePages(t, a, c) == 0
    decreases c
  {
    if b < c {
      NoneLarge(t, a, b, c - 1);
    }
  }

  predicate Walked(t: Tables, first: nat, c: nat, regionType: int) {
    && first < c <= PAGES && Uniform(t, first, c, regionType) && regionType == Protection(t, first)
    && (c < PAGES ==> Floor(c, Span(t, c)) == c)
  }

  lemma FloorSame(c: nat, i: nat, n: nat)
    requires Level(n) && Floor(c, n) == c <= i < c + n
    ensures Floor(i, n) == c
  {
    if n == PER3 {
    } else if n == PER2 {
    } else if n == PER1 {
    }
  }

  /** One more block of the walk. */
  lemma WalkOn(t: Tables, first: nat, c: nat, regionType: int)
    requires Walked(t, first, c, regionType) && c < PAGES && Protection(t, c) == regionType
    ensures Walked(t, first, c + Span(t, c), regionType)
  {
    hide Floor, Span, Protection;
    var n := Span(t, c);
    BlockEnds(t, c);
    forall i: nat | first <= i < c + n
      ensures Protection(t, i) == regionType
    {
      if i >= c {
        FloorSame(c, i, n);
        SpanUniform(t, c, i);
      }
    }
  }

  /** The end of a block of n pages is aligned for every smaller size, and for a larger size m unless it lies inside
      the same block of m. */
  predicate EndAligned(c: nat, n: nat, m: nat)
    requires Level(n) && Level(m)
  {
    var d := Floor(c, n) + n;
    Floor(d, m) == d || (m > n && Floor(d, m) == Floor(c, m))
  }

  lemma Carry(q: nat, m: nat)
    requires m == PER1 || m == PER2 || m == PER3
    ensures (q + 1) / m == q / m || (q + 1) % m == 0
  {
    if m == PER1 {
    } else if m == PER2 {
    }
  }

  lemma FloorMultiple(x: nat, m: nat)
    requires Level(m)
    ensures Floor(x * m, m) == x * m
  {
    if m == PER1 {
    } else if m == PER2 {
    } else if m == PER3 {
    }
  }

  lemma PageEnds(c: nat, m: nat)
    requires Level(m)
    ensures EndAligned(c, 1, m)
  {
    if m == PER1 {
      Carry(c, PER1);
    } else if m == PER2 {
      Carry(c, PER2);
    } else if m == PER3 {
      Carry(c, PER3);
    }
  }

  lemma TableEnds(c: nat)
    ensures EndAligned(c, PER1, PER2) && EndAligned(c, PER1, PER3)
  {
    var q := c / PER1;
    Nested(c);
    Nested((q + 1) * PER1);
    assert (q + 1) * PER1 / PER1 == q + 1;
    Carry(q, PER1);
    Carry(q, PER2);
  }

  lemma DirectoryEnds(c: nat)
    ensures EndAligned(c, PER2, PER3)
  {
    var q := c / PER2;
    Nested(c);
    Nested((q + 1) * PER2);
    assert (q + 1) * PER2 / PER2 == q + 1;
    Carry(q, PER1);
  }

  /** Aligned for its own size and any smaller one. */
  lemma EndsInside(c: nat, n: nat, m: nat)
    requires Level(n) && Level(m) && m <= n
    ensures EndAligned(c, n, m)
  {
    hide Floor;
    var q := FloorOver(c, n);
    var k := if n == m then 1 else if m == 1 then n else if n == PER2 then PER1 else if m == PER1 then PER2 else PER1;
    assert (q + 1) * n == ((q + 1) * k) * m;
    FloorMultiple((q + 1) * k, m);
  }

  lemma FloorOver(c: nat, n: nat)
    returns (q: nat)
    requires Level(n)
    ensures Floor(c, n) == q * n
  {
    q := if n == PER3 then c / PER3 else if n == PER2 then c / PER2 else if n == PER1 then c / PER1 else c;
  }

  /** Where a block ends the next begins, and at a boundary of its own size. */
  lemma BlockEnds(t: Tables, c: nat)
    requires c < PAGES
    ensures var d := Floor(c, Span(t, c)) + Span(t, c);
            c < d <= PAGES && (d < PAGES ==> Floor(d, Span(t, d)) == d)
  {
    hide Floor, Span;
    var n := Span(t, c);
    FloorBounds(c, n);
    var d := Floor(c, n) + n;
    if d < PAGES {
      var m := Span(t, d);
      if m <= n {
        EndsInside(c, n, m);
      } else if n == 1 {
        PageEnds(c, m);
      } else {
        TableEnds(c);
        DirectoryEnds(c);
      }
      if Floor(d, m) != d {
        SpanUniform(t, d, c);
      }
    }
  }

  // ----- the driver's code -----

  /** A block of n pages in bytes from its start; where it starts in memory. */
  lemma BlockStart(mem: nat, n: nat)
    requires Canonical(mem) && Level(n)
    ensures var s := Floor(PageOf(mem), n);
            && AddressOf(s) <= mem && mem - AddressOf(s) == mem % TWO48 - s * TWO12 < n * TWO12 && s + n <= PAGES
  {
    hide PageOf, AddressOf;
    var c := PageOf(mem);
    assert c * TWO12 <= mem % TWO48 < c * TWO12 + TWO12 && c < PAGES by { PageBounds(mem); }
    FloorBounds(c, n);
    SameHalf(mem, Floor(c, n));
  }

  lemma PageBounds(mem: nat)
    ensures PageOf(mem) * TWO12 <= mem % TWO48 < PageOf(mem) * TWO12 + TWO12 && PageOf(mem) < PAGES
  {}

  lemma FloorBounds(c: nat, n: nat)
    requires Level(n) && c < PAGES
    ensures Floor(c, n) <= c < Floor(c, n) + n <= PAGES && (c < PAGES / 2 <==> Floor(c, n) < PAGES / 2)
  {
    if n == PER3 {
    } else if n == PER2 {
    } else if n == PER1 {
    }
  }

  /** A page at or below mem in the same half of memory. */
  lemma SameHalf(mem: nat, s: nat)
    requires Canonical(mem) && s * TWO12 <= mem % TWO48 && (mem % TWO48 < TWO47 <==> s < PAGES / 2) && s < PAGES
    ensures AddressOf(s) <= mem && mem - AddressOf(s) == mem % TWO48 - s * TWO12
  {}

  /** What a turn of the loop adds to the size: a merged 2 MB page counts as one small page. */
  function Added(t: Tables, c: nat): int {
    if Span(t, c) == PER1 && Large(t, c / PER1) then TWO12 else Span(t, c) * TWO12
  }

  /** From an entry to the address of the first page it decides, and to the first page table entry of the next. */
  method FromPde(ppde: nat, ghost j: nat) returns (start: nat, next: nat)
    requires ppde == PDEBASE + 8 * j && (j + 1) * PER1 <= PAGES
    ensures start == AddressOf(j * PER1) && next == PAGEBASE + 8 * (j * PER1 + PER1)
  {
    hide MappedBy;
    DownFromPde(j);
    DownFromPte(j * PER1);
    DownFromPde(j + 1);
    start := MappedBy(MappedBy(ppde));
    next := MappedBy(ppde + 8);
  }

  method FromPdpte(ppdpe: nat, ghost k: nat) returns (start: nat, next: nat)
    requires ppdpe == PDPTEBASE + 8 * k && (k + 1) * PER2 <= PAGES
    ensures start == AddressOf(k * PER2) && next == PAGEBASE + 8 * (k * PER2 + PER2)
  {
    hide MappedBy;
    DownFromPdpte(k);
    DownFromPde(k * PER1);
    DownFromPte(k * PER2);
    DownFromPdpte(k + 1);
    DownFromPde((k + 1) * PER1);
    start := MappedBy(MappedBy(MappedBy(ppdpe)));
    next := MappedBy(MappedBy(ppdpe + 8));
  }

  method FromPml4e(ppml4e: nat, ghost l: nat) returns (start: nat, next: nat)
    requires ppml4e == PML4EBASE + 8 * l && (l + 1) * PER3 <= PAGES
    ensures start == AddressOf(l * PER3) && next == PAGEBASE + 8 * (l * PER3 + PER3)
  {
    hide MappedBy;
    DownFromPml4e(l);
    DownFromPdpte(l * PER1);
    DownFromPde(l * PER2);
    DownFromPte(l * PER3);
    DownFromPml4e(l + 1);
    DownFromPdpte((l + 1) * PER1);
    DownFromPde((l + 1) * PER2);
    start := MappedBy(MappedBy(MappedBy(MappedBy(ppml4e))));
    next := MappedBy(MappedBy(MappedBy(ppml4e + 8)));
  }

  /** The first block seen makes the region; one with the same access extends it; another ends it. */
  method Account(mem: nat, start: nat, bytes: int, added: int, prot: int, regionType: int, size: int, base: nat)
    returns (stop: bool, regionType': int, size': int, base': nat)
    ensures stop <==> regionType != 0 && regionType != prot
    ensures if stop then regionType' == regionType && size' == size && base' == base
            else if regionType == 0 then regionType' == prot && base' == start && size' == bytes - (mem - start)
            else regionType' == prot && base' == base && size' == size + added
  {
    stop, regionType', size', base' := false, regionType, size, base;
    if regionType == 0 {
      base' := start;
      size' := bytes - (mem - base');
      regionType' := prot;
    } else if regionType == prot {
      size' := size + added;
    } else {
      stop := true;
    }
  }

  /** What the four tests of the loop body find out. */
  lemma Decided(t: Tables, c: nat)
    ensures !t.pml4e(c / PER3).p ==> Span(t, c) == PER3 && Floor(c, PER3) == c / PER3 * PER3
                                     && Protection(t, c) == PAGE_NOACCESS && Added(t, c) == TWO39
    ensures t.pml4e(c / PER3).p && !t.pdpte(c / PER2).p ==>
              && Span(t, c) == PER2 && Floor(c, PER2) == c / PER2 * PER2
              && Protection(t, c) == PAGE_NOACCESS && Added(t, c) == TWO30
    ensures t.pml4e(c / PER3).p && t.pdpte(c / PER2).p ==>
              var pde := t.pde(c / PER1);
              if !pde.p || pde.ps then
                && Span(t, c) == PER1 && Floor(c, PER1) == c / PER1 * PER1
                && Protection(t, c) == (if pde.p then Access(pde.rw) else PAGE_NOACCESS)
                && Added(t, c) == if pde.p then TWO12 else PAGE_SIZE_LARGE
              else
                && Span(t, c) == 1 && Floor(c, 1) == c && Added(t, c) == TWO12
                && Protection(t, c) == if t.pte(c).p then Access(t.pte(c).rw) else PAGE_NOACCESS
  {
    Nested(c);
  }

  /** One turn of the loop; `stop` is the return in its middle. */
  method Visit(t: Tables, mem: nat, ppte: nat, regionType: int, size: int, base: nat, ghost c: nat)
    returns (stop: bool, next: nat, regionType': int, size': int, base': nat)
    requires Canonical(mem) && c < PAGES && ppte == PAGEBASE + 8 * c
    requires regionType == 0 ==> c == PageOf(mem)
    requires regionType != 0 ==> Floor(c, Span(t, c)) == c
    ensures stop <==> regionType != 0 && regionType != Protection(t, c)
    ensures stop ==> regionType' == regionType && size' == size && base' == base
    ensures !stop ==>
              var n := Span(t, c);
              && next == PAGEBASE + 8 * (Floor(c, n) + n) && regionType' == Protection(t, c)
              && (if regionType == 0
                  then base' == AddressOf(Floor(c, n)) && size' == (Floor(c, n) + n) * TWO12 - mem % TWO48
                  else base' == base && size' == size + Added(t, c))
  {
    hide EntryFor, MappedBy, AddressOf, PageOf, Span, Floor, Protection, Added;
    var ppde := EntryFor(ppte);
    var ppdpe := EntryFor(ppde);
    var ppml4e := EntryFor(ppdpe);
    EntryOfEntry(c);
    Decided(t, c);
    if regionType == 0 {
      BlockStart(mem, Span(t, c));
    }
    var start;
    if !t.pml4e((ppml4e - PML4EBASE) / 8).p {
      start, next := FromPml4e(ppml4e, c / PER3);
      stop, regionType', size', base' := Account(mem, start, TWO39, TWO39, PAGE_NOACCESS, regionType, size, base);
    } else if !t.pdpte((ppdpe - PDPTEBASE) / 8).p {
      start, next := FromPdpte(ppdpe, c / PER2);
      stop, regionType', size', base' := Account(mem, start, TWO30, TWO30, PAGE_NOACCESS, regionType, size, base);
    } else {
      var pde := t.pde((ppde - PDEBASE) / 8);
      if !pde.p || pde.ps {
        start, next := FromPde(ppde, c / PER1);
        var prot, added := PAGE_NOACCESS, PAGE_SIZE_LARGE;
        if pde.p {
          prot, added := Access(pde.rw), 4096;
        }
        stop, regionType', size', base' := Account(mem, start, PAGE_SIZE_LARGE, added, prot, regionType, size, base);
      } else {
        var pte := t.pte((ppte - PAGEBASE) / 8);
        DownFromPte(c);
        start, next := MappedBy(ppte), ppte + 8;
        stop, regionType', size', base' :=
          Account(mem, start, 4096, 4096, if pte.p then Access(pte.rw) else PAGE_NOACCESS, regionType, size, base);
      }
    }
  }

  /** What the region's size comes to after the walk has reached page c. */
  function SizeAt(t: Tables, mem: nat, c: nat): int {
    c * TWO12 - mem % TWO48 - (PAGE_SIZE_LARGE - TWO12) * LargePages(t, PageOf(mem) / PER1 + 1, c / PER1)
  }

  /** The block just entered adds its size, less what a merged 2 MB page loses. */
  lemma SizeGrows(t: Tables, mem: nat, c: nat)
    requires PageOf(mem) < c < PAGES && Floor(c, Span(t, c)) == c
    ensures SizeAt(t, mem, c + Span(t, c)) == SizeAt(t, mem, c) + Added(t, c)
  {
    hide PageOf;
    var n, a, b := Span(t, c), PageOf(mem) / PER1 + 1, c / PER1;
    Nested(c);
    if n == PER1 {
      assert (c + n) / PER1 == b + 1 && a <= b;
    } else if n == 1 {
      assert !Large(t, b);
      assert (c + 1) / PER1 == b || (c + 1) / PER1 == b + 1;
      assert a <= b + 1;
    } else {
      NoLargeIn(t, c);
      NoneLarge(t, a, b, (c + n) / PER1);
      assert a <= b;
    }
  }

  /** Where a whole directory or more is missing there are no 2 MB pages. */
  lemma NoLargeIn(t: Tables, c: nat)
    requires Span(t, c) == PER2 || Span(t, c) == PER3
    ensures forall j: nat :: Floor(c, Span(t, c)) / PER1 <= j < (Floor(c, Span(t, c)) + Span(t, c)) / PER1 ==>
              !Large(t, j)
  {
    forall j: nat | Floor(c, Span(t, c)) / PER1 <= j < (Floor(c, Span(t, c)) + Span(t, c)) / PER1
      ensures !Large(t, j)
    {
      if Span(t, c) == PER2 {
        assert j / PER1 == c / PER2;
      } else {
        assert j / PER2 == c / PER3;
      }
    }
  }

  lemma WalkStarts(t: Tables, c: nat)
    requires c < PAGES
    ensures Walked(t, c, Floor(c, Span(t, c)) + Span(t, c), Protection(t, c))
  {
    hide Floor, Span, Protection;
    var n := Span(t, c);
    BlockEnds(t, c);
    FloorFixed(c, n);
    forall i: nat | c <= i < Floor(c, n) + n
      ensures Protection(t, i) == Protection(t, c)
    {
      FloorSame(Floor(c, n), i, n);
      SpanUniform(t, c, i);
    }
  }

  lemma FloorFixed(c: nat, n: nat)
    requires Level(n)
    ensures Floor(Floor(c, n), n) == Floor(c, n) <= c
  {
    if n == PER3 {
    } else if n == PER2 {
    } else if n == PER1 {
    }
  }

  lemma SizeStarts(t: Tables, mem: nat)
    requires PageOf(mem) < PAGES
    ensures var d := Floor(PageOf(mem), Span(t, PageOf(mem))) + Span(t, PageOf(mem));
            SizeAt(t, mem, d) == d * TWO12 - mem % TWO48
  {
    hide PageOf, Floor, Span, LargePages;
    NoneIn(t, PageOf(mem));
  }

  /** No 2 MB page comes after the first block and before its end. */
  lemma NoneIn(t: Tables, c: nat)
    ensures LargePages(t, c / PER1 + 1, (Floor(c, Span(t, c)) + Span(t, c)) / PER1) == 0
  {
    hide Floor, Span, Large;
    var n := Span(t, c);
    var d := Floor(c, n) + n;
    if n == PER2 || n == PER3 {
      NoLargeIn(t, c);
      WideBlock(c, n);
      NoneLarge(t, c / PER1 + 1, c / PER1 + 1, d / PER1);
    } else {
      OneBlock(c, n);
    }
  }

  lemma WideBlock(c: nat, n: nat)
    requires n == PER2 || n == PER3
    ensures Floor(c, n) / PER1 <= c / PER1 + 1 <= (Floor(c, n) + n) / PER1
  {
    var k := n / PER1;
    var q := if n == PER2 then c / PER2 else c / PER3;
    Nested(c);
    assert Floor(c, n) == (q * k) * PER1 && Floor(c, n) + n == (q * k + k) * PER1;
    MultipleOver(q * k);
    MultipleOver(q * k + k);
    assert q == c / PER1 / k;
  }

  lemma MultipleOver(x: nat)
    ensures x * PER1 / PER1 == x
  {}

  lemma OneBlock(c: nat, n: nat)
    requires n == 1 || n == PER1
    ensures (Floor(c, n) + n) / PER1 <= c / PER1 + 1
  {
    if n == PER1 {
    }
  }

  /** The walk: `last` is the first page past the region. The size reaches it exactly when no 2 MB page was merged
      after the first block; every byte it counts has the reported protection. The last page of all is not looked at. */
  method GetMemoryRegionData(t: Tables, mem: nat)
    returns (regionType: int, size: int, base: nat, ghost last: nat)
    requires Canonical(mem)
    ensures var first := PageOf(mem);
            if first == PAGES - 1 then regionType == 0 && size == 0
            else
              && first < last <= PAGES && regionType == Protection(t, first) && Uniform(t, first, last, regionType)
              && (last < PAGES - 1 ==> Protection(t, last) != regionType)
              && base == AddressOf(Floor(first, Span(t, first))) <= mem && size == SizeAt(t, mem, last)
              && (mem % TWO48 + size == last * TWO12 <==> LargePages(t, first / PER1 + 1, last / PER1) == 0)
              && (EffectiveIs(t, first, last, regionType)
                  <==> (regionType == PAGE_EXECUTE_READWRITE ==> AllWritable(t, first, last)))
    ensures forall i: nat {:trigger Protection(t, i)} ::
              size > 0 && mem % TWO48 / TWO12 <= i && i * TWO12 < mem % TWO48 + size ==> Protection(t, i) == regionType
  {
    hide EntryFor, PageOf, Span, Floor, Protection, Added, InRegion, EffectiveIs, AllWritable;
    base := mem - mem % TWO12;
    size, regionType := 0, 0;
    var ppte := EntryFor(base);
    last := PageOf(mem);
    InPages(mem);
    SelfMapInverse(mem, last);
    assert EntryFor(base) == PAGEBASE + 8 * last;
    assert InRegion(t, mem, last, regionType, size, base) by {
      NotYet(t, mem, base);
    }
    while ppte < MAX_PTE_POS
      invariant ppte == PAGEBASE + 8 * last && last <= PAGES && InRegion(t, mem, last, regionType, size, base)
      invariant regionType == 0 ==> last == PageOf(mem)
      decreases PAGES - last
    {
      MayVisit(t, mem, last, regionType, size, base);
      var stop, next, regionType', size', base' := Visit(t, mem, ppte, regionType, size, base, last);
      if stop {
        break;
      }
      Turned(t, mem, last, regionType, size, base, size', base');
      BlockEnds(t, last);
      ppte, regionType, size, base := next, regionType', size', base';
      last := Floor(last, Span(t, last)) + Span(t, last);
    }
    RegionFound(t, mem, last, regionType, size, base);
    if regionType != 0 {
      RegionEffective(t, PageOf(mem), last, regionType);
    }
  }

  /** The state of the walk at page `last`. */
  predicate InRegion(t: Tables, mem: nat, last: nat, regionType: int, size: int, base: nat)
    requires PageOf(mem) < PAGES
  {
    var c := PageOf(mem);
    if regionType == 0 then last == c && size == 0
    else
      && c < PAGES - 1 && Walked(t, c, last, regionType) && size == SizeAt(t, mem, last)
      && base == AddressOf(Floor(c, Span(t, c))) <= mem
  }

  lemma NotYet(t: Tables, mem: nat, base: nat)
    requires PageOf(mem) < PAGES
    ensures InRegion(t, mem, PageOf(mem), 0, 0, base)
  {}

  lemma MayVisit(t: Tables, mem: nat, last: nat, regionType: int, size: int, base: nat)
    requires PageOf(mem) < PAGES && last < PAGES && InRegion(t, mem, last, regionType, size, base)
    ensures regionType == 0 ==> last == PageOf(mem)
    ensures regionType != 0 ==> Floor(last, Span(t, last)) == last
  {}

  /** A turn that did not end the walk. */
  lemma Turned(t: Tables, mem: nat, last: nat, regionType: int, size: int, base: nat, size': int, base': nat)
    requires Canonical(mem) && PageOf(mem) < PAGES && last < PAGES - 1 && InRegion(t, mem, last, regionType, size, base)
    requires regionType == 0 || regionType == Protection(t, last)
    requires var n := Span(t, last);
             if regionType == 0
             then base' == AddressOf(Floor(last, n)) && size' == (Floor(last, n) + n) * TWO12 - mem % TWO48
             else base' == base && size' == size + Added(t, last)
    ensures InRegion(t, mem, Floor(last, Span(t, last)) + Span(t, last), Protection(t, last), size', base')
    ensures Protection(t, last) != 0
  {
    hide PageOf, AddressOf, Span, Floor, Protection, Added, SizeAt, Walked;
    var c := PageOf(mem);
    NeverZero(t, last);
    if regionType == 0 {
      WalkStarts(t, c);
      SizeStarts(t, mem);
      BlockStart(mem, Span(t, c));
    } else {
      MayVisit(t, mem, last, regionType, size, base);
      AfterWalk(t, c, last, regionType);
      WalkOn(t, c, last, regionType);
      SizeGrows(t, mem, last);
    }
  }

  lemma NeverZero(t: Tables, i: nat)
    ensures Protection(t, i) != 0
  {}

  lemma InPages(mem: nat)
    ensures PageOf(mem) < PAGES
  {}

  lemma RegionFound(t: Tables, mem: nat, last: nat, regionType: int, size: int, base: nat)
    requires PageOf(mem) < PAGES && InRegion(t, mem, last, regionType, size, base)
    ensures regionType != 0 ==>
              var first := PageOf(mem);
              && first < last <= PAGES && first < PAGES - 1 && regionType == Protection(t, first)
              && Uniform(t, first, last, regionType)
              && base == AddressOf(Floor(first, Span(t, first))) <= mem && size == SizeAt(t, mem, last)
              && (mem % TWO48 + size == last * TWO12 <==> LargePages(t, first / PER1 + 1, last / PER1) == 0)
    ensures regionType == 0 ==> last == PageOf(mem) && size == 0
    ensures forall i: nat {:trigger Protection(t, i)} ::
              size > 0 && mem % TWO48 / TWO12 <= i && i * TWO12 < mem % TWO48 + size ==> Protection(t, i) == regionType
  {
    hide PageOf, AddressOf, Span, Floor, Protection, LargePages;
    BytesCovered(t, mem, last, regionType, size);
  }

  lemma AfterWalk(t: Tables, first: nat, c: nat, regionType: int)
    requires Walked(t, first, c, regionType)
    ensures first < c <= PAGES && Uniform(t, first, c, regionType) && regionType == Protection(t, first)
  {}

  lemma BytesCovered(t: Tables, mem: nat, last: nat, regionType: int, size: int)
    requires size == 0 || (Uniform(t, PageOf(mem), last, regionType) && size == SizeAt(t, mem, last))
    ensures forall i: nat {:trigger Protection(t, i)} ::
              size > 0 && mem % TWO48 / TWO12 <= i && i * TWO12 < mem % TWO48 + size ==> Protection(t, i) == regionType
    ensures size == SizeAt(t, mem, last) ==>
              (mem % TWO48 + size == last * TWO12 <==> LargePages(t, PageOf(mem) / PER1 + 1, last / PER1) == 0)
  {
    hide Protection, LargePages;
  }
}
