/** The TLB of the EE and the page table that mirrors it.  Addresses are counted in pages of 4096 bytes. */
module Tlb {
  import opened Arith

  const ENTRIES := 48
  const PAGES := 0x10_0000
  const SCRATCHPAD := 0x7_0000

  datatype Option<T> = None | Some(value: T)

  /** An entry maps two neighbouring halves of `pages` pages each, starting at page `vpn`. */
  datatype Entry = Entry(vpn: nat, pages: nat, pfn0: nat, pfn1: nat, v0: bool, v1: bool, scratchpad: bool) {
    /** Page p is in a valid half, and goes to physical page q. */
    predicate Maps(p: int, q: int) {
      || (v0 && vpn <= p < vpn + pages && q == pfn0 + (p - vpn))
      || (v1 && vpn + pages <= p < vpn + 2 * pages && q == pfn1 + (p - (vpn + pages)))
    }

    predicate Covers(p: int) {
      (v0 && vpn <= p < vpn + pages) || (v1 && vpn + pages <= p < vpn + 2 * pages)
    }

    /** The entries that the property is about: the scratchpad has its own rules. */
    predicate Ordinary() {
      && pages > 0 && Contiguous(pages - 1) && vpn % (2 * pages) == 0 && vpn + 2 * pages <= PAGES
      && !scratchpad && vpn != SCRATCHPAD
    }
  }

  const NO_ENTRY := Entry(0, 1, 0, 0, false, false, false)

  /** The seven page masks of the architecture: 1, 4, 16, .. pages. */
  predicate Contiguous(mask: nat) {
    mask == 0 || mask == 3 || mask == 0xf || mask == 0x3f || mask == 0xff || mask == 0x3ff || mask == 0xfff
  }

  // ---- bits of 32-bit words ----

  function And(a: nat, b: nat): nat {
    if a == 0 || b == 0 then 0 else One(a % 2 == 1 && b % 2 == 1) + 2 * And(a / 2, b / 2)
  }

  function Not(a: nat): nat
    requires a < 0x1_0000_0000
  {
    0xffff_ffff - a
  }

  function Pow2(k: nat): (n: nat)
    ensures n > 0
  {
    if k == 0 then 1 else 2 * Pow2(k - 1)
  }

  /** x rounded down to a multiple of n. */
  function Floor(x: nat, n: nat): nat
    requires n > 0
  {
    n * (x / n)
  }

  lemma {:induction false} AndAll(x: nat, w: nat)
    requires x < Pow2(w)
    ensures And(x, Pow2(w) - 1) == x
    decreases w
  {
    hide And;
    if w > 0 {
      AndAll(x / 2, w - 1);
      AndOdd(x, Pow2(w - 1) - 1);
      assert Pow2(w) - 1 == 2 * (Pow2(w - 1) - 1) + 1;
    } else {
      assert And(0, 0) == 0 by { AndEven(0, 0); }
    }
  }

  lemma AndOdd(x: nat, m: nat)
    ensures And(x, 2 * m + 1) == x % 2 + 2 * And(x / 2, m)
  {}

  lemma {:induction false} PowersGrow(k: nat, w: nat)
    requires k <= w
    ensures Pow2(k) <= Pow2(w)
    decreases w
  {
    if k < w { PowersGrow(k, w - 1); }
  }

  /** Keeping the bits from bit k on is rounding down to a multiple of 2 to the k. */
  lemma {:induction false} AndHigh(x: nat, w: nat, k: nat)
    requires x < Pow2(w) && k <= w
    ensures Pow2(k) <= Pow2(w) && And(x, Pow2(w) - Pow2(k)) == Floor(x, Pow2(k))
    decreases k
  {
    hide And, Floor;
    PowersGrow(k, w);
    if k == 0 {
      AndAll(x, w);
      assert Floor(x, 1) == x by { FloorOne(x); }
    } else {
      PowersGrow(k - 1, w - 1);
      var m := Pow2(w - 1) - Pow2(k - 1);
      assert Pow2(w) - Pow2(k) == 2 * m;
      AndHigh(x / 2, w - 1, k - 1);
      AndEven(x, m);
      HalfFloor(x, Pow2(k - 1));
    }
  }

  lemma FloorOne(x: nat)
    ensures Floor(x, 1) == x
  {}

  lemma AndEven(x: nat, m: nat)
    ensures And(x, 2 * m) == 2 * And(x / 2, m)
  {}

  lemma HalfFloor(x: nat, n: nat)
    requires n > 0
    ensures 2 * Floor(x / 2, n) == Floor(x, 2 * n)
  {
    var q, r := x / 2 / n, x / 2 % n;
    assert x / 2 == n * q + r;
    assert x == 2 * n * q + (2 * r + x % 2);
    DivModOf(2 * n, q, 2 * r + x % 2);
  }

  lemma {:induction false} AndCommutes(a: nat, b: nat)
    ensures And(a, b) == And(b, a)
    decreases a
  {
    if a != 0 && b != 0 { AndCommutes(a / 2, b / 2); }
  }

  // ---- page masks ----

  /** How many low bits a contiguous mask has. */
  function Bits(mask: nat): (k: nat)
    requires Contiguous(mask)
    ensures k <= 12 && mask + 1 == Pow2(k)
  {
    Powers();
    if mask == 0 then 0 else if mask == 3 then 2 else if mask == 0xf then 4 else if mask == 0x3f then 6
    else if mask == 0xff then 8 else if mask == 0x3ff then 10 else 12
  }

  lemma Powers()
    ensures Pow2(0) == 1 && Pow2(2) == 4 && Pow2(4) == 16 && Pow2(6) == 64 && Pow2(8) == 256 && Pow2(10) == 1024 && Pow2(12) == 4096
    ensures Pow2(20) == 0x10_0000 && Pow2(32) == 0x1_0000_0000
  {
    assert Pow2(6) == 64;
    assert Pow2(12) == 4096;
    assert Pow2(20) == 0x10_0000;
    assert Pow2(26) == 0x400_0000;
  }

  /** Clearing the bits of a contiguous mask is rounding down. */
  lemma ClearedIsFloor(x: nat, mask: nat)
    requires Contiguous(mask) && x < 0x1_0000_0000
    ensures And(x, Not(mask)) == Floor(x, mask + 1)
  {
    Powers();
    AndHigh(x, 32, Bits(mask));
  }

  /** The bits of a page number that the loops compare: ((~mask) << 1) & 0xfffff. */
  function BlockMask(mask: nat): nat
    requires mask < 0x1000
  {
    And(2 * Not(mask) % 0x1_0000_0000, 0xf_ffff)
  }

  lemma BlockMaskIs(mask: nat)
    requires Contiguous(mask)
    ensures BlockMask(mask) == 0x10_0000 - 2 * (mask + 1)
  {
    hide And, Floor, Bits;
    Powers();
    var k := Bits(mask) + 1;
    assert Pow2(k) == 2 * (mask + 1);
    hide Pow2, Contiguous;
    AndHigh(0xf_ffff, 32, k);
    AndCommutes(2 * Not(mask) % 0x1_0000_0000, 0xf_ffff);
    ShiftedNot(mask);
    LastBlock(mask);
  }

  lemma ShiftedNot(mask: nat)
    requires Contiguous(mask)
    ensures 2 * Not(mask) % 0x1_0000_0000 == 0x1_0000_0000 - 2 * (mask + 1)
  {}

  lemma LastBlock(mask: nat)
    requires Contiguous(mask)
    ensures Floor(0xf_ffff, 2 * (mask + 1)) == 0x10_0000 - 2 * (mask + 1)
  {}

  /** The test in the mapping loops holds exactly for the pages of the same block of two halves. */
  lemma MaskTest(p: nat, vpn: nat, mask: nat)
    requires Contiguous(mask) && p < PAGES && vpn < PAGES
    ensures And(p, BlockMask(mask)) == And(vpn, BlockMask(mask)) <==> SameBlock(p, vpn, mask + 1)
  {
    hide And, BlockMask, Bits;
    Powers();
    var k := Bits(mask) + 1;
    assert Pow2(k) == 2 * (mask + 1);
    BlockMaskIs(mask);
    hide Pow2, Contiguous;
    AndHigh(p, 20, k);
    AndHigh(vpn, 20, k);
    if Floor(p, Pow2(k)) == Floor(vpn, Pow2(k)) { QuotientUnique(Pow2(k), p / Pow2(k), 0, vpn / Pow2(k), 0); }
  }

  /** `WriteTLB`: the fields of an entry from PageMask, EntryHi, EntryLo0 and EntryLo1. */
  function Decode(pageMask: nat, hi: nat, lo0: nat, lo1: nat): (e: Entry)
    requires hi < 0x1_0000_0000 && lo0 < 0x1_0000_0000 && lo1 < 0x1_0000_0000
  {
    var mask := pageMask / 0x2000 % 0x1000;
    Entry(2 * And(hi / 0x2000, Not(mask)), mask + 1,
          And(lo0 / 0x40 % 0x10_0000, Not(mask)), And(lo1 / 0x40 % 0x10_0000, Not(mask)),
          lo0 / 2 % 2 == 1, lo1 / 2 % 2 == 1, lo0 >= 0x8000_0000)
  }

  /** Entries with a contiguous mask start at a multiple of their size and stay in the address space, and
      so do the physical pages of their halves. */
  lemma DecodedIsAligned(pageMask: nat, hi: nat, lo0: nat, lo1: nat)
    requires hi < 0x1_0000_0000 && lo0 < 0x1_0000_0000 && lo1 < 0x1_0000_0000
    requires Contiguous(pageMask / 0x2000 % 0x1000)
    ensures var e := Decode(pageMask, hi, lo0, lo1);
            && e.vpn % (2 * e.pages) == 0 && e.vpn + 2 * e.pages <= PAGES
            && e.pfn0 % e.pages == 0 && e.pfn1 % e.pages == 0
            && e.vpn == 2 * Floor(hi / 0x2000, e.pages)
            && e.pfn0 == Floor(lo0 / 0x40 % 0x10_0000, e.pages) && e.pfn1 == Floor(lo1 / 0x40 % 0x10_0000, e.pages)
  {
    hide And;
    var mask := pageMask / 0x2000 % 0x1000;
    ClearedIsFloor(hi / 0x2000, mask);
    ClearedIsFloor(lo0 / 0x40 % 0x10_0000, mask);
    ClearedIsFloor(lo1 / 0x40 % 0x10_0000, mask);
    FloorFits(hi / 0x2000, mask + 1);
    DivModOf(mask + 1, lo0 / 0x40 % 0x10_0000 / (mask + 1), 0);
    DivModOf(mask + 1, lo1 / 0x40 % 0x10_0000 / (mask + 1), 0);
  }

  lemma FloorFits(x: nat, n: nat)
    requires n > 0 && Contiguous(n - 1) && x < 0x8_0000
    ensures 2 * Floor(x, n) % (2 * n) == 0 && 2 * Floor(x, n) + 2 * n <= PAGES
  {
    FloorBelow(x, n, if n == 1 then 0x8_0000 else if n == 4 then 0x2_0000 else if n == 16 then 0x8000 else if n == 64 then 0x2000
                     else if n == 256 then 0x800 else if n == 1024 then 0x200 else 0x80);
  }

  lemma FloorBelow(x: nat, n: nat, q: nat)
    requires n > 0 && x < n * q
    ensures 2 * Floor(x, n) % (2 * n) == 0 && Floor(x, n) + n <= n * q
  {
    var k := x / n;
    DivBelow(x, n, q);
    MulDistributes(n, q, k);
    MulAtLeast(n, q - k);
    assert 2 * Floor(x, n) == 2 * n * k;
    DivModOf(2 * n, k, 0);
  }

  /** Both pages are in the same block of two halves. */
  predicate SameBlock(p: nat, vpn: nat, pages: nat)
    requires pages > 0
  {
    p / (2 * pages) == vpn / (2 * pages)
  }

  lemma InBlock(p: nat, e: Entry)
    requires e.pages > 0 && e.vpn % (2 * e.pages) == 0 && e.vpn <= p < e.vpn + 2 * e.pages
    ensures SameBlock(p, e.vpn, e.pages)
  {
    var n := 2 * e.pages;
    var k := e.vpn / n;
    assert e.vpn == n * k;
    DivBlock(p, n, k);
    DivBlock(e.vpn, n, k);
  }

  lemma Bounds(e: Entry)
    requires e.Ordinary()
    ensures 0 < e.pages <= 0x1000 && e.vpn + 2 * e.pages <= PAGES
  {}

  /** The test holds for all pages of the entry. */
  lemma PageMatches(p: nat, e: Entry)
    requires e.Ordinary() && 0 < e.pages <= 0x1000 && e.vpn <= p < e.vpn + 2 * e.pages
    ensures And(p, BlockMask(e.pages - 1)) == And(e.vpn, BlockMask(e.pages - 1))
  {
    hide And, BlockMask;
    InBlock(p, e);
    MaskTest(p, e.vpn, e.pages - 1);
  }

  lemma DivBlock(p: nat, n: nat, k: nat)
    requires n > 0 && n * k <= p < n * k + n
    ensures p / n == k
  {
    DivModOf(n, k, p - n * k);
  }

  /** The page table is what the entries say: each page goes where the valid half that covers it sends
      it, and nowhere if there is none. */
  ghost predicate Agrees(table: seq<Option<int>>, entries: seq<Entry>) {
    forall p, q :: 0 <= p < |table| ==> (table[p] == Some(q) <==> exists i :: 0 <= i < |entries| && entries[i].Maps(p, q))
  }

  /** No page is covered by two entries. */
  ghost predicate Disjoint(entries: seq<Entry>) {
    forall i, j, p :: 0 <= i < |entries| && 0 <= j < |entries| && entries[i].Covers(p) && entries[j].Covers(p) ==> i == j
  }

  class TlbUnit {
    const tlb: array<Entry>
    const table: array<Option<int>>

    ghost predicate Valid()
      reads this, tlb, table
    {
      && tlb.Length == ENTRIES && table.Length == PAGES
      && (forall i :: 0 <= i < ENTRIES ==> tlb[i].Ordinary())
      && Disjoint(tlb[..]) && Agrees(table[..], tlb[..])
    }

    constructor ()
      ensures Valid() && fresh(tlb) && fresh(table)
    {
      tlb := new Entry[ENTRIES](_ => NO_ENTRY);
      table := new Option<int>[PAGES](_ => None);
    }

    /** `memSetPageAddr` over one half. */
    method MapHalf(start: nat, e: Entry, pfn: nat)
      requires table.Length == PAGES && e.Ordinary() && (start == e.vpn || start == e.vpn + e.pages)
      modifies table
      ensures forall p :: 0 <= p < PAGES ==>
                table[p] == if start <= p < start + e.pages then Some(pfn + (p - start)) else old(table[p])
    {
      hide And, BlockMask, Entry.Ordinary, Contiguous;
      Bounds(e);
      var mask := BlockMask(e.pages - 1);
      var addr := start;
      while addr < start + e.pages
        invariant start <= addr <= start + e.pages
        invariant forall p :: 0 <= p < PAGES ==>
                    table[p] == if start <= p < addr then Some(pfn + (p - start)) else old(table[p])
      {
        PageMatches(addr, e);
        if And(addr, mask) == And(e.vpn, mask) { table[addr] := Some(pfn + (addr - start)); }
        addr := addr + 1;
      }
    }

    /** `memClearPageAddr` over one half. */
    method ClearHalf(start: nat, e: Entry)
      requires table.Length == PAGES && e.Ordinary() && (start == e.vpn || start == e.vpn + e.pages)
      modifies table
      ensures forall p :: 0 <= p < PAGES ==> table[p] == if start <= p < start + e.pages then None else old(table[p])
    {
      hide And, BlockMask, Entry.Ordinary, Contiguous;
      Bounds(e);
      var mask := BlockMask(e.pages - 1);
      var addr := start;
      while addr < start + e.pages
        invariant start <= addr <= start + e.pages
        invariant forall p :: 0 <= p < PAGES ==> table[p] == if start <= p < addr then None else old(table[p])
      {
        PageMatches(addr, e);
        if And(addr, mask) == And(e.vpn, mask) { table[addr] := None; }
        addr := addr + 1;
      }
    }

    /** `MapTLB`. */
    method MapTLB(e: Entry)
      requires table.Length == PAGES && e.Ordinary()
      modifies table
      ensures forall p, q :: 0 <= p < PAGES ==>
                (table[p] == Some(q) <==> if e.Covers(p) then e.Maps(p, q) else old(table[p]) == Some(q))
    {
      if e.v0 { MapHalf(e.vpn, e, e.pfn0); }
      if e.v1 { MapHalf(e.vpn + e.pages, e, e.pfn1); }
    }

    /** `UnmapTLB`. */
    method UnmapTLB(e: Entry)
      requires table.Length == PAGES && e.Ordinary()
      modifies table
      ensures forall p :: 0 <= p < PAGES ==> table[p] == if e.Covers(p) then None else old(table[p])
    {
      if e.v0 { ClearHalf(e.vpn, e); }
      if e.v1 { ClearHalf(e.vpn + e.pages, e); }
    }

    /** `TLBWI` and `WriteTLB`: the page table follows the entries, if the new one overlaps none of the others. */
    method TLBWI(j: nat, pageMask: nat, hi: nat, lo0: nat, lo1: nat)
      requires Valid() && j < ENTRIES && hi < 0x1_0000_0000 && lo0 < 0x1_0000_0000 && lo1 < 0x1_0000_0000
      requires Contiguous(pageMask / 0x2000 % 0x1000)
      requires var e := Decode(pageMask, hi, lo0, lo1);
               && !e.scratchpad && e.vpn != SCRATCHPAD
               && forall i, p :: 0 <= i < ENTRIES && i != j && tlb[i].Covers(p) ==> !e.Covers(p)
      modifies tlb, table
      ensures Valid() && tlb[..] == old(tlb[..])[j := Decode(pageMask, hi, lo0, lo1)]
    {
      hide Decode;
      ghost var entries, t0 := tlb[..], table[..];
      UnmapTLB(tlb[j]);
      ghost var t1 := table[..];
      var e := Decode(pageMask, hi, lo0, lo1);
      DecodedOrdinary(pageMask, hi, lo0, lo1);
      tlb[j] := e;
      MapTLB(e);
      assert tlb[..] == entries[j := e];
      WriteAgrees(entries, t0, t1, table[..], j, e);
    }
  }

  lemma DecodedOrdinary(pageMask: nat, hi: nat, lo0: nat, lo1: nat)
    requires hi < 0x1_0000_0000 && lo0 < 0x1_0000_0000 && lo1 < 0x1_0000_0000
    requires Contiguous(pageMask / 0x2000 % 0x1000)
    ensures var e := Decode(pageMask, hi, lo0, lo1); e.Ordinary() <==> !e.scratchpad && e.vpn != SCRATCHPAD
  {
    hide And;
    DecodedIsAligned(pageMask, hi, lo0, lo1);
  }

  lemma MapsCovers(e: Entry, p: int, q: int)
    requires e.Maps(p, q)
    ensures e.Covers(p)
  {}

  lemma WriteAgrees(entries: seq<Entry>, t0: seq<Option<int>>, t1: seq<Option<int>>, t2: seq<Option<int>>, j: nat,
                    e: Entry)
    requires |t0| == |t1| == |t2| && j < |entries| && Disjoint(entries) && Agrees(t0, entries)
    requires forall i, p :: 0 <= i < |entries| && i != j && entries[i].Covers(p) ==> !e.Covers(p)
    requires forall p :: 0 <= p < |t0| ==> t1[p] == if entries[j].Covers(p) then None else t0[p]
    requires forall p, q :: 0 <= p < |t0| ==> (t2[p] == Some(q) <==> if e.Covers(p) then e.Maps(p, q) else t1[p] == Some(q))
    ensures Disjoint(entries[j := e]) && Agrees(t2, entries[j := e])
  {
    hide Entry.Covers, Entry.Maps;
    var now := entries[j := e];
    forall p, q | 0 <= p < |t2| ensures t2[p] == Some(q) <==> exists i :: 0 <= i < |now| && now[i].Maps(p, q) {
      assert e.Maps(p, q) ==> now[j].Maps(p, q);
      forall i | 0 <= i < |now| && now[i].Maps(p, q) ensures t2[p] == Some(q) {
        MapsCovers(now[i], p, q);
        if i != j { assert entries[i].Maps(p, q); }
      }
      if t2[p] == Some(q) && !e.Covers(p) {
        var i :| 0 <= i < |entries| && entries[i].Maps(p, q);
        MapsCovers(entries[i], p, q);
        assert now[i].Maps(p, q);
      }
    }
  }

  /** Overlapping entries break it: when one of them is cleared, the other loses the page they share. */
  lemma OverlapLosesPage(entries: seq<Entry>, t0: seq<Option<int>>, t1: seq<Option<int>>, i: nat, j: nat, p: nat)
    requires i < |entries| && j < |entries| && i != j && p < |t0| == |t1|
    requires entries[i].Covers(p) && entries[j].Covers(p)
    requires forall k :: 0 <= k < |t0| ==> t1[k] == if entries[j].Covers(k) then None else t0[k]
    ensures !Agrees(t1, entries[j := NO_ENTRY])
  {
    var e := entries[i];
    var q := if e.v0 && e.vpn <= p < e.vpn + e.pages then e.pfn0 + (p - e.vpn) else e.pfn1 + (p - (e.vpn + e.pages));
    var now := entries[j := NO_ENTRY];
    assert now[i] == e && now[i].Maps(p, q);
    assert t1[p] == None;
    assert t1[p] != Some(q);
  }
}
