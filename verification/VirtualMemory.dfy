/** Frame allocation and the radix page table (src/vmem.cc). */
module VirtualMemory {
  import opened Sequences
  import opened Bits
  import opened AddressSlices

  const ONE_MIB: nat := 0x10_0000

  /** A page table page holds 2^entryBits entries of 8 bytes. */
  datatype Geometry = Geometry(pageBits: nat, entryBits: nat, levels: nat, dramBytes: nat)
  {
    /** The constructor's assertions, and that all levels fit an address: past that the
        slices throw. */
    ghost predicate Valid() {
      && 8 <= entryBits && TableBits() <= pageBits <= 20
      && levels >= 1 && Shamt(levels + 1) <= 64
      && ONE_MIB < dramBytes <= 0x8000_0000_0000_0000 && Frames() > 0
    }

    /** log2 of the size of a page table page in bytes. */
    function TableBits(): nat { entryBits + 3 }

    /** Page table pages per page. */
    function SlotBits(): nat
      requires TableBits() <= pageBits
    {
      pageBits - TableBits()
    }

    /** The bits that `k` levels translate. */
    function Span(k: nat): nat {
      if k == 0 then 0 else entryBits + Span(k - 1)
    }

    function Shamt(level: nat): nat
      requires level >= 1
    {
      pageBits + Span(level - 1)
    }

    function LevelExtent(level: nat): (e: Extent)
      requires level >= 1
      ensures e.Valid() && e.Size() == entryBits
    {
      Extent(Shamt(level) + entryBits, Shamt(level))
    }

    function FirstFrame(): nat { Shr(ONE_MIB, pageBits) }

    function Frames(): nat { if ONE_MIB < dramBytes then Shr(dramBytes - ONE_MIB, pageBits) else 0 }
  }

  lemma {:induction false} SpanGrows(g: Geometry, j: nat, k: nat)
    requires j <= k
    ensures g.Span(j) <= g.Span(k)
  {
    if j < k { SpanGrows(g, j, k - 1); }
  }

  lemma SpanStep(g: Geometry, k: nat)
    requires k >= 1
    ensures g.Span(k) == g.entryBits + g.Span(k - 1)
  {
  }

  type Page = nat

  function PageNumber(g: Geometry, v: Page): (s: Slice)
    requires g.pageBits <= 64 && v < Pow2(64 - g.pageBits)
    ensures s.Valid()
  {
    Slice(Extent(64, g.pageBits), v)
  }

  ghost predicate IsPage(g: Geometry, v: Page) {
    g.pageBits <= 64 && v < Pow2(64 - g.pageBits)
  }

  /** What the page table is keyed by: everything above the level's index. */
  datatype Key = Key(cpu: nat, level: nat, prefix: nat)

  ghost predicate LevelOk(g: Geometry, level: nat) {
    g.Valid() && 1 <= level <= g.levels
  }

  lemma LevelFits(g: Geometry, level: nat)
    requires LevelOk(g, level)
    ensures g.Shamt(level) + g.entryBits == g.Shamt(level + 1) <= 64
  {
    SpanGrows(g, level, g.levels);
  }

  function KeyOf(g: Geometry, cpu: nat, v: Page, level: nat): Key
    requires LevelOk(g, level) && IsPage(g, v)
  {
    LevelFits(g, level);
    Key(cpu, level, SliceOf(Extent(64, g.Shamt(level + 1)), PageNumber(g, v)).value)
  }

  /** get_offset: the index of the entry within its page table page. */
  function OffsetOf(g: Geometry, v: Page, level: nat): (o: nat)
    requires LevelOk(g, level) && IsPage(g, v)
    ensures o < Pow2(g.entryBits)
  {
    LevelFits(g, level);
    SliceOf(g.LevelExtent(level), SliceOf(Extent(64, 0), PageNumber(g, v))).value
  }

  lemma KeyValue(g: Geometry, cpu: nat, v: Page, level: nat)
    requires LevelOk(g, level) && IsPage(g, v)
    ensures KeyOf(g, cpu, v, level).prefix == Shr(v, g.Span(level))
  {
    LevelFits(g, level);
    var e := Extent(64, g.Shamt(level + 1));
    SliceOfValue(e, PageNumber(g, v));
    ShrBound(v, 64 - g.pageBits, g.Span(level));
    Fits(Shr(v, g.Span(level)), e.Size(), e.Size());
  }

  lemma OffsetValue(g: Geometry, v: Page, level: nat)
    requires LevelOk(g, level) && IsPage(g, v)
    ensures OffsetOf(g, v, level) == Low(Shr(v, g.Span(level - 1)), g.entryBits)
  {
    hide Pow2, Shl, Shr, Low, Geometry.Span;
    LevelFits(g, level);
    var a := SliceOf(Extent(64, 0), PageNumber(g, v));
    SliceOfValue(g.LevelExtent(level), a);
    FullAddress(g, v);
    ShrShl(v, g.pageBits, g.Span(level - 1));
  }

  lemma FullAddress(g: Geometry, v: Page)
    requires IsPage(g, v)
    ensures SliceOf(Extent(64, 0), PageNumber(g, v)).value == Shl(v, g.pageBits) < Pow2(64)
  {
    JoinBound(0, v, g.pageBits, 64 - g.pageBits);
    Fits(Shl(v, g.pageBits), 64, 64);
    ShrNothing(Low(Shl(v, g.pageBits), 64));
  }

  /** A key and an offset together are the page number above the level's shift. */
  lemma KeyAndOffset(g: Geometry, c: nat, v: Page, d: nat, w: Page, level: nat)
    requires LevelOk(g, level) && IsPage(g, v) && IsPage(g, w)
    ensures KeyOf(g, c, v, level) == KeyOf(g, d, w, level) && OffsetOf(g, v, level) == OffsetOf(g, w, level)
       <==> c == d && Shr(v, g.Span(level - 1)) == Shr(w, g.Span(level - 1))
  {
    KeyValue(g, c, v, level);
    KeyValue(g, d, w, level);
    OffsetValue(g, v, level);
    OffsetValue(g, w, level);
    hide KeyOf, OffsetOf, Shr, Low, Geometry.Valid, Geometry.Span;
    var x, y := Shr(v, g.Span(level - 1)), Shr(w, g.Span(level - 1));
    assert g.Span(level) == g.entryBits + g.Span(level - 1) by { SpanStep(g, level); }
    ShrAdd(v, g.Span(level - 1), g.entryBits);
    ShrAdd(w, g.Span(level - 1), g.entryBits);
    Split(x, g.entryBits);
    Split(y, g.entryBits);
  }

  // ---- page table pages ----

  function SlotNumber(g: Geometry, next: nat): (s: Slice)
    requires g.Valid() && next < Pow2(g.SlotBits())
    ensures s.Valid() && s.extent == Extent(g.pageBits, g.TableBits())
  {
    Slice(Extent(g.pageBits, g.TableBits()), next)
  }

  /** The address of slot `next` of page `active`: splice(active_pte_page, next_pte_page). */
  function NewTable(g: Geometry, active: Page, next: nat): (a: nat)
    requires g.Valid() && IsPage(g, active) && next < Pow2(g.SlotBits())
    ensures a < Pow2(64)
  {
    NewTableSlice(g, active, next);
    hide Pow2, Shl, Shr, Low, Splice, SlotNumber;
    SliceOf(Extent(64, 0), Splice(PageNumber(g, active), SlotNumber(g, next))).value
  }

  lemma NewTableSlice(g: Geometry, active: Page, next: nat)
    requires g.Valid() && IsPage(g, active) && next < Pow2(g.SlotBits())
    ensures var s := Splice(PageNumber(g, active), SlotNumber(g, next));
      s.Valid() && s == Slice(Extent(64, g.TableBits()), next + Shl(active, g.SlotBits()))
  {
    hide Pow2, Shl, Shr, Low, Geometry.Span;
    SpliceBelow(PageNumber(g, active), SlotNumber(g, next));
    JoinBound(next, active, g.SlotBits(), 64 - g.pageBits);
  }

  /** A page table page lies in its page, in its slot, aligned to its size. */
  lemma NewTableValue(g: Geometry, active: Page, next: nat)
    requires g.Valid() && IsPage(g, active) && next < Pow2(g.SlotBits())
    ensures var a := NewTable(g, active, next);
      Shr(a, g.pageBits) == active && Low(Shr(a, g.TableBits()), g.SlotBits()) == next && Low(a, g.TableBits()) == 0
  {
    hide Pow2, Shl, Shr, Low, Geometry.Span;
    NewTableSlice(g, active, next);
    var n, t := next + Shl(active, g.SlotBits()), g.TableBits();
    JoinBound(next, active, g.SlotBits(), 64 - g.pageBits);
    JoinBound(0, n, t, 64 - t);
    Fits(Shl(n, t), 64, 64);
    ShrNothing(Low(Shl(n, t), 64));
    Join(0, n, t);
    Join(next, active, g.SlotBits());
    ShrAdd(Shl(n, t), t, g.SlotBits());
  }

  /** The address of one entry of a page table page. */
  function EntryAddress(g: Geometry, table: nat, offset: nat): nat
    requires g.Valid() && table < Pow2(64) && offset < Pow2(g.entryBits)
  {
    hide Pow2, Shl, Shr, Low, Geometry.Span, Geometry.Frames;
    var s := Slice(Extent(g.TableBits(), 3), offset);
    assert s.extent.Size() == g.entryBits;
    Splice(Slice(Extent(64, 0), table), s).value
  }


  /** Entries lie within their table, and different ones at different addresses. */
  lemma EntryValue(g: Geometry, table: nat, offset: nat)
    requires g.Valid() && table < Pow2(64) && Low(table, g.TableBits()) == 0 && offset < Pow2(g.entryBits)
    ensures var a := EntryAddress(g, table, offset);
      && Low(a, g.TableBits()) == Shl(offset, 3) && Shr(a, g.TableBits()) == Shr(table, g.TableBits())
      && Shr(a, g.pageBits) == Shr(table, g.pageBits)
  {
    var t := g.TableBits();
    hide Pow2, Shl, Shr, Low, Geometry.Span, Geometry.Frames;
    assert Slice(Extent(t, 3), offset).Valid();
    SpliceInto(table, Slice(Extent(t, 3), offset));
    LowLow(table, t, 3);
    LowZero(3);
    JoinBound(0, offset, 3, g.entryBits);
    ShlZero(3);
    var a := EntryAddress(g, table, offset);
    assert a == Shl(offset, 3) + Shl(Shr(table, t), t);
    Join(Shl(offset, 3), Shr(table, t), t);
    ShrAdd(a, t, g.SlotBits());
    ShrAdd(table, t, g.SlotBits());
  }

  lemma EntryBound(g: Geometry, table: nat, offset: nat)
    requires g.Valid() && table < Pow2(64) && offset < Pow2(g.entryBits)
    ensures EntryAddress(g, table, offset) < Pow2(64)
  {
    var t := g.TableBits();
    hide Pow2, Shl, Shr, Low, Geometry.Span, Geometry.Frames;
    assert Slice(Extent(t, 3), offset).Valid();
    SpliceInto(table, Slice(Extent(t, 3), offset));
    LowBound(table, 3);
    JoinBound(Low(table, 3), offset, 3, g.entryBits);
    ShrBound(table, 64, t);
    JoinBound(Low(table, 3) + Shl(offset, 3), Shr(table, t), t, 64 - t);
  }

  lemma ShlZero(n: nat)
    ensures Shl(0, n) == 0
  {
    if n > 0 { ShlZero(n - 1); }
  }

  lemma LowZero(n: nat)
    ensures Low(0, n) == 0
  {
    Fits(0, 0, n);
  }

  lemma {:induction false} ShlInjective(a: nat, b: nat, n: nat)
    requires Shl(a, n) == Shl(b, n)
    ensures a == b
  {
    ShrShl(a, n, 0);
    ShrShl(b, n, 0);
  }

  lemma EntryInjective(g: Geometry, s: nat, o: nat, t: nat, p: nat)
    requires g.Valid() && s < Pow2(64) && t < Pow2(64) && Low(s, g.TableBits()) == 0 && Low(t, g.TableBits()) == 0
    requires o < Pow2(g.entryBits) && p < Pow2(g.entryBits)
    ensures EntryAddress(g, s, o) == EntryAddress(g, t, p) <==> s == t && o == p
  {
    EntryValue(g, s, o);
    EntryValue(g, t, p);
    Split(s, g.TableBits());
    Split(t, g.TableBits());
    hide EntryAddress;
    if EntryAddress(g, s, o) == EntryAddress(g, t, p) { ShlInjective(o, p, 3); }
  }

  // ---- the state ----

  /** `refills` is model-only: how often the pool ran out and was filled again. */
  datatype Vm = Vm(frames: map<(nat, Page), Page>, tables: map<Key, nat>, free: seq<Page>, active: Page, next: nat,
      refills: nat)

  /** populate_pages: consecutive frames from 1 MiB up. */
  function Populated(g: Geometry): (s: seq<Page>)
    ensures |s| == g.Frames() && forall i :: 0 <= i < |s| ==> s[i] == g.FirstFrame() + i
  {
    var first := g.FirstFrame();
    seq(g.Frames(), i requires 0 <= i < g.Frames() => Offset(first, i))
  }

  function Offset(first: Page, i: nat): Page { first + i }

  /** An arbitrary shuffle of the pool. */
  ghost predicate Shuffled(g: Geometry, s: seq<Page>) {
    multiset(s) == multiset(Populated(g))
  }

  function Start(pool: seq<Page>): Vm {
    Vm(map[], map[], pool, 0, 0, 0)
  }

  /** ppage_pop. `refill` is what a shuffle would give if the pool ran out now. */
  function Pop(vm: Vm, refill: seq<Page>): Vm
    requires vm.free != []
  {
    if |vm.free| == 1 then vm.(free := refill, refills := vm.refills + 1) else vm.(free := vm.free[1..])
  }

  /** va_to_pa; the flag says that it faulted. */
  function VaToPa(vm: Vm, cpu: nat, v: Page, refill: seq<Page>): (Vm, Page, bool)
    requires vm.free != []
  {
    if (cpu, v) in vm.frames then (vm, vm.frames[(cpu, v)], false)
    else (Pop(vm.(frames := vm.frames[(cpu, v) := vm.free[0]]), refill), vm.free[0], true)
  }

  ghost predicate Shaped(g: Geometry, vm: Vm) {
    && g.Valid() && vm.free != [] && vm.next < Pow2(g.SlotBits()) && IsPage(g, vm.active)
    && (forall i :: 0 <= i < |vm.free| ==> IsPage(g, vm.free[i]))
    && (forall k :: k in vm.tables ==> vm.tables[k] < Pow2(64) && Low(vm.tables[k], g.TableBits()) == 0)
  }

  /** What get_pte_pa answers from a page table that has the entry. */
  function Pte(g: Geometry, tables: map<Key, nat>, cpu: nat, v: Page, level: nat): nat
    requires LevelOk(g, level) && IsPage(g, v)
    requires var k := KeyOf(g, cpu, v, level); k in tables && tables[k] < Pow2(64)
  {
    EntryAddress(g, tables[KeyOf(g, cpu, v, level)], OffsetOf(g, v, level))
  }

  /** A new page table page takes the next slot; a full page is followed by a new one. */
  function AddTable(g: Geometry, vm: Vm, k: Key, refill: seq<Page>): (r: Vm)
    requires Shaped(g, vm)
  {
    var t := vm.(tables := vm.tables[k := NewTable(g, vm.active, vm.next)], next := Low(vm.next + 1, g.SlotBits()));
    if t.next == 0 then Pop(t.(active := vm.free[0]), refill) else t
  }

  function GetPtePa(g: Geometry, vm: Vm, cpu: nat, v: Page, level: nat, refill: seq<Page>): (Vm, nat, bool)
    requires Shaped(g, vm) && LevelOk(g, level) && IsPage(g, v)
  {
    var k := KeyOf(g, cpu, v, level);
    if k in vm.tables then (vm, EntryAddress(g, vm.tables[k], OffsetOf(g, v, level)), false)
    else
      (AddTable(g, vm, k, refill), EntryAddress(g, NewTable(g, vm.active, vm.next), OffsetOf(g, v, level)), true)
  }

  // ---- what every run keeps ----

  /** The page a page table page lies in, and its slot. */
  function TablePage(g: Geometry, a: nat): Page { Shr(a, g.pageBits) }
  function TableSlot(g: Geometry, a: nat): nat
    requires g.TableBits() <= g.pageBits
  {
    Low(Shr(a, g.TableBits()), g.SlotBits())
  }

  ghost predicate DistinctFree(s: seq<Page>) {
    forall i, j :: 0 <= i < j < |s| ==> s[i] != s[j]
  }

  /** Pages are free, or hold data of one virtual page, or hold page tables: never two of these. */
  ghost predicate Separate(g: Geometry, vm: Vm) {
    && DistinctFree(vm.free) && vm.active !in vm.free
    && (forall x :: x in vm.frames ==> vm.frames[x] !in vm.free && vm.frames[x] != vm.active)
    && (forall x, y :: x in vm.frames && y in vm.frames && vm.frames[x] == vm.frames[y] ==> x == y)
    && (forall k :: k in vm.tables ==> TablePage(g, vm.tables[k]) !in vm.free)
    && (forall k, x :: k in vm.tables && x in vm.frames ==> TablePage(g, vm.tables[k]) != vm.frames[x])
  }

  /** Page table pages are all different, and the cursor is past those of the active page. */
  ghost predicate TablesApart(g: Geometry, vm: Vm)
    requires g.TableBits() <= g.pageBits
  {
    && (forall k, l :: k in vm.tables && l in vm.tables && vm.tables[k] == vm.tables[l] ==> k == l)
    && (forall k :: k in vm.tables && TablePage(g, vm.tables[k]) == vm.active ==> TableSlot(g, vm.tables[k]) < vm.next)
  }

  ghost predicate Inv(g: Geometry, vm: Vm) {
    Shaped(g, vm) && (vm.refills == 0 ==> Separate(g, vm) && TablesApart(g, vm))
  }

  lemma FramesAreAddresses(g: Geometry)
    requires g.Valid()
    ensures g.FirstFrame() > 0
    ensures forall p :: g.FirstFrame() <= p < g.FirstFrame() + g.Frames() ==> IsPage(g, p)
  {
    hide Pow2, Shr, Low, Geometry.Span;
    FrameBounds(g.pageBits, g.dramBytes - ONE_MIB, g.dramBytes);
  }

  /** The frames from 1 MiB up to the end of memory are page numbers. */
  lemma FrameBounds(n: nat, d: nat, total: nat)
    requires n <= 20 && total == ONE_MIB + d && total <= 0x8000_0000_0000_0000
    ensures Shr(ONE_MIB, n) > 0 && Shr(ONE_MIB, n) + Shr(d, n) <= Pow2(64 - n)
  {
    hide Pow2, Shr, Low;
    ShiftIsDivision(ONE_MIB, n);
    ShiftIsDivision(d, n);
    PowerValues(n);
    FewPages(Shr(ONE_MIB, n), Shr(d, n), Pow2(n), Pow2(64 - n), total);
    Product(Shr(ONE_MIB, n), Pow2(n), ONE_MIB, Low(ONE_MIB, n));
  }

  lemma PowerValues(n: nat)
    requires n <= 20
    ensures 1 <= Pow2(n) <= ONE_MIB && Pow2(n) * Pow2(64 - n) == 0x1_0000_0000_0000_0000
  {
    Power16();
    Pow2Grows(n, 20);
    hide Pow2;
    Pow2Split(16, 4);
    Pow2Split(n, 64 - n);
    Pow2Split(16, 16);
    Pow2Split(32, 32);
  }

  lemma Power16()
    ensures Pow2(4) == 16 && Pow2(16) == 0x1_0000
  {
    assert Pow2(1) == 2 && Pow2(2) == 4 && Pow2(4) == 16;
    hide Pow2;
    Pow2Split(4, 4);
    Pow2Split(8, 8);
  }

  lemma Product(f: nat, p: nat, total: nat, rest: nat)
    requires f * p + rest == total && rest < p <= total
    ensures f > 0
  {
  }

  lemma FewPages(f: nat, n: nat, p: nat, q: nat, total: nat)
    requires p > 0 && f * p + n * p <= total < q * p
    ensures f + n <= q
  {
    assert (f + n) * p == f * p + n * p;
    Larger(q, f + n, p);
  }

  lemma Larger(a: nat, b: nat, p: nat)
    ensures a <= b ==> a * p <= b * p
  {
    if a <= b {
      var d: nat := b - a;
      assert d * p >= 0;
      assert d * p == b * p - a * p;
    }
  }

  lemma {:induction false} Pow2Split(m: nat, n: nat)
    ensures Pow2(m) * Pow2(n) == Pow2(m + n)
  {
    if m > 0 {
      Pow2Split(m - 1, n);
      var p := Pow2(m - 1);
      assert 2 * p * Pow2(n) == 2 * (p * Pow2(n));
    }
  }

  /** A shuffled pool holds the same frames, each once. */
  lemma {:induction false} ShuffledPool(g: Geometry, s: seq<Page>)
    requires g.Valid() && Shuffled(g, s)
    ensures s != [] && DistinctFree(s) && forall i :: 0 <= i < |s| ==> s[i] != 0 && IsPage(g, s[i])
  {
    var p := Populated(g);
    FramesAreAddresses(g);
    assert |s| == |multiset(s)| == |p|;
    forall i | 0 <= i < |s| ensures s[i] in p { assert s[i] in multiset(s); }
    forall x ensures multiset(s)[x] <= 1 { OnceOnly(p, x); }
    forall i, j | 0 <= i < j < |s| ensures s[i] != s[j] {
      assert s == s[..j] + s[j..];
      assert s[i] in s[..j] && s[j] in s[j..];
      assert multiset(s)[s[j]] == multiset(s[..j])[s[j]] + multiset(s[j..])[s[j]];
    }
  }

  lemma {:induction false} OnceOnly(p: seq<Page>, x: Page)
    requires DistinctFree(p)
    ensures multiset(p)[x] <= 1
  {
    if p != [] {
      var n := |p| - 1;
      OnceOnly(p[..n], x);
      assert p == p[..n] + [p[n]];
      assert p[n] !in p[..n];
    }
  }

  lemma {:induction false} StartInv(g: Geometry, pool: seq<Page>)
    requires g.Valid() && Shuffled(g, pool)
    ensures Inv(g, Start(pool))
  {
    ShuffledPool(g, pool);
    hide Shuffled;
    forall i | 0 <= i < |pool| ensures pool[i] != 0 { }
  }

  lemma {:induction false} VaToPaKeeps(g: Geometry, vm: Vm, cpu: nat, v: Page, refill: seq<Page>)
    requires Inv(g, vm) && Shuffled(g, refill)
    ensures Inv(g, VaToPa(vm, cpu, v, refill).0)
  {
    ShuffledPool(g, refill);
    hide Shuffled, Geometry.Valid, TablePage, TableSlot;
    assert forall x :: x in vm.free[1..] ==> x in vm.free;
  }

  lemma PopPages(g: Geometry, vm: Vm, refill: seq<Page>)
    requires vm.free != [] && (forall i :: 0 <= i < |vm.free| ==> IsPage(g, vm.free[i]))
    requires g.Valid() && Shuffled(g, refill)
    ensures var r := Pop(vm, refill);
      && r.free != [] && (forall i :: 0 <= i < |r.free| ==> IsPage(g, r.free[i]))
      && r.tables == vm.tables && r.next == vm.next && r.active == vm.active
  {
    ShuffledPool(g, refill);
    hide Shuffled, IsPage, DistinctFree, Geometry.Valid;
    forall i | 0 <= i < |vm.free| - 1 ensures IsPage(g, vm.free[1..][i]) { assert vm.free[1..][i] == vm.free[i + 1]; }
  }

  lemma {:induction false} AddTableShape(g: Geometry, vm: Vm, k: Key, refill: seq<Page>)
    requires Shaped(g, vm) && Shuffled(g, refill)
    ensures Shaped(g, AddTable(g, vm, k, refill))
  {
    hide Shuffled, Pop, NewTable, Low, Pow2, Shr, IsPage, Geometry.Span;
    NewTableValue(g, vm.active, vm.next);
    LowBound(vm.next + 1, g.SlotBits());
    var t := vm.(tables := vm.tables[k := NewTable(g, vm.active, vm.next)], next := Low(vm.next + 1, g.SlotBits()));
    PopPages(g, t.(active := vm.free[0]), refill);
    hide Geometry.Valid;
  }

  /** The cursor either moves on to the next slot or is back at the first. */
  lemma CursorStep(g: Geometry, next: nat)
    requires g.TableBits() <= g.pageBits && next < Pow2(g.SlotBits())
    ensures var n := Low(next + 1, g.SlotBits()); n == 0 || n == next + 1
  {
    if next + 1 < Pow2(g.SlotBits()) {
      Fits(next + 1, g.SlotBits(), g.SlotBits());
    } else {
      PowerLow(g.SlotBits());
    }
  }

  lemma {:induction false} PowerLow(n: nat)
    ensures Low(Pow2(n), n) == 0
  {
    if n > 0 {
      assert Pow2(n) / 2 == Pow2(n - 1);
      PowerLow(n - 1);
    }
  }

  lemma {:induction false} AddTableSeparate(g: Geometry, vm: Vm, k: Key, refill: seq<Page>)
    requires Shaped(g, vm) && Separate(g, vm) && TablePage(g, NewTable(g, vm.active, vm.next)) == vm.active
    requires AddTable(g, vm, k, refill).refills == vm.refills
    ensures Separate(g, AddTable(g, vm, k, refill))
  {
    hide Geometry.Valid, NewTable, Low, Pow2, TablePage;
    var f := vm.free[1..];
    forall i | 0 <= i < |f| ensures f[i] == vm.free[i + 1] && f[i] != vm.free[0] { }
    assert forall x :: x in f ==> x in vm.free;
  }

  lemma {:induction false} AddTableApart(g: Geometry, vm: Vm, k: Key, refill: seq<Page>)
    requires Shaped(g, vm) && Separate(g, vm) && TablesApart(g, vm) && k !in vm.tables
    requires var a := NewTable(g, vm.active, vm.next); TablePage(g, a) == vm.active && TableSlot(g, a) == vm.next
    requires var n := Low(vm.next + 1, g.SlotBits()); n == 0 || n == vm.next + 1
    ensures TablesApart(g, AddTable(g, vm, k, refill))
  {
    hide Geometry.Valid, NewTable, Low, Pow2, TablePage, TableSlot;
    var r := AddTable(g, vm, k, refill);
    assert r.next == 0 ==> r.active == vm.free[0];
    forall l | l in r.tables && TablePage(g, r.tables[l]) == r.active ensures TableSlot(g, r.tables[l]) < r.next { }
  }

  lemma {:induction false} AddTableKeeps(g: Geometry, vm: Vm, k: Key, refill: seq<Page>)
    requires Inv(g, vm) && Shuffled(g, refill) && k !in vm.tables
    ensures Inv(g, AddTable(g, vm, k, refill))
  {
    hide Separate, TablesApart, NewTable, Low, Pow2, Shr;
    AddTableShape(g, vm, k, refill);
    NewTableValue(g, vm.active, vm.next);
    CursorStep(g, vm.next);
    var r := AddTable(g, vm, k, refill);
    hide Shaped;
    if r.refills == 0 {
      assert vm.refills == 0;
      AddTableSeparate(g, vm, k, refill);
      AddTableApart(g, vm, k, refill);
    }
  }

  lemma {:induction false} GetPtePaKeeps(g: Geometry, vm: Vm, cpu: nat, v: Page, level: nat, refill: seq<Page>)
    requires Inv(g, vm) && Shuffled(g, refill) && LevelOk(g, level) && IsPage(g, v)
    ensures Inv(g, GetPtePa(g, vm, cpu, v, level, refill).0)
  {
    if KeyOf(g, cpu, v, level) !in vm.tables { AddTableKeeps(g, vm, KeyOf(g, cpu, v, level), refill); }
    hide Inv, AddTable, EntryAddress;
  }
}
