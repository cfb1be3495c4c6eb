/** The main results about virtual memory: what any two answers in a run say of each other. */
module VirtualMemoryRuns {
  import opened Sequences
  import opened Bits
  import opened VirtualMemory

  /** One call. `refill` is the pool a shuffle would give if the call exhausted it. */
  datatype Call = Translate(cpu: nat, page: Page, refill: seq<Page>) | Lookup(cpu: nat, page: Page, level: nat,
      refill: seq<Page>)

  ghost predicate CallOk(g: Geometry, c: Call) {
    g.Valid() && Shuffled(g, c.refill) && IsPage(g, c.page) && (c.Lookup? ==> LevelOk(g, c.level))
  }

  ghost predicate CallsOk(g: Geometry, calls: seq<Call>) {
    forall i :: 0 <= i < |calls| ==> CallOk(g, calls[i])
  }

  /** The new state and the page or address returned. */
  ghost function Do(g: Geometry, vm: Vm, c: Call): (Vm, nat)
    requires Shaped(g, vm) && CallOk(g, c)
  {
    if c.Translate? then var (r, a, f) := VaToPa(vm, c.cpu, c.page, c.refill); (r, a)
    else var (r, a, f) := GetPtePa(g, vm, c.cpu, c.page, c.level, c.refill); (r, a)
  }

  lemma {:induction false} DoKeeps(g: Geometry, vm: Vm, c: Call)
    requires Inv(g, vm) && CallOk(g, c)
    ensures Inv(g, Do(g, vm, c).0)
  {
    hide Inv, Shuffled, VaToPa, GetPtePa, IsPage, LevelOk;
    if c.Translate? {
      VaToPaKeeps(g, vm, c.cpu, c.page, c.refill);
    } else { GetPtePaKeeps(g, vm, c.cpu, c.page, c.level, c.refill); }
  }

  /** The state after `calls`, and every answer in order. */
  ghost function Run(g: Geometry, pool: seq<Page>, calls: seq<Call>): (res: (Vm, seq<nat>))
    requires g.Valid() && Shuffled(g, pool) && CallsOk(g, calls)
    ensures Inv(g, res.0) && |res.1| == |calls|
  {
    hide Inv, Shuffled, Do, CallOk;
    if calls == [] then
      StartInv(g, pool);
      (Start(pool), [])
    else
      var n := |calls| - 1;
      assert CallsOk(g, calls[..n]) && CallOk(g, calls[n]);
      var (vm, answers) := Run(g, pool, calls[..n]);
      DoKeeps(g, vm, calls[n]);
      InvShaped(g, vm);
      var (r, a) := Do(g, vm, calls[n]);
      (r, answers + [a])
  }

  lemma InvShaped(g: Geometry, vm: Vm)
    requires Inv(g, vm)
    ensures Shaped(g, vm)
  {
  }

  /** What the state records of a call's answer. */
  ghost predicate Records(g: Geometry, vm: Vm, c: Call, a: nat)
    requires Shaped(g, vm) && CallOk(g, c)
  {
    if c.Translate? then (c.cpu, c.page) in vm.frames && vm.frames[(c.cpu, c.page)] == a
    else KeyOf(g, c.cpu, c.page, c.level) in vm.tables && Pte(g, vm.tables, c.cpu, c.page, c.level) == a
  }

  /** Calls add mappings; they never change one, even when the pool is filled again. */
  ghost predicate Grows(vm: Vm, r: Vm) {
    && (forall x :: x in vm.frames ==> x in r.frames && r.frames[x] == vm.frames[x])
    && (forall k :: k in vm.tables ==> k in r.tables && r.tables[k] == vm.tables[k])
    && vm.refills <= r.refills
  }

  lemma {:induction false} TranslateGrows(vm: Vm, cpu: nat, v: Page, refill: seq<Page>)
    requires vm.free != []
    ensures var (r, a, f) := VaToPa(vm, cpu, v, refill); Grows(vm, r) && (cpu, v) in r.frames && r.frames[(cpu, v)] == a
  {
  }

  lemma {:induction false} WalkGrows(g: Geometry, vm: Vm, cpu: nat, v: Page, level: nat, refill: seq<Page>)
    requires Shaped(g, vm) && LevelOk(g, level) && IsPage(g, v)
    ensures var (r, a, f) := GetPtePa(g, vm, cpu, v, level, refill);
      var k := KeyOf(g, cpu, v, level);
      Grows(vm, r) && k in r.tables && r.tables[k] < Pow2(64) && Pte(g, r.tables, cpu, v, level) == a
  {
    hide IsPage, Geometry.Valid, EntryAddress, KeyOf, OffsetOf, Pow2, Low, NewTable;
  }

  lemma {:induction false} DoRecords(g: Geometry, vm: Vm, c: Call)
    requires Inv(g, vm) && CallOk(g, c)
    ensures Grows(vm, Do(g, vm, c).0) && Inv(g, Do(g, vm, c).0) && Shaped(g, Do(g, vm, c).0)
    ensures Records(g, Do(g, vm, c).0, c, Do(g, vm, c).1)
  {
    DoKeeps(g, vm, c);
    InvShaped(g, Do(g, vm, c).0);
    InvShaped(g, vm);
    hide Inv, Grows;
    if c.Translate? {
      TranslateGrows(vm, c.cpu, c.page, c.refill);
      hide VaToPa, Shuffled, Shaped;
    } else {
      WalkGrows(g, vm, c.cpu, c.page, c.level, c.refill);
      hide GetPtePa, Shuffled, Pte, KeyOf, Shaped;
    }
  }

  lemma {:induction false} StillRecords(g: Geometry, vm: Vm, r: Vm, c: Call, a: nat)
    requires Shaped(g, vm) && Shaped(g, r) && CallOk(g, c) && Grows(vm, r) && Records(g, vm, c, a)
    ensures Records(g, r, c, a)
  {
    hide Shuffled, IsPage, Geometry.Valid, EntryAddress, KeyOf, OffsetOf, Pow2, Low;
  }

  /** The final state records every answer ever given. */
  lemma {:induction false} AllRecorded(g: Geometry, pool: seq<Page>, calls: seq<Call>, i: nat)
    requires g.Valid() && Shuffled(g, pool) && CallsOk(g, calls) && i < |calls|
    ensures var (vm, answers) := Run(g, pool, calls);
      Shaped(g, vm) && CallOk(g, calls[i]) && Records(g, vm, calls[i], answers[i])
  {
    var n := |calls| - 1;
    hide Inv, Shuffled, Do, CallOk, Shaped, Records, Grows;
    assert CallsOk(g, calls[..n]) && CallOk(g, calls[n]) && CallOk(g, calls[i]);
    var (vm, answers) := Run(g, pool, calls[..n]);
    InvShaped(g, vm);
    DoRecords(g, vm, calls[n]);
    if i < n {
      AllRecorded(g, pool, calls[..n], i);
      StillRecords(g, vm, Do(g, vm, calls[n]).0, calls[i], answers[i]);
    }
  }

  // ---- main results ----

  /** Until the pool is exhausted, two translations give the same frame exactly when they
      are of the same page of the same cpu. */
  lemma {:induction false} TranslationsAreInjective(g: Geometry, pool: seq<Page>, calls: seq<Call>, i: nat, j: nat)
    requires g.Valid() && Shuffled(g, pool) && CallsOk(g, calls) && i < |calls| && j < |calls|
    requires Run(g, pool, calls).0.refills == 0 && calls[i].Translate? && calls[j].Translate?
    ensures var a := Run(g, pool, calls).1;
      a[i] == a[j] <==> calls[i].cpu == calls[j].cpu && calls[i].page == calls[j].page
  {
    AllRecorded(g, pool, calls, i);
    AllRecorded(g, pool, calls, j);
    var vm := Run(g, pool, calls).0;
    hide Run, Shuffled, CallOk, CallsOk, Shaped, TablesApart;
  }

  /** Two page table entries are the same exactly when they serve the same cpu and level and
      the same bits above that level's shift; page table pages smaller than a page included. */
  lemma {:induction false} EntriesAreExact(g: Geometry, pool: seq<Page>, calls: seq<Call>, i: nat, j: nat)
    requires g.Valid() && Shuffled(g, pool) && CallsOk(g, calls) && i < |calls| && j < |calls|
    requires Run(g, pool, calls).0.refills == 0 && calls[i].Lookup? && calls[j].Lookup?
    requires calls[i].level >= 1 && calls[j].level >= 1
    ensures var a := Run(g, pool, calls).1;
      a[i] == a[j] <==>
        calls[i].cpu == calls[j].cpu && calls[i].level == calls[j].level
        && Shr(calls[i].page, g.Span(calls[i].level - 1)) == Shr(calls[j].page, g.Span(calls[j].level - 1))
  {
    hide Run, Shuffled, CallsOk, Inv, Shaped, Records, CallOk, Pte, KeyOf, LevelOk, IsPage, Shr;
    AllRecorded(g, pool, calls, i);
    AllRecorded(g, pool, calls, j);
    var (vm, a) := Run(g, pool, calls);
    RecordedEntry(g, vm, calls[i], a[i]);
    RecordedEntry(g, vm, calls[j], a[j]);
    ExactEntries(g, vm, calls[i].cpu, calls[i].page, calls[i].level, calls[j].cpu, calls[j].page, calls[j].level);
  }

  lemma RecordedEntry(g: Geometry, vm: Vm, c: Call, a: nat)
    requires Shaped(g, vm) && CallOk(g, c) && c.Lookup? && Records(g, vm, c, a)
    ensures LevelOk(g, c.level) && IsPage(g, c.page) && KeyOf(g, c.cpu, c.page, c.level) in vm.tables
    ensures vm.tables[KeyOf(g, c.cpu, c.page, c.level)] < Pow2(64) && Pte(g, vm.tables, c.cpu, c.page, c.level) == a
  {
    hide Pte, KeyOf, Shuffled, Geometry.Valid;
  }

  lemma {:induction false} ExactEntries(g: Geometry, vm: Vm, c: nat, v: Page, l: nat, d: nat, w: Page, m: nat)
    requires Inv(g, vm) && vm.refills == 0 && LevelOk(g, l) && LevelOk(g, m) && IsPage(g, v) && IsPage(g, w)
    requires KeyOf(g, c, v, l) in vm.tables && KeyOf(g, d, w, m) in vm.tables
    ensures Pte(g, vm.tables, c, v, l) == Pte(g, vm.tables, d, w, m) <==>
      c == d && l == m && Shr(v, g.Span(l - 1)) == Shr(w, g.Span(m - 1))
  {
    hide EntryAddress, OffsetOf, Pow2, Low, Shr;
    var s, t := vm.tables[KeyOf(g, c, v, l)], vm.tables[KeyOf(g, d, w, m)];
    EntryInjective(g, s, OffsetOf(g, v, l), t, OffsetOf(g, w, m));
    assert s == t <==> KeyOf(g, c, v, l) == KeyOf(g, d, w, m) by { hide Separate, KeyOf, OffsetOf, EntryAddress; }
    if l == m { KeyAndOffset(g, c, v, d, w, l); }
    hide Inv;
  }

  /** A frame of data never holds a page table entry. */
  lemma {:induction false} DataAndTablesApart(g: Geometry, pool: seq<Page>, calls: seq<Call>, i: nat, j: nat)
    requires g.Valid() && Shuffled(g, pool) && CallsOk(g, calls) && i < |calls| && j < |calls|
    requires Run(g, pool, calls).0.refills == 0 && calls[i].Translate? && calls[j].Lookup?
    ensures var a := Run(g, pool, calls).1; Shr(a[j], g.pageBits) != a[i]
  {
    AllRecorded(g, pool, calls, i);
    AllRecorded(g, pool, calls, j);
    var (vm, a) := Run(g, pool, calls);
    hide Run, Shuffled, CallsOk;
    var d := calls[j];
    var t := vm.tables[KeyOf(g, d.cpu, d.page, d.level)];
    EntryValue(g, t, OffsetOf(g, d.page, d.level));
    hide EntryAddress, OffsetOf, KeyOf, TablesApart;
    assert TablePage(g, t) != vm.frames[(calls[i].cpu, calls[i].page)];
  }
}
