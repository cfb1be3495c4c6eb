/** Virtual memory as the object the simulator updates in place (src/vmem.cc). */
module VirtualMemoryObject {
  import opened Sequences
  import opened Bits
  import opened VirtualMemory

  /** The loop of populate_pages. */
  method PopulatePages(g: Geometry) returns (pages: seq<Page>)
    ensures pages == Populated(g)
  {
    pages := [];
    var base := g.FirstFrame();
    for i := 0 to g.Frames()
      invariant base == g.FirstFrame() + i && |pages| == i
      invariant forall k :: 0 <= k < i ==> pages[k] == g.FirstFrame() + k
    {
      pages := pages + [base];
      base := base + 1;
    }
  }

  class Memory {
    const g: Geometry
    var vpageToPpage: map<(nat, Page), Page>
    var pageTable: map<Key, nat>
    var ppageFreeList: seq<Page>
    var activePtePage: Page
    var nextPtePage: nat
    /** How often the pool has been filled again. */
    var refillCount: nat

    ghost function State(): Vm
      reads this
    {
      Vm(vpageToPpage, pageTable, ppageFreeList, activePtePage, nextPtePage, refillCount)
    }

    /** Frames and page tables never collide until the pool has been filled again. */
    ghost predicate Valid()
      reads this
    {
      Inv(g, State())
    }

    /** `pool` is the shuffled pool. */
    constructor (g: Geometry, pool: seq<Page>)
      requires g.Valid() && Shuffled(g, pool)
      ensures Valid() && this.g == g && State() == Start(pool)
    {
      this.g := g;
      vpageToPpage, pageTable, ppageFreeList, activePtePage, nextPtePage, refillCount := map[], map[], pool, 0, 0, 0;
      StartInv(g, pool);
    }

    method PpagePop(refill: seq<Page>)
      requires ppageFreeList != []
      modifies this`ppageFreeList, this`refillCount
      ensures State() == Pop(old(State()), refill)
    {
      ppageFreeList := ppageFreeList[1..];
      if |ppageFreeList| == 0 {
        ppageFreeList := refill;
        refillCount := refillCount + 1;
      }
    }

    method Translate(cpu: nat, v: Page, refill: seq<Page>) returns (p: Page, fault: bool)
      requires Valid() && Shuffled(g, refill)
      modifies this
      ensures Valid() && (State(), p, fault) == VaToPa(old(State()), cpu, v, refill)
    {
      VaToPaKeeps(g, State(), cpu, v, refill);
      hide Inv, Shuffled;
      assert Shaped(g, State()) by { ValidIsShaped(g, State()); }
      hide Shaped;
      fault := (cpu, v) !in vpageToPpage;
      if fault {
        p := ppageFreeList[0];
        vpageToPpage := vpageToPpage[(cpu, v) := p];
        PpagePop(refill);
      } else {
        p := vpageToPpage[(cpu, v)];
      }
    }

    /** A new page table page, and a new page for the next ones when this page is full. */
    method AddTablePage(k: Key, refill: seq<Page>) returns (table: nat)
      requires Shaped(g, State())
      modifies this
      ensures State() == AddTable(g, old(State()), k, refill)
      ensures table == NewTable(g, old(activePtePage), old(nextPtePage))
    {
      hide Pow2, Low, NewTable, Geometry.Valid;
      table := NewTable(g, activePtePage, nextPtePage);
      pageTable := pageTable[k := table];
      nextPtePage := Low(nextPtePage + 1, g.SlotBits());
      if nextPtePage == 0 {
        activePtePage := ppageFreeList[0];
        PpagePop(refill);
      }
    }

    method PageTableEntry(cpu: nat, v: Page, level: nat, refill: seq<Page>) returns (a: nat, fault: bool)
      requires Valid() && Shuffled(g, refill) && LevelOk(g, level) && IsPage(g, v)
      modifies this
      ensures Valid()
      ensures old(Shaped(g, State())) && (State(), a, fault) == GetPtePa(g, old(State()), cpu, v, level, refill)
    {
      hide Inv, Shuffled, Pow2, Low, KeyOf, OffsetOf, EntryAddress, NewTable, AddTable, IsPage, LevelOk;
      GetPtePaKeeps(g, State(), cpu, v, level, refill);
      ValidIsShaped(g, State());
      NewTableFits(g, activePtePage, nextPtePage);
      var k, o := KeyOf(g, cpu, v, level), OffsetOf(g, v, level);
      fault := k !in pageTable;
      if fault {
        var table := AddTablePage(k, refill);
        a := EntryAddress(g, table, o);
      } else {
        a := EntryAddress(g, pageTable[k], o);
      }
    }
  }

  lemma NewTableFits(g: Geometry, active: Page, next: nat)
    requires g.Valid() && IsPage(g, active) && next < Pow2(g.SlotBits())
    ensures NewTable(g, active, next) < Pow2(64)
  {
  }

  lemma ValidIsShaped(g: Geometry, vm: Vm)
    requires Inv(g, vm)
    ensures Shaped(g, vm)
  {
  }
}
