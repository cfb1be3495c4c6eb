/** Page table pages smaller than a page: runs in which a hit in a paging-structure cache makes a
    walk read another entry than get_pte_pa answers. */
module SmallTables {
  import opened Sequences
  import opened Bits
  import opened VirtualMemory
  import Memories = VirtualMemoryRuns
  import opened PageTableWalker
  import opened PageTableWalkerRuns

  // ---- the run ----

  function Misses(cfg: Config): seq<Option<Entry>> { seq(cfg.N(), _ => None) }

  function Hits(cfg: Config, e: Entry): seq<Option<Entry>> { seq(cfg.N(), i => if i == 0 then Some(e) else None) }

  /** A request misses in all caches; */
  function Ask(cfg: Config, vm: Vm, x: Request): Cycle {
    Cycle(vm, 0, false, [], _ => false, [(x, Misses(cfg))])
  }

  /** its first read returns; */
  function Return(vm: Vm, a: nat): Cycle {
    Cycle(vm, 0, false, [a], _ => false, [])
  }

  /** the step is ready and fills its cache, and the same request comes again and hits. */
  function AskAgain(cfg: Config, vm: Vm, now: int, x: Request, e: Entry): Cycle {
    Cycle(vm, now, false, [], _ => true, [(x, Hits(cfg, e))])
  }

  // ---- nothing to do ----

  lemma {:induction false} Idle(cfg: Config, s: Ptw, y: Cycle)
    requires Fillable(cfg, s) && s.completed == [] && s.finished == []
    ensures Advance(cfg, s, y) == s
  {
    assert s.answers + s.completed[..0] == s.answers && s.completed[0..] == [];
  }

  /** With no read accepted, finished walks stay, whatever their caches are filled with. */
  lemma {:induction false} Refused(cfg: Config, s: Ptw, y: Cycle)
    requires Fillable(cfg, s) && s.completed == [] && !y.accepts(0)
    ensures var r := Advance(cfg, s, y); r == s.(pscl := r.pscl)
  {
    hide IsReady, SpanLen, Fillable;
    assert s.answers + s.completed[..0] == s.answers && s.completed[0..] == [];
    var n := SpanLen(s.finished, cfg.maxFill - 0, (w: Walk) => IsReady(w, y.now));
    assert SpanLen(s.completed, cfg.maxFill, (w: Walk) => IsReady(w, y.now)) == 0;
  }

  /** A ready walk fills the cache of its level, and goes on. */
  lemma {:induction false} Fills(cfg: Config, s: Ptw, y: Cycle)
    requires Fillable(cfg, s) && s.completed == [] && |s.finished| == 1 && y.accepts(0) && cfg.maxFill >= 1
    requires s.finished[0].ready <= y.now
    ensures Advance(cfg, s, y) == FillOne(cfg, s)
  {
    hide FillOne;
    assert s.answers + s.completed[..0] == s.answers && s.completed[0..] == [];
    var p := (w: Walk) => IsReady(w, y.now);
    assert SpanLen(s.finished, cfg.maxFill - 0, p) == 1 by { assert SpanLen(s.finished[1..], cfg.maxFill - 1, p) == 0; }
    assert FillFrom(cfg, FillOne(cfg, s), 0, y.accepts, 1) == FillOne(cfg, s);
  }

  /** The only walk's read returns. */
  lemma {:induction false} OneReturns(cfg: Config, s: Ptw, w: Walk, now: int, warmup: bool)
    requires cfg.Valid() && VirtualMemory.Inv(cfg.g, s.vm) && Shaped(cfg.g, s.vm) && s.mshr == [w] && WalkShaped(cfg, w)
    requires w.level >= 1
    ensures AllShaped(cfg, s.mshr)
    ensures var (vm, u) := FinishWalk(cfg, s.vm, w, now, warmup);
      FinishPackets(cfg, s, [w.address], now, warmup) == s.(mshr := [], vm := vm, finished := s.finished + [u])
  {
    hide VirtualMemory.Inv, Config.Valid, Shaped, WalkShaped, FinishWalk, Shr;
    var block := Shr(w.address, cfg.blockBits);
    assert Select(cfg, [w], block, true) == [w] && Select(cfg, [w], block, false) == [] by {
      assert Select(cfg, [w][1..], block, true) == [] && Select(cfg, [w][1..], block, false) == [];
    }
    hide Select;
    var (vm, u) := FinishWalk(cfg, s.vm, w, now, warmup);
    assert u.level == w.level by { LevelStays(cfg, s.vm, w, now, warmup); }
    FinishWalkKeeps(cfg, s.vm, w, now, warmup);
    var t := s.(mshr := []);
    var r := t.(vm := vm, finished := t.finished + [u]);
    assert FinishWalks(cfg, r, [], now, warmup) == r;
    assert [w][1..] == [];
    assert FinishWalks(cfg, t, [w], now, warmup) == r;
    hide FinishWalks;
    assert FinishPacket(cfg, s, w.address, now, warmup) == r;
    hide FinishPacket;
    assert [w.address][1..] == [];
    assert FinishPackets(cfg, r, [], now, warmup) == r;
  }

  lemma LevelStays(cfg: Config, vm: Vm, w: Walk, now: int, warmup: bool)
    requires cfg.Valid() && Shaped(cfg.g, vm) && WalkShaped(cfg, w)
    ensures FinishWalk(cfg, vm, w, now, warmup).1.level == w.level
  {
    hide Config.Valid, Shaped, WalkShaped, VaToPa, GetPtePa;
  }

  lemma OneRead(cfg: Config, s: Ptw, x: Request, hits: seq<Option<Entry>>)
    requires cfg.Valid() && PsclOk(cfg, s.pscl) && ReadOk(cfg, s.pscl, (x, hits))
    ensures EntryOk(cfg, WalkInit(cfg, x, hits)) && ReadAll(cfg, s, [(x, hits)]) == Accept(cfg, s, x, hits)
  {
    hide Config.Valid, PsclOk, ReadOk, WalkInit, Accept;
    WalkInitOk(cfg, s.pscl, x, hits);
    assert [(x, hits)][1..] == [];
  }

  lemma SameVm(cfg: Config, s: Ptw, y: Cycle)
    requires PtwInv(cfg, s) && y.vm == s.vm
    ensures VmOk(cfg, s, y) && s.(vm := y.vm) == s && cfg.Valid()
  {
    hide VirtualMemory.Inv, Config.Valid, WalksOk, CachesOk, Conserved;
  }

  // ---- the three cycles ----

  lemma {:induction false} FirstCycle(cfg: Config, s: Ptw, x: Request)
    requires PtwInv(cfg, s) && s.mshr == [] && s.finished == [] && s.completed == [] && IsVaddr(x.vaddr)
    ensures var y := Ask(cfg, s.vm, x);
      && CycleOk(cfg, s, y) && EntryOk(cfg, WalkInit(cfg, x, Misses(cfg))) && cfg.Valid()
      && Operate(cfg, s, y) == s.(mshr := [HandleRead(cfg, s, x, Misses(cfg))], accepted := s.accepted + 1)
  {
    hide PtwInv, Advance, PsclOk, Config.Valid, VmOk, Fillable, HandleRead, WalkInit, EntryOk, VirtualMemory.Inv,
      AllShaped,
      IsVaddr;
    var y := Ask(cfg, s.vm, x);
    SameVm(cfg, s, y);
    LevelsOk(cfg, s);
    Idle(cfg, s, y);
    InvParts(cfg, s);
    assert FinishPackets(cfg, s, [], y.now, y.warmup) == s;
    assert BeforeReads(cfg, s, y) == s;
    AllMiss(cfg, s.pscl, x);
    OneRead(cfg, s, x, Misses(cfg));
    assert s.mshr + [HandleRead(cfg, s, x, Misses(cfg))] == [HandleRead(cfg, s, x, Misses(cfg))];
  }

  lemma AllMiss(cfg: Config, pscl: seq<seq<Entry>>, x: Request)
    requires cfg.Valid() && PsclOk(cfg, pscl) && IsVaddr(x.vaddr)
    ensures ReadOk(cfg, pscl, (x, Misses(cfg)))
  {
    hide Config.Valid, IsVaddr;
  }

  lemma {:induction false} SecondCycle(cfg: Config, s: Ptw, w: Walk)
    requires PtwInv(cfg, s) && s.mshr == [w] && s.finished == [] && s.completed == [] && w.level >= 1
    ensures var y := Return(s.vm, w.address);
      && CycleOk(cfg, s, y) && cfg.Valid() && Shaped(cfg.g, s.vm) && WalkShaped(cfg, w)
      && var (vm, u) := FinishWalk(cfg, s.vm, w, 0, false);
      && var r := Operate(cfg, s, y);
      && r == s.(mshr := [], finished := [u], vm := vm, pscl := r.pscl)
  {
    hide PtwInv, Advance, PsclOk, Config.Valid, VmOk, Fillable, VirtualMemory.Inv, AllShaped, Shaped, WalkShaped,
      FinishWalk,
      FinishPackets;
    var y := Return(s.vm, w.address);
    SameVm(cfg, s, y);
    LevelsOk(cfg, s);
    InvParts(cfg, s);
    Memories.InvShaped(cfg.g, s.vm);
    FirstShaped(cfg, s);
    OneReturns(cfg, s, w, 0, false);
    var (vm, u) := FinishWalk(cfg, s.vm, w, 0, false);
    assert [] + [u] == [u];
    var t := s.(mshr := [], finished := [u], vm := vm);
    FinishPacketsKeep(cfg, s, [w.address], 0, false);
    LevelsOk(cfg, t);
    Refused(cfg, t, y);
    assert BeforeReads(cfg, s, y) == Advance(cfg, t, y);
  }

  lemma FirstShaped(cfg: Config, s: Ptw)
    requires AllShaped(cfg, s.mshr) && s.mshr != []
    ensures WalkShaped(cfg, s.mshr[0])
  {
  }

  lemma {:induction false} ThirdCycle(cfg: Config, s: Ptw, u: Walk, x: Request)
    requires PtwInv(cfg, s) && s.mshr == [] && s.finished == [u] && s.completed == [] && u.level == cfg.N()
    requires u.vaddr == x.vaddr
    requires cfg.maxFill >= 1 && IsVaddr(x.vaddr)
    ensures var e := Entry(x.vaddr, u.data, cfg.N());
      var y := AskAgain(cfg, s.vm, u.ready, x, e);
      && CycleOk(cfg, s, y) && cfg.Valid() && LastHit(Hits(cfg, e)) == Some(e) && EntryOk(cfg, e)
      && var t := BeforeReads(cfg, s, y);
      && t.vm == s.vm && ReadOk(cfg, t.pscl, (x, Hits(cfg, e)))
      && var r := Operate(cfg, s, y);
      && r.vm == s.vm && r.mshr != [] && r.mshr[|r.mshr| - 1] == HandleRead(cfg, t, x, Hits(cfg, e))
  {
    hide PtwInv, Advance, PsclOk, Config.Valid, VmOk, Fillable, VirtualMemory.Inv, AllShaped, HandleRead, EntryOk,
      LastHit, IsVaddr;
    var e := Entry(x.vaddr, u.data, cfg.N());
    var y := AskAgain(cfg, s.vm, u.ready, x, e);
    SameVm(cfg, s, y);
    LevelsOk(cfg, s);
    InvParts(cfg, s);
    SomeLevels(cfg);
    assert FinishPackets(cfg, s, [], y.now, y.warmup) == s;
    Fillables(cfg, s);
    Fills(cfg, s, y);
    var t := BeforeReads(cfg, s, y);
    assert t == FillOne(cfg, s);
    assert e in t.pscl[0] by { FilledHasEntry(cfg, s, e); }
    OneHits(cfg, t.pscl, x, e);
    OneRead(cfg, t, x, Hits(cfg, e));
  }

  lemma SomeLevels(cfg: Config)
    requires cfg.Valid()
    ensures 1 <= cfg.N() <= cfg.g.levels
  {
  }

  lemma Fillables(cfg: Config, s: Ptw)
    requires Fillable(cfg, s)
    ensures |s.pscl| == cfg.N() && forall i :: 0 <= i < |s.finished| ==> 1 <= s.finished[i].level <= cfg.N()
  {
  }

  lemma FilledHasEntry(cfg: Config, s: Ptw, e: Entry)
    requires |s.finished| == 1 && s.finished[0].level == cfg.N() >= 1 && |s.pscl| == cfg.N()
    requires e == Entry(s.finished[0].vaddr, s.finished[0].data, cfg.N())
    ensures e in FillOne(cfg, s).pscl[0] && FillOne(cfg, s).vm == s.vm
  {
  }

  lemma OneHits(cfg: Config, pscl: seq<seq<Entry>>, x: Request, e: Entry)
    requires cfg.Valid() && PsclOk(cfg, pscl) && IsVaddr(x.vaddr) && e.vaddr == x.vaddr && e in pscl[0]
    ensures ReadOk(cfg, pscl, (x, Hits(cfg, e))) && LastHit(Hits(cfg, e)) == Some(e) && EntryOk(cfg, e)
  {
    hide IsVaddr, Geometry.Valid, LastHit, Shr, Pow2;
    assert Hits(cfg, e)[0] == Some(e);
    var k :| 0 <= k < |pscl[0]| && pscl[0][k] == e;
  }

  // ---- the run ----

  lemma {:induction false} RunMore(cfg: Config, vm: Vm, ys: seq<Cycle>, y: Cycle)
    requires RunOk(cfg, vm, ys) && CycleOk(cfg, Run(cfg, vm, ys), y)
    ensures RunOk(cfg, vm, ys + [y]) && Run(cfg, vm, ys + [y]) == Operate(cfg, Run(cfg, vm, ys), y)
  {
    hide PtwInv, CycleOk, Operate, VirtualMemory.Inv, Config.Valid;
    assert (ys + [y])[..|ys|] == ys && (ys + [y])[|ys|] == y;
  }

  lemma RunNone(cfg: Config, vm: Vm)
    requires cfg.Valid() && VirtualMemory.Inv(cfg.g, vm)
    ensures RunOk(cfg, vm, []) && Run(cfg, vm, []) == StartPtw(cfg, vm)
  {
    hide VirtualMemory.Inv, Config.Valid, PtwInv, CycleOk;
  }

  /** The last request of the run hits in a cache, and its walk starts at an address that is not
      the entry get_pte_pa gives, although the page table has that entry. */
  ghost predicate Misreads(cfg: Config, vm: Vm, ys: seq<Cycle>, x: Request) {
    && RunOk(cfg, vm, ys) && ys != [] && |ys[|ys| - 1].requests| == 1
    && var (r, hits) := ys[|ys| - 1].requests[0];
       var s := Run(cfg, vm, ys);
       && r == x && LastHit(hits).Some?
       && s.mshr != []
       && var w := s.mshr[|s.mshr| - 1];
          && w.req == x && w.sent == 1 && LevelOk(cfg.g, w.level) && IsPage(cfg.g, PageOf(cfg, x.vaddr))
          && KeyOf(cfg.g, cfg.cpu, PageOf(cfg, x.vaddr), w.level) in s.vm.tables
          && !KnownPte(cfg, s.vm, x.vaddr, w.level, w.address)
  }

  /** What the first step of a walk finds: a new page table page in the next slot. */
  lemma {:induction false} FirstStep(cfg: Config, vm: Vm, w: Walk)
    requires cfg.Valid() && Shaped(cfg.g, vm) && WalkShaped(cfg, w) && w.level >= 1 && LevelOk(cfg.g, w.level)
    requires IsPage(cfg.g, PageOf(cfg, w.vaddr))
    requires KeyOf(cfg.g, cfg.cpu, PageOf(cfg, w.vaddr), w.level) !in vm.tables
    ensures var (r, u) := FinishWalk(cfg, vm, w, 0, false);
      var k := KeyOf(cfg.g, cfg.cpu, PageOf(cfg, w.vaddr), w.level);
      && u.vaddr == w.vaddr && u.level == w.level && k in r.tables && TableSlot(cfg.g, r.tables[k]) == vm.next
  {
    hide KeyOf, NewTable, EntryAddress, OffsetOf, Low, Shr, Pow2, PageOf, Geometry.Span, VaToPa;
    NewTableValue(cfg.g, vm.active, vm.next);
  }

  /** A first read at the highest level, when the next page table page is not the first in its
      page; then the same request again. */
  lemma {:induction false} SmallTablesMisread(cfg: Config, vm: Vm, x: Request)
    requires cfg.Valid() && Contiguous(cfg) && cfg.maxFill >= 1 && VirtualMemory.Inv(cfg.g, vm) && vm.next > 0
    requires IsVaddr(x.vaddr) && LevelOk(cfg.g, cfg.N()) && IsPage(cfg.g, PageOf(cfg, x.vaddr))
    requires KeyOf(cfg.g, cfg.cpu, PageOf(cfg, x.vaddr), cfg.N()) !in vm.tables
    ensures exists ys :: Misreads(cfg, vm, ys, x)
  {
    hide PtwInv, CycleOk, Operate, VirtualMemory.Inv, Config.Valid, Shaped, WalkShaped, FinishWalk, Contiguous, IsPage,
      PageOf,
      IsVaddr, KeyOf, LastHit, KnownPte, HandleRead, EntryOk, PsclOk, ReadOk, Hits, LevelOk, WalkInit, BeforeReads;
    var n := cfg.N();
    RunNone(cfg, vm);
    var s0 := StartPtw(cfg, vm);
    FirstCycle(cfg, s0, x);
    var y1 := Ask(cfg, vm, x);
    RunMore(cfg, vm, [], y1);
    var s1 := Operate(cfg, s0, y1);
    var w := HandleRead(cfg, s0, x, Misses(cfg));
    MissWalk(cfg, s0, x);
    SecondCycle(cfg, s1, w);
    var y2 := Return(vm, w.address);
    RunMore(cfg, vm, [] + [y1], y2);
    var s2 := Operate(cfg, s1, y2);
    var u := FinishWalk(cfg, vm, w, 0, false).1;
    FirstStep(cfg, vm, w);
    ThirdCycle(cfg, s2, u, x);
    var e := Entry(x.vaddr, u.data, n);
    var y3 := AskAgain(cfg, s2.vm, u.ready, x, e);
    RunMore(cfg, vm, [] + [y1] + [y2], y3);
    BeforeReadsOk(cfg, s2, y3);
    var t := BeforeReads(cfg, s2, y3);
    HitInits(cfg, x, Hits(cfg, e));
    HitAtItsEntry(cfg, t, x, Hits(cfg, e));
    HitFields(cfg, t, x, Hits(cfg, e));
    var ys := [] + [y1] + [y2] + [y3];
    assert Misreads(cfg, vm, ys, x);
  }

  lemma BeforeReadsOk(cfg: Config, s: Ptw, y: Cycle)
    requires PtwInv(cfg, s) && CycleOk(cfg, s, y)
    ensures VmOk(cfg, s, y) && PtwInv(cfg, BeforeReads(cfg, s, y)) && PsclOk(cfg, BeforeReads(cfg, s, y).pscl)
  {
    hide PtwInv, BeforeReads, PsclOk, ReadOk, VmOk, Config.Valid;
  }

  lemma MissWalk(cfg: Config, s: Ptw, x: Request)
    requires cfg.Valid() && IsVaddr(x.vaddr) && EntryOk(cfg, WalkInit(cfg, x, Misses(cfg)))
    ensures var w := HandleRead(cfg, s, x, Misses(cfg)); w.level == cfg.N() >= 1 && w.vaddr == x.vaddr
  {
    hide Config.Valid, IsVaddr, LastHit, StartAddress, OffsetOf, PageOf;
  }

  lemma HitInits(cfg: Config, x: Request, hits: seq<Option<Entry>>)
    requires LastHit(hits).Some?
    ensures WalkInit(cfg, x, hits) == LastHit(hits).value
  {
    hide LastHit;
  }

  // ---- a new system ----

  /** Virtual memory when a walker has been built: its constructor asks for the entry of page 0 at
      the top level. */
  function Built(g: Geometry, pool: seq<Page>, cpu: nat): Vm
    requires g.Valid() && Shaped(g, Start(pool)) && LevelOk(g, g.levels) && IsPage(g, 0)
  {
    GetPtePa(g, Start(pool), cpu, 0, g.levels, pool).0
  }

  /** So in every system whose page table pages are smaller than a page, and whose caches leave out
      the top level, as the default ones do, the first request a new walker gets is misread when it
      comes again. */
  lemma {:induction false} NewWalkersMisread(cfg: Config, pool: seq<Page>, x: Request)
    requires cfg.Valid() && Contiguous(cfg) && cfg.maxFill >= 1 && Shuffled(cfg.g, pool) && IsVaddr(x.vaddr)
    requires cfg.g.TableBits() < cfg.g.pageBits && cfg.N() < cfg.g.levels
    ensures Shaped(cfg.g, Start(pool)) && LevelOk(cfg.g, cfg.g.levels) && IsPage(cfg.g, 0)
    ensures exists ys :: Misreads(cfg, Built(cfg.g, pool, cfg.cpu), ys, x)
  {
    hide Config.Valid, Contiguous, Shuffled, IsVaddr, VirtualMemory.Inv, Shaped, GetPtePa, KeyOf, Misreads, PageOf,
      IsPage;
    var g := cfg.g;
    ValidParts(cfg);
    StartInv(g, pool);
    Memories.InvShaped(g, Start(pool));
    ZeroPage(g);
    GetPtePaKeeps(g, Start(pool), cfg.cpu, 0, g.levels, pool);
    VaddrPage(cfg, x.vaddr);
    FirstTable(g, pool, cfg.cpu, PageOf(cfg, x.vaddr), cfg.N());
    SmallTablesMisread(cfg, Built(g, pool, cfg.cpu), x);
  }

  lemma ValidParts(cfg: Config)
    requires cfg.Valid()
    ensures cfg.g.Valid() && LevelOk(cfg.g, cfg.g.levels) && LevelOk(cfg.g, cfg.N())
  {
    hide Geometry.Valid, Shuffled;
    Levels(cfg.g);
  }

  lemma Levels(g: Geometry)
    requires g.Valid()
    ensures g.levels >= 1
  {
  }

  lemma ZeroPage(g: Geometry)
    requires g.Valid()
    ensures IsPage(g, 0)
  {
    hide Geometry.Span;
  }

  /** Page 0's table is in slot 0, so the next one is not; and it is no table of another level. */
  lemma {:induction false} FirstTable(g: Geometry, pool: seq<Page>, cpu: nat, v: Page, level: nat)
    requires g.Valid() && Shaped(g, Start(pool)) && LevelOk(g, g.levels) && IsPage(g, 0)
    requires g.TableBits() < g.pageBits && level != g.levels && LevelOk(g, level) && IsPage(g, v)
    ensures var vm := Built(g, pool, cpu); vm.next > 0 && KeyOf(g, cpu, v, level) !in vm.tables
  {
    hide NewTable, EntryAddress, OffsetOf, Low, Pow2, Geometry.Span, IsPage, Pop;
    OneFits(g.SlotBits());
  }

  lemma OneFits(n: nat)
    requires n > 0
    ensures Low(1, n) == 1
  {
    Fits(1, 1, n);
  }
}
