/** The page table walker as a function of its state (src/ptw.cc). */
module PageTableWalker {
  import opened Sequences
  import opened Bits
  import opened AddressSlices
  import opened VirtualMemory
  import opened VirtualMemoryRuns

  /** A request from an upper level. */
  datatype Request = Request(vaddr: nat, deps: seq<nat>, ret: seq<nat>)

  /** A paging-structure cache entry. */
  datatype Entry = Entry(vaddr: nat, ptwAddr: nat, level: nat)

  /** `shuffle(k)` is the pool the k-th exhaustion would leave. `psclLevels` are the levels the
      paging-structure caches serve, highest first. */
  datatype Config = Config(g: Geometry, cpu: nat, blockBits: nat, psclLevels: seq<nat>, cr3: nat,
                           maxFill: nat, hitLatency: nat, minorPenalty: nat, shuffle: nat -> seq<Page>)
  {
    function N(): nat { |psclLevels| }

    ghost predicate Valid() {
      && g.Valid() && 1 <= N() <= g.levels && cr3 < Pow2(64)
      && (forall i :: 0 <= i < N() ==> 1 <= psclLevels[i] <= g.levels)
      && (forall k :: Shuffled(g, shuffle(k)))
    }
  }

  /** When a step's read came back, whether that was during warmup, and whether the step created
      the entry or frame it needed. */
  datatype Return = Return(at: int, warm: bool, created: bool)

  /** A walk in progress. `token`, `start`, `sent` and `back` are model-only: which request it
      serves, the level it started at, how many reads it has sent, and how the last one to
      return did. */
  datatype Walk = Walk(token: nat, vaddr: nat, address: nat, level: nat, data: nat, ready: int, req: Request,
      start: nat, sent: nat, back: Option<Return>)

  /** `pscl` holds everything ever filled into each paging-structure cache: a hit may give any
      of it, whatever the replacement does. `answers` is a model-only log. */
  datatype Ptw = Ptw(mshr: seq<Walk>, finished: seq<Walk>, completed: seq<Walk>, answers: seq<Walk>,
      pscl: seq<seq<Entry>>, vm: Vm, accepted: nat)

  function PageOf(cfg: Config, vaddr: nat): Page { Shr(vaddr, cfg.g.pageBits) }

  ghost predicate IsVaddr(vaddr: nat) { vaddr < Pow2(64) }

  lemma VaddrPage(cfg: Config, vaddr: nat)
    requires cfg.g.Valid() && IsVaddr(vaddr)
    ensures IsPage(cfg.g, PageOf(cfg, vaddr))
  {
    ShrBound(vaddr, 64, cfg.g.pageBits);
  }

  // ---- handle_read ----

  /** The last cache that hits decides. */
  function LastHit(hits: seq<Option<Entry>>): (e: Option<Entry>)
    ensures e.Some? ==> exists i :: 0 <= i < |hits| && hits[i] == e
    ensures e.None? ==> forall i :: 0 <= i < |hits| ==> hits[i].None?
  {
    if hits == [] then None
    else
      var n := |hits| - 1;
      if hits[n].Some? then hits[n] else LastHit(hits[..n])
  }

  /** splice(page_number{ptw_addr}, page_offset{walk_offset}). */
  function StartAddress(g: Geometry, ptwAddr: nat, offset: nat): nat
    requires g.Valid() && ptwAddr < Pow2(64) && offset < Pow2(g.entryBits)
  {
    hide Pow2, Shl, Shr, Low, Geometry.Span, Geometry.Frames;
    OffsetFits(g, offset);
    ShrBound(ptwAddr, 64, g.pageBits);
    Splice(PageNumber(g, Shr(ptwAddr, g.pageBits)), Slice(Extent(g.pageBits, 0), Shl(offset, 3))).value
  }

  lemma OffsetFits(g: Geometry, offset: nat)
    requires g.Valid() && offset < Pow2(g.entryBits)
    ensures Shl(offset, 3) < Pow2(g.pageBits)
  {
    JoinBound(0, offset, 3, g.entryBits);
    Pow2Grows(3 + g.entryBits, g.pageBits);
  }

  lemma StartAddressValue(g: Geometry, ptwAddr: nat, offset: nat)
    requires g.Valid() && ptwAddr < Pow2(64) && offset < Pow2(g.entryBits)
    ensures StartAddress(g, ptwAddr, offset) == Shl(offset, 3) + Shl(Shr(ptwAddr, g.pageBits), g.pageBits)
  {
    hide Pow2, Shl, Shr, Low, Geometry.Span, Geometry.Frames;
    OffsetFits(g, offset);
    ShrBound(ptwAddr, 64, g.pageBits);
    SpliceBelow(PageNumber(g, Shr(ptwAddr, g.pageBits)), Slice(Extent(g.pageBits, 0), Shl(offset, 3)));
  }

  ghost predicate EntryOk(cfg: Config, e: Entry) {
    1 <= e.level <= cfg.N() && e.ptwAddr < Pow2(64)
  }

  /** Where a walk starts, given what the caches answered. */
  function WalkInit(cfg: Config, x: Request, hits: seq<Option<Entry>>): Entry {
    var e := LastHit(hits);
    if e.Some? then e.value else Entry(x.vaddr, cfg.cr3, cfg.N())
  }

  /** handle_read, when the lower level takes the read. */
  function HandleRead(cfg: Config, s: Ptw, x: Request, hits: seq<Option<Entry>>): Walk
    requires cfg.Valid() && IsVaddr(x.vaddr) && EntryOk(cfg, WalkInit(cfg, x, hits))
  {
    VaddrPage(cfg, x.vaddr);
    var e := WalkInit(cfg, x, hits);
    Walk(s.accepted, x.vaddr, StartAddress(cfg.g, e.ptwAddr, OffsetOf(cfg.g, PageOf(cfg, x.vaddr), e.level)), e.level,
      0, 0, x, e.level, 1, None)
  }

  // ---- finish_packet ----

  ghost predicate WalkShaped(cfg: Config, w: Walk) {
    IsVaddr(w.vaddr) && w.level <= cfg.N()
  }

  /** The data of a finished step: a page table entry's address, or at the last level the
      frame of the page. */
  function FinishWalk(cfg: Config, vm: Vm, w: Walk, now: int, warmup: bool): (Vm, Walk)
    requires cfg.Valid() && Shaped(cfg.g, vm) && WalkShaped(cfg, w)
  {
    VaddrPage(cfg, w.vaddr);
    var p := PageOf(cfg, w.vaddr);
    var refill := cfg.shuffle(vm.refills);
    if w.level == 0 then
      var (r, page, fault) := VaToPa(vm, cfg.cpu, p, refill);
      (r, w.(data := Shl(page, cfg.g.pageBits), ready := Ready(cfg, fault, now, warmup),
        back := Some(Return(now, warmup, (cfg.cpu, p) !in vm.frames))))
    else
      var (r, a, fault) := GetPtePa(cfg.g, vm, cfg.cpu, p, w.level, refill);
      (r, w.(data := a, ready := Ready(cfg, fault, now, warmup),
        back := Some(Return(now, warmup, KeyOf(cfg.g, cfg.cpu, p, w.level) !in vm.tables))))
  }

  function Ready(cfg: Config, fault: bool, now: int, warmup: bool): int {
    now + (if fault then cfg.minorPenalty else 0) + (if warmup then 0 else cfg.hitLatency)
  }

  function Matches(cfg: Config, w: Walk, block: nat): bool {
    Shr(w.address, cfg.blockBits) == block
  }

  /** The walks of a block, or the others, in order. */
  function Select(cfg: Config, s: seq<Walk>, block: nat, want: bool): (r: seq<Walk>)
    ensures forall w :: w in r ==> w in s && Matches(cfg, w, block) == want
  {
    if s == [] then []
    else (if Matches(cfg, s[0], block) == want then [s[0]] else []) + Select(cfg, s[1..], block, want)
  }

  ghost predicate AllShaped(cfg: Config, s: seq<Walk>) {
    forall i :: 0 <= i < |s| ==> WalkShaped(cfg, s[i])
  }

  lemma {:induction false} SelectShaped(cfg: Config, s: seq<Walk>, block: nat, want: bool)
    requires AllShaped(cfg, s)
    ensures AllShaped(cfg, Select(cfg, s, block, want))
  {
    var r := Select(cfg, s, block, want);
    forall i | 0 <= i < |r| ensures WalkShaped(cfg, r[i]) { assert r[i] in r; }
  }

  /** Finish each walk of `ws`: those at the last level complete. */
  function FinishWalks(cfg: Config, s: Ptw, ws: seq<Walk>, now: int, warmup: bool): (r: Ptw)
    requires cfg.Valid() && Inv(cfg.g, s.vm) && AllShaped(cfg, ws)
    ensures Inv(cfg.g, r.vm)
    decreases |ws|
  {
    if ws == [] then s
    else
      InvShaped(cfg.g, s.vm);
      var (vm, w) := FinishWalk(cfg, s.vm, ws[0], now, warmup);
      FinishWalkKeeps(cfg, s.vm, ws[0], now, warmup);
      var t := if w.level == 0 then s.(vm := vm, completed := s.completed + [w])
        else s.(vm := vm, finished := s.finished + [w]);
      FinishWalks(cfg, t, ws[1..], now, warmup)
  }

  lemma {:induction false} FinishWalkKeeps(cfg: Config, vm: Vm, w: Walk, now: int, warmup: bool)
    requires cfg.Valid() && Inv(cfg.g, vm) && Shaped(cfg.g, vm) && WalkShaped(cfg, w)
    ensures Inv(cfg.g, FinishWalk(cfg, vm, w, now, warmup).0)
  {
    VaddrPage(cfg, w.vaddr);
    var refill := cfg.shuffle(vm.refills);
    hide Inv, Shuffled, VaToPa, GetPtePa, IsPage;
    if w.level == 0 {
      VaToPaKeeps(cfg.g, vm, cfg.cpu, PageOf(cfg, w.vaddr), refill);
    } else {
      GetPtePaKeeps(cfg.g, vm, cfg.cpu, PageOf(cfg, w.vaddr), w.level, refill);
    }
  }

  function FinishPacket(cfg: Config, s: Ptw, address: nat, now: int, warmup: bool): (r: Ptw)
    requires cfg.Valid() && Inv(cfg.g, s.vm) && AllShaped(cfg, s.mshr)
    ensures Inv(cfg.g, r.vm)
  {
    var block := Shr(address, cfg.blockBits);
    SelectShaped(cfg, s.mshr, block, true);
    FinishWalks(cfg, s.(mshr := Select(cfg, s.mshr, block, false)), Select(cfg, s.mshr, block, true), now, warmup)
  }

  // ---- handle_fill ----

  /** The index of the paging-structure cache that a finished step fills. */
  function PsclIndex(cfg: Config, level: nat): (i: nat)
    requires 1 <= level <= cfg.N()
    ensures i < cfg.N()
  {
    cfg.N() - level
  }

  function FillPscl(cfg: Config, s: Ptw, w: Walk): Ptw
    requires 1 <= w.level <= cfg.N() && |s.pscl| == cfg.N()
  {
    var i := PsclIndex(cfg, w.level);
    s.(pscl := s.pscl[i := s.pscl[i] + [Entry(w.vaddr, w.data, w.level)]])
  }

  /** The next step of a finished walk. */
  function NextStep(w: Walk): Walk
    requires w.level >= 1
  {
    w.(address := w.data, level := w.level - 1, sent := w.sent + 1)
  }

  /** The first finished walk goes on to its next step. */
  function FillOne(cfg: Config, s: Ptw): (r: Ptw)
    requires s.finished != [] && 1 <= s.finished[0].level <= cfg.N() && |s.pscl| == cfg.N()
    ensures |r.pscl| == cfg.N() && r.finished == s.finished[1..]
  {
    FillPscl(cfg, s, s.finished[0]).(finished := s.finished[1..], mshr := s.mshr + [NextStep(s.finished[0])])
  }

  /** Fill from the first `n` finished walks, until the lower level refuses a read. */
  function FillFrom(cfg: Config, s: Ptw, n: nat, accepts: nat -> bool, k: nat): (r: Ptw)
    requires n <= |s.finished| && |s.pscl| == cfg.N()
    requires forall i :: 0 <= i < n ==> 1 <= s.finished[i].level <= cfg.N()
    ensures |r.pscl| == cfg.N()
    decreases n
  {
    if n == 0 then s
    else
      if accepts(k) then FillFrom(cfg, FillOne(cfg, s), n - 1, accepts, k + 1)
      else FillPscl(cfg, s, s.finished[0])
  }

  // ---- operate ----

  /** What the environment decides in one cycle: virtual memory as its other users left it, the
      blocks the lower level returns, whether it takes each read, and the requests the
      walker accepts, with its caches' answers. */
  datatype Cycle = Cycle(vm: Vm, now: int, warmup: bool, returned: seq<nat>, accepts: nat -> bool,
      requests: seq<(Request, seq<Option<Entry>>)>)

  function FinishPackets(cfg: Config, s: Ptw, addresses: seq<nat>, now: int, warmup: bool): (r: Ptw)
    requires cfg.Valid() && Inv(cfg.g, s.vm) && AllShaped(cfg, s.mshr)
    ensures Inv(cfg.g, r.vm)
    decreases |addresses|
  {
    if addresses == [] then s
    else
      FinishKeepsMshr(cfg, s, addresses[0], now, warmup);
      FinishPackets(cfg, FinishPacket(cfg, s, addresses[0], now, warmup), addresses[1..], now, warmup)
  }

  lemma {:induction false} FinishWalksMshr(cfg: Config, s: Ptw, ws: seq<Walk>, now: int, warmup: bool)
    requires cfg.Valid() && Inv(cfg.g, s.vm) && AllShaped(cfg, ws)
    ensures var r := FinishWalks(cfg, s, ws, now, warmup);
      r.mshr == s.mshr && r.pscl == s.pscl && r.answers == s.answers && r.accepted == s.accepted
    decreases |ws|
  {
    if ws != [] {
      InvShaped(cfg.g, s.vm);
      var (vm, w) := FinishWalk(cfg, s.vm, ws[0], now, warmup);
      FinishWalkKeeps(cfg, s.vm, ws[0], now, warmup);
      hide Inv, FinishWalk, Config.Valid, WalkShaped;
      var t := if w.level == 0 then s.(vm := vm, completed := s.completed + [w])
        else s.(vm := vm, finished := s.finished + [w]);
      FinishWalksMshr(cfg, t, ws[1..], now, warmup);
    }
  }

  lemma {:induction false} FinishKeepsMshr(cfg: Config, s: Ptw, address: nat, now: int, warmup: bool)
    requires cfg.Valid() && Inv(cfg.g, s.vm) && AllShaped(cfg, s.mshr)
    ensures AllShaped(cfg, FinishPacket(cfg, s, address, now, warmup).mshr)
  {
    var block := Shr(address, cfg.blockBits);
    SelectShaped(cfg, s.mshr, block, true);
    SelectShaped(cfg, s.mshr, block, false);
    hide Inv, AllShaped, Config.Valid;
    FinishWalksMshr(cfg, s.(mshr := Select(cfg, s.mshr, block, false)), Select(cfg, s.mshr, block, true), now, warmup);
  }

  ghost predicate Fillable(cfg: Config, s: Ptw) {
    |s.pscl| == cfg.N() && forall i :: 0 <= i < |s.finished| ==> 1 <= s.finished[i].level <= cfg.N()
  }

  function IsReady(w: Walk, now: int): bool { w.ready <= now }

  function Complete(s: Ptw, c: nat): Ptw
    requires c <= |s.completed|
  {
    s.(answers := s.answers + s.completed[..c], completed := s.completed[c..])
  }

  function Accept(cfg: Config, s: Ptw, x: Request, hits: seq<Option<Entry>>): Ptw
    requires cfg.Valid() && IsVaddr(x.vaddr) && EntryOk(cfg, WalkInit(cfg, x, hits))
  {
    s.(mshr := s.mshr + [HandleRead(cfg, s, x, hits)], accepted := s.accepted + 1)
  }

  /** The completed and finished steps of operate. */
  function Advance(cfg: Config, s: Ptw, y: Cycle): (r: Ptw)
    requires Fillable(cfg, s)
    ensures |r.pscl| == cfg.N()
  {
    var c := SpanLen(s.completed, cfg.maxFill, (w: Walk) => IsReady(w, y.now));
    var t := Complete(s, c);
    var n := SpanLen(s.finished, cfg.maxFill - c, (w: Walk) => IsReady(w, y.now));
    FillFrom(cfg, t, n, y.accepts, 0)
  }

  /** What a hit may give: something filled into that cache for the same prefix. */
  ghost predicate HitOk(cfg: Config, pscl: seq<seq<Entry>>, x: Request, i: nat, h: Option<Entry>)
    requires cfg.Valid() && i < cfg.N() && |pscl| == cfg.N()
  {
    h.Some? ==>
      var n := cfg.g.Shamt(cfg.psclLevels[i]);
      h.value in pscl[i] && Shr(h.value.vaddr, n) == Shr(x.vaddr, n)
  }

  ghost predicate ReadOk(cfg: Config, pscl: seq<seq<Entry>>, r: (Request, seq<Option<Entry>>))
    requires cfg.Valid() && |pscl| == cfg.N()
  {
    && IsVaddr(r.0.vaddr) && |r.1| == cfg.N()
    && forall i :: 0 <= i < cfg.N() ==> HitOk(cfg, pscl, r.0, i, r.1[i])
  }

  /** Entries of cache `i` are of level N - i. */
  ghost predicate PsclOk(cfg: Config, pscl: seq<seq<Entry>>) {
    |pscl| == cfg.N() && forall i, k :: 0 <= i < |pscl| && 0 <= k < |pscl[i]| ==>
      pscl[i][k].level == cfg.N() - i && pscl[i][k].ptwAddr < Pow2(64)
  }

  lemma {:induction false} WalkInitOk(cfg: Config, pscl: seq<seq<Entry>>, x: Request, hits: seq<Option<Entry>>)
    requires cfg.Valid() && PsclOk(cfg, pscl) && ReadOk(cfg, pscl, (x, hits))
    ensures EntryOk(cfg, WalkInit(cfg, x, hits))
  {
    var e := LastHit(hits);
    if e.Some? {
      var i :| 0 <= i < |hits| && hits[i] == e;
      assert HitOk(cfg, pscl, x, i, hits[i]);
      var k :| 0 <= k < |pscl[i]| && pscl[i][k] == e.value;
    }
  }

  /** The accepted reads of operate. */
  function ReadAll(cfg: Config, s: Ptw, rs: seq<(Request, seq<Option<Entry>>)>): (r: Ptw)
    requires cfg.Valid() && PsclOk(cfg, s.pscl) && forall i :: 0 <= i < |rs| ==> ReadOk(cfg, s.pscl, rs[i])
    decreases |rs|
  {
    if rs == [] then s
    else
      assert ReadOk(cfg, s.pscl, rs[0]);
      WalkInitOk(cfg, s.pscl, rs[0].0, rs[0].1);
      ReadAll(cfg, Accept(cfg, s, rs[0].0, rs[0].1), rs[1..])
  }
}
