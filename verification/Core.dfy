/** One cycle of the out-of-order core as a function of its state (src/ooo_cpu.cc: operate). */
module Core {
  import opened Sequences
  import opened Instructions
  import opened RegisterAllocation
  import opened Renaming
  import opened LoadStoreQueue
  import opened FrontEnd

  datatype Config = Config(
    ifetchSize: nat, dibSize: nat, decodeSize: nat, dispatchSize: nat, robSize: nat, sqSize: nat, lqSize: nat,
      registers: nat,
    fetchWidth: nat, decodeWidth: nat, dibWidth: nat, dispatchWidth: nat, scheduleWidth: nat, executeWidth: nat,
    lqWidth: nat, sqWidth: nat, retireWidth: nat, l1dWidth: nat,
    decodeLatency: nat, dibLatency: nat, dispatchLatency: nat, scheduleLatency: nat, executeLatency: nat,
    blockSize: nat)
  {
    ghost predicate Valid() { registers <= 256 && blockSize > 0 }
  }

  /** `retired` is a model-only log; the source keeps its length, num_retired. `readWarm` is
      model-only too: for each instruction read from the input queue so far, whether that was
      during warmup. */
  datatype State = State(
    input: seq<Instr>, ifetch: seq<Instr>, dibHit: seq<Instr>, decode: seq<Instr>, dispatch: seq<Instr>,
    rob: seq<Instr>, retired: seq<Instr>, mem: Mem, ra: Alloc, readWarm: seq<bool>)

  /** What the environment decides in one cycle: the time and phase, and the answers of
      the trace reader, the branch predictor, the decoded instruction buffer and the caches. */
  datatype Cycle = Cycle(
    now: int, warmup: bool, arrivals: seq<Instr>, mayFetch: bool, stops: nat -> bool,
    dibHits: nat -> bool, fetchIssued: nat -> bool, fetchReturned: nat -> bool,
    blocks: seq<nat>, storeAccepts: nat, loadAccepts: nat -> bool)

  function Delay(warmup: bool, latency: nat): nat {
    if warmup then 0 else latency
  }

  // ---- retire_rob ----

  function RetireAll(a: Alloc, s: seq<Instr>): Alloc
    decreases |s|
  {
    if s == [] then a else RetireAll(RetireDests(a, s[0].dst), s[1..])
  }

  function Retire(cfg: Config, s: State): State {
    var k := SpanLen(s.rob, cfg.retireWidth, (x: Instr) => x.completed);
    s.(ra := RetireAll(s.ra, s.rob[..k]), retired := s.retired + s.rob[..k], rob := s.rob[k..])
  }

  // ---- complete_inflight_instruction ----

  predicate CanComplete(x: Instr, now: int) {
    x.executed && !x.completed && x.ready <= now && x.memDone == x.MemOps()
  }

  function CompleteFrom(rob: seq<Instr>, a: Alloc, i: nat, bw: nat, now: int): (res: (seq<Instr>, Alloc))
    requires i <= |rob|
    ensures |res.0| == |rob|
    decreases |rob| - i
  {
    if i == |rob| || bw == 0 then (rob, a)
    else if CanComplete(rob[i], now)
    then CompleteFrom(rob[i := rob[i].(completed := true)], CompleteDests(a, rob[i].dst), i + 1, bw - 1, now)
    else CompleteFrom(rob, a, i + 1, bw, now)
  }

  // ---- execute_instruction ----

  predicate SourcesValid(a: Alloc, x: Instr) {
    forall k :: 0 <= k < |x.src| ==> IsValid(a, x.src[k])
  }

  predicate CanExecute(a: Alloc, x: Instr, now: int) {
    x.scheduled && !x.executed && x.ready <= now && SourcesValid(a, x)
  }

  function ExecuteFrom(rob: seq<Instr>, m: Mem, a: Alloc, i: nat, bw: nat, now: int, at: int): (res: (seq<Instr>, Mem))
    requires i <= |rob|
    ensures |res.0| == |rob|
    decreases |rob| - i
  {
    if i == |rob| || bw == 0 then (rob, m)
    else if CanExecute(a, rob[i], now)
    then ExecuteFrom(rob[i := rob[i].(executed := true, ready := at)], MarkReady(m, rob[i].id, at), a, i
      + 1, bw - 1, now, at)
    else ExecuteFrom(rob, m, a, i + 1, bw, now, at)
  }

  // ---- schedule_instruction ----

  /** The guard asks for the names the next entry needs; for an entry that is already
      renamed it looks up physical names in the alias table, as the source does. */
  predicate EnoughNames(a: Alloc, x: Instr) {
    Unallocated(a, x.src) + |x.dst| <= |a.free|
  }

  function ScheduleFrom(rob: seq<Instr>, a: Alloc, i: nat, bw: nat, now: int): (res: (seq<Instr>, Alloc))
    requires i <= |rob|
    ensures |res.0| == |rob|
    decreases |rob| - i
  {
    if i == |rob| || bw == 0 || !EnoughNames(a, rob[i]) then (rob, a)
    else
      var next := bw - (if rob[i].executed then 0 else 1);
      if !rob[i].scheduled && rob[i].ready <= now then
        var (b, x) := ScheduleInstr(a, rob[i]);
        ScheduleFrom(rob[i := x], b, i + 1, next, now)
      else ScheduleFrom(rob, a, i + 1, next, now)
  }

  // ---- dispatch_instruction ----

  predicate CanDispatch(cfg: Config, s: State, now: int) {
    && s.dispatch != [] && s.dispatch[0].ready <= now && |s.rob| != cfg.robSize
    && FreeSlots(s.mem.lq) >= |s.dispatch[0].srcMem|
    && |s.dispatch[0].dstMem| + |s.mem.sq| <= cfg.sqSize
  }

  function DispatchOne(cfg: Config, s: State, now: int, warmup: bool): State
    requires CanDispatch(cfg, s, now)
  {
    var t := s.rob + [s.dispatch[0]];
    var (r, m) := MemorySchedule(t, s.mem);
    var n := |s.rob|;
    s.(rob := if n < |r| then r[n := r[n].(ready := now + Delay(warmup, cfg.scheduleLatency))] else r,
       mem := m, dispatch := s.dispatch[1..])
  }

  function Dispatch(cfg: Config, s: State, bw: nat, now: int, warmup: bool): State
    decreases bw
  {
    if bw == 0 || !CanDispatch(cfg, s, now) then s
    else Dispatch(cfg, DispatchOne(cfg, s, now, warmup), bw - 1, now, warmup)
  }

  // ---- decode_instruction, promote_to_decode ----

  /** The free places of a buffer. */
  function Room(size: nat, used: nat): nat {
    if used <= size then size - used else 0
  }

  function Decode(cfg: Config, s: State, now: int, warmup: bool): State {
    var at := now + Delay(warmup, cfg.dispatchLatency);
    var c := DecodeSpan(s.dibHit, s.decode, Min(cfg.dibWidth, Room(cfg.dispatchSize, |s.dispatch|)), cfg.decodeWidth,
      now);
    s.(dispatch := s.dispatch + MergeById(ReadyAt(s.dibHit[..c.dib], at), ReadyAt(s.decode[..c.dec], at)),
       dibHit := s.dibHit[c.dib..], decode := s.decode[c.dec..])
  }

  function Promote(cfg: Config, s: State, now: int, warmup: bool): State {
    var bw := Min(cfg.fetchWidth, Min(Room(cfg.dibSize, |s.dibHit|), Room(cfg.decodeSize, |s.decode|)));
    var n := PromoteLen(s.ifetch, bw, now);
    s.(dibHit := s.dibHit + ReadyAt(Filter(s.ifetch[..n], true), now + cfg.dibLatency),
       decode := s.decode + ReadyAt(Filter(s.ifetch[..n], false), now + Delay(warmup, cfg.decodeLatency)),
       ifetch := s.ifetch[n..])
  }

  // ---- operate ----

  function Complete(cfg: Config, s: State, now: int): State {
    var (r, a) := CompleteFrom(s.rob, s.ra, 0, cfg.executeWidth, now);
    s.(rob := r, ra := a)
  }

  function Execute(cfg: Config, s: State, now: int, warmup: bool): State {
    var (r, m) := ExecuteFrom(s.rob, s.mem, s.ra, 0, cfg.executeWidth, now, now + Delay(warmup, cfg.executeLatency));
    s.(rob := r, mem := m)
  }

  function Schedule(cfg: Config, s: State, now: int): State {
    var (r, a) := ScheduleFrom(s.rob, s.ra, 0, cfg.scheduleWidth, now);
    s.(rob := r, ra := a)
  }

  function MemoryReturn(cfg: Config, s: State, y: Cycle): State
    requires cfg.Valid()
  {
    var (r, lq) := ReturnBlocks(s.rob, s.mem.lq, y.blocks[..Min(|y.blocks|, cfg.l1dWidth)], cfg.blockSize);
    s.(ifetch := FetchReturn(s.ifetch, y.fetchReturned), rob := r, mem := s.mem.(lq := lq))
  }

  function Lsq(cfg: Config, s: State, y: Cycle): State {
    var (r, m) := OperateLsq(s.rob, s.mem, y.now, cfg.sqWidth, cfg.lqWidth, y.storeAccepts, y.loadAccepts);
    s.(rob := r, mem := m)
  }

  function Fetch(cfg: Config, s: State, y: Cycle): State {
    var s1 := s.(ifetch := CheckDib(FetchIssue(s.ifetch, y.fetchIssued), cfg.fetchWidth, y.dibHits, y.now));
    var bw := if y.mayFetch then Min(cfg.fetchWidth, Room(cfg.ifetchSize, |s1.ifetch|)) else 0;
    var (q, f) := InitFrom(s1.input, s1.ifetch, bw, y.stops, 0, y.now, y.warmup);
    s1.(input := q, ifetch := f, readWarm := s1.readWarm + Repeat(y.warmup, |s1.input| - |q|))
  }

  /** The back half of a cycle, in the source's order: oldest pipeline stages first. */
  function BackEnd(cfg: Config, s: State, y: Cycle): State
    requires cfg.Valid()
  {
    var s1 := Schedule(cfg, Execute(cfg, Complete(cfg, Retire(cfg, s), y.now), y.now, y.warmup), y.now);
    Lsq(cfg, MemoryReturn(cfg, s1, y), y)
  }

  function Operate(cfg: Config, s: State, y: Cycle): State
    requires cfg.Valid()
  {
    var s1 := BackEnd(cfg, s.(input := s.input + y.arrivals), y);
    var s2 := Dispatch(cfg, s1, cfg.dispatchWidth, y.now, y.warmup);
    Fetch(cfg, Promote(cfg, Decode(cfg, s2, y.now, y.warmup), y.now, y.warmup), y)
  }
}
