/** One DRAM channel as a function of its state (src/dram_controller.cc: DRAM_CHANNEL,
    MEMORY_CONTROLLER::add_rq and add_wq). */
module DramChannel {
  import opened Sequences
  import opened SortedLists
  import opened Responses
  import opened Bits
  import opened DramAddress

  datatype Timing = Timing(tRP: nat, tRCD: nat, tCAS: nat, tREF: nat, tRFC: nat, turnAround: nat, returnTime: nat,
      stall: nat)

  datatype Config = Config(g: Geometry, wqSize: nat, rqSize: nat, t: Timing)
  {
    ghost predicate Valid() { g.Valid() && wqSize > 0 && rqSize > 0 }
  }

  /** `ready` is None for the source's time_point::max(). `tokens` is model-only:
      the accepted reads this entry stands for. */
  datatype Request = Request(address: nat, ready: Option<int>, scheduled: bool, checked: bool, deps: seq<nat>,
      ret: seq<nat>, tokens: seq<nat>)

  type Queue = seq<Option<Request>>

  /** An iterator into one of the two queues. */
  datatype Slot = Slot(write: bool, index: nat)

  /** A bank takes a packet: when, for which address, and which row the bank held then. */
  datatype Access = Access(at: int, address: nat, before: Option<nat>)

  /** `refreshed`, `refreshes`, `last` and `served` are model-only: when the bank last began a
      refresh, how many it has begun, the last packet it took, and how many it has taken. */
  datatype Bank = Bank(valid: bool, rowHit: bool, needRefresh: bool, underRefresh: bool, openRow: Option<nat>,
      ready: int, pkt: Slot, refreshed: Option<int>, refreshes: nat, last: Option<Access>,
      served: nat)

  datatype Bus = Bus(active: Option<nat>, writeMode: bool, available: int, bgReady: seq<int>, lastRefresh: int)

  /** One use of the data bus, and the access of the bank that it ends. */
  datatype Transfer = Transfer(issued: int, start: int, end: int, write: bool, bankgroup: nat, address: nat,
      access: Option<Access>)

  /** `answers` and `transfers` are model-only logs. */
  datatype Chan = Chan(wq: Queue, rq: Queue, banks: seq<Bank>, bus: Bus, answers: seq<Answer>, transfers: seq<Transfer>)

  // ---- addresses ----

  function Block(cfg: Config, a: nat): nat {
    Shr(a, cfg.g.offset)
  }

  function BankOf(cfg: Config, a: nat): (b: nat)
    requires cfg.Valid()
    ensures b < Banks(cfg.g)
  {
    LocateInRange(cfg.g, a);
    BankIndexIsInjective(cfg.g, Locate(cfg.g, a), Locate(cfg.g, a));
    BankIndex(cfg.g, Locate(cfg.g, a))
  }

  function Bankgroups(g: Geometry): nat { Pow2(g.rank) * Pow2(g.bankgroup) }

  function BankgroupOf(cfg: Config, a: nat): (b: nat)
    requires cfg.Valid()
    ensures b < Bankgroups(cfg.g)
  {
    LocateInRange(cfg.g, a);
    BankgroupInRange(cfg.g, Locate(cfg.g, a));
    BankgroupIndex(cfg.g, Locate(cfg.g, a))
  }

  // ---- collision checks ----

  /** Where std::find_if over slots lo..hi finds the block of `a`; `hi` if nowhere. */
  function FindBlock(cfg: Config, q: Queue, lo: nat, hi: nat, a: nat): (k: nat)
    requires lo <= hi <= |q|
    ensures lo <= k <= hi
    ensures k < hi ==> q[k].Some? && Block(cfg, q[k].value.address) == Block(cfg, a)
    ensures forall j :: lo <= j < k && q[j].Some? ==> Block(cfg, q[j].value.address) != Block(cfg, a)
    decreases hi - lo
  {
    if lo == hi then hi
    else if q[lo].Some? && Block(cfg, q[lo].value.address) == Block(cfg, a) then lo
    else FindBlock(cfg, q, lo + 1, hi, a)
  }

  /** Another slot with the block of slot `i`, looked for before it and then after it;
      |q| if there is none. */
  function FindOther(cfg: Config, q: Queue, i: nat, a: nat): (k: nat)
    requires i < |q|
    ensures k <= |q|
    ensures k < |q| ==> k != i && q[k].Some? && Block(cfg, q[k].value.address) == Block(cfg, a)
    ensures k == |q| ==> forall j :: 0 <= j < |q| && j != i && q[j].Some? ==>
      Block(cfg, q[j].value.address) != Block(cfg, a)
  {
    var k := FindBlock(cfg, q, 0, i, a);
    if k == i then FindBlock(cfg, q, i + 1, |q|, a) else k
  }

  predicate Unchecked(x: Option<Request>) {
    x.Some? && !x.value.checked
  }

  /** check_write_collision. */
  function CheckWrites(cfg: Config, wq: Queue, i: nat): (r: Queue)
    requires i <= |wq|
    ensures |r| == |wq|
    decreases |wq| - i
  {
    if i == |wq| then wq
    else if Unchecked(wq[i]) then
      CheckWrites(cfg, wq[i := if FindOther(cfg, wq, i, wq[i].value.address) < |wq| then None
        else Some(wq[i].value.(checked := true))], i + 1)
    else CheckWrites(cfg, wq, i + 1)
  }

  function AnswerTo(x: Request): Answer {
    Answer(x.address, x.address, x.deps, x.ret, x.tokens)
  }

  function MergeRead(into: Request, x: Request): Request {
    into.(deps := SetUnion(into.deps, x.deps), ret := SetUnion(into.ret, x.ret), tokens := into.tokens + x.tokens)
  }

  /** One entry of check_read_collision. */
  function CheckRead(cfg: Config, wq: Queue, rq: Queue, answers: seq<Answer>, i: nat): (res: (Queue, seq<Answer>))
    requires i < |rq| && Unchecked(rq[i])
    ensures |res.0| == |rq|
  {
    var x := rq[i].value;
    if FindBlock(cfg, wq, 0, |wq|, x.address) < |wq| then (rq[i := None], answers + [AnswerTo(x)])
    else
      var k := FindOther(cfg, rq, i, x.address);
      if k < |rq| then (rq[k := Some(MergeRead(rq[k].value, x))][i := None], answers)
      else (rq[i := Some(x.(checked := true))], answers)
  }

  /** check_read_collision. */
  function CheckReads(cfg: Config, wq: Queue, rq: Queue, answers: seq<Answer>, i: nat): (res: (Queue, seq<Answer>))
    requires i <= |rq|
    ensures |res.0| == |rq|
    decreases |rq| - i
  {
    if i == |rq| then (rq, answers)
    else if Unchecked(rq[i]) then
      var (q, a) := CheckRead(cfg, wq, rq, answers, i);
      CheckReads(cfg, wq, q, a, i + 1)
    else CheckReads(cfg, wq, rq, answers, i + 1)
  }

  function CheckCollisions(cfg: Config, s: Chan): Chan {
    var wq := CheckWrites(cfg, s.wq, 0);
    var (rq, answers) := CheckReads(cfg, wq, s.rq, s.answers, 0);
    s.(wq := wq, rq := rq, answers := answers)
  }

  // ---- the packet behind an iterator ----

  function At(wq: Queue, rq: Queue, p: Slot): Option<Request> {
    var q := if p.write then wq else rq;
    if p.index < |q| then q[p.index] else None
  }

  function SetAt(s: Chan, p: Slot, x: Option<Request>): (r: Chan)
    ensures |r.wq| == |s.wq| && |r.rq| == |s.rq|
    ensures r == s.(wq := r.wq, rq := r.rq)
    ensures forall p' :: At(r.wq, r.rq, p') == if p' == p && p.index < |if p.write then s.wq else s.rq| then x
      else At(s.wq, s.rq, p')
  {
    if p.write then (if p.index < |s.wq| then s.(wq := s.wq[p.index := x]) else s)
    else (if p.index < |s.rq| then s.(rq := s.rq[p.index := x]) else s)
  }

  // ---- finish_dbus_request ----

  predicate BusDone(s: Chan, now: int) {
    s.bus.active.Some? && s.bus.active.value < |s.banks| && s.banks[s.bus.active.value].ready <= now
  }

  function FinishDbus(s: Chan, now: int): Chan {
    if BusDone(s, now) then
      var b := s.bus.active.value;
      var p := s.banks[b].pkt;
      var x := At(s.wq, s.rq, p);
      SetAt(s, p, None).(
        banks := s.banks[b := s.banks[b].(valid := false)],
        bus := s.bus.(active := None),
        answers := if x.Some? then s.answers + [AnswerTo(x.value)] else s.answers)
    else s
  }

  // ---- swap_write_mode ----

  function Occupancy(q: Queue): nat {
    CountIf(q, (x: Option<Request>) => x.Some?)
  }

  predicate ShouldSwap(s: Chan) {
    var high, low := |s.wq| * 7 / 8, |s.wq| * 6 / 8;
    var w, r := Occupancy(s.wq), Occupancy(s.rq);
    || (!s.bus.writeMode && (w >= high || (r == 0 && w > 0)))
    || (s.bus.writeMode && (w == 0 || (r > 0 && w < low)))
  }

  /** Take bank `i` back from its packet. */
  function ResetBank(cfg: Config, s: Chan, i: nat, now: int): (r: Chan)
    requires i < |s.banks|
    ensures |r.banks| == |s.banks| && |r.wq| == |s.wq| && |r.rq| == |s.rq| && r.bus == s.bus
  {
    var b := s.banks[i];
    var x := At(s.wq, s.rq, b.pkt);
    var t := if x.Some? then SetAt(s, b.pkt, Some(x.value.(scheduled := false, ready := Some(now)))) else s;
    t.(banks := s.banks[i := b.(openRow := if b.ready < now + cfg.t.tCAS then None else b.openRow, valid := false)])
  }

  function ResetBanks(cfg: Config, s: Chan, i: nat, now: int): (r: Chan)
    requires i <= |s.banks|
    ensures |r.banks| == |s.banks| && |r.wq| == |s.wq| && |r.rq| == |s.rq| && r.bus == s.bus
    decreases |s.banks| - i
  {
    if i == |s.banks| then s
    else if s.bus.active != Some(i) && s.banks[i].valid then ResetBanks(cfg, ResetBank(cfg, s, i, now), i + 1, now)
    else ResetBanks(cfg, s, i + 1, now)
  }

  function SwapWriteMode(cfg: Config, s: Chan, now: int): Chan {
    if ShouldSwap(s) then
      var r := ResetBanks(cfg, s, 0, now);
      var from := if s.bus.active.Some? && s.bus.active.value < |r.banks| then r.banks[s.bus.active.value].ready
        else now;
      r.(bus := s.bus.(available := from + cfg.t.turnAround, writeMode := !s.bus.writeMode))
    else s
  }

  // ---- schedule_refresh ----

  function RefreshBank(cfg: Config, b: Bank, due: bool, now: int): Bank {
    var c := if due then b.(needRefresh := true) else b;
    if c.needRefresh && !c.valid then
      c.(ready := now + cfg.t.tRFC, needRefresh := false, underRefresh := true, refreshed := Some(now),
         refreshes := c.refreshes + 1)
    else if c.underRefresh && c.ready <= now then c.(underRefresh := false, openRow := None)
    else c
  }

  function ScheduleRefresh(cfg: Config, s: Chan, now: int): Chan {
    var due := now >= s.bus.lastRefresh + cfg.t.tREF;
    s.(banks := seq(|s.banks|, i requires 0 <= i < |s.banks| => RefreshBank(cfg, s.banks[i], due, now)),
       bus := if due then s.bus.(lastRefresh := now) else s.bus)
  }

  // ---- populate_dbus ----

  /** The comparator: `l` is taken over `r`. */
  predicate Sooner(l: Bank, r: Bank) {
    !r.valid || (l.valid && l.ready < r.ready)
  }

  /** std::min_element from position `i`, with `best` the smallest seen so far. */
  function MinBank(banks: seq<Bank>, best: nat, i: nat): (k: nat)
    requires best < |banks| && i <= |banks|
    ensures k < |banks|
    decreases |banks| - i
  {
    if i == |banks| then best else MinBank(banks, if Sooner(banks[i], banks[best]) then i else best, i + 1)
  }

  /** The packet of bank `k` goes on the bus. */
  function Transmit(cfg: Config, s: Chan, k: nat, now: int): Chan
    requires cfg.Valid() && k < |s.banks| && At(s.wq, s.rq, s.banks[k].pkt).Some?
  {
    var p := s.banks[k].pkt;
    var bg := BankgroupOf(cfg, At(s.wq, s.rq, p).value.address);
    if bg < |s.bus.bgReady| then
      var start := Max(now, s.bus.bgReady[bg]);
      s.(banks := s.banks[k := s.banks[k].(ready := start + cfg.t.returnTime)],
         bus := s.bus.(active := Some(k), bgReady := s.bus.bgReady[bg := now + cfg.t.returnTime + cfg.t.stall]),
         transfers := s.transfers + [Transfer(now, start, start + cfg.t.returnTime, p.write, bg,
           At(s.wq, s.rq, p).value.address, s.banks[k].last)])
    else s
  }

  function PopulateDbus(cfg: Config, s: Chan, now: int): Chan
    requires cfg.Valid()
  {
    if s.banks == [] then s
    else
      var k := MinBank(s.banks, 0, 1);
      if s.banks[k].valid && s.banks[k].ready <= now && s.bus.active.None? && s.bus.available <= now
         && At(s.wq, s.rq, s.banks[k].pkt).Some?
      then Transmit(cfg, s, k, now)
      else s
  }

  // ---- schedule_packet, service_packet ----

  predicate Pending(x: Option<Request>) {
    x.Some? && !x.value.scheduled
  }

  predicate NoLater(a: Option<int>, b: Option<int>) {
    b.None? || (a.Some? && a.value <= b.value)
  }

  /** The comparator: `l` is taken over `r`. */
  predicate Preferred(cfg: Config, banks: seq<Bank>, l: Option<Request>, r: Option<Request>)
    requires cfg.Valid() && |banks| == Banks(cfg.g)
  {
    if !Pending(r) then true
    else if !Pending(l) then false
    else
      var rready, lready := !banks[BankOf(cfg, r.value.address)].valid, !banks[BankOf(cfg, l.value.address)].valid;
      if rready == lready then NoLater(l.value.ready, r.value.ready) else lready
  }

  function MinPacket(cfg: Config, banks: seq<Bank>, q: Queue, best: nat, i: nat): (k: nat)
    requires cfg.Valid() && |banks| == Banks(cfg.g) && best < |q| && i <= |q|
    ensures k < |q|
    decreases |q| - i
  {
    if i == |q| then best else MinPacket(cfg, banks, q, if Preferred(cfg, banks, q[i], q[best]) then i else best, i + 1)
  }

  function ServicePacket(cfg: Config, s: Chan, p: Slot, now: int): Chan
    requires cfg.Valid() && |s.banks| == Banks(cfg.g)
  {
    var x := At(s.wq, s.rq, p);
    if x.Some? && x.value.ready.Some? && x.value.ready.value <= now then
      var b := BankOf(cfg, x.value.address);
      var row := RowOf(cfg.g, x.value.address);
      var prior := s.banks[b];
      if !prior.valid && !prior.underRefresh then
        var hit := prior.openRow == Some(row);
        var charge := if hit then 0 else if prior.openRow.Some? then cfg.t.tRP + cfg.t.tRCD else cfg.t.tRCD;
        SetAt(s, p, Some(x.value.(scheduled := true, ready := None))).(
          banks := s.banks[b := Bank(true, hit, false, false, Some(row), now + cfg.t.tCAS + charge, p,
                                     prior.refreshed, prior.refreshes,
                                     Some(Access(now, x.value.address, prior.openRow)), prior.served + 1)])
      else s
    else s
  }

  function SchedulePacket(cfg: Config, s: Chan): Slot
    requires cfg.Valid() && |s.banks| == Banks(cfg.g) && |s.wq| > 0 && |s.rq| > 0
  {
    var q := if s.bus.writeMode then s.wq else s.rq;
    Slot(s.bus.writeMode, MinPacket(cfg, s.banks, q, 0, 1))
  }

  // ---- warmup, operate ----

  function DrainReads(rq: Queue, answers: seq<Answer>, i: nat): (res: (Queue, seq<Answer>))
    requires i <= |rq|
    ensures |res.0| == |rq|
    decreases |rq| - i
  {
    if i == |rq| then (rq, answers)
    else DrainReads(rq[i := None], if rq[i].Some? then answers + [AnswerTo(rq[i].value)] else answers, i + 1)
  }

  function Drain(s: Chan): Chan {
    var (rq, answers) := DrainReads(s.rq, s.answers, 0);
    s.(rq := rq, wq := seq(|s.wq|, _ => None), answers := answers)
  }

  ghost predicate Sized(cfg: Config, s: Chan) {
    && cfg.Valid() && |s.wq| == cfg.wqSize && |s.rq| == cfg.rqSize
    && |s.banks| == Banks(cfg.g) && |s.bus.bgReady| == Bankgroups(cfg.g)
  }

  /** The steps of a cycle up to scheduling. */
  function OperateBus(cfg: Config, s: Chan, now: int): (r: Chan)
    requires Sized(cfg, s)
    ensures Sized(cfg, r)
  {
    PopulateDbus(cfg, ScheduleRefresh(cfg, SwapWriteMode(cfg, FinishDbus(CheckCollisions(cfg, s), now), now), now), now)
  }

  function Operate(cfg: Config, s: Chan, now: int, warmup: bool): (r: Chan)
    requires Sized(cfg, s)
    ensures Sized(cfg, r)
  {
    var t := OperateBus(cfg, if warmup then Drain(s) else s, now);
    ServicePacket(cfg, t, SchedulePacket(cfg, t), now)
  }

  // ---- add_rq, add_wq ----

  function Free(q: Queue): (k: nat)
    ensures k <= |q| && (k < |q| ==> q[k].None?)
  {
    if q == [] || q[0].None? then 0 else 1 + Free(q[1..])
  }

  function AddRead(s: Chan, address: nat, deps: seq<nat>, target: Option<nat>, token: nat,
      now: int): (res: (Chan, bool))
  {
    var k := Free(s.rq);
    if k < |s.rq| then
      (s.(rq := s.rq[k := Some(Request(address, Some(now), false, false, deps, if target.Some? then [target.value]
        else [], [token]))]), true)
    else (s, false)
  }

  function AddWrite(s: Chan, address: nat, deps: seq<nat>, now: int): (res: (Chan, bool))
  {
    var k := Free(s.wq);
    if k < |s.wq| then (s.(wq := s.wq[k := Some(Request(address, Some(now), false, false, deps, [], []))]), true)
    else (s, false)
  }
}
