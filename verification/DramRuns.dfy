/** The main results about a DRAM channel: what holds after any number of cycles. */
module DramRuns {
  import opened Sequences
  import opened SortedLists
  import opened Responses
  import opened DramAddress
  import opened DramChannel
  import opened DramInvariant

  // ---- what every cycle keeps ----

  /** No two entries of a queue share a block once collisions are resolved. */
  ghost predicate Resolved(cfg: Config, q: Queue) {
    Distinct(cfg, q) && AllChecked(q, |q|)
  }

  ghost predicate Quiet(s: Chan) {
    s.bus.active.None? && forall b :: 0 <= b < |s.banks| ==> !s.banks[b].valid
  }

  ghost predicate Empty(s: Chan) {
    forall p :: At(s.wq, s.rq, p).None?
  }

  /** The invariant within a cycle, after collisions are resolved. */
  ghost predicate Steady(cfg: Config, s: Chan, accepted: seq<Read>, now: int) {
    && Matched(cfg, s) && InMode(s) && Refreshing(cfg, s, now)
    && Resolved(cfg, s.wq) && Resolved(cfg, s.rq)
    && ReadsInv(cfg, accepted, s) && BusOk(cfg, s, now)
  }

  /** The invariant between cycles. */
  ghost predicate Inv(cfg: Config, s: Chan, accepted: seq<Read>, now: int, warmup: bool) {
    && Matched(cfg, s) && InMode(s) && Refreshing(cfg, s, now) && RefreshOwed(s)
    && Distinct(cfg, s.wq) && Distinct(cfg, s.rq)
    && ReadsInv(cfg, accepted, s) && BusOk(cfg, s, now)
    && (warmup ==> Quiet(s))
  }

  lemma {:induction false} DrainInv(cfg: Config, s: Chan, accepted: seq<Read>, now: int)
    requires Inv(cfg, s, accepted, now, true)
    ensures Inv(cfg, Drain(s), accepted, now, true) && Empty(Drain(s))
  {
    DrainKeeps(cfg, accepted, s.rq, s.answers, 0);
    hide ReadsKept, BankOf;
  }

  lemma {:induction false} CollisionsInv(cfg: Config, s: Chan, accepted: seq<Read>, now: int, warmup: bool)
    requires Inv(cfg, s, accepted, now, warmup)
    ensures Steady(cfg, CheckCollisions(cfg, s), accepted, now) && (Empty(s) ==> Empty(CheckCollisions(cfg, s)))
  {
    var t := CheckCollisions(cfg, s);
    CheckWritesCollapses(cfg, s.wq, 0);
    CheckWritesDistinct(cfg, s.wq, 0);
    CheckReadsCollapses(cfg, t.wq, s.rq, s.answers, 0);
    CheckReadsDistinct(cfg, t.wq, s.rq, s.answers, 0);
    CollisionReads(cfg, accepted, s);
    hide CheckWrites, CheckReads, ReadsInv;
    CollapsedKeeps(cfg, s, t);
    hide Matched;
    assert Empty(s) ==> Empty(t) by {
      forall p | Empty(s) ensures At(t.wq, t.rq, p).None? { assert At(s.wq, s.rq, p).None?; }
    }
  }

  /** `x` may replace an entry without disturbing the order of the queues. */
  ghost predicate Refines(x: Option<Request>, y: Option<Request>) {
    x.Some? ==> y.Some? && x.value.address == y.value.address && x.value.checked == y.value.checked
  }

  lemma {:induction false} SetAtResolved(cfg: Config, s: Chan, p: Slot, x: Option<Request>)
    requires Resolved(cfg, s.wq) && Resolved(cfg, s.rq) && Refines(x, At(s.wq, s.rq, p))
    ensures var t := SetAt(s, p, x); Resolved(cfg, t.wq) && Resolved(cfg, t.rq) && (Empty(s) ==> Empty(t))
  {
    hide Block;
    var t := SetAt(s, p, x);
    forall i | 0 <= i < |s.wq| ensures Refines(t.wq[i], s.wq[i]) { }
    forall i | 0 <= i < |s.rq| ensures Refines(t.rq[i], s.rq[i]) { }
  }

  lemma {:induction false} FinishInv(cfg: Config, s: Chan, accepted: seq<Read>, now: int)
    requires Steady(cfg, s, accepted, now)
    ensures Steady(cfg, FinishDbus(s, now), accepted, now) && (Empty(s) ==> Empty(FinishDbus(s, now)))
  {
    FinishKeeps(cfg, s, now);
    FinishReads(cfg, accepted, s, now);
    FinishBus(cfg, s, now);
    if BusDone(s, now) { SetAtResolved(cfg, s, s.banks[s.bus.active.value].pkt, None); }
    hide Matched, InMode, Refreshing, ReadsInv, BusOk, Resolved;
  }

  lemma {:induction false} ResetBanksResolved(cfg: Config, s: Chan, i: nat, now: int)
    requires Resolved(cfg, s.wq) && Resolved(cfg, s.rq) && i <= |s.banks|
    ensures var t := ResetBanks(cfg, s, i, now); Resolved(cfg, t.wq) && Resolved(cfg, t.rq) && (Empty(s) ==> Empty(t))
    decreases |s.banks| - i
  {
    if i < |s.banks| {
      hide Resolved;
      if s.bus.active != Some(i) && s.banks[i].valid {
        var x := At(s.wq, s.rq, s.banks[i].pkt);
        if x.Some? { SetAtResolved(cfg, s, s.banks[i].pkt, Some(x.value.(scheduled := false, ready := Some(now)))); }
        ResetBanksResolved(cfg, ResetBank(cfg, s, i, now), i + 1, now);
      } else {
        ResetBanksResolved(cfg, s, i + 1, now);
      }
    }
  }

  lemma {:induction false} SwapInv(cfg: Config, s: Chan, accepted: seq<Read>, now: int)
    requires Steady(cfg, s, accepted, now)
    ensures Steady(cfg, SwapWriteMode(cfg, s, now), accepted, now) && (Empty(s) ==> Empty(SwapWriteMode(cfg, s, now)))
  {
    SwapKeeps(cfg, s, now);
    SwapBus(cfg, s, now);
    ResetBanksReads(cfg, accepted, s, 0, now);
    ResetBanksResolved(cfg, s, 0, now);
    hide Matched, InMode, Refreshing, BusOk, Resolved, ReadsKept, ResetBanks;
  }

  lemma {:induction false} RefreshInv(cfg: Config, s: Chan, accepted: seq<Read>, now: int)
    requires Steady(cfg, s, accepted, now)
    ensures var t := ScheduleRefresh(cfg, s, now);
      Steady(cfg, t, accepted, now) && RefreshOwed(t) && (Empty(s) ==> Empty(t))
  {
    RefreshKeeps(cfg, s, now);
    RefreshBus(cfg, s, now);
    hide Matched, InMode, Refreshing, BusOk, Resolved, ReadsKept, RefreshOwed;
  }

  lemma {:induction false} PopulateInv(cfg: Config, s: Chan, accepted: seq<Read>, now: int)
    requires Steady(cfg, s, accepted, now) && RefreshOwed(s)
    ensures var t := PopulateDbus(cfg, s, now);
      Steady(cfg, t, accepted, now) && RefreshOwed(t) && (Empty(s) ==> Empty(t))
  {
    PopulateKeeps(cfg, s, now);
    PopulateBus(cfg, s, now);
    hide Matched, InMode, Refreshing, BusOk, Resolved, ReadsKept, RefreshOwed, BankgroupOf, MinBank;
  }

  lemma {:induction false} ServiceInv(cfg: Config, s: Chan, accepted: seq<Read>, p: Slot, now: int)
    requires Steady(cfg, s, accepted, now) && RefreshOwed(s) && p.write == s.bus.writeMode
    ensures var t := ServicePacket(cfg, s, p, now);
      Steady(cfg, t, accepted, now) && RefreshOwed(t) && (Empty(s) ==> Empty(t))
  {
    ServiceKeeps(cfg, s, p, now);
    ServiceBus(cfg, s, p, now);
    ServiceReads(cfg, accepted, s, p, now);
    var x := At(s.wq, s.rq, p);
    if x.Some? { SetAtResolved(cfg, s, p, Some(x.value.(scheduled := true, ready := None))); }
    hide Matched, InMode, Refreshing, BusOk, Resolved, ReadsInv, RefreshOwed, BankOf, RowOf;
  }

  lemma EmptyIsQuiet(cfg: Config, s: Chan)
    requires Matched(cfg, s) && Empty(s)
    ensures Quiet(s)
  {
    forall b | 0 <= b < |s.banks| ensures !s.banks[b].valid {
      assert s.banks[b].valid ==> BankHolds(cfg, s, b);
    }
  }

  lemma {:induction false} BusInv(cfg: Config, s: Chan, accepted: seq<Read>, now: int, warmup: bool)
    requires Inv(cfg, s, accepted, now, warmup)
    ensures var t := OperateBus(cfg, s, now); Steady(cfg, t, accepted, now) && RefreshOwed(t) && (Empty(s) ==> Empty(t))
  {
    hide CheckCollisions, FinishDbus, SwapWriteMode, ScheduleRefresh, PopulateDbus, Empty, RefreshOwed;
    CollisionsInv(cfg, s, accepted, now, warmup);
    hide Inv, Steady;
    var s1 := CheckCollisions(cfg, s);
    FinishInv(cfg, s1, accepted, now);
    var s2 := FinishDbus(s1, now);
    SwapInv(cfg, s2, accepted, now);
    var s3 := SwapWriteMode(cfg, s2, now);
    RefreshInv(cfg, s3, accepted, now);
    PopulateInv(cfg, ScheduleRefresh(cfg, s3, now), accepted, now);
  }

  /** One cycle of the channel keeps the invariant. */
  lemma {:induction false} OperateInv(cfg: Config, s: Chan, accepted: seq<Read>, now: int, warmup: bool)
    requires Inv(cfg, s, accepted, now, warmup)
    ensures Inv(cfg, Operate(cfg, s, now, warmup), accepted, now, warmup)
    ensures Resolved(cfg, Operate(cfg, s, now, warmup).wq) && Resolved(cfg, Operate(cfg, s, now, warmup).rq)
  {
    var u := if warmup then Drain(s) else s;
    if warmup { DrainInv(cfg, s, accepted, now); }
    var t := OperateBus(cfg, u, now);
    BusInv(cfg, u, accepted, now, warmup);
    var p := SchedulePacket(cfg, t);
    ServiceInv(cfg, t, accepted, p, now);
    var v := ServicePacket(cfg, t, p, now);
    hide ServicePacket, OperateBus, ReadsInv, BusOk, InMode, Refreshing, RefreshOwed, MinPacket, Drain, Distinct,
      AllChecked;
    if warmup { EmptyIsQuiet(cfg, v); }
    hide Matched;
  }

  // ---- arrivals and runs ----

  datatype Arrival = ReadArrives(x: Read) | WriteArrives(address: nat, deps: seq<nat>)

  datatype Cycle = Cycle(now: int, warmup: bool, arrivals: seq<Arrival>)

  /** add_rq and add_wq, in order of arrival; an accepted read gets the next token. */
  function Admit(s: Chan, accepted: seq<Read>, arrivals: seq<Arrival>, now: int): (res: (Chan, seq<Read>))
    decreases |arrivals|
  {
    if arrivals == [] then (s, accepted)
    else
      match arrivals[0]
      case ReadArrives(x) =>
        var (t, ok) := AddRead(s, x.address, x.deps, x.target, |accepted|, now);
        Admit(t, if ok then accepted + [x] else accepted, arrivals[1..], now)
      case WriteArrives(a, d) =>
        Admit(AddWrite(s, a, d, now).0, accepted, arrivals[1..], now)
  }

  ghost predicate ArrivalOk(x: Arrival) {
    Sorted(if x.ReadArrives? then x.x.deps else x.deps)
  }

  /** A new entry is neither scheduled nor checked. */
  lemma {:induction false} EnterKeeps(cfg: Config, s: Chan, t: Chan, accepted: seq<Read>, more: seq<Read>, now: int,
      warmup: bool, p: Slot, y: Request)
    requires Inv(cfg, s, accepted, now, warmup) && ReadsInv(cfg, more, t)
    requires At(s.wq, s.rq, p).None? && !y.scheduled && !y.checked && y.ready.Some? && t == SetAt(s, p, Some(y))
    ensures Inv(cfg, t, more, now, warmup)
  {
    hide BankOf, ReadsInv, BankRefresh, Spaced, TransferOk, Block;
    forall b | 0 <= b < |t.banks| && t.banks[b].valid ensures BankHolds(cfg, t, b) { assert BankHolds(cfg, s, b); }
    forall q ensures SlotHeld(cfg, t, q) { assert SlotHeld(cfg, s, q); }
    forall i | 0 <= i < |t.wq| && Checked(t.wq[i]) ensures t.wq[i] == s.wq[i] {
      assert At(t.wq, t.rq, Slot(true, i)) == t.wq[i];
      assert At(s.wq, s.rq, Slot(true, i)) == s.wq[i];
    }
    forall i | 0 <= i < |t.rq| && Checked(t.rq[i]) ensures t.rq[i] == s.rq[i] {
      assert At(t.wq, t.rq, Slot(false, i)) == t.rq[i];
      assert At(s.wq, s.rq, Slot(false, i)) == s.rq[i];
    }
    assert t.banks == s.banks && t.bus == s.bus && t.transfers == s.transfers;
  }

  lemma {:induction false} AddReadInv(cfg: Config, s: Chan, accepted: seq<Read>, x: Read, now: int, warmup: bool)
    requires Inv(cfg, s, accepted, now, warmup) && Sorted(x.deps)
    ensures var (t, ok) := AddRead(s, x.address, x.deps, x.target, |accepted|, now);
      Inv(cfg, t, if ok then accepted + [x] else accepted, now, warmup)
  {
    var (t, ok) := AddRead(s, x.address, x.deps, x.target, |accepted|, now);
    AddReadKeeps(cfg, accepted, s, x, now);
    if ok {
      var k := Free(s.rq);
      hide Inv, ReadsInv;
      EnterKeeps(cfg, s, t, accepted, accepted + [x], now, warmup, Slot(false, k), t.rq[k].value);
    }
  }

  lemma {:induction false} AddWriteInv(cfg: Config, s: Chan, accepted: seq<Read>, a: nat, d: seq<nat>, now: int,
      warmup: bool)
    requires Inv(cfg, s, accepted, now, warmup) && Sorted(d)
    ensures Inv(cfg, AddWrite(s, a, d, now).0, accepted, now, warmup)
  {
    var (t, ok) := AddWrite(s, a, d, now);
    if ok {
      var k := Free(s.wq);
      assert ReadsInv(cfg, accepted, t) by { hide ReadsKept; }
      hide Inv, ReadsInv;
      EnterKeeps(cfg, s, t, accepted, accepted, now, warmup, Slot(true, k), t.wq[k].value);
    }
  }

  lemma {:induction false} AdmitInv(cfg: Config, s: Chan, accepted: seq<Read>, arrivals: seq<Arrival>, now: int,
      warmup: bool)
    requires Inv(cfg, s, accepted, now, warmup) && forall i :: 0 <= i < |arrivals| ==> ArrivalOk(arrivals[i])
    ensures var (t, more) := Admit(s, accepted, arrivals, now); Inv(cfg, t, more, now, warmup)
    decreases |arrivals|
  {
    if arrivals != [] {
      assert ArrivalOk(arrivals[0]);
      hide Inv, Sorted;
      match arrivals[0]
      case ReadArrives(x) =>
        AddReadInv(cfg, s, accepted, x, now, warmup);
        var (t, ok) := AddRead(s, x.address, x.deps, x.target, |accepted|, now);
        AdmitInv(cfg, t, if ok then accepted + [x] else accepted, arrivals[1..], now, warmup);
      case WriteArrives(a, d) =>
        AddWriteInv(cfg, s, accepted, a, d, now, warmup);
        AdmitInv(cfg, AddWrite(s, a, d, now).0, accepted, arrivals[1..], now, warmup);
    }
  }

  function Idle(): Bank { Bank(false, false, false, false, None, 0, Slot(false, 0), None, 0, None, 0) }

  function Start(cfg: Config): (s: Chan)
    requires cfg.Valid()
    ensures Sized(cfg, s)
  {
    Chan(seq(cfg.wqSize, _ => None), seq(cfg.rqSize, _ => None), seq(Banks(cfg.g), _ => Idle()),
         Bus(None, false, 0, seq(Bankgroups(cfg.g), _ => 0), 0), [], [])
  }

  /** The channel and the reads accepted so far, after the cycles `ys`, oldest first. */
  function Run(cfg: Config, ys: seq<Cycle>): (res: (Chan, seq<Read>))
    requires cfg.Valid()
    ensures Sized(cfg, res.0)
  {
    if ys == [] then (Start(cfg), [])
    else
      var n := |ys| - 1;
      var (s, r) := Run(cfg, ys[..n]);
      AdmitSized(cfg, s, r, ys[n].arrivals, ys[n].now);
      var (t, more) := Admit(s, r, ys[n].arrivals, ys[n].now);
      (Operate(cfg, t, ys[n].now, ys[n].warmup), more)
  }

  lemma {:induction false} AdmitSized(cfg: Config, s: Chan, accepted: seq<Read>, arrivals: seq<Arrival>, now: int)
    requires Sized(cfg, s)
    ensures Sized(cfg, Admit(s, accepted, arrivals, now).0)
    decreases |arrivals|
  {
    if arrivals != [] {
      match arrivals[0]
      case ReadArrives(x) =>
        var (t, ok) := AddRead(s, x.address, x.deps, x.target, |accepted|, now);
        AdmitSized(cfg, t, if ok then accepted + [x] else accepted, arrivals[1..], now);
      case WriteArrives(a, d) =>
        AdmitSized(cfg, AddWrite(s, a, d, now).0, accepted, arrivals[1..], now);
    }
  }

  /** Time does not run backwards, warmup does not resume, and dependents come sorted. */
  ghost predicate RunOk(ys: seq<Cycle>) {
    && (forall i, j :: 0 <= i < j < |ys| ==> ys[i].now <= ys[j].now && (ys[j].warmup ==> ys[i].warmup))
    && (forall i, k :: 0 <= i < |ys| && 0 <= k < |ys[i].arrivals| ==> ArrivalOk(ys[i].arrivals[k]))
  }

  lemma {:induction false} TimeInv(cfg: Config, s: Chan, accepted: seq<Read>, now: int, warmup: bool, later: int,
      still: bool)
    requires Inv(cfg, s, accepted, now, warmup) && now <= later && (still ==> warmup)
    ensures Inv(cfg, s, accepted, later, still)
  {
    TimeBus(cfg, s, now, later);
    hide BusOk, Matched, ReadsInv, Distinct, InMode;
  }

  lemma {:induction false} StartHolds(cfg: Config, now: int, warmup: bool)
    requires cfg.Valid()
    ensures Inv(cfg, Start(cfg), [], now, warmup)
  {
    var s := Start(cfg);
    NothingHeld(s.rq);
    hide BankOf, Held;
    assert Conserved(0, s.rq, []) by {
      forall t: nat ensures Places(s.rq, [], t) == 0 { }
    }
  }

  lemma {:induction false} NothingHeld(q: Queue)
    requires forall i :: 0 <= i < |q| ==> q[i].None?
    ensures Held(q) == multiset{}
  {
    if q != [] { NothingHeld(q[1..]); }
  }

  lemma RunNothing(cfg: Config, ys: seq<Cycle>)
    requires cfg.Valid() && ys == []
    ensures Run(cfg, ys) == (Start(cfg), [])
  {
  }

  lemma RunStep(cfg: Config, ys: seq<Cycle>)
    requires cfg.Valid() && ys != []
    ensures var n := |ys| - 1;
      var (s, r) := Run(cfg, ys[..n]);
      var (t, more) := Admit(s, r, ys[n].arrivals, ys[n].now);
      Sized(cfg, t) && Run(cfg, ys) == (Operate(cfg, t, ys[n].now, ys[n].warmup), more)
  {
    hide Operate, Start, Admit;
    var n := |ys| - 1;
    var (s, r) := Run(cfg, ys[..n]);
    AdmitSized(cfg, s, r, ys[n].arrivals, ys[n].now);
  }

  lemma RunOkStep(ys: seq<Cycle>)
    requires RunOk(ys) && ys != []
    ensures var n := |ys| - 1;
      && RunOk(ys[..n])
      && (n > 0 ==> ys[..n][n - 1] == ys[n - 1] && ys[n - 1].now <= ys[n].now && (ys[n].warmup ==> ys[n - 1].warmup))
      && (forall k :: 0 <= k < |ys[n].arrivals| ==> ArrivalOk(ys[n].arrivals[k]))
  {
    hide ArrivalOk;
  }

  /** The invariant holds in every reachable state. */
  lemma {:induction false} Reachable(cfg: Config, ys: seq<Cycle>)
    requires cfg.Valid() && RunOk(ys) && ys != []
    ensures var (s, r) := Run(cfg, ys);
      Inv(cfg, s, r, ys[|ys| - 1].now, ys[|ys| - 1].warmup) && Resolved(cfg, s.wq) && Resolved(cfg, s.rq)
  {
    hide Inv, Operate, Start, Admit, Resolved, Run, RunOk, ArrivalOk;
    var n := |ys| - 1;
    var y := ys[n];
    RunStep(cfg, ys);
    RunOkStep(ys);
    var (s, r) := Run(cfg, ys[..n]);
    if n == 0 {
      StartHolds(cfg, y.now, y.warmup);
      RunNothing(cfg, ys[..n]);
    } else {
      Reachable(cfg, ys[..n]);
      TimeInv(cfg, s, r, ys[n - 1].now, ys[n - 1].warmup, y.now, y.warmup);
    }
    CycleInv(cfg, s, r, y);
  }

  lemma {:induction false} CycleInv(cfg: Config, s: Chan, accepted: seq<Read>, y: Cycle)
    requires Inv(cfg, s, accepted, y.now, y.warmup)
    requires forall k :: 0 <= k < |y.arrivals| ==> ArrivalOk(y.arrivals[k])
    ensures var (t, more) := Admit(s, accepted, y.arrivals, y.now);
      Sized(cfg, t) && var u := Operate(cfg, t, y.now, y.warmup);
      Inv(cfg, u, more, y.now, y.warmup) && Resolved(cfg, u.wq) && Resolved(cfg, u.rq)
  {
    AdmitInv(cfg, s, accepted, y.arrivals, y.now, y.warmup);
    var (t, more) := Admit(s, accepted, y.arrivals, y.now);
    AdmitSized(cfg, s, accepted, y.arrivals, y.now);
    hide Inv, Admit, Operate, Resolved;
    OperateInv(cfg, t, more, y.now, y.warmup);
  }

  // ---- main results ----

  /** Banks and packets correspond one to one, so no packet is scheduled twice and none is
      left dangling; and every bank but the one on the bus works for the current mode. */
  lemma {:induction false} BanksMatchPackets(cfg: Config, ys: seq<Cycle>)
    requires cfg.Valid() && RunOk(ys) && ys != []
    ensures var s := Run(cfg, ys).0;
      && (forall b :: 0 <= b < |s.banks| && s.banks[b].valid ==>
            var x := At(s.wq, s.rq, s.banks[b].pkt); x.Some? && x.value.scheduled && BankOf(cfg, x.value.address) == b)
      && (forall p :: var x := At(s.wq, s.rq, p); x.Some? && x.value.scheduled ==>
            s.banks[BankOf(cfg, x.value.address)].valid && s.banks[BankOf(cfg, x.value.address)].pkt == p)
      && (forall b :: 0 <= b < |s.banks| && s.banks[b].valid && s.bus.active != Some(b) ==>
        s.banks[b].pkt.write == s.bus.writeMode)
      && (s.bus.active.Some? ==> s.bus.active.value < |s.banks| && s.banks[s.bus.active.value].valid)
  {
    Reachable(cfg, ys);
    var s := Run(cfg, ys).0;
    hide Run, BankOf, ReadsInv, BusOk, Refreshing, RunOk;
    forall b | 0 <= b < |s.banks| && s.banks[b].valid
      ensures var x := At(s.wq, s.rq, s.banks[b].pkt); x.Some? && x.value.scheduled && BankOf(cfg, x.value.address) == b
    {
      assert BankHolds(cfg, s, b);
    }
    forall p ensures var x := At(s.wq, s.rq, p); x.Some? && x.value.scheduled ==>
            s.banks[BankOf(cfg, x.value.address)].valid && s.banks[BankOf(cfg, x.value.address)].pkt == p
    {
      assert SlotHeld(cfg, s, p);
    }
  }

  /** No two entries of a queue share a block at the end of a cycle. */
  lemma {:induction false} OneEntryPerBlock(cfg: Config, ys: seq<Cycle>, write: bool, i: nat, j: nat)
    requires cfg.Valid() && RunOk(ys) && ys != []
    requires var s := Run(cfg, ys).0; var q := if write then s.wq else s.rq; i < j < |q| && q[i].Some? && q[j].Some?
    ensures var s := Run(cfg, ys).0; var q := if write then s.wq else s.rq;
      !IsCollision(cfg.g, q[i].value.address, q[j].value.address)
  {
    Reachable(cfg, ys);
    var s := Run(cfg, ys).0;
    hide Run, Inv;
    var q := if write then s.wq else s.rq;
    assert Resolved(cfg, q);
    assert Checked(q[i]) && Checked(q[j]);
  }

  /** A bank under refresh owns no packet; a bank that owns one began its last refresh at
      least tRFC ago; a refresh that is owed waits only for a packet. */
  lemma {:induction false} RefreshIsRespected(cfg: Config, ys: seq<Cycle>, b: nat)
    requires cfg.Valid() && RunOk(ys) && ys != [] && b < |Run(cfg, ys).0.banks|
    ensures var k := Run(cfg, ys).0.banks[b];
      && (k.underRefresh ==> !k.valid && k.refreshed.Some? && k.ready == k.refreshed.value + cfg.t.tRFC)
      && (k.valid && k.refreshed.Some? ==> k.refreshed.value + cfg.t.tRFC <= ys[|ys| - 1].now)
      && (k.needRefresh ==> k.valid)
  {
    Reachable(cfg, ys);
    var s := Run(cfg, ys).0;
    hide Run, Matched, ReadsInv, BusOk, Resolved, InMode;
    assert BankRefresh(cfg, s.banks[b], ys[|ys| - 1].now);
  }

  /** From `k` to `l`, where a refresh is due or was owed if `wanted`: it is begun, once, or stays
      owed; and none is begun or owed otherwise. */
  ghost predicate Refreshed(k: Bank, l: Bank, wanted: bool) {
    && (l.needRefresh ==> wanted)
    && l.refreshes == k.refreshes + (if wanted && !l.needRefresh then 1 else 0)
  }

  ghost predicate RefreshDue(cfg: Config, s: Chan, now: int) { now >= s.bus.lastRefresh + cfg.t.tREF }

  /** What a cycle does to the refreshes of a bank. */
  lemma {:induction false} OperateRefreshes(cfg: Config, s: Chan, accepted: seq<Read>, now: int, warmup: bool, b: nat)
    requires Inv(cfg, s, accepted, now, warmup) && b < |s.banks|
    ensures var t := Operate(cfg, s, now, warmup);
      && b < |t.banks|
      && Refreshed(s.banks[b], t.banks[b], s.banks[b].needRefresh || RefreshDue(cfg, s, now))
      && t.bus.lastRefresh == if RefreshDue(cfg, s, now) then now else s.bus.lastRefresh
  {
    var u := if warmup then Drain(s) else s;
    if warmup { DrainInv(cfg, s, accepted, now); }
    assert u.banks == s.banks && u.bus == s.bus;
    hide Inv, Drain;
    BusInv(cfg, u, accepted, now, warmup);
    BusRefreshes(cfg, u, now, b);
    var t := OperateBus(cfg, u, now);
    hide OperateBus, MinPacket, Steady, RefreshOwed, ServicePacket;
    ServiceRefreshes(cfg, t, accepted, SchedulePacket(cfg, t), now, b);
  }

  lemma ServiceRefreshes(cfg: Config, t: Chan, accepted: seq<Read>, p: Slot, now: int, b: nat)
    requires Steady(cfg, t, accepted, now) && RefreshOwed(t) && b < |t.banks|
    ensures var r := ServicePacket(cfg, t, p, now);
      && |r.banks| == |t.banks| && r.bus == t.bus
      && r.banks[b].needRefresh == t.banks[b].needRefresh && r.banks[b].refreshes == t.banks[b].refreshes
  {
    hide BankOf, RowOf, SlotHeld, BankHolds, InMode, Refreshing, BusOk, ReadsInv, Distinct, Resolved;
  }

  lemma {:induction false} BusRefreshes(cfg: Config, u: Chan, now: int, b: nat)
    requires Sized(cfg, u) && b < |u.banks|
    ensures var t := OperateBus(cfg, u, now);
      && b < |t.banks|
      && Refreshed(u.banks[b], t.banks[b], u.banks[b].needRefresh || RefreshDue(cfg, u, now))
      && t.bus.lastRefresh == if RefreshDue(cfg, u, now) then now else u.bus.lastRefresh
  {
    var s1 := CheckCollisions(cfg, u);
    var s2 := FinishDbus(s1, now);
    assert |s2.banks| == |u.banks| && s2.banks[b].refreshes == u.banks[b].refreshes;
    assert s2.banks[b].needRefresh == u.banks[b].needRefresh && s2.bus.lastRefresh == u.bus.lastRefresh;
    hide CheckCollisions, FinishDbus;
    SwapKeepsNeed(cfg, s2, now, b);
    var s3 := SwapWriteMode(cfg, s2, now);
    hide SwapWriteMode;
    var s4 := ScheduleRefresh(cfg, s3, now);
    assert Refreshed(u.banks[b], s4.banks[b], u.banks[b].needRefresh || RefreshDue(cfg, u, now));
    hide ScheduleRefresh, MinBank, BankgroupOf;
    assert OperateBus(cfg, u, now) == PopulateDbus(cfg, s4, now);
    hide OperateBus;
  }

  lemma {:induction false} SwapKeepsNeed(cfg: Config, s: Chan, now: int, b: nat)
    requires b < |s.banks|
    ensures var t := SwapWriteMode(cfg, s, now);
      && |t.banks| == |s.banks| && t.bus.lastRefresh == s.bus.lastRefresh
      && t.banks[b].needRefresh == s.banks[b].needRefresh && t.banks[b].refreshes == s.banks[b].refreshes
  {
    ResetKeepsNeed(cfg, s, 0, now, b);
    hide ResetBanks;
  }

  lemma {:induction false} ResetKeepsNeed(cfg: Config, s: Chan, i: nat, now: int, b: nat)
    requires b < |s.banks| && i <= |s.banks|
    ensures var t := ResetBanks(cfg, s, i, now);
      && |t.banks| == |s.banks|
      && t.banks[b].needRefresh == s.banks[b].needRefresh && t.banks[b].refreshes == s.banks[b].refreshes
    decreases |s.banks| - i
  {
    if i < |s.banks| {
      if s.bus.active != Some(i) && s.banks[i].valid {
        ResetKeepsNeed(cfg, ResetBank(cfg, s, i, now), i + 1, now, b);
      } else {
        ResetKeepsNeed(cfg, s, i + 1, now, b);
      }
    }
  }

  /** No refresh is ever lost: in every cycle of every run, one that is due or still owed is begun,
      exactly once, or stays owed, and no other is begun. One is due tREF after the last was. */
  lemma {:induction false} NoRefreshIsLost(cfg: Config, ys: seq<Cycle>, b: nat)
    requires cfg.Valid() && RunOk(ys) && ys != [] && b < Banks(cfg.g)
    ensures var n := |ys| - 1;
      var s, t := Run(cfg, ys[..n]).0, Run(cfg, ys).0;
      && |s.banks| == |t.banks| == Banks(cfg.g)
      && Refreshed(s.banks[b], t.banks[b], s.banks[b].needRefresh || RefreshDue(cfg, s, ys[n].now))
      && t.bus.lastRefresh == if RefreshDue(cfg, s, ys[n].now) then ys[n].now else s.bus.lastRefresh
  {
    hide Inv, Operate, Start, Admit, Resolved, Run, RunOk, ArrivalOk, Refreshed, RefreshDue;
    var n := |ys| - 1;
    RunStep(cfg, ys);
    var (s, r) := Run(cfg, ys[..n]);
    var (u, more) := Admit(s, r, ys[n].arrivals, ys[n].now);
    EnteredHolds(cfg, ys);
    AdmitBanks(s, r, ys[n].arrivals, ys[n].now);
    SameDue(cfg, s, u, ys[n].now);
    OperateRefreshes(cfg, u, more, ys[n].now, ys[n].warmup, b);
  }

  lemma SameDue(cfg: Config, s: Chan, u: Chan, now: int)
    requires s.bus == u.bus
    ensures RefreshDue(cfg, s, now) == RefreshDue(cfg, u, now)
  {
  }

  /** The invariant holds once the last cycle's requests have arrived. */
  lemma {:induction false} EnteredHolds(cfg: Config, ys: seq<Cycle>)
    requires cfg.Valid() && RunOk(ys) && ys != []
    ensures var n := |ys| - 1;
      var (s, r) := Run(cfg, ys[..n]);
      var (u, more) := Admit(s, r, ys[n].arrivals, ys[n].now);
      Inv(cfg, u, more, ys[n].now, ys[n].warmup)
  {
    hide Inv, Operate, Start, Admit, Resolved, Run, RunOk, ArrivalOk;
    var n := |ys| - 1;
    var y := ys[n];
    RunStep(cfg, ys);
    RunOkStep(ys);
    var (s, r) := Run(cfg, ys[..n]);
    if n == 0 {
      StartHolds(cfg, y.now, y.warmup);
      RunNothing(cfg, ys[..n]);
    } else {
      Reachable(cfg, ys[..n]);
      TimeInv(cfg, s, r, ys[n - 1].now, ys[n - 1].warmup, y.now, y.warmup);
    }
    AdmitInv(cfg, s, r, y.arrivals, y.now, y.warmup);
  }

  lemma {:induction false} AdmitBanks(s: Chan, accepted: seq<Read>, arrivals: seq<Arrival>, now: int)
    ensures var u := Admit(s, accepted, arrivals, now).0; u.banks == s.banks && u.bus == s.bus
    decreases |arrivals|
  {
    hide Free;
    if arrivals != [] {
      match arrivals[0]
      case ReadArrives(x) =>
        var (t, ok) := AddRead(s, x.address, x.deps, x.target, |accepted|, now);
        AdmitBanks(t, if ok then accepted + [x] else accepted, arrivals[1..], now);
      case WriteArrives(a, d) =>
        AdmitBanks(AddWrite(s, a, d, now).0, accepted, arrivals[1..], now);
    }
  }

  /** How often a refresh has become due for a bank that owed none. */
  ghost function RefreshesWanted(cfg: Config, ys: seq<Cycle>, b: nat): nat
    requires cfg.Valid() && b < Banks(cfg.g)
  {
    if ys == [] then 0
    else
      var n := |ys| - 1;
      var s := Run(cfg, ys[..n]).0;
      RefreshesWanted(cfg, ys[..n], b)
      + (if RefreshDue(cfg, s, ys[n].now) && !s.banks[b].needRefresh then 1 else 0)
  }

  /** So over every run, the refreshes a bank has begun and the one it may owe are all that became
      due, where one that becomes due while another is owed is one with it. */
  lemma {:induction false} RefreshesAddUp(cfg: Config, ys: seq<Cycle>, b: nat)
    requires cfg.Valid() && RunOk(ys) && b < Banks(cfg.g)
    ensures var k := Run(cfg, ys).0.banks[b];
      k.refreshes + (if k.needRefresh then 1 else 0) == RefreshesWanted(cfg, ys, b)
    decreases |ys|
  {
    hide Operate, Admit, RunOk, RefreshDue;
    if ys != [] {
      RunOkStep(ys);
      RefreshesAddUp(cfg, ys[..|ys| - 1], b);
      NoRefreshIsLost(cfg, ys, b);
      hide Run;
    }
  }

  /** The data bus is never shared: transfers do not overlap, a change of direction leaves
      the turn-around time, and a bankgroup waits out its stall after each issue. */
  lemma {:induction false} BusIsNeverShared(cfg: Config, ys: seq<Cycle>, i: nat, j: nat)
    requires cfg.Valid() && RunOk(ys) && ys != [] && i < j < |Run(cfg, ys).0.transfers|
    ensures var x, y := Run(cfg, ys).0.transfers[i], Run(cfg, ys).0.transfers[j];
      && x.start + cfg.t.returnTime == x.end && x.end <= y.start
      && (x.write != y.write ==> x.end + cfg.t.turnAround <= y.start)
      && (x.bankgroup == y.bankgroup ==> x.issued + cfg.t.returnTime + cfg.t.stall <= y.start)
  {
    Reachable(cfg, ys);
    var s := Run(cfg, ys).0;
    hide Run, Matched, ReadsInv, Resolved, InMode, Refreshing, RefreshOwed;
    assert Spaced(cfg, s.transfers[i], s.transfers[j]);
    assert TransferOk(cfg, s.transfers[i], s.bus.bgReady, ys[|ys| - 1].now);
  }

  // ---- responses ----

  lemma AnswerDelivers(cfg: Config, accepted: seq<Read>, a: Answer, queue: nat, t: nat)
    requires Serves(cfg, accepted, a.address, a.deps, a.ret, a.tokens) && t < |accepted|
    requires accepted[t].target == Some(queue)
    ensures Delivers(a, queue, t)
  {
    if t in a.tokens {
      var k :| 0 <= k < |a.tokens| && a.tokens[k] == t;
      assert ServesOne(cfg, accepted, a.address, a.deps, a.ret, a.tokens[k]);
    }
  }

  /** Every accepted read with a return target is in exactly one read-queue entry until
      exactly one response to that target carries it. */
  lemma {:induction false} ReadsAreAnsweredOnce(cfg: Config, ys: seq<Cycle>, t: nat)
    requires cfg.Valid() && RunOk(ys) && ys != [] && t < |Run(cfg, ys).1| && Run(cfg, ys).1[t].target.Some?
    ensures var (s, r) := Run(cfg, ys);
      Held(s.rq)[t] + Reaching(Pushed(s.answers), r[t].target.value, t) == 1
  {
    Reachable(cfg, ys);
    var (s, r) := Run(cfg, ys);
    hide Run, Matched, BusOk, Resolved, InMode, Refreshing, RefreshOwed, Serves;
    assert Places(s.rq, s.answers, t) == 1;
    forall i | 0 <= i < |s.answers| ensures Delivers(s.answers[i], r[t].target.value, t) {
      AnswerDelivers(cfg, r, s.answers[i], r[t].target.value, t);
    }
    PushedReaches(s.answers, r[t].target.value, t);
  }

  /** And whatever holds or answers a read is for its block and its return queue, and
      wakes every instruction that depends on it. */
  lemma {:induction false} HoldersServe(cfg: Config, ys: seq<Cycle>, i: nat, t: nat)
    requires cfg.Valid() && RunOk(ys) && ys != []
    ensures var (s, r) := Run(cfg, ys);
      && (i < |s.rq| && s.rq[i].Some? && t in s.rq[i].value.tokens ==>
            ServesOne(cfg, r, s.rq[i].value.address, s.rq[i].value.deps, s.rq[i].value.ret, t))
      && (i < |s.answers| && t in s.answers[i].tokens ==>
            ServesOne(cfg, r, s.answers[i].address, s.answers[i].deps, s.answers[i].ret, t))
  {
    hide Run, Matched, BusOk, Resolved, InMode, Refreshing, RefreshOwed, ServesOne;
    Reachable(cfg, ys);
    var (s, r) := Run(cfg, ys);
  }

  // ---- the scheduler's choices ----

  /** min_element over the banks picks a valid bank if there is one, and one that is
      ready no later than any other. */
  lemma {:induction false} MinBankIsBest(banks: seq<Bank>, best: nat, i: nat)
    requires best < i <= |banks|
    requires forall j :: 0 <= j < i && banks[j].valid ==> banks[best].valid && banks[best].ready <= banks[j].ready
    ensures var k := MinBank(banks, best, i);
      forall j :: 0 <= j < |banks| && banks[j].valid ==> banks[k].valid && banks[k].ready <= banks[j].ready
    decreases |banks| - i
  {
    if i < |banks| { MinBankIsBest(banks, if Sooner(banks[i], banks[best]) then i else best, i + 1); }
  }

  ghost predicate AtLeastAsGood(cfg: Config, banks: seq<Bank>, x: Option<Request>, y: Option<Request>)
    requires cfg.Valid() && |banks| == Banks(cfg.g)
  {
    y.Some? && !y.value.scheduled ==>
      (x.Some? && !x.value.scheduled &&
       var xfree, yfree := !banks[BankOf(cfg, x.value.address)].valid, !banks[BankOf(cfg, y.value.address)].valid;
       (yfree ==> xfree) && (xfree == yfree && y.value.ready.Some? ==>
         x.value.ready.Some? && x.value.ready.value <= y.value.ready.value))
  }

  /** Although its comparator is not a strict order, the scan over a queue picks a pending
      packet if there is one: one with a free bank if there is one, and the oldest of those. */
  lemma {:induction false} MinPacketIsBest(cfg: Config, banks: seq<Bank>, q: Queue, best: nat, i: nat)
    requires cfg.Valid() && |banks| == Banks(cfg.g) && best < i <= |q|
    requires forall j :: 0 <= j < i ==> AtLeastAsGood(cfg, banks, q[best], q[j])
    ensures forall j :: 0 <= j < |q| ==> AtLeastAsGood(cfg, banks, q[MinPacket(cfg, banks, q, best, i)], q[j])
    decreases |q| - i
  {
    if i < |q| {
      hide BankOf;
      var next := if Preferred(cfg, banks, q[i], q[best]) then i else best;
      MinPacketIsBest(cfg, banks, q, next, i + 1);
    }
  }
}
