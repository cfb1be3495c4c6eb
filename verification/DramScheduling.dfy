/** What a DRAM channel chooses: its direction, the packets it services, the banks it puts on the
    data bus, and the reads it answers from queued writes. */
module DramScheduling {
  import opened Sequences
  import opened Responses
  import opened DramAddress
  import opened DramChannel
  import opened DramInvariant
  import opened DramRuns

  // ---- the direction ----

  ghost function Waiting(q: Queue): nat {
    CountIf(q, (x: Option<Request>) => x.Some?)
  }

  /** The direction fits what waits: writing, there are writes and no read waits for less than three
      quarters of a full queue of them; reading, the writes are fewer than seven eighths, and none if
      no read waits. */
  ghost predicate DirectionFits(s: Chan) {
    var size, w, r := |s.wq|, Waiting(s.wq), Waiting(s.rq);
    if s.bus.writeMode then w > 0 && (r == 0 || w >= size * 6 / 8)
    else w < size * 7 / 8 && (r > 0 || w == 0)
  }

  /** The direction changes just when it does not fit. */
  ghost predicate DirectionFollows(before: bool, t: Chan) {
    t.bus.writeMode == (if DirectionFits(t.(bus := t.bus.(writeMode := before))) then before else !before)
  }

  /** The same slots are taken. */
  ghost predicate SameTaken(q: Queue, r: Queue) {
    |q| == |r| && forall i :: 0 <= i < |q| ==> q[i].Some? == r[i].Some?
  }

  ghost predicate SameQueues(s: Chan, t: Chan) {
    SameTaken(s.wq, t.wq) && SameTaken(s.rq, t.rq)
  }

  lemma SameWaiting(s: Chan, t: Chan)
    requires SameQueues(s, t)
    ensures Waiting(s.wq) == Waiting(t.wq) && Waiting(s.rq) == Waiting(t.rq)
  {
    var p := (x: Option<Request>) => x.Some?;
    CountIfAgree(s.wq, t.wq, p, p);
    CountIfAgree(s.rq, t.rq, p, p);
  }

  lemma {:induction false} ResetTaken(cfg: Config, s: Chan, i: nat, now: int)
    requires i <= |s.banks|
    ensures SameQueues(s, ResetBanks(cfg, s, i, now))
    decreases |s.banks| - i
  {
    if i < |s.banks| {
      if s.bus.active != Some(i) && s.banks[i].valid {
        var t := ResetBank(cfg, s, i, now);
        assert SameQueues(s, t);
        hide ResetBank;
        ResetTaken(cfg, t, i + 1, now);
      } else {
        ResetTaken(cfg, s, i + 1, now);
      }
    }
  }

  /** The steps after the switch take nothing out of the queues and keep the direction. */
  lemma LaterTaken(cfg: Config, s: Chan, now: int)
    requires Sized(cfg, s)
    ensures var t := PopulateDbus(cfg, ScheduleRefresh(cfg, s, now), now);
      SameQueues(s, t) && t.bus.writeMode == s.bus.writeMode
  {
    hide MinBank, BankgroupOf, RefreshBank;
  }

  lemma ServiceTaken(cfg: Config, s: Chan, p: Slot, now: int)
    requires cfg.Valid() && |s.banks| == Banks(cfg.g)
    ensures SameQueues(s, ServicePacket(cfg, s, p, now)) && ServicePacket(cfg, s, p, now).bus == s.bus
  {
    hide BankOf, RowOf;
  }

  lemma SwitchFollows(cfg: Config, s: Chan, now: int)
    ensures var t := SwapWriteMode(cfg, s, now); SameQueues(s, t) && DirectionFollows(s.bus.writeMode, t)
  {
    ResetTaken(cfg, s, 0, now);
    var t := SwapWriteMode(cfg, s, now);
    hide ResetBanks;
    SameWaiting(s, t);
    WaitingIs(s);
    hide SameTaken, Waiting, Occupancy;
  }

  lemma WaitingIs(s: Chan)
    ensures Waiting(s.wq) == Occupancy(s.wq) && Waiting(s.rq) == Occupancy(s.rq)
  {
  }

  lemma FollowsStays(before: bool, t: Chan, u: Chan)
    requires DirectionFollows(before, t) && SameQueues(t, u) && u.bus.writeMode == t.bus.writeMode
    ensures DirectionFollows(before, u)
  {
    SameWaiting(t, u);
    hide SameTaken, Waiting;
  }

  lemma {:induction false} OperateFollows(cfg: Config, s: Chan, now: int, warmup: bool)
    requires Sized(cfg, s)
    ensures DirectionFollows(s.bus.writeMode, Operate(cfg, s, now, warmup))
  {
    var u := if warmup then Drain(s) else s;
    assert Sized(cfg, u) && u.bus == s.bus;
    hide Drain, CheckCollisions, SwapWriteMode, ScheduleRefresh, PopulateDbus, ServicePacket, MinPacket,
      DirectionFollows,
      SameQueues;
    var v := FinishDbus(CheckCollisions(cfg, u), now);
    assert CheckCollisions(cfg, u).bus == u.bus by { CollisionBus(cfg, u); }
    assert v.bus.writeMode == s.bus.writeMode;
    hide FinishDbus;
    var x := SwapWriteMode(cfg, v, now);
    SwitchFollows(cfg, v, now);
    SwapSized(cfg, u, now);
    LaterTaken(cfg, x, now);
    var t := OperateBus(cfg, u, now);
    assert t == PopulateDbus(cfg, ScheduleRefresh(cfg, x, now), now) by { BusIs(cfg, u, now); }
    hide OperateBus;
    FollowsStays(s.bus.writeMode, x, t);
    ServiceTaken(cfg, t, SchedulePacket(cfg, t), now);
    FollowsStays(s.bus.writeMode, t, Operate(cfg, s, now, warmup));
  }

  lemma CollisionBus(cfg: Config, s: Chan)
    ensures CheckCollisions(cfg, s).bus == s.bus && CheckCollisions(cfg, s).banks == s.banks
  {
  }

  lemma SwapSized(cfg: Config, s: Chan, now: int)
    requires Sized(cfg, s)
    ensures Sized(cfg, SwapWriteMode(cfg, FinishDbus(CheckCollisions(cfg, s), now), now))
  {
    hide CheckWrites, CheckReads, ShouldSwap;
  }

  lemma BusIs(cfg: Config, s: Chan, now: int)
    requires Sized(cfg, s)
    ensures OperateBus(cfg, s, now) == PopulateDbus(cfg, ScheduleRefresh(cfg, SwapWriteMode(cfg,
      FinishDbus(CheckCollisions(cfg, s), now), now), now), now)
  {
    hide CheckCollisions, FinishDbus, SwapWriteMode, ScheduleRefresh, PopulateDbus;
  }

  /** On every run, the direction after a cycle is the one before it if that fits what waits, and the
      other if it does not; and in a channel with room for two writes it then fits, so that no switch
      is undone before something arrives or leaves. */
  lemma {:induction false} DirectionFollowsDemand(cfg: Config, ys: seq<Cycle>)
    requires cfg.Valid() && RunOk(ys) && ys != []
    ensures var s, t := Run(cfg, ys[..|ys| - 1]).0, Run(cfg, ys).0;
      && DirectionFollows(s.bus.writeMode, t)
      && (cfg.wqSize >= 2 ==> DirectionFits(t))
  {
    hide Operate, Start, Admit, Run, RunOk, ArrivalOk, DirectionFits;
    var n := |ys| - 1;
    RunStep(cfg, ys);
    var (s, r) := Run(cfg, ys[..n]);
    AdmitBanks(s, r, ys[n].arrivals, ys[n].now);
    var u := Admit(s, r, ys[n].arrivals, ys[n].now).0;
    OperateFollows(cfg, u, ys[n].now, ys[n].warmup);
    var t := Run(cfg, ys).0;
    assert |t.wq| == cfg.wqSize;
    if cfg.wqSize >= 2 { OneDirectionFits(t); }
  }

  lemma OneDirectionFits(t: Chan)
    requires |t.wq| >= 2
    ensures DirectionFits(t) || DirectionFits(t.(bus := t.bus.(writeMode := !t.bus.writeMode)))
  {
    hide Waiting;
  }

  /** With room for one write only, neither direction fits an empty channel: every cycle of every run
      in which nothing waits changes it. */
  lemma {:induction false} OneWriteFlaps(cfg: Config, ys: seq<Cycle>)
    requires cfg.Valid() && RunOk(ys) && ys != [] && cfg.wqSize == 1
    requires Waiting(Run(cfg, ys).0.wq) == 0
    ensures Run(cfg, ys).0.bus.writeMode != Run(cfg, ys[..|ys| - 1]).0.bus.writeMode
  {
    hide Operate, Start, Admit, Run, RunOk, Waiting;
    DirectionFollowsDemand(cfg, ys);
    assert |Run(cfg, ys).0.wq| == 1;
  }

  // ---- the packet to service ----

  /** The channel of a run when the next cycle comes to schedule a packet. */
  ghost function AtSchedule(cfg: Config, s: Chan, accepted: seq<Read>, y: Cycle): (u: Chan)
    requires Sized(cfg, s)
    ensures Sized(cfg, u)
  {
    AdmitSized(cfg, s, accepted, y.arrivals, y.now);
    var a := Admit(s, accepted, y.arrivals, y.now).0;
    OperateBus(cfg, if y.warmup then Drain(a) else a, y.now)
  }

  /** The packet of slot `p` is as good a choice as any of its queue: it waits if any does, its bank
      is free if any waiting one's is, and of those it became ready first. */
  ghost predicate BestChoice(cfg: Config, u: Chan, p: Slot)
    requires Sized(cfg, u)
  {
    && p.write == u.bus.writeMode
    && var q := if p.write then u.wq else u.rq;
    && p.index < |q| && forall j :: 0 <= j < |q| ==> AtLeastAsGood(cfg, u.banks, q[p.index], q[j])
  }

  /** The bank takes the packet when it is free and not under refresh. */
  ghost predicate Takes(cfg: Config, u: Chan, t: Chan, p: Slot, now: int)
    requires Sized(cfg, u)
  {
    var x := At(u.wq, u.rq, p);
    if x.Some? && x.value.ready.Some? && x.value.ready.value <= now
      && !u.banks[BankOf(cfg, x.value.address)].valid && !u.banks[BankOf(cfg, x.value.address)].underRefresh
    then
      var b := BankOf(cfg, x.value.address);
      && |t.banks| == |u.banks| && t.banks[b].valid && t.banks[b].pkt == p && t.banks[b].served == u.banks[b].served + 1
      && (forall c :: 0 <= c < |u.banks| && c != b ==> t.banks[c] == u.banks[c])
    else t == u
  }

  lemma ChoosesBest(cfg: Config, u: Chan)
    requires Sized(cfg, u)
    ensures BestChoice(cfg, u, SchedulePacket(cfg, u))
  {
    var q := if u.bus.writeMode then u.wq else u.rq;
    assert |q| > 0;
    hide BankOf;
    assert AtLeastAsGood(cfg, u.banks, q[0], q[0]);
    MinPacketIsBest(cfg, u.banks, q, 0, 1);
  }

  lemma ServiceTakes(cfg: Config, u: Chan, p: Slot, now: int)
    requires Sized(cfg, u)
    ensures Takes(cfg, u, ServicePacket(cfg, u, p, now), p, now)
  {
    hide BankOf, RowOf;
  }

  /** In every cycle of every run, the one packet that may be serviced is a best choice, and it is
      serviced just when it is ready and its bank is free and not under refresh. */
  lemma {:induction false} BestPacketIsServiced(cfg: Config, ys: seq<Cycle>)
    requires cfg.Valid() && RunOk(ys) && ys != []
    ensures var n := |ys| - 1;
      var (s, r) := Run(cfg, ys[..n]);
      var u := AtSchedule(cfg, s, r, ys[n]);
      exists p :: BestChoice(cfg, u, p) && Takes(cfg, u, Run(cfg, ys).0, p, ys[n].now)
  {
    hide OperateBus, ServicePacket, Start, Admit, Run, RunOk, ArrivalOk, MinPacket, Drain, BestChoice, Takes;
    var n := |ys| - 1;
    RunStep(cfg, ys);
    var (s, r) := Run(cfg, ys[..n]);
    var u := AtSchedule(cfg, s, r, ys[n]);
    ChoosesBest(cfg, u);
    ServiceTakes(cfg, u, SchedulePacket(cfg, u), ys[n].now);
  }

  // ---- the bank for the data bus ----

  /** The bus takes a packet if it is free, its turn-around is over and a bank is ready; and then that
      of a bank that is ready no later than any other. */
  ghost predicate BusTakes(cfg: Config, v: Chan, t: Chan, now: int) {
    if v.bus.active.None? && v.bus.available <= now && exists b :: 0 <= b < |v.banks| && ReadyBank(v, b, now) then
      && t.bus.active.Some? && t.bus.active.value < |v.banks| && ReadyBank(v, t.bus.active.value, now)
      && |t.transfers| == |v.transfers| + 1 && t.transfers[|v.transfers|].access == v.banks[t.bus.active.value].last
      && (forall b :: 0 <= b < |v.banks| && v.banks[b].valid ==>
        v.banks[t.bus.active.value].ready <= v.banks[b].ready)
    else t == v
  }

  ghost predicate ReadyBank(v: Chan, b: nat, now: int)
    requires b < |v.banks|
  {
    v.banks[b].valid && v.banks[b].ready <= now
  }

  lemma PopulateTakes(cfg: Config, v: Chan, now: int)
    requires Matched(cfg, v)
    ensures BusTakes(cfg, v, PopulateDbus(cfg, v, now), now)
  {
    hide SlotHeld, BankHolds, BankOf;
    if v.banks != [] {
      MinBankIsBest(v.banks, 0, 1);
      var k := MinBank(v.banks, 0, 1);
      hide MinBank;
      if v.banks[k].valid {
        assert BankHolds(cfg, v, k);
        HoldsPacket(cfg, v, k);
      }
      assert forall b :: 0 <= b < |v.banks| && ReadyBank(v, b, now) ==> ReadyBank(v, k, now);
      hide BankgroupOf;
    }
  }

  lemma HoldsPacket(cfg: Config, v: Chan, k: nat)
    requires cfg.Valid() && k < |v.banks| && BankHolds(cfg, v, k)
    ensures At(v.wq, v.rq, v.banks[k].pkt).Some?
  {
    hide BankOf;
  }

  /** The channel of a run when the next cycle comes to the data bus. */
  ghost function AtBus(cfg: Config, s: Chan, accepted: seq<Read>, y: Cycle): Chan
  {
    var a := Admit(s, accepted, y.arrivals, y.now).0;
    ScheduleRefresh(cfg, SwapWriteMode(cfg, FinishDbus(CheckCollisions(cfg, if y.warmup then Drain(a) else a), y.now),
      y.now), y.now)
  }

  lemma {:induction false} BusInvAt(cfg: Config, u: Chan, accepted: seq<Read>, now: int, warmup: bool)
    requires DramRuns.Inv(cfg, u, accepted, now, warmup)
    ensures Matched(cfg, ScheduleRefresh(cfg, SwapWriteMode(cfg, FinishDbus(CheckCollisions(cfg, u), now), now), now))
  {
    hide CheckCollisions, FinishDbus, SwapWriteMode, ScheduleRefresh, Empty, RefreshOwed;
    CollisionsInv(cfg, u, accepted, now, warmup);
    hide DramRuns.Inv, Steady;
    var s1 := CheckCollisions(cfg, u);
    FinishInv(cfg, s1, accepted, now);
    var s2 := FinishDbus(s1, now);
    SwapInv(cfg, s2, accepted, now);
    var s3 := SwapWriteMode(cfg, s2, now);
    RefreshInv(cfg, s3, accepted, now);
    SteadyMatched(cfg, ScheduleRefresh(cfg, s3, now), accepted, now);
  }

  lemma SteadyMatched(cfg: Config, s: Chan, accepted: seq<Read>, now: int)
    requires Steady(cfg, s, accepted, now)
    ensures Matched(cfg, s)
  {
    hide Matched;
  }

  /** In every cycle of every run, the bus is never left idle: when it is free, past its turn-around
      time, and some bank is ready, it takes the packet of the bank that has been ready longest. */
  lemma {:induction false} BusIsNeverIdle(cfg: Config, ys: seq<Cycle>)
    requires cfg.Valid() && RunOk(ys) && ys != []
    ensures var n := |ys| - 1;
      var (s, r) := Run(cfg, ys[..n]);
      var v := AtBus(cfg, s, r, ys[n]);
      BusTakes(cfg, v, AtSchedule(cfg, s, r, ys[n]), ys[n].now)
  {
    hide DramRuns.Inv, CheckCollisions, FinishDbus, SwapWriteMode, ScheduleRefresh, PopulateDbus, Admit, Run, RunOk,
      ArrivalOk, Drain, BusTakes, Matched;
    var n := |ys| - 1;
    var (s, r) := Run(cfg, ys[..n]);
    var (a, more) := Admit(s, r, ys[n].arrivals, ys[n].now);
    EnteredHolds(cfg, ys);
    if ys[n].warmup { DrainInv(cfg, a, more, ys[n].now); }
    var u := if ys[n].warmup then Drain(a) else a;
    BusInvAt(cfg, u, more, ys[n].now, ys[n].warmup);
    PopulateTakes(cfg, AtBus(cfg, s, r, ys[n]), ys[n].now);
  }

  // ---- reads of blocks that wait to be written ----

  /** A slot of the write queue has the block of `a`. */
  ghost predicate WriteWaits(cfg: Config, wq: Queue, a: nat) {
    exists j :: 0 <= j < |wq| && wq[j].Some? && Block(cfg, wq[j].value.address) == Block(cfg, a)
  }

  lemma WaitingFound(cfg: Config, wq: Queue, a: nat)
    ensures WriteWaits(cfg, wq, a) <==> FindBlock(cfg, wq, 0, |wq|, a) < |wq|
  {
    hide Block;
  }

  /** Merging writes keeps a write of each block. */
  lemma {:induction false} WritesKeepBlocks(cfg: Config, wq: Queue, i: nat, a: nat)
    requires i <= |wq| && WriteWaits(cfg, wq, a)
    ensures WriteWaits(cfg, CheckWrites(cfg, wq, i), a)
    decreases |wq| - i
  {
    if i < |wq| {
      if Unchecked(wq[i]) {
        var k := FindOther(cfg, wq, i, wq[i].value.address);
        var r := wq[i := if k < |wq| then None else Some(wq[i].value.(checked := true))];
        assert WriteWaits(cfg, r, a) by {
          hide Block, FindOther;
          var j :| 0 <= j < |wq| && wq[j].Some? && Block(cfg, wq[j].value.address) == Block(cfg, a);
          if j != i { assert r[j] == wq[j]; }
          else if k < |wq| { assert r[k] == wq[k]; }
          else { assert r[i].Some?; }
        }
        hide WriteWaits, FindOther;
        WritesKeepBlocks(cfg, r, i + 1, a);
      } else {
        WritesKeepBlocks(cfg, wq, i + 1, a);
      }
    }
  }

  /** The entry at slot `e`: unchecked until its turn, then gone. */
  lemma {:induction false} ForwardsAt(cfg: Config, wq: Queue, rq: Queue, answers: seq<Answer>, i: nat, e: nat)
    requires i <= |rq| && e < |rq|
    requires if e < i then rq[e].None? else Unchecked(rq[e]) && WriteWaits(cfg, wq, rq[e].value.address)
    ensures CheckReads(cfg, wq, rq, answers, i).0[e].None?
    decreases |rq| - i
  {
    if i < |rq| {
      if Unchecked(rq[i]) {
        WaitingFound(cfg, wq, rq[i].value.address);
        hide WriteWaits, Block;
        var (r, a) := CheckRead(cfg, wq, rq, answers, i);
        ForwardsAt(cfg, wq, r, a, i + 1, e);
      } else {
        ForwardsAt(cfg, wq, rq, answers, i + 1, e);
      }
    }
  }

  lemma {:induction false} EmptySlotStays(cfg: Config, s: Chan, e: nat, now: int)
    requires Sized(cfg, s) && e < |s.rq| && s.rq[e].None?
    ensures var t := PopulateDbus(cfg, ScheduleRefresh(cfg, SwapWriteMode(cfg, FinishDbus(s, now), now), now), now);
      |t.rq| == |s.rq| && t.rq[e].None?
  {
    hide SwapWriteMode, ScheduleRefresh, PopulateDbus;
    var f := FinishDbus(s, now);
    assert |f.rq| == |s.rq| && f.rq[e].None? && Sized(cfg, f);
    hide FinishDbus;
    SwitchFollows(cfg, f, now);
    var x := SwapWriteMode(cfg, f, now);
    SizedSwap(cfg, f, now);
    LaterTaken(cfg, x, now);
  }

  lemma SizedSwap(cfg: Config, s: Chan, now: int)
    requires Sized(cfg, s)
    ensures Sized(cfg, SwapWriteMode(cfg, s, now))
  {
    hide ShouldSwap;
  }

  /** In every cycle of every run, a read that comes to the collision check while a write to its block
      waits is answered at once and leaves the queue: what the other results say of answers holds of
      it, and it never reaches a bank. */
  lemma {:induction false} ReadsSeeQueuedWrites(cfg: Config, ys: seq<Cycle>, e: nat)
    requires cfg.Valid() && RunOk(ys) && ys != []
    requires var (s, r) := Run(cfg, ys[..|ys| - 1]);
      var u := Admit(s, r, ys[|ys| - 1].arrivals, ys[|ys| - 1].now).0;
      e < |u.rq| && Unchecked(u.rq[e]) && WriteWaits(cfg, u.wq, u.rq[e].value.address)
    ensures e < |Run(cfg, ys).0.rq| && Run(cfg, ys).0.rq[e].None?
  {
    hide Operate, Start, Admit, Run, RunOk, ArrivalOk, WriteWaits, Unchecked;
    var n := |ys| - 1;
    RunStep(cfg, ys);
    var (s, r) := Run(cfg, ys[..n]);
    var u := Admit(s, r, ys[n].arrivals, ys[n].now).0;
    OperateForwards(cfg, u, ys[n].now, ys[n].warmup, e);
  }

  lemma {:induction false} OperateForwards(cfg: Config, u: Chan, now: int, warmup: bool, e: nat)
    requires Sized(cfg, u) && e < |u.rq| && Unchecked(u.rq[e]) && WriteWaits(cfg, u.wq, u.rq[e].value.address)
    ensures var t := Operate(cfg, u, now, warmup); e < |t.rq| && t.rq[e].None?
  {
    var v := if warmup then Drain(u) else u;
    var c := CheckCollisions(cfg, v);
    assert Sized(cfg, c);
    if warmup {
      DrainedEmpty(u.rq, u.answers, 0);
      CheckReadsCollapses(cfg, c.wq, v.rq, v.answers, 0);
    } else {
      WritesKeepBlocks(cfg, u.wq, 0, u.rq[e].value.address);
      ForwardsAt(cfg, c.wq, u.rq, u.answers, 0, e);
    }
    hide CheckCollisions, Drain, FinishDbus, SwapWriteMode, ScheduleRefresh, PopulateDbus, MinPacket, WriteWaits;
    EmptySlotStays(cfg, c, e, now);
    BusIs(cfg, v, now);
    var t := OperateBus(cfg, v, now);
    hide OperateBus, ServicePacket;
    ServiceTaken(cfg, t, SchedulePacket(cfg, t), now);
  }

  lemma {:induction false} DrainedEmpty(rq: Queue, answers: seq<Answer>, i: nat)
    requires i <= |rq| && forall k :: 0 <= k < i ==> rq[k].None?
    ensures forall k :: 0 <= k < |rq| ==> DrainReads(rq, answers, i).0[k].None?
    decreases |rq| - i
  {
    if i < |rq| {
      var q, a := rq[i := None], if rq[i].Some? then answers + [AnswerTo(rq[i].value)] else answers;
      DrainedEmpty(q, a, i + 1);
      assert DrainReads(rq, answers, i) == DrainReads(q, a, i + 1);
    }
  }
}
