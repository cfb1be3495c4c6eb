/** How long each row access of a DRAM channel takes, and which row a bank holds. */
module DramTiming {
  import opened Sequences
  import opened DramAddress
  import opened DramChannel
  import opened DramInvariant
  import opened DramRuns

  // ---- the invariant ----

  /** When a bank that took a packet is ready: a column access if the row was open, with an
      activation if none was, and with a precharge as well if another was. */
  ghost function AccessTime(cfg: Config, a: Access): int {
    a.at + (if a.before.None? then cfg.t.tRCD + cfg.t.tCAS
            else if a.before.value == RowOf(cfg.g, a.address) then cfg.t.tCAS
            else cfg.t.tRP + cfg.t.tRCD + cfg.t.tCAS)
  }

  /** The row a bank holds is that of the last packet it took; none from before a refresh. */
  ghost predicate RowHeld(cfg: Config, k: Bank, now: int) {
    && (k.openRow.Some? ==> k.last.Some? && k.openRow.value == RowOf(cfg.g, k.last.value.address))
    && (k.last.Some? ==> k.last.value.at <= now)
    && (k.last.Some? && k.refreshed.Some? && k.last.value.at < k.refreshed.value && !k.underRefresh ==>
      k.openRow.None?)
  }

  /** A bank that works on a packet holds its row, and is ready when its access is over; on the
      bus, no earlier. */
  ghost predicate Accessing(cfg: Config, s: Chan, b: nat)
    requires b < |s.banks|
  {
    var k := s.banks[b];
    k.valid ==>
      && k.last.Some? && At(s.wq, s.rq, k.pkt).Some? && At(s.wq, s.rq, k.pkt).value.address == k.last.value.address
      && k.openRow == Some(RowOf(cfg.g, k.last.value.address)) && k.rowHit == (k.last.value.before == k.openRow)
      && (if s.bus.active == Some(b) then k.ready >= AccessTime(cfg, k.last.value)
          else k.ready == AccessTime(cfg, k.last.value))
  }

  /** A transfer starts only when its access is over. */
  ghost predicate TransferTimed(cfg: Config, x: Transfer)
    requires cfg.Valid()
  {
    && x.access.Some? && x.access.value.address == x.address && x.bankgroup == BankgroupOf(cfg, x.address)
    && AccessTime(cfg, x.access.value) <= x.issued <= x.start
  }

  ghost predicate RowsOk(cfg: Config, s: Chan, now: int)
    requires cfg.Valid()
  {
    && (forall b :: 0 <= b < |s.banks| ==> RowHeld(cfg, s.banks[b], now) && Accessing(cfg, s, b))
    && (forall i :: 0 <= i < |s.transfers| ==> TransferTimed(cfg, s.transfers[i]))
  }

  lemma RowsLater(cfg: Config, s: Chan, now: int, later: int)
    requires cfg.Valid() && RowsOk(cfg, s, now) && now <= later
    ensures RowsOk(cfg, s, later)
  {
    hide TransferTimed, Accessing;
  }

  // ---- each step ----

  /** The packets of the valid banks stay, with their addresses. */
  lemma KeptPackets(cfg: Config, s: Chan, t: Chan, now: int)
    requires cfg.Valid() && RowsOk(cfg, s, now) && t.banks == s.banks && t.bus == s.bus && t.transfers == s.transfers
    requires forall b :: 0 <= b < |s.banks| && s.banks[b].valid ==>
      var x, y := At(s.wq, s.rq, s.banks[b].pkt), At(t.wq, t.rq, s.banks[b].pkt);
      x.Some? ==> y.Some? && y.value.address == x.value.address
    ensures RowsOk(cfg, t, now)
  {
    hide RowHeld, TransferTimed, AccessTime, At;
    forall b | 0 <= b < |t.banks| ensures Accessing(cfg, t, b) { assert Accessing(cfg, s, b); }
  }

  lemma CollisionRows(cfg: Config, s: Chan, now: int)
    requires Matched(cfg, s) && RowsOk(cfg, s, now)
    ensures RowsOk(cfg, CheckCollisions(cfg, s), now)
  {
    var t := CheckCollisions(cfg, s);
    CheckWritesCollapses(cfg, s.wq, 0);
    CheckReadsCollapses(cfg, t.wq, s.rq, s.answers, 0);
    hide CheckWrites, CheckReads, RowsOk, BankOf;
    forall b | 0 <= b < |s.banks| && s.banks[b].valid
      ensures var x, y := At(s.wq, s.rq, s.banks[b].pkt), At(t.wq, t.rq, s.banks[b].pkt);
        x.Some? ==> y.Some? && y.value.address == x.value.address
    {
      assert BankHolds(cfg, s, b);
      assert SlotHeld(cfg, s, s.banks[b].pkt);
    }
    KeptPackets(cfg, s, t, now);
  }

  /** A valid bank's packet is its own. */
  lemma OwnPacket(cfg: Config, s: Chan, b: nat, c: nat)
    requires Matched(cfg, s) && b < |s.banks| && c < |s.banks| && s.banks[b].valid && s.banks[c].valid && b != c
    ensures s.banks[b].pkt != s.banks[c].pkt
  {
    hide BankOf;
    assert BankHolds(cfg, s, b) && BankHolds(cfg, s, c);
  }

  lemma FinishRows(cfg: Config, s: Chan, now: int)
    requires Matched(cfg, s) && RowsOk(cfg, s, now)
    ensures RowsOk(cfg, FinishDbus(s, now), now)
  {
    hide RowHeld, TransferTimed, AccessTime, BankHolds, SlotHeld, RowOf;
    if BusDone(s, now) {
      var t, a := FinishDbus(s, now), s.bus.active.value;
      forall b | 0 <= b < |t.banks| ensures RowHeld(cfg, t.banks[b], now) && Accessing(cfg, t, b) {
        assert RowHeld(cfg, s.banks[b], now) && Accessing(cfg, s, b);
        if b != a && s.banks[b].valid { OwnPacket(cfg, s, b, a); }
        if b == a { SameRow(cfg, s.banks[b], t.banks[b], now); }
      }
    }
  }

  lemma SameRow(cfg: Config, k: Bank, l: Bank, now: int)
    requires RowHeld(cfg, k, now) && l.last == k.last && l.refreshed == k.refreshed
    requires l.underRefresh == k.underRefresh && (l.openRow == k.openRow || l.openRow.None?)
    ensures RowHeld(cfg, l, now)
  {
  }

  lemma ResetRows(cfg: Config, s: Chan, i: nat, now: int)
    requires Matched(cfg, s) && RowsOk(cfg, s, now) && i < |s.banks| && s.bus.active != Some(i) && s.banks[i].valid
    ensures RowsOk(cfg, ResetBank(cfg, s, i, now), now)
  {
    hide RowHeld, TransferTimed, AccessTime, BankHolds, SlotHeld, RowOf;
    var t := ResetBank(cfg, s, i, now);
    forall b | 0 <= b < |t.banks| ensures RowHeld(cfg, t.banks[b], now) && Accessing(cfg, t, b) {
      assert RowHeld(cfg, s.banks[b], now) && Accessing(cfg, s, b);
      if b != i && s.banks[b].valid { OwnPacket(cfg, s, b, i); }
      if b == i { SameRow(cfg, s.banks[b], t.banks[b], now); }
    }
  }

  lemma {:induction false} ResetBanksRows(cfg: Config, s: Chan, i: nat, now: int)
    requires Matched(cfg, s) && Refreshing(cfg, s, now) && RowsOk(cfg, s, now) && i <= |s.banks|
    ensures RowsOk(cfg, ResetBanks(cfg, s, i, now), now)
    decreases |s.banks| - i
  {
    hide Matched, Refreshing, ResetBank, RowsOk;
    if i < |s.banks| {
      if s.bus.active != Some(i) && s.banks[i].valid {
        ResetRows(cfg, s, i, now);
        ResetBankKeeps(cfg, s, i, now);
        ResetBanksRows(cfg, ResetBank(cfg, s, i, now), i + 1, now);
      } else {
        ResetBanksRows(cfg, s, i + 1, now);
      }
    }
  }

  lemma SwapRows(cfg: Config, s: Chan, now: int)
    requires Matched(cfg, s) && Refreshing(cfg, s, now) && RowsOk(cfg, s, now)
    ensures RowsOk(cfg, SwapWriteMode(cfg, s, now), now)
  {
    hide Matched, Refreshing, ResetBanks, RowHeld, TransferTimed, AccessTime;
    ResetBanksRows(cfg, s, 0, now);
    var r, t := ResetBanks(cfg, s, 0, now), SwapWriteMode(cfg, s, now);
    if ShouldSwap(s) {
      forall b | 0 <= b < |t.banks| ensures Accessing(cfg, t, b) { assert Accessing(cfg, r, b); }
    }
  }

  lemma RefreshBankRow(cfg: Config, k: Bank, due: bool, now: int)
    requires RowHeld(cfg, k, now) && BankRefresh(cfg, k, now)
    ensures RowHeld(cfg, RefreshBank(cfg, k, due, now), now)
  {
    hide RowOf;
  }

  lemma RefreshRows(cfg: Config, s: Chan, now: int)
    requires Matched(cfg, s) && Refreshing(cfg, s, now) && RowsOk(cfg, s, now)
    ensures RowsOk(cfg, ScheduleRefresh(cfg, s, now), now)
  {
    hide RowHeld, TransferTimed, AccessTime, SlotHeld, RowOf, BankRefresh;
    var t := ScheduleRefresh(cfg, s, now);
    var due := now >= s.bus.lastRefresh + cfg.t.tREF;
    forall b | 0 <= b < |t.banks| ensures RowHeld(cfg, t.banks[b], now) && Accessing(cfg, t, b) {
      assert RowHeld(cfg, s.banks[b], now) && Accessing(cfg, s, b) && BankRefresh(cfg, s.banks[b], now);
      RefreshBankRow(cfg, s.banks[b], due, now);
      if s.banks[b].valid { assert BankHolds(cfg, s, b); }
    }
  }

  lemma TransmitRows(cfg: Config, s: Chan, k: nat, now: int)
    requires Matched(cfg, s) && RowsOk(cfg, s, now) && k < |s.banks| && s.banks[k].valid && s.banks[k].ready <= now
    requires s.bus.active.None? && At(s.wq, s.rq, s.banks[k].pkt).Some?
    ensures RowsOk(cfg, Transmit(cfg, s, k, now), now)
  {
    hide RowHeld, AccessTime, BankHolds, SlotHeld, RowOf, BankgroupOf;
    var t := Transmit(cfg, s, k, now);
    forall b | 0 <= b < |t.banks| ensures RowHeld(cfg, t.banks[b], now) && Accessing(cfg, t, b) {
      assert RowHeld(cfg, s.banks[b], now) && Accessing(cfg, s, b);
      SameRow(cfg, s.banks[b], t.banks[b], now);
    }
    forall i | 0 <= i < |t.transfers| ensures TransferTimed(cfg, t.transfers[i]) {
      assert Accessing(cfg, s, k);
      if i < |s.transfers| { assert TransferTimed(cfg, s.transfers[i]); }
    }
  }

  lemma PopulateRows(cfg: Config, s: Chan, now: int)
    requires Matched(cfg, s) && RowsOk(cfg, s, now)
    ensures RowsOk(cfg, PopulateDbus(cfg, s, now), now)
  {
    hide RowsOk, BankHolds, SlotHeld, Transmit, MinBank;
    if s.banks != [] {
      var k := MinBank(s.banks, 0, 1);
      if s.banks[k].valid && s.banks[k].ready <= now && s.bus.active.None? && s.bus.available <= now
         && At(s.wq, s.rq, s.banks[k].pkt).Some? {
        TransmitRows(cfg, s, k, now);
      }
    }
  }

  /** What servicing sets. */
  lemma ServiceRows(cfg: Config, s: Chan, p: Slot, now: int)
    requires Matched(cfg, s) && Refreshing(cfg, s, now) && RowsOk(cfg, s, now)
    ensures RowsOk(cfg, ServicePacket(cfg, s, p, now), now)
  {
    hide TransferTimed, RowOf, BankOf;
    var t := ServicePacket(cfg, s, p, now);
    forall b | 0 <= b < |t.banks| ensures RowHeld(cfg, t.banks[b], now) && Accessing(cfg, t, b) {
      assert RowHeld(cfg, s.banks[b], now) && Accessing(cfg, s, b) && BankRefresh(cfg, s.banks[b], now);
      if s.banks[b].valid { assert BankHolds(cfg, s, b); }
    }
  }

  lemma EmptyRows(cfg: Config, s: Chan, t: Chan, now: int)
    requires cfg.Valid() && RowsOk(cfg, s, now) && Quiet(s) && t.banks == s.banks && t.transfers == s.transfers
    ensures RowsOk(cfg, t, now)
  {
    hide RowHeld, TransferTimed;
  }

  // ---- a cycle ----

  lemma BusRows(cfg: Config, s: Chan, accepted: seq<Read>, now: int, warmup: bool)
    requires DramRuns.Inv(cfg, s, accepted, now, warmup) && RowsOk(cfg, s, now)
    ensures RowsOk(cfg, OperateBus(cfg, s, now), now)
  {
    CollisionsInv(cfg, s, accepted, now, warmup);
    InvParts(cfg, s, accepted, now, warmup);
    CollisionRows(cfg, s, now);
    hide DramRuns.Inv, Steady, CheckCollisions, FinishDbus, SwapWriteMode, ScheduleRefresh, PopulateDbus, RowsOk, Empty,
      RefreshOwed, Matched, Refreshing;
    var s1 := CheckCollisions(cfg, s);
    FinishInv(cfg, s1, accepted, now);
    SteadyParts(cfg, s1, accepted, now);
    FinishRows(cfg, s1, now);
    var s2 := FinishDbus(s1, now);
    SwapInv(cfg, s2, accepted, now);
    SteadyParts(cfg, s2, accepted, now);
    SwapRows(cfg, s2, now);
    var s3 := SwapWriteMode(cfg, s2, now);
    RefreshInv(cfg, s3, accepted, now);
    SteadyParts(cfg, s3, accepted, now);
    RefreshRows(cfg, s3, now);
    var s4 := ScheduleRefresh(cfg, s3, now);
    SteadyParts(cfg, s4, accepted, now);
    PopulateRows(cfg, s4, now);
  }

  lemma InvParts(cfg: Config, s: Chan, accepted: seq<Read>, now: int, warmup: bool)
    requires DramRuns.Inv(cfg, s, accepted, now, warmup)
    ensures Matched(cfg, s) && Refreshing(cfg, s, now) && (warmup ==> Quiet(s))
  {
    hide Matched, Refreshing;
  }

  lemma SteadyParts(cfg: Config, s: Chan, accepted: seq<Read>, now: int)
    requires Steady(cfg, s, accepted, now)
    ensures Matched(cfg, s) && Refreshing(cfg, s, now)
  {
    hide Matched, Refreshing;
  }

  lemma {:induction false} OperateRows(cfg: Config, s: Chan, accepted: seq<Read>, now: int, warmup: bool)
    requires DramRuns.Inv(cfg, s, accepted, now, warmup) && RowsOk(cfg, s, now)
    ensures RowsOk(cfg, Operate(cfg, s, now, warmup), now)
  {
    InvParts(cfg, s, accepted, now, warmup);
    hide RowsOk, Quiet;
    var u := if warmup then Drain(s) else s;
    if warmup {
      DrainInv(cfg, s, accepted, now);
      EmptyRows(cfg, s, u, now);
    }
    hide DramRuns.Inv, Steady, Drain, Matched, Refreshing, RefreshOwed, OperateBus, ServicePacket, MinPacket;
    BusInv(cfg, u, accepted, now, warmup);
    BusRows(cfg, u, accepted, now, warmup);
    var t := OperateBus(cfg, u, now);
    SteadyParts(cfg, t, accepted, now);
    ServiceRows(cfg, t, SchedulePacket(cfg, t), now);
  }

  /** Which row a bank holds for the next packet, and whether it is under refresh, from the
      start of a cycle (`k`) to its end (`l`): a mode switch closes the row of a bank that would have
      been ready within a column access, the end of a refresh closes it, nothing else does. On the
      data bus, the bank lets go of its packet just when it is ready. */
  ghost predicate BankStep(cfg: Config, k: Bank, l: Bank, onBus: bool, switched: bool, now: int) {
    && k.served <= l.served <= k.served + 1
    && (l.served > k.served ==> l.last.Some? && l.last.value.at == now)
    && (l.underRefresh <==> l.refreshes > k.refreshes || (k.underRefresh && now < k.ready))
    && (onBus && k.valid ==>
      if now < k.ready then l.valid && l.served == k.served && l.ready == k.ready
      else l.valid ==> l.served > k.served)
    && (var held := if l.served > k.served then l.last.value.before else l.openRow;
        var closed := switched && k.valid && !onBus && k.ready < now + cfg.t.tCAS;
        held == if closed || (k.underRefresh && !l.underRefresh) then None else k.openRow)
  }

  lemma {:induction false} ResetBanksAt(cfg: Config, s: Chan, i: nat, now: int, b: nat)
    requires i <= |s.banks| && b < |s.banks|
    ensures var k := s.banks[b];
      ResetBanks(cfg, s, i, now).banks[b] ==
        if b >= i && s.bus.active != Some(b) && k.valid
        then k.(openRow := if k.ready < now + cfg.t.tCAS then None else k.openRow, valid := false) else k
    decreases |s.banks| - i
  {
    if i < |s.banks| {
      if s.bus.active != Some(i) && s.banks[i].valid {
        ResetBanksAt(cfg, ResetBank(cfg, s, i, now), i + 1, now, b);
      } else {
        ResetBanksAt(cfg, s, i + 1, now, b);
      }
    }
  }

  lemma FinishStep(s: Chan, now: int, b: nat)
    requires b < |s.banks|
    ensures var t := FinishDbus(s, now);
      && |t.banks| == |s.banks| && t.banks[b] == s.banks[b].(valid := t.banks[b].valid)
      && t.bus == s.bus.(active := t.bus.active)
      && (s.bus.active != Some(b) ==> t.banks[b] == s.banks[b] && t.bus.active != Some(b))
      && (s.bus.active == Some(b) ==> if s.banks[b].ready <= now then !t.banks[b].valid else t == s)
      && (t.banks[b].valid ==> s.banks[b].valid)
  {
  }

  lemma SwapStep(cfg: Config, s: Chan, now: int, b: nat)
    requires b < |s.banks|
    ensures var t, k := SwapWriteMode(cfg, s, now), s.banks[b];
      && |t.banks| == |s.banks| && t.bus == s.bus.(writeMode := t.bus.writeMode, available := t.bus.available)
      && t.banks[b] == if t.bus.writeMode != s.bus.writeMode && s.bus.active != Some(b) && k.valid
        then k.(openRow := if k.ready < now + cfg.t.tCAS then None else k.openRow, valid := false) else k
  {
    ResetBanksAt(cfg, s, 0, now, b);
    hide ResetBanks, ShouldSwap;
  }

  lemma PopulateStep(cfg: Config, s: Chan, now: int, b: nat)
    requires cfg.Valid() && b < |s.banks|
    ensures var t := PopulateDbus(cfg, s, now);
      && |t.banks| == |s.banks| && t.banks[b] == s.banks[b].(ready := t.banks[b].ready)
      && t.bus.writeMode == s.bus.writeMode && (s.bus.active.Some? ==> t == s)
  {
    hide MinBank, BankgroupOf;
  }

  lemma {:induction false} BusStep(cfg: Config, s: Chan, now: int, b: nat)
    requires Sized(cfg, s) && b < |s.banks|
    requires s.banks[b].underRefresh ==> !s.banks[b].valid
    ensures var t := OperateBus(cfg, s, now);
      && |t.banks| == |s.banks| && t.banks[b].served == s.banks[b].served && t.banks[b].last == s.banks[b].last
      && BankStep(cfg, s.banks[b], t.banks[b], s.bus.active == Some(b), t.bus.writeMode != s.bus.writeMode, now)
  {
    var s1 := CheckCollisions(cfg, s);
    CollisionStep(cfg, s);
    hide CheckCollisions, FinishDbus, SwapWriteMode, PopulateDbus, ScheduleRefresh, RefreshBank, BankStep;
    var s2 := FinishDbus(s1, now);
    FinishStep(s1, now, b);
    var s3 := SwapWriteMode(cfg, s2, now);
    SwapStep(cfg, s2, now, b);
    var due := now >= s3.bus.lastRefresh + cfg.t.tREF;
    var s4 := ScheduleRefresh(cfg, s3, now);
    RefreshAt(cfg, s3, now, b);
    PopulateStep(cfg, s4, now, b);
    assert OperateBus(cfg, s, now) == PopulateDbus(cfg, s4, now);
    hide OperateBus;
    ChainStep(cfg, s.banks[b], s2.banks[b], s3.banks[b], due, PopulateDbus(cfg, s4, now).banks[b], s.bus.active ==
      Some(b),
      s2.bus.active == Some(b), s3.bus.writeMode != s.bus.writeMode, now);
  }

  lemma CollisionStep(cfg: Config, s: Chan)
    ensures CheckCollisions(cfg, s).banks == s.banks && CheckCollisions(cfg, s).bus == s.bus
  {
  }

  lemma RefreshAt(cfg: Config, s: Chan, now: int, b: nat)
    requires b < |s.banks|
    ensures var t := ScheduleRefresh(cfg, s, now);
      && |t.banks| == |s.banks| && t.bus.writeMode == s.bus.writeMode && t.bus.active == s.bus.active
      && t.banks[b] == RefreshBank(cfg, s.banks[b], now >= s.bus.lastRefresh + cfg.t.tREF, now)
  {
    hide RefreshBank;
  }

  /** The steps of one bank, up to the data bus. */
  lemma ChainStep(cfg: Config, k: Bank, k2: Bank, k3: Bank, due: bool, l: Bank, onBus: bool, stillOn: bool,
      switched: bool, now: int)
    requires k.underRefresh ==> !k.valid
    requires k2 == k.(valid := k2.valid) && (k2.valid ==> k.valid) && (!onBus ==> k2 == k && !stillOn)
    requires onBus ==> if k.ready <= now then !k2.valid else k2 == k && stillOn
    requires k3 == if switched && !stillOn && k2.valid
      then k2.(openRow := if k2.ready < now + cfg.t.tCAS then None else k2.openRow, valid := false) else k2
    requires l == RefreshBank(cfg, k3, due, now).(ready := l.ready)
    requires stillOn ==> l == RefreshBank(cfg, k3, due, now)
    ensures l.served == k.served && l.last == k.last && BankStep(cfg, k, l, onBus, switched, now)
  {
    RefreshStep(cfg, k, k3, due, switched && k.valid && !onBus && k.ready < now + cfg.t.tCAS, now);
    hide RefreshBank;
  }

  lemma RefreshStep(cfg: Config, k: Bank, k3: Bank, due: bool, closed: bool, now: int)
    requires k3 == k.(openRow := k3.openRow, valid := k3.valid) && (k.underRefresh ==> !k3.valid)
    requires k3.openRow == if closed then None else k.openRow
    ensures var l := RefreshBank(cfg, k3, due, now);
      && l.served == k.served && l.last == k.last
      && (l.underRefresh <==> l.refreshes > k.refreshes || (k.underRefresh && now < k.ready))
      && l.openRow == (if closed || (k.underRefresh && !l.underRefresh) then None else k.openRow)
      && l.valid == k3.valid && (k3.valid ==> l.ready == k3.ready)
  {
  }

  lemma ServiceStep(cfg: Config, k: Bank, t: Chan, p: Slot, now: int, b: nat, onBus: bool, switched: bool)
    requires Sized(cfg, t) && b < |t.banks| && t.banks[b].served == k.served
    requires BankStep(cfg, k, t.banks[b], onBus, switched, now)
    ensures var r := ServicePacket(cfg, t, p, now);
      |r.banks| == |t.banks| && BankStep(cfg, k, r.banks[b], onBus, switched, now) && r.bus == t.bus
  {
    hide BankOf, RowOf;
  }

  lemma {:induction false} OperateStep(cfg: Config, s: Chan, accepted: seq<Read>, now: int, warmup: bool, b: nat)
    requires DramRuns.Inv(cfg, s, accepted, now, warmup) && b < |s.banks|
    ensures var t := Operate(cfg, s, now, warmup);
      && |t.banks| == |s.banks|
      && BankStep(cfg, s.banks[b], t.banks[b], s.bus.active == Some(b), t.bus.writeMode != s.bus.writeMode, now)
  {
    InvParts(cfg, s, accepted, now, warmup);
    assert BankRefresh(cfg, s.banks[b], now);
    var u := if warmup then Drain(s) else s;
    assert u.banks == s.banks && u.bus == s.bus;
    if warmup { DrainInv(cfg, s, accepted, now); }
    hide DramRuns.Inv, Drain, OperateBus, ServicePacket, MinPacket, BankStep, Refreshing, Quiet;
    BusStep(cfg, u, now, b);
    var t := OperateBus(cfg, u, now);
    ServiceStep(cfg, s.banks[b], t, SchedulePacket(cfg, t), now, b, s.bus.active == Some(b),
      t.bus.writeMode != s.bus.writeMode);
  }

  // ---- runs ----

  lemma {:induction false} AdmitRows(cfg: Config, s: Chan, accepted: seq<Read>, arrivals: seq<Arrival>, now: int)
    requires cfg.Valid() && RowsOk(cfg, s, now)
    ensures RowsOk(cfg, Admit(s, accepted, arrivals, now).0, now)
    decreases |arrivals|
  {
    hide RowsOk;
    if arrivals != [] {
      match arrivals[0]
      case ReadArrives(x) =>
        var (t, ok) := AddRead(s, x.address, x.deps, x.target, |accepted|, now);
        KeptPackets(cfg, s, t, now);
        AdmitRows(cfg, t, if ok then accepted + [x] else accepted, arrivals[1..], now);
      case WriteArrives(a, d) =>
        var t := AddWrite(s, a, d, now).0;
        KeptPackets(cfg, s, t, now);
        AdmitRows(cfg, t, accepted, arrivals[1..], now);
    }
  }

  lemma StartRows(cfg: Config, now: int)
    requires cfg.Valid()
    ensures RowsOk(cfg, Start(cfg), now)
  {
    hide RowOf;
  }

  lemma {:induction false} RunRows(cfg: Config, ys: seq<Cycle>)
    requires cfg.Valid() && RunOk(ys) && ys != []
    ensures RowsOk(cfg, Run(cfg, ys).0, ys[|ys| - 1].now)
    decreases |ys|
  {
    hide DramRuns.Inv, Operate, Start, Admit, Run, RunOk, ArrivalOk, RowsOk;
    var n := |ys| - 1;
    var y := ys[n];
    RunStep(cfg, ys);
    RunOkStep(ys);
    var (s, r) := Run(cfg, ys[..n]);
    if n == 0 {
      RunNothing(cfg, ys[..n]);
      StartRows(cfg, y.now);
    } else {
      RunRows(cfg, ys[..n]);
      RowsLater(cfg, s, ys[n - 1].now, y.now);
    }
    EnteredHolds(cfg, ys);
    AdmitRows(cfg, s, r, y.arrivals, y.now);
    var (t, more) := Admit(s, r, y.arrivals, y.now);
    OperateRows(cfg, t, more, y.now, y.warmup);
  }

  // ---- main results ----

  /** On every run, a transfer is for the address of the access it ends, in that address's
      bankgroup, and starts no earlier than tCAS after the bank took the packet if its row was
      open then, tRCD + tCAS if none was, and tRP + tRCD + tCAS if another was. */
  lemma {:induction false} TransfersWaitForTheirRow(cfg: Config, ys: seq<Cycle>, i: nat)
    requires cfg.Valid() && RunOk(ys) && ys != [] && i < |Run(cfg, ys).0.transfers|
    ensures var x := Run(cfg, ys).0.transfers[i];
      && x.access.Some? && x.access.value.address == x.address && x.bankgroup == BankgroupOf(cfg, x.address)
      && x.access.value.at
        + (if x.access.value.before.None? then cfg.t.tRCD + cfg.t.tCAS
           else if x.access.value.before.value == RowOf(cfg.g, x.address) then cfg.t.tCAS
           else cfg.t.tRP + cfg.t.tRCD + cfg.t.tCAS) <= x.issued <= x.start
  {
    hide Run, RunOk, BankgroupOf, RowOf;
    RunRows(cfg, ys);
    assert TransferTimed(cfg, Run(cfg, ys).0.transfers[i]);
  }

  /** On every run, a bank that works on a packet off the bus is ready at exactly that time, holds
      the packet's row, and knows whether it was open; the row that any bank holds is that of the
      last packet it took, and none from before its last finished refresh. */
  lemma {:induction false} BanksAreReadyInTime(cfg: Config, ys: seq<Cycle>, b: nat)
    requires cfg.Valid() && RunOk(ys) && ys != [] && b < |Run(cfg, ys).0.banks|
    ensures var s := Run(cfg, ys).0;
      var k := s.banks[b];
      && (k.openRow.Some? ==> k.last.Some? && k.openRow.value == RowOf(cfg.g, k.last.value.address))
      && (k.last.Some? && k.refreshed.Some? && k.last.value.at < k.refreshed.value && !k.underRefresh ==>
        k.openRow.None?)
      && (k.valid ==>
        && k.last.Some? && At(s.wq, s.rq, k.pkt).Some? && At(s.wq, s.rq, k.pkt).value.address == k.last.value.address
        && k.openRow.Some? && k.rowHit == (k.last.value.before == k.openRow)
        && (s.bus.active != Some(b) ==> k.ready == AccessTime(cfg, k.last.value)))
  {
    hide Run, RunOk, RowOf, AccessTime, TransferTimed;
    RunRows(cfg, ys);
    var s := Run(cfg, ys).0;
    assert RowHeld(cfg, s.banks[b], ys[|ys| - 1].now) && Accessing(cfg, s, b);
  }

  /** In every cycle of every run, the row a bank holds when it takes its next packet, or else at
      the end of the cycle, is the one it held before the cycle, but for two reasons: a refresh has
      ended, or the channel changed direction while the bank would be ready within tCAS. A refresh
      ends in the first cycle from its time on, unless another begins. */
  lemma {:induction false} RowsAreHeld(cfg: Config, ys: seq<Cycle>, b: nat)
    requires cfg.Valid() && RunOk(ys) && ys != [] && b < Banks(cfg.g)
    ensures var n := |ys| - 1;
      var s, t := Run(cfg, ys[..n]).0, Run(cfg, ys).0;
      && |s.banks| == |t.banks| == Banks(cfg.g)
      && BankStep(cfg, s.banks[b], t.banks[b], s.bus.active == Some(b), t.bus.writeMode != s.bus.writeMode, ys[n].now)
  {
    hide DramRuns.Inv, Operate, Start, Admit, Run, RunOk, ArrivalOk, BankStep;
    var n := |ys| - 1;
    RunStep(cfg, ys);
    var (s, r) := Run(cfg, ys[..n]);
    var (u, more) := Admit(s, r, ys[n].arrivals, ys[n].now);
    EnteredHolds(cfg, ys);
    AdmitBanks(s, r, ys[n].arrivals, ys[n].now);
    OperateStep(cfg, u, more, ys[n].now, ys[n].warmup, b);
  }
}
