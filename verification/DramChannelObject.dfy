/** A DRAM channel as the object the simulator updates in place
    (src/dram_controller.cc: DRAM_CHANNEL). Every method is proved to take the step of
    DramChannel it is named after, and Operate to keep the invariant of DramRuns. */
module DramObject {
  import opened Sequences
  import opened SortedLists
  import opened Responses
  import opened DramAddress
  import opened DramChannel
  import opened DramInvariant
  import opened DramRuns

  class Channel {
    const cfg: Config
    const wq: array<Option<Request>>
    const rq: array<Option<Request>>
    const bankRequest: array<Bank>
    const bankgroupReady: array<int>
    var activeRequest: Option<nat>
    var writeMode: bool
    var dbusAvailable: int
    var lastRefresh: int
    /** The return queues of the upper levels, as one sequence of pushes. */
    var returned: seq<Response>
    ghost var answers: seq<Answer>
    ghost var transfers: seq<Transfer>

    ghost predicate Shaped()
      reads this
    {
      && cfg.Valid() && wq.Length == cfg.wqSize && rq.Length == cfg.rqSize && wq != rq
      && bankRequest.Length == Banks(cfg.g) && bankgroupReady.Length == Bankgroups(cfg.g)
      && returned == Pushed(answers)
    }

    ghost function Repr(): set<object> { {this, wq, rq, bankRequest, bankgroupReady} }

    ghost function Snapshot(): (s: Chan)
      reads Repr()
    {
      Chan(wq[..], rq[..], bankRequest[..],
        Bus(activeRequest, writeMode, dbusAvailable, bankgroupReady[..], lastRefresh), answers, transfers)
    }

    constructor (cfg: Config)
      requires cfg.Valid()
      ensures this.cfg == cfg && Shaped() && Snapshot() == Start(cfg) && fresh(Repr())
    {
      this.cfg := cfg;
      wq := new Option<Request>[cfg.wqSize](_ => None);
      rq := new Option<Request>[cfg.rqSize](_ => None);
      bankRequest := new Bank[Banks(cfg.g)](_ => Idle());
      bankgroupReady := new int[Bankgroups(cfg.g)](_ => 0);
      activeRequest, writeMode, dbusAvailable, lastRefresh := None, false, 0, 0;
      returned, answers, transfers := [], [], [];
      new;
      hide Banks, Bankgroups;
      assert wq[..] == Start(cfg).wq && rq[..] == Start(cfg).rq && bankRequest[..] == Start(cfg).banks
        && bankgroupReady[..] == Start(cfg).bus.bgReady;
    }

    // ---- the packet behind an iterator ----

    function Packet(p: Slot): (x: Option<Request>)
      reads wq, rq
      ensures x == At(wq[..], rq[..], p)
    {
      if p.write then (if p.index < wq.Length then wq[p.index] else None)
        else (if p.index < rq.Length then rq[p.index] else None)
    }

    method SetPacket(p: Slot, x: Option<Request>)
      requires wq != rq
      modifies wq, rq
      ensures Snapshot() == SetAt(old(Snapshot()), p, x)
    {
      if p.write {
        if p.index < wq.Length { wq[p.index] := x; }
      } else {
        if p.index < rq.Length { rq[p.index] := x; }
      }
      assert wq[..] == SetAt(old(Snapshot()), p, x).wq && rq[..] == SetAt(old(Snapshot()), p, x).rq;
    }

    /** Push one response to every return queue of a completed packet. */
    method PushResponses(x: Request)
      requires Shaped()
      modifies this`returned, this`answers
      ensures Shaped() && answers == old(answers) + [AnswerTo(x)]
    {
      PushedAppend(answers, AnswerTo(x));
      returned := Push(returned, AnswerTo(x));
      answers := answers + [AnswerTo(x)];
    }

    // ---- collision checks ----

    /** std::find_if over slots lo..hi. */
    method Find(write: bool, lo: nat, hi: nat, a: nat) returns (k: nat)
      requires lo <= hi <= (if write then wq else rq).Length
      ensures k == FindBlock(cfg, if write then wq[..] else rq[..], lo, hi, a)
    {
      ghost var q := if write then wq[..] else rq[..];
      k := lo;
      while k < hi
        invariant lo <= k <= hi && FindBlock(cfg, q, k, hi, a) == FindBlock(cfg, q, lo, hi, a)
      {
        var x := if write then wq[k] else rq[k];
        if x.Some? && IsCollision(cfg.g, x.value.address, a) {
          return;
        }
        k := k + 1;
      }
    }

    method CheckWriteCollision()
      requires Shaped()
      modifies wq
      ensures wq[..] == CheckWrites(cfg, old(wq[..]), 0)
    {
      for i := 0 to wq.Length
        invariant CheckWrites(cfg, wq[..], i) == CheckWrites(cfg, old(wq[..]), 0)
      {
        if wq[i].Some? && !wq[i].value.checked {
          var found := Find(true, 0, i, wq[i].value.address);
          if found == i {
            found := Find(true, i + 1, wq.Length, wq[i].value.address);
          }
          wq[i] := if found != wq.Length then None else Some(wq[i].value.(checked := true));
        }
      }
    }

    method CheckReadCollision()
      requires Shaped()
      modifies rq, this`returned, this`answers
      ensures Shaped() && (rq[..], answers) == CheckReads(cfg, wq[..], old(rq[..]), old(answers), 0)
    {
      for i := 0 to rq.Length
        invariant Shaped() && wq[..] == old(wq[..])
        invariant CheckReads(cfg, wq[..], rq[..], answers, i) == CheckReads(cfg, wq[..], old(rq[..]), old(answers), 0)
      {
        if rq[i].Some? && !rq[i].value.checked {
          ResolveRead(i);
        }
      }
    }

    /** One unchecked entry: forward from a write, or merge into another read. */
    method ResolveRead(i: nat)
      requires Shaped() && i < rq.Length && Unchecked(rq[i])
      modifies rq, this`returned, this`answers
      ensures Shaped() && (rq[..], answers) == CheckRead(cfg, wq[..], old(rq[..]), old(answers), i)
    {
      var x := rq[i].value;
      ghost var q := rq[..];
      var w := Find(true, 0, wq.Length, x.address);
      if w != wq.Length {
        PushResponses(x);
        rq[i] := None;
      } else {
        var found := Find(false, 0, i, x.address);
        if found == i {
          found := Find(false, i + 1, rq.Length, x.address);
        }
        if found != rq.Length {
          rq[found] := Some(MergeRead(rq[found].value, x));
          rq[i] := None;
        } else {
          rq[i] := Some(x.(checked := true));
        }
      }
    }

    // ---- finish_dbus_request ----

    method FinishDbusRequest(now: int)
      requires Shaped()
      modifies Repr()
      ensures Shaped() && Snapshot() == FinishDbus(old(Snapshot()), now)
    {
      hide Pushed, AnswerTo;
      if activeRequest.Some? && activeRequest.value < bankRequest.Length
        && bankRequest[activeRequest.value].ready <= now {
        var b := activeRequest.value;
        var p := bankRequest[b].pkt;
        var x := Packet(p);
        if x.Some? { PushResponses(x.value); }
        bankRequest[b] := bankRequest[b].(valid := false);
        SetPacket(p, None);
        activeRequest := None;
      }
    }

    // ---- swap_write_mode ----

    method CountOccupied(write: bool) returns (n: nat)
      ensures n == Occupancy(if write then wq[..] else rq[..])
    {
      ghost var q := if write then wq[..] else rq[..];
      var len := if write then wq.Length else rq.Length;
      n := 0;
      assert q[0..] == q;
      for i := 0 to len
        invariant n + Occupancy(q[i..]) == Occupancy(q)
      {
        assert q[i..][1..] == q[i + 1..];
        if (if write then wq[i] else rq[i]).Some? { n := n + 1; }
      }
    }

    method ResetScheduled(now: int)
      requires Shaped()
      modifies wq, rq, bankRequest
      ensures Snapshot() == ResetBanks(cfg, old(Snapshot()), 0, now)
    {
      for i := 0 to bankRequest.Length
        invariant ResetBanks(cfg, Snapshot(), i, now) == ResetBanks(cfg, old(Snapshot()), 0, now)
      {
        if activeRequest != Some(i) && bankRequest[i].valid {
          ReleaseBank(i, now);
        }
      }
    }

    method ReleaseBank(i: nat, now: int)
      requires Shaped() && i < bankRequest.Length
      modifies wq, rq, bankRequest
      ensures Snapshot() == ResetBank(cfg, old(Snapshot()), i, now)
    {
      var b := bankRequest[i];
      var x := Packet(b.pkt);
      if x.Some? { SetPacket(b.pkt, Some(x.value.(scheduled := false, ready := Some(now)))); }
      bankRequest[i] := b.(openRow := if b.ready < now + cfg.t.tCAS then None else b.openRow, valid := false);
    }

    method SwapMode(now: int)
      requires Shaped()
      modifies this`writeMode, this`dbusAvailable, wq, rq, bankRequest
      ensures Snapshot() == SwapWriteMode(cfg, old(Snapshot()), now)
    {
      var high, low := wq.Length * 7 / 8, wq.Length * 6 / 8;
      var w := CountOccupied(true);
      var r := CountOccupied(false);
      hide ResetBanks, Occupancy;
      if (!writeMode && (w >= high || (r == 0 && w > 0))) || (writeMode && (w == 0 || (r > 0 && w < low))) {
        ResetScheduled(now);
        var from := if activeRequest.Some? && activeRequest.value < bankRequest.Length
          then bankRequest[activeRequest.value].ready else now;
        dbusAvailable := from + cfg.t.turnAround;
        writeMode := !writeMode;
      }
    }

    // ---- schedule_refresh ----

    method RefreshBanks(now: int)
      requires Shaped()
      modifies bankRequest, this`lastRefresh
      ensures Snapshot() == ScheduleRefresh(cfg, old(Snapshot()), now)
    {
      var due := now >= lastRefresh + cfg.t.tREF;
      if due { lastRefresh := now; }
      for i := 0 to bankRequest.Length
        invariant lastRefresh == if due then now else old(lastRefresh)
        invariant forall k :: 0 <= k < bankRequest.Length ==>
          bankRequest[k] == if k < i then RefreshBank(cfg, old(bankRequest[k]), due, now) else old(bankRequest[k])
      {
        var b := bankRequest[i];
        if due { b := b.(needRefresh := true); }
        if b.needRefresh && !b.valid {
          b := b.(ready := now + cfg.t.tRFC, needRefresh := false, underRefresh := true, refreshed := Some(now),
                  refreshes := b.refreshes + 1);
        } else if b.underRefresh && b.ready <= now {
          b := b.(underRefresh := false, openRow := None);
        }
        bankRequest[i] := b;
      }
      assert bankRequest[..] == ScheduleRefresh(cfg, old(Snapshot()), now).banks;
    }

    // ---- populate_dbus ----

    /** std::min_element over the banks. */
    method NextBank() returns (k: nat)
      requires bankRequest.Length > 0
      ensures k == MinBank(bankRequest[..], 0, 1) && k < bankRequest.Length
    {
      k := 0;
      for i := 1 to bankRequest.Length
        invariant k < bankRequest.Length && MinBank(bankRequest[..], k, i) == MinBank(bankRequest[..], 0, 1)
      {
        if Sooner(bankRequest[i], bankRequest[k]) { k := i; }
      }
    }

    method Populate(now: int)
      requires Shaped()
      modifies this`activeRequest, this`transfers, bankRequest, bankgroupReady
      ensures Snapshot() == PopulateDbus(cfg, old(Snapshot()), now)
    {
      hide MinBank, BankgroupOf, Pushed;
      if bankRequest.Length > 0 {
        var k := NextBank();
        var x := Packet(bankRequest[k].pkt);
        if bankRequest[k].valid && bankRequest[k].ready <= now && activeRequest.None? && dbusAvailable <= now
          && x.Some? {
          var bg := BankgroupOf(cfg, x.value.address);
          var start := Max(now, bankgroupReady[bg]);
          activeRequest := Some(k);
          transfers := transfers + [Transfer(now, start, start + cfg.t.returnTime, bankRequest[k].pkt.write, bg,
            x.value.address, bankRequest[k].last)];
          bankRequest[k] := bankRequest[k].(ready := start + cfg.t.returnTime);
          bankgroupReady[bg] := now + cfg.t.returnTime + cfg.t.stall;
        }
      }
    }

    // ---- schedule_packet, service_packet ----

    /** std::min_element over the current mode's queue. */
    method NextPacket() returns (p: Slot)
      requires Shaped()
      ensures p == SchedulePacket(cfg, Snapshot())
    {
      ghost var q := if writeMode then wq[..] else rq[..];
      var len := if writeMode then wq.Length else rq.Length;
      var k := 0;
      for i := 1 to len
        invariant k < len && MinPacket(cfg, bankRequest[..], q, k, i) == MinPacket(cfg, bankRequest[..], q, 0, 1)
      {
        var better := Prefers(if writeMode then wq[i] else rq[i], if writeMode then wq[k] else rq[k]);
        if better { k := i; }
      }
      p := Slot(writeMode, k);
    }

    /** The comparator of schedule_packet. */
    method Prefers(l: Option<Request>, r: Option<Request>) returns (b: bool)
      requires Shaped()
      ensures b == Preferred(cfg, bankRequest[..], l, r)
    {
      if !Pending(r) {
        return true;
      }
      if !Pending(l) {
        return false;
      }
      var rready := !bankRequest[BankOf(cfg, r.value.address)].valid;
      var lready := !bankRequest[BankOf(cfg, l.value.address)].valid;
      return if rready == lready then NoLater(l.value.ready, r.value.ready) else lready;
    }

    method Service(p: Slot, now: int)
      requires Shaped()
      modifies wq, rq, bankRequest
      ensures Snapshot() == ServicePacket(cfg, old(Snapshot()), p, now)
    {
      hide BankOf, RowOf, Pushed;
      var x := Packet(p);
      if x.Some? && x.value.ready.Some? && x.value.ready.value <= now {
        var b := BankOf(cfg, x.value.address);
        var row := RowOf(cfg.g, x.value.address);
        var bank := bankRequest[b];
        if !bank.valid && !bank.underRefresh {
          var hit := bank.openRow == Some(row);
          var charge := if bank.openRow.Some? then cfg.t.tRP + cfg.t.tRCD else cfg.t.tRCD;
          var at := now + cfg.t.tCAS + (if hit then 0 else charge);
          bankRequest[b] := Bank(true, hit, false, false, Some(row), at, p, bank.refreshed, bank.refreshes,
            Some(Access(now, x.value.address, bank.openRow)), bank.served + 1);
          SetPacket(p, Some(x.value.(scheduled := true, ready := None)));
        }
      }
    }

    // ---- operate ----

    method DrainQueues()
      requires Shaped()
      modifies Repr()
      ensures Shaped() && Snapshot() == Drain(old(Snapshot()))
    {
      ghost var s := Snapshot();
      for i := 0 to rq.Length
        invariant Shaped() && wq[..] == s.wq && Snapshot() == s.(rq := rq[..], answers := answers)
        invariant DrainReads(rq[..], answers, i) == DrainReads(s.rq, s.answers, 0)
      {
        if rq[i].Some? {
          PushResponses(rq[i].value);
        }
        rq[i] := None;
      }
      for i := 0 to wq.Length
        invariant Shaped() && Snapshot() == Drain(s).(wq := wq[..])
        invariant forall k :: 0 <= k < i ==> wq[k].None?
      {
        wq[i] := None;
      }
      assert wq[..] == seq(|s.wq|, _ => None);
    }

    method RunCycle(now: int, warmup: bool)
      requires Shaped()
      modifies Repr()
      ensures Shaped() && Snapshot() == DramChannel.Operate(cfg, old(Snapshot()), now, warmup)
    {
      hide CheckWrites, CheckReads, Drain, FinishDbus, SwapWriteMode, ScheduleRefresh, PopulateDbus, SchedulePacket,
        ServicePacket;
      if warmup { DrainQueues(); }
      CheckWriteCollision();
      CheckReadCollision();
      FinishDbusRequest(now);
      SwapMode(now);
      RefreshBanks(now);
      Populate(now);
      var p := NextPacket();
      Service(p, now);
    }

    ghost predicate Valid(accepted: seq<Read>, now: int, warmup: bool)
      reads Repr()
    {
      Shaped() && Inv(cfg, Snapshot(), accepted, now, warmup)
    }

    method Operate(now: int, warmup: bool, ghost accepted: seq<Read>)
      requires Valid(accepted, now, warmup)
      modifies Repr()
      ensures Snapshot() == DramChannel.Operate(cfg, old(Snapshot()), now, warmup)
      ensures Valid(accepted, now, warmup)
    {
      OperateInv(cfg, Snapshot(), accepted, now, warmup);
      hide DramChannel.Operate, Inv;
      RunCycle(now, warmup);
    }
  }
}
