/** When memory operations may start: never before their instruction has executed. */
module MemoryTiming {
  import opened Sequences
  import opened Instructions
  import opened RegisterAllocation
  import Renaming
  import opened LoadStoreQueue
  import Queues = LoadStoreInvariant
  import opened Core
  import opened CoreInvariant
  import opened CoreRuns

  // ---- the invariant ----

  /** The queue entries of an instruction are ready exactly when it has executed: its loads, and its
      stores until they finish, at the time the instruction itself is. */
  ghost predicate WokenOne(x: Instr, m: Mem) {
    && (forall s :: 0 <= s < |m.lq| && m.lq[s].Some? && m.lq[s].value.id == x.id ==>
      m.lq[s].value.ready == ReadyTime(x))
    && (forall q :: 0 <= q < |m.sq| && m.sq[q].id == x.id ==>
      (m.sq[q].ready.Some? <==> x.executed) && (!m.sq[q].issued ==> m.sq[q].ready == ReadyTime(x)))
  }

  ghost function ReadyTime(x: Instr): Option<int> {
    if x.executed then Some(x.ready) else None
  }

  ghost predicate IssuedReady(m: Mem) {
    && (forall s :: 0 <= s < |m.lq| && m.lq[s].Some? && m.lq[s].value.issued ==> m.lq[s].value.ready.Some?)
    && (forall q :: 0 <= q < |m.sq| && m.sq[q].issued ==> m.sq[q].ready.Some?)
  }

  ghost predicate Woken(rob: seq<Instr>, m: Mem) {
    IssuedReady(m) && forall i :: 0 <= i < |rob| ==> WokenOne(rob[i], m)
  }

  /** The same instructions, and the same of them have executed, with the same times. */
  ghost predicate SameFlags(rob: seq<Instr>, r: seq<Instr>) {
    |r| == |rob| && forall i :: 0 <= i < |rob| ==>
      r[i].id == rob[i].id && r[i].executed == rob[i].executed && ReadyTime(r[i]) == ReadyTime(rob[i])
  }

  lemma SameFlagsKeep(rob: seq<Instr>, r: seq<Instr>, m: Mem)
    requires Woken(rob, m) && SameFlags(rob, r)
    ensures Woken(r, m)
  {
    hide IssuedReady;
    forall i | 0 <= i < |r| ensures WokenOne(r[i], m) { assert WokenOne(rob[i], m); }
  }

  lemma FinishFlags(rob: seq<Instr>, id: nat)
    ensures SameFlags(rob, Finish(rob, id))
  {
    hide FindById;
  }

  /** A slot is freed, or its load is issued. */
  lemma LoadKeeps(rob: seq<Instr>, m: Mem, s: nat, x: Option<Load>)
    requires Woken(rob, m) && s < |m.lq|
    requires x.Some? ==>
      && m.lq[s].Some? && x.value.id == m.lq[s].value.id && x.value.ready == m.lq[s].value.ready
      && (x.value.issued ==> x.value.ready.Some?)
    ensures Woken(rob, m.(lq := m.lq[s := x]))
  {
    var w := m.(lq := m.lq[s := x]);
    forall i | 0 <= i < |rob| ensures WokenOne(rob[i], w) { assert WokenOne(rob[i], m); }
  }

  /** A store changes but for its owner and whether it is ready. */
  lemma StoreKeeps(rob: seq<Instr>, m: Mem, q: nat, x: Store)
    requires Woken(rob, m) && q < |m.sq|
    requires x.id == m.sq[q].id && (x.ready.Some? <==> m.sq[q].ready.Some?) && (x.issued ==> x.ready.Some?)
    requires !x.issued ==> x.ready == m.sq[q].ready && !m.sq[q].issued
    ensures Woken(rob, m.(sq := m.sq[q := x]))
  {
    var w := m.(sq := m.sq[q := x]);
    forall i | 0 <= i < |rob| ensures WokenOne(rob[i], w) { assert WokenOne(rob[i], m); }
  }

  // ---- operate_lsq, handle_memory_return ----

  lemma {:induction false} ReleaseKeeps(rob: seq<Instr>, m: Mem, deps: seq<nat>)
    requires Woken(rob, m)
    ensures var (r, lq) := Release(rob, m.lq, deps); Woken(r, m.(lq := lq)) && SameFlags(rob, r)
    decreases |deps|
  {
    hide Woken, Finish;
    if deps != [] {
      if deps[0] < |m.lq| && m.lq[deps[0]].Some? {
        var r := Finish(rob, m.lq[deps[0]].value.id);
        FinishFlags(rob, m.lq[deps[0]].value.id);
        SameFlagsKeep(rob, r, m);
        LoadKeeps(r, m, deps[0], None);
        ReleaseKeeps(r, m.(lq := m.lq[deps[0] := None]), deps[1..]);
      } else {
        ReleaseKeeps(rob, m, deps[1..]);
      }
    }
  }

  lemma FinishStoreKeeps(rob: seq<Instr>, m: Mem, q: nat, now: int)
    requires Woken(rob, m) && q < |m.sq| && m.sq[q].ready.Some?
    ensures var (r, w) := FinishStore(rob, m, q, now);
      Woken(r, w) && SameFlags(rob, r) && w.sq == m.sq[q := m.sq[q].(issued := true, ready := Some(now))]
  {
    hide Woken, Finish, Release;
    var f := Finish(rob, m.sq[q].id);
    FinishFlags(rob, m.sq[q].id);
    SameFlagsKeep(rob, f, m);
    ReleaseKeeps(f, m, m.sq[q].deps);
    var (r, lq) := Release(f, m.lq, m.sq[q].deps);
    StoreKeeps(r, m.(lq := lq), q, m.sq[q].(issued := true, ready := Some(now)));
  }

  lemma {:induction false} FinishStoresKeep(rob: seq<Instr>, m: Mem, q: nat, n: nat, now: int)
    requires Woken(rob, m) && q + n <= |m.sq| && forall p :: q <= p < q + n ==> m.sq[p].ready.Some?
    ensures var (r, w) := FinishStores(rob, m, q, n, now); Woken(r, w) && SameFlags(rob, r)
    decreases n
  {
    hide Woken, FinishStore;
    if n > 0 {
      FinishStoreKeeps(rob, m, q, now);
      var (r, w) := FinishStore(rob, m, q, now);
      FinishStoresKeep(r, w, q + 1, n - 1, now);
    }
  }

  lemma {:induction false} IssueLoadsKeep(rob: seq<Instr>, m: Mem, s: nat, bw: nat, now: int, accepts: nat -> bool)
    requires Woken(rob, m) && s <= |m.lq|
    ensures Woken(rob, m.(lq := IssueLoads(m.lq, s, bw, now, accepts)))
    decreases |m.lq| - s
  {
    hide Woken;
    if s < |m.lq| {
      if bw > 0 && m.lq[s].Some? && m.lq[s].value.producer.None? && !m.lq[s].value.issued
         && m.lq[s].value.ready.Some? && m.lq[s].value.ready.value < now && accepts(s) {
        var x := Some(m.lq[s].value.(issued := true));
        LoadKeeps(rob, m, s, x);
        IssueLoadsKeep(rob, m.(lq := m.lq[s := x]), s + 1, bw - 1, now, accepts);
      } else {
        IssueLoadsKeep(rob, m, s + 1, bw, now, accepts);
      }
    }
  }

  lemma DropStoresKeep(rob: seq<Instr>, m: Mem, c: nat)
    requires Woken(rob, m) && c <= |m.sq|
    ensures Woken(rob, WriteStores(m, c))
  {
    var w := WriteStores(m, c);
    forall i | 0 <= i < |rob| ensures WokenOne(rob[i], w) { assert WokenOne(rob[i], m); }
  }

  lemma OperateLsqKeeps(rob: seq<Instr>, m: Mem, now: int, sqWidth: nat, lqWidth: nat, writes: nat,
      accepts: nat -> bool)
    requires Woken(rob, m)
    ensures var (r, w) := OperateLsq(rob, m, now, sqWidth, lqWidth, writes, accepts); Woken(r, w)
  {
    hide Woken, FinishStores, SpanLen, IssueLoads;
    var u := SpanLen(m.sq, |m.sq|, (x: Store) => x.issued);
    var n := SpanLen(m.sq[u..], sqWidth, (x: Store) => !x.issued && Due(x.ready, now));
    forall p | u <= p < u + n ensures m.sq[p].ready.Some? { assert m.sq[p] == m.sq[u..][p - u]; }
    FinishStoresKeep(rob, m, u, n, now);
    var (r, w) := FinishStores(rob, m, u, n, now);
    var c := SpanLen(w.sq, Min(sqWidth - n, writes), (x: Store) => (rob == [] || x.id < rob[0].id)
      && Due(x.ready, now));
    DropStoresKeep(r, w, c);
    IssueLoadsKeep(r, WriteStores(w, c), 0, lqWidth, now, accepts);
  }

  lemma {:induction false} ReturnBlockKeeps(rob: seq<Instr>, m: Mem, s: nat, block: nat, blockSize: nat)
    requires Woken(rob, m) && s <= |m.lq| && blockSize > 0
    ensures var (r, lq) := ReturnBlock(rob, m.lq, s, block, blockSize); Woken(r, m.(lq := lq))
    decreases |m.lq| - s
  {
    hide Woken, Finish;
    if s < |m.lq| {
      if m.lq[s].Some? && m.lq[s].value.issued && m.lq[s].value.addr / blockSize == block {
        var r := Finish(rob, m.lq[s].value.id);
        FinishFlags(rob, m.lq[s].value.id);
        SameFlagsKeep(rob, r, m);
        LoadKeeps(r, m, s, None);
        ReturnBlockKeeps(r, m.(lq := m.lq[s := None]), s + 1, block, blockSize);
      } else {
        ReturnBlockKeeps(rob, m, s + 1, block, blockSize);
      }
    }
  }

  lemma {:induction false} ReturnBlocksKeep(rob: seq<Instr>, m: Mem, blocks: seq<nat>, blockSize: nat)
    requires Woken(rob, m) && blockSize > 0
    ensures var (r, lq) := ReturnBlocks(rob, m.lq, blocks, blockSize); Woken(r, m.(lq := lq))
    decreases |blocks|
  {
    hide Woken, ReturnBlock;
    if blocks != [] {
      ReturnBlockKeeps(rob, m, 0, blocks[0], blockSize);
      var (r, lq) := ReturnBlock(rob, m.lq, 0, blocks[0], blockSize);
      ReturnBlocksKeep(r, m.(lq := lq), blocks[1..], blockSize);
    }
  }

  // ---- do_memory_scheduling ----

  /** A new load of the newest instruction, which has not executed. */
  lemma NewLoadKeeps(rob: seq<Instr>, m: Mem, s: nat, x: Load)
    requires Woken(rob, m) && Queues.IdsIncrease(rob) && rob != [] && !rob[|rob| - 1].executed && s < |m.lq|
    requires x.id == rob[|rob| - 1].id && x.ready.None? && !x.issued
    ensures Woken(rob, m.(lq := m.lq[s := Some(x)]))
  {
    var w := m.(lq := m.lq[s := Some(x)]);
    forall i | 0 <= i < |rob| ensures WokenOne(rob[i], w) { assert WokenOne(rob[i], m); }
  }

  lemma NewStoresKeep(rob: seq<Instr>, m: Mem, addrs: seq<nat>)
    requires Woken(rob, m) && Queues.IdsIncrease(rob) && rob != [] && !rob[|rob| - 1].executed
    ensures Woken(rob, m.(sq := m.sq + NewStores(rob[|rob| - 1].id, addrs)))
  {
    hide NewStores;
    var w := m.(sq := m.sq + NewStores(rob[|rob| - 1].id, addrs));
    forall i | 0 <= i < |rob| ensures WokenOne(rob[i], w) { assert WokenOne(rob[i], m); }
  }

  lemma FlagsIds(rob: seq<Instr>, r: seq<Instr>)
    requires SameFlags(rob, r) && Queues.IdsIncrease(rob)
    ensures Queues.IdsIncrease(r)
  {
  }

  lemma ScheduleLoadKeeps(rob: seq<Instr>, m: Mem, addr: nat)
    requires Woken(rob, m) && Queues.IdsIncrease(rob) && rob != [] && !rob[|rob| - 1].executed
    requires FreeSlot(m.lq) < |m.lq|
    ensures var (r, w) := ScheduleLoad(rob, m, addr); Woken(r, w) && SameFlags(rob, r)
  {
    hide Woken, ForwardFrom, FreeSlot, Queues.IdsIncrease;
    var n := |rob| - 1;
    var s := FreeSlot(m.lq);
    var k := ForwardFrom(m.sq, addr);
    if k < |m.sq| && m.sq[k].addr == addr {
      if m.sq[k].issued {
        SameFlagsKeep(rob, rob[n := rob[n].(memDone := rob[n].memDone + 1)], m);
      } else {
        NewLoadKeeps(rob, m, s, Load(rob[n].id, addr, None, false, Some(m.sq[k].id)));
        StoreKeeps(rob, m.(lq := m.lq[s := Some(Load(rob[n].id, addr, None, false, Some(m.sq[k].id)))]), k,
          m.sq[k].(deps := m.sq[k].deps + [s]));
      }
    } else {
      NewLoadKeeps(rob, m, s, Load(rob[n].id, addr, None, false, None));
    }
  }

  lemma {:induction false} ScheduleLoadsKeep(rob: seq<Instr>, m: Mem, addrs: seq<nat>)
    requires Woken(rob, m) && Queues.IdsIncrease(rob) && rob != [] && !rob[|rob| - 1].executed
    requires |addrs| <= FreeSlots(m.lq)
    ensures var (r, w) := ScheduleLoads(rob, m, addrs); Woken(r, w) && SameFlags(rob, r)
    decreases |addrs|
  {
    hide Woken, ScheduleLoad, FreeSlots, FreeSlot, Queues.IdsIncrease;
    if addrs != [] {
      ScheduleLoadSlots(rob, m, addrs[0]);
      ScheduleLoadKeeps(rob, m, addrs[0]);
      var (r, w) := ScheduleLoad(rob, m, addrs[0]);
      FlagsIds(rob, r);
      ScheduleLoadsKeep(r, w, addrs[1..]);
    }
  }

  /** A new instruction has no queue entry yet. */
  lemma EnterKeeps(retired: seq<Instr>, rob: seq<Instr>, m: Mem, x: Instr)
    requires Woken(rob, m) && Queues.Inv(retired, rob, m) && Queues.IdsIncrease(retired + rob + [x])
    ensures Woken(rob + [x], m) && Queues.IdsIncrease(rob + [x])
  {
    hide Queues.Forwarding, Queues.Accounted, Queues.CompletedDone;
    var t, u := rob + [x], retired + rob + [x];
    assert forall i :: 0 <= i < |retired| ==> u[i] == retired[i];
    assert forall i :: 0 <= i < |t| ==> u[|retired| + i] == t[i];
    forall s | 0 <= s < |m.lq| && m.lq[s].Some? ensures m.lq[s].value.id != x.id {
      assert Queues.HasId(rob, m.lq[s].value.id);
      var j :| 0 <= j < |rob| && rob[j].id == m.lq[s].value.id;
      assert t[j].id < t[|rob|].id;
    }
    forall q | 0 <= q < |m.sq| ensures m.sq[q].id != x.id {
      assert Queues.HasId(retired + rob, m.sq[q].id);
      var j :| 0 <= j < |retired + rob| && (retired + rob)[j].id == m.sq[q].id;
      assert u[j].id < u[|retired + rob|].id;
    }
    forall i | 0 <= i < |t| ensures WokenOne(t[i], m) {
      if i < |rob| { assert WokenOne(rob[i], m); }
    }
  }

  // ---- the other steps of the back end ----

  lemma {:induction false} CompleteFlags(rob: seq<Instr>, a: Alloc, i: nat, bw: nat, now: int)
    requires i <= |rob|
    ensures SameFlags(rob, CompleteFrom(rob, a, i, bw, now).0)
    decreases |rob| - i
  {
    hide CompleteDests, CanComplete;
    if i < |rob| && bw > 0 {
      if CanComplete(rob[i], now) {
        CompleteFlags(rob[i := rob[i].(completed := true)], CompleteDests(a, rob[i].dst), i + 1, bw - 1, now);
      } else {
        CompleteFlags(rob, a, i + 1, bw, now);
      }
    }
  }

  lemma ScheduleInstrFlags(a: Alloc, x: Instr)
    requires EnoughNames(a, x)
    ensures var y := Renaming.ScheduleInstr(a, x).1; y.id == x.id && y.executed == x.executed && y.ready == x.ready
  {
    hide RenameSources, RenameDests;
  }

  lemma {:induction false} ScheduleFlags(rob: seq<Instr>, a: Alloc, i: nat, bw: nat, now: int)
    requires i <= |rob|
    ensures SameFlags(rob, ScheduleFrom(rob, a, i, bw, now).0)
    decreases |rob| - i
  {
    hide Renaming.ScheduleInstr;
    if i < |rob| && bw > 0 && EnoughNames(a, rob[i]) {
      ScheduleInstrFlags(a, rob[i]);
      hide EnoughNames;
      var next := bw - (if rob[i].executed then 0 else 1);
      if !rob[i].scheduled && rob[i].ready <= now {
        var (b, x) := Renaming.ScheduleInstr(a, rob[i]);
        ScheduleFlags(rob[i := x], b, i + 1, next, now);
      } else {
        ScheduleFlags(rob, a, i + 1, next, now);
      }
    }
  }

  /** Executing an instruction wakes its queue entries, and no other's. */
  lemma WakeKeeps(rob: seq<Instr>, m: Mem, i: nat, at: int)
    requires Woken(rob, m) && Queues.IdsIncrease(rob) && i < |rob|
    ensures Woken(rob[i := rob[i].(executed := true, ready := at)], MarkReady(m, rob[i].id, at))
  {
    var r, w := rob[i := rob[i].(executed := true, ready := at)], MarkReady(m, rob[i].id, at);
    forall j | 0 <= j < |r| ensures WokenOne(r[j], w) { assert WokenOne(rob[j], m); }
  }

  lemma {:induction false} ExecuteWakes(rob: seq<Instr>, m: Mem, a: Alloc, i: nat, bw: nat, now: int, at: int)
    requires Woken(rob, m) && Queues.IdsIncrease(rob) && i <= |rob|
    ensures var (r, w) := ExecuteFrom(rob, m, a, i, bw, now, at); Woken(r, w)
    decreases |rob| - i
  {
    hide Woken, MarkReady, CanExecute;
    if i < |rob| && bw > 0 {
      if CanExecute(a, rob[i], now) {
        WakeKeeps(rob, m, i, at);
        var r := rob[i := rob[i].(executed := true, ready := at)];
        assert Queues.IdsIncrease(r);
        hide Queues.IdsIncrease;
        ExecuteWakes(r, MarkReady(m, rob[i].id, at), a, i + 1, bw - 1, now, at);
      } else {
        ExecuteWakes(rob, m, a, i + 1, bw, now, at);
      }
    }
  }

  lemma RetireWakes(cfg: Config, s: State)
    requires StateWoken(s)
    ensures StateWoken(Retire(cfg, s))
  {
    hide WokenOne, SpanLen;
  }

  ghost predicate StateWoken(s: State) { Woken(s.rob, s.mem) }

  lemma BackIds(cfg: Config, s: State, now: int, warmup: bool)
    requires BackInv(cfg, s, now, warmup)
    ensures Queues.IdsIncrease(s.rob)
  {
    hide Queues.Forwarding, Queues.Accounted, Queues.CompletedDone, Renaming.Inv, ReadyOrder;
  }

  lemma MemoryReturnWakes(cfg: Config, s: State, y: Cycle)
    requires cfg.Valid() && StateWoken(s)
    ensures StateWoken(MemoryReturn(cfg, s, y))
  {
    hide Woken, ReturnBlocks;
    ReturnBlocksKeep(s.rob, s.mem, y.blocks[..Min(|y.blocks|, cfg.l1dWidth)], cfg.blockSize);
  }

  lemma LsqWakes(cfg: Config, s: State, y: Cycle)
    requires StateWoken(s)
    ensures StateWoken(Lsq(cfg, s, y))
  {
    hide Woken, OperateLsq;
    OperateLsqKeeps(s.rob, s.mem, y.now, cfg.sqWidth, cfg.lqWidth, y.storeAccepts, y.loadAccepts);
  }

  lemma CompleteWakes(cfg: Config, s: State, now: int)
    requires StateWoken(s)
    ensures StateWoken(Complete(cfg, s, now))
  {
    hide Woken, CompleteFrom, SameFlags;
    CompleteFlags(s.rob, s.ra, 0, cfg.executeWidth, now);
    SameFlagsKeep(s.rob, Complete(cfg, s, now).rob, s.mem);
  }

  lemma ExecuteStageWakes(cfg: Config, s: State, now: int, warmup: bool)
    requires StateWoken(s) && Queues.IdsIncrease(s.rob)
    ensures StateWoken(Execute(cfg, s, now, warmup))
  {
    hide Woken, ExecuteFrom, Queues.IdsIncrease;
    ExecuteWakes(s.rob, s.mem, s.ra, 0, cfg.executeWidth, now, now + Delay(warmup, cfg.executeLatency));
  }

  lemma ScheduleWakes(cfg: Config, s: State, now: int)
    requires StateWoken(s)
    ensures StateWoken(Schedule(cfg, s, now))
  {
    hide Woken, ScheduleFrom, SameFlags;
    ScheduleFlags(s.rob, s.ra, 0, cfg.scheduleWidth, now);
    SameFlagsKeep(s.rob, Schedule(cfg, s, now).rob, s.mem);
  }

  lemma {:induction false} BackEndWakes(cfg: Config, s: State, y: Cycle)
    requires BackInv(cfg, s, y.now, y.warmup) && StateWoken(s)
    ensures cfg.Valid() && StateWoken(BackEnd(cfg, s, y))
  {
    assert cfg.Valid();
    hide BackInv, StateWoken, Retire, Complete, Execute, Schedule, MemoryReturn, Lsq, BackTags;
    RetireKeeps(cfg, s, y.now, y.warmup);
    RetireWakes(cfg, s);
    var s1 := Retire(cfg, s);
    CompleteKeeps(cfg, s1, y.now, y.warmup);
    CompleteWakes(cfg, s1, y.now);
    var s2 := Complete(cfg, s1, y.now);
    BackIds(cfg, s2, y.now, y.warmup);
    ExecuteStageWakes(cfg, s2, y.now, y.warmup);
    var s3 := Execute(cfg, s2, y.now, y.warmup);
    ScheduleWakes(cfg, s3, y.now);
    var s4 := Schedule(cfg, s3, y.now);
    MemoryReturnWakes(cfg, s4, y);
    LsqWakes(cfg, MemoryReturn(cfg, s4, y), y);
  }

  // ---- dispatch ----

  lemma NextUnstarted(cfg: Config, s: State, delivered: seq<Instr>, now: int, warmup: bool)
    requires Inv(cfg, s, delivered, now, warmup) && s.dispatch != []
    ensures Queues.Inv(s.retired, s.rob, s.mem) && Queues.IdsIncrease(s.retired + s.rob + [s.dispatch[0]])
    ensures !s.dispatch[0].executed
  {
    hide Queues.Inv, Renaming.Inv, ReadyOrder, ExactlyOnce, Queues.IdsIncrease;
    NextIsYoungest(s, delivered);
  }

  lemma DispatchOneWakes(cfg: Config, s: State, delivered: seq<Instr>, now: int, warmup: bool)
    requires Inv(cfg, s, delivered, now, warmup) && CanDispatch(cfg, s, now) && StateWoken(s)
    ensures StateWoken(DispatchOne(cfg, s, now, warmup))
  {
    hide Inv, Woken, Queues.Inv, Queues.IdsIncrease, FreeSlots, ScheduleLoads, NewStores;
    var x := s.dispatch[0];
    NextUnstarted(cfg, s, delivered, now, warmup);
    EnterKeeps(s.retired, s.rob, s.mem, x);
    var t := s.rob + [x];
    ScheduleLoadsKeep(t, s.mem, x.srcMem);
    var (r, w) := ScheduleLoads(t, s.mem, x.srcMem);
    FlagsIds(t, r);
    NewStoresKeep(r, w, x.dstMem);
    var v := w.(sq := w.sq + NewStores(x.id, x.dstMem));
    var n := |s.rob|;
    SameFlagsKeep(r, r[n := r[n].(ready := now + Delay(warmup, cfg.scheduleLatency))], v);
  }

  lemma {:induction false} DispatchWakes(cfg: Config, s: State, delivered: seq<Instr>, bw: nat, now: int, warmup: bool)
    requires Inv(cfg, s, delivered, now, warmup) && StateWoken(s)
    ensures StateWoken(Dispatch(cfg, s, bw, now, warmup))
    decreases bw
  {
    hide Inv, DispatchOne, CanDispatch, StateWoken;
    if bw > 0 && CanDispatch(cfg, s, now) {
      DispatchOneKeeps(cfg, s, delivered, now, warmup);
      DispatchOneWakes(cfg, s, delivered, now, warmup);
      DispatchWakes(cfg, DispatchOne(cfg, s, now, warmup), delivered, bw - 1, now, warmup);
    }
  }

  // ---- the cycle, and runs ----

  /** The front end touches neither the ROB nor the memory queues. */
  lemma FrontFrame(cfg: Config, s: State, y: Cycle)
    ensures var t := Fetch(cfg, Promote(cfg, Decode(cfg, s, y.now, y.warmup), y.now, y.warmup), y);
      t.rob == s.rob && t.mem == s.mem
  {
  }

  lemma {:induction false} OperateWakes(cfg: Config, s: State, delivered: seq<Instr>, now: int, warmup: bool, y: Cycle)
    requires Inv(cfg, s, delivered, now, warmup) && CoreInvariant.CycleOk(delivered, now, warmup, y) && StateWoken(s)
    ensures cfg.Valid() && StateWoken(Operate(cfg, s, y))
  {
    hide BackEnd, Dispatch, Decode, Promote, Fetch, BackInv, FrontInv, ExactlyOnce, Woken;
    var d := delivered + y.arrivals;
    ArriveKeeps(cfg, s, delivered, now, warmup, y);
    var s0 := s.(input := s.input + y.arrivals);
    BackEndWakes(cfg, s0, y);
    BackEndKeeps(cfg, s0, d, y);
    var s1 := BackEnd(cfg, s0, y);
    DispatchWakes(cfg, s1, d, cfg.dispatchWidth, y.now, y.warmup);
    FrontFrame(cfg, Dispatch(cfg, s1, cfg.dispatchWidth, y.now, y.warmup), y);
  }

  lemma {:induction false} RunWakes(cfg: Config, ys: seq<Cycle>)
    requires cfg.Valid() && RunOk(ys) && ys != []
    ensures StateWoken(Run(cfg, ys))
    decreases |ys|
  {
    hide Inv, CoreInvariant.CycleOk, Run, Trace, Operate, RunOk;
    if |ys| == 1 {
      FirstOk(ys);
      RunOne(cfg, ys);
      StartInv(cfg, ys[0].now, ys[0].warmup);
      OperateWakes(cfg, Start(cfg), [], ys[0].now, ys[0].warmup, ys[0]);
    } else {
      var n := |ys| - 1;
      RunMore(cfg, ys);
      Reachable(cfg, ys[..n]);
      RunWakes(cfg, ys[..n]);
      OperateWakes(cfg, Run(cfg, ys[..n]), Trace(ys[..n]), ys[n - 1].now, ys[n - 1].warmup, ys[n]);
    }
  }

  ghost predicate HasExecuted(s: State, id: nat) {
    exists i :: 0 <= i < |s.rob| && s.rob[i].id == id && s.rob[i].executed
  }

  /** On every run, the queue entries of an instruction in the ROB are ready exactly when it has
      executed, and at the time it is until a store finishes;
        a load is sent to the cache only for an instruction that has executed, and a store
      finishes only for one that has executed and may since have retired. */
  lemma {:induction false} MemoryWaitsForExecution(cfg: Config, ys: seq<Cycle>, i: nat, k: nat)
    requires cfg.Valid() && RunOk(ys) && ys != []
    ensures var s := Run(cfg, ys);
      && (k < |s.mem.lq| && s.mem.lq[k].Some? && s.mem.lq[k].value.issued ==> HasExecuted(s, s.mem.lq[k].value.id))
      && (k < |s.mem.sq| && s.mem.sq[k].issued ==>
        HasExecuted(s, s.mem.sq[k].id) || Queues.HasId(s.retired, s.mem.sq[k].id))
      && (i < |s.rob| && k < |s.mem.lq| && s.mem.lq[k].Some? && s.mem.lq[k].value.id == s.rob[i].id ==>
        s.mem.lq[k].value.ready == if s.rob[i].executed then Some(s.rob[i].ready) else None)
      && (i < |s.rob| && k < |s.mem.sq| && s.mem.sq[k].id == s.rob[i].id ==>
        && (s.mem.sq[k].ready.Some? <==> s.rob[i].executed)
        && (!s.mem.sq[k].issued ==> s.mem.sq[k].ready == if s.rob[i].executed then Some(s.rob[i].ready) else None))
  {
    hide Run, RunOk, Renaming.Inv, Queues.Forwarding, Queues.Accounted, Queues.CompletedDone, Queues.IdsIncrease;
    RunWakes(cfg, ys);
    ReachableBack(cfg, ys);
    var s := Run(cfg, ys);
    if i < |s.rob| { assert WokenOne(s.rob[i], s.mem); }
    if k < |s.mem.lq| && s.mem.lq[k].Some? && s.mem.lq[k].value.issued {
      assert Queues.HasId(s.rob, s.mem.lq[k].value.id);
      var j :| 0 <= j < |s.rob| && s.rob[j].id == s.mem.lq[k].value.id;
      assert WokenOne(s.rob[j], s.mem);
    }
    if k < |s.mem.sq| && s.mem.sq[k].issued { IssuedStore(s.retired, s.rob, s.mem, k); }
  }

  lemma IssuedStore(retired: seq<Instr>, rob: seq<Instr>, m: Mem, k: nat)
    requires Woken(rob, m) && k < |m.sq| && m.sq[k].issued && Queues.HasId(retired + rob, m.sq[k].id)
    ensures Queues.HasId(retired, m.sq[k].id) || exists i ::
      0 <= i < |rob| && rob[i].id == m.sq[k].id && rob[i].executed
  {
    var all := retired + rob;
    var j :| 0 <= j < |all| && all[j].id == m.sq[k].id;
    if j < |retired| {
      assert retired[j].id == m.sq[k].id;
    } else {
      assert WokenOne(rob[j - |retired|], m);
    }
  }
}
