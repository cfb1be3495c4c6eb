/** The assertions of the load and store queues at the calls where they stand, on every run
    (src/ooo_cpu.cc: do_memory_scheduling, do_finish_store, LSQ_ENTRY::finish). Each predicate
    follows the function it is named after and says that no assertion on its way fails. */
module Assertions {
  import opened Sequences
  import opened Instructions
  import opened LoadStoreQueue
  import opened LoadStoreInvariant
  import Renaming
  import opened Core
  import Kept = CoreInvariant
  import CoreRuns

  // ---- the assertions ----

  /** LSQ_ENTRY::finish: the search finds the instruction, which has an operation left. */
  ghost predicate FinishHolds(rob: seq<Instr>, id: nat) {
    var i := FindById(rob, id);
    i < |rob| && rob[i].id == id && rob[i].memDone + 1 <= rob[i].MemOps()
  }

  /** The loop of do_finish_store: each slot holds a load that waits on store `id`. */
  ghost predicate ReleaseHolds(rob: seq<Instr>, lq: seq<Option<Load>>, deps: seq<nat>, id: nat)
    decreases |deps|
  {
    deps != [] ==>
      var s := deps[0];
      && s < |lq| && lq[s].Some? && lq[s].value.producer == Some(id) && FinishHolds(rob, lq[s].value.id)
      && ReleaseHolds(Finish(rob, lq[s].value.id), lq[s := None], deps[1..], id)
  }

  ghost predicate FinishStoreHolds(rob: seq<Instr>, m: Mem, q: nat)
    requires q < |m.sq|
  {
    FinishHolds(rob, m.sq[q].id) && ReleaseHolds(Finish(rob, m.sq[q].id), m.lq, m.sq[q].deps, m.sq[q].id)
  }

  ghost predicate FinishStoresHold(rob: seq<Instr>, m: Mem, q: nat, n: nat, now: int)
    requires q + n <= |m.sq|
    decreases n
  {
    n > 0 ==>
      var (r, w) := FinishStore(rob, m, q, now);
      FinishStoreHolds(rob, m, q) && FinishStoresHold(r, w, q + 1, n - 1, now)
  }

  ghost predicate OperateLsqHolds(rob: seq<Instr>, m: Mem, now: int, sqWidth: nat) {
    var u := SpanLen(m.sq, |m.sq|, (x: Store) => x.issued);
    FinishStoresHold(rob, m, u, SpanLen(m.sq[u..], sqWidth, (x: Store) => !x.issued && Due(x.ready, now)), now)
  }

  ghost predicate ReturnBlockHolds(rob: seq<Instr>, lq: seq<Option<Load>>, s: nat, block: nat, blockSize: nat)
    requires s <= |lq| && blockSize > 0
    decreases |lq| - s
  {
    s < |lq| ==>
      if lq[s].Some? && lq[s].value.issued && lq[s].value.addr / blockSize == block then
        FinishHolds(rob, lq[s].value.id)
          && ReturnBlockHolds(Finish(rob, lq[s].value.id), lq[s := None], s + 1, block, blockSize)
      else
        ReturnBlockHolds(rob, lq, s + 1, block, blockSize)
  }

  ghost predicate ReturnBlocksHold(rob: seq<Instr>, lq: seq<Option<Load>>, blocks: seq<nat>, blockSize: nat)
    requires blockSize > 0
    decreases |blocks|
  {
    blocks != [] ==>
      var (r, q) := ReturnBlock(rob, lq, 0, blocks[0], blockSize);
      ReturnBlockHolds(rob, lq, 0, blocks[0], blockSize) && ReturnBlocksHold(r, q, blocks[1..], blockSize)
  }

  /** do_memory_scheduling: a slot is free; a load forwarded from an issued store finishes an
      operation that is left; a store to wait on is older. */
  ghost predicate ScheduleLoadHolds(rob: seq<Instr>, m: Mem, addr: nat)
    requires rob != []
  {
    var x, k := rob[|rob| - 1], ForwardFrom(m.sq, addr);
    && FreeSlot(m.lq) < |m.lq|
    && (k < |m.sq| && m.sq[k].addr == addr ==>
      if m.sq[k].issued then x.memDone + 1 <= x.MemOps() else m.sq[k].id < x.id)
  }

  ghost predicate ScheduleLoadsHold(rob: seq<Instr>, m: Mem, addrs: seq<nat>)
    requires rob != []
    decreases |addrs|
  {
    addrs != [] ==>
      && ScheduleLoadHolds(rob, m, addrs[0])
      && var (r, w) := ScheduleLoad(rob, m, addrs[0]);
         |r| == |rob| && ScheduleLoadsHold(r, w, addrs[1..])
  }

  ghost predicate MemoryReturnHolds(cfg: Config, s: State, y: Cycle)
    requires cfg.Valid()
  {
    ReturnBlocksHold(s.rob, s.mem.lq, y.blocks[..Min(|y.blocks|, cfg.l1dWidth)], cfg.blockSize)
  }

  ghost predicate LsqHolds(cfg: Config, s: State, y: Cycle) {
    OperateLsqHolds(s.rob, s.mem, y.now, cfg.sqWidth)
  }

  /** The state when memory returns are handled: after retirement, completion, execution and scheduling. */
  function AtReturns(cfg: Config, s: State, y: Cycle): State {
    Schedule(cfg, Execute(cfg, Complete(cfg, Retire(cfg, s), y.now), y.now, y.warmup), y.now)
  }

  ghost predicate BackEndHolds(cfg: Config, s: State, y: Cycle)
    requires cfg.Valid()
  {
    MemoryReturnHolds(cfg, AtReturns(cfg, s, y), y) && LsqHolds(cfg, MemoryReturn(cfg, AtReturns(cfg, s, y), y), y)
  }

  ghost predicate DispatchOneHolds(s: State)
    requires s.dispatch != []
  {
    ScheduleLoadsHold(s.rob + [s.dispatch[0]], s.mem, s.dispatch[0].srcMem)
  }

  ghost predicate DispatchHolds(cfg: Config, s: State, bw: nat, now: int, warmup: bool)
    decreases bw
  {
    bw > 0 && CanDispatch(cfg, s, now) ==>
      DispatchOneHolds(s) && DispatchHolds(cfg, DispatchOne(cfg, s, now, warmup), bw - 1, now, warmup)
  }

  ghost predicate OperateHolds(cfg: Config, s: State, y: Cycle)
    requires cfg.Valid()
  {
    var t := s.(input := s.input + y.arrivals);
    BackEndHolds(cfg, t, y) && DispatchHolds(cfg, BackEnd(cfg, t, y), cfg.dispatchWidth, y.now, y.warmup)
  }

  // ---- they hold wherever the invariant does ----

  lemma {:induction false} ReleaseSound(rob: seq<Instr>, m: Mem, released: seq<nat>, id: nat)
    requires InvAt(rob, m, 0, released)
    requires forall d :: 0 <= d < |released| ==> m.lq[released[d]].value.producer == Some(id)
    ensures ReleaseHolds(rob, m.lq, released, id)
    decreases |released|
  {
    hide Accounted, Owned, IdsIncrease, Forwarding, Finish, IsListed, FindById;
    if released != [] {
      var s := released[0];
      ReleaseOne(rob, m, released);
      FinishSound(rob, m, 0, released, s);
      var w := m.(lq := m.lq[s := None]);
      forall d | 0 <= d < |released[1..]| ensures w.lq[released[1..][d]].value.producer == Some(id) {
        assert released[1..][d] == released[d + 1] != s;
      }
      ReleaseSound(Finish(rob, m.lq[s].value.id), w, released[1..], id);
    }
  }

  lemma FinishSound(rob: seq<Instr>, m: Mem, slack: nat, released: seq<nat>, s: nat)
    requires InvAt(rob, m, slack, released) && s < |m.lq| && m.lq[s].Some?
    ensures FinishHolds(rob, m.lq[s].value.id)
  {
    hide Accounted, Owned, IdsIncrease, Forwarding, Finish, IsListed, FindById;
    FinishLoad(rob, m, slack, released, s);
  }

  lemma FinishStoreSound(rob: seq<Instr>, m: Mem, q: nat, now: int)
    requires InvAt(rob, m, 0, []) && q < |m.sq| && !m.sq[q].issued
    requires forall j :: 0 <= j < q ==> m.sq[j].issued
    ensures FinishStoreHolds(rob, m, q)
  {
    hide Accounted, Owned, IdsIncrease, FindById, ReleaseHolds, IsListed;
    IssueStore(rob, m, q, now);
    var w := m.(sq := m.sq[q := m.sq[q].(issued := true, ready := Some(now))]);
    forall d | 0 <= d < |m.sq[q].deps| ensures w.lq[m.sq[q].deps[d]].value.producer == Some(m.sq[q].id) {
      assert Waits(m.lq, m.sq[q].deps[d], m.sq[q].id, m.sq[q].addr);
    }
    hide Forwarding, InvAt, Finish;
    ReleaseSound(Finish(rob, m.sq[q].id), w, m.sq[q].deps, m.sq[q].id);
  }

  lemma {:induction false} FinishStoresSound(rob: seq<Instr>, m: Mem, q: nat, n: nat, now: int)
    requires InvAt(rob, m, 0, []) && q + n <= |m.sq|
    requires forall j :: 0 <= j < q ==> m.sq[j].issued
    requires forall j :: q <= j < q + n ==> !m.sq[j].issued
    ensures FinishStoresHold(rob, m, q, n, now)
    decreases n
  {
    hide InvAt, FinishStore, Finish, FinishStoreHolds;
    if n > 0 {
      FinishStoreSound(rob, m, q, now);
      FinishStoreKeeps(rob, m, q, now);
      var (r, w) := FinishStore(rob, m, q, now);
      FinishStoresSound(r, w, q + 1, n - 1, now);
    }
  }

  lemma OperateLsqSound(rob: seq<Instr>, m: Mem, now: int, sqWidth: nat)
    requires InvAt(rob, m, 0, [])
    ensures OperateLsqHolds(rob, m, now, sqWidth)
  {
    hide InvAt, SpanLen, FinishStoresHold;
    var u := SpanLen(m.sq, |m.sq|, (x: Store) => x.issued);
    var n := SpanLen(m.sq[u..], sqWidth, (x: Store) => !x.issued && Due(x.ready, now));
    forall j | u <= j < u + n ensures !m.sq[j].issued { assert m.sq[j] == m.sq[u..][j - u]; }
    FinishStoresSound(rob, m, u, n, now);
  }

  lemma {:induction false} ReturnBlockSound(rob: seq<Instr>, m: Mem, s: nat, block: nat, blockSize: nat)
    requires InvAt(rob, m, 0, []) && s <= |m.lq| && blockSize > 0
    ensures ReturnBlockHolds(rob, m.lq, s, block, blockSize)
    decreases |m.lq| - s
  {
    hide InvAt, Finish, FinishHolds;
    if s < |m.lq| {
      if m.lq[s].Some? && m.lq[s].value.issued && m.lq[s].value.addr / blockSize == block {
        FinishSound(rob, m, 0, [], s);
        ReturnOne(rob, m, s);
        ReturnBlockSound(Finish(rob, m.lq[s].value.id), m.(lq := m.lq[s := None]), s + 1, block, blockSize);
      } else {
        ReturnBlockSound(rob, m, s + 1, block, blockSize);
      }
    }
  }

  lemma {:induction false} ReturnBlocksSound(rob: seq<Instr>, m: Mem, blocks: seq<nat>, blockSize: nat)
    requires InvAt(rob, m, 0, []) && blockSize > 0
    ensures ReturnBlocksHold(rob, m.lq, blocks, blockSize)
    decreases |blocks|
  {
    hide InvAt, ReturnBlock, ReturnBlockHolds;
    if blocks != [] {
      ReturnBlockSound(rob, m, 0, blocks[0], blockSize);
      ReturnBlockKeeps(rob, m, 0, blocks[0], blockSize);
      var (r, lq) := ReturnBlock(rob, m.lq, 0, blocks[0], blockSize);
      ReturnBlocksSound(r, m.(lq := lq), blocks[1..], blockSize);
    }
  }

  lemma {:induction false} ScheduleLoadsSound(rob: seq<Instr>, m: Mem, addrs: seq<nat>, slack: nat)
    requires InvAt(rob, m, slack, []) && slack >= |addrs| && Newest(rob, m) && |addrs| <= FreeSlots(m.lq)
    ensures ScheduleLoadsHold(rob, m, addrs)
    decreases |addrs|
  {
    hide Accounted, Owned, IdsIncrease, Forwarding, ForwardFrom, FreeSlot, FreeSlots, ScheduleLoad;
    if addrs != [] {
      ScheduleLoadSlots(rob, m, addrs[0]);
      ScheduleLoadKeeps(rob, m, addrs[0], slack);
      OperationLeft(rob, m, slack);
      var (r, w) := ScheduleLoad(rob, m, addrs[0]);
      ScheduleLoadsSound(r, w, addrs[1..], slack - 1);
    }
  }

  lemma OperationLeft(rob: seq<Instr>, m: Mem, slack: nat)
    requires Accounted(rob, m, slack) && rob != []
    ensures rob[|rob| - 1].memDone + slack <= rob[|rob| - 1].MemOps()
  {
    hide LoadsOf, PendingStores;
  }

  // ---- a cycle ----

  lemma QueuesAt(done: seq<Instr>, rob: seq<Instr>, m: Mem)
    requires LoadStoreInvariant.Inv(done, rob, m)
    ensures InvAt(rob, m, 0, [])
  {
  }

  lemma BackQueues(cfg: Config, s: State, now: int, warmup: bool)
    requires Kept.BackInv(cfg, s, now, warmup)
    ensures cfg.Valid() && InvAt(s.rob, s.mem, 0, [])
  {
    hide LoadStoreInvariant.Inv, InvAt, Renaming.Inv, Kept.ReadyOrder;
    QueuesAt(s.retired, s.rob, s.mem);
  }

  lemma MemoryReturnSound(cfg: Config, s: State, y: Cycle)
    requires cfg.Valid() && InvAt(s.rob, s.mem, 0, [])
    ensures MemoryReturnHolds(cfg, s, y)
  {
    hide InvAt, ReturnBlocksHold;
    ReturnBlocksSound(s.rob, s.mem, y.blocks[..Min(|y.blocks|, cfg.l1dWidth)], cfg.blockSize);
  }

  lemma {:induction false} BackEndSound(cfg: Config, s: State, y: Cycle)
    requires Kept.BackInv(cfg, s, y.now, y.warmup)
    ensures cfg.Valid() && BackEndHolds(cfg, s, y)
  {
    hide Kept.BackInv, Kept.BackTags, Retire, Complete, Execute, Schedule, MemoryReturn, MemoryReturnHolds,
      OperateLsqHolds, InvAt;
    BackQueues(cfg, s, y.now, y.warmup);
    Kept.RetireKeeps(cfg, s, y.now, y.warmup);
    Kept.CompleteKeeps(cfg, Retire(cfg, s), y.now, y.warmup);
    Kept.ExecuteKeeps(cfg, Complete(cfg, Retire(cfg, s), y.now), y.now, y.warmup);
    Kept.ScheduleKeeps(cfg, Execute(cfg, Complete(cfg, Retire(cfg, s), y.now), y.now, y.warmup), y.now, y.warmup);
    var t := AtReturns(cfg, s, y);
    BackQueues(cfg, t, y.now, y.warmup);
    MemoryReturnSound(cfg, t, y);
    Kept.MemoryReturnKeeps(cfg, t, y, y.now, y.warmup);
    var u := MemoryReturn(cfg, t, y);
    BackQueues(cfg, u, y.now, y.warmup);
    OperateLsqSound(u.rob, u.mem, y.now, cfg.sqWidth);
  }

  lemma DispatchOneSound(cfg: Config, s: State, delivered: seq<Instr>, now: int, warmup: bool)
    requires Kept.Inv(cfg, s, delivered, now, warmup) && CanDispatch(cfg, s, now)
    ensures DispatchOneHolds(s)
  {
    hide LoadStoreInvariant.Inv, Renaming.Inv, InvAt, Kept.ReadyOrder, Kept.ExactlyOnce, IdsIncrease, Newest, FreeSlots,
      ScheduleLoadsHold;
    Kept.NextIsYoungest(s, delivered);
    EnterNewest(s.retired, s.rob, s.mem, s.dispatch[0]);
    ScheduleLoadsSound(s.rob + [s.dispatch[0]], s.mem, s.dispatch[0].srcMem, s.dispatch[0].MemOps());
  }

  lemma {:induction false} DispatchSound(cfg: Config, s: State, delivered: seq<Instr>, bw: nat, now: int, warmup: bool)
    requires Kept.Inv(cfg, s, delivered, now, warmup)
    ensures DispatchHolds(cfg, s, bw, now, warmup)
    decreases bw
  {
    hide Kept.Inv, DispatchOne, DispatchOneHolds, CanDispatch;
    if bw > 0 && CanDispatch(cfg, s, now) {
      DispatchOneSound(cfg, s, delivered, now, warmup);
      Kept.DispatchOneKeeps(cfg, s, delivered, now, warmup);
      DispatchSound(cfg, DispatchOne(cfg, s, now, warmup), delivered, bw - 1, now, warmup);
    }
  }

  lemma {:induction false} OperateSound(cfg: Config, s: State, delivered: seq<Instr>, now: int, warmup: bool, y: Cycle)
    requires Kept.Inv(cfg, s, delivered, now, warmup) && Kept.CycleOk(delivered, now, warmup, y)
    ensures cfg.Valid() && OperateHolds(cfg, s, y)
  {
    hide Kept.BackInv, Kept.FrontInv, Kept.ExactlyOnce, Kept.CycleOk, BackEndHolds, DispatchHolds, BackEnd;
    var t, d := s.(input := s.input + y.arrivals), delivered + y.arrivals;
    Kept.ArriveKeeps(cfg, s, delivered, now, warmup, y);
    BackEndSound(cfg, t, y);
    Kept.BackEndKeeps(cfg, t, d, y);
    DispatchSound(cfg, BackEnd(cfg, t, y), d, cfg.dispatchWidth, y.now, y.warmup);
  }

  // ---- runs ----

  /** In every cycle of every run, no assertion of do_memory_scheduling, do_finish_store or
      LSQ_ENTRY::finish fails at any of its calls. */
  lemma {:induction false} NoAssertionFails(cfg: Config, ys: seq<Cycle>, k: nat)
    requires cfg.Valid() && CoreRuns.RunOk(ys) && k < |ys|
    ensures OperateHolds(cfg, CoreRuns.Run(cfg, ys[..k]), ys[k])
    decreases |ys|
  {
    hide Kept.Inv, Kept.CycleOk, CoreRuns.Run, CoreRuns.Trace, CoreRuns.RunOk, CoreRuns.Start, OperateHolds,
      Core.Operate;
    var n := |ys| - 1;
    if k < n {
      CoreRuns.RunMore(cfg, ys);
      assert ys[..n][..k] == ys[..k];
      NoAssertionFails(cfg, ys[..n], k);
    } else if n == 0 {
      CoreRuns.FirstOk(ys);
      CoreRuns.StartInv(cfg, ys[0].now, ys[0].warmup);
      OperateSound(cfg, CoreRuns.Start(cfg), [], ys[0].now, ys[0].warmup, ys[0]);
      assert CoreRuns.Run(cfg, ys[..0]) == CoreRuns.Start(cfg) by { RunNone(cfg, ys[..0]); }
    } else {
      CoreRuns.RunMore(cfg, ys);
      CoreRuns.Reachable(cfg, ys[..n]);
      OperateSound(cfg, CoreRuns.Run(cfg, ys[..n]), CoreRuns.Trace(ys[..n]), ys[n - 1].now, ys[n - 1].warmup, ys[n]);
    }
  }

  lemma RunNone(cfg: Config, ys: seq<Cycle>)
    requires cfg.Valid() && ys == []
    ensures CoreRuns.Run(cfg, ys) == CoreRuns.Start(cfg)
  {
  }
}
