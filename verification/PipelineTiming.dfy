/** When instructions move through the pipeline: never before their time, and as fast as the widths
    allow where the stage is in order. */
module PipelineTiming {
  import opened Sequences
  import opened Instructions
  import opened RegisterAllocation
  import Renaming
  import opened LoadStoreQueue
  import Queues = LoadStoreInvariant
  import opened FrontEnd
  import opened PipelineOrder
  import opened Core
  import opened CoreInvariant
  import opened CoreRuns

  // ---- the statements ----

  /** An instruction of `from` that was ready has moved on, to be ready at `at`. */
  ghost predicate MovedFrom(from: seq<Instr>, x: Instr, now: int, at: int) {
    exists z :: z in from && z.id == x.id && z.ready <= now && x.ready == at
  }

  /** Each entry has stayed, or has come from `from` with its new time. */
  ghost predicate StayedOrCame(before: seq<Instr>, after: seq<Instr>, from: seq<Instr>, now: int, at: int) {
    forall x :: x in after ==> x in before || MovedFrom(from, x, now, at)
  }

  /** What a cycle may do to an instruction in the ROB: complete it if it had executed, its time had
      come and its memory operations were done; execute it if it was scheduled and its time had
      come, and set its time anew; schedule it if its time had come. */
  ghost predicate Evolved(z: Instr, x: Instr, now: int, at: int) {
    && x.id == z.id && (z.completed ==> x.completed) && (z.executed ==> x.executed) && (z.scheduled ==> x.scheduled)
    && (x.completed && !z.completed ==> z.executed && z.ready <= now && z.memDone == |z.dstMem| + |z.srcMem|)
    && (x.executed && !z.executed ==> z.scheduled && z.ready <= now && x.ready == at)
    && (x.executed == z.executed ==> x.ready == z.ready)
    && (x.scheduled && !z.scheduled ==> z.ready <= now)
  }

  ghost predicate AllEvolved(rob: seq<Instr>, r: seq<Instr>, now: int, at: int) {
    |r| == |rob| && forall i :: 0 <= i < |rob| ==> Evolved(rob[i], r[i], now, at)
  }

  // ---- complete_inflight_instruction, execute_instruction ----

  /** The completion loop completes exactly the first `bw`, in program order, that have executed,
      whose time has come and whose memory operations are done. */
  lemma {:induction false} CompletesOldest(rob: seq<Instr>, a: Alloc, bw: nat, now: int)
    ensures var r := CompleteFrom(rob, a, 0, bw, now).0;
      var can := (i: nat, x: Instr) =>
        x.executed && !x.completed && x.ready <= now && x.memDone == |x.dstMem| + |x.srcMem|;
      forall i :: 0 <= i < |rob| ==>
        r[i] == if can(i, rob[i]) && Able(rob, i, can) < bw then rob[i].(completed := true) else rob[i]
  {
    var can := (i: nat, x: Instr) =>
      x.executed && !x.completed && x.ready <= now && x.memDone == |x.dstMem| + |x.srcMem|;
    var act := (x: Instr) => x.(completed := true);
    CompleteIsScan(rob, a, 0, bw, now, can, act);
    ScanActs(rob, 0, bw, can, act, rob, bw);
  }

  lemma {:induction false} CompleteIsScan(rob: seq<Instr>, a: Alloc, i: nat, bw: nat, now: int,
      can: (nat, Instr) -> bool, act: Instr -> Instr)
    requires i <= |rob| && (forall k: nat, x :: can(k, x) == CanComplete(x, now))
    requires forall x :: act(x) == x.(completed := true)
    ensures CompleteFrom(rob, a, i, bw, now).0 == Scan(rob, i, bw, can, act)
    decreases |rob| - i
  {
    hide CompleteDests, CanComplete;
    if i < |rob| && bw > 0 {
      if CanComplete(rob[i], now) {
        CompleteIsScan(rob[i := rob[i].(completed := true)], CompleteDests(a, rob[i].dst), i
          + 1, bw - 1, now, can, act);
      } else {
        CompleteIsScan(rob, a, i + 1, bw, now, can, act);
      }
    }
  }

  /** The execution loop executes exactly the first `bw`, in program order, that are scheduled, whose
      time has come and whose sources are all valid. */
  lemma {:induction false} ExecutesOldest(rob: seq<Instr>, m: Mem, a: Alloc, bw: nat, now: int, at: int)
    ensures var r := ExecuteFrom(rob, m, a, 0, bw, now, at).0;
      var can := (i: nat, x: Instr) => x.scheduled && !x.executed && x.ready <= now
        && forall k :: 0 <= k < |x.src| ==> x.src[k] < |a.file| && a.file[x.src[k]].valid;
      forall i :: 0 <= i < |rob| ==>
        r[i] == if can(i, rob[i]) && Able(rob, i, can) < bw then rob[i].(executed := true, ready := at) else rob[i]
  {
    var can := (i: nat, x: Instr) => x.scheduled && !x.executed && x.ready <= now
      && forall k :: 0 <= k < |x.src| ==> x.src[k] < |a.file| && a.file[x.src[k]].valid;
    var act := (x: Instr) => x.(executed := true, ready := at);
    ExecuteIsScan(rob, m, a, 0, bw, now, at, can, act);
    ScanActs(rob, 0, bw, can, act, rob, bw);
  }

  lemma {:induction false} ExecuteIsScan(rob: seq<Instr>, m: Mem, a: Alloc, i: nat, bw: nat, now: int, at: int,
      can: (nat, Instr) -> bool, act: Instr -> Instr)
    requires i <= |rob| && (forall k: nat, x :: can(k, x) == CanExecute(a, x, now))
    requires forall x :: act(x) == x.(executed := true, ready := at)
    ensures ExecuteFrom(rob, m, a, i, bw, now, at).0 == Scan(rob, i, bw, can, act)
    decreases |rob| - i
  {
    hide MarkReady, CanExecute;
    if i < |rob| && bw > 0 {
      if CanExecute(a, rob[i], now) {
        ExecuteIsScan(rob[i := rob[i].(executed := true, ready := at)], MarkReady(m, rob[i].id, at), a, i + 1, bw - 1,
          now, at, can, act);
      } else {
        ExecuteIsScan(rob, m, a, i + 1, bw, now, at, can, act);
      }
    }
  }

  // ---- the back end ----

  lemma {:induction false} CompleteEvolves(rob: seq<Instr>, a: Alloc, i: nat, bw: nat, now: int)
    requires i <= |rob|
    ensures var r := CompleteFrom(rob, a, i, bw, now).0;
      |r| == |rob| && forall j :: 0 <= j < |rob| ==>
        r[j] == rob[j] || (CanComplete(rob[j], now) && r[j] == rob[j].(completed := true))
    decreases |rob| - i
  {
    hide CompleteDests;
    if i < |rob| && bw > 0 {
      if CanComplete(rob[i], now) {
        CompleteEvolves(rob[i := rob[i].(completed := true)], CompleteDests(a, rob[i].dst), i + 1, bw - 1, now);
      } else {
        CompleteEvolves(rob, a, i + 1, bw, now);
      }
    }
  }

  lemma {:induction false} ExecuteEvolves(rob: seq<Instr>, m: Mem, a: Alloc, i: nat, bw: nat, now: int, at: int)
    requires i <= |rob|
    ensures var r := ExecuteFrom(rob, m, a, i, bw, now, at).0;
      |r| == |rob| && forall j :: 0 <= j < |rob| ==>
        r[j] == rob[j] || (CanExecute(a, rob[j], now) && r[j] == rob[j].(executed := true, ready := at))
    decreases |rob| - i
  {
    hide MarkReady, SourcesValid;
    if i < |rob| && bw > 0 {
      if CanExecute(a, rob[i], now) {
        ExecuteEvolves(rob[i := rob[i].(executed := true, ready := at)], MarkReady(m, rob[i].id, at), a, i + 1, bw - 1,
          now, at);
      } else {
        ExecuteEvolves(rob, m, a, i + 1, bw, now, at);
      }
    }
  }

  lemma SchedulingFields(a: Alloc, x: Instr)
    requires EnoughNames(a, x)
    ensures var y := Renaming.ScheduleInstr(a, x).1; y == x.(src := y.src, dst := y.dst, scheduled := true)
  {
    hide RenameSources, RenameDests;
  }

  ghost predicate Scheduled(z: Instr, x: Instr, now: int) {
    !z.scheduled && z.ready <= now && x == z.(src := x.src, dst := x.dst, scheduled := true)
  }

  lemma {:induction false} ScheduleEvolves(rob: seq<Instr>, a: Alloc, i: nat, bw: nat, now: int)
    requires i <= |rob|
    ensures var r := ScheduleFrom(rob, a, i, bw, now).0;
      |r| == |rob| && forall j :: 0 <= j < |rob| ==> r[j] == rob[j] || Scheduled(rob[j], r[j], now)
    decreases |rob| - i
  {
    hide Renaming.ScheduleInstr;
    if i < |rob| && bw > 0 && EnoughNames(a, rob[i]) {
      var next := bw - (if rob[i].executed then 0 else 1);
      if !rob[i].scheduled && rob[i].ready <= now {
        SchedulingFields(a, rob[i]);
        var (b, x) := Renaming.ScheduleInstr(a, rob[i]);
        hide EnoughNames;
        assert x.scheduled && Scheduled(rob[i], x, now);
        ScheduleEvolves(rob[i := x], b, i + 1, next, now);
      } else {
        ScheduleEvolves(rob, a, i + 1, next, now);
      }
    }
  }

  /** The stages between retirement and the memory system, oldest first. */
  lemma StagesEvolve(cfg: Config, s: State, now: int, warmup: bool)
    ensures var t := Schedule(cfg, Execute(cfg, Complete(cfg, s, now), now, warmup), now);
      AllEvolved(s.rob, t.rob, now, now + Delay(warmup, cfg.executeLatency))
  {
    hide CompleteFrom, ExecuteFrom, ScheduleFrom, SourcesValid, Delay;
    var at := now + Delay(warmup, cfg.executeLatency);
    CompleteEvolves(s.rob, s.ra, 0, cfg.executeWidth, now);
    var s1 := Complete(cfg, s, now);
    ExecuteEvolves(s1.rob, s1.mem, s1.ra, 0, cfg.executeWidth, now, at);
    var s2 := Execute(cfg, s1, now, warmup);
    ScheduleEvolves(s2.rob, s2.ra, 0, cfg.scheduleWidth, now);
  }

  lemma CountsEvolve(rob: seq<Instr>, t: seq<Instr>, u: seq<Instr>, now: int, at: int)
    requires AllEvolved(rob, t, now, at) && Queues.OnlyCounts(t, u)
    ensures AllEvolved(rob, u, now, at)
  {
    forall i | 0 <= i < |rob| ensures Evolved(rob[i], u[i], now, at) {
      assert Evolved(rob[i], t[i], now, at);
    }
  }

  /** Retirement takes the completed oldest, as many as there are and its width allows. */
  ghost predicate RetiresOldest(cfg: Config, s: State, retired: seq<Instr>, k: nat) {
    && k <= |s.rob| && k <= cfg.retireWidth && retired == s.retired + s.rob[..k]
    && (forall i :: 0 <= i < k ==> s.rob[i].completed)
    && (k < |s.rob| && k < cfg.retireWidth ==> !s.rob[k].completed)
  }

  lemma RetireStep(cfg: Config, s: State) returns (k: nat)
    ensures var t := Retire(cfg, s); RetiresOldest(cfg, s, t.retired, k) && t.rob == s.rob[k..]
  {
    k := SpanLen(s.rob, cfg.retireWidth, (x: Instr) => x.completed);
    hide SpanLen, RetireAll;
  }

  lemma StagesKeep(cfg: Config, s: State, now: int, warmup: bool)
    requires BackInv(cfg, s, now, warmup)
    ensures BackInv(cfg, Schedule(cfg, Execute(cfg, Complete(cfg, s, now), now, warmup), now), now, warmup)
  {
    hide BackInv, Complete, Execute, Schedule, BackTags;
    CompleteKeeps(cfg, s, now, warmup);
    var s2 := Complete(cfg, s, now);
    ExecuteKeeps(cfg, s2, now, warmup);
    ScheduleKeeps(cfg, Execute(cfg, s2, now, warmup), now, warmup);
  }

  lemma ReturnKeepsBack(cfg: Config, s: State, y: Cycle, now: int, warmup: bool)
    requires BackInv(cfg, s, now, warmup)
    ensures cfg.Valid() && BackInv(cfg, MemoryReturn(cfg, s, y), now, warmup)
  {
    assert cfg.Valid();
    MemoryReturnKeeps(cfg, s, y, now, warmup);
    hide BackInv, MemoryReturn, BackTags;
  }

  /** The other stages of the back end do what they may to the rest. */
  lemma {:induction false} AfterRetire(cfg: Config, s: State, y: Cycle)
    requires BackInv(cfg, s, y.now, y.warmup)
    ensures cfg.Valid()
    ensures var t := Lsq(cfg, MemoryReturn(cfg, Schedule(cfg, Execute(cfg, Complete(cfg, s, y.now), y.now, y.warmup),
      y.now), y), y);
      AllEvolved(s.rob, t.rob, y.now, y.now + Delay(y.warmup, cfg.executeLatency)) && t.retired == s.retired
  {
    hide *;
    var s4 := Schedule(cfg, Execute(cfg, Complete(cfg, s, y.now), y.now, y.warmup), y.now);
    StagesEvolve(cfg, s, y.now, y.warmup);
    StagesKeep(cfg, s, y.now, y.warmup);
    StageFrame(cfg, s, y.now, y.warmup);
    ReturnKeepsBack(cfg, s4, y, y.now, y.warmup);
    ReturnCounts(cfg, s4, y, y.now, y.warmup);
    var s5 := MemoryReturn(cfg, s4, y);
    LsqCounts(cfg, s5, y, y.now, y.warmup);
    var at := y.now + Delay(y.warmup, cfg.executeLatency);
    CountsEvolve(s.rob, s4.rob, s5.rob, y.now, at);
    CountsEvolve(s.rob, s5.rob, Lsq(cfg, s5, y).rob, y.now, at);
  }

  lemma {:induction false} BackEndEvolves(cfg: Config, s: State, y: Cycle) returns (k: nat)
    requires BackInv(cfg, s, y.now, y.warmup)
    ensures cfg.Valid()
    ensures var t := BackEnd(cfg, s, y);
      && RetiresOldest(cfg, s, t.retired, k)
      && AllEvolved(s.rob[k..], t.rob, y.now, y.now + Delay(y.warmup, cfg.executeLatency))
  {
    assert cfg.Valid();
    hide BackInv, Retire, Complete, Execute, Schedule, MemoryReturn, Lsq, BackTags, AllEvolved, RetiresOldest, Delay;
    k := RetireStep(cfg, s);
    RetireKeeps(cfg, s, y.now, y.warmup);
    AfterRetire(cfg, Retire(cfg, s), y);
    assert RetiresOldest(cfg, s, Retire(cfg, s).retired, k);
  }

  lemma StageFrame(cfg: Config, s: State, now: int, warmup: bool)
    ensures Schedule(cfg, Execute(cfg, Complete(cfg, s, now), now, warmup), now).retired == s.retired
  {
    hide CompleteFrom, ExecuteFrom, ScheduleFrom;
  }

  lemma ReturnCounts(cfg: Config, s: State, y: Cycle, now: int, warmup: bool)
    requires BackInv(cfg, s, now, warmup)
    ensures cfg.Valid() && Queues.OnlyCounts(s.rob, MemoryReturn(cfg, s, y).rob)
    ensures MemoryReturn(cfg, s, y).retired == s.retired
  {
    hide Renaming.Inv, Queues.Inv, ReadyOrder, ReturnBlocks;
    Queues.ReturnKeeps(s.retired, s.rob, s.mem, y.blocks[..Min(|y.blocks|, cfg.l1dWidth)], cfg.blockSize);
  }

  lemma LsqCounts(cfg: Config, s: State, y: Cycle, now: int, warmup: bool)
    requires BackInv(cfg, s, now, warmup)
    ensures Queues.OnlyCounts(s.rob, Lsq(cfg, s, y).rob) && Lsq(cfg, s, y).retired == s.retired
  {
    hide Renaming.Inv, Queues.Inv, ReadyOrder, OperateLsq, Queues.ReleasesThenSends, Queues.StoresMove;
    Queues.OperateLsqKeeps(s.retired, s.rob, s.mem, y.now, cfg.sqWidth, cfg.lqWidth, y.storeAccepts, y.loadAccepts);
  }

  // ---- dispatch ----

  lemma {:induction false} ScheduleLoadsRob(rob: seq<Instr>, m: Mem, addrs: seq<nat>)
    requires rob != [] && |addrs| <= FreeSlots(m.lq)
    ensures var r, n := ScheduleLoads(rob, m, addrs).0, |rob| - 1;
      |r| == |rob| && r[..n] == rob[..n] && r[n] == rob[n].(memDone := r[n].memDone)
    decreases |addrs|
  {
    hide FreeSlots, FreeSlot, ForwardFrom;
    if addrs != [] {
      ScheduleLoadSlots(rob, m, addrs[0]);
      var (r, w) := ScheduleLoad(rob, m, addrs[0]);
      ScheduleLoadsRob(r, w, addrs[1..]);
    }
  }

  /** The oldest instruction of the dispatch buffer as it enters the ROB. */
  ghost predicate EntersRob(x: Instr, z: Instr, now: int, at: int) {
    x.ready <= now && z == x.(ready := at, memDone := z.memDone)
  }

  lemma DispatchOneMoves(cfg: Config, s: State, now: int, warmup: bool)
    requires CanDispatch(cfg, s, now)
    ensures var t, n := DispatchOne(cfg, s, now, warmup), |s.rob|;
      && t == s.(rob := t.rob, mem := t.mem, dispatch := s.dispatch[1..])
      && |t.rob| == n + 1 && t.rob[..n] == s.rob
      && EntersRob(s.dispatch[0], t.rob[n], now, now + Delay(warmup, cfg.scheduleLatency))
  {
    hide ScheduleLoads, FreeSlots, NewStores, Delay;
    var n := |s.rob|;
    ScheduleLoadsRob(s.rob + [s.dispatch[0]], s.mem, s.dispatch[0].srcMem);
    assert (s.rob + [s.dispatch[0]])[..n] == s.rob;
  }

  /** Dispatch stops only for the width, or because the oldest instruction is not ready or finds no
      place in the ROB or in a memory queue. */
  ghost predicate Stalled(cfg: Config, t: State, now: int) {
    t.dispatch == [] || t.dispatch[0].ready > now || |t.rob| == cfg.robSize
    || FreeSlots(t.mem.lq) < |t.dispatch[0].srcMem| || |t.dispatch[0].dstMem| + |t.mem.sq| > cfg.sqSize
  }

  ghost predicate Dispatches(cfg: Config, s: State, t: State, bw: nat, now: int, at: int, d: nat) {
    && d <= bw && d <= |s.dispatch| && t.dispatch == s.dispatch[d..]
    && |t.rob| == |s.rob| + d && t.rob[..|s.rob|] == s.rob
    && (forall i :: 0 <= i < d ==> EntersRob(s.dispatch[i], t.rob[|s.rob| + i], now, at))
    && (d < bw ==> Stalled(cfg, t, now))
  }

  lemma NoDispatch(cfg: Config, s: State, bw: nat, now: int, at: int)
    requires bw == 0 || !CanDispatch(cfg, s, now)
    ensures Dispatches(cfg, s, s, bw, now, at, 0)
  {
    hide FreeSlots;
    assert s.rob[..|s.rob|] == s.rob && s.dispatch[0..] == s.dispatch;
  }

  lemma {:induction false} DispatchMoves(cfg: Config, s: State, bw: nat, now: int, warmup: bool) returns (d: nat)
    ensures var t := Dispatch(cfg, s, bw, now, warmup);
      && Dispatches(cfg, s, t, bw, now, now + Delay(warmup, cfg.scheduleLatency), d)
      && t == s.(rob := t.rob, mem := t.mem, dispatch := t.dispatch)
    decreases bw
  {
    hide DispatchOne, Delay, EntersRob, FreeSlots, Stalled, Dispatches;
    if bw == 0 || !CanDispatch(cfg, s, now) {
      d := 0;
      NoDispatch(cfg, s, bw, now, now + Delay(warmup, cfg.scheduleLatency));
    } else {
      DispatchOneMoves(cfg, s, now, warmup);
      var u := DispatchOne(cfg, s, now, warmup);
      var e := DispatchMoves(cfg, u, bw - 1, now, warmup);
      d := e + 1;
      MovesChain(cfg, s, u, Dispatch(cfg, u, bw - 1, now, warmup), bw, now, now
        + Delay(warmup, cfg.scheduleLatency), e);
    }
  }

  lemma MovesChain(cfg: Config, s: State, u: State, t: State, bw: nat, now: int, at: int, e: nat)
    requires bw > 0 && s.dispatch != [] && u.dispatch == s.dispatch[1..]
    requires |u.rob| == |s.rob| + 1 && u.rob[..|s.rob|] == s.rob && EntersRob(s.dispatch[0], u.rob[|s.rob|], now, at)
    requires Dispatches(cfg, u, t, bw - 1, now, at, e)
    ensures Dispatches(cfg, s, t, bw, now, at, e + 1)
  {
    hide EntersRob, Stalled;
    var n := |s.rob|;
    assert t.rob[..n] == t.rob[..n + 1][..n] == s.rob;
    assert t.rob[n] == t.rob[..n + 1][n] == u.rob[n];
    forall i | 0 <= i < e + 1 ensures EntersRob(s.dispatch[i], t.rob[n + i], now, at) {
      if i > 0 { assert EntersRob(u.dispatch[i - 1], t.rob[n + 1 + (i - 1)], now, at); }
    }
  }

  // ---- decode ----

  /** Everything between the cursors is ready. */
  ghost predicate ReadyBetween(dib: seq<Instr>, dec: seq<Instr>, c: Cursor, d: Cursor, now: int)
    requires InRange(dib, dec, c) && InRange(dib, dec, d)
  {
    && c.dib <= d.dib && c.dec <= d.dec && d.dec - c.dec + d.decode == c.decode
    && (forall i :: c.dib <= i < d.dib ==> dib[i].ready <= now)
    && (forall i :: c.dec <= i < d.dec ==> dec[i].ready <= now)
  }

  lemma HeadsDiffer(dib: seq<Instr>, dec: seq<Instr>, i: nat, j: nat)
    requires Distinct(dib, dec) && i < |dib| && j < |dec|
    ensures dib[i].id != dec[j].id
  {
    hide Ordered, Tags;
  }

  lemma {:induction false} BothLoopReady(dib: seq<Instr>, dec: seq<Instr>, c: Cursor, now: int)
    requires InRange(dib, dec, c) && Distinct(dib, dec)
    ensures ReadyBetween(dib, dec, c, BothLoop(dib, dec, c, now), now)
    decreases c.inorder
  {
    hide Distinct;
    if c.dib < |dib| && c.dec < |dec| && c.inorder > 0 && c.decode > 0 {
      HeadsDiffer(dib, dec, c.dib, c.dec);
      if dib[c.dib].id < dec[c.dec].id {
        BothLoopReady(dib, dec, c.(dib := c.dib + 1, inorder := c.inorder - 1), now);
      } else {
        BothLoopReady(dib, dec, c.(dec := c.dec + 1, inorder := c.inorder - 1, decode := c.decode - 1), now);
      }
    }
  }

  lemma {:induction false} DibLoopReady(dib: seq<Instr>, dec: seq<Instr>, c: Cursor, now: int)
    requires InRange(dib, dec, c)
    ensures ReadyBetween(dib, dec, c, DibLoop(dib, dec, c, now), now)
    decreases c.inorder
  {
    if c.dib < |dib| && c.inorder > 0 && (c.dec == |dec| || dib[c.dib].id < dec[c.dec].id) {
      DibLoopReady(dib, dec, c.(dib := c.dib + 1, inorder := c.inorder - 1), now);
    }
  }

  lemma {:induction false} DecodeLoopReady(dib: seq<Instr>, dec: seq<Instr>, c: Cursor, now: int)
    requires InRange(dib, dec, c)
    ensures ReadyBetween(dib, dec, c, DecodeLoop(dib, dec, c, now), now)
    decreases c.inorder
  {
    if c.dec < |dec| && c.inorder > 0 && c.decode > 0 && (c.dib == |dib| || dec[c.dec].id < dib[c.dib].id) {
      DecodeLoopReady(dib, dec, c.(dec := c.dec + 1, inorder := c.inorder - 1, decode := c.decode - 1), now);
    }
  }

  lemma DecodeSpanReady(dib: seq<Instr>, dec: seq<Instr>, inorder: nat, decode: nat, now: int)
    requires Distinct(dib, dec)
    ensures var c := DecodeSpan(dib, dec, inorder, decode, now);
      && c.dec <= decode && (forall i :: 0 <= i < c.dib ==> dib[i].ready <= now)
      && (forall i :: 0 <= i < c.dec ==> dec[i].ready <= now)
  {
    hide BothLoop, DibLoop, DecodeLoop, Distinct;
    var c0 := Cursor(0, 0, inorder, decode);
    var c1 := BothLoop(dib, dec, c0, now);
    BothLoopReady(dib, dec, c0, now);
    DibLoopReady(dib, dec, c1, now);
    DecodeLoopReady(dib, dec, DibLoop(dib, dec, c1, now), now);
  }

  lemma Retimed(from: seq<Instr>, s: seq<Instr>, n: nat, now: int, at: int)
    requires n <= |s| && (forall i :: 0 <= i < n ==> s[i].ready <= now) && forall x :: x in s ==> x in from
    ensures forall x :: x in ReadyAt(s[..n], at) ==> MovedFrom(from, x, now, at)
  {
    var r := ReadyAt(s[..n], at);
    forall x | x in r ensures MovedFrom(from, x, now, at) {
      var i :| 0 <= i < |r| && r[i] == x;
      assert s[i] in from && s[i].id == x.id;
    }
  }

  lemma {:induction false} DecodeMoves(cfg: Config, s: State, now: int, warmup: bool)
    requires Distinct(s.dibHit, s.decode)
    ensures var t, at := Decode(cfg, s, now, warmup), now + Delay(warmup, cfg.dispatchLatency);
      && StayedOrCame(s.dispatch, t.dispatch, s.dibHit + s.decode, now, at)
      && (forall x :: x in t.dibHit ==> x in s.dibHit) && (forall x :: x in t.decode ==> x in s.decode)
      && |t.dispatch| <= |s.dispatch| + cfg.dibWidth && |s.decode| - |t.decode| <= cfg.decodeWidth
      && |s.dispatch| <= |t.dispatch| && t.dispatch[..|s.dispatch|] == s.dispatch
      && t == s.(dispatch := t.dispatch, dibHit := t.dibHit, decode := t.decode)
  {
    hide DecodeSpan, MergeById, ReadyAt, MovedFrom, Delay, Distinct;
    var w := Min(cfg.dibWidth, Room(cfg.dispatchSize, |s.dispatch|));
    var at := now + Delay(warmup, cfg.dispatchLatency);
    var c := DecodeSpan(s.dibHit, s.decode, w, cfg.decodeWidth, now);
    DecodeSpanReady(s.dibHit, s.decode, w, cfg.decodeWidth, now);
    var d, e := ReadyAt(s.dibHit[..c.dib], at), ReadyAt(s.decode[..c.dec], at);
    Retimed(s.dibHit + s.decode, s.dibHit, c.dib, now, at);
    Retimed(s.dibHit + s.decode, s.decode, c.dec, now, at);
    MergeByIdFrom(d, e);
  }

  // ---- promote, fetch ----

  lemma {:induction false} PromoteMoves(cfg: Config, s: State, now: int, warmup: bool)
    ensures var t := Promote(cfg, s, now, warmup);
      && StayedOrCame(s.dibHit, t.dibHit, s.ifetch, now, now + cfg.dibLatency)
      && StayedOrCame(s.decode, t.decode, s.ifetch, now, now + Delay(warmup, cfg.decodeLatency))
      && |t.ifetch| <= |s.ifetch| <= |t.ifetch| + cfg.fetchWidth && t.ifetch == s.ifetch[|s.ifetch| - |t.ifetch|..]
      && (forall i :: 0 <= i < |s.ifetch| - |t.ifetch| ==> s.ifetch[i].front.fetchCompleted)
      && t == s.(dibHit := t.dibHit, decode := t.decode, ifetch := t.ifetch)
  {
    hide PromoteLen, Filter, ReadyAt, MovedFrom, Delay;
    var bw := Min(cfg.fetchWidth, Min(Room(cfg.dibSize, |s.dibHit|), Room(cfg.decodeSize, |s.decode|)));
    var n := PromoteLen(s.ifetch, bw, now);
    PromotesReady(s.ifetch, n, true, now, now + cfg.dibLatency);
    PromotesReady(s.ifetch, n, false, now, now + Delay(warmup, cfg.decodeLatency));
  }

  lemma PromotesReady(s: seq<Instr>, n: nat, decoded: bool, now: int, at: int)
    requires n <= |s| && forall i :: 0 <= i < n ==> s[i].ready <= now
    ensures forall x :: x in ReadyAt(Filter(s[..n], decoded), at) ==> MovedFrom(s, x, now, at)
  {
    hide Filter;
    var f := Filter(s[..n], decoded);
    forall i | 0 <= i < |f| ensures f[i].ready <= now && f[i] in s {
      assert f[i] in s[..n];
      var j :| 0 <= j < n && s[..n][j] == f[i];
      assert s[j] == f[i];
    }
    assert f[..|f|] == f;
    Retimed(s, f, |f|, now, at);
  }

  /** What a cycle may do to an instruction in the fetch buffer: a returned block completes its fetch
      if that was issued; a hit in the decoded instruction buffer completes it, marks it decoded, and
      sets its time to now. */
  ghost predicate Fetching(z: Instr, x: Instr, now: int) {
    && x.id == z.id
    && (z.front.dibChecked ==> x.front.dibChecked) && (z.front.fetchIssued ==> x.front.fetchIssued)
    && (z.front.fetchCompleted ==> x.front.fetchCompleted) && (z.front.decoded ==> x.front.decoded)
    && (x.front.fetchCompleted && !z.front.fetchCompleted ==> z.front.fetchIssued || DibHit(x, now))
    && ((x.front.decoded && !z.front.decoded) || x.ready != z.ready ==> DibHit(x, now))
  }

  ghost predicate DibHit(x: Instr, now: int) {
    x.front.dibChecked && x.front.decoded && x.front.fetchCompleted && x.ready == now
  }

  lemma ReturnFetches(ifetch: seq<Instr>, returned: nat -> bool, now: int, i: nat)
    requires i < |ifetch|
    ensures Fetching(ifetch[i], FetchReturn(ifetch, returned)[i], now)
      && FetchReturn(ifetch, returned)[i].ready == ifetch[i].ready
      && FetchReturn(ifetch, returned)[i].front.decoded == ifetch[i].front.decoded
  {
  }

  lemma CheckFetches(ifetch: seq<Instr>, issued: nat -> bool, width: nat, hits: nat -> bool, now: int, i: nat)
    requires i < |ifetch|
    ensures var x, z := CheckDib(FetchIssue(ifetch, issued), width, hits, now)[i], ifetch[i];
      && x.id == z.id
      && (z.front.dibChecked ==> x.front.dibChecked) && (z.front.fetchIssued ==> x.front.fetchIssued)
      && (z.front.fetchCompleted ==> x.front.fetchCompleted) && (z.front.decoded ==> x.front.decoded)
      && (DibHit(x, now) || (x.ready == z.ready
            && x.front.decoded == z.front.decoded && x.front.fetchCompleted == z.front.fetchCompleted))
  {
    var f := FetchIssue(ifetch, issued);
    assert f[i] == ifetch[i] || f[i] == ifetch[i].(front := ifetch[i].front.(fetchIssued := true));
    hide FetchIssue;
    CheckOne(f, width, hits, now, i);
    hide CheckDib;
  }

  lemma CheckOne(f: seq<Instr>, width: nat, hits: nat -> bool, now: int, i: nat)
    requires i < |f|
    ensures var x, z := CheckDib(f, width, hits, now)[i], f[i];
      || x == z || x == z.(front := z.front.(dibChecked := true))
      || x == z.(front := z.front.(dibChecked := true, fetchCompleted := true, decoded := true), ready := now)
  {
    hide SpanLen;
  }

  /** Reading stops for the width, for want of input, or after the first instruction that stops it. */
  ghost predicate ReadsUntilStop(r: nat, bw: nat, left: nat, stops: nat -> bool, k: nat) {
    && r <= bw && (forall i :: k <= i < k + r - 1 ==> !stops(i))
    && (r == bw || left == 0 || (r > 0 && stops(k + r - 1)))
  }

  lemma {:induction false} InitStops(input: seq<Instr>, ifetch: seq<Instr>, bw: nat, stops: nat -> bool, k: nat,
      now: int,
      warmup: bool)
    ensures var (q, f) := InitFrom(input, ifetch, bw, stops, k, now, warmup);
      ReadsUntilStop(|input| - |q|, bw, |q|, stops, k)
    decreases |input|
  {
    hide InitInstr;
    if input != [] && bw > 0 {
      if stops(k) {
        assert |input| - |input[1..]| == 1;
      } else {
        var f := ifetch + [InitInstr(input[0], now, warmup)];
        InitStops(input[1..], f, bw - 1, stops, k + 1, now, warmup);
      }
    }
  }

  /** The decoded instruction buffer is checked for the first `width` entries from `w`, the first it
      was not checked for, and those that hit are decoded; no other entry is. */
  ghost predicate Checks(f: seq<Instr>, g: seq<Instr>, w: nat, width: nat, hits: nat -> bool) {
    && w <= |f| <= |g| && (forall i :: 0 <= i < w ==> f[i].front.dibChecked)
    && (w < |f| ==> !f[w].front.dibChecked)
    && (forall i :: 0 <= i < |f| ==>
      && g[i].front.dibChecked == (f[i].front.dibChecked || w <= i < w + width)
      && g[i].front.decoded == (f[i].front.decoded || (w <= i < w + width && hits(i))))
  }

  lemma ChecksWidth(f: seq<Instr>, y: Cycle, width: nat, now: int) returns (w: nat)
    ensures Checks(f, CheckDib(FetchIssue(f, y.fetchIssued), width, y.dibHits, now), w, width, y.dibHits)
  {
    hide SpanLen;
    var g := FetchIssue(f, y.fetchIssued);
    assert forall i :: 0 <= i < |f| ==>
      g[i].front.dibChecked == f[i].front.dibChecked && g[i].front.decoded == f[i].front.decoded;
    hide FetchIssue;
    w := SpanLen(g, |g|, (x: Instr) => x.front.dibChecked);
  }

  /** A returned block changes neither flag. */
  lemma ReturnChecks(ifetch: seq<Instr>, returned: nat -> bool, p: nat, g: seq<Instr>, w: nat, width: nat,
      hits: nat -> bool)
    requires p <= |ifetch| && Checks(FetchReturn(ifetch, returned)[p..], g, w, width, hits)
    ensures Checks(ifetch[p..], g, w, width, hits)
  {
    var f := FetchReturn(ifetch, returned);
    assert forall i :: 0 <= i < |f| ==>
      f[i].front.dibChecked == ifetch[i].front.dibChecked && f[i].front.decoded == ifetch[i].front.decoded;
    hide FetchReturn;
    forall i | 0 <= i < |f| - p
      ensures f[p..][i].front.dibChecked == ifetch[p..][i].front.dibChecked
      ensures f[p..][i].front.decoded == ifetch[p..][i].front.decoded
    {
      assert f[p..][i] == f[p + i] && ifetch[p..][i] == ifetch[p + i];
    }
  }

  /** The front of the fetch buffer after `p` entries have left. */
  ghost predicate Fetches(cfg: Config, s: State, t: State, y: Cycle, p: nat, r: nat) {
    && p <= |s.ifetch| && p <= cfg.fetchWidth && |t.ifetch| == |s.ifetch| - p + r
    && (forall i :: 0 <= i < |s.ifetch| - p ==> Fetching(s.ifetch[p + i], t.ifetch[i], y.now))
    && (exists w :: Checks(s.ifetch[p..], t.ifetch, w, cfg.fetchWidth, y.dibHits))
    && (forall i :: |s.ifetch| - p <= i < |t.ifetch| ==> t.ifetch[i].ready == y.now)
    && (!y.mayFetch ==> r == 0) && r <= cfg.fetchWidth && (forall i :: 0 <= i < r - 1 ==> !y.stops(i))
    && (y.mayFetch && r < cfg.fetchWidth && |t.ifetch| < cfg.ifetchSize && t.input != [] ==> r > 0 && y.stops(r - 1))
  }

  lemma {:induction false} FetchMoves(cfg: Config, s: State, f: State, y: Cycle, p: nat) returns (r: nat)
    requires p <= |s.ifetch| && p <= cfg.fetchWidth && f.ifetch == FetchReturn(s.ifetch, y.fetchReturned)[p..]
    requires Delivered(f.input) && Waiting(f.ifetch)
    ensures var t := Fetch(cfg, f, y);
      Fetches(cfg, s, t, y, p, r) && t == f.(ifetch := t.ifetch, input := t.input, readWarm := t.readWarm)
  {
    hide CheckDib, FetchIssue, FetchReturn, InitFrom, InitInstr, Delivered, Waiting, Repeat;
    var g := CheckDib(FetchIssue(f.ifetch, y.fetchIssued), cfg.fetchWidth, y.dibHits, y.now);
    var bw := if y.mayFetch then Min(cfg.fetchWidth, Room(cfg.ifetchSize, |g|)) else 0;
    var (q, h) := InitFrom(f.input, g, bw, y.stops, 0, y.now, y.warmup);
    CheckWaits(f.ifetch, y, cfg.fetchWidth);
    InitFromKeeps(f.input, g, bw, y.stops, 0, y.now, y.warmup);
    InitStops(f.input, g, bw, y.stops, 0, y.now, y.warmup);
    r := |f.input| - |q|;
    var w := ChecksWidth(f.ifetch, y, cfg.fetchWidth, y.now);
    ReturnChecks(s.ifetch, y.fetchReturned, p, g, w, cfg.fetchWidth, y.dibHits);
    assert Checks(s.ifetch[p..], h, w, cfg.fetchWidth, y.dibHits);
    forall i | 0 <= i < |s.ifetch| - p ensures Fetching(s.ifetch[p + i], h[i], y.now) {
      ReturnFetches(s.ifetch, y.fetchReturned, y.now, p + i);
      CheckFetches(f.ifetch, y.fetchIssued, cfg.fetchWidth, y.dibHits, y.now, i);
    }
    forall i | |s.ifetch| - p <= i < |h| ensures h[i].ready == y.now { ReadNow(f.input[i - |g|], y.now, y.warmup); }
  }

  lemma ReadNow(x: Instr, now: int, warmup: bool)
    ensures InitInstr(x, now, warmup).ready == now
  {
    hide FoldStackPointer;
  }

  lemma CheckWaits(ifetch: seq<Instr>, y: Cycle, width: nat)
    requires Waiting(ifetch)
    ensures Waiting(CheckDib(FetchIssue(ifetch, y.fetchIssued), width, y.dibHits, y.now))
  {
  }

  // ---- a cycle ----

  /** The back of the pipeline: `k` retire, `d` are dispatched. */
  ghost predicate BackMoves(cfg: Config, s: State, t: State, y: Cycle, k: nat, d: nat) {
    var executed := if y.warmup then y.now else y.now + cfg.executeLatency;
    var scheduled := if y.warmup then y.now else y.now + cfg.scheduleLatency;
    && RetiresOldest(cfg, s, t.retired, k)
    && d <= |s.dispatch| && d <= cfg.dispatchWidth && |t.rob| == |s.rob| - k + d
    && (forall i :: 0 <= i < |s.rob| - k ==> Evolved(s.rob[k + i], t.rob[i], y.now, executed))
    && (forall i :: 0 <= i < d ==> EntersRob(s.dispatch[i], t.rob[|s.rob| - k + i], y.now, scheduled))
    && (d < cfg.dispatchWidth && d < |s.dispatch| ==> Stalled(cfg, t.(dispatch := s.dispatch[d..]), y.now))
  }

  /** The front: what is in each buffer was there or has come from the one before it. */
  ghost predicate FrontMoves(cfg: Config, s: State, t: State, y: Cycle, d: nat) {
    var dispatched := if y.warmup then y.now else y.now + cfg.dispatchLatency;
    var decoded := if y.warmup then y.now else y.now + cfg.decodeLatency;
    && d <= |s.dispatch|
    && StayedOrCame(s.dispatch[d..], t.dispatch, s.dibHit + s.decode, y.now, dispatched)
    && |t.dispatch| <= |s.dispatch| - d + cfg.dibWidth
    && StayedOrCame(s.dibHit, t.dibHit, s.ifetch, y.now, y.now + cfg.dibLatency)
    && StayedOrCame(s.decode, t.decode, s.ifetch, y.now, decoded)
  }

  ghost predicate CycleMoves(cfg: Config, s: State, t: State, y: Cycle) {
    exists k: nat, d: nat, p: nat, r: nat ::
      BackMoves(cfg, s, t, y, k, d) && FrontMoves(cfg, s, t, y, d) && Fetches(cfg, s, t, y, p, r)
  }

  lemma MovedEarlier(from: seq<Instr>, ifetch: seq<Instr>, x: Instr, now: int, at: int)
    requires MovedFrom(ifetch, x, now, at) && |ifetch| == |from|
    requires forall i :: 0 <= i < |from| ==> ifetch[i].id == from[i].id && ifetch[i].ready == from[i].ready
    ensures MovedFrom(from, x, now, at)
  {
    var z :| z in ifetch && z.id == x.id && z.ready <= now && x.ready == at;
    var i :| 0 <= i < |ifetch| && ifetch[i] == z;
    assert from[i] in from;
  }

  lemma StayedEarlier(before: seq<Instr>, after: seq<Instr>, from: seq<Instr>, ifetch: seq<Instr>, now: int, at: int)
    requires StayedOrCame(before, after, ifetch, now, at) && |ifetch| == |from|
    requires forall i :: 0 <= i < |from| ==> ifetch[i].id == from[i].id && ifetch[i].ready == from[i].ready
    ensures StayedOrCame(before, after, from, now, at)
  {
    hide MovedFrom;
    forall x | x in after && x !in before ensures MovedFrom(from, x, now, at) {
      MovedEarlier(from, ifetch, x, now, at);
    }
  }

  lemma StayedFewer(before: seq<Instr>, after: seq<Instr>, u: seq<Instr>, from: seq<Instr>, now: int, at: int)
    requires StayedOrCame(u, after, from, now, at) && forall x :: x in u ==> x in before
    ensures StayedOrCame(before, after, from, now, at)
  {
    hide MovedFrom;
  }

  lemma JoinsRob(cfg: Config, s: State, b: State, t: State, y: Cycle, k: nat, d: nat)
    requires RetiresOldest(cfg, s, b.retired, k) && b.dispatch == s.dispatch
    requires AllEvolved(s.rob[k..], b.rob, y.now, y.now + Delay(y.warmup, cfg.executeLatency))
    requires Dispatches(cfg, b, t, cfg.dispatchWidth, y.now, y.now + Delay(y.warmup, cfg.scheduleLatency), d)
    requires t.retired == b.retired
    ensures BackMoves(cfg, s, t, y, k, d)
  {
    hide Evolved, EntersRob, RetiresOldest;
    assert k <= |s.rob| by { RetiresBound(cfg, s, b.retired, k); }
    assert t.(dispatch := s.dispatch[d..]) == t;
    forall i | 0 <= i < |s.rob| - k
      ensures Evolved(s.rob[k + i], t.rob[i], y.now, y.now + Delay(y.warmup, cfg.executeLatency))
    {
      assert t.rob[i] == t.rob[..|b.rob|][i] == b.rob[i];
      assert s.rob[k..][i] == s.rob[k + i];
    }
  }

  lemma RetiresBound(cfg: Config, s: State, retired: seq<Instr>, k: nat)
    requires RetiresOldest(cfg, s, retired, k)
    ensures k <= |s.rob|
  {
  }

  lemma FrontTimes(cfg: Config, s: State, b: State, c: State, e: State, f: State, t: State, y: Cycle, d: nat)
    requires b.dispatch == s.dispatch && b.dibHit == s.dibHit && b.decode == s.decode
    requires b.ifetch == FetchReturn(s.ifetch, y.fetchReturned)
    requires d <= |s.dispatch| && c == b.(rob := c.rob, mem := c.mem, dispatch := s.dispatch[d..])
    requires Distinct(c.dibHit, c.decode)
    requires e == Decode(cfg, c, y.now, y.warmup) && f == Promote(cfg, e, y.now, y.warmup)
    requires t == f.(ifetch := t.ifetch, input := t.input, readWarm := t.readWarm)
    ensures FrontMoves(cfg, s, t, y, d)
  {
    hide Decode, Promote, StayedOrCame, Distinct, FetchReturn;
    DecodeMoves(cfg, c, y.now, y.warmup);
    PromoteMoves(cfg, e, y.now, y.warmup);
    forall i | 0 <= i < |s.ifetch| ensures b.ifetch[i].id == s.ifetch[i].id && b.ifetch[i].ready == s.ifetch[i].ready {
      ReturnFetches(s.ifetch, y.fetchReturned, y.now, i);
    }
    var near, far := y.now + cfg.dibLatency, y.now + Delay(y.warmup, cfg.decodeLatency);
    StayedEarlier(e.dibHit, f.dibHit, s.ifetch, e.ifetch, y.now, near);
    StayedFewer(s.dibHit, f.dibHit, e.dibHit, s.ifetch, y.now, near);
    StayedEarlier(e.decode, f.decode, s.ifetch, e.ifetch, y.now, far);
    StayedFewer(s.decode, f.decode, e.decode, s.ifetch, y.now, far);
  }

  lemma BackEndFrame(cfg: Config, s: State, y: Cycle)
    requires BackInv(cfg, s, y.now, y.warmup)
    ensures cfg.Valid()
    ensures var t := BackEnd(cfg, s, y);
      && t.dispatch == s.dispatch && t.dibHit == s.dibHit && t.decode == s.decode && t.input == s.input
      && t.ifetch == FetchReturn(s.ifetch, y.fetchReturned)
  {
    assert cfg.Valid();
    hide Renaming.Inv, Queues.Inv, ReadyOrder, RetireAll, CompleteFrom, ExecuteFrom, ScheduleFrom, ReturnBlocks,
      OperateLsq, FetchReturn, SpanLen;
  }

  lemma BuffersDistinct(cfg: Config, s: State, delivered: seq<Instr>, now: int, warmup: bool)
    requires Inv(cfg, s, delivered, now, warmup)
    ensures Distinct(s.dibHit, s.decode) && Delivered(s.input) && Waiting(s.ifetch)
  {
    hide BackInv, Merge, Distinct, Unstarted;
    OnceOrdered(s, delivered);
    OrderedPart(BackTags(s) + FrontTags(s), BackTags(s)
      + Tags(s.dispatch), Merge(Tags(s.dibHit), Tags(s.decode)), Tags(s.ifetch) + Tags(s.input));
    MergedParts(s.dibHit, s.decode);
  }

  lemma FrontInvParts(cfg: Config, s: State, delivered: seq<Instr>, now: int, warmup: bool)
    requires Inv(cfg, s, delivered, now, warmup)
    ensures BackInv(cfg, s, now, warmup)
  {
    hide BackInv, FrontInv, ExactlyOnce;
  }

  lemma {:induction false} OperateMoves(cfg: Config, s: State, delivered: seq<Instr>, now: int, warmup: bool, y: Cycle)
    requires Inv(cfg, s, delivered, now, warmup) && CoreInvariant.CycleOk(delivered, now, warmup, y)
    ensures cfg.Valid() && CycleMoves(cfg, s, Operate(cfg, s, y), y)
  {
    hide *;
    InvValid(cfg, s, delivered, now, warmup);
    var del := delivered + y.arrivals;
    ArriveKeeps(cfg, s, delivered, now, warmup, y);
    var s0 := s.(input := s.input + y.arrivals);
    FrontInvParts(cfg, s0, del, y.now, y.warmup);
    var k := BackEndEvolves(cfg, s0, y);
    BackEndFrame(cfg, s0, y);
    var b := BackEnd(cfg, s0, y);
    BackEndKeeps(cfg, s0, del, y);
    var d := DispatchMoves(cfg, b, cfg.dispatchWidth, y.now, y.warmup);
    var c := Dispatch(cfg, b, cfg.dispatchWidth, y.now, y.warmup);
    DispatchKeeps(cfg, b, del, cfg.dispatchWidth, y.now, y.warmup);
    BuffersDistinct(cfg, c, del, y.now, y.warmup);
    var e := Decode(cfg, c, y.now, y.warmup);
    DecodeKeeps(cfg, c, del, y.now, y.warmup);
    DecodeMoves(cfg, c, y.now, y.warmup);
    var f := Promote(cfg, e, y.now, y.warmup);
    PromoteKeeps(cfg, e, del, y.now, y.warmup);
    PromoteMoves(cfg, e, y.now, y.warmup);
    BuffersDistinct(cfg, f, del, y.now, y.warmup);
    var p := |e.ifetch| - |f.ifetch|;
    var r := FetchMoves(cfg, s0, f, y, p);
    var t := Fetch(cfg, f, y);
    OperateIs(cfg, s, y);
    DispatchBound(cfg, b, c, cfg.dispatchWidth, y.now, y.now + Delay(y.warmup, cfg.scheduleLatency), d);
    JoinsRob(cfg, s0, b, c, y, k, d);
    FrontTimes(cfg, s0, b, c, e, f, t, y, d);
    MovesHold(cfg, s, s0, c, t, y, k, d, p, r);
  }

  lemma InvValid(cfg: Config, s: State, delivered: seq<Instr>, now: int, warmup: bool)
    requires Inv(cfg, s, delivered, now, warmup)
    ensures cfg.Valid()
  {
    hide Renaming.Inv, Queues.Inv, FrontInv, ExactlyOnce, ReadyOrder;
  }

  lemma OperateIs(cfg: Config, s: State, y: Cycle)
    requires cfg.Valid()
    ensures Operate(cfg, s, y) == Fetch(cfg, Promote(cfg, Decode(cfg, Dispatch(cfg, BackEnd(cfg,
      s.(input := s.input + y.arrivals), y), cfg.dispatchWidth, y.now, y.warmup), y.now, y.warmup), y.now, y.warmup), y)
  {
    hide BackEnd, Dispatch, Decode, Promote, Fetch;
  }

  lemma DispatchBound(cfg: Config, s: State, t: State, bw: nat, now: int, at: int, d: nat)
    requires Dispatches(cfg, s, t, bw, now, at, d)
    ensures d <= |s.dispatch| && t.dispatch == s.dispatch[d..]
  {
    hide EntersRob, Stalled;
  }

  /** Arrivals and the front end leave the back of the pipeline alone. */
  lemma MovesHold(cfg: Config, s: State, s0: State, c: State, t: State, y: Cycle, k: nat, d: nat, p: nat, r: nat)
    requires s0 == s.(input := s0.input) && t.rob == c.rob && t.retired == c.retired && t.mem == c.mem
    requires BackMoves(cfg, s0, c, y, k, d) && FrontMoves(cfg, s0, t, y, d) && Fetches(cfg, s0, t, y, p, r)
    ensures CycleMoves(cfg, s, t, y)
  {
    hide Evolved, EntersRob, Delay, StayedOrCame, Fetching, FreeSlots;
    assert BackMoves(cfg, s, t, y, k, d);
    assert FrontMoves(cfg, s, t, y, d);
    assert Fetches(cfg, s, t, y, p, r);
    hide BackMoves, FrontMoves, Fetches;
  }

  // ---- the main result ----

  /** In every cycle of every run, instructions move only when their time has come, each stage sets
      the time of the next, and no stage moves more than its width. The oldest completed retire; the
      ROB entries change only as they may; the oldest of the dispatch buffer are dispatched until one
      is not ready or finds no place; reading ends after an instruction that stops it. */
  lemma {:induction false} StagesTakeTheirTime(cfg: Config, ys: seq<Cycle>)
    requires cfg.Valid() && RunOk(ys) && ys != []
    ensures var n := |ys| - 1; CycleMoves(cfg, Run(cfg, ys[..n]), Run(cfg, ys), ys[n])
  {
    hide Inv, CoreInvariant.CycleOk, Run, Trace, Operate, RunOk, CycleMoves;
    if |ys| == 1 {
      FirstOk(ys);
      RunOne(cfg, ys);
      RunNone(cfg, ys[..0]);
      StartInv(cfg, ys[0].now, ys[0].warmup);
      OperateMoves(cfg, Start(cfg), [], ys[0].now, ys[0].warmup, ys[0]);
    } else {
      var n := |ys| - 1;
      RunMore(cfg, ys);
      Reachable(cfg, ys[..n]);
      OperateMoves(cfg, Run(cfg, ys[..n]), Trace(ys[..n]), ys[n - 1].now, ys[n - 1].warmup, ys[n]);
    }
  }

  lemma RunNone(cfg: Config, ys: seq<Cycle>)
    requires cfg.Valid() && ys == []
    ensures Run(cfg, ys) == Start(cfg)
  {
  }
}
