/** The invariant of the whole core, over every run of cycles. */
module CoreInvariant {
  import opened Sequences
  import opened Instructions
  import opened RegisterAllocation
  import Renaming
  import opened LoadStoreQueue
  import Queues = LoadStoreInvariant
  import opened FrontEnd
  import opened PipelineOrder
  import opened Core

  // ---- the invariant ----

  ghost function BackTags(s: State): seq<Tag> {
    Tags(s.retired) + Tags(s.rob)
  }

  ghost function FrontTags(s: State): seq<Tag> {
    Tags(s.dispatch) + (Merge(Tags(s.dibHit), Tags(s.decode)) + (Tags(s.ifetch) + Tags(s.input)))
  }

  /** These are the delivered instructions, by id and memory operands. */
  ghost predicate Matches(all: seq<Tag>, delivered: seq<Instr>) {
    |all| == |delivered| && forall i :: 0 <= i < |all| ==>
      all[i].id == delivered[i].id && all[i].srcMem == delivered[i].srcMem && all[i].dstMem == delivered[i].dstMem
  }

  /** Reading an instruction that writes the stack pointer keeps that destination only if the
      change is not known at once: no branch, no memory operand, and some source other than the
      stack pointer, the flags and the instruction pointer (registers 6, 25 and 26). */
  ghost predicate KeepsStackPointer(d: Instr) {
    && 6 in d.dst && !d.front.isBranch && d.srcMem == [] && d.dstMem == []
    && exists r :: r in d.src && r !in {6, 25, 26}
  }

  /** `s` is `t` with some elements left out. */
  ghost predicate Subsequence(s: seq<Reg>, t: seq<Reg>) {
    || s == []
    || (t != [] && s[0] == t[0] && Subsequence(s[1..], t[1..]))
    || (t != [] && Subsequence(s, t[1..]))
  }

  /** What folding leaves of the destinations. */
  ghost predicate Folded(dst: seq<Reg>, d: Instr) {
    && Subsequence(dst, d.dst) && (forall r :: r != 6 ==> multiset(dst)[r] == multiset(d.dst)[r])
    && (if KeepsStackPointer(d) then dst == d.dst else 6 !in dst)
  }

  /** `t` has the registers `d` was delivered with, as they are once it has been read: none
      during warmup, else all, in order, but for a stack pointer whose value is known at once. */
  ghost predicate FromTrace(t: Tag, d: Instr, warm: bool) {
    if warm then t.archSrc == [] && t.archDst == []
    else
      t.archSrc == d.src && Folded(t.archDst, d)
  }

  /** Those read have the registers they were delivered with. */
  ghost predicate OperandsKept(all: seq<Tag>, delivered: seq<Instr>, readWarm: seq<bool>) {
    forall i :: 0 <= i < |readWarm| && i < |all| && i < |delivered| ==> FromTrace(all[i], delivered[i], readWarm[i])
  }

  /** Every delivered instruction is in the pipeline exactly once, in program order; those
      still to be read are as delivered, the others have their registers. */
  ghost predicate ExactlyOnce(s: State, delivered: seq<Instr>) {
    var all, n := BackTags(s) + FrontTags(s), |s.readWarm|;
    && Ordered(Tags(delivered)) && Matches(all, delivered)
    && n <= |delivered| && s.input == delivered[n..] && OperandsKept(all, delivered, s.readWarm)
  }

  lemma OnceOrdered(s: State, delivered: seq<Instr>)
    requires ExactlyOnce(s, delivered)
    ensures Ordered(BackTags(s) + FrontTags(s))
  {
    MatchesOrdered(BackTags(s) + FrontTags(s), delivered);
  }

  lemma SameOnce(s: State, t: State, delivered: seq<Instr>)
    requires ExactlyOnce(s, delivered) && t.input == s.input && BackTags(t) == BackTags(s)
    requires FrontTags(t) == FrontTags(s) && t.readWarm == s.readWarm
    ensures ExactlyOnce(t, delivered)
  {
    hide Matches, OperandsKept, BackTags, FrontTags, Tags, Ordered;
  }

  lemma MatchesOrdered(all: seq<Tag>, delivered: seq<Instr>)
    requires Matches(all, delivered) && Ordered(Tags(delivered))
    ensures Ordered(all)
  {
    forall i, j | 0 <= i < j < |all| ensures all[i].id < all[j].id {
      assert Tags(delivered)[i].id < Tags(delivered)[j].id;
    }
  }

  /** Not yet dispatched. */
  ghost predicate Unstarted(x: Instr) {
    !x.scheduled && !x.executed && !x.completed && x.memDone == 0
  }

  ghost predicate Waiting(s: seq<Instr>) {
    forall i :: 0 <= i < |s| ==> Unstarted(s[i]) && Renaming.EntryOk(s[i])
  }

  ghost predicate Delivered(s: seq<Instr>) {
    forall i :: 0 <= i < |s| ==> Unstarted(s[i])
  }

  /** Ready times of unscheduled entries rise along the ROB, up to what a dispatch now
      would set; so scheduling a prefix in program order is all the scheduler can do. */
  ghost predicate ReadyOrder(cfg: Config, rob: seq<Instr>, now: int, warmup: bool) {
    && (forall i, j :: 0 <= i < j < |rob| && !rob[i].scheduled && !rob[j].scheduled ==> rob[i].ready <= rob[j].ready)
    && (forall i :: 0 <= i < |rob| && !rob[i].scheduled ==> rob[i].ready <= now + Delay(warmup, cfg.scheduleLatency))
  }

  ghost predicate BackInv(cfg: Config, s: State, now: int, warmup: bool) {
    && cfg.Valid()
    && Renaming.Inv(cfg.registers, s.retired, s.rob, s.ra)
    && Queues.Inv(s.retired, s.rob, s.mem)
    && ReadyOrder(cfg, s.rob, now, warmup)
    && |s.rob| <= cfg.robSize && |s.mem.sq| <= cfg.sqSize && |s.mem.lq| == cfg.lqSize
  }

  ghost predicate FrontInv(cfg: Config, s: State) {
    && Waiting(s.dispatch) && Waiting(s.dibHit) && Waiting(s.decode) && Waiting(s.ifetch) && Delivered(s.input)
    && |s.dispatch| <= cfg.dispatchSize && |s.dibHit| <= cfg.dibSize && |s.decode| <= cfg.decodeSize
      && |s.ifetch| <= cfg.ifetchSize
  }

  ghost predicate Inv(cfg: Config, s: State, delivered: seq<Instr>, now: int, warmup: bool) {
    BackInv(cfg, s, now, warmup) && FrontInv(cfg, s) && ExactlyOnce(s, delivered)
  }

  /** What the environment promises: time does not run backwards, warmup does not resume,
      and the trace delivers fresh instructions in program order. */
  ghost predicate CycleOk(delivered: seq<Instr>, now: int, warmup: bool, y: Cycle) {
    && now <= y.now && (y.warmup ==> warmup)
    && Delivered(y.arrivals) && Ordered(Tags(delivered + y.arrivals))
  }

  /** A step of the back end keeps its invariant and moves no instruction. */
  ghost predicate BackStep(cfg: Config, s: State, t: State, now: int, warmup: bool) {
    && BackInv(cfg, t, now, warmup) && BackTags(t) == BackTags(s)
    && t.dispatch == s.dispatch && t.dibHit == s.dibHit && t.decode == s.decode && t.ifetch == s.ifetch
    && t.input == s.input && t.readWarm == s.readWarm
  }

  /** `t` holds the instructions of `rob`, and unscheduled ones are untouched. */
  ghost predicate SameUnscheduled(rob: seq<Instr>, t: seq<Instr>) {
    |t| == |rob| && forall i :: 0 <= i < |rob| ==>
      TagOf(t[i]) == TagOf(rob[i]) && (!t[i].scheduled ==> !rob[i].scheduled && t[i].ready == rob[i].ready)
  }
  lemma {:induction false} SameUnscheduledKeeps(cfg: Config, rob: seq<Instr>, t: seq<Instr>, now: int, warmup: bool)
    requires SameUnscheduled(rob, t) && ReadyOrder(cfg, rob, now, warmup)
    ensures ReadyOrder(cfg, t, now, warmup) && Tags(t) == Tags(rob)
  {
  }

  lemma {:induction false} SameUnscheduledChain(rob: seq<Instr>, t: seq<Instr>, u: seq<Instr>)
    requires SameUnscheduled(rob, t) && SameUnscheduled(t, u)
    ensures SameUnscheduled(rob, u)
  {
  }

  // ---- retire ----

  lemma {:induction false} RetireAllKeeps(n: nat, retired: seq<Instr>, rob: seq<Instr>, a: Alloc, k: nat)
    requires Renaming.Inv(n, retired, rob, a) && k <= |rob| && forall i :: 0 <= i < k ==> rob[i].completed
    ensures Renaming.Inv(n, retired + rob[..k], rob[k..], RetireAll(a, rob[..k]))
    decreases k
  {
    hide Renaming.Inv;
    if k == 0 {
      assert retired + rob[..0] == retired && rob[0..] == rob;
    } else {
      Renaming.RetireHeadKeeps(n, retired, rob, a);
      RetireAllKeeps(n, retired + [rob[0]], rob[1..], RetireDests(a, rob[0].dst), k - 1);
      assert rob[..k] == [rob[0]] + rob[1..][..k - 1];
      assert retired + [rob[0]] + rob[1..][..k - 1] == retired + rob[..k];
      assert rob[1..][k - 1..] == rob[k..];
      assert rob[..k][1..] == rob[1..][..k - 1];
    }
  }

  lemma {:induction false} RetireKeeps(cfg: Config, s: State, now: int, warmup: bool)
    requires BackInv(cfg, s, now, warmup)
    ensures BackStep(cfg, s, Retire(cfg, s), now, warmup)
  {
    hide Renaming.Inv, Queues.Inv, SpanLen, RetireAll;
    var k := SpanLen(s.rob, cfg.retireWidth, (x: Instr) => x.completed);
    RetireAllKeeps(cfg.registers, s.retired, s.rob, s.ra, k);
    Queues.RetireKeeps(s.retired, s.rob, s.mem, k);
    assert Tags(s.retired + s.rob[..k]) + Tags(s.rob[k..]) == Tags(s.retired) + Tags(s.rob);
  }

  // ---- complete ----

  lemma {:induction false} CompleteOneKeeps(n: nat, retired: seq<Instr>, rob: seq<Instr>, a: Alloc, m: Mem, i: nat,
      now: int)
    requires Renaming.Inv(n, retired, rob, a) && Queues.Inv(retired, rob, m) && i < |rob| && CanComplete(rob[i], now)
    ensures var t := rob[i := rob[i].(completed := true)];
      Renaming.Inv(n, retired, t, CompleteDests(a, rob[i].dst)) && Queues.Inv(retired, t, m) && SameUnscheduled(rob, t)
  {
    hide Queues.InvAt, Renaming.Conserved, Renaming.Linked, Renaming.Recorded, Renaming.Ready, Renaming.Shape,
      Queues.IdsIncrease, Queues.HasId, CompleteDests;
    var t := rob[i := rob[i].(completed := true)];
    assert Queues.CompletedDone(t);
    Renaming.CompleteKeeps(n, retired, rob, a, i);
    Queues.FlagsKeep(retired, rob, t, m, m);
  }

  lemma {:induction false} CompleteFromKeeps(n: nat, retired: seq<Instr>, rob: seq<Instr>, a: Alloc, m: Mem, i: nat,
      bw: nat, now: int)
    requires Renaming.Inv(n, retired, rob, a) && Queues.Inv(retired, rob, m) && i <= |rob|
    ensures var (r, b) := CompleteFrom(rob, a, i, bw, now);
      Renaming.Inv(n, retired, r, b) && Queues.Inv(retired, r, m) && SameUnscheduled(rob, r)
    decreases |rob| - i
  {
    hide Renaming.Inv, Queues.Inv;
    if i < |rob| && bw > 0 {
      if CanComplete(rob[i], now) {
        var t := rob[i := rob[i].(completed := true)];
        CompleteOneKeeps(n, retired, rob, a, m, i, now);
        CompleteFromKeeps(n, retired, t, CompleteDests(a, rob[i].dst), m, i + 1, bw - 1, now);
        SameUnscheduledChain(rob, t, CompleteFrom(rob, a, i, bw, now).0);
      } else {
        CompleteFromKeeps(n, retired, rob, a, m, i + 1, bw, now);
      }
    }
  }

  lemma {:induction false} CompleteKeeps(cfg: Config, s: State, now: int, warmup: bool)
    requires BackInv(cfg, s, now, warmup)
    ensures BackStep(cfg, s, Complete(cfg, s, now), now, warmup)
  {
    hide Renaming.Inv, Queues.Inv;
    CompleteFromKeeps(cfg.registers, s.retired, s.rob, s.ra, s.mem, 0, cfg.executeWidth, now);
    SameUnscheduledKeeps(cfg, s.rob, Complete(cfg, s, now).rob, now, warmup);
  }

  // ---- execute ----

  lemma {:induction false} ExecuteOneKeeps(n: nat, retired: seq<Instr>, rob: seq<Instr>, a: Alloc, m: Mem, i: nat,
      now: int, at: int)
    requires Renaming.Inv(n, retired, rob, a) && Queues.Inv(retired, rob, m) && i < |rob| && CanExecute(a, rob[i], now)
    ensures var t := rob[i := rob[i].(executed := true, ready := at)];
      Renaming.Inv(n, retired, t, a) && Queues.Inv(retired, t, MarkReady(m, rob[i].id, at)) && SameUnscheduled(rob, t)
  {
    hide Queues.Inv, MarkReady;
    var t := rob[i := rob[i].(executed := true, ready := at)];
    ExecutedQueues(retired, rob, m, i, at);
    assert Renaming.InOrder(rob);
    hide Renaming.Inv;
    Renaming.FlagsKeep(n, retired, rob, t, a);
  }

  lemma {:induction false} ExecutedQueues(retired: seq<Instr>, rob: seq<Instr>, m: Mem, i: nat, at: int)
    requires Queues.Inv(retired, rob, m) && i < |rob|
    ensures Queues.Inv(retired, rob[i := rob[i].(executed := true, ready := at)], MarkReady(m, rob[i].id, at))
  {
    var t := rob[i := rob[i].(executed := true, ready := at)];
    assert Queues.CompletedDone(t);
    hide Queues.Inv, Queues.CompletedDone;
    assert Queues.OnlyReady(m, MarkReady(m, rob[i].id, at));
    hide MarkReady, Queues.OnlyReady;
    Queues.FlagsKeep(retired, rob, t, m, MarkReady(m, rob[i].id, at));
  }

  lemma {:induction false} ExecuteFromKeeps(n: nat, retired: seq<Instr>, rob: seq<Instr>, a: Alloc, m: Mem, i: nat,
      bw: nat, now: int, at: int)
    requires Renaming.Inv(n, retired, rob, a) && Queues.Inv(retired, rob, m) && i <= |rob|
    ensures var (r, w) := ExecuteFrom(rob, m, a, i, bw, now, at);
      && Renaming.Inv(n, retired, r, a) && Queues.Inv(retired, r, w) && SameUnscheduled(rob, r)
      && |w.sq| == |m.sq| && |w.lq| == |m.lq|
    decreases |rob| - i
  {
    hide Renaming.Inv, Queues.Inv;
    if i < |rob| && bw > 0 {
      if CanExecute(a, rob[i], now) {
        var t := rob[i := rob[i].(executed := true, ready := at)];
        ExecuteOneKeeps(n, retired, rob, a, m, i, now, at);
        ExecuteFromKeeps(n, retired, t, a, MarkReady(m, rob[i].id, at), i + 1, bw - 1, now, at);
        SameUnscheduledChain(rob, t, ExecuteFrom(rob, m, a, i, bw, now, at).0);
      } else {
        ExecuteFromKeeps(n, retired, rob, a, m, i + 1, bw, now, at);
      }
    }
  }

  lemma {:induction false} ExecuteKeeps(cfg: Config, s: State, now: int, warmup: bool)
    requires BackInv(cfg, s, now, warmup)
    ensures BackStep(cfg, s, Execute(cfg, s, now, warmup), now, warmup)
  {
    hide Renaming.Inv, Queues.Inv;
    ExecuteFromKeeps(cfg.registers, s.retired, s.rob, s.ra, s.mem, 0, cfg.executeWidth, now, now
      + Delay(warmup, cfg.executeLatency));
    SameUnscheduledKeeps(cfg, s.rob, Execute(cfg, s, now, warmup).rob, now, warmup);
  }

  // ---- schedule ----

  /** Entry `i` is the first unscheduled one whenever the scheduler renames it: an older
      unscheduled entry would have been ready, visited and renamed before it. */
  lemma {:induction false} ScheduleOneKeeps(cfg: Config, retired: seq<Instr>, rob: seq<Instr>, a: Alloc, m: Mem, i: nat,
      now: int, warmup: bool)
    requires Renaming.Inv(cfg.registers, retired, rob, a) && Queues.Inv(retired, rob, m)
    requires ReadyOrder(cfg, rob, now, warmup)
    requires i < |rob| && !rob[i].scheduled && rob[i].ready <= now && EnoughNames(a, rob[i])
    requires forall j :: 0 <= j < i && !rob[j].scheduled ==> rob[j].ready > now
    ensures var (b, x) := Renaming.ScheduleInstr(a, rob[i]);
      var t := rob[i := x];
      && Renaming.Inv(cfg.registers, retired, t, b) && Queues.Inv(retired, t, m)
      && SameUnscheduled(rob, t) && ReadyOrder(cfg, t, now, warmup) && x.scheduled
  {
    hide Queues.Inv, Unallocated;
    assert Renaming.EntryOk(rob[i]) by { hide Queues.Inv; }
    ScheduledQueues(retired, rob, a, m, i);
    hide Renaming.Inv;
    Renaming.ScheduledIs(rob, i) by { hide Unallocated, SameUnscheduled; }
    Renaming.ScheduleInstrKeeps(cfg.registers, retired, rob, a);
    var t := rob[i := Renaming.ScheduleInstr(a, rob[i]).1];
    SameUnscheduledKeeps(cfg, rob, t, now, warmup);
  }

  lemma {:induction false} ScheduledQueues(retired: seq<Instr>, rob: seq<Instr>, a: Alloc, m: Mem, i: nat)
    requires Queues.Inv(retired, rob, m) && i < |rob| && EnoughNames(a, rob[i])
    ensures Queues.Inv(retired, rob[i := Renaming.ScheduleInstr(a, rob[i]).1], m)
  {
    var t := rob[i := Renaming.ScheduleInstr(a, rob[i]).1];
    assert Queues.CompletedDone(t);
    hide Queues.Inv, Queues.CompletedDone;
    Queues.FlagsKeep(retired, rob, t, m, m);
  }

  lemma {:induction false} ScheduleFromKeeps(cfg: Config, retired: seq<Instr>, rob: seq<Instr>, a: Alloc, m: Mem,
      i: nat, bw: nat, now: int, warmup: bool)
    requires Renaming.Inv(cfg.registers, retired, rob, a) && Queues.Inv(retired, rob, m)
    requires ReadyOrder(cfg, rob, now, warmup) && i <= |rob|
    requires forall j :: 0 <= j < i && !rob[j].scheduled ==> rob[j].ready > now
    ensures var (r, b) := ScheduleFrom(rob, a, i, bw, now);
      Renaming.Inv(cfg.registers, retired, r, b) && Queues.Inv(retired, r, m) && SameUnscheduled(rob, r)
    decreases |rob| - i
  {
    hide Renaming.Inv, Queues.Inv, ReadyOrder;
    if i < |rob| && bw > 0 && EnoughNames(a, rob[i]) {
      var next := bw - (if rob[i].executed then 0 else 1);
      if !rob[i].scheduled && rob[i].ready <= now {
        ScheduleOneKeeps(cfg, retired, rob, a, m, i, now, warmup);
        var (b, x) := Renaming.ScheduleInstr(a, rob[i]);
        var t := rob[i := x];
        ScheduleFromKeeps(cfg, retired, t, b, m, i + 1, next, now, warmup);
        SameUnscheduledChain(rob, t, ScheduleFrom(rob, a, i, bw, now).0);
      } else {
        ScheduleFromKeeps(cfg, retired, rob, a, m, i + 1, next, now, warmup);
      }
    }
  }

  lemma {:induction false} ScheduleKeeps(cfg: Config, s: State, now: int, warmup: bool)
    requires BackInv(cfg, s, now, warmup)
    ensures BackStep(cfg, s, Schedule(cfg, s, now), now, warmup)
  {
    hide Renaming.Inv, Queues.Inv;
    ScheduleFromKeeps(cfg, s.retired, s.rob, s.ra, s.mem, 0, cfg.scheduleWidth, now, warmup);
    SameUnscheduledKeeps(cfg, s.rob, Schedule(cfg, s, now).rob, now, warmup);
  }

  // ---- memory return, load/store queues ----

  /** Steps that only count finished operations keep what renaming keeps. */
  lemma {:induction false} CountsKeep(cfg: Config, retired: seq<Instr>, rob: seq<Instr>, r: seq<Instr>, a: Alloc)
    requires Renaming.Inv(cfg.registers, retired, rob, a) && Queues.OnlyCounts(rob, r)
    ensures Renaming.Inv(cfg.registers, retired, r, a) && SameUnscheduled(rob, r)
  {
    assert Renaming.InOrder(rob);
    hide Renaming.Inv, Renaming.InOrder;
    Renaming.FlagsKeep(cfg.registers, retired, rob, r, a);
  }

  lemma {:induction false} MemoryReturnKeeps(cfg: Config, s: State, y: Cycle, now: int, warmup: bool)
    requires BackInv(cfg, s, now, warmup)
    ensures BackStep(cfg, s.(ifetch := FetchReturn(s.ifetch, y.fetchReturned)), MemoryReturn(cfg, s, y), now, warmup)
  {
    hide Renaming.Inv, Queues.Inv;
    var blocks := y.blocks[..Min(|y.blocks|, cfg.l1dWidth)];
    Queues.ReturnKeeps(s.retired, s.rob, s.mem, blocks, cfg.blockSize);
    var r := MemoryReturn(cfg, s, y).rob;
    CountsKeep(cfg, s.retired, s.rob, r, s.ra);
    SameUnscheduledKeeps(cfg, s.rob, r, now, warmup);
  }

  lemma {:induction false} LsqKeeps(cfg: Config, s: State, y: Cycle, now: int, warmup: bool)
    requires BackInv(cfg, s, now, warmup)
    ensures BackStep(cfg, s, Lsq(cfg, s, y), now, warmup)
  {
    hide Renaming.Inv, Queues.Inv;
    Queues.OperateLsqKeeps(s.retired, s.rob, s.mem, y.now, cfg.sqWidth, cfg.lqWidth, y.storeAccepts, y.loadAccepts);
    var t := Lsq(cfg, s, y);
    CountsKeep(cfg, s.retired, s.rob, t.rob, s.ra);
    SameUnscheduledKeeps(cfg, s.rob, t.rob, now, warmup);
    OperateLsqSlots(s.rob, s.mem, y.now, cfg.sqWidth, cfg.lqWidth, y.storeAccepts, y.loadAccepts);
  }

  lemma OperateLsqSlots(rob: seq<Instr>, m: Mem, now: int, sqWidth: nat, lqWidth: nat, writes: nat,
      accepts: nat -> bool)
    ensures |OperateLsq(rob, m, now, sqWidth, lqWidth, writes, accepts).1.lq| == |m.lq|
  {
  }

  // ---- dispatch ----

  /** The instruction at the head of the dispatch buffer follows everything dispatched. */
  lemma {:induction false} NextIsYoungest(s: State, delivered: seq<Instr>)
    requires ExactlyOnce(s, delivered) && s.dispatch != []
    ensures Queues.IdsIncrease(s.retired + s.rob + [s.dispatch[0]])
  {
    var t := s.retired + s.rob + [s.dispatch[0]];
    var all := BackTags(s) + FrontTags(s);
    MatchesOrdered(all, delivered);
    forall i | 0 <= i < |t| ensures i < |all| && all[i].id == t[i].id {
      if i == |t| - 1 { assert FrontTags(s)[0] == Tags(s.dispatch)[0]; }
    }
  }

  /** The newest ROB entry after its operations entered the queues. */
  lemma {:induction false} DispatchBack(cfg: Config, s: State, now: int, warmup: bool)
    requires BackInv(cfg, s, now, warmup) && CanDispatch(cfg, s, now)
    requires Queues.IdsIncrease(s.retired + s.rob + [s.dispatch[0]])
    requires Unstarted(s.dispatch[0]) && Renaming.EntryOk(s.dispatch[0])
    ensures var t := DispatchOne(cfg, s, now, warmup);
      && Renaming.Inv(cfg.registers, t.retired, t.rob, t.ra) && Queues.Inv(t.retired, t.rob, t.mem)
      && |t.rob| == |s.rob| + 1 && SameUnscheduled(s.rob, t.rob[..|s.rob|])
      && TagOf(t.rob[|s.rob|]) == TagOf(s.dispatch[0])
        && t.rob[|s.rob|].ready == now + Delay(warmup, cfg.scheduleLatency)
      && |t.mem.sq| == |s.mem.sq| + |s.dispatch[0].dstMem|
  {
    hide Renaming.Inv, Queues.Inv, MemorySchedule;
    var x := s.dispatch[0];
    var n := |s.rob|;
    Renaming.DispatchKeeps(cfg.registers, s.retired, s.rob, s.ra, x);
    Queues.DispatchKeeps(s.retired, s.rob, s.mem, x);
    var (r, m) := MemorySchedule(s.rob + [x], s.mem);
    CountsKeep(cfg, s.retired, s.rob + [x], r, s.ra);
    TimeKeeps(cfg, s.retired, r, s.ra, m, n, now + Delay(warmup, cfg.scheduleLatency));
  }

  lemma {:induction false} TimeKeeps(cfg: Config, retired: seq<Instr>, rob: seq<Instr>, a: Alloc, m: Mem, i: nat,
      at: int)
    requires Renaming.Inv(cfg.registers, retired, rob, a) && Queues.Inv(retired, rob, m) && i < |rob|
    ensures var t := rob[i := rob[i].(ready := at)];
      Renaming.Inv(cfg.registers, retired, t, a) && Queues.Inv(retired, t, m)
  {
    var t := rob[i := rob[i].(ready := at)];
    assert Renaming.InOrder(rob);
    assert Queues.CompletedDone(t);
    hide Renaming.Inv, Queues.Inv;
    Renaming.FlagsKeep(cfg.registers, retired, rob, t, a);
    Queues.FlagsKeep(retired, rob, t, m, m);
  }

  lemma {:induction false} DispatchSlots(rob: seq<Instr>, m: Mem, addrs: seq<nat>)
    requires rob != [] && |addrs| <= FreeSlots(m.lq)
    ensures |ScheduleLoads(rob, m, addrs).1.lq| == |m.lq|
    decreases |addrs|
  {
    if addrs != [] {
      ScheduleLoadSlots(rob, m, addrs[0]);
      var (r, w) := ScheduleLoad(rob, m, addrs[0]);
      DispatchSlots(r, w, addrs[1..]);
    }
  }

  lemma {:induction false} DispatchTags(s: State, t: State)
    requires s.dispatch != [] && |t.rob| == |s.rob| + 1 && SameUnscheduled(s.rob, t.rob[..|s.rob|])
    requires TagOf(t.rob[|s.rob|]) == TagOf(s.dispatch[0])
    requires t.retired == s.retired && t.dispatch == s.dispatch[1..]
    requires t.dibHit == s.dibHit && t.decode == s.decode && t.ifetch == s.ifetch && t.input == s.input
    ensures BackTags(t) + FrontTags(t) == BackTags(s) + FrontTags(s)
  {
    hide Merge;
    var n := |s.rob|;
    var x := [TagOf(s.dispatch[0])];
    forall i | 0 <= i < n ensures TagOf(t.rob[i]) == TagOf(s.rob[i]) { assert t.rob[i] == t.rob[..n][i]; }
    assert Tags(t.rob) == Tags(s.rob) + x;
    assert Tags(s.dispatch) == x + Tags(t.dispatch);
    MoveAcross(Tags(s.retired), Tags(s.rob), x, Tags(t.dispatch), Merge(Tags(s.dibHit), Tags(s.decode))
      + (Tags(s.ifetch) + Tags(s.input)));
    hide Tags;
  }

  lemma {:induction false} DispatchOneKeeps(cfg: Config, s: State, delivered: seq<Instr>, now: int, warmup: bool)
    requires Inv(cfg, s, delivered, now, warmup) && CanDispatch(cfg, s, now)
    ensures Inv(cfg, DispatchOne(cfg, s, now, warmup), delivered, now, warmup)
  {
    hide Renaming.Inv, Queues.Inv, ScheduleLoads, NewStores, FreeSlots, SameUnscheduled, ExactlyOnce, BackTags,
      FrontTags, ReadyOrder, Queues.IdsIncrease;
    var t := DispatchOne(cfg, s, now, warmup);
    NextIsYoungest(s, delivered);
    DispatchBack(cfg, s, now, warmup);
    DispatchSlots(s.rob + [s.dispatch[0]], s.mem, s.dispatch[0].srcMem);
    DispatchTags(s, t);
    DispatchOnce(s, t, delivered);
    DispatchReady(cfg, s.rob, t.rob, now, warmup);
  }

  lemma DispatchOnce(s: State, t: State, delivered: seq<Instr>)
    requires ExactlyOnce(s, delivered) && t.input == s.input && t.readWarm == s.readWarm
    requires BackTags(t) + FrontTags(t) == BackTags(s) + FrontTags(s)
    ensures ExactlyOnce(t, delivered)
  {
    hide Matches, OperandsKept, BackTags, FrontTags, Tags, Ordered;
  }

  lemma {:induction false} DispatchReady(cfg: Config, rob: seq<Instr>, t: seq<Instr>, now: int, warmup: bool)
    requires |t| == |rob| + 1 && SameUnscheduled(rob, t[..|rob|]) && ReadyOrder(cfg, rob, now, warmup)
    requires t[|rob|].ready == now + Delay(warmup, cfg.scheduleLatency)
    ensures ReadyOrder(cfg, t, now, warmup)
  {
    SameUnscheduledKeeps(cfg, rob, t[..|rob|], now, warmup);
    forall i | 0 <= i < |rob| ensures t[i] == t[..|rob|][i] { }
  }

  lemma {:induction false} DispatchKeeps(cfg: Config, s: State, delivered: seq<Instr>, bw: nat, now: int, warmup: bool)
    requires Inv(cfg, s, delivered, now, warmup)
    ensures Inv(cfg, Dispatch(cfg, s, bw, now, warmup), delivered, now, warmup)
    decreases bw
  {
    hide Inv, DispatchOne, CanDispatch;
    if bw > 0 && CanDispatch(cfg, s, now) {
      DispatchOneKeeps(cfg, s, delivered, now, warmup);
      DispatchKeeps(cfg, DispatchOne(cfg, s, now, warmup), delivered, bw - 1, now, warmup);
    }
  }

  // ---- decode, promote, fetch ----

  lemma {:induction false} MergeByIdFrom(s: seq<Instr>, t: seq<Instr>)
    ensures forall x :: x in MergeById(s, t) ==> x in s || x in t
    decreases |s| + |t|
  {
    if s != [] && t != [] {
      if t[0].id < s[0].id { MergeByIdFrom(s, t[1..]); } else { MergeByIdFrom(s[1..], t); }
    }
  }

  lemma {:induction false} OrderedPart(s: seq<Tag>, a: seq<Tag>, b: seq<Tag>, c: seq<Tag>)
    requires Ordered(s) && s == a + (b + c)
    ensures Ordered(b)
  {
    assert forall i :: 0 <= i < |b| ==> s[|a| + i] == b[i];
  }

  lemma {:induction false} DecodeSplit(dispatch: seq<Instr>, dib: seq<Instr>, dec: seq<Instr>, c: Cursor, at: int,
      m2: seq<Tag>)
    requires InRange(dib, dec, c)
    requires Merge(Tags(dib), Tags(dec)) == Merge(Tags(dib[..c.dib]), Tags(dec[..c.dec])) + m2
    ensures Tags(dispatch) + Merge(Tags(dib), Tags(dec))
         == Tags(dispatch + MergeById(ReadyAt(dib[..c.dib], at), ReadyAt(dec[..c.dec], at))) + m2
  {
    hide Merge, MergeById, ReadyAt, Tags;
    var d, e := ReadyAt(dib[..c.dib], at), ReadyAt(dec[..c.dec], at);
    assert Tags(d) == Tags(dib[..c.dib]) && Tags(e) == Tags(dec[..c.dec]);
    MergeTags(d, e);
    TagsAppend(dispatch, MergeById(d, e));
  }

  lemma {:induction false} DecodeTags(cfg: Config, s: State, now: int, warmup: bool)
    requires Ordered(Merge(Tags(s.dibHit), Tags(s.decode)))
    ensures var t := Decode(cfg, s, now, warmup); BackTags(t) == BackTags(s) && FrontTags(t) == FrontTags(s)
  {
    hide DecodeSpan, Merge, MergeById, ReadyAt, Tags, Ordered;
    var w := Min(cfg.dibWidth, Room(cfg.dispatchSize, |s.dispatch|));
    var c := DecodeSpan(s.dibHit, s.decode, w, cfg.decodeWidth, now);
    var m2 := Merge(Tags(s.dibHit[c.dib..]), Tags(s.decode[c.dec..]));
    DecodeTakesOldest(s.dibHit, s.decode, w, cfg.decodeWidth, now);
    DecodeSplit(s.dispatch, s.dibHit, s.decode, c, now + Delay(warmup, cfg.dispatchLatency), m2);
    var t := Decode(cfg, s, now, warmup);
    var rest := Tags(s.ifetch) + Tags(s.input);
    Associate(Tags(s.dispatch), Merge(Tags(s.dibHit), Tags(s.decode)), rest);
    Associate(Tags(t.dispatch), m2, rest);
  }

  lemma Associate(a: seq<Tag>, b: seq<Tag>, c: seq<Tag>)
    ensures a + (b + c) == (a + b) + c
  {
  }

  lemma MoveAcross(a: seq<Tag>, b: seq<Tag>, x: seq<Tag>, c: seq<Tag>, d: seq<Tag>)
    ensures (a + (b + x)) + (c + d) == (a + b) + ((x + c) + d)
  {
  }

  lemma {:induction false} DecodeFront(cfg: Config, s: State, now: int, warmup: bool)
    requires FrontInv(cfg, s)
    ensures FrontInv(cfg, Decode(cfg, s, now, warmup))
  {
    hide DecodeSpan, MergeById;
    var w := Min(cfg.dibWidth, Room(cfg.dispatchSize, |s.dispatch|));
    var at := now + Delay(warmup, cfg.dispatchLatency);
    var c := DecodeSpan(s.dibHit, s.decode, w, cfg.decodeWidth, now);
    var d, e := ReadyAt(s.dibHit[..c.dib], at), ReadyAt(s.decode[..c.dec], at);
    MergeByIdFrom(d, e);
    var m := MergeById(d, e);
    forall i | 0 <= i < |m| ensures Unstarted(m[i]) && Renaming.EntryOk(m[i]) {
      assert m[i] in m;
    }
  }

  lemma {:induction false} DecodeKeeps(cfg: Config, s: State, delivered: seq<Instr>, now: int, warmup: bool)
    requires Inv(cfg, s, delivered, now, warmup)
    ensures Inv(cfg, Decode(cfg, s, now, warmup), delivered, now, warmup)
  {
    hide BackInv, FrontInv, ExactlyOnce, Merge, Decode;
    OnceOrdered(s, delivered);
    OrderedPart(BackTags(s) + FrontTags(s), BackTags(s)
      + Tags(s.dispatch), Merge(Tags(s.dibHit), Tags(s.decode)), Tags(s.ifetch) + Tags(s.input));
    hide BackTags, FrontTags;
    var t := Decode(cfg, s, now, warmup);
    DecodeTags(cfg, s, now, warmup);
    DecodeFront(cfg, s, now, warmup);
    DecodeFrame(cfg, s, now, warmup);
    SameBack(cfg, s, t, now, warmup);
    SameOnce(s, t, delivered);
  }

  lemma DecodeFrame(cfg: Config, s: State, now: int, warmup: bool)
    ensures var t := Decode(cfg, s, now, warmup);
      && t.rob == s.rob && t.retired == s.retired && t.mem == s.mem && t.ra == s.ra
      && t.input == s.input && t.readWarm == s.readWarm
  {
  }

  lemma SameBack(cfg: Config, s: State, t: State, now: int, warmup: bool)
    requires BackInv(cfg, s, now, warmup)
    requires t.rob == s.rob && t.retired == s.retired && t.mem == s.mem && t.ra == s.ra
    ensures BackInv(cfg, t, now, warmup) && BackTags(t) == BackTags(s)
  {
  }

  /** What promoting the first `n` entries does to the order seen through the merge. */
  lemma {:induction false} PromoteMerge(s: State, n: nat, at: int, later: int)
    requires n <= |s.ifetch| && Ordered(Merge(Tags(s.dibHit), Tags(s.decode)) + Tags(s.ifetch))
    ensures Merge(Tags(s.dibHit + ReadyAt(Filter(s.ifetch[..n], true), at)),
      Tags(s.decode + ReadyAt(Filter(s.ifetch[..n], false), later)))
         == Merge(Tags(s.dibHit), Tags(s.decode)) + Tags(s.ifetch[..n])
  {
    hide Merge, Tags, Filter, ReadyAt, Ordered;
    TagsCut(s.ifetch, n);
    OrderedPrefix(Merge(Tags(s.dibHit), Tags(s.decode)), Tags(s.ifetch[..n]), Tags(s.ifetch[n..]));
    PromoteKeepsOrder(s.dibHit, s.decode, s.ifetch[..n], at, later);
  }

  lemma {:induction false} PromoteTags(cfg: Config, s: State, now: int, warmup: bool)
    requires Ordered(Merge(Tags(s.dibHit), Tags(s.decode)) + Tags(s.ifetch))
    ensures var t := Promote(cfg, s, now, warmup); BackTags(t) == BackTags(s) && FrontTags(t) == FrontTags(s)
  {
    hide PromoteLen, Merge, Tags, Filter, ReadyAt, Ordered;
    var n := PromoteLen(s.ifetch, Min(cfg.fetchWidth,
      Min(Room(cfg.dibSize, |s.dibHit|), Room(cfg.decodeSize, |s.decode|))), now);
    PromoteMerge(s, n, now + cfg.dibLatency, now + Delay(warmup, cfg.decodeLatency));
    TagsCut(s.ifetch, n);
    SplitFetch(Merge(Tags(s.dibHit), Tags(s.decode)), Tags(s.ifetch[..n]), Tags(s.ifetch[n..]), Tags(s.input));
  }

  lemma TagsCut(s: seq<Instr>, n: nat)
    requires n <= |s|
    ensures Tags(s) == Tags(s[..n]) + Tags(s[n..])
  {
    assert s == s[..n] + s[n..];
    TagsAppend(s[..n], s[n..]);
  }

  lemma OrderedPrefix(m: seq<Tag>, u: seq<Tag>, v: seq<Tag>)
    requires Ordered(m + (u + v))
    ensures Ordered(m + u)
  {
    assert forall i :: 0 <= i < |m + u| ==> (m + (u + v))[i] == (m + u)[i];
  }

  lemma SplitFetch(m: seq<Tag>, u: seq<Tag>, v: seq<Tag>, r: seq<Tag>)
    ensures m + ((u + v) + r) == (m + u) + (v + r)
  {
  }

  lemma {:induction false} PromoteFront(cfg: Config, s: State, now: int, warmup: bool)
    requires FrontInv(cfg, s)
    ensures FrontInv(cfg, Promote(cfg, s, now, warmup))
  {
    hide PromoteLen, Filter, ReadyAt;
    var bw := Min(cfg.fetchWidth, Min(Room(cfg.dibSize, |s.dibHit|), Room(cfg.decodeSize, |s.decode|)));
    var w := s.ifetch[..PromoteLen(s.ifetch, bw, now)];
    SelectedWait(w, true, now + cfg.dibLatency);
    SelectedWait(w, false, now + Delay(warmup, cfg.decodeLatency));
    assert forall s: seq<Instr>, t: seq<Instr> :: Waiting(s) && Waiting(t) ==> Waiting(s + t);
  }

  lemma {:induction false} SelectedWait(w: seq<Instr>, decoded: bool, at: int)
    requires Waiting(w)
    ensures Waiting(ReadyAt(Filter(w, decoded), at))
  {
    forall i | 0 <= i < |Filter(w, decoded)| ensures Unstarted(Filter(w, decoded)[i])
      && Renaming.EntryOk(Filter(w, decoded)[i]) {
      assert Filter(w, decoded)[i] in Filter(w, decoded);
    }
  }

  lemma {:induction false} PromoteKeeps(cfg: Config, s: State, delivered: seq<Instr>, now: int, warmup: bool)
    requires Inv(cfg, s, delivered, now, warmup)
    ensures Inv(cfg, Promote(cfg, s, now, warmup), delivered, now, warmup)
  {
    hide BackInv, FrontInv, ExactlyOnce, Merge, Promote;
    OnceOrdered(s, delivered);
    SplitInput(BackTags(s), Tags(s.dispatch), Merge(Tags(s.dibHit), Tags(s.decode)), Tags(s.ifetch), Tags(s.input));
    OrderedPart(BackTags(s) + FrontTags(s), BackTags(s) + Tags(s.dispatch), Merge(Tags(s.dibHit), Tags(s.decode))
      + Tags(s.ifetch), Tags(s.input));
    hide BackTags, FrontTags;
    var t := Promote(cfg, s, now, warmup);
    PromoteTags(cfg, s, now, warmup);
    PromoteFront(cfg, s, now, warmup);
    PromoteFrame(cfg, s, now, warmup);
    SameBack(cfg, s, t, now, warmup);
    SameOnce(s, t, delivered);
  }

  lemma PromoteFrame(cfg: Config, s: State, now: int, warmup: bool)
    ensures var t := Promote(cfg, s, now, warmup);
      && t.rob == s.rob && t.retired == s.retired && t.mem == s.mem && t.ra == s.ra
      && t.input == s.input && t.readWarm == s.readWarm
  {
  }

  lemma SplitInput(a: seq<Tag>, b: seq<Tag>, m: seq<Tag>, u: seq<Tag>, v: seq<Tag>)
    ensures a + (b + (m + (u + v))) == (a + b) + ((m + u) + v)
  {
  }

  /** `g` and `q` are what is left of `f` and `input` when a prefix of the input has been read. */
  ghost predicate Reads(f: seq<Instr>, input: seq<Instr>, g: seq<Instr>, q: seq<Instr>, now: int, warmup: bool) {
    && |g| == |f| + |input| - |q| && |q| <= |input| && q == input[|input| - |q|..]
    && forall i :: 0 <= i < |g| ==> g[i] == if i < |f| then f[i] else InitInstr(input[i - |f|], now, warmup)
  }

  /** Reading from the trace moves a prefix of the input queue into the fetch buffer. */
  lemma {:induction false} InitFromKeeps(input: seq<Instr>, ifetch: seq<Instr>, bw: nat, stops: nat -> bool, k: nat,
      now: int, warmup: bool)
    requires Delivered(input) && Waiting(ifetch)
    ensures var (q, f) := InitFrom(input, ifetch, bw, stops, k, now, warmup);
      Delivered(q) && Waiting(f) && |f| <= |ifetch| + bw && Reads(ifetch, input, f, q, now, warmup)
    decreases |input|
  {
    hide InitInstr;
    if input != [] && bw > 0 {
      var f := ifetch + [InitInstr(input[0], now, warmup)];
      InitWaits(input[0], now, warmup);
      InitFromKeeps(input[1..], f, bw - 1, stops, k + 1, now, warmup);
    }
  }

  lemma InitWaits(x: Instr, now: int, warmup: bool)
    requires Unstarted(x)
    ensures Unstarted(InitInstr(x, now, warmup)) && Renaming.EntryOk(InitInstr(x, now, warmup))
  {
  }

  lemma {:induction false} WithoutKeepsOrder(s: seq<Reg>, r: Reg)
    ensures Subsequence(Without(s, r), s)
  {
    if s != [] {
      WithoutKeepsOrder(s[1..], r);
      if s[0] != r {
        assert Without(s, r)[1..] == Without(s[1..], r);
      } else {
        assert Without(s, r) == Without(s[1..], r);
      }
    }
  }

  lemma {:induction false} WithoutKeepsOthers(s: seq<Reg>, r: Reg, x: Reg)
    requires x != r
    ensures multiset(Without(s, r))[x] == multiset(s)[x]
  {
    if s != [] {
      WithoutKeepsOthers(s[1..], r, x);
      assert s == [s[0]] + s[1..];
    }
  }

  lemma {:induction false} SubsequenceOfItself(s: seq<Reg>)
    ensures Subsequence(s, s)
  {
    if s != [] { SubsequenceOfItself(s[1..]); }
  }

  lemma ReadsOtherExists(regs: seq<Reg>)
    ensures ReadsOther(regs) <==> exists r :: r in regs && r !in {6, 25, 26}
  {
    if ReadsOther(regs) {
      var i :| 0 <= i < |regs| && regs[i] != 6 && regs[i] != 25 && regs[i] != 26;
      assert regs[i] in regs;
    }
  }

  lemma FoldingFolds(x: Instr)
    ensures Folded(FoldStackPointer(x).dst, x) && FoldStackPointer(x) == x.(dst := FoldStackPointer(x).dst)
  {
    hide Subsequence, ReadsOther;
    SubsequenceOfItself(x.dst);
    WithoutKeepsOrder(x.dst, 6);
    forall r | r != 6 ensures multiset(Without(x.dst, 6))[r] == multiset(x.dst)[r] {
      WithoutKeepsOthers(x.dst, 6, r);
    }
    ReadsOtherExists(x.src);
    hide Without;
  }

  /** Reading an instruction keeps its id and memory operands, and fixes its registers. */
  lemma InitTag(x: Instr, now: int, warmup: bool)
    ensures var t := TagOf(InitInstr(x, now, warmup));
      t.id == x.id && t.srcMem == x.srcMem && t.dstMem == x.dstMem && FromTrace(t, x, warmup)
  {
    FoldingFolds(x);
    FoldingFolds(x.(src := [], dst := []));
    hide FoldStackPointer, KeepsStackPointer;
  }

  ghost predicate SameMemory(t: Tag, d: Instr) {
    t.id == d.id && t.srcMem == d.srcMem && t.dstMem == d.dstMem
  }

  /** The next `k` are read, during warmup if `warm`. */
  lemma MatchesLater(all: seq<Tag>, flags: seq<bool>, more: seq<Tag>, k: nat, warm: bool, delivered: seq<Instr>,
      input: seq<Instr>)
    requires Matches(all, delivered) && OperandsKept(all, delivered, flags)
    requires |flags| <= |delivered| && input == delivered[|flags|..]
    requires |more| == |all| && forall i :: 0 <= i < |flags| ==> more[i] == all[i]
    requires forall i :: |flags| <= i < |more| ==>
      && SameMemory(more[i], input[i - |flags|])
      && (i < |flags| + k ==> FromTrace(more[i], input[i - |flags|], warm))
    ensures Matches(more, delivered) && OperandsKept(more, delivered, flags + Repeat(warm, k))
  {
    hide FromTrace;
    var n, fs := |flags|, flags + Repeat(warm, k);
    forall i | 0 <= i < |more|
      ensures SameMemory(more[i], delivered[i]) && (i < n + k ==> FromTrace(more[i], delivered[i], fs[i]))
    {
      if i < n { assert more[i] == all[i]; } else { assert delivered[i] == input[i - n]; }
    }
  }

  lemma SuffixOfSuffix(d: seq<Instr>, n: nat, input: seq<Instr>, q: seq<Instr>)
    requires n <= |d| && input == d[n..] && |q| <= |input| && q == input[|input| - |q|..]
    ensures q == d[n + (|input| - |q|)..]
  {
  }

  /** Reading changes the order nowhere before the input queue, and there as it should. */
  lemma {:induction false} ReadTags(front: seq<Tag>, ifetch: seq<Instr>, input: seq<Instr>, f: seq<Instr>,
      q: seq<Instr>, now: int, warmup: bool)
    requires Reads(ifetch, input, f, q, now, warmup)
    ensures var before, after := front + (Tags(ifetch) + Tags(input)), front + (Tags(f) + Tags(q));
      var n, m := |front| + |ifetch|, |front| + |f|;
      && |after| == |before| == n + |input|
      && (forall i :: 0 <= i < n ==> after[i] == before[i])
      && (forall i :: n <= i < |after| ==>
        SameMemory(after[i], input[i - n]) && (i < m ==> FromTrace(after[i], input[i - n], warmup)))
  {
    hide InitInstr, FromTrace;
    var before, after := front + (Tags(ifetch) + Tags(input)), front + (Tags(f) + Tags(q));
    var n, m := |front| + |ifetch|, |front| + |f|;
    forall i | n <= i < |after|
      ensures SameMemory(after[i], input[i - n]) && (i < m ==> FromTrace(after[i], input[i - n], warmup))
    {
      if i < m {
        InitTag(input[i - n], now, warmup);
        assert after[i] == TagOf(f[i - |front|]);
      } else {
        assert after[i] == TagOf(q[i - m]) == TagOf(input[i - n]);
      }
    }
    forall i | 0 <= i < n ensures after[i] == before[i] {
      if i >= |front| { assert f[i - |front|] == ifetch[i - |front|]; }
    }
  }

  /** What reading does to the order: `front` is what is ahead of the fetch buffer. */
  lemma {:induction false} InitMatches(front: seq<Tag>, ifetch: seq<Instr>, input: seq<Instr>, f: seq<Instr>,
      q: seq<Instr>, delivered: seq<Instr>, flags: seq<bool>, now: int, warmup: bool)
    requires Matches(front + (Tags(ifetch) + Tags(input)), delivered)
    requires |flags| <= |delivered| && input == delivered[|flags|..]
    requires OperandsKept(front + (Tags(ifetch) + Tags(input)), delivered, flags)
    requires Reads(ifetch, input, f, q, now, warmup)
    ensures |q| <= |input| && q == delivered[|flags| + (|input| - |q|)..]
    ensures Matches(front + (Tags(f) + Tags(q)), delivered)
    ensures OperandsKept(front + (Tags(f) + Tags(q)), delivered, flags + Repeat(warmup, |input| - |q|))
  {
    hide *;
    ReadsSuffix(ifetch, input, f, q, now, warmup);
    SuffixOfSuffix(delivered, |flags|, input, q);
    MatchesSize(front + (Tags(ifetch) + Tags(input)), delivered);
    ReadTags(front, ifetch, input, f, q, now, warmup);
    MatchesLater(front + (Tags(ifetch) + Tags(input)), flags, front + (Tags(f) + Tags(q)), |input| - |q|, warmup,
      delivered, input);
  }

  lemma MatchesSize(all: seq<Tag>, delivered: seq<Instr>)
    requires Matches(all, delivered)
    ensures |all| == |delivered|
  {
  }

  lemma ReadsSuffix(f: seq<Instr>, input: seq<Instr>, g: seq<Instr>, q: seq<Instr>, now: int, warmup: bool)
    requires Reads(f, input, g, q, now, warmup)
    ensures |g| == |f| + |input| - |q| && |q| <= |input| && q == input[|input| - |q|..]
  {
  }

  lemma {:induction false} FetchKeeps(cfg: Config, s: State, delivered: seq<Instr>, y: Cycle, now: int, warmup: bool)
    requires Inv(cfg, s, delivered, now, warmup)
    ensures Inv(cfg, Fetch(cfg, s, y), delivered, now, warmup)
  {
    hide Fetch, CheckDib, FetchIssue, BackInv, ExactlyOnce, FrontInv, BackTags, Reads;
    var f := CheckDib(FetchIssue(s.ifetch, y.fetchIssued), cfg.fetchWidth, y.dibHits, y.now);
    var t := Fetch(cfg, s, y);
    FetchFront(cfg, s, y);
    SameBack(cfg, s, t, now, warmup);
    FetchOnce(s, t, f, delivered, y.now, y.warmup);
  }

  lemma {:induction false} FetchFront(cfg: Config, s: State, y: Cycle)
    requires FrontInv(cfg, s)
    ensures var t, f := Fetch(cfg, s, y),
      CheckDib(FetchIssue(s.ifetch, y.fetchIssued), cfg.fetchWidth, y.dibHits, y.now);
      && FrontInv(cfg, t) && Tags(f) == Tags(s.ifetch) && |t.input| <= |s.input|
      && t == s.(ifetch := t.ifetch, input := t.input,
                 readWarm := s.readWarm + Repeat(y.warmup, |s.input| - |t.input|))
      && Reads(f, s.input, t.ifetch, t.input, y.now, y.warmup)
  {
    hide CheckDib, FetchIssue, InitFrom, Tags, Waiting, Delivered, Reads;
    var f := CheckDib(FetchIssue(s.ifetch, y.fetchIssued), cfg.fetchWidth, y.dibHits, y.now);
    FlagsWait(cfg, s.ifetch, y);
    InitFromKeeps(s.input, f, if y.mayFetch then Min(cfg.fetchWidth, Room(cfg.ifetchSize, |f|))
      else 0, y.stops, 0, y.now, y.warmup);
  }

  lemma {:induction false} FetchOnce(s: State, t: State, f: seq<Instr>, delivered: seq<Instr>, now: int, warmup: bool)
    requires ExactlyOnce(s, delivered) && BackTags(t) == BackTags(s) && Tags(f) == Tags(s.ifetch)
    requires t.dispatch == s.dispatch && t.dibHit == s.dibHit && t.decode == s.decode
    requires Reads(f, s.input, t.ifetch, t.input, now, warmup) && |t.input| <= |s.input|
    requires t.readWarm == s.readWarm + Repeat(warmup, |s.input| - |t.input|)
    ensures ExactlyOnce(t, delivered)
  {
    hide Matches, OperandsKept, Merge, Tags, InitInstr, BackTags;
    var a, b, c := BackTags(s), Tags(s.dispatch), Merge(Tags(s.dibHit), Tags(s.decode));
    AheadOf(a, b, c, Tags(s.ifetch) + Tags(s.input));
    AheadOf(a, b, c, Tags(t.ifetch) + Tags(t.input));
    InitMatches(a + b + c, f, s.input, t.ifetch, t.input, delivered, s.readWarm, now, warmup);
  }

  lemma AheadOf(a: seq<Tag>, b: seq<Tag>, c: seq<Tag>, d: seq<Tag>)
    ensures a + (b + (c + d)) == (a + b + c) + d
  {
  }

  lemma {:induction false} FlagsWait(cfg: Config, ifetch: seq<Instr>, y: Cycle)
    requires Waiting(ifetch)
    ensures var f := CheckDib(FetchIssue(ifetch, y.fetchIssued), cfg.fetchWidth, y.dibHits, y.now);
      Tags(f) == Tags(ifetch) && Waiting(f)
  {
    hide SpanLen;
  }

  // ---- one cycle ----

  /** Between cycles time passes, warmup may end, and instructions arrive. */
  lemma {:induction false} ArriveKeeps(cfg: Config, s: State, delivered: seq<Instr>, now: int, warmup: bool, y: Cycle)
    requires Inv(cfg, s, delivered, now, warmup) && CycleOk(delivered, now, warmup, y)
    ensures Inv(cfg, s.(input := s.input + y.arrivals), delivered + y.arrivals, y.now, y.warmup)
  {
    hide BackInv, FrontInv, ExactlyOnce;
    ArriveBack(cfg, s, now, warmup, y);
    ArriveFront(cfg, s, y.arrivals);
    ArriveOnce(s, delivered, y.arrivals);
  }

  lemma ArriveBack(cfg: Config, s: State, now: int, warmup: bool, y: Cycle)
    requires BackInv(cfg, s, now, warmup) && now <= y.now && (y.warmup ==> warmup)
    ensures BackInv(cfg, s.(input := s.input + y.arrivals), y.now, y.warmup)
  {
    hide Renaming.Inv, Queues.Inv;
  }

  lemma ArriveFront(cfg: Config, s: State, arrivals: seq<Instr>)
    requires FrontInv(cfg, s) && Delivered(arrivals)
    ensures FrontInv(cfg, s.(input := s.input + arrivals))
  {
    hide Waiting;
  }

  lemma ArriveOnce(s: State, delivered: seq<Instr>, arrivals: seq<Instr>)
    requires ExactlyOnce(s, delivered) && Ordered(Tags(delivered + arrivals))
    ensures ExactlyOnce(s.(input := s.input + arrivals), delivered + arrivals)
  {
    hide Matches, OperandsKept, FrontTags, Tags, Ordered;
    ArriveTags(s, arrivals);
    Associate(BackTags(s), FrontTags(s), Tags(arrivals));
    ArriveMatches(BackTags(s) + FrontTags(s), s.readWarm, delivered, arrivals);
  }

  lemma ArriveMatches(all: seq<Tag>, flags: seq<bool>, delivered: seq<Instr>, arrivals: seq<Instr>)
    requires Matches(all, delivered) && OperandsKept(all, delivered, flags) && |flags| <= |delivered|
    ensures Matches(all + Tags(arrivals), delivered + arrivals)
    ensures OperandsKept(all + Tags(arrivals), delivered + arrivals, flags)
  {
    hide FromTrace;
  }

  lemma ArriveTags(s: State, arrivals: seq<Instr>)
    ensures FrontTags(s.(input := s.input + arrivals)) == FrontTags(s) + Tags(arrivals)
  {
    TagsAppend(s.input, arrivals);
    hide Tags, Merge;
    AddLast(Tags(s.dispatch), Merge(Tags(s.dibHit), Tags(s.decode)), Tags(s.ifetch), Tags(s.input), Tags(arrivals));
  }

  lemma AddLast(a: seq<Tag>, b: seq<Tag>, c: seq<Tag>, d: seq<Tag>, e: seq<Tag>)
    ensures a + (b + (c + (d + e))) == (a + (b + (c + d))) + e
  {
  }

  lemma {:induction false} BackEndKeeps(cfg: Config, s: State, delivered: seq<Instr>, y: Cycle)
    requires Inv(cfg, s, delivered, y.now, y.warmup)
    ensures Inv(cfg, BackEnd(cfg, s, y), delivered, y.now, y.warmup)
  {
    assert cfg.Valid();
    hide BackInv, Retire, Complete, Execute, Schedule, Lsq, BackTags, FrontInv, FrontTags, ExactlyOnce;
    var s1 := Retire(cfg, s);
    RetireKeeps(cfg, s, y.now, y.warmup);
    var s2 := Complete(cfg, s1, y.now);
    CompleteKeeps(cfg, s1, y.now, y.warmup);
    var s3 := Execute(cfg, s2, y.now, y.warmup);
    ExecuteKeeps(cfg, s2, y.now, y.warmup);
    var s4 := Schedule(cfg, s3, y.now);
    ScheduleKeeps(cfg, s3, y.now, y.warmup);
    var s5 := MemoryReturn(cfg, s4, y);
    MemoryReturnKeeps(cfg, s4, y, y.now, y.warmup);
    var s6 := Lsq(cfg, s5, y);
    LsqKeeps(cfg, s5, y, y.now, y.warmup);
    hide MemoryReturn;
    ReturnFlagsKeep(cfg, s, s6, y);
    SameOnce(s, s6, delivered);
  }

  /** Only fetch-completed flags change in the front end during the back end's steps. */
  lemma {:induction false} ReturnFlagsKeep(cfg: Config, s: State, t: State, y: Cycle)
    requires FrontInv(cfg, s) && t.ifetch == FetchReturn(s.ifetch, y.fetchReturned)
    requires t.dispatch == s.dispatch && t.dibHit == s.dibHit && t.decode == s.decode && t.input == s.input
    ensures FrontInv(cfg, t) && FrontTags(t) == FrontTags(s)
  {
    assert Tags(t.ifetch) == Tags(s.ifetch);
  }

  /** One cycle keeps the whole invariant. */
  lemma {:induction false} OperateKeeps(cfg: Config, s: State, delivered: seq<Instr>, now: int, warmup: bool, y: Cycle)
    requires Inv(cfg, s, delivered, now, warmup) && CycleOk(delivered, now, warmup, y)
    ensures Inv(cfg, Operate(cfg, s, y), delivered + y.arrivals, y.now, y.warmup)
  {
    hide BackEnd, Dispatch, Decode, Promote, Fetch;
    var d := delivered + y.arrivals;
    ArriveKeeps(cfg, s, delivered, now, warmup, y);
    var s0 := s.(input := s.input + y.arrivals);
    assert cfg.Valid();
    hide Inv;
    var s1 := BackEnd(cfg, s0, y);
    BackEndKeeps(cfg, s0, d, y);
    var s2 := Dispatch(cfg, s1, cfg.dispatchWidth, y.now, y.warmup);
    DispatchKeeps(cfg, s1, d, cfg.dispatchWidth, y.now, y.warmup);
    var s3 := Decode(cfg, s2, y.now, y.warmup);
    DecodeKeeps(cfg, s2, d, y.now, y.warmup);
    PromoteKeeps(cfg, s3, d, y.now, y.warmup);
    FetchKeeps(cfg, Promote(cfg, s3, y.now, y.warmup), d, y, y.now, y.warmup);
  }
}
