/** The main results about the core: what holds after any number of cycles. */
module CoreRuns {
  import opened Sequences
  import opened Instructions
  import opened RegisterAllocation
  import Renaming
  import opened LoadStoreQueue
  import Queues = LoadStoreInvariant
  import opened FrontEnd
  import opened PipelineOrder
  import opened Core
  import opened CoreInvariant

  function Start(cfg: Config): State
    requires cfg.Valid()
  {
    State([], [], [], [], [], [], [], Mem(seq(cfg.lqSize, _ => None), [], []), Initial(cfg.registers), [])
  }

  /** The state after the cycles `ys`, oldest first. */
  function Run(cfg: Config, ys: seq<Cycle>): State
    requires cfg.Valid()
  {
    if ys == [] then Start(cfg) else Operate(cfg, Run(cfg, ys[..|ys| - 1]), ys[|ys| - 1])
  }

  /** Everything the trace has delivered. */
  function Trace(ys: seq<Cycle>): seq<Instr> {
    if ys == [] then [] else Trace(ys[..|ys| - 1]) + ys[|ys| - 1].arrivals
  }

  /** The environment keeps its promises throughout the run. */
  ghost predicate RunOk(ys: seq<Cycle>) {
    ys != [] ==>
      var n := |ys| - 1;
      && RunOk(ys[..n])
      && (if n == 0 then Delivered(ys[0].arrivals) && Ordered(Tags(ys[0].arrivals))
          else CycleOk(Trace(ys[..n]), ys[n - 1].now, ys[n - 1].warmup, ys[n]))
  }

  lemma {:induction false} InitialOwners(n: nat)
    requires n <= 256
    ensures Renaming.Conserved(n, Initial(n), [])
  {
    assert Renaming.Mapped(Initial(n).backend) == multiset{} by { UnmappedBag(256); }
    forall p: int ensures Renaming.Owners(Initial(n), [])[p] == if 0 <= p < n then 1 else 0 { IotaBag(n, p); }
  }

  lemma {:induction false} UnmappedBag(n: nat)
    ensures Renaming.Mapped(seq(n, _ => -1)) == multiset{}
  {
    var s: seq<Mapping> := seq(n, _ => -1);
    forall x: int ensures Renaming.Mapped(s)[x] == 0 {
      assert x != -1 ==> x !in s;
    }
  }

  lemma {:induction false} IotaBag(n: nat, p: int)
    requires n <= 256
    ensures Renaming.Bag(seq(n, i requires 0 <= i < n => i as Reg))[p] == if 0 <= p < n then 1 else 0
  {
    if n > 0 {
      IotaBag(n - 1, p);
      var s: seq<Reg> := seq(n, i requires 0 <= i < n => i as Reg);
      var t: seq<Reg> := seq(n - 1, i requires 0 <= i < n - 1 => i as Reg);
      assert s == t + [(n - 1) as Reg];
    }
  }

  lemma {:induction false} StartInv(cfg: Config, now: int, warmup: bool)
    requires cfg.Valid()
    ensures Inv(cfg, Start(cfg), [], now, warmup)
  {
    hide Renaming.Conserved, Renaming.Inv, Queues.Inv, Initial, ExactlyOnce;
    InitialOwners(cfg.registers);
    StartNames(cfg.registers);
    StartQueues(Start(cfg).mem);
    StartOnce(cfg);
  }

  lemma StartQueues(m: Mem)
    requires m.sq == [] && forall s :: 0 <= s < |m.lq| ==> m.lq[s].None?
    ensures Queues.Inv([], [], m)
  {
  }

  lemma StartNames(n: nat)
    requires n <= 256 && Renaming.Conserved(n, Initial(n), [])
    ensures Renaming.Inv(n, [], [], Initial(n))
  {
    hide Renaming.Conserved, Renaming.Linked, Renaming.Recorded;
    StartLinked(Initial(n));
    StartRecorded(Initial(n));
  }

  lemma StartLinked(a: Alloc)
    requires forall r: Reg :: a.frontend[r] == a.backend[r]
    ensures Renaming.Linked(a, [])
  {
    assert Renaming.Scheduled([]) == 0;
  }

  lemma StartRecorded(a: Alloc)
    requires forall r: Reg :: a.backend[r] == -1
    ensures Renaming.Recorded(a, [], [])
  {
    hide Renaming.Scheduled;
  }

  lemma StartOnce(cfg: Config)
    requires cfg.Valid()
    ensures ExactlyOnce(Start(cfg), [])
  {
  }

  lemma RunOne(cfg: Config, ys: seq<Cycle>)
    requires cfg.Valid() && |ys| == 1
    ensures Run(cfg, ys) == Operate(cfg, Start(cfg), ys[0]) && Trace(ys) == ys[0].arrivals
  {
    hide Operate, Start;
    assert ys[..0] == [];
    assert Trace(ys) == [] + ys[0].arrivals;
  }

  lemma FirstOk(ys: seq<Cycle>)
    requires RunOk(ys) && |ys| == 1
    ensures CycleOk([], ys[0].now, ys[0].warmup, ys[0])
  {
    assert [] + ys[0].arrivals == ys[0].arrivals;
  }

  lemma {:induction false} ReachableFirst(cfg: Config, ys: seq<Cycle>)
    requires cfg.Valid() && RunOk(ys) && |ys| == 1
    ensures Inv(cfg, Run(cfg, ys), Trace(ys), ys[0].now, ys[0].warmup)
  {
    hide Inv, CycleOk, Run, Trace, Operate, Start, RunOk;
    FirstOk(ys);
    RunOne(cfg, ys);
    StartInv(cfg, ys[0].now, ys[0].warmup);
    OperateKeeps(cfg, Start(cfg), [], ys[0].now, ys[0].warmup, ys[0]);
    assert [] + ys[0].arrivals == ys[0].arrivals;
  }

  lemma RunMore(cfg: Config, ys: seq<Cycle>)
    requires cfg.Valid() && RunOk(ys) && |ys| > 1
    ensures var n := |ys| - 1;
      && Run(cfg, ys) == Operate(cfg, Run(cfg, ys[..n]), ys[n]) && Trace(ys) == Trace(ys[..n]) + ys[n].arrivals
      && RunOk(ys[..n]) && ys[..n][|ys[..n]| - 1] == ys[n - 1]
      && CycleOk(Trace(ys[..n]), ys[n - 1].now, ys[n - 1].warmup, ys[n])
  {
    hide CycleOk, Operate, Start;
  }

  /** The invariant holds in every reachable state. */
  lemma {:induction false} Reachable(cfg: Config, ys: seq<Cycle>)
    requires cfg.Valid() && RunOk(ys) && ys != []
    ensures Inv(cfg, Run(cfg, ys), Trace(ys), ys[|ys| - 1].now, ys[|ys| - 1].warmup)
  {
    var n := |ys| - 1;
    hide Inv, CycleOk, Run, Trace, Operate, Start, RunOk;
    if n == 0 {
      ReachableFirst(cfg, ys);
    } else {
      RunMore(cfg, ys);
      Reachable(cfg, ys[..n]);
      OperateKeeps(cfg, Run(cfg, ys[..n]), Trace(ys[..n]), ys[n - 1].now, ys[n - 1].warmup, ys[n]);
    }
  }

  lemma {:induction false} ReachableBack(cfg: Config, ys: seq<Cycle>)
    requires cfg.Valid() && RunOk(ys) && ys != []
    ensures var s := Run(cfg, ys);
      Renaming.Inv(cfg.registers, s.retired, s.rob, s.ra) && Queues.Inv(s.retired, s.rob, s.mem)
  {
    Reachable(cfg, ys);
    hide Renaming.Inv, Queues.Inv, Run, Trace, ExactlyOnce, FrontInv, ReadyOrder;
  }

  // ---- main results ----

  /** The pipeline's stages, oldest first, with the two decode buffers merged by program order. */
  function Pipeline(s: State): seq<Tag> {
    Tags(s.retired) + Tags(s.rob) + (Tags(s.dispatch)
      + (Merge(Tags(s.dibHit), Tags(s.decode)) + (Tags(s.ifetch) + Tags(s.input))))
  }

  /** Exactly once, in order: at any time the pipeline holds exactly the delivered
      instructions, those not yet read in the input queue as they are and the others with the
      registers they were delivered with; and no buffer outgrows its capacity. */
  lemma {:induction false} PipelineDeliversExactlyOnce(cfg: Config, ys: seq<Cycle>)
    requires cfg.Valid() && RunOk(ys) && ys != []
    ensures var s := Run(cfg, ys);
      var n := |s.readWarm|;
      && Matches(Pipeline(s), Trace(ys))
      && n <= |Trace(ys)| && s.input == Trace(ys)[n..] && OperandsKept(Pipeline(s), Trace(ys), s.readWarm)
      && |s.ifetch| <= cfg.ifetchSize && |s.dibHit| <= cfg.dibSize && |s.decode| <= cfg.decodeSize
      && |s.dispatch| <= cfg.dispatchSize && |s.rob| <= cfg.robSize && |s.mem.sq| <= cfg.sqSize
        && |s.mem.lq| == cfg.lqSize
  {
    hide Renaming.Inv, Queues.Inv, Merge, Run, RunOk, Trace, Tags, Matches, OperandsKept, Waiting, Delivered,
      ReadyOrder;
    Reachable(cfg, ys);
    assert Pipeline(Run(cfg, ys)) == BackTags(Run(cfg, ys)) + FrontTags(Run(cfg, ys));
  }

  /** An instruction in the ROB is the delivered one of its place, with its registers. */
  lemma {:induction false} RobIsDelivered(cfg: Config, ys: seq<Cycle>, i: nat)
    requires cfg.Valid() && RunOk(ys) && ys != [] && i < |Run(cfg, ys).rob|
    ensures var s := Run(cfg, ys);
      var j := |s.retired| + i;
      && j < |s.readWarm| <= |Trace(ys)| && SameMemory(TagOf(s.rob[i]), Trace(ys)[j])
      && FromTrace(TagOf(s.rob[i]), Trace(ys)[j], s.readWarm[j])
  {
    hide Run, RunOk, Trace, FromTrace, Merge, OperandsKept;
    PipelineDeliversExactlyOnce(cfg, ys);
    var s := Run(cfg, ys);
    PlaceInRob(s, i);
    assert |Pipeline(s)| == |s.retired| + |s.rob|
      + (|s.dispatch| + (|s.dibHit| + |s.decode| + (|s.ifetch| + |s.input|)));
    OperandsAt(Pipeline(s), Trace(ys), s.readWarm, |s.retired| + i);
  }

  lemma PlaceInRob(s: State, i: nat)
    requires i < |s.rob|
    ensures |s.retired| + i < |Pipeline(s)| && Pipeline(s)[|s.retired| + i] == TagOf(s.rob[i])
  {
    hide Merge;
  }

  lemma OperandsAt(all: seq<Tag>, d: seq<Instr>, flags: seq<bool>, j: nat)
    requires OperandsKept(all, d, flags) && j < |flags| && j < |all| && j < |d|
    ensures FromTrace(all[j], d[j], flags[j])
  {
  }

  /** `readWarm` is what it says: what cycle `c` reads is recorded with that cycle's flag. */
  lemma {:induction false} ReadFlagIsOfItsCycle(cfg: Config, ys: seq<Cycle>, c: nat, j: nat)
    requires cfg.Valid() && c < |ys|
    requires |Run(cfg, ys[..c]).readWarm| <= j < |Run(cfg, ys[..c + 1]).readWarm|
    ensures j < |Run(cfg, ys).readWarm| && Run(cfg, ys).readWarm[j] == ys[c].warmup
    decreases |ys|
  {
    hide Operate, Start;
    var n := |ys| - 1;
    OperateReads(cfg, Run(cfg, ys[..n]), ys[n]);
    if c < n {
      assert ys[..n][..c] == ys[..c] && ys[..n][..c + 1] == ys[..c + 1];
      ReadFlagIsOfItsCycle(cfg, ys[..n], c, j);
    } else {
      assert ys[..c + 1] == ys;
    }
  }

  /** A cycle only adds to `readWarm`, and only its own flag. */
  lemma OperateReads(cfg: Config, s: State, y: Cycle)
    requires cfg.Valid()
    ensures var r := Operate(cfg, s, y).readWarm;
      && |s.readWarm| <= |r| && r[..|s.readWarm|] == s.readWarm
      && forall j :: |s.readWarm| <= j < |r| ==> r[j] == y.warmup
  {
    hide Retire, Complete, Execute, Schedule, MemoryReturn, Lsq, Decode, Promote, InitFrom, CheckDib;
    var s0 := s.(input := s.input + y.arrivals);
    BackEndReads(cfg, s0, y);
    var s1 := BackEnd(cfg, s0, y);
    hide BackEnd;
    DispatchReads(cfg, s1, cfg.dispatchWidth, y.now, y.warmup);
    var s2 := Dispatch(cfg, s1, cfg.dispatchWidth, y.now, y.warmup);
    hide Dispatch;
    DecodeFrame(cfg, s2, y.now, y.warmup);
    PromoteFrame(cfg, Decode(cfg, s2, y.now, y.warmup), y.now, y.warmup);
  }

  lemma BackEndReads(cfg: Config, s: State, y: Cycle)
    requires cfg.Valid()
    ensures BackEnd(cfg, s, y).readWarm == s.readWarm
  {
    hide RetireAll, CompleteFrom, ExecuteFrom, ScheduleFrom, ReturnBlocks, OperateLsq, SpanLen;
  }

  lemma {:induction false} DispatchReads(cfg: Config, s: State, bw: nat, now: int, warmup: bool)
    ensures Dispatch(cfg, s, bw, now, warmup).readWarm == s.readWarm
    decreases bw
  {
    hide CanDispatch, MemorySchedule;
    if bw > 0 && CanDispatch(cfg, s, now) {
      DispatchReads(cfg, DispatchOne(cfg, s, now, warmup), bw - 1, now, warmup);
    }
  }

  /** Registers are conserved: free, committed and in-flight names partition the file. */
  lemma {:induction false} RegistersConserved(cfg: Config, ys: seq<Cycle>)
    requires cfg.Valid() && RunOk(ys) && ys != []
    ensures var s := Run(cfg, ys);
      && (forall p: int ::
            (Renaming.Bag(s.ra.free) + Renaming.Mapped(s.ra.backend) + Renaming.InFlight(s.rob))[p]
            == if 0 <= p < cfg.registers then 1 else 0)
      && |s.ra.free| + Renaming.MappedCount(s.ra) + |Renaming.InFlight(s.rob)| == cfg.registers
  {
    hide Run, RunOk;
    ReachableBack(cfg, ys);
    var s := Run(cfg, ys);
    hide Queues.Inv, Renaming.InFlight, Renaming.Mapped, Renaming.Bag, Renaming.MappedCount;
    RegistersOf(cfg.registers, s.retired, s.rob, s.ra);
  }

  lemma RegistersOf(n: nat, retired: seq<Instr>, rob: seq<Instr>, a: Alloc)
    requires Renaming.Inv(n, retired, rob, a)
    ensures forall p: int ::
      (Renaming.Bag(a.free) + Renaming.Mapped(a.backend) + Renaming.InFlight(rob))[p] == if 0 <= p < n then 1 else 0
    ensures |a.free| + Renaming.MappedCount(a) + |Renaming.InFlight(rob)| == n
  {
    assert Renaming.Conserved(n, a, rob);
    hide Renaming.Inv;
    Renaming.RegistersAddUp(n, a, rob);
    assert Renaming.Owners(a, rob) == Renaming.Bag(a.free) + Renaming.Mapped(a.backend) + Renaming.InFlight(rob);
  }

  /** The frontend alias table names, for each register, the last destination of the youngest
      scheduled writer in the ROB, or else the committed mapping. */
  lemma {:induction false} FrontendNamesYoungest(cfg: Config, ys: seq<Cycle>, r: Reg)
    requires cfg.Valid() && RunOk(ys) && ys != []
    ensures var s := Run(cfg, ys);
      var w := Renaming.YoungestWriter(s.rob[..Renaming.Scheduled(s.rob)], r);
      && (w.None? ==> s.ra.frontend[r] == s.ra.backend[r])
      && (w.Some? ==>
            && |w.value.archDst| == |w.value.dst|
            && s.ra.frontend[r] == Renaming.LastName(w.value.archDst, w.value.dst, r))
  {
    hide Queues.Inv, Run, RunOk, Renaming.Inv, Renaming.LastName, Renaming.YoungestWriter;
    ReachableBack(cfg, ys);
    var s := Run(cfg, ys);
    FrontendOf(cfg.registers, s.retired, s.rob, s.ra, r);
  }

  lemma FrontendOf(n: nat, retired: seq<Instr>, rob: seq<Instr>, a: Alloc, r: Reg)
    requires Renaming.Inv(n, retired, rob, a)
    ensures var w := Renaming.YoungestWriter(rob[..Renaming.Scheduled(rob)], r);
      && (w.None? ==> a.frontend[r] == a.backend[r])
      && (w.Some? ==>
            && |w.value.archDst| == |w.value.dst|
            && a.frontend[r] == Renaming.LastName(w.value.archDst, w.value.dst, r))
  {
    hide Renaming.Conserved, Renaming.Recorded, Renaming.Ready, Renaming.LastName, Renaming.YoungestWriter;
    YoungestNames(a.backend, rob[..Renaming.Scheduled(rob)], r);
  }

  lemma {:induction false} YoungestNames(backend: seq<Mapping>, s: seq<Instr>, r: Reg)
    requires |backend| == 256 && Renaming.NamesMatch(s)
    ensures var w := Renaming.YoungestWriter(s, r);
      && (w.None? ==> Renaming.Resolve(backend, s, r) == backend[r])
      && (w.Some? ==>
            && |w.value.archDst| == |w.value.dst|
            && Renaming.Resolve(backend, s, r) == Renaming.LastName(w.value.archDst, w.value.dst, r))
  {
    if s != [] { YoungestNames(backend, s[..|s| - 1], r); }
  }

  /** Every source of every scheduled instruction names the register of its youngest
      program-order writer among everything ever delivered before it: a destination of that
      writer while it is in flight, else the committed mapping. The names are the registers the
      instruction was delivered with. */
  lemma {:induction false} RenamingPreservesDataflow(cfg: Config, ys: seq<Cycle>, i: nat, k: nat)
    requires cfg.Valid() && RunOk(ys) && ys != []
    requires i < |Run(cfg, ys).rob| && Run(cfg, ys).rob[i].scheduled && k < |Run(cfg, ys).rob[i].src|
    ensures var s := Run(cfg, ys);
      var x := s.rob[i];
      var j := |s.retired| + i;
      && j < |s.readWarm| <= |Trace(ys)| && x.id == Trace(ys)[j].id
      && FromTrace(TagOf(x), Trace(ys)[j], s.readWarm[j])
      && k < |x.archSrc| && x.src[k] < |s.ra.file| && x.src[k] !in s.ra.free
      && s.ra.file[x.src[k]].arch == x.archSrc[k]
      && s.ra.file[x.src[k]].producer == Renaming.ProducerId(s.retired + s.rob[..i], x.archSrc[k])
      && (x.executed ==> s.ra.file[x.src[k]].valid)
      && (var w := Renaming.YoungestWriter(s.rob[..i], x.archSrc[k]);
          && (w.Some? ==> x.src[k] in w.value.dst && (x.executed ==> w.value.completed))
          && (w.None? ==> x.src[k] == s.ra.backend[x.archSrc[k]]))
  {
    hide Queues.Inv, Run, RunOk, Trace, Renaming.Inv, FromTrace;
    ReachableBack(cfg, ys);
    RobIsDelivered(cfg, ys, i);
    var s := Run(cfg, ys);
    Renaming.Dataflow(cfg.registers, s.retired, s.rob, s.ra, i, k);
  }

  /** Every memory operation of an instruction in the ROB is finished, in the load queue or
      waiting in the store queue; a completed instruction has finished all of them. */
  lemma {:induction false} MemoryOperationsAccounted(cfg: Config, ys: seq<Cycle>, i: nat)
    requires cfg.Valid() && RunOk(ys) && ys != [] && i < |Run(cfg, ys).rob|
    ensures var s := Run(cfg, ys);
      var x := s.rob[i];
      && x.memDone + Queues.LoadsOf(s.mem.lq, x.id) + Queues.PendingStores(s.mem.sq, x.id) == x.MemOps()
      && (x.completed ==> x.memDone == x.MemOps())
  {
    hide Renaming.Inv, Run, Queues.Forwarding, Queues.Owned;
    ReachableBack(cfg, ys);
  }

  /** Between cycles, whatever may finish next finds its instruction: the binary search finds
      the owner in the ROB, and its count is below its operations. */
  lemma {:induction false} FinishFindsItsInstruction(cfg: Config, ys: seq<Cycle>, id: nat)
    requires cfg.Valid() && RunOk(ys) && ys != []
    requires var m := Run(cfg, ys).mem;
      || (exists s :: 0 <= s < |m.lq| && m.lq[s].Some? && m.lq[s].value.id == id)
      || (exists q :: 0 <= q < |m.sq| && !m.sq[q].issued && m.sq[q].id == id)
    ensures var rob := Run(cfg, ys).rob;
      var i := FindById(rob, id);
      i < |rob| && rob[i].id == id && rob[i].memDone < rob[i].MemOps()
  {
    hide Renaming.Inv, Run, Queues.Forwarding;
    ReachableBack(cfg, ys);
    var s := Run(cfg, ys);
    Queues.LiveHasOwner(s.rob, s.mem, id);
  }

  /** Forwarding is exact: a live load waits if and only if an older store to its address
      is in the store queue; it then waits on the youngest one, which has not issued,
      lists the load's slot exactly once, and no other unissued store lists it. */
  lemma {:induction false} ForwardingIsExact(cfg: Config, ys: seq<Cycle>, s: nat)
    requires cfg.Valid() && RunOk(ys) && ys != []
    requires s < |Run(cfg, ys).mem.lq| && Run(cfg, ys).mem.lq[s].Some?
    ensures var m := Run(cfg, ys).mem;
      var l := m.lq[s].value;
      && (l.producer.Some? <==> exists j :: 0 <= j < |m.sq| && m.sq[j].addr == l.addr && m.sq[j].id < l.id)
      && (l.producer.Some? ==> !l.issued && exists q :: Queues.BoundTo(m, s, q))
  {
    hide Renaming.Inv, Run, Queues.Accounted, Queues.Owned, Queues.BoundTo;
    ReachableBack(cfg, ys);
    var m := Run(cfg, ys).mem;
    Queues.WaitingIsBound(m, s);
  }

  /** Between cycles, each slot that an unissued store is to release holds a load that waits on
      this very store. */
  lemma {:induction false} DependentsAreWaiting(cfg: Config, ys: seq<Cycle>, q: nat, d: nat)
    requires cfg.Valid() && RunOk(ys) && ys != []
    requires var m := Run(cfg, ys).mem; q < |m.sq| && !m.sq[q].issued && d < |m.sq[q].deps|
    ensures var m := Run(cfg, ys).mem;
      var s := m.sq[q].deps[d];
      s < |m.lq| && m.lq[s].Some? && m.lq[s].value.producer == Some(m.sq[q].id) && !m.lq[s].value.issued
  {
    hide Renaming.Inv, Run, Queues.Accounted, Queues.Owned;
    ReachableBack(cfg, ys);
    var m := Run(cfg, ys).mem;
    assert Queues.Waits(m.lq, m.sq[q].deps[d], m.sq[q].id, m.sq[q].addr);
  }

  /** The store queue stays in program order with its issued stores as a prefix, which is
      what the partition_point search for the first unissued store relies on. */
  lemma {:induction false} StoresStayPartitioned(cfg: Config, ys: seq<Cycle>)
    requires cfg.Valid() && RunOk(ys) && ys != []
    ensures Queues.StoreOrder(Run(cfg, ys).mem.sq)
  {
    ReachableBack(cfg, ys);
    hide Renaming.Inv, Run, Queues.Accounted, Queues.Owned;
  }

  /** Scheduling is in program order in every reachable state. */
  lemma {:induction false} ScheduledIsAPrefix(cfg: Config, ys: seq<Cycle>, i: nat, j: nat)
    requires cfg.Valid() && RunOk(ys) && ys != []
    requires i < j < |Run(cfg, ys).rob| && Run(cfg, ys).rob[j].scheduled
    ensures Run(cfg, ys).rob[i].scheduled
  {
    ReachableBack(cfg, ys);
    hide Queues.Inv, Run, Renaming.Linked, Renaming.Recorded, Renaming.Conserved, Renaming.Ready;
  }

  /** An unscheduled ROB head is renamed by the next scheduling pass that finds it ready,
      whenever the file holds the mapped registers and all its operands at once. */
  lemma {:induction false} HeadIsNeverStarved(cfg: Config, ys: seq<Cycle>, now: int)
    requires cfg.Valid() && RunOk(ys) && ys != [] && cfg.scheduleWidth > 0
    requires var s := Run(cfg, ys);
      && s.rob != [] && !s.rob[0].scheduled && s.rob[0].ready <= now
      && Renaming.MappedCount(s.ra) + |s.rob[0].src| + |s.rob[0].dst| <= cfg.registers
    ensures Schedule(cfg, Run(cfg, ys), now).rob[0].scheduled
  {
    hide Run, RunOk, Renaming.Inv, Queues.Inv, Renaming.MappedCount;
    ReachableBack(cfg, ys);
    var s := Run(cfg, ys);
    HeadScheduled(cfg.registers, s.retired, s.rob, s.ra, cfg.scheduleWidth, now);
  }

  lemma {:induction false} HeadScheduled(n: nat, retired: seq<Instr>, rob: seq<Instr>, a: Alloc, width: nat, now: int)
    requires Renaming.Inv(n, retired, rob, a) && width > 0
    requires rob != [] && !rob[0].scheduled && rob[0].ready <= now
    requires Renaming.MappedCount(a) + |rob[0].src| + |rob[0].dst| <= n
    ensures ScheduleFrom(rob, a, 0, width, now).0[0].scheduled
  {
    Renaming.HeadPassesGuard(n, retired, rob, a);
    assert !rob[0].executed by { assert Renaming.EntryOk(rob[0]); }
    hide Renaming.Inv, Renaming.MappedCount;
    var (b, x) := Renaming.ScheduleInstr(a, rob[0]);
    ScheduleStays(rob[0 := x], b, 1, width - 1, now, 0);
  }

  lemma {:induction false} ScheduleStays(rob: seq<Instr>, a: Alloc, i: nat, bw: nat, now: int, k: nat)
    requires k < i <= |rob|
    ensures ScheduleFrom(rob, a, i, bw, now).0[k] == rob[k]
    decreases |rob| - i
  {
    if i < |rob| && bw > 0 && EnoughNames(a, rob[i]) {
      var next := bw - (if rob[i].executed then 0 else 1);
      if !rob[i].scheduled && rob[i].ready <= now {
        var (b, x) := Renaming.ScheduleInstr(a, rob[i]);
        ScheduleStays(rob[i := x], b, i + 1, next, now, k);
      } else {
        ScheduleStays(rob, a, i + 1, next, now, k);
      }
    }
  }
}
