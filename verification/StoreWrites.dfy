/** When stores reach the L1D: after they retire, in program order, each exactly once. */
module StoreWrites {
  import opened Sequences
  import opened Instructions
  import opened RegisterAllocation
  import Renaming
  import opened LoadStoreQueue
  import Queues = LoadStoreInvariant
  import opened PipelineOrder
  import opened Core
  import opened CoreInvariant
  import opened CoreRuns

  /** Which instruction writes where. */
  datatype Write = Write(id: nat, addr: nat)

  function Writes(sq: seq<Store>): (r: seq<Write>)
    ensures |r| == |sq| && forall i :: 0 <= i < |sq| ==> r[i] == Write(sq[i].id, sq[i].addr)
  {
    seq(|sq|, i requires 0 <= i < |sq| => Write(sq[i].id, sq[i].addr))
  }

  function WritesTo(id: nat, addrs: seq<nat>): (r: seq<Write>)
    ensures |r| == |addrs| && forall i :: 0 <= i < |addrs| ==> r[i] == Write(id, addrs[i])
  {
    seq(|addrs|, i requires 0 <= i < |addrs| => Write(id, addrs[i]))
  }

  /** All the writes of these instructions, in program order. */
  function WritesOf(ts: seq<Tag>): seq<Write> {
    if ts == [] then [] else WritesTo(ts[0].id, ts[0].dstMem) + WritesOf(ts[1..])
  }

  lemma {:induction false} WritesOfAppend(s: seq<Tag>, t: seq<Tag>)
    ensures WritesOf(s + t) == WritesOf(s) + WritesOf(t)
  {
    if s == [] {
      assert s + t == t;
    } else {
      assert (s + t)[1..] == s[1..] + t;
      WritesOfAppend(s[1..], t);
    }
  }

  lemma {:induction false} WriterListed(ts: seq<Tag>, k: nat)
    requires k < |WritesOf(ts)|
    ensures exists i :: 0 <= i < |ts| && ts[i].id == WritesOf(ts)[k].id
  {
    var n := |ts[0].dstMem|;
    if k < n {
      assert ts[0].id == WritesOf(ts)[k].id;
    } else {
      WriterListed(ts[1..], k - n);
      var i :| 0 <= i < |ts[1..]| && ts[1..][i].id == WritesOf(ts[1..])[k - n].id;
      assert ts[i + 1].id == WritesOf(ts)[k].id;
    }
  }

  // ---- the invariant ----

  ghost predicate Logged(s: State) {
    && Writes(s.mem.written + s.mem.sq) == WritesOf(BackTags(s))
    && forall k :: 0 <= k < |s.mem.written| ==>
      s.mem.written[k].issued && Queues.HasId(s.retired, s.mem.written[k].id)
  }

  /** The queued stores are the same, whatever else changes. */
  ghost predicate SameStores(m: Mem, w: Mem) {
    && w.written == m.written && |w.sq| == |m.sq|
    && forall q :: 0 <= q < |m.sq| ==> w.sq[q].id == m.sq[q].id && w.sq[q].addr == m.sq[q].addr
  }

  lemma SameStoresLogged(s: State, t: State)
    requires Logged(s) && SameStores(s.mem, t.mem) && BackTags(t) == BackTags(s) && t.retired == s.retired
    ensures Logged(t)
  {
    hide BackTags, WritesOf;
    assert Writes(t.mem.written + t.mem.sq) == Writes(s.mem.written + s.mem.sq);
  }

  // ---- each step ----

  lemma {:induction false} FinishStoresSame(rob: seq<Instr>, m: Mem, q: nat, n: nat, now: int)
    requires q + n <= |m.sq|
    ensures SameStores(m, FinishStores(rob, m, q, n, now).1)
    decreases n
  {
    hide Release, Finish;
    if n > 0 {
      var (r, w) := FinishStore(rob, m, q, now);
      FinishStoresSame(r, w, q + 1, n - 1, now);
    }
  }

  lemma {:induction false} ExecuteSame(rob: seq<Instr>, m: Mem, a: Alloc, i: nat, bw: nat, now: int, at: int)
    requires i <= |rob|
    ensures SameStores(m, ExecuteFrom(rob, m, a, i, bw, now, at).1)
    decreases |rob| - i
  {
    hide CanExecute;
    if i < |rob| && bw > 0 {
      if CanExecute(a, rob[i], now) {
        ExecuteSame(rob[i := rob[i].(executed := true, ready := at)], MarkReady(m, rob[i].id, at), a, i + 1, bw - 1,
          now, at);
      } else {
        ExecuteSame(rob, m, a, i + 1, bw, now, at);
      }
    }
  }

  lemma ScheduleLoadSame(rob: seq<Instr>, m: Mem, addr: nat)
    requires rob != [] && FreeSlot(m.lq) < |m.lq|
    ensures SameStores(m, ScheduleLoad(rob, m, addr).1)
  {
    hide ForwardFrom, FreeSlot;
  }

  lemma {:induction false} ScheduleLoadsSame(rob: seq<Instr>, m: Mem, addrs: seq<nat>)
    requires rob != [] && |addrs| <= FreeSlots(m.lq)
    ensures SameStores(m, ScheduleLoads(rob, m, addrs).1)
    decreases |addrs|
  {
    hide ScheduleLoad, FreeSlots, FreeSlot;
    if addrs != [] {
      ScheduleLoadSlots(rob, m, addrs[0]);
      ScheduleLoadSame(rob, m, addrs[0]);
      var (r, w) := ScheduleLoad(rob, m, addrs[0]);
      ScheduleLoadsSame(r, w, addrs[1..]);
    }
  }

  lemma RetireLogged(cfg: Config, s: State, now: int, warmup: bool)
    requires BackInv(cfg, s, now, warmup) && Logged(s)
    ensures Logged(Retire(cfg, s))
  {
    RetireKeeps(cfg, s, now, warmup);
    hide BackInv, BackTags, WritesOf, SpanLen, RetireAll;
    var t := Retire(cfg, s);
    forall id: nat | Queues.HasId(s.retired, id) ensures Queues.HasId(t.retired, id) {
      var i :| 0 <= i < |s.retired| && s.retired[i].id == id;
      assert t.retired[i].id == id;
    }
  }

  /** A store older than the ROB belongs to a retired instruction. */
  lemma OldStoreRetired(done: seq<Instr>, rob: seq<Instr>, m: Mem, q: nat)
    requires Queues.Inv(done, rob, m) && q < |m.sq| && (rob == [] || m.sq[q].id < rob[0].id)
    ensures Queues.HasId(done, m.sq[q].id)
  {
    hide Queues.InvAt, Queues.CompletedDone;
    var all := done + rob;
    assert Queues.HasId(all, m.sq[q].id);
    var i :| 0 <= i < |all| && all[i].id == m.sq[q].id;
    assert forall j :: 0 <= j < |rob| ==> all[|done| + j] == rob[j];
    assert forall j :: |done| < j < |all| ==> all[|done|].id < all[j].id;
    if i < |done| { assert done[i].id == m.sq[q].id; }
  }

  lemma {:induction false} OperateLsqLogged(s: State, now: int, sqWidth: nat, lqWidth: nat, writes: nat,
      accepts: nat -> bool, t: State)
    requires Queues.Inv(s.retired, s.rob, s.mem) && Logged(s)
    requires (t.rob, t.mem) == OperateLsq(s.rob, s.mem, now, sqWidth, lqWidth, writes, accepts)
    requires BackTags(t) == BackTags(s) && t.retired == s.retired
    ensures Logged(t)
  {
    hide Queues.InvAt, SpanLen, FinishStores, IssueLoads, BackTags, WritesOf, Queues.CompletedDone, Queues.HasId,
      Queues.IdsIncrease;
    var m := s.mem;
    var u := SpanLen(m.sq, |m.sq|, (x: Store) => x.issued);
    var n := SpanLen(m.sq[u..], sqWidth, (x: Store) => !x.issued && Due(x.ready, now));
    forall j | u <= j < u + n ensures !m.sq[j].issued { assert m.sq[j] == m.sq[u..][j - u]; }
    Queues.FinishStoresKeep(s.rob, m, u, n, now);
    FinishStoresSame(s.rob, m, u, n, now);
    var (r, w) := FinishStores(s.rob, m, u, n, now);
    var c := SpanLen(w.sq, Min(sqWidth - n, writes), (x: Store) => (s.rob == [] || x.id < s.rob[0].id)
      && Due(x.ready, now));
    hide SameStores, Queues.Inv, Due;
    forall q | 0 <= q < c ensures w.sq[q].issued && Queues.HasId(s.retired, w.sq[q].id) {
      Queues.OldStoreIssued(r, w, q);
      OldStoreRetired(s.retired, s.rob, m, q);
    }
    WrittenLogged(s, w, c, t);
  }

  lemma WrittenLogged(s: State, w: Mem, c: nat, t: State)
    requires Logged(s) && SameStores(s.mem, w) && c <= |w.sq|
    requires forall q :: 0 <= q < c ==> w.sq[q].issued && Queues.HasId(s.retired, w.sq[q].id)
    requires t.mem.written == WriteStores(w, c).written && t.mem.sq == WriteStores(w, c).sq
    requires BackTags(t) == BackTags(s) && t.retired == s.retired
    ensures Logged(t)
  {
    hide BackTags, WritesOf, Queues.HasId;
    assert t.mem.written + t.mem.sq == w.written + w.sq;
    assert Writes(w.written + w.sq) == Writes(s.mem.written + s.mem.sq);
  }

  lemma LsqLogged(cfg: Config, s: State, y: Cycle, now: int, warmup: bool)
    requires BackInv(cfg, s, now, warmup) && Logged(s)
    ensures Logged(Lsq(cfg, s, y))
  {
    LsqKeeps(cfg, s, y, now, warmup);
    hide Renaming.Inv, Queues.Inv, ReadyOrder, OperateLsq, Logged, BackTags;
    OperateLsqLogged(s, y.now, cfg.sqWidth, cfg.lqWidth, y.storeAccepts, y.loadAccepts, Lsq(cfg, s, y));
  }

  lemma CompleteLogged(cfg: Config, s: State, now: int, warmup: bool)
    requires BackInv(cfg, s, now, warmup) && Logged(s)
    ensures Logged(Complete(cfg, s, now))
  {
    CompleteKeeps(cfg, s, now, warmup);
    hide BackInv, CompleteFrom, BackTags, Logged;
    SameStoresLogged(s, Complete(cfg, s, now));
  }

  lemma ExecuteLogged(cfg: Config, s: State, now: int, warmup: bool)
    requires BackInv(cfg, s, now, warmup) && Logged(s)
    ensures Logged(Execute(cfg, s, now, warmup))
  {
    ExecuteKeeps(cfg, s, now, warmup);
    ExecuteSame(s.rob, s.mem, s.ra, 0, cfg.executeWidth, now, now + Delay(warmup, cfg.executeLatency));
    hide BackInv, ExecuteFrom, BackTags, Logged, SameStores;
    SameStoresLogged(s, Execute(cfg, s, now, warmup));
  }

  lemma ScheduleLogged(cfg: Config, s: State, now: int, warmup: bool)
    requires BackInv(cfg, s, now, warmup) && Logged(s)
    ensures Logged(Schedule(cfg, s, now))
  {
    ScheduleKeeps(cfg, s, now, warmup);
    hide BackInv, ScheduleFrom, BackTags, Logged;
    SameStoresLogged(s, Schedule(cfg, s, now));
  }

  lemma ReturnLogged(cfg: Config, s: State, y: Cycle, now: int, warmup: bool)
    requires BackInv(cfg, s, now, warmup) && Logged(s)
    ensures cfg.Valid() && Logged(MemoryReturn(cfg, s, y))
  {
    assert cfg.Valid();
    MemoryReturnKeeps(cfg, s, y, now, warmup);
    hide BackInv, ReturnBlocks, Logged;
    SameStoresLogged(s, MemoryReturn(cfg, s, y));
  }

  lemma {:induction false} BackEndLogged(cfg: Config, s: State, y: Cycle)
    requires BackInv(cfg, s, y.now, y.warmup) && Logged(s)
    ensures cfg.Valid() && Logged(BackEnd(cfg, s, y))
  {
    assert cfg.Valid();
    hide BackInv, Logged, Retire, Complete, Execute, Schedule, MemoryReturn, Lsq, BackTags;
    RetireKeeps(cfg, s, y.now, y.warmup);
    RetireLogged(cfg, s, y.now, y.warmup);
    var s1 := Retire(cfg, s);
    CompleteKeeps(cfg, s1, y.now, y.warmup);
    CompleteLogged(cfg, s1, y.now, y.warmup);
    var s2 := Complete(cfg, s1, y.now);
    ExecuteKeeps(cfg, s2, y.now, y.warmup);
    ExecuteLogged(cfg, s2, y.now, y.warmup);
    var s3 := Execute(cfg, s2, y.now, y.warmup);
    ScheduleKeeps(cfg, s3, y.now, y.warmup);
    ScheduleLogged(cfg, s3, y.now, y.warmup);
    var s4 := Schedule(cfg, s3, y.now);
    MemoryReturnKeeps(cfg, s4, y, y.now, y.warmup);
    ReturnLogged(cfg, s4, y, y.now, y.warmup);
    LsqLogged(cfg, MemoryReturn(cfg, s4, y), y, y.now, y.warmup);
  }

  // ---- dispatch ----

  /** A dispatched instruction's stores enter at the end, behind those of everything older. */
  lemma {:induction false} DispatchOneLogged(cfg: Config, s: State, delivered: seq<Instr>, now: int, warmup: bool)
    requires Inv(cfg, s, delivered, now, warmup) && CanDispatch(cfg, s, now) && Logged(s)
    ensures Logged(DispatchOne(cfg, s, now, warmup))
  {
    hide Inv, DispatchOne, FreeSlots, BackTags, Logged;
    DispatchOneTags(cfg, s, delivered, now, warmup);
    DispatchOneStores(cfg, s, now, warmup);
    MoreLogged(s, DispatchOne(cfg, s, now, warmup), s.dispatch[0]);
  }

  lemma DispatchOneStores(cfg: Config, s: State, now: int, warmup: bool)
    requires CanDispatch(cfg, s, now)
    ensures var t, x := DispatchOne(cfg, s, now, warmup), s.dispatch[0];
      && t.retired == s.retired && t.mem.written == s.mem.written
      && Writes(t.mem.sq) == Writes(s.mem.sq) + WritesTo(x.id, x.dstMem)
  {
    hide ScheduleLoads, FreeSlots;
    var x := s.dispatch[0];
    ScheduleLoadsSame(s.rob + [x], s.mem, x.srcMem);
  }

  lemma MoreLogged(s: State, t: State, x: Instr)
    requires Logged(s) && BackTags(t) == BackTags(s) + [TagOf(x)]
    requires t.retired == s.retired && t.mem.written == s.mem.written
    requires Writes(t.mem.sq) == Writes(s.mem.sq) + WritesTo(x.id, x.dstMem)
    ensures Logged(t)
  {
    hide BackTags;
    WritesOfAppend(BackTags(s), [TagOf(x)]);
    assert WritesOf([TagOf(x)]) == WritesTo(x.id, x.dstMem) + [];
    hide WritesOf;
    assert Writes(t.mem.written + t.mem.sq) == Writes(t.mem.written) + Writes(t.mem.sq);
    assert Writes(s.mem.written + s.mem.sq) == Writes(s.mem.written) + Writes(s.mem.sq);
  }

  lemma DispatchOneTags(cfg: Config, s: State, delivered: seq<Instr>, now: int, warmup: bool)
    requires Inv(cfg, s, delivered, now, warmup) && CanDispatch(cfg, s, now)
    ensures BackTags(DispatchOne(cfg, s, now, warmup)) == BackTags(s) + [TagOf(s.dispatch[0])]
  {
    hide Renaming.Inv, Queues.Inv, ScheduleLoads, NewStores, FreeSlots, ExactlyOnce, FrontTags, ReadyOrder,
      Queues.IdsIncrease;
    var t, n := DispatchOne(cfg, s, now, warmup), |s.rob|;
    NextIsYoungest(s, delivered);
    DispatchBack(cfg, s, now, warmup);
    forall i | 0 <= i < n ensures TagOf(t.rob[i]) == TagOf(s.rob[i]) { assert t.rob[i] == t.rob[..n][i]; }
    assert Tags(t.rob) == Tags(s.rob) + [TagOf(s.dispatch[0])];
  }

  lemma {:induction false} DispatchLogged(cfg: Config, s: State, delivered: seq<Instr>, bw: nat, now: int, warmup: bool)
    requires Inv(cfg, s, delivered, now, warmup) && Logged(s)
    ensures Logged(Dispatch(cfg, s, bw, now, warmup))
    decreases bw
  {
    hide Inv, DispatchOne, CanDispatch, Logged;
    if bw > 0 && CanDispatch(cfg, s, now) {
      DispatchOneKeeps(cfg, s, delivered, now, warmup);
      DispatchOneLogged(cfg, s, delivered, now, warmup);
      DispatchLogged(cfg, DispatchOne(cfg, s, now, warmup), delivered, bw - 1, now, warmup);
    }
  }

  // ---- runs ----

  lemma FrontFrame(cfg: Config, s: State, y: Cycle)
    requires Logged(s)
    ensures Logged(Fetch(cfg, Promote(cfg, Decode(cfg, s, y.now, y.warmup), y.now, y.warmup), y))
  {
  }

  lemma {:induction false} OperateLogged(cfg: Config, s: State, delivered: seq<Instr>, now: int, warmup: bool, y: Cycle)
    requires Inv(cfg, s, delivered, now, warmup) && CoreInvariant.CycleOk(delivered, now, warmup, y) && Logged(s)
    ensures cfg.Valid() && Logged(Operate(cfg, s, y))
  {
    var s0 := s.(input := s.input + y.arrivals);
    assert Logged(s0);
    hide BackEnd, Dispatch, Decode, Promote, Fetch, BackInv, FrontInv, ExactlyOnce, Logged;
    var d := delivered + y.arrivals;
    ArriveKeeps(cfg, s, delivered, now, warmup, y);
    BackEndLogged(cfg, s0, y);
    BackEndKeeps(cfg, s0, d, y);
    var s1 := BackEnd(cfg, s0, y);
    DispatchLogged(cfg, s1, d, cfg.dispatchWidth, y.now, y.warmup);
    FrontFrame(cfg, Dispatch(cfg, s1, cfg.dispatchWidth, y.now, y.warmup), y);
  }

  lemma StartLogged(cfg: Config)
    requires cfg.Valid()
    ensures Logged(Start(cfg))
  {
  }

  lemma {:induction false} RunLogged(cfg: Config, ys: seq<Cycle>)
    requires cfg.Valid() && RunOk(ys) && ys != []
    ensures Logged(Run(cfg, ys))
    decreases |ys|
  {
    hide Inv, CoreInvariant.CycleOk, Run, Trace, Operate, RunOk, Logged, Start;
    if |ys| == 1 {
      StartLogged(cfg);
      FirstOk(ys);
      RunOne(cfg, ys);
      StartInv(cfg, ys[0].now, ys[0].warmup);
      OperateLogged(cfg, Start(cfg), [], ys[0].now, ys[0].warmup, ys[0]);
    } else {
      var n := |ys| - 1;
      RunMore(cfg, ys);
      Reachable(cfg, ys[..n]);
      RunLogged(cfg, ys[..n]);
      OperateLogged(cfg, Run(cfg, ys[..n]), Trace(ys[..n]), ys[n - 1].now, ys[n - 1].warmup, ys[n]);
    }
  }

  // ---- the main result ----

  /** On every run, what has been written to the L1D is a prefix of the writes of the retired
      instructions, in program order; the store queue holds the rest of them, then all those
      of the ROB. So no store is written before its instruction retires, out of order, twice,
      or with another address, and none is lost. Each was finished before it was written. */
  lemma {:induction false} StoresAreWrittenInOrder(cfg: Config, ys: seq<Cycle>)
    requires cfg.Valid() && RunOk(ys) && ys != []
    ensures var s := Run(cfg, ys);
      var retired, n := WritesOf(Tags(s.retired)), |s.mem.written|;
      && n <= |retired| && Writes(s.mem.written) == retired[..n]
      && Writes(s.mem.sq) == retired[n..] + WritesOf(Tags(s.rob))
      && forall k :: 0 <= k < n ==> s.mem.written[k].issued
  {
    hide Run, RunOk, Renaming.Inv;
    RunLogged(cfg, ys);
    ReachableBack(cfg, ys);
    var s := Run(cfg, ys);
    WritesOfAppend(Tags(s.retired), Tags(s.rob));
    WrittenIsPrefix(s.retired, s.rob, s.mem);
  }

  lemma WrittenIsPrefix(retired: seq<Instr>, rob: seq<Instr>, m: Mem)
    requires Queues.IdsIncrease(retired + rob)
    requires Writes(m.written + m.sq) == WritesOf(Tags(retired)) + WritesOf(Tags(rob))
    requires forall k :: 0 <= k < |m.written| ==> Queues.HasId(retired, m.written[k].id)
    ensures var w, n := WritesOf(Tags(retired)), |m.written|;
      && n <= |w| && Writes(m.written) == w[..n] && Writes(m.sq) == w[n..] + WritesOf(Tags(rob))
  {
    hide WritesOf;
    var w, v, n := WritesOf(Tags(retired)), WritesOf(Tags(rob)), |m.written|;
    if n > |w| {
      assert (w + v)[|w|] == v[0] == Write(m.written[|w|].id, m.written[|w|].addr);
      WriterListed(Tags(rob), 0);
      NotBoth(retired, rob, m.written[|w|].id);
    }
    assert Writes(m.written) == Writes(m.written + m.sq)[..n];
    assert Writes(m.sq) == Writes(m.written + m.sq)[n..];
  }

  lemma NotBoth(retired: seq<Instr>, rob: seq<Instr>, id: nat)
    requires Queues.IdsIncrease(retired + rob) && Queues.HasId(retired, id)
    ensures forall j :: 0 <= j < |rob| ==> rob[j].id != id
  {
    var i :| 0 <= i < |retired| && retired[i].id == id;
    forall j | 0 <= j < |rob| ensures rob[j].id != id {
      assert (retired + rob)[i] == retired[i] && (retired + rob)[|retired| + j] == rob[j];
    }
  }
}
