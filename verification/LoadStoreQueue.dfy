/** The load and store queues (src/ooo_cpu.cc: do_memory_scheduling, operate_lsq,
    do_finish_store, handle_memory_return, LSQ_ENTRY::finish). */
module LoadStoreQueue {
  import opened Sequences
  import opened Instructions

  /** `ready` is None until the instruction executes, `producer` is None for a load
      that waits on no store: the source's time_point::max() and id maximum. */
  datatype Load = Load(id: nat, addr: nat, ready: Option<int>, issued: bool, producer: Option<nat>)

  /** `deps` are the load-queue slots this store releases when it finishes. */
  datatype Store = Store(id: nat, addr: nat, ready: Option<int>, issued: bool, deps: seq<nat>)

  /** `written` is a model-only log of the stores written to the L1D. */
  datatype Mem = Mem(lq: seq<Option<Load>>, sq: seq<Store>, written: seq<Store>)

  predicate Due(ready: Option<int>, now: int) {
    ready.Some? && ready.value <= now
  }

  // ---- finishing a memory operation ----

  /** std::partition_point over the ROB with ooo_model_instr::precedes(id). */
  function FindById(rob: seq<Instr>, id: nat): (i: nat)
    ensures i <= |rob|
    ensures forall j :: 0 <= j < i ==> rob[j].id < id
    ensures i < |rob| ==> rob[i].id >= id
  {
    if rob == [] || rob[0].id >= id then 0 else 1 + FindById(rob[1..], id)
  }

  /** LSQ_ENTRY::finish. */
  function Finish(rob: seq<Instr>, id: nat): (r: seq<Instr>)
    ensures |r| == |rob|
  {
    var i := FindById(rob, id);
    if i < |rob| then rob[i := rob[i].(memDone := rob[i].memDone + 1)] else rob
  }

  // ---- do_memory_scheduling ----

  function FreeSlot(lq: seq<Option<Load>>): (s: nat)
    ensures s <= |lq|
    ensures forall j :: 0 <= j < s ==> lq[j].Some?
    ensures s < |lq| ==> lq[s].None?
  {
    if lq == [] || lq[0].None? then 0 else 1 + FreeSlot(lq[1..])
  }

  function FreeSlots(lq: seq<Option<Load>>): nat {
    CountIf(lq, (l: Option<Load>) => l.None?)
  }

  /** The comparator of the forwarding search. */
  predicate Before(l: Store, r: Store, addr: nat) {
    l.addr != addr || (r.addr == addr && l.id < r.id)
  }

  /** std::max_element from position `i`, with `best` the largest seen so far. */
  function MaxScan(sq: seq<Store>, addr: nat, best: nat, i: nat): (k: nat)
    requires best < |sq| && i <= |sq|
    ensures k < |sq|
    decreases |sq| - i
  {
    if i == |sq| then best else MaxScan(sq, addr, if Before(sq[best], sq[i], addr) then i else best, i + 1)
  }

  function ForwardFrom(sq: seq<Store>, addr: nat): (k: nat)
    ensures k <= |sq| && (sq != [] ==> k < |sq|)
  {
    if sq == [] then 0 else MaxScan(sq, addr, 0, 1)
  }

  /** One load of the newest ROB entry. */
  function ScheduleLoad(rob: seq<Instr>, m: Mem, addr: nat): (seq<Instr>, Mem)
    requires rob != [] && FreeSlot(m.lq) < |m.lq|
  {
    var n := |rob| - 1;
    var s := FreeSlot(m.lq);
    var k := ForwardFrom(m.sq, addr);
    if k < |m.sq| && m.sq[k].addr == addr then
      if m.sq[k].issued then (rob[n := rob[n].(memDone := rob[n].memDone + 1)], m)
      else (rob, m.(lq := m.lq[s := Some(Load(rob[n].id, addr, None, false, Some(m.sq[k].id)))],
        sq := m.sq[k := m.sq[k].(deps := m.sq[k].deps + [s])]))
    else (rob, m.(lq := m.lq[s := Some(Load(rob[n].id, addr, None, false, None))]))
  }

  lemma FreeSlotExists(lq: seq<Option<Load>>)
    requires FreeSlots(lq) > 0
    ensures FreeSlot(lq) < |lq|
  {
    var i := CountIfWitness(lq, (l: Option<Load>) => l.None?);
  }

  lemma ScheduleLoadSlots(rob: seq<Instr>, m: Mem, addr: nat)
    requires rob != [] && FreeSlots(m.lq) > 0
    ensures FreeSlot(m.lq) < |m.lq|
    ensures var (r, w) := ScheduleLoad(rob, m, addr);
      |r| == |rob| && FreeSlots(w.lq) >= FreeSlots(m.lq) - 1
  {
    FreeSlotExists(m.lq);
    var s := FreeSlot(m.lq);
    var w := ScheduleLoad(rob, m, addr).1;
    CountIfUpdate(m.lq, s, w.lq[s], (l: Option<Load>) => l.None?);
    assert w.lq == m.lq[s := w.lq[s]];
  }

  function ScheduleLoads(rob: seq<Instr>, m: Mem, addrs: seq<nat>): (res: (seq<Instr>, Mem))
    requires rob != [] && |addrs| <= FreeSlots(m.lq)
    ensures |res.0| == |rob|
    decreases |addrs|
  {
    if addrs == [] then (rob, m)
    else
      ScheduleLoadSlots(rob, m, addrs[0]);
      var (r, w) := ScheduleLoad(rob, m, addrs[0]);
      ScheduleLoads(r, w, addrs[1..])
  }

  function NewStores(id: nat, addrs: seq<nat>): (s: seq<Store>)
    ensures |s| == |addrs|
    ensures forall i :: 0 <= i < |addrs| ==> s[i] == Store(id, addrs[i], None, false, [])
  {
    seq(|addrs|, i requires 0 <= i < |addrs| => Store(id, addrs[i], None, false, []))
  }

  /** do_memory_scheduling for the newest ROB entry. */
  function MemorySchedule(rob: seq<Instr>, m: Mem): (seq<Instr>, Mem)
    requires rob != [] && |rob[|rob| - 1].srcMem| <= FreeSlots(m.lq)
  {
    var x := rob[|rob| - 1];
    var (r, w) := ScheduleLoads(rob, m, x.srcMem);
    (r, w.(sq := w.sq + NewStores(x.id, x.dstMem)))
  }

  // ---- do_execution: memory operations become ready ----

  function MarkReady(m: Mem, id: nat, at: int): (w: Mem)
    ensures |w.lq| == |m.lq| && |w.sq| == |m.sq|
  {
    m.(lq := seq(|m.lq|, i requires 0 <= i < |m.lq| =>
         if m.lq[i].Some? && m.lq[i].value.id == id then Some(m.lq[i].value.(ready := Some(at))) else m.lq[i]),
       sq := seq(|m.sq|, i requires 0 <= i < |m.sq| =>
         if m.sq[i].id == id then m.sq[i].(ready := Some(at)) else m.sq[i]))
  }

  // ---- operate_lsq ----

  /** The loop of do_finish_store over the loads that wait on the store. */
  function Release(rob: seq<Instr>, lq: seq<Option<Load>>, deps: seq<nat>): (res: (seq<Instr>, seq<Option<Load>>))
    ensures |res.0| == |rob| && |res.1| == |lq|
    decreases |deps|
  {
    if deps == [] then (rob, lq)
    else if deps[0] < |lq| && lq[deps[0]].Some?
      then Release(Finish(rob, lq[deps[0]].value.id), lq[deps[0] := None], deps[1..])
    else Release(rob, lq, deps[1..])
  }

  /** do_finish_store, then the store is marked issued. */
  function FinishStore(rob: seq<Instr>, m: Mem, q: nat, now: int): (res: (seq<Instr>, Mem))
    requires q < |m.sq|
    ensures |res.0| == |rob| && |res.1.sq| == |m.sq| && |res.1.lq| == |m.lq|
  {
    var (r, lq) := Release(Finish(rob, m.sq[q].id), m.lq, m.sq[q].deps);
    (r, m.(lq := lq, sq := m.sq[q := m.sq[q].(issued := true, ready := Some(now))]))
  }

  function FinishStores(rob: seq<Instr>, m: Mem, q: nat, n: nat, now: int): (res: (seq<Instr>, Mem))
    requires q + n <= |m.sq|
    ensures |res.0| == |rob| && |res.1.sq| == |m.sq| && |res.1.lq| == |m.lq|
    decreases n
  {
    if n == 0 then (rob, m)
    else
      var (r, w) := FinishStore(rob, m, q, now);
      FinishStores(r, w, q + 1, n - 1, now)
  }

  /** Issue ready loads, in slot order, while load bandwidth remains; `accepts[s]`
      says whether the L1D would take the read of slot `s`. */
  function IssueLoads(lq: seq<Option<Load>>, s: nat, bw: nat, now: int, accepts: nat -> bool): (r: seq<Option<Load>>)
    requires s <= |lq|
    ensures |r| == |lq|
    decreases |lq| - s
  {
    if s == |lq| then lq
    else if bw > 0 && lq[s].Some? && lq[s].value.producer.None? && !lq[s].value.issued
            && lq[s].value.ready.Some? && lq[s].value.ready.value < now && accepts(s)
    then IssueLoads(lq[s := Some(lq[s].value.(issued := true))], s + 1, bw - 1, now, accepts)
    else IssueLoads(lq, s + 1, bw, now, accepts)
  }

  /** do_complete_store for the first `c` stores, which leave the queue. */
  function WriteStores(m: Mem, c: nat): Mem
    requires c <= |m.sq|
  {
    m.(sq := m.sq[c..], written := m.written + m.sq[..c])
  }

  /** operate_lsq. `writes` is how many store writes the L1D accepts this cycle. */
  function OperateLsq(rob: seq<Instr>, m: Mem, now: int, sqWidth: nat, lqWidth: nat, writes: nat,
      accepts: nat -> bool): (seq<Instr>, Mem)
  {
    var u := SpanLen(m.sq, |m.sq|, (x: Store) => x.issued);
    var n := SpanLen(m.sq[u..], sqWidth, (x: Store) => !x.issued && Due(x.ready, now));
    var (r, w) := FinishStores(rob, m, u, n, now);
    var c := SpanLen(w.sq, Min(sqWidth - n, writes), (x: Store) => (rob == [] || x.id < rob[0].id)
      && Due(x.ready, now));
    (r, WriteStores(w, c).(lq := IssueLoads(w.lq, 0, lqWidth, now, accepts)))
  }

  // ---- handle_memory_return, data side ----

  /** One returned block: every issued load of that block finishes. */
  function ReturnBlock(rob: seq<Instr>, lq: seq<Option<Load>>, s: nat, block: nat,
      blockSize: nat): (res: (seq<Instr>, seq<Option<Load>>))
    requires s <= |lq| && blockSize > 0
    ensures |res.0| == |rob| && |res.1| == |lq|
    decreases |lq| - s
  {
    if s == |lq| then (rob, lq)
    else if lq[s].Some? && lq[s].value.issued && lq[s].value.addr / blockSize == block
    then ReturnBlock(Finish(rob, lq[s].value.id), lq[s := None], s + 1, block, blockSize)
    else ReturnBlock(rob, lq, s + 1, block, blockSize)
  }

  function ReturnBlocks(rob: seq<Instr>, lq: seq<Option<Load>>, blocks: seq<nat>,
      blockSize: nat): (res: (seq<Instr>, seq<Option<Load>>))
    requires blockSize > 0
    ensures |res.0| == |rob| && |res.1| == |lq|
    decreases |blocks|
  {
    if blocks == [] then (rob, lq)
    else
      var (r, q) := ReturnBlock(rob, lq, 0, blocks[0], blockSize);
      ReturnBlocks(r, q, blocks[1..], blockSize)
  }
}
