/** The core as the object the simulator updates in place (src/ooo_cpu.cc). Every
    method is proved to take the step of Core it is named after, and Operate
    to keep the invariant that CoreInvariant establishes for those steps. */
module Cpu {
  import opened Sequences
  import opened Instructions
  import opened RegisterAllocation
  import opened Allocators
  import opened Renaming
  import opened LoadStoreQueue
  import opened FrontEnd
  import opened PipelineOrder
  import opened Core
  import Kept = CoreInvariant
  import CoreRuns
  import opened Assertions

  lemma Prepend(s: seq<Reg>, q: Reg, t: seq<Reg>)
    ensures s + ([q] + t) == (s + [q]) + t
  {
  }

  /** The first loop of decode_instruction, over the heads of both buffers. */
  method TakeFromBoth(dib: seq<Instr>, dec: seq<Instr>, c: Cursor, now: int) returns (d: Cursor)
    requires InRange(dib, dec, c)
    ensures d == BothLoop(dib, dec, c, now)
  {
    var dibEnd: nat, decEnd: nat, inorder: nat, decode: nat := c.dib, c.dec, c.inorder, c.decode;
    while dibEnd < |dib| && decEnd < |dec| && inorder > 0 && decode > 0
          && (if dec[decEnd].id < dib[dibEnd].id then dec[decEnd] else dib[dibEnd]).ready <= now
      invariant dibEnd <= |dib| && decEnd <= |dec|
      invariant BothLoop(dib, dec, Cursor(dibEnd, decEnd, inorder, decode), now) == BothLoop(dib, dec, c, now)
      decreases inorder
    {
      if dib[dibEnd].id < dec[decEnd].id {
        dibEnd := dibEnd + 1;
        inorder := inorder - 1;
      } else {
        decEnd := decEnd + 1;
        inorder := inorder - 1;
        decode := decode - 1;
      }
    }
    d := Cursor(dibEnd, decEnd, inorder, decode);
  }

  /** The second loop: what is left of the DIB hits before the next decode entry. */
  method TakeDibHits(dib: seq<Instr>, dec: seq<Instr>, c: Cursor, now: int) returns (d: Cursor)
    requires InRange(dib, dec, c)
    ensures d == DibLoop(dib, dec, c, now)
  {
    var dibEnd: nat, inorder: nat := c.dib, c.inorder;
    while dibEnd < |dib| && inorder > 0 && dib[dibEnd].ready <= now
          && (c.dec == |dec| || dib[dibEnd].id < dec[c.dec].id)
      invariant dibEnd <= |dib|
      invariant DibLoop(dib, dec, c.(dib := dibEnd, inorder := inorder), now) == DibLoop(dib, dec, c, now)
      decreases inorder
    {
      dibEnd := dibEnd + 1;
      inorder := inorder - 1;
    }
    d := c.(dib := dibEnd, inorder := inorder);
  }

  /** The third loop: what is left of the decode entries before the next DIB hit. */
  method TakeDecodes(dib: seq<Instr>, dec: seq<Instr>, c: Cursor, now: int) returns (d: Cursor)
    requires InRange(dib, dec, c)
    ensures d == DecodeLoop(dib, dec, c, now)
  {
    var decEnd: nat, inorder: nat, decode: nat := c.dec, c.inorder, c.decode;
    while decEnd < |dec| && inorder > 0 && decode > 0 && dec[decEnd].ready <= now
          && (c.dib == |dib| || dec[decEnd].id < dib[c.dib].id)
      invariant decEnd <= |dec|
      invariant DecodeLoop(dib, dec, c.(dec := decEnd, inorder := inorder, decode := decode), now) ==
        DecodeLoop(dib, dec, c, now)
      decreases inorder
    {
      decEnd := decEnd + 1;
      inorder := inorder - 1;
      decode := decode - 1;
    }
    d := c.(dec := decEnd, inorder := inorder, decode := decode);
  }

  class O3Cpu {
    const cfg: Config
    const allocator: RegisterAllocator
    const lq: array<Option<Load>>
    var inputQueue: seq<Instr>
    var ifetchBuffer: seq<Instr>
    var dibHitBuffer: seq<Instr>
    var decodeBuffer: seq<Instr>
    var dispatchBuffer: seq<Instr>
    var rob: seq<Instr>
    var sq: seq<Store>
    ghost var retired: seq<Instr>
    ghost var readWarm: seq<bool>
    ghost var written: seq<Store>

    ghost predicate Shaped() {
      cfg.Valid() && allocator.Valid() && lq.Length == cfg.lqSize
      && lq as object !in allocator.Repr() && this as object !in allocator.Repr()
    }

    ghost function Repr(): set<object> { {this, lq} + allocator.Repr() }

    ghost function Queues(): Mem
      reads this, lq
    {
      Mem(lq[..], sq, written)
    }

    ghost function Snapshot(): State
      requires Shaped()
      reads Repr()
    {
      State(inputQueue, ifetchBuffer, dibHitBuffer, decodeBuffer, dispatchBuffer, rob, retired, Queues(),
        allocator.State(), readWarm)
    }

    constructor (cfg: Config)
      requires cfg.Valid()
      ensures this.cfg == cfg && Shaped() && Snapshot() == CoreRuns.Start(cfg)
      ensures fresh(Repr())
    {
      this.cfg := cfg;
      allocator := new RegisterAllocator(cfg.registers);
      lq := new Option<Load>[cfg.lqSize](_ => None);
      inputQueue, ifetchBuffer, dibHitBuffer, decodeBuffer, dispatchBuffer := [], [], [], [], [];
      rob, sq, retired, readWarm, written := [], [], [], [], [];
      new;
      assert lq[..] == seq(cfg.lqSize, _ => None);
    }

    // ---- retire_rob ----

    method RetireRob()
      requires Shaped()
      modifies Repr()
      ensures Snapshot() == Retire(cfg, old(Snapshot()))
    {
      var k := SpanLen(rob, cfg.retireWidth, (x: Instr) => x.completed);
      ghost var s := Snapshot();
      for i := 0 to k
        invariant rob == s.rob && Snapshot() == s.(ra := allocator.State())
        invariant RetireAll(allocator.State(), rob[i..k]) == RetireAll(s.ra, rob[..k])
      {
        assert rob[i..k][0] == rob[i] && rob[i..k][1..] == rob[i + 1..k];
        RetireDestinations(rob[i].dst);
      }
      retired := retired + rob[..k];
      rob := rob[k..];
    }

    method RetireDestinations(regs: seq<Reg>)
      requires Shaped()
      modifies allocator.Repr()
      ensures allocator.State() == RetireDests(old(allocator.State()), regs)
    {
      ghost var a := allocator.State();
      for j := 0 to |regs|
        invariant RetireDests(allocator.State(), regs[j..]) == RetireDests(a, regs)
      {
        assert regs[j..][1..] == regs[j + 1..];
        allocator.RetireDestRegister(regs[j]);
      }
    }

    // ---- complete_inflight_instruction ----

    method CompleteDestinations(regs: seq<Reg>)
      requires Shaped()
      modifies allocator.Repr()
      ensures allocator.State() == CompleteDests(old(allocator.State()), regs)
    {
      ghost var a := allocator.State();
      for j := 0 to |regs|
        invariant CompleteDests(allocator.State(), regs[j..]) == CompleteDests(a, regs)
      {
        assert regs[j..][1..] == regs[j + 1..];
        allocator.CompleteDestRegister(regs[j]);
      }
    }

    method CompleteInflightInstruction(now: int)
      requires Shaped()
      modifies Repr()
      ensures Snapshot() == Complete(cfg, old(Snapshot()), now)
    {
      var i, bw := 0, cfg.executeWidth;
      ghost var s := Snapshot();
      while i < |rob| && bw > 0
        invariant i <= |rob| && Snapshot() == s.(rob := rob, ra := allocator.State())
        invariant CompleteFrom(rob, allocator.State(), i, bw, now) ==
          CompleteFrom(s.rob, s.ra, 0, cfg.executeWidth, now)
        decreases |rob| - i
      {
        if CanComplete(rob[i], now) {
          CompleteDestinations(rob[i].dst);
          rob := rob[i := rob[i].(completed := true)];
          bw := bw - 1;
        }
        i := i + 1;
      }
    }

    // ---- execute_instruction ----

    method MarkMemoryReady(id: nat, at: int)
      requires Shaped()
      modifies this`sq, lq
      ensures Queues() == MarkReady(old(Queues()), id, at)
    {
      ghost var m := Queues();
      for s := 0 to lq.Length
        invariant sq == m.sq
        invariant forall k :: 0 <= k < lq.Length ==> lq[k] == if k < s then MarkReady(m, id, at).lq[k] else m.lq[k]
      {
        if lq[s].Some? && lq[s].value.id == id {
          lq[s] := Some(lq[s].value.(ready := Some(at)));
        }
      }
      for q := 0 to |sq|
        invariant |sq| == |m.sq| && lq[..] == MarkReady(m, id, at).lq
        invariant forall k :: 0 <= k < |sq| ==> sq[k] == if k < q then MarkReady(m, id, at).sq[k] else m.sq[k]
      {
        if sq[q].id == id {
          sq := sq[q := sq[q].(ready := Some(at))];
        }
      }
    }

    method ExecuteInstruction(now: int, warmup: bool)
      requires Shaped()
      modifies Repr()
      ensures Snapshot() == Execute(cfg, old(Snapshot()), now, warmup)
    {
      hide MarkReady;
      var i, bw, at := 0, cfg.executeWidth, now + Delay(warmup, cfg.executeLatency);
      ghost var s := Snapshot();
      while i < |rob| && bw > 0
        invariant i <= |rob| && Snapshot() == s.(rob := rob, mem := Queues())
        invariant ExecuteFrom(rob, Queues(), s.ra, i, bw, now, at) ==
          ExecuteFrom(s.rob, s.mem, s.ra, 0, cfg.executeWidth, now, at)
        decreases |rob| - i
      {
        if rob[i].scheduled && !rob[i].executed && rob[i].ready <= now {
          var ready := allocator.AllValid(rob[i].src);
          if ready {
            MarkMemoryReady(rob[i].id, at);
            rob := rob[i := rob[i].(executed := true, ready := at)];
            bw := bw - 1;
          }
        }
        i := i + 1;
      }
    }

    // ---- schedule_instruction ----

    /** The source loop of do_scheduling. */
    method RenameSourceRegisters(regs: seq<Reg>) returns (names: seq<Reg>)
      requires Shaped() && Unallocated(allocator.State(), regs) <= |allocator.freeRegisters|
      modifies allocator.Repr()
      ensures (allocator.State(), names) == RenameSources(old(allocator.State()), regs)
    {
      ghost var a := allocator.State();
      names := [];
      assert regs[0..] == regs;
      for k := 0 to |regs|
        invariant Unallocated(allocator.State(), regs[k..]) <= |allocator.State().free|
        invariant RenameSources(allocator.State(), regs[k..]).0 == RenameSources(a, regs).0
        invariant names + RenameSources(allocator.State(), regs[k..]).1 == RenameSources(a, regs).1
      {
        assert regs[k..][1..] == regs[k + 1..] && regs[k..][0] == regs[k];
        ghost var c := allocator.State();
        ghost var (d, q) := RenameSrc(c, regs[k]);
        UnallocatedShrinks(c, d, regs[k + 1..]);
        Prepend(names, q, RenameSources(d, regs[k + 1..]).1);
        var p := allocator.RenameSrcRegister(regs[k]);
        names := names + [p];
      }
      assert names + [] == names;
    }

    /** The destination loop of do_scheduling. */
    method RenameDestRegisters(regs: seq<Reg>, id: nat) returns (names: seq<Reg>)
      requires Shaped() && |regs| <= |allocator.freeRegisters|
      modifies allocator.Repr()
      ensures (allocator.State(), names) == RenameDests(old(allocator.State()), regs, id)
    {
      ghost var a := allocator.State();
      names := [];
      assert regs[0..] == regs;
      for k := 0 to |regs|
        invariant |regs| - k <= |allocator.State().free|
        invariant RenameDests(allocator.State(), regs[k..], id).0 == RenameDests(a, regs, id).0
        invariant names + RenameDests(allocator.State(), regs[k..], id).1 == RenameDests(a, regs, id).1
      {
        assert regs[k..][1..] == regs[k + 1..] && regs[k..][0] == regs[k];
        ghost var (d, q) := RenameDest(allocator.State(), regs[k], id);
        Prepend(names, q, RenameDests(d, regs[k + 1..], id).1);
        var p := allocator.RenameDestRegister(regs[k], id);
        names := names + [p];
      }
      assert names + [] == names;
    }

    /** do_scheduling. */
    method DoScheduling(x: Instr) returns (y: Instr)
      requires Shaped() && EnoughNames(allocator.State(), x)
      modifies allocator.Repr()
      ensures (allocator.State(), y) == ScheduleInstr(old(allocator.State()), x) && y.executed == x.executed
    {
      var src := RenameSourceRegisters(x.src);
      var dst := RenameDestRegisters(x.dst, x.id);
      y := x.(src := src, dst := dst, scheduled := true);
    }

    method ScheduleInstruction(now: int)
      requires Shaped()
      modifies Repr()
      ensures Snapshot() == Schedule(cfg, old(Snapshot()), now)
    {
      hide ScheduleInstr, Unallocated;
      var i, bw := 0, cfg.scheduleWidth;
      ghost var s := Snapshot();
      while i < |rob| && bw > 0
        invariant i <= |rob| && Snapshot() == s.(rob := rob, ra := allocator.State())
        invariant ScheduleFrom(rob, allocator.State(), i, bw, now) ==
          ScheduleFrom(s.rob, s.ra, 0, cfg.scheduleWidth, now)
        decreases |rob| - i
      {
        var needed := allocator.CountUnallocated(rob[i].src);
        if |allocator.freeRegisters| < needed + |rob[i].dst| {
          break;
        }
        if !rob[i].scheduled && rob[i].ready <= now {
          var x := DoScheduling(rob[i]);
          rob := rob[i := x];
        }
        if !rob[i].executed {
          bw := bw - 1;
        }
        i := i + 1;
      }
    }

    // ---- handle_memory_return ----

    /** LSQ_ENTRY::finish, with its assertions. */
    method FinishOperation(id: nat)
      requires FinishHolds(rob, id)
      modifies this`rob
      ensures rob == Finish(old(rob), id)
    {
      var i := FindById(rob, id);
      assert i < |rob|;
      assert rob[i].id == id;
      rob := rob[i := rob[i].(memDone := rob[i].memDone + 1)];
      assert rob[i].memDone <= rob[i].MemOps();
    }

    method ReturnLoads(block: nat)
      requires Shaped() && ReturnBlockHolds(rob, lq[..], 0, block, cfg.blockSize)
      modifies this`rob, lq
      ensures (rob, lq[..]) == ReturnBlock(old(rob), old(lq[..]), 0, block, cfg.blockSize)
    {
      hide FindById, Finish, FinishHolds;
      ghost var r, l := rob, lq[..];
      for s := 0 to lq.Length
        invariant ReturnBlockHolds(rob, lq[..], s, block, cfg.blockSize)
        invariant ReturnBlock(rob, lq[..], s, block, cfg.blockSize) == ReturnBlock(r, l, 0, block, cfg.blockSize)
      {
        if lq[s].Some? && lq[s].value.issued && lq[s].value.addr / cfg.blockSize == block {
          FinishOperation(lq[s].value.id);
          lq[s] := None;
        }
      }
    }

    /** The instruction side. */
    method ReturnFetches(returned: nat -> bool)
      modifies this`ifetchBuffer
      ensures ifetchBuffer == FetchReturn(old(ifetchBuffer), returned)
    {
      ghost var f := ifetchBuffer;
      for i := 0 to |ifetchBuffer|
        invariant |ifetchBuffer| == |f|
        invariant forall k :: 0 <= k < |f| ==> ifetchBuffer[k] == if k < i then FetchReturn(f, returned)[k] else f[k]
      {
        if ifetchBuffer[i].front.fetchIssued && returned(i) {
          ifetchBuffer := ifetchBuffer[i := ifetchBuffer[i].(front := ifetchBuffer[i].front.(fetchCompleted := true))];
        }
      }
    }

    /** The data side. */
    method ReturnData(blocks: seq<nat>)
      requires Shaped() && ReturnBlocksHold(rob, lq[..], blocks, cfg.blockSize)
      modifies this`rob, lq
      ensures (rob, lq[..]) == ReturnBlocks(old(rob), old(lq[..]), blocks, cfg.blockSize)
    {
      ghost var r, l := rob, lq[..];
      for b := 0 to |blocks|
        invariant ReturnBlocksHold(rob, lq[..], blocks[b..], cfg.blockSize)
        invariant ReturnBlocks(rob, lq[..], blocks[b..], cfg.blockSize) == ReturnBlocks(r, l, blocks, cfg.blockSize)
      {
        assert blocks[b..][0] == blocks[b] && blocks[b..][1..] == blocks[b + 1..];
        ReturnLoads(blocks[b]);
      }
    }

    method HandleMemoryReturn(y: Cycle)
      requires Shaped() && MemoryReturnHolds(cfg, Snapshot(), y)
      modifies this`ifetchBuffer, this`rob, lq
      ensures Snapshot() == MemoryReturn(cfg, old(Snapshot()), y)
    {
      hide FetchReturn, ReturnBlocks, ReturnBlocksHold;
      ReturnFetches(y.fetchReturned);
      ReturnData(y.blocks[..Min(|y.blocks|, cfg.l1dWidth)]);
    }

    // ---- operate_lsq ----

    /** do_finish_store, and the store is marked issued. */
    method DoFinishStore(q: nat, now: int)
      requires Shaped() && q < |sq| && FinishStoreHolds(rob, Queues(), q)
      modifies this`rob, this`sq, lq
      ensures (rob, Queues()) == FinishStore(old(rob), old(Queues()), q, now)
    {
      FinishOperation(sq[q].id);
      ghost var r, l := rob, lq[..];
      var deps := sq[q].deps;
      for d := 0 to |deps|
        invariant sq == old(sq) && ReleaseHolds(rob, lq[..], deps[d..], sq[q].id)
        invariant Release(rob, lq[..], deps[d..]) == Release(r, l, deps)
      {
        assert deps[d..][0] == deps[d] && deps[d..][1..] == deps[d + 1..];
        assert lq[deps[d]].Some?;
        assert lq[deps[d]].value.producer == Some(sq[q].id);
        FinishOperation(lq[deps[d]].value.id);
        lq[deps[d]] := None;
      }
      sq := sq[q := sq[q].(issued := true, ready := Some(now))];
    }

    method IssueReadyLoads(now: int, accepts: nat -> bool)
      requires Shaped()
      modifies lq
      ensures lq[..] == IssueLoads(old(lq[..]), 0, cfg.lqWidth, now, accepts)
    {
      var bw := cfg.lqWidth;
      ghost var l := lq[..];
      for s := 0 to lq.Length
        invariant IssueLoads(lq[..], s, bw, now, accepts) == IssueLoads(l, 0, cfg.lqWidth, now, accepts)
      {
        if bw > 0 && lq[s].Some? && lq[s].value.producer.None? && !lq[s].value.issued
           && lq[s].value.ready.Some? && lq[s].value.ready.value < now && accepts(s) {
          bw := bw - 1;
          lq[s] := Some(lq[s].value.(issued := true));
        }
      }
    }

    method FinishReadyStores(q: nat, n: nat, now: int)
      requires Shaped() && q + n <= |sq| && FinishStoresHold(rob, Queues(), q, n, now)
      modifies this`rob, this`sq, lq
      ensures (rob, Queues()) == FinishStores(old(rob), old(Queues()), q, n, now)
    {
      hide FinishStore, FinishStoreHolds;
      ghost var r, m := rob, Queues();
      for i := 0 to n
        invariant |sq| == |m.sq| && FinishStoresHold(rob, Queues(), q + i, n - i, now)
        invariant FinishStores(rob, Queues(), q + i, n - i, now) == FinishStores(r, m, q, n, now)
      {
        DoFinishStore(q + i, now);
      }
    }

    method OperateLoadStoreQueue(y: Cycle)
      requires Shaped() && LsqHolds(cfg, Snapshot(), y)
      modifies this`rob, this`sq, this`written, lq
      ensures Snapshot() == Lsq(cfg, old(Snapshot()), y)
    {
      hide SpanLen, FinishStores, FinishStoresHold, IssueLoads;
      var complete := rob;
      var u := SpanLen(sq, |sq|, (x: Store) => x.issued);
      var n := SpanLen(sq[u..], cfg.sqWidth, (x: Store) => !x.issued && Due(x.ready, y.now));
      FinishReadyStores(u, n, y.now);
      var c := SpanLen(sq, Min(cfg.sqWidth - n, y.storeAccepts), (x: Store) => (complete == [] || x.id < complete[0].id)
        && Due(x.ready, y.now));
      written := written + sq[..c];
      sq := sq[c..];
      IssueReadyLoads(y.now, y.loadAccepts);
    }

    // ---- dispatch_instruction ----

    /** The load loop of do_memory_scheduling for the newest ROB entry. */
    method ScheduleLoadsOf(addrs: seq<nat>)
      requires Shaped() && rob != [] && |addrs| <= FreeSlots(lq[..]) && ScheduleLoadsHold(rob, Queues(), addrs)
      modifies this`rob, this`sq, lq
      ensures (rob, Queues()) == ScheduleLoads(old(rob), old(Queues()), addrs)
    {
      ghost var r, m := rob, Queues();
      for k := 0 to |addrs|
        invariant rob != [] && |addrs| - k <= FreeSlots(lq[..])
        invariant ScheduleLoadsHold(rob, Queues(), addrs[k..])
        invariant ScheduleLoads(rob, Queues(), addrs[k..]) == ScheduleLoads(r, m, addrs)
      {
        assert addrs[k..][0] == addrs[k] && addrs[k..][1..] == addrs[k + 1..];
        ScheduleLoadSlots(rob, Queues(), addrs[k]);
        DoScheduleLoad(addrs[k]);
      }
    }

    method DoScheduleLoad(addr: nat)
      requires Shaped() && rob != [] && ScheduleLoadHolds(rob, Queues(), addr)
      modifies this`rob, this`sq, lq
      ensures (rob, Queues()) == ScheduleLoad(old(rob), old(Queues()), addr)
    {
      var n := |rob| - 1;
      var s := FreeSlot(lq[..]);
      assert s < lq.Length;
      lq[s] := Some(Load(rob[n].id, addr, None, false, None));
      var k := ForwardFrom(sq, addr);
      if k < |sq| && sq[k].addr == addr {
        if sq[k].issued {
          rob := rob[n := rob[n].(memDone := rob[n].memDone + 1)];
          assert rob[n].memDone <= rob[n].MemOps();
          lq[s] := None;
        } else {
          assert sq[k].id < rob[n].id;
          sq := sq[k := sq[k].(deps := sq[k].deps + [s])];
          lq[s] := Some(lq[s].value.(producer := Some(sq[k].id)));
        }
      }
      assert lq[..] == ScheduleLoad(old(rob), old(Queues()), addr).1.lq;
    }

    method DispatchNext(now: int, warmup: bool)
      requires Shaped() && CanDispatch(cfg, Snapshot(), now) && DispatchOneHolds(Snapshot())
      modifies this`rob, this`sq, this`dispatchBuffer, lq
      ensures Snapshot() == DispatchOne(cfg, old(Snapshot()), now, warmup)
    {
      hide ScheduleLoads, ScheduleLoadsHold, FreeSlots;
      rob := rob + [dispatchBuffer[0]];
      dispatchBuffer := dispatchBuffer[1..];
      var n := |rob| - 1;
      var x := rob[n];
      ScheduleLoadsOf(x.srcMem);
      sq := sq + NewStores(x.id, x.dstMem);
      rob := rob[n := rob[n].(ready := now + Delay(warmup, cfg.scheduleLatency))];
    }

    method DispatchInstruction(now: int, warmup: bool)
      requires Shaped() && DispatchHolds(cfg, Snapshot(), cfg.dispatchWidth, now, warmup)
      modifies this`rob, this`sq, this`dispatchBuffer, lq
      ensures Snapshot() == Dispatch(cfg, old(Snapshot()), cfg.dispatchWidth, now, warmup)
    {
      hide DispatchOne, DispatchOneHolds, FreeSlots;
      var bw := cfg.dispatchWidth;
      ghost var s := Snapshot();
      while bw > 0 && CanDispatchNow(now)
        invariant DispatchHolds(cfg, Snapshot(), bw, now, warmup)
        invariant Dispatch(cfg, Snapshot(), bw, now, warmup) == Dispatch(cfg, s, cfg.dispatchWidth, now, warmup)
      {
        DispatchNext(now, warmup);
        bw := bw - 1;
      }
    }

    predicate CanDispatchNow(now: int)
      reads this, lq
    {
      && dispatchBuffer != [] && dispatchBuffer[0].ready <= now && |rob| != cfg.robSize
      && FreeSlots(lq[..]) >= |dispatchBuffer[0].srcMem|
      && |dispatchBuffer[0].dstMem| + |sq| <= cfg.sqSize
    }

    // ---- decode_instruction, promote_to_decode ----

    /** The three loops that choose how much of each buffer leaves. */
    method ChooseDecoded(width: nat, now: int) returns (dibEnd: nat, decEnd: nat)
      ensures var c := DecodeSpan(dibHitBuffer, decodeBuffer, width, cfg.decodeWidth, now);
        dibEnd == c.dib <= |dibHitBuffer| && decEnd == c.dec <= |decodeBuffer|
    {
      var c := TakeFromBoth(dibHitBuffer, decodeBuffer, Cursor(0, 0, width, cfg.decodeWidth), now);
      c := TakeDibHits(dibHitBuffer, decodeBuffer, c, now);
      c := TakeDecodes(dibHitBuffer, decodeBuffer, c, now);
      dibEnd, decEnd := c.dib, c.dec;
    }

    method DecodeInstruction(now: int, warmup: bool)
      requires Shaped()
      modifies this`dispatchBuffer, this`dibHitBuffer, this`decodeBuffer
      ensures Snapshot() == Decode(cfg, old(Snapshot()), now, warmup)
    {
      hide DecodeSpan, MergeById, ReadyAt;
      var dibEnd, decEnd := ChooseDecoded(Min(cfg.dibWidth, Room(cfg.dispatchSize, |dispatchBuffer|)), now);
      var at := now + Delay(warmup, cfg.dispatchLatency);
      dispatchBuffer := dispatchBuffer
        + MergeById(ReadyAt(dibHitBuffer[..dibEnd], at), ReadyAt(decodeBuffer[..decEnd], at));
      decodeBuffer := decodeBuffer[decEnd..];
      dibHitBuffer := dibHitBuffer[dibEnd..];
    }

    method PromoteToDecode(now: int, warmup: bool)
      requires Shaped()
      modifies this`ifetchBuffer, this`dibHitBuffer, this`decodeBuffer
      ensures Snapshot() == Promote(cfg, old(Snapshot()), now, warmup)
    {
      hide PromoteLen, Filter, ReadyAt;
      var bw := Min(cfg.fetchWidth, Min(Room(cfg.dibSize, |dibHitBuffer|), Room(cfg.decodeSize, |decodeBuffer|)));
      var n := PromoteLen(ifetchBuffer, bw, now);
      dibHitBuffer := dibHitBuffer + ReadyAt(Filter(ifetchBuffer[..n], true), now + cfg.dibLatency);
      decodeBuffer := decodeBuffer + ReadyAt(Filter(ifetchBuffer[..n], false), now + Delay(warmup, cfg.decodeLatency));
      ifetchBuffer := ifetchBuffer[n..];
    }

    // ---- fetch_instruction, check_dib, initialize_instruction ----

    method InitializeInstruction(y: Cycle)
      requires Shaped()
      modifies this`ifetchBuffer, this`inputQueue
      ensures (inputQueue, ifetchBuffer) == InitFrom(old(inputQueue), old(ifetchBuffer),
        if y.mayFetch then Min(cfg.fetchWidth, Room(cfg.ifetchSize, |old(ifetchBuffer)|)) else 0,
        y.stops, 0, y.now, y.warmup)
    {
      var bw := if y.mayFetch then Min(cfg.fetchWidth, Room(cfg.ifetchSize, |ifetchBuffer|)) else 0;
      ghost var q, f, w := inputQueue, ifetchBuffer, bw;
      var stop, k := false, 0;
      while bw > 0 && !stop && inputQueue != []
        invariant bw >= 0 && k >= 0
        invariant InitFrom(q, f, w, y.stops, 0, y.now, y.warmup) ==
          if stop then (inputQueue, ifetchBuffer)
            else InitFrom(inputQueue, ifetchBuffer, bw, y.stops, k, y.now, y.warmup)
        decreases bw
      {
        bw := bw - 1;
        stop := y.stops(k);
        ifetchBuffer := ifetchBuffer + [InitInstr(inputQueue[0], y.now, y.warmup)];
        inputQueue := inputQueue[1..];
        k := k + 1;
      }
    }

    method FetchInstructions(y: Cycle)
      requires Shaped()
      modifies this`ifetchBuffer, this`inputQueue, this`readWarm
      ensures Snapshot() == Fetch(cfg, old(Snapshot()), y)
    {
      hide InitFrom;
      ghost var waiting := |inputQueue|;
      ifetchBuffer := CheckDib(FetchIssue(ifetchBuffer, y.fetchIssued), cfg.fetchWidth, y.dibHits, y.now);
      InitializeInstruction(y);
      readWarm := readWarm + Repeat(y.warmup, waiting - |inputQueue|);
    }

    // ---- operate ----

    /** The invariant of the running core, after `delivered` and at time `now`. */
    ghost predicate Valid(delivered: seq<Instr>, now: int, warmup: bool)
      reads Repr()
    {
      Shaped() && Kept.Inv(cfg, Snapshot(), delivered, now, warmup)
    }

    method OperateBackEnd(y: Cycle)
      requires Shaped() && BackEndHolds(cfg, Snapshot(), y)
      modifies Repr()
      ensures Snapshot() == BackEnd(cfg, old(Snapshot()), y)
    {
      hide Retire, Complete, Execute, Schedule, MemoryReturn, Lsq, MemoryReturnHolds, LsqHolds;
      RetireRob();
      CompleteInflightInstruction(y.now);
      ExecuteInstruction(y.now, y.warmup);
      ScheduleInstruction(y.now);
      HandleMemoryReturn(y);
      OperateLoadStoreQueue(y);
    }

    method RunCycle(y: Cycle)
      requires Shaped() && OperateHolds(cfg, Snapshot(), y)
      modifies Repr()
      ensures Snapshot() == Core.Operate(cfg, old(Snapshot()), y)
    {
      hide BackEnd, BackEndHolds, Dispatch, DispatchHolds, Decode, Promote, Fetch;
      inputQueue := inputQueue + y.arrivals;
      OperateBackEnd(y);
      DispatchInstruction(y.now, y.warmup);
      DecodeInstruction(y.now, y.warmup);
      PromoteToDecode(y.now, y.warmup);
      FetchInstructions(y);
    }

    method Operate(y: Cycle, ghost delivered: seq<Instr>, ghost now: int, ghost warmup: bool)
      requires Valid(delivered, now, warmup) && Kept.CycleOk(delivered, now, warmup, y)
      modifies Repr()
      ensures Snapshot() == Core.Operate(cfg, old(Snapshot()), y)
      ensures Valid(delivered + y.arrivals, y.now, y.warmup)
    {
      hide Core.Operate, Kept.Inv, Kept.CycleOk, OperateHolds;
      OperateSound(cfg, Snapshot(), delivered, now, warmup, y);
      Kept.OperateKeeps(cfg, Snapshot(), delivered, now, warmup, y);
      RunCycle(y);
    }
  }
}
