/** The page table walker as the object the simulator updates in place (src/ptw.cc). What
    its paging-structure caches answer comes as a parameter. */
module PageTableWalkerObject {
  import opened Sequences
  import opened Bits
  import opened VirtualMemory
  import opened VirtualMemoryRuns
  import opened VirtualMemoryObject
  import opened PageTableWalker
  import Runs = PageTableWalkerRuns

  class Walker {
    const cfg: Config
    const vmem: Memory
    var mshr: seq<Walk>
    var finished: seq<Walk>
    var completed: seq<Walk>
    var accepted: nat
    ghost var answers: seq<Walk>
    ghost var pscl: seq<seq<Entry>>

    ghost function Repr(): set<object> { {this, vmem} }

    ghost function State(): Ptw
      reads Repr()
    {
      Ptw(mshr, finished, completed, answers, pscl, vmem.State(), accepted)
    }

    ghost predicate Shaped() {
      vmem.g == cfg.g && cfg.Valid()
    }

    ghost predicate Valid()
      reads Repr()
    {
      Shaped() && Runs.PtwInv(cfg, State())
    }

    constructor (cfg: Config, vmem: Memory)
      requires cfg.Valid() && vmem.g == cfg.g && vmem.Valid()
      ensures Valid() && this.cfg == cfg && this.vmem == vmem && State() == Runs.StartPtw(cfg, vmem.State())
    {
      this.cfg, this.vmem := cfg, vmem;
      mshr, finished, completed, accepted, answers := [], [], [], 0, [];
      pscl := seq(cfg.N(), _ => []);
      new;
      Runs.StartPtwInv(cfg, vmem.State());
    }

    // ---- finish_packet ----

    /** finish_step and finish_last_step. */
    method FinishStep(w: Walk, now: int, warmup: bool) returns (u: Walk)
      requires Shaped() && vmem.Valid() && WalkShaped(cfg, w)
      modifies vmem
      ensures vmem.Valid()
      ensures old(VirtualMemory.Shaped(cfg.g, vmem.State()))
      ensures (vmem.State(), u) == FinishWalk(cfg, old(vmem.State()), w, now, warmup)
    {
      InvShaped(cfg.g, vmem.State());
      VaddrPage(cfg, w.vaddr);
      hide VirtualMemory.Inv, VirtualMemory.Shaped, GetPtePa, VaToPa, PageOf, Shl, IsPage;
      var refill := cfg.shuffle(vmem.refillCount);
      assert Shuffled(cfg.g, refill);
      hide Shuffled;
      if w.level == 0 {
        var created := (cfg.cpu, PageOf(cfg, w.vaddr)) !in vmem.vpageToPpage;
        var page, fault := vmem.Translate(cfg.cpu, PageOf(cfg, w.vaddr), refill);
        u := w.(data := Shl(page, cfg.g.pageBits), ready := Ready(cfg, fault, now, warmup),
          back := Some(Return(now, warmup, created)));
      } else {
        var created := KeyOf(cfg.g, cfg.cpu, PageOf(cfg, w.vaddr), w.level) !in vmem.pageTable;
        var a, fault := vmem.PageTableEntry(cfg.cpu, PageOf(cfg, w.vaddr), w.level, refill);
        u := w.(data := a, ready := Ready(cfg, fault, now, warmup), back := Some(Return(now, warmup, created)));
      }
    }

    /** std::partition on the block. */
    method Partition(block: nat) returns (matched: seq<Walk>)
      modifies this`mshr
      ensures mshr == Select(cfg, old(mshr), block, false) && matched == Select(cfg, old(mshr), block, true)
    {
      matched := [];
      var rest: seq<Walk> := [];
      ghost var all := mshr;
      assert all[0..] == all;
      for i := 0 to |mshr|
        invariant mshr == all
        invariant rest + Select(cfg, all[i..], block, false) == Select(cfg, all, block, false)
        invariant matched + Select(cfg, all[i..], block, true) == Select(cfg, all, block, true)
      {
        SelectStep(cfg, all, block, i, rest, matched);
        if Matches(cfg, mshr[i], block) {
          matched := matched + [mshr[i]];
        } else {
          rest := rest + [mshr[i]];
        }
        hide Select;
      }
      assert all[|all|..] == [] && rest + [] == rest && matched + [] == matched;
      mshr := rest;
    }

    method FinishMatched(ws: seq<Walk>, now: int, warmup: bool)
      requires Shaped() && vmem.Valid() && AllShaped(cfg, ws)
      modifies vmem, this`completed, this`finished
      ensures vmem.Valid() && old(VirtualMemory.Inv(cfg.g, vmem.State()))
      ensures State() == FinishWalks(cfg, old(State()), ws, now, warmup)
    {
      ghost var s := State();
      assert ws[0..] == ws;
      for i := 0 to |ws|
        invariant vmem.Valid() && AllShaped(cfg, ws[i..])
        invariant FinishWalks(cfg, State(), ws[i..], now, warmup) == FinishWalks(cfg, s, ws, now, warmup)
      {
        assert ws[i..][0] == ws[i] && ws[i..][1..] == ws[i + 1..];
        assert WalkShaped(cfg, ws[i..][0]);
        var w := FinishStep(ws[i], now, warmup);
        if w.level == 0 { completed := completed + [w]; } else { finished := finished + [w]; }
        ghost var rest := ws[i + 1..];
        forall k | 0 <= k < |rest| ensures WalkShaped(cfg, rest[k]) { assert rest[k] == ws[i..][k + 1]; }
      }
    }

    method FinishReturned(address: nat, now: int, warmup: bool)
      requires Valid()
      modifies vmem, this`mshr, this`completed, this`finished
      ensures Valid()
      ensures old(VirtualMemory.Inv(cfg.g, vmem.State()) && AllShaped(cfg, mshr))
      ensures State() == FinishPacket(cfg, old(State()), address, now, warmup)
    {
      Runs.FinishPacketKeeps(cfg, State(), address, now, warmup);
      var block := Shr(address, cfg.blockBits);
      SelectShaped(cfg, mshr, block, true);
      Runs.InvParts(cfg, State());
      hide Runs.PtwInv, VirtualMemory.Inv, AllShaped, Config.Valid, FinishWalks;
      var matched := Partition(block);
      FinishMatched(matched, now, warmup);
    }

    // ---- operate ----

    /** handle_fill of the first finished walk, and its next read if the lower level takes it. */
    method FillNext(accept: bool)
      requires Valid() && finished != []
      modifies this`mshr, this`finished, this`pscl
      ensures old(1 <= finished[0].level <= cfg.N() && |pscl| == cfg.N()) && Valid() && Fillable(cfg, State())
      ensures State() == if accept then FillOne(cfg, old(State())) else FillPscl(cfg, old(State()), old(finished[0]))
    {
      hide Runs.PtwInv, Fillable;
      Runs.FillOneKeeps(cfg, State(), accept);
      var w := finished[0];
      ghost var i := PsclIndex(cfg, w.level);
      pscl := pscl[i := pscl[i] + [Entry(w.vaddr, w.data, w.level)]];
      if accept {
        mshr := mshr + [NextStep(w)];
        finished := finished[1..];
      }
      Runs.LevelsOk(cfg, State());
    }

    /** get_span_p over the ready finished walks, which stops at the first refused read. */
    method FillFinished(n: nat, accepts: nat -> bool, k: nat)
      requires Valid() && n <= |finished|
      modifies this`mshr, this`finished, this`pscl
      ensures Valid()
      ensures old(Fillable(cfg, State())) && State() == FillFrom(cfg, old(State()), n, accepts, k)
      decreases n
    {
      hide Runs.PtwInv, FillOne, FillPscl, FillFrom, Fillable;
      ghost var s := State();
      Runs.LevelsOk(cfg, s);
      FillFromStep(cfg, s, n, accepts, k);
      if n > 0 {
        FillNext(accepts(k));
        if accepts(k) {
          assert State() == FillOne(cfg, s);
          FillFinished(n - 1, accepts, k + 1);
        }
      }
    }

    method AnswerAndFill(y: Cycle)
      requires Valid()
      modifies this`mshr, this`finished, this`completed, this`answers, this`pscl
      ensures Valid()
      ensures old(Fillable(cfg, State())) && State() == Advance(cfg, old(State()), y)
    {
      hide Runs.PtwInv, SpanLen, FillFrom, Fillable;
      Runs.LevelsOk(cfg, State());
      var c := SpanLen(completed, cfg.maxFill, (w: Walk) => IsReady(w, y.now));
      Runs.CompleteKeeps(cfg, State(), c);
      answers := answers + completed[..c];
      completed := completed[c..];
      var n := SpanLen(finished, cfg.maxFill - c, (w: Walk) => IsReady(w, y.now));
      FillFinished(n, y.accepts, 0);
    }

    method AcceptRead(x: Request, hits: seq<Option<Entry>>)
      requires Valid() && PsclOk(cfg, pscl) && ReadOk(cfg, pscl, (x, hits))
      modifies this`mshr, this`accepted
      ensures Valid() && PsclOk(cfg, pscl)
      ensures EntryOk(cfg, WalkInit(cfg, x, hits)) && State() == Accept(cfg, old(State()), x, hits)
    {
      hide Runs.PtwInv, PsclOk, StartAddress, OffsetOf, PageOf;
      Runs.ReadKeeps(cfg, State(), x, hits);
      VaddrPage(cfg, x.vaddr);
      var e := WalkInit(cfg, x, hits);
      var address := StartAddress(cfg.g, e.ptwAddr, OffsetOf(cfg.g, PageOf(cfg, x.vaddr), e.level));
      mshr := mshr + [Walk(accepted, x.vaddr, address, e.level, 0, 0, x, e.level, 1, None)];
      accepted := accepted + 1;
    }

    method AcceptReads(rs: seq<(Request, seq<Option<Entry>>)>)
      requires Valid() && PsclOk(cfg, pscl) && forall i :: 0 <= i < |rs| ==> ReadOk(cfg, pscl, rs[i])
      modifies this`mshr, this`accepted
      ensures Valid() && State() == ReadAll(cfg, old(State()), rs)
      decreases |rs|
    {
      if rs != [] {
        assert ReadOk(cfg, pscl, rs[0]);
        hide Runs.PtwInv, Accept, PsclOk, ReadOk;
        AcceptRead(rs[0].0, rs[0].1);
        AcceptReads(rs[1..]);
      }
    }

    method FinishAll(addresses: seq<nat>, now: int, warmup: bool)
      requires Valid()
      modifies vmem, this`mshr, this`completed, this`finished
      ensures Valid()
      ensures old(VirtualMemory.Inv(cfg.g, vmem.State()) && AllShaped(cfg, mshr))
      ensures State() == FinishPackets(cfg, old(State()), addresses, now, warmup)
    {
      hide Runs.PtwInv, VirtualMemory.Inv, AllShaped, FinishPacket, Config.Valid;
      ghost var s := State();
      Runs.FinishPacketsKeep(cfg, s, addresses, now, warmup);
      Runs.InvParts(cfg, s);
      assert addresses[0..] == addresses;
      for i := 0 to |addresses|
        invariant Valid() && VirtualMemory.Inv(cfg.g, vmem.State()) && AllShaped(cfg, mshr)
        invariant FinishPackets(cfg, State(), addresses[i..], now, warmup) ==
          FinishPackets(cfg, s, addresses, now, warmup)
      {
        assert addresses[i..][0] == addresses[i] && addresses[i..][1..] == addresses[i + 1..];
        FinishReturned(addresses[i], now, warmup);
        Runs.InvParts(cfg, State());
        Runs.FinishPacketsKeep(cfg, State(), [], now, warmup);
      }
    }

    /** One cycle; virtual memory is as its other users left it. */
    method Operate(y: Cycle)
      requires Valid() && y.vm == vmem.State() && Runs.CycleOk(cfg, State(), y)
      modifies Repr()
      ensures Valid()
      ensures old(Runs.PtwInv(cfg, State())) && State() == Runs.Operate(cfg, old(State()), y)
    {
      hide Runs.PtwInv, FinishPackets, Advance, ReadAll, ReadOk, PsclOk, VirtualMemory.Inv;
      ghost var s := State();
      assert s.(vm := y.vm) == s;
      FinishAll(y.returned, y.now, y.warmup);
      AnswerAndFill(y);
      assert State() == Runs.BeforeReads(cfg, s, y);
      AcceptReads(y.requests);
    }
  }

  lemma FillFromStep(cfg: Config, s: Ptw, n: nat, accepts: nat -> bool, k: nat)
    requires n <= |s.finished| && Fillable(cfg, s)
    ensures n == 0 ==> FillFrom(cfg, s, n, accepts, k) == s
    ensures n > 0 && accepts(k) ==>
      && Fillable(cfg, FillOne(cfg, s))
      && FillFrom(cfg, s, n, accepts, k) == FillFrom(cfg, FillOne(cfg, s), n - 1, accepts, k + 1)
    ensures n > 0 && !accepts(k) ==> FillFrom(cfg, s, n, accepts, k) == FillPscl(cfg, s, s.finished[0])
  {
  }

  lemma SelectStep(cfg: Config, all: seq<Walk>, block: nat, i: nat, rest: seq<Walk>, matched: seq<Walk>)
    requires i < |all|
    ensures var m := Matches(cfg, all[i], block);
      && rest + Select(cfg, all[i..], block, false) ==
        (if m then rest else rest + [all[i]]) + Select(cfg, all[i + 1..], block, false)
      && matched + Select(cfg, all[i..], block, true) ==
        (if m then matched + [all[i]] else matched) + Select(cfg, all[i + 1..], block, true)
  {
    assert all[i..][0] == all[i] && all[i..][1..] == all[i + 1..];
    SelectCons(cfg, all[i..], block, true);
    SelectCons(cfg, all[i..], block, false);
    hide Select;
  }

  lemma SelectCons(cfg: Config, s: seq<Walk>, block: nat, want: bool)
    requires s != []
    ensures Select(cfg, s, block, want) ==
      (if Matches(cfg, s[0], block) == want then [s[0]] else []) + Select(cfg, s[1..], block, want)
  {
  }
}
