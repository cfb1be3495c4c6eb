/** Which request each walk serves, over whole runs of the page table walker. */
module PageTableWalkerAnswers {
  import opened Sequences
  import opened Bits
  import opened VirtualMemory
  import Memories = VirtualMemoryRuns
  import opened PageTableWalker
  import opened PageTableWalkerRuns

  /** The requests accepted in the cycles `ys`, in order; a token is an index into it. */
  function Asked(ys: seq<Cycle>): seq<Request> {
    if ys == [] then [] else Asked(ys[..|ys| - 1]) + Requests(ys[|ys| - 1].requests)
  }

  function Requests(rs: seq<(Request, seq<Option<Entry>>)>): (r: seq<Request>)
    ensures |r| == |rs| && forall i :: 0 <= i < |rs| ==> r[i] == rs[i].0
  {
    seq(|rs|, i requires 0 <= i < |rs| => rs[i].0)
  }

  /** A walk keeps the request that its token names, and walks for its address. */
  ghost predicate Serves(asked: seq<Request>, w: Walk) {
    w.token < |asked| && w.req == asked[w.token] && w.vaddr == w.req.vaddr
  }

  ghost predicate AllServe(asked: seq<Request>, ws: seq<Walk>) {
    forall i :: 0 <= i < |ws| ==> Serves(asked, ws[i])
  }

  ghost predicate Serving(asked: seq<Request>, s: Ptw) {
    && s.accepted == |asked|
    && AllServe(asked, s.mshr) && AllServe(asked, s.finished) && AllServe(asked, s.completed)
      && AllServe(asked, s.answers)
  }

  // ---- each step ----

  lemma SelectServes(cfg: Config, asked: seq<Request>, s: seq<Walk>, block: nat, want: bool)
    requires AllServe(asked, s)
    ensures AllServe(asked, Select(cfg, s, block, want))
  {
    hide Serves;
    var r := Select(cfg, s, block, want);
    forall i | 0 <= i < |r| ensures Serves(asked, r[i]) { assert r[i] in r; }
  }

  /** Finishing a step leaves the walk's token, request and address alone. */
  lemma FinishWalkServes(cfg: Config, asked: seq<Request>, vm: Vm, w: Walk, now: int, warmup: bool)
    requires cfg.Valid() && Shaped(cfg.g, vm) && WalkShaped(cfg, w) && Serves(asked, w)
    ensures Serves(asked, FinishWalk(cfg, vm, w, now, warmup).1)
  {
    hide Config.Valid, Shaped, WalkShaped, VaToPa, GetPtePa, Shl;
  }

  lemma {:induction false} FinishWalksServe(cfg: Config, asked: seq<Request>, s: Ptw, ws: seq<Walk>, now: int,
      warmup: bool)
    requires cfg.Valid() && VirtualMemory.Inv(cfg.g, s.vm) && AllShaped(cfg, ws) && Serving(asked, s)
    requires AllServe(asked, ws)
    ensures Serving(asked, FinishWalks(cfg, s, ws, now, warmup))
    decreases |ws|
  {
    hide VirtualMemory.Inv, Config.Valid, Shaped, FinishWalk, Serves, WalkShaped;
    if ws != [] {
      Memories.InvShaped(cfg.g, s.vm);
      var (vm, w) := FinishWalk(cfg, s.vm, ws[0], now, warmup);
      FinishWalkKeeps(cfg, s.vm, ws[0], now, warmup);
      FinishWalkServes(cfg, asked, s.vm, ws[0], now, warmup);
      var t := if w.level == 0 then s.(vm := vm, completed := s.completed + [w])
        else s.(vm := vm, finished := s.finished + [w]);
      FinishWalksServe(cfg, asked, t, ws[1..], now, warmup);
    }
  }

  lemma {:induction false} FinishPacketsServe(cfg: Config, asked: seq<Request>, s: Ptw, addresses: seq<nat>, now: int,
      warmup: bool)
    requires cfg.Valid() && VirtualMemory.Inv(cfg.g, s.vm) && AllShaped(cfg, s.mshr) && Serving(asked, s)
    ensures Serving(asked, FinishPackets(cfg, s, addresses, now, warmup))
    decreases |addresses|
  {
    hide VirtualMemory.Inv, Config.Valid, AllShaped, FinishWalks, Select, AllServe;
    if addresses != [] {
      var block := Shr(addresses[0], cfg.blockBits);
      SelectShaped(cfg, s.mshr, block, true);
      SelectServes(cfg, asked, s.mshr, block, true);
      SelectServes(cfg, asked, s.mshr, block, false);
      FinishWalksServe(cfg, asked, s.(mshr := Select(cfg, s.mshr, block, false)), Select(cfg, s.mshr, block, true), now,
        warmup);
      FinishKeepsMshr(cfg, s, addresses[0], now, warmup);
      FinishPacketsServe(cfg, asked, FinishPacket(cfg, s, addresses[0], now, warmup), addresses[1..], now, warmup);
    }
  }

  lemma CompleteServes(asked: seq<Request>, s: Ptw, c: nat)
    requires Serving(asked, s) && c <= |s.completed|
    ensures Serving(asked, Complete(s, c))
  {
    hide Serves;
  }

  lemma FillOneServes(cfg: Config, asked: seq<Request>, s: Ptw)
    requires s.finished != [] && 1 <= s.finished[0].level <= cfg.N() && |s.pscl| == cfg.N() && Serving(asked, s)
    ensures Serving(asked, FillOne(cfg, s)) && Serving(asked, FillPscl(cfg, s, s.finished[0]))
  {
    assert Serves(asked, s.finished[0]) && Serves(asked, NextStep(s.finished[0]));
    hide Serves, NextStep;
  }

  lemma {:induction false} FillFromServes(cfg: Config, asked: seq<Request>, s: Ptw, n: nat, accepts: nat -> bool,
      k: nat)
    requires n <= |s.finished| && |s.pscl| == cfg.N() && Serving(asked, s)
    requires forall i :: 0 <= i < n ==> 1 <= s.finished[i].level <= cfg.N()
    ensures Serving(asked, FillFrom(cfg, s, n, accepts, k))
    decreases n
  {
    hide Serving, FillOne, FillPscl;
    if n > 0 {
      FillOneServes(cfg, asked, s);
      if accepts(k) { FillFromServes(cfg, asked, FillOne(cfg, s), n - 1, accepts, k + 1); }
    }
  }

  lemma AdvanceServes(cfg: Config, asked: seq<Request>, s: Ptw, y: Cycle)
    requires Fillable(cfg, s) && Serving(asked, s)
    ensures Serving(asked, Advance(cfg, s, y))
  {
    hide Serving, FillFrom, SpanLen, IsReady;
    var c := SpanLen(s.completed, cfg.maxFill, (w: Walk) => IsReady(w, y.now));
    CompleteServes(asked, s, c);
    var n := SpanLen(s.finished, cfg.maxFill - c, (w: Walk) => IsReady(w, y.now));
    FillFromServes(cfg, asked, Complete(s, c), n, y.accepts, 0);
  }

  lemma AskMore(asked: seq<Request>, more: seq<Request>, ws: seq<Walk>)
    requires AllServe(asked, ws)
    ensures AllServe(asked + more, ws)
  {
    assert forall i :: 0 <= i < |ws| ==> Serves(asked, ws[i]);
  }

  /** A new walk serves the next request. */
  lemma AcceptServes(cfg: Config, asked: seq<Request>, s: Ptw, x: Request, hits: seq<Option<Entry>>)
    requires cfg.Valid() && IsVaddr(x.vaddr) && EntryOk(cfg, WalkInit(cfg, x, hits)) && Serving(asked, s)
    ensures Serving(asked + [x], Accept(cfg, s, x, hits))
  {
    hide Config.Valid, StartAddress, OffsetOf, PageOf, WalkInit, EntryOk;
    assert Serves(asked + [x], HandleRead(cfg, s, x, hits));
    hide HandleRead, Serves;
    AskMore(asked, [x], s.mshr);
    AskMore(asked, [x], s.finished);
    AskMore(asked, [x], s.completed);
    AskMore(asked, [x], s.answers);
  }

  lemma {:induction false} ReadAllServe(cfg: Config, asked: seq<Request>, s: Ptw,
      rs: seq<(Request, seq<Option<Entry>>)>)
    requires cfg.Valid() && PsclOk(cfg, s.pscl) && (forall i :: 0 <= i < |rs| ==> ReadOk(cfg, s.pscl, rs[i]))
    requires Serving(asked, s)
    ensures Serving(asked + Requests(rs), ReadAll(cfg, s, rs))
    decreases |rs|
  {
    hide Serving, Config.Valid, WalkInit, EntryOk, HandleRead;
    if rs == [] {
      assert asked + Requests(rs) == asked;
    } else {
      assert ReadOk(cfg, s.pscl, rs[0]);
      WalkInitOk(cfg, s.pscl, rs[0].0, rs[0].1);
      AcceptServes(cfg, asked, s, rs[0].0, rs[0].1);
      ReadAllServe(cfg, asked + [rs[0].0], Accept(cfg, s, rs[0].0, rs[0].1), rs[1..]);
      assert asked + [rs[0].0] + Requests(rs[1..]) == asked + Requests(rs);
    }
  }

  lemma {:induction false} OperateServes(cfg: Config, asked: seq<Request>, s: Ptw, y: Cycle)
    requires PtwInv(cfg, s) && CycleOk(cfg, s, y) && Serving(asked, s)
    ensures Serving(asked + Requests(y.requests), Operate(cfg, s, y))
  {
    hide PtwInv, AllServe, FinishPackets, Advance, ReadAll, PsclOk, ReadOk, Fillable, Requests, AllShaped,
      VirtualMemory.Inv, Config.Valid;
    VmKeeps(cfg, s, y);
    var t := s.(vm := y.vm);
    InvParts(cfg, t);
    FinishPacketsKeep(cfg, t, y.returned, y.now, y.warmup);
    FinishPacketsServe(cfg, asked, t, y.returned, y.now, y.warmup);
    var u := FinishPackets(cfg, t, y.returned, y.now, y.warmup);
    AdvanceKeeps(cfg, u, y);
    AdvanceServes(cfg, asked, u, y);
    ReadAllServe(cfg, asked, BeforeReads(cfg, s, y), y.requests);
  }

  // ---- runs ----

  lemma {:induction false} RunServes(cfg: Config, vm: Vm, ys: seq<Cycle>)
    requires RunOk(cfg, vm, ys)
    ensures Serving(Asked(ys), Run(cfg, vm, ys))
    decreases |ys|
  {
    hide PtwInv, CycleOk, Operate, Serves, VirtualMemory.Inv, Config.Valid, Requests;
    if ys != [] {
      var n := |ys| - 1;
      RunServes(cfg, vm, ys[..n]);
      OperateServes(cfg, Asked(ys[..n]), Run(cfg, vm, ys[..n]), ys[n]);
    }
  }

  /** Every answer goes to the return queues of the request its token names, wakes that
      request's instructions, and carries the translation va_to_pa gives for its address. */
  lemma {:induction false} AnswersServeTheirRequests(cfg: Config, vm: Vm, ys: seq<Cycle>, i: nat, refill: seq<Page>)
    requires RunOk(cfg, vm, ys) && i < |Run(cfg, vm, ys).answers|
    ensures var s := Run(cfg, vm, ys);
      var w := s.answers[i];
      && s.accepted == |Asked(ys)| && w.token < |Asked(ys)| && w.req == Asked(ys)[w.token]
      && s.vm.free != [] && VaToPa(s.vm, cfg.cpu, PageOf(cfg, w.req.vaddr), refill) ==
        (s.vm, Shr(w.data, cfg.g.pageBits), false)
  {
    hide Run, RunOk, VaToPa, Asked;
    RunServes(cfg, vm, ys);
    assert Serves(Asked(ys), Run(cfg, vm, ys).answers[i]);
    AnswersAreTranslations(cfg, vm, ys, i, refill);
  }
}
