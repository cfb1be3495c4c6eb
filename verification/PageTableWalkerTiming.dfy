/** Which cycle moves each walk of the page table walker, and how long each step takes. */
module PageTableWalkerTiming {
  import opened Sequences
  import opened Bits
  import opened VirtualMemory
  import Memories = VirtualMemoryRuns
  import opened PageTableWalker
  import opened PageTableWalkerRuns

  // ---- the statements ----

  /** When what the last returned read gave may be used: after the penalty, if the step created
      the entry or the frame, and the walker's own latency outside warmup. */
  ghost predicate Timed(cfg: Config, w: Walk) {
    && w.back.Some?
    && w.ready == w.back.value.at + (if w.back.value.created then cfg.minorPenalty else 0)
      + (if w.back.value.warm then 0 else cfg.hitLatency)
  }

  ghost predicate AllTimed(cfg: Config, ws: seq<Walk>) {
    forall w :: w in ws ==> Timed(cfg, w)
  }

  ghost predicate Timely(cfg: Config, s: Ptw) {
    AllTimed(cfg, s.finished) && AllTimed(cfg, s.completed) && AllTimed(cfg, s.answers)
  }

  /** The step has taken its time. */
  ghost predicate Took(cfg: Config, w: Walk, now: int) {
    Timed(cfg, w) && w.ready <= now
  }

  ghost predicate AllTook(cfg: Config, ws: seq<Walk>, now: int) {
    forall w :: w in ws ==> Took(cfg, w, now)
  }

  /** One of the returned addresses is in the block of `a`. */
  ghost predicate BlockReturned(cfg: Config, returned: seq<nat>, a: nat) {
    exists i :: 0 <= i < |returned| && returned[i] / Pow2(cfg.blockBits) == a / Pow2(cfg.blockBits)
  }

  ghost predicate BackAt(w: Walk, now: int) {
    w.back.Some? && w.back.value.at == now
  }

  /** The walk is still waiting for its read, and is nowhere else. */
  ghost predicate Waiting(s: Ptw, w: Walk) {
    && w in s.mshr && (forall u :: u in s.mshr && u.token == w.token ==> u == w)
    && Elsewhere(s.finished, w.token) && Elsewhere(s.completed, w.token) && Elsewhere(s.answers, w.token)
  }

  ghost predicate Elsewhere(ws: seq<Walk>, t: nat) {
    forall u :: u in ws ==> u.token != t
  }

  ghost predicate AllLater(ws: seq<Walk>, t: nat, sent: nat, now: int) {
    forall u :: u in ws && u.token == t ==> u.sent >= sent && BackAt(u, now)
  }

  /** The walk's read has returned now: wherever it is, it has that time, and if it waits
      again, it is for a later read. */
  ghost predicate Left(s: Ptw, w: Walk, now: int) {
    && AllLater(s.mshr, w.token, w.sent + 1, now) && AllLater(s.finished, w.token, w.sent, now)
    && AllLater(s.completed, w.token, w.sent, now) && AllLater(s.answers, w.token, w.sent, now)
  }

  // ---- the shift of block_number ----

  lemma ShrIsDivision(v: nat, n: nat)
    ensures Pow2(n) > 0 && Shr(v, n) == v / Pow2(n)
  {
    hide Pow2, Shr, Low;
    ShiftIsDivision(v, n);
    QuotientIsUnique(v, Shr(v, n), Pow2(n), Low(v, n));
  }

  lemma QuotientIsUnique(v: nat, q: nat, p: nat, r: nat)
    requires v == q * p + r && r < p
    ensures q == v / p
  {
    var d := v / p;
    if q < d { Multiple(q, d - q, p); }
    if d < q { Multiple(d, q - d, p); }
  }

  lemma Multiple(a: nat, d: nat, p: nat)
    requires d > 0
    ensures (a + d) * p >= a * p + p
  {
    assert (a + d) * p == a * p + d * p;
  }

  // ---- finish_packet ----

  /** What finishing a step does to the walk. */
  lemma FinishWalkFields(cfg: Config, vm: Vm, w: Walk, now: int, warmup: bool)
    requires cfg.Valid() && VirtualMemory.Inv(cfg.g, vm) && Shaped(cfg.g, vm) && WalkShaped(cfg, w)
    ensures var u := FinishWalk(cfg, vm, w, now, warmup).1;
      && u.token == w.token && u.sent == w.sent && u.level == w.level && Timed(cfg, u)
      && u.back.value.at == now && u.back.value.warm == warmup
  {
    hide VirtualMemory.Inv, Shaped, Config.Valid, Shl, AddTable, Pop, EntryAddress, NewTable, PageOf, IsVaddr;
  }

  lemma {:induction false} FinishWalksTimed(cfg: Config, s: Ptw, ws: seq<Walk>, now: int, warmup: bool)
    requires cfg.Valid() && VirtualMemory.Inv(cfg.g, s.vm) && AllShaped(cfg, ws) && Timely(cfg, s)
    ensures Timely(cfg, FinishWalks(cfg, s, ws, now, warmup))
    decreases |ws|
  {
    hide VirtualMemory.Inv, Config.Valid, Shaped, FinishWalk, Timed, WalkShaped;
    if ws != [] {
      Memories.InvShaped(cfg.g, s.vm);
      var (vm, w) := FinishWalk(cfg, s.vm, ws[0], now, warmup);
      FinishWalkKeeps(cfg, s.vm, ws[0], now, warmup);
      FinishWalkFields(cfg, s.vm, ws[0], now, warmup);
      var t := if w.level == 0 then s.(vm := vm, completed := s.completed + [w])
        else s.(vm := vm, finished := s.finished + [w]);
      FinishWalksTimed(cfg, t, ws[1..], now, warmup);
    }
  }

  /** Walks that are not `x` leave it where it is. */
  lemma {:induction false} FinishOthers(cfg: Config, s: Ptw, ws: seq<Walk>, now: int, warmup: bool, x: Walk)
    requires cfg.Valid() && VirtualMemory.Inv(cfg.g, s.vm) && AllShaped(cfg, ws) && Waiting(s, x)
    requires Elsewhere(ws, x.token)
    ensures Waiting(FinishWalks(cfg, s, ws, now, warmup), x)
    decreases |ws|
  {
    hide VirtualMemory.Inv, Config.Valid, Shaped, FinishWalk, WalkShaped;
    if ws != [] {
      Memories.InvShaped(cfg.g, s.vm);
      var (vm, w) := FinishWalk(cfg, s.vm, ws[0], now, warmup);
      FinishWalkKeeps(cfg, s.vm, ws[0], now, warmup);
      FinishWalkFields(cfg, s.vm, ws[0], now, warmup);
      assert ws[0] in ws;
      var t := if w.level == 0 then s.(vm := vm, completed := s.completed + [w])
        else s.(vm := vm, finished := s.finished + [w]);
      FinishOthers(cfg, t, ws[1..], now, warmup, x);
    }
  }

  lemma {:induction false} FinishLeaves(cfg: Config, s: Ptw, ws: seq<Walk>, now: int, warmup: bool, x: Walk)
    requires cfg.Valid() && VirtualMemory.Inv(cfg.g, s.vm) && AllShaped(cfg, ws) && Left(s, x, now)
    requires forall u :: u in ws && u.token == x.token ==> u.sent >= x.sent
    ensures Left(FinishWalks(cfg, s, ws, now, warmup), x, now)
    decreases |ws|
  {
    hide VirtualMemory.Inv, Config.Valid, Shaped, FinishWalk, WalkShaped;
    if ws != [] {
      Memories.InvShaped(cfg.g, s.vm);
      var (vm, w) := FinishWalk(cfg, s.vm, ws[0], now, warmup);
      FinishWalkKeeps(cfg, s.vm, ws[0], now, warmup);
      FinishWalkFields(cfg, s.vm, ws[0], now, warmup);
      assert ws[0] in ws;
      var t := if w.level == 0 then s.(vm := vm, completed := s.completed + [w])
        else s.(vm := vm, finished := s.finished + [w]);
      FinishLeaves(cfg, t, ws[1..], now, warmup, x);
    }
  }

  /** Every walk is selected or not, by the block its read is in. */
  lemma {:induction false} SelectedByBlock(cfg: Config, s: seq<Walk>, address: nat, want: bool, w: Walk)
    requires w in s
    ensures w in Select(cfg, s, Shr(address, cfg.blockBits), want) <==>
      (address / Pow2(cfg.blockBits) == w.address / Pow2(cfg.blockBits)) == want
  {
    ShrIsDivision(address, cfg.blockBits);
    ShrIsDivision(w.address, cfg.blockBits);
    hide Shr, Pow2;
    if s[0] != w { SelectedByBlock(cfg, s[1..], address, want, w); }
    else if w in s[1..] { SelectedByBlock(cfg, s[1..], address, want, w); }
    else { NotSelected(cfg, s[1..], Shr(address, cfg.blockBits), want, w); }
  }

  lemma NotSelected(cfg: Config, s: seq<Walk>, block: nat, want: bool, w: Walk)
    requires w !in s
    ensures w !in Select(cfg, s, block, want)
  {
  }

  lemma {:induction false} PacketReturns(cfg: Config, s: Ptw, address: nat, now: int, warmup: bool, w: Walk)
    requires cfg.Valid() && VirtualMemory.Inv(cfg.g, s.vm) && AllShaped(cfg, s.mshr) && Waiting(s, w)
    ensures var t := FinishPacket(cfg, s, address, now, warmup);
      if address / Pow2(cfg.blockBits) == w.address / Pow2(cfg.blockBits) then Left(t, w, now) else Waiting(t, w)
  {
    hide VirtualMemory.Inv, Config.Valid, AllShaped, FinishWalks, Shr, Pow2, Matches;
    var block := Shr(address, cfg.blockBits);
    var rest, ws := Select(cfg, s.mshr, block, false), Select(cfg, s.mshr, block, true);
    SelectShaped(cfg, s.mshr, block, true);
    SelectedByBlock(cfg, s.mshr, address, true, w);
    SelectedByBlock(cfg, s.mshr, address, false, w);
    hide Select;
    var u := s.(mshr := rest);
    if address / Pow2(cfg.blockBits) == w.address / Pow2(cfg.blockBits) {
      assert Left(u, w, now);
      FinishLeaves(cfg, u, ws, now, warmup, w);
    } else {
      assert Waiting(u, w);
      FinishOthers(cfg, u, ws, now, warmup, w);
    }
  }

  lemma PacketLeaves(cfg: Config, s: Ptw, address: nat, now: int, warmup: bool, w: Walk)
    requires cfg.Valid() && VirtualMemory.Inv(cfg.g, s.vm) && AllShaped(cfg, s.mshr) && Left(s, w, now)
    ensures Left(FinishPacket(cfg, s, address, now, warmup), w, now)
  {
    hide VirtualMemory.Inv, Config.Valid, AllShaped, FinishWalks, Shr, Pow2, Matches;
    var block := Shr(address, cfg.blockBits);
    var rest, ws := Select(cfg, s.mshr, block, false), Select(cfg, s.mshr, block, true);
    SelectShaped(cfg, s.mshr, block, true);
    hide Select;
    FinishLeaves(cfg, s.(mshr := rest), ws, now, warmup, w);
  }

  lemma {:induction false} PacketsLeave(cfg: Config, s: Ptw, returned: seq<nat>, now: int, warmup: bool, w: Walk)
    requires cfg.Valid() && VirtualMemory.Inv(cfg.g, s.vm) && AllShaped(cfg, s.mshr) && Left(s, w, now)
    ensures Left(FinishPackets(cfg, s, returned, now, warmup), w, now)
    decreases |returned|
  {
    hide VirtualMemory.Inv, Config.Valid, AllShaped, FinishPacket, Left;
    if returned != [] {
      FinishKeepsMshr(cfg, s, returned[0], now, warmup);
      PacketLeaves(cfg, s, returned[0], now, warmup, w);
      PacketsLeave(cfg, FinishPacket(cfg, s, returned[0], now, warmup), returned[1..], now, warmup, w);
    }
  }

  lemma {:induction false} PacketsReturn(cfg: Config, s: Ptw, returned: seq<nat>, now: int, warmup: bool, w: Walk)
    requires cfg.Valid() && VirtualMemory.Inv(cfg.g, s.vm) && AllShaped(cfg, s.mshr) && Waiting(s, w)
    ensures var t := FinishPackets(cfg, s, returned, now, warmup);
      if BlockReturned(cfg, returned, w.address) then Left(t, w, now) else Waiting(t, w)
    decreases |returned|
  {
    hide VirtualMemory.Inv, Config.Valid, AllShaped, FinishPacket, Left, Waiting, Pow2;
    ShrIsDivision(w.address, cfg.blockBits);
    if returned != [] {
      FinishKeepsMshr(cfg, s, returned[0], now, warmup);
      PacketReturns(cfg, s, returned[0], now, warmup, w);
      var u := FinishPacket(cfg, s, returned[0], now, warmup);
      if returned[0] / Pow2(cfg.blockBits) == w.address / Pow2(cfg.blockBits) {
        PacketsLeave(cfg, u, returned[1..], now, warmup, w);
      } else {
        PacketsReturn(cfg, u, returned[1..], now, warmup, w);
        BlockLater(cfg, returned, w.address);
      }
    }
  }

  lemma BlockLater(cfg: Config, returned: seq<nat>, a: nat)
    requires Pow2(cfg.blockBits) > 0 && returned != []
    requires returned[0] / Pow2(cfg.blockBits) != a / Pow2(cfg.blockBits)
    ensures BlockReturned(cfg, returned, a) == BlockReturned(cfg, returned[1..], a)
  {
    hide Pow2;
    if BlockReturned(cfg, returned, a) {
      var i :| 0 <= i < |returned| && returned[i] / Pow2(cfg.blockBits) == a / Pow2(cfg.blockBits);
      assert returned[1..][i - 1] / Pow2(cfg.blockBits) == a / Pow2(cfg.blockBits);
    }
  }

  lemma {:induction false} PacketsTimed(cfg: Config, s: Ptw, returned: seq<nat>, now: int, warmup: bool)
    requires cfg.Valid() && VirtualMemory.Inv(cfg.g, s.vm) && AllShaped(cfg, s.mshr) && Timely(cfg, s)
    ensures Timely(cfg, FinishPackets(cfg, s, returned, now, warmup))
    decreases |returned|
  {
    hide VirtualMemory.Inv, Config.Valid, AllShaped, FinishWalks, Select, Shr, AllTimed;
    if returned != [] {
      var block := Shr(returned[0], cfg.blockBits);
      SelectShaped(cfg, s.mshr, block, true);
      FinishWalksTimed(cfg, s.(mshr := Select(cfg, s.mshr, block, false)), Select(cfg, s.mshr, block, true), now,
        warmup);
      FinishKeepsMshr(cfg, s, returned[0], now, warmup);
      PacketsTimed(cfg, FinishPacket(cfg, s, returned[0], now, warmup), returned[1..], now, warmup);
    }
  }

  // ---- completions and handle_fill ----

  /** What one cycle may have done since `s`: given answers and sent reads whose steps took
      their time, and kept all that was not due. */
  ghost predicate Since(cfg: Config, s: Ptw, t: Ptw, now: int) {
    && |s.answers| <= |t.answers| && t.answers[..|s.answers|] == s.answers
    && AllTook(cfg, t.answers[|s.answers|..], now)
    && (forall w :: w in t.mshr && w !in s.mshr ==> Took(cfg, w, now))
    && (forall w :: w in s.finished && w.ready > now ==> w in t.finished)
    && (forall w :: w in s.completed && w.ready > now ==> w in t.completed)
  }

  lemma FillOneMoves(cfg: Config, s: Ptw, u: Ptw, now: int)
    requires Since(cfg, s, u, now) && Timely(cfg, u)
    requires u.finished != [] && 1 <= u.finished[0].level <= cfg.N() && |u.pscl| == cfg.N()
    requires IsReady(u.finished[0], now)
    ensures Since(cfg, s, FillOne(cfg, u), now) && Timely(cfg, FillOne(cfg, u))
    ensures Since(cfg, s, FillPscl(cfg, u, u.finished[0]), now) && Timely(cfg, FillPscl(cfg, u, u.finished[0]))
  {
    var w := u.finished[0];
    assert u.finished == [w] + u.finished[1..];
    assert Timed(cfg, w) && Timed(cfg, NextStep(w));
    hide Timed;
  }

  lemma FillOneTracks(cfg: Config, u: Ptw, now: int, x: Walk)
    requires u.finished != [] && 1 <= u.finished[0].level <= cfg.N() && |u.pscl| == cfg.N()
    ensures Left(u, x, now) ==> Left(FillOne(cfg, u), x, now) && Left(FillPscl(cfg, u, u.finished[0]), x, now)
    ensures Waiting(u, x) ==> Waiting(FillOne(cfg, u), x) && Waiting(FillPscl(cfg, u, u.finished[0]), x)
  {
    assert u.finished[0] in u.finished;
  }

  lemma {:induction false} FillFromMoves(cfg: Config, s: Ptw, u: Ptw, n: nat, accepts: nat -> bool, k: nat, now: int)
    requires n <= |u.finished| && |u.pscl| == cfg.N() && Since(cfg, s, u, now) && Timely(cfg, u)
    requires forall i :: 0 <= i < n ==> 1 <= u.finished[i].level <= cfg.N() && IsReady(u.finished[i], now)
    ensures Since(cfg, s, FillFrom(cfg, u, n, accepts, k), now) && Timely(cfg, FillFrom(cfg, u, n, accepts, k))
    ensures FillFrom(cfg, u, n, accepts, k).answers == u.answers
    ensures FillFrom(cfg, u, n, accepts, k).completed == u.completed
    decreases n
  {
    hide Since, Timely, IsReady;
    if n > 0 {
      FillOneMoves(cfg, s, u, now);
      if accepts(k) { FillFromMoves(cfg, s, FillOne(cfg, u), n - 1, accepts, k + 1, now); }
    }
  }

  lemma {:induction false} FillFromTracks(cfg: Config, u: Ptw, n: nat, accepts: nat -> bool, k: nat, now: int, x: Walk)
    requires n <= |u.finished| && |u.pscl| == cfg.N()
    requires forall i :: 0 <= i < n ==> 1 <= u.finished[i].level <= cfg.N()
    ensures Left(u, x, now) ==> Left(FillFrom(cfg, u, n, accepts, k), x, now)
    ensures Waiting(u, x) ==> Waiting(FillFrom(cfg, u, n, accepts, k), x)
    decreases n
  {
    hide Left, Waiting;
    if n > 0 {
      FillOneTracks(cfg, u, now, x);
      if accepts(k) { FillFromTracks(cfg, FillOne(cfg, u), n - 1, accepts, k + 1, now, x); }
    }
  }

  lemma CompleteMoves(cfg: Config, s: Ptw, u: Ptw, c: nat, now: int)
    requires Since(cfg, s, u, now) && Timely(cfg, u) && c <= |u.completed|
    requires forall i :: 0 <= i < c ==> IsReady(u.completed[i], now)
    ensures Since(cfg, s, Complete(u, c), now) && Timely(cfg, Complete(u, c))
  {
    hide Timed;
    var a, b := u.completed[..c], u.completed[c..];
    assert u.completed == a + b;
    forall w | w in a ensures Took(cfg, w, now) {
      var i :| 0 <= i < |a| && a[i] == w;
      assert u.completed[i] == w;
    }
    var n := |s.answers|;
    assert (u.answers + a)[n..] == u.answers[n..] + a;
  }

  lemma CompleteTracks(u: Ptw, c: nat, now: int, x: Walk)
    requires c <= |u.completed|
    ensures Left(u, x, now) ==> Left(Complete(u, c), x, now)
    ensures Waiting(u, x) ==> Waiting(Complete(u, c), x)
  {
    assert forall w :: w in u.completed[..c] || w in u.completed[c..] ==> w in u.completed;
  }

  /** Answers leave in order, as many as may. */
  ghost predicate NoneWaits(cfg: Config, s: Ptw, t: Ptw, now: int) {
    |t.answers| < |s.answers| + cfg.maxFill && t.completed != [] ==> t.completed[0].ready > now
  }

  lemma AdvanceMoves(cfg: Config, s: Ptw, u: Ptw, y: Cycle)
    requires Fillable(cfg, u) && Since(cfg, s, u, y.now) && Timely(cfg, u) && u.answers == s.answers
    ensures var t := Advance(cfg, u, y);
      Since(cfg, s, t, y.now) && Timely(cfg, t) && NoneWaits(cfg, s, t, y.now)
  {
    hide Since, Timely, FillFrom;
    var c := SpanLen(u.completed, cfg.maxFill, (w: Walk) => IsReady(w, y.now));
    CompleteMoves(cfg, s, u, c, y.now);
    var n := SpanLen(u.finished, cfg.maxFill - c, (w: Walk) => IsReady(w, y.now));
    FillFromMoves(cfg, s, Complete(u, c), n, y.accepts, 0, y.now);
  }

  lemma AdvanceTracks(cfg: Config, u: Ptw, y: Cycle, x: Walk)
    requires Fillable(cfg, u)
    ensures Left(u, x, y.now) ==> Left(Advance(cfg, u, y), x, y.now)
    ensures Waiting(u, x) ==> Waiting(Advance(cfg, u, y), x)
  {
    hide Left, Waiting, FillFrom, IsReady;
    var c := SpanLen(u.completed, cfg.maxFill, (w: Walk) => IsReady(w, y.now));
    CompleteTracks(u, c, y.now, x);
    var n := SpanLen(u.finished, cfg.maxFill - c, (w: Walk) => IsReady(w, y.now));
    FillFromTracks(cfg, Complete(u, c), n, y.accepts, 0, y.now, x);
  }

  // ---- handle_read ----

  /** Accepted reads are added at the end, under new tokens. */
  lemma {:induction false} ReadAllAdds(cfg: Config, s: Ptw, rs: seq<(Request, seq<Option<Entry>>)>)
    requires cfg.Valid() && PsclOk(cfg, s.pscl) && (forall i :: 0 <= i < |rs| ==> ReadOk(cfg, s.pscl, rs[i]))
    ensures var t := ReadAll(cfg, s, rs);
      && t.finished == s.finished && t.completed == s.completed && t.answers == s.answers
      && |s.mshr| <= |t.mshr| && t.mshr[..|s.mshr|] == s.mshr
      && forall i :: |s.mshr| <= i < |t.mshr| ==> t.mshr[i].token >= s.accepted
    decreases |rs|
  {
    hide Config.Valid, WalkInit, EntryOk, StartAddress, OffsetOf, PageOf;
    if rs != [] {
      assert ReadOk(cfg, s.pscl, rs[0]);
      WalkInitOk(cfg, s.pscl, rs[0].0, rs[0].1);
      hide ReadOk;
      var u := Accept(cfg, s, rs[0].0, rs[0].1);
      ReadAllAdds(cfg, u, rs[1..]);
      var t := ReadAll(cfg, s, rs);
      assert t.mshr[..|u.mshr|][..|s.mshr|] == s.mshr;
      assert t.mshr[|s.mshr|] == t.mshr[..|u.mshr|][|s.mshr|];
    }
  }

  // ---- a cycle ----

  lemma {:induction false} TokensElsewhere(ws: seq<Walk>, t: nat)
    ensures Tokens(ws)[t] == 0 <==> Elsewhere(ws, t)
  {
    if ws != [] {
      TokensElsewhere(ws[1..], t);
      assert ws[0] in ws;
    }
  }

  lemma {:induction false} TokensAlone(ws: seq<Walk>, w: Walk)
    requires w in ws && Tokens(ws)[w.token] == 1
    ensures forall u :: u in ws && u.token == w.token ==> u == w
  {
    TokensElsewhere(ws[1..], w.token);
    if ws[0].token != w.token { TokensAlone(ws[1..], w); }
  }

  lemma ConservedWaits(s: Ptw, w: Walk)
    requires Conserved(s) && w in s.mshr
    ensures Waiting(s, w) && w.token < s.accepted
  {
    assert Places(s, w.token) == if w.token < s.accepted then 1 else 0;
    TokensElsewhere(s.mshr, w.token);
    TokensElsewhere(s.finished, w.token);
    TokensElsewhere(s.completed, w.token);
    TokensElsewhere(s.answers, w.token);
    hide Tokens;
    assert Tokens(s.mshr)[w.token] == 1;
    TokensAlone(s.mshr, w);
  }

  /** Finishing keeps everything that has finished before, and sends no read. */
  lemma {:induction false} FinishWalksAdds(cfg: Config, s: Ptw, ws: seq<Walk>, now: int, warmup: bool)
    requires cfg.Valid() && VirtualMemory.Inv(cfg.g, s.vm) && AllShaped(cfg, ws)
    ensures var t := FinishWalks(cfg, s, ws, now, warmup);
      && t.mshr == s.mshr && t.answers == s.answers && t.accepted == s.accepted
      && (forall w :: w in s.finished ==> w in t.finished) && (forall w :: w in s.completed ==> w in t.completed)
    decreases |ws|
  {
    hide VirtualMemory.Inv, Config.Valid, Shaped, FinishWalk, WalkShaped;
    if ws != [] {
      Memories.InvShaped(cfg.g, s.vm);
      var (vm, w) := FinishWalk(cfg, s.vm, ws[0], now, warmup);
      FinishWalkKeeps(cfg, s.vm, ws[0], now, warmup);
      var t := if w.level == 0 then s.(vm := vm, completed := s.completed + [w])
        else s.(vm := vm, finished := s.finished + [w]);
      FinishWalksAdds(cfg, t, ws[1..], now, warmup);
    }
  }

  lemma {:induction false} PacketsAdd(cfg: Config, s: Ptw, returned: seq<nat>, now: int, warmup: bool)
    requires cfg.Valid() && VirtualMemory.Inv(cfg.g, s.vm) && AllShaped(cfg, s.mshr)
    ensures var t := FinishPackets(cfg, s, returned, now, warmup);
      && (forall w :: w in t.mshr ==> w in s.mshr) && t.answers == s.answers && t.accepted == s.accepted
      && (forall w :: w in s.finished ==> w in t.finished) && (forall w :: w in s.completed ==> w in t.completed)
    decreases |returned|
  {
    hide VirtualMemory.Inv, Config.Valid, AllShaped, FinishWalks, Shr;
    if returned != [] {
      var block := Shr(returned[0], cfg.blockBits);
      SelectShaped(cfg, s.mshr, block, true);
      var rest := Select(cfg, s.mshr, block, false);
      FinishWalksAdds(cfg, s.(mshr := rest), Select(cfg, s.mshr, block, true), now, warmup);
      FinishKeepsMshr(cfg, s, returned[0], now, warmup);
      assert forall w :: w in rest ==> w in s.mshr;
      hide Select;
      PacketsAdd(cfg, FinishPacket(cfg, s, returned[0], now, warmup), returned[1..], now, warmup);
    }
  }

  lemma SinceStart(cfg: Config, s: Ptw, t: Ptw, now: int)
    requires t.answers == s.answers && (forall w :: w in t.mshr ==> w in s.mshr)
    requires (forall w :: w in s.finished ==> w in t.finished) && (forall w :: w in s.completed ==> w in t.completed)
    ensures Since(cfg, s, t, now)
  {
  }

  lemma BeforeReadsMoves(cfg: Config, s: Ptw, y: Cycle)
    requires PtwInv(cfg, s) && VmOk(cfg, s, y) && Timely(cfg, s)
    ensures var t := BeforeReads(cfg, s, y);
      Since(cfg, s, t, y.now) && Timely(cfg, t) && NoneWaits(cfg, s, t, y.now)
  {
    hide PtwInv, VmOk, FinishPackets, Advance, Fillable, AllShaped, PsclOk, Since, AllTimed, NoneWaits;
    VmKeeps(cfg, s, y);
    var t := s.(vm := y.vm);
    InvParts(cfg, t);
    FinishPacketsKeep(cfg, t, y.returned, y.now, y.warmup);
    PacketsAdd(cfg, t, y.returned, y.now, y.warmup);
    PacketsTimed(cfg, t, y.returned, y.now, y.warmup);
    var u := FinishPackets(cfg, t, y.returned, y.now, y.warmup);
    SinceStart(cfg, s, u, y.now);
    AdvanceKeeps(cfg, u, y);
    AdvanceMoves(cfg, s, u, y);
  }

  lemma BeforeReadsTracks(cfg: Config, s: Ptw, y: Cycle, w: Walk)
    requires PtwInv(cfg, s) && VmOk(cfg, s, y) && Waiting(s, w)
    ensures var t := BeforeReads(cfg, s, y);
      if BlockReturned(cfg, y.returned, w.address) then Left(t, w, y.now) else Waiting(t, w)
  {
    VmKeeps(cfg, s, y);
    var t := s.(vm := y.vm);
    assert Waiting(t, w);
    hide PtwInv, VmOk, FinishPackets, Advance, Fillable, AllShaped, PsclOk, Waiting, Left, BlockReturned;
    InvParts(cfg, t);
    FinishPacketsKeep(cfg, t, y.returned, y.now, y.warmup);
    PacketsReturn(cfg, t, y.returned, y.now, y.warmup, w);
    var u := FinishPackets(cfg, t, y.returned, y.now, y.warmup);
    AdvanceKeeps(cfg, u, y);
    AdvanceTracks(cfg, u, y, w);
  }

  lemma {:induction false} BeforeReadsAccepted(cfg: Config, s: Ptw, y: Cycle)
    requires PtwInv(cfg, s) && VmOk(cfg, s, y)
    ensures BeforeReads(cfg, s, y).accepted == s.accepted
  {
    hide PtwInv, VmOk, FinishPackets, Fillable, AllShaped, PsclOk, IsReady, FillFrom;
    VmKeeps(cfg, s, y);
    var t := s.(vm := y.vm);
    InvParts(cfg, t);
    FinishPacketsKeep(cfg, t, y.returned, y.now, y.warmup);
    PacketsAdd(cfg, t, y.returned, y.now, y.warmup);
    var u := FinishPackets(cfg, t, y.returned, y.now, y.warmup);
    AdvanceKeeps(cfg, u, y);
    AdvanceAccepted(cfg, u, y);
  }

  lemma AdvanceAccepted(cfg: Config, u: Ptw, y: Cycle)
    requires Fillable(cfg, u)
    ensures Advance(cfg, u, y).accepted == u.accepted
  {
    var c := SpanLen(u.completed, cfg.maxFill, (w: Walk) => IsReady(w, y.now));
    var n := SpanLen(u.finished, cfg.maxFill - c, (w: Walk) => IsReady(w, y.now));
    FillFromAccepted(cfg, Complete(u, c), n, y.accepts, 0);
  }

  lemma {:induction false} FillFromAccepted(cfg: Config, u: Ptw, n: nat, accepts: nat -> bool, k: nat)
    requires n <= |u.finished| && |u.pscl| == cfg.N()
    requires forall i :: 0 <= i < n ==> 1 <= u.finished[i].level <= cfg.N()
    ensures FillFrom(cfg, u, n, accepts, k).accepted == u.accepted
    decreases n
  {
    if n > 0 && accepts(k) { FillFromAccepted(cfg, FillOne(cfg, u), n - 1, accepts, k + 1); }
  }

  lemma OperateAdds(cfg: Config, s: Ptw, y: Cycle)
    requires PtwInv(cfg, s) && CycleOk(cfg, s, y)
    ensures var u, t := BeforeReads(cfg, s, y), Operate(cfg, s, y);
      && t.finished == u.finished && t.completed == u.completed && t.answers == u.answers
      && |u.mshr| <= |t.mshr| && t.mshr[..|u.mshr|] == u.mshr
      && forall i :: |u.mshr| <= i < |t.mshr| ==> t.mshr[i].token >= s.accepted
  {
    hide PtwInv, ReadOk, PsclOk, VmOk, ReadAll, Config.Valid, BeforeReads;
    ReadAllAdds(cfg, BeforeReads(cfg, s, y), y.requests);
    BeforeReadsAccepted(cfg, s, y);
  }

  lemma {:induction false} RunTimely(cfg: Config, vm: Vm, ys: seq<Cycle>)
    requires RunOk(cfg, vm, ys)
    ensures Timely(cfg, Run(cfg, vm, ys))
    decreases |ys|
  {
    hide PtwInv, VmOk, Timed, VirtualMemory.Inv, Config.Valid, BeforeReads, Since, ReadOk, Operate;
    if ys != [] {
      var n := |ys| - 1;
      RunTimely(cfg, vm, ys[..n]);
      BeforeReadsMoves(cfg, Run(cfg, vm, ys[..n]), ys[n]);
      OperateAdds(cfg, Run(cfg, vm, ys[..n]), ys[n]);
    }
  }

  // ---- main results ----

  /** In every cycle of every run, a walk stops waiting for its read if and only if an address of
      its block returns; the time it then carries is that cycle's. */
  lemma {:induction false} ReadsReturnByBlock(cfg: Config, vm: Vm, ys: seq<Cycle>, y: Cycle, w: Walk)
    requires RunOk(cfg, vm, ys) && CycleOk(cfg, Run(cfg, vm, ys), y) && w in Run(cfg, vm, ys).mshr
    ensures var t := Operate(cfg, Run(cfg, vm, ys), y);
      && (w in t.mshr <==> !BlockReturned(cfg, y.returned, w.address))
      && (w !in t.mshr ==> forall u :: u in t.mshr + t.finished + t.completed + t.answers && u.token == w.token ==>
        BackAt(u, y.now))
  {
    hide *;
    var s := Run(cfg, vm, ys);
    StateConserved(cfg, s);
    ConservedWaits(s, w);
    CycleVm(cfg, s, y);
    BeforeReadsTracks(cfg, s, y, w);
    OperateAdds(cfg, s, y);
    ReadsKeepPlace(s, BeforeReads(cfg, s, y), Operate(cfg, s, y), w, y.now, BlockReturned(cfg, y.returned, w.address));
  }

  lemma StateConserved(cfg: Config, s: Ptw)
    requires PtwInv(cfg, s)
    ensures Conserved(s)
  {
  }

  lemma CycleVm(cfg: Config, s: Ptw, y: Cycle)
    requires PtwInv(cfg, s) && CycleOk(cfg, s, y)
    ensures VmOk(cfg, s, y)
  {
  }

  /** New reads have new tokens. */
  lemma ReadsKeepPlace(s: Ptw, u: Ptw, t: Ptw, w: Walk, now: int, returned: bool)
    requires w.token < s.accepted && (if returned then Left(u, w, now) else Waiting(u, w))
    requires t.finished == u.finished && t.completed == u.completed && t.answers == u.answers
    requires |u.mshr| <= |t.mshr| && t.mshr[..|u.mshr|] == u.mshr
    requires forall i :: |u.mshr| <= i < |t.mshr| ==> t.mshr[i].token >= s.accepted
    ensures w in t.mshr <==> !returned
    ensures w !in t.mshr ==> forall x :: x in t.mshr + t.finished + t.completed + t.answers && x.token == w.token ==>
      BackAt(x, now)
  {
    hide BackAt;
    forall x | x in t.mshr && x.token == w.token ensures x in u.mshr {
      var i :| 0 <= i < |t.mshr| && t.mshr[i] == x;
      assert i < |u.mshr| && u.mshr[i] == x;
    }
    if !returned { assert w in t.mshr[..|u.mshr|]; }
  }

  /** In every cycle of every run, every answer given and every read sent for a walk that waited
      has taken its time: the penalty, just when the step created what it needed, and the
      latency, just outside warmup. What is not due stays, and no due answer stays while
      bandwidth is left. */
  lemma {:induction false} StepsTakeTheirTime(cfg: Config, vm: Vm, ys: seq<Cycle>, y: Cycle)
    requires RunOk(cfg, vm, ys) && CycleOk(cfg, Run(cfg, vm, ys), y)
    ensures var s, t := Run(cfg, vm, ys), Operate(cfg, Run(cfg, vm, ys), y);
      && |s.answers| <= |t.answers| && t.answers[..|s.answers|] == s.answers
      && AllTook(cfg, t.answers[|s.answers|..], y.now)
      && (forall w :: w in t.mshr && w !in s.mshr && w.token < s.accepted ==> Took(cfg, w, y.now))
      && (forall w :: w in s.finished && w.ready > y.now ==> w in t.finished)
      && (forall w :: w in s.completed && w.ready > y.now ==> w in t.completed)
      && NoneWaits(cfg, s, t, y.now)
  {
    hide *;
    var s := Run(cfg, vm, ys);
    RunTimely(cfg, vm, ys);
    CycleVm(cfg, s, y);
    BeforeReadsMoves(cfg, s, y);
    OperateAdds(cfg, s, y);
    SinceReads(cfg, s, BeforeReads(cfg, s, y), Operate(cfg, s, y), y.now);
  }

  lemma SinceReads(cfg: Config, s: Ptw, u: Ptw, t: Ptw, now: int)
    requires Since(cfg, s, u, now) && NoneWaits(cfg, s, u, now)
    requires t.finished == u.finished && t.completed == u.completed && t.answers == u.answers
    requires |u.mshr| <= |t.mshr| && t.mshr[..|u.mshr|] == u.mshr
    requires forall i :: |u.mshr| <= i < |t.mshr| ==> t.mshr[i].token >= s.accepted
    ensures |s.answers| <= |t.answers| && t.answers[..|s.answers|] == s.answers
    ensures AllTook(cfg, t.answers[|s.answers|..], now) && NoneWaits(cfg, s, t, now)
    ensures forall w :: w in t.mshr && w !in s.mshr && w.token < s.accepted ==> Took(cfg, w, now)
    ensures forall w :: w in s.finished && w.ready > now ==> w in t.finished
    ensures forall w :: w in s.completed && w.ready > now ==> w in t.completed
  {
    hide Took;
    forall w | w in t.mshr && w !in s.mshr && w.token < s.accepted ensures Took(cfg, w, now) {
      var i :| 0 <= i < |t.mshr| && t.mshr[i] == w;
      assert i < |u.mshr| && u.mshr[i] == w;
    }
  }

  // ---- where a walk starts ----

  lemma {:induction false} LastHitIsLast(hits: seq<Option<Entry>>) returns (i: nat)
    requires LastHit(hits).Some?
    ensures i < |hits| && hits[i] == LastHit(hits) && forall j :: i < j < |hits| ==> hits[j].None?
  {
    var n := |hits| - 1;
    if hits[n].Some? { i := n; } else { i := LastHitIsLast(hits[..n]); }
  }

  /** The address of the entry for the request, in the page of `table`. */
  ghost predicate StartsIn(cfg: Config, x: Request, table: nat, w: Walk)
    requires cfg.Valid()
  {
    && LevelOk(cfg.g, w.level) && IsPage(cfg.g, PageOf(cfg, x.vaddr))
    && w.address == Shl(OffsetOf(cfg.g, PageOf(cfg, x.vaddr), w.level), 3)
      + Shl(Shr(table, cfg.g.pageBits), cfg.g.pageBits)
  }

  /** The walk starts at the lowest level that a cache has an entry for, in that entry's page; if none
      has, at the highest level, in the page of the root. */
  ghost predicate StartsLowest(cfg: Config, x: Request, hits: seq<Option<Entry>>, w: Walk)
    requires cfg.Valid()
  {
    && w.req == x && w.vaddr == x.vaddr && w.start == w.level && w.sent == 1
    && (forall i :: 0 <= i < |hits| && hits[i].Some? ==> w.level <= hits[i].value.level)
    && (if forall i :: 0 <= i < |hits| ==>
      hits[i].None? then w.level == |cfg.psclLevels| && StartsIn(cfg, x, cfg.cr3, w)
        else exists i :: 0 <= i < |hits| && StartsFrom(cfg, x, hits[i], w))
  }

  ghost predicate StartsFrom(cfg: Config, x: Request, hit: Option<Entry>, w: Walk)
    requires cfg.Valid()
  {
    hit.Some? && w.level == hit.value.level && StartsIn(cfg, x, hit.value.ptwAddr, w)
  }

  lemma HitLevel(cfg: Config, pscl: seq<seq<Entry>>, x: Request, hits: seq<Option<Entry>>, i: nat)
    requires cfg.Valid() && PsclOk(cfg, pscl) && ReadOk(cfg, pscl, (x, hits)) && i < |hits| && hits[i].Some?
    ensures hits[i].value.level == cfg.N() - i
  {
    assert HitOk(cfg, pscl, x, i, hits[i]);
    var k :| 0 <= k < |pscl[i]| && pscl[i][k] == hits[i].value;
  }

  lemma ReadStartsIn(cfg: Config, s: Ptw, x: Request, hits: seq<Option<Entry>>)
    requires cfg.Valid() && IsVaddr(x.vaddr) && EntryOk(cfg, WalkInit(cfg, x, hits))
    ensures var w, e := HandleRead(cfg, s, x, hits), WalkInit(cfg, x, hits);
      && w.level == e.level && StartsIn(cfg, x, e.ptwAddr, w)
      && w.req == x && w.vaddr == x.vaddr && w.start == w.level && w.sent == 1
  {
    hide Pow2, Shl, Shr, WalkInit, OffsetOf, StartAddress, Geometry.Span, Geometry.Frames, IsVaddr;
    VaddrPage(cfg, x.vaddr);
    var e := WalkInit(cfg, x, hits);
    assert LevelOk(cfg.g, e.level);
    hide LevelOk, IsPage, PageOf;
    StartAddressValue(cfg.g, e.ptwAddr, OffsetOf(cfg.g, PageOf(cfg, x.vaddr), e.level));
  }

  lemma ReadStartsLowest(cfg: Config, s: Ptw, x: Request, hits: seq<Option<Entry>>)
    requires cfg.Valid() && PsclOk(cfg, s.pscl) && ReadOk(cfg, s.pscl, (x, hits))
    requires EntryOk(cfg, WalkInit(cfg, x, hits))
    ensures StartsLowest(cfg, x, hits, HandleRead(cfg, s, x, hits))
  {
    hide StartsIn, HandleRead, EntryOk, Config.Valid, IsVaddr, HitOk, PsclOk;
    ReadStartsIn(cfg, s, x, hits);
    forall i | 0 <= i < |hits| && hits[i].Some? ensures hits[i].value.level == cfg.N() - i {
      HitLevel(cfg, s.pscl, x, hits, i);
    }
    if LastHit(hits).Some? {
      var i := LastHitIsLast(hits);
      hide LastHit;
      assert StartsFrom(cfg, x, hits[i], HandleRead(cfg, s, x, hits));
    }
  }

  /** In every cycle of every run, each accepted request starts its walk at the lowest level that any
      of the caches gives for it. */
  lemma {:induction false} WalksStartLowest(cfg: Config, vm: Vm, ys: seq<Cycle>, y: Cycle, j: nat)
    requires RunOk(cfg, vm, ys) && CycleOk(cfg, Run(cfg, vm, ys), y) && j < |y.requests|
    ensures var s, t := BeforeReads(cfg, Run(cfg, vm, ys), y), Operate(cfg, Run(cfg, vm, ys), y);
      && cfg.Valid() && |t.mshr| == |s.mshr| + |y.requests|
      && StartsLowest(cfg, y.requests[j].0, y.requests[j].1, t.mshr[|s.mshr| + j])
  {
    hide PtwInv, Run, RunOk, Config.Valid, WalkInit, EntryOk, LastHit, HandleRead, BeforeReads, VmOk, StartsLowest;
    var s := BeforeReads(cfg, Run(cfg, vm, ys), y);
    var (x, hits) := y.requests[j];
    assert ReadOk(cfg, s.pscl, y.requests[j]);
    hide ReadOk;
    ReadAllAt(cfg, s, y.requests, j);
    ReadStartsLowest(cfg, s, x, hits);
    TokenFree(cfg, x, hits, HandleRead(cfg, s, x, hits), s.accepted + j);
  }

  lemma TokenFree(cfg: Config, x: Request, hits: seq<Option<Entry>>, w: Walk, token: nat)
    requires cfg.Valid() && StartsLowest(cfg, x, hits, w)
    ensures StartsLowest(cfg, x, hits, w.(token := token))
  {
    hide Config.Valid, LevelOk, IsPage, OffsetOf, PageOf;
    var u := w.(token := token);
    assert forall table: nat :: StartsIn(cfg, x, table, w) ==> StartsIn(cfg, x, table, u);
    hide StartsIn;
    if i :| 0 <= i < |hits| && StartsFrom(cfg, x, hits[i], w) { assert StartsFrom(cfg, x, hits[i], u); }
  }
}
