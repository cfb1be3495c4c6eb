/** What every run of the page table walker keeps, and the answers it gives. */
module PageTableWalkerRuns {
  import opened Sequences
  import opened Bits
  import opened AddressSlices
  import opened VirtualMemory
  import opened VirtualMemoryRuns
  import opened PageTableWalker

  // ---- the invariant ----

  /** `a` is the page table entry that get_pte_pa gives for the address and level. */
  ghost predicate KnownPte(cfg: Config, vm: Vm, vaddr: nat, level: nat, a: nat)
    requires cfg.Valid()
  {
    && IsVaddr(vaddr) && 1 <= level <= cfg.N() && IsPage(cfg.g, PageOf(cfg, vaddr))
    && var k := KeyOf(cfg.g, cfg.cpu, PageOf(cfg, vaddr), level);
      k in vm.tables && vm.tables[k] < Pow2(64)
        && Pte(cfg.g, vm.tables, cfg.cpu, PageOf(cfg, vaddr), level) == a < Pow2(64)
  }

  /** `a` is the frame that va_to_pa gives for the address. */
  ghost predicate KnownFrame(cfg: Config, vm: Vm, vaddr: nat, a: nat) {
    var x := (cfg.cpu, PageOf(cfg, vaddr));
    x in vm.frames && a == Shl(vm.frames[x], cfg.g.pageBits)
  }

  /** A walk that has sent the read for its level and for every level above, from its start. */
  ghost predicate Descended(cfg: Config, w: Walk) {
    IsVaddr(w.vaddr) && w.level <= w.start <= cfg.N() && w.sent == w.start - w.level + 1
  }

  /** Waiting for the read at its level. */
  ghost predicate Reading(cfg: Config, vm: Vm, w: Walk)
    requires cfg.Valid()
  {
    Descended(cfg, w) && (w.level < w.start ==> KnownPte(cfg, vm, w.vaddr, w.level + 1, w.address))
  }

  /** With the entry of its level, but not at the last. */
  ghost predicate Stepping(cfg: Config, vm: Vm, w: Walk)
    requires cfg.Valid()
  {
    Descended(cfg, w) && w.level >= 1 && KnownPte(cfg, vm, w.vaddr, w.level, w.data)
  }

  /** Done: all its reads sent, and the frame known. */
  ghost predicate Done(cfg: Config, vm: Vm, w: Walk) {
    Descended(cfg, w) && w.level == 0 && KnownFrame(cfg, vm, w.vaddr, w.data)
  }

  ghost predicate WalksOk(cfg: Config, s: Ptw)
    requires cfg.Valid()
  {
    && (forall i :: 0 <= i < |s.mshr| ==> Reading(cfg, s.vm, s.mshr[i]))
    && (forall i :: 0 <= i < |s.finished| ==> Stepping(cfg, s.vm, s.finished[i]))
    && (forall i :: 0 <= i < |s.completed| ==> Done(cfg, s.vm, s.completed[i]))
    && (forall i :: 0 <= i < |s.answers| ==> Done(cfg, s.vm, s.answers[i]))
  }

  /** Every cached entry is the page table entry of its address at its cache's level. */
  ghost predicate CachesOk(cfg: Config, s: Ptw)
    requires cfg.Valid()
  {
    |s.pscl| == cfg.N() && forall i, k :: 0 <= i < |s.pscl| && 0 <= k < |s.pscl[i]| ==>
      s.pscl[i][k].level == cfg.N() - i
        && KnownPte(cfg, s.vm, s.pscl[i][k].vaddr, s.pscl[i][k].level, s.pscl[i][k].ptwAddr)
  }

  ghost function Tokens(s: seq<Walk>): multiset<nat> {
    if s == [] then multiset{} else multiset{s[0].token} + Tokens(s[1..])
  }

  /** In how many places the walk with this token is. */
  ghost function Places(s: Ptw, t: nat): nat {
    Tokens(s.mshr)[t] + Tokens(s.finished)[t] + Tokens(s.completed)[t] + Tokens(s.answers)[t]
  }

  ghost predicate Conserved(s: Ptw) {
    forall t: nat :: Places(s, t) == if t < s.accepted then 1 else 0
  }

  ghost predicate PtwInv(cfg: Config, s: Ptw) {
    cfg.Valid() && VirtualMemory.Inv(cfg.g, s.vm) && WalksOk(cfg, s) && CachesOk(cfg, s) && Conserved(s)
  }

  lemma {:induction false} TokensAppend(s: seq<Walk>, t: seq<Walk>)
    ensures Tokens(s + t) == Tokens(s) + Tokens(t)
  {
    if s == [] {
      assert s + t == t;
    } else {
      assert (s + t)[1..] == s[1..] + t;
      TokensAppend(s[1..], t);
    }
  }

  lemma {:induction false} SelectTokens(cfg: Config, s: seq<Walk>, block: nat)
    ensures Tokens(Select(cfg, s, block, true)) + Tokens(Select(cfg, s, block, false)) == Tokens(s)
  {
    if s != [] {
      SelectTokens(cfg, s[1..], block);
      var m := Matches(cfg, s[0], block);
      assert Select(cfg, s, block, m) == [s[0]] + Select(cfg, s[1..], block, m);
      assert Select(cfg, s, block, !m) == Select(cfg, s[1..], block, !m);
      TokensAppend([s[0]], Select(cfg, s[1..], block, m));
      TokensOne(s[0]);
    }
  }

  lemma TokensOne(w: Walk)
    ensures Tokens([w]) == multiset{w.token}
  {
    assert Tokens([w]) == multiset{w.token} + Tokens([w][1..]);
  }

  // ---- virtual memory only grows ----

  lemma {:induction false} GrowsPte(cfg: Config, vm: Vm, r: Vm, vaddr: nat, level: nat, a: nat)
    requires cfg.Valid() && Grows(vm, r) && KnownPte(cfg, vm, vaddr, level, a)
    ensures KnownPte(cfg, r, vaddr, level, a)
  {
    hide Config.Valid, KeyOf, OffsetOf, EntryAddress, Pow2;
  }

  lemma {:induction false} GrowsWalks(cfg: Config, s: Ptw, vm: Vm)
    requires cfg.Valid() && Grows(s.vm, vm) && WalksOk(cfg, s) && CachesOk(cfg, s)
    ensures WalksOk(cfg, s.(vm := vm)) && CachesOk(cfg, s.(vm := vm))
  {
    hide KnownPte, Config.Valid, Grows, Pow2;
    forall i | 0 <= i < |s.mshr| ensures Reading(cfg, vm, s.mshr[i]) {
      var w := s.mshr[i];
      assert Reading(cfg, s.vm, w);
      if w.level < w.start { GrowsPte(cfg, s.vm, vm, w.vaddr, w.level + 1, w.address); }
    }
    forall i | 0 <= i < |s.finished| ensures Stepping(cfg, vm, s.finished[i]) {
      assert Stepping(cfg, s.vm, s.finished[i]);
      GrowsPte(cfg, s.vm, vm, s.finished[i].vaddr, s.finished[i].level, s.finished[i].data);
    }
    forall i | 0 <= i < |s.completed| ensures Done(cfg, vm, s.completed[i]) {
      GrowsDone(cfg, s.vm, vm, s.completed[i]);
    }
    forall i | 0 <= i < |s.answers| ensures Done(cfg, vm, s.answers[i]) { GrowsDone(cfg, s.vm, vm, s.answers[i]); }
    forall i, k | 0 <= i < |s.pscl| && 0 <= k < |s.pscl[i]|
      ensures s.pscl[i][k].level == cfg.N() - i
      ensures KnownPte(cfg, vm, s.pscl[i][k].vaddr, s.pscl[i][k].level, s.pscl[i][k].ptwAddr)
    {
      GrowsPte(cfg, s.vm, vm, s.pscl[i][k].vaddr, s.pscl[i][k].level, s.pscl[i][k].ptwAddr);
    }
  }

  lemma GrowsDone(cfg: Config, vm: Vm, r: Vm, w: Walk)
    requires Grows(vm, r) && Done(cfg, vm, w)
    ensures Done(cfg, r, w)
  {
  }

  // ---- finish_packet ----

  lemma {:induction false} FinishWalkKnows(cfg: Config, vm: Vm, w: Walk, now: int, warmup: bool)
    requires cfg.Valid() && VirtualMemory.Inv(cfg.g, vm) && Shaped(cfg.g, vm) && Descended(cfg, w)
    ensures var (r, u) := FinishWalk(cfg, vm, w, now, warmup);
      && Grows(vm, r) && u.token == w.token && VirtualMemory.Inv(cfg.g, r)
      && (if w.level == 0 then Done(cfg, r, u) else Stepping(cfg, r, u)) && u.level == w.level
  {
    hide Grows, VirtualMemory.Inv, Shaped, Done, Stepping;
    FinishWalkKeeps(cfg, vm, w, now, warmup);
    if w.level == 0 { FinishLast(cfg, vm, w, now, warmup); } else { FinishStep(cfg, vm, w, now, warmup); }
  }

  lemma FinishLast(cfg: Config, vm: Vm, w: Walk, now: int, warmup: bool)
    requires cfg.Valid() && VirtualMemory.Inv(cfg.g, vm) && Shaped(cfg.g, vm) && Descended(cfg, w) && w.level == 0
    ensures var (r, u) := FinishWalk(cfg, vm, w, now, warmup);
      Grows(vm, r) && u.token == w.token && Done(cfg, r, u) && u.level == w.level
  {
    TranslateGrows(vm, cfg.cpu, PageOf(cfg, w.vaddr), cfg.shuffle(vm.refills));
    hide VaToPa, Grows, VirtualMemory.Inv, Config.Valid, Shl, Pow2, PageOf, Geometry.Valid, IsPage;
  }

  lemma FinishStep(cfg: Config, vm: Vm, w: Walk, now: int, warmup: bool)
    requires cfg.Valid() && VirtualMemory.Inv(cfg.g, vm) && Shaped(cfg.g, vm) && Descended(cfg, w) && w.level > 0
    requires VirtualMemory.Inv(cfg.g, FinishWalk(cfg, vm, w, now, warmup).0)
    ensures var (r, u) := FinishWalk(cfg, vm, w, now, warmup);
      Grows(vm, r) && u.token == w.token && Stepping(cfg, r, u) && u.level == w.level
  {
    hide Grows, VirtualMemory.Inv, Shaped, Geometry.Valid, PageOf, Pow2, IsPage, GetPtePa, Pte, KeyOf;
    VaddrPage(cfg, w.vaddr);
    assert LevelOk(cfg.g, w.level);
    hide LevelOk;
    var p, refill := PageOf(cfg, w.vaddr), cfg.shuffle(vm.refills);
    WalkGrows(cfg.g, vm, cfg.cpu, p, w.level, refill);
    PteBound(cfg.g, GetPtePa(cfg.g, vm, cfg.cpu, p, w.level, refill).0, cfg.cpu, p, w.level);
  }

  lemma PteBound(g: Geometry, vm: Vm, cpu: nat, v: Page, level: nat)
    requires LevelOk(g, level) && IsPage(g, v) && VirtualMemory.Inv(g, vm) && KeyOf(g, cpu, v, level) in vm.tables
    ensures vm.tables[KeyOf(g, cpu, v, level)] < Pow2(64) && Pte(g, vm.tables, cpu, v, level) < Pow2(64)
  {
    InvShaped(g, vm);
    hide VirtualMemory.Inv;
    var table, o := vm.tables[KeyOf(g, cpu, v, level)], OffsetOf(g, v, level);
    EntryBound(g, table, o);
  }

  /** One finished step. */
  function Finished(s: Ptw, vm: Vm, w: Walk): Ptw {
    if w.level == 0 then s.(vm := vm, completed := s.completed + [w]) else s.(vm := vm, finished := s.finished + [w])
  }

  lemma {:induction false} FinishedKeeps(cfg: Config, s: Ptw, vm: Vm, w: Walk)
    requires cfg.Valid() && WalksOk(cfg, s) && CachesOk(cfg, s) && Grows(s.vm, vm)
    requires if w.level == 0 then Done(cfg, vm, w) else Stepping(cfg, vm, w)
    ensures WalksOk(cfg, Finished(s, vm, w)) && CachesOk(cfg, Finished(s, vm, w))
  {
    hide Config.Valid, Grows, Reading, Stepping, Done, KnownPte;
    GrowsWalks(cfg, s, vm);
  }

  lemma {:induction false} FinishedTokens(s: Ptw, vm: Vm, w: Walk, t: nat)
    ensures Places(Finished(s, vm, w), t) == Places(s, t) + (if t == w.token then 1 else 0)
  {
    TokensOne(w);
    TokensAppend(s.completed, [w]);
    TokensAppend(s.finished, [w]);
    hide Tokens;
  }

  lemma TailShaped(cfg: Config, ws: seq<Walk>)
    requires AllShaped(cfg, ws) && AllDescended(cfg, ws) && ws != []
    ensures WalkShaped(cfg, ws[0]) && AllShaped(cfg, ws[1..]) && Descended(cfg, ws[0]) && AllDescended(cfg, ws[1..])
  {
    assert WalkShaped(cfg, ws[0]) && Descended(cfg, ws[0]);
    hide WalkShaped, Descended;
  }

  ghost predicate AllDescended(cfg: Config, ws: seq<Walk>) {
    forall i :: 0 <= i < |ws| ==> Descended(cfg, ws[i])
  }

  /** One step of finishing. */
  lemma FinishWalksStep(cfg: Config, s: Ptw, ws: seq<Walk>, now: int, warmup: bool)
    requires cfg.Valid() && VirtualMemory.Inv(cfg.g, s.vm) && Shaped(cfg.g, s.vm) && AllShaped(cfg, ws) && ws != []
    requires WalkShaped(cfg, ws[0]) && AllShaped(cfg, ws[1..])
    ensures var (vm, w) := FinishWalk(cfg, s.vm, ws[0], now, warmup);
      && VirtualMemory.Inv(cfg.g, vm) && Finished(s, vm, w).vm == vm && Finished(s, vm, w).accepted == s.accepted
      && FinishWalks(cfg, s, ws, now, warmup) == FinishWalks(cfg, Finished(s, vm, w), ws[1..], now, warmup)
  {
    FinishWalkKeeps(cfg, s.vm, ws[0], now, warmup);
    hide VirtualMemory.Inv, FinishWalk, Config.Valid, Shaped, AllShaped, WalkShaped;
  }

  lemma {:induction false} FinishWalksKeep(cfg: Config, s: Ptw, ws: seq<Walk>, now: int, warmup: bool)
    requires cfg.Valid() && VirtualMemory.Inv(cfg.g, s.vm) && WalksOk(cfg, s) && CachesOk(cfg, s) && AllShaped(cfg, ws)
    requires AllDescended(cfg, ws)
    ensures var r := FinishWalks(cfg, s, ws, now, warmup);
      WalksOk(cfg, r) && CachesOk(cfg, r) && r.accepted == s.accepted
    decreases |ws|
  {
    if ws != [] {
      TailShaped(cfg, ws);
      FinishWalksStep(cfg, s, ws, now, warmup);
      hide *;
      InvShaped(cfg.g, s.vm);
      var (vm, w) := FinishWalk(cfg, s.vm, ws[0], now, warmup);
      FinishWalkKnows(cfg, s.vm, ws[0], now, warmup);
      FinishedKeeps(cfg, s, vm, w);
      FinishWalksKeep(cfg, Finished(s, vm, w), ws[1..], now, warmup);
    }
  }

  lemma {:induction false} FinishWalksTokens(cfg: Config, s: Ptw, ws: seq<Walk>, now: int, warmup: bool, t: nat)
    requires cfg.Valid() && VirtualMemory.Inv(cfg.g, s.vm) && AllShaped(cfg, ws)
    ensures Places(FinishWalks(cfg, s, ws, now, warmup), t) == Places(s, t) + Tokens(ws)[t]
    decreases |ws|
  {
    if ws != [] {
      InvShaped(cfg.g, s.vm);
      var (vm, w) := FinishWalk(cfg, s.vm, ws[0], now, warmup);
      FinishWalkKeeps(cfg, s.vm, ws[0], now, warmup);
      assert w.token == ws[0].token && w.level == ws[0].level;
      hide VirtualMemory.Inv, FinishWalk, Config.Valid, Shaped, WalkShaped, Places;
      FinishedTokens(s, vm, w, t);
      FinishWalksTokens(cfg, Finished(s, vm, w), ws[1..], now, warmup, t);
    }
  }

  lemma {:induction false} SelectDescended(cfg: Config, s: Ptw, block: nat)
    requires cfg.Valid() && WalksOk(cfg, s)
    ensures AllShaped(cfg, s.mshr) && WalksOk(cfg, s.(mshr := Select(cfg, s.mshr, block, false)))
    ensures AllDescended(cfg, Select(cfg, s.mshr, block, true))
  {
    hide Config.Valid, KnownPte, Stepping, Done;
    forall i | 0 <= i < |s.mshr| ensures WalkShaped(cfg, s.mshr[i]) { assert Reading(cfg, s.vm, s.mshr[i]); }
    var rest, ws := Select(cfg, s.mshr, block, false), Select(cfg, s.mshr, block, true);
    forall w | w in s.mshr ensures Reading(cfg, s.vm, w) { var i :| 0 <= i < |s.mshr| && s.mshr[i] == w; }
    forall i | 0 <= i < |rest| ensures Reading(cfg, s.vm, rest[i]) { assert rest[i] in rest; }
    forall i | 0 <= i < |ws| ensures Descended(cfg, ws[i]) { assert ws[i] in ws; }
  }

  lemma {:induction false} FinishPacketKeeps(cfg: Config, s: Ptw, address: nat, now: int, warmup: bool)
    requires PtwInv(cfg, s)
    ensures AllShaped(cfg, s.mshr) && PtwInv(cfg, FinishPacket(cfg, s, address, now, warmup))
  {
    hide VirtualMemory.Inv, Config.Valid, WalksOk, AllShaped, AllDescended, Select, FinishWalks, Conserved;
    var block := Shr(address, cfg.blockBits);
    var rest, ws := Select(cfg, s.mshr, block, false), Select(cfg, s.mshr, block, true);
    SelectDescended(cfg, s, block);
    SelectShaped(cfg, s.mshr, block, true);
    SelectTokens(cfg, s.mshr, block);
    var t := s.(mshr := rest);
    assert CachesOk(cfg, t);
    hide CachesOk;
    FinishWalksKeep(cfg, t, ws, now, warmup);
    FinishPacketTokens(cfg, s, address, now, warmup);
  }

  lemma {:induction false} FinishPacketTokens(cfg: Config, s: Ptw, address: nat, now: int, warmup: bool)
    requires cfg.Valid() && VirtualMemory.Inv(cfg.g, s.vm) && AllShaped(cfg, s.mshr) && Conserved(s)
    requires FinishPacket(cfg, s, address, now, warmup).accepted == s.accepted
    ensures Conserved(FinishPacket(cfg, s, address, now, warmup))
  {
    hide VirtualMemory.Inv, Config.Valid, AllShaped, FinishWalks, Tokens, Select, Shr;
    var block := Shr(address, cfg.blockBits);
    var rest, ws := Select(cfg, s.mshr, block, false), Select(cfg, s.mshr, block, true);
    SelectShaped(cfg, s.mshr, block, true);
    SelectTokens(cfg, s.mshr, block);
    var r := FinishPacket(cfg, s, address, now, warmup);
    forall k: nat ensures Places(r, k) == if k < r.accepted then 1 else 0 {
      FinishWalksTokens(cfg, s.(mshr := rest), ws, now, warmup, k);
      assert Places(s, k) == if k < s.accepted then 1 else 0;
      assert Tokens(s.mshr)[k] == (Tokens(ws) + Tokens(rest))[k];
    }
  }

  lemma {:induction false} FinishPacketsKeep(cfg: Config, s: Ptw, addresses: seq<nat>, now: int, warmup: bool)
    requires PtwInv(cfg, s)
    ensures AllShaped(cfg, s.mshr) && PtwInv(cfg, FinishPackets(cfg, s, addresses, now, warmup))
    decreases |addresses|
  {
    FinishPacketKeeps(cfg, s, 0, now, warmup);
    if addresses != [] {
      FinishPacketKeeps(cfg, s, addresses[0], now, warmup);
      hide PtwInv, FinishPacket, AllShaped;
      FinishPacketsKeep(cfg, FinishPacket(cfg, s, addresses[0], now, warmup), addresses[1..], now, warmup);
    }
  }

  // ---- handle_fill, completions ----

  lemma {:induction false} FillPsclKeeps(cfg: Config, s: Ptw, w: Walk)
    requires cfg.Valid() && CachesOk(cfg, s) && Stepping(cfg, s.vm, w)
    ensures CachesOk(cfg, FillPscl(cfg, s, w))
  {
    hide Config.Valid, KnownPte;
  }

  lemma {:induction false} NextStepReads(cfg: Config, vm: Vm, w: Walk)
    requires cfg.Valid() && Stepping(cfg, vm, w)
    ensures Reading(cfg, vm, NextStep(w))
  {
    hide Config.Valid, KnownPte;
  }

  lemma {:induction false} StepTokens(s: Ptw, t: Ptw, w: Walk)
    requires s.finished != [] && w.token == s.finished[0].token
    requires t.mshr == s.mshr + [w] && t.finished == s.finished[1..] && t.completed == s.completed
    requires t.answers == s.answers && t.accepted == s.accepted
    ensures Conserved(s) ==> Conserved(t)
  {
    TokensOne(w);
    TokensAppend(s.mshr, [w]);
    forall k: nat ensures Places(t, k) == Places(s, k) { }
    hide Places;
    if Conserved(s) {
      forall k: nat ensures Places(t, k) == if k < t.accepted then 1 else 0 {
        assert Places(s, k) == if k < s.accepted then 1 else 0;
      }
    }
  }

  lemma {:induction false} FillOneKeeps(cfg: Config, s: Ptw, accept: bool)
    requires PtwInv(cfg, s) && s.finished != []
    ensures 1 <= s.finished[0].level <= cfg.N()
    ensures var t := FillPscl(cfg, s, s.finished[0]);
      |s.pscl| == cfg.N() && PtwInv(cfg, if accept then FillOne(cfg, s) else t)
  {
    hide VirtualMemory.Inv, Config.Valid, KnownPte, Reading, Stepping, Done;
    var w := s.finished[0];
    assert Stepping(cfg, s.vm, w);
    FillPsclKeeps(cfg, s, w);
    NextStepReads(cfg, s.vm, w);
    var t := FillPscl(cfg, s, w);
    var u := FillOne(cfg, s);
    StepTokens(t, u, NextStep(w));
    assert WalksOk(cfg, u) by { hide CachesOk, Conserved; }
    forall k: nat ensures Places(t, k) == if k < t.accepted then 1 else 0 {
      assert Places(s, k) == if k < s.accepted then 1 else 0;
    }
    hide Places;
  }

  lemma {:induction false} FillFromKeeps(cfg: Config, s: Ptw, n: nat, accepts: nat -> bool, k: nat)
    requires PtwInv(cfg, s) && n <= |s.finished|
    ensures |s.pscl| == cfg.N() && (forall i :: 0 <= i < n ==> 1 <= s.finished[i].level <= cfg.N())
    ensures PtwInv(cfg, FillFrom(cfg, s, n, accepts, k))
    decreases n
  {
    hide PtwInv, FillOne, FillPscl;
    LevelsOk(cfg, s);
    if n > 0 {
      FillOneKeeps(cfg, s, accepts(k));
      if accepts(k) {
        FillFromKeeps(cfg, FillOne(cfg, s), n - 1, accepts, k + 1);
      }
    }
  }

  lemma LevelsOk(cfg: Config, s: Ptw)
    requires PtwInv(cfg, s)
    ensures Fillable(cfg, s) && PsclOk(cfg, s.pscl) && AllShaped(cfg, s.mshr)
  {
    hide Conserved, VirtualMemory.Inv, Config.Valid;
    forall i | 0 <= i < |s.finished| ensures 1 <= s.finished[i].level <= cfg.N() {
      assert Stepping(cfg, s.vm, s.finished[i]);
    }
    forall i | 0 <= i < |s.mshr| ensures WalkShaped(cfg, s.mshr[i]) { assert Reading(cfg, s.vm, s.mshr[i]); }
  }

  lemma {:induction false} CompleteKeeps(cfg: Config, s: Ptw, c: nat)
    requires PtwInv(cfg, s) && c <= |s.completed|
    ensures PtwInv(cfg, Complete(s, c))
  {
    hide VirtualMemory.Inv, Config.Valid, KnownPte, Reading, Stepping, Done;
    assert WalksOk(cfg, Complete(s, c));
    assert Conserved(Complete(s, c)) by { CompleteTokens(s, c); }
    hide WalksOk, Conserved;
  }

  lemma {:induction false} CompleteTokens(s: Ptw, c: nat)
    requires Conserved(s) && c <= |s.completed|
    ensures Conserved(Complete(s, c))
  {
    var t := Complete(s, c);
    assert s.completed == s.completed[..c] + s.completed[c..];
    TokensAppend(s.completed[..c], s.completed[c..]);
    TokensAppend(s.answers, s.completed[..c]);
    forall k: nat ensures Places(t, k) == if k < t.accepted then 1 else 0 {
      assert Places(s, k) == if k < s.accepted then 1 else 0;
      hide Tokens;
    }
  }

  lemma CompleteFrame(s: Ptw, c: nat)
    requires c <= |s.completed|
    ensures Complete(s, c).finished == s.finished && Complete(s, c).pscl == s.pscl
  {
  }

  lemma CompleteFillKeeps(cfg: Config, s: Ptw, c: nat, n: nat, accepts: nat -> bool)
    requires PtwInv(cfg, s) && c <= |s.completed| && n <= |s.finished|
    ensures Fillable(cfg, s) && Fillable(cfg, Complete(s, c)) && n <= |Complete(s, c).finished|
    ensures PtwInv(cfg, FillFrom(cfg, Complete(s, c), n, accepts, 0))
  {
    hide PtwInv, FillFrom, Fillable, FillOne, FillPscl;
    LevelsOk(cfg, s);
    CompleteKeeps(cfg, s, c);
    LevelsOk(cfg, Complete(s, c));
    CompleteFrame(s, c);
    hide Complete;
    FillFromKeeps(cfg, Complete(s, c), n, accepts, 0);
  }

  lemma {:induction false} AdvanceKeeps(cfg: Config, s: Ptw, y: Cycle)
    requires PtwInv(cfg, s)
    ensures Fillable(cfg, s) && PtwInv(cfg, Advance(cfg, s, y))
  {
    hide PtwInv, FillFrom, IsReady, Complete, FillOne, FillPscl, SpanLen, Fillable;
    LevelsOk(cfg, s);
    var c := SpanLen(s.completed, cfg.maxFill, (w: Walk) => IsReady(w, y.now));
    var n := SpanLen(s.finished, cfg.maxFill - c, (w: Walk) => IsReady(w, y.now));
    CompleteFillKeeps(cfg, s, c, n, y.accepts);
  }

  // ---- handle_read ----

  lemma {:induction false} ReadTokens(s: Ptw, w: Walk)
    requires Conserved(s) && w.token == s.accepted
    ensures Conserved(s.(mshr := s.mshr + [w], accepted := s.accepted + 1))
  {
    var t := s.(mshr := s.mshr + [w], accepted := s.accepted + 1);
    TokensOne(w);
    TokensAppend(s.mshr, [w]);
    forall k: nat ensures Places(t, k) == if k < t.accepted then 1 else 0 {
      assert Places(s, k) == if k < s.accepted then 1 else 0;
      hide Tokens;
    }
  }

  lemma {:induction false} ReadKeeps(cfg: Config, s: Ptw, x: Request, hits: seq<Option<Entry>>)
    requires PtwInv(cfg, s) && PsclOk(cfg, s.pscl) && ReadOk(cfg, s.pscl, (x, hits))
    ensures EntryOk(cfg, WalkInit(cfg, x, hits)) && PtwInv(cfg, Accept(cfg, s, x, hits))
  {
    hide VirtualMemory.Inv, Config.Valid, KnownPte, WalksOk, CachesOk, Conserved, HandleRead, Reading;
    InvParts(cfg, s);
    WalkInitOk(cfg, s.pscl, x, hits);
    var w := HandleRead(cfg, s, x, hits);
    NewWalk(cfg, s, x, hits);
    ReadTokens(s, w);
    ReadWalks(cfg, s, w);
  }

  lemma NewWalk(cfg: Config, s: Ptw, x: Request, hits: seq<Option<Entry>>)
    requires cfg.Valid() && IsVaddr(x.vaddr) && EntryOk(cfg, WalkInit(cfg, x, hits))
    ensures var w := HandleRead(cfg, s, x, hits); Reading(cfg, s.vm, w) && w.token == s.accepted
  {
    hide Config.Valid, StartAddress, OffsetOf, PageOf, WalkInit, IsVaddr, KnownPte;
  }

  lemma ReadWalks(cfg: Config, s: Ptw, w: Walk)
    requires cfg.Valid() && WalksOk(cfg, s) && CachesOk(cfg, s) && Reading(cfg, s.vm, w)
    ensures var t := s.(mshr := s.mshr + [w], accepted := s.accepted + 1); WalksOk(cfg, t) && CachesOk(cfg, t)
  {
    hide Config.Valid, KnownPte, Reading, Stepping, Done;
  }

  lemma {:induction false} ReadAllKeeps(cfg: Config, s: Ptw, rs: seq<(Request, seq<Option<Entry>>)>)
    requires PtwInv(cfg, s) && PsclOk(cfg, s.pscl) && forall i :: 0 <= i < |rs| ==> ReadOk(cfg, s.pscl, rs[i])
    ensures PtwInv(cfg, ReadAll(cfg, s, rs))
    decreases |rs|
  {
    hide PtwInv, WalkInit, Config.Valid, HandleRead, EntryOk, IsVaddr;
    InvParts(cfg, s);
    if rs != [] {
      assert ReadOk(cfg, s.pscl, rs[0]);
      hide ReadOk, PsclOk;
      ReadKeeps(cfg, s, rs[0].0, rs[0].1);
      var t := Accept(cfg, s, rs[0].0, rs[0].1);
      assert t.pscl == s.pscl;
      hide Accept;
      ReadAllKeeps(cfg, t, rs[1..]);
    }
  }

  // ---- runs ----

  ghost predicate VmOk(cfg: Config, s: Ptw, y: Cycle) {
    VirtualMemory.Inv(cfg.g, y.vm) && Grows(s.vm, y.vm)
  }

  lemma {:induction false} VmKeeps(cfg: Config, s: Ptw, y: Cycle)
    requires PtwInv(cfg, s) && VmOk(cfg, s, y)
    ensures PtwInv(cfg, s.(vm := y.vm))
  {
    hide WalksOk, CachesOk, Config.Valid, VirtualMemory.Inv, Grows;
    GrowsWalks(cfg, s, y.vm);
    var t := s.(vm := y.vm);
    forall k: nat ensures Places(t, k) == if k < t.accepted then 1 else 0 {
      assert Places(s, k) == if k < s.accepted then 1 else 0;
    }
  }

  /** The cycle up to the reads. */
  ghost function BeforeReads(cfg: Config, s: Ptw, y: Cycle): (r: Ptw)
    requires PtwInv(cfg, s) && VmOk(cfg, s, y)
    ensures PtwInv(cfg, r) && PsclOk(cfg, r.pscl)
  {
    hide PtwInv, VmOk, FinishPackets, Advance, Fillable, AllShaped, PsclOk;
    VmKeeps(cfg, s, y);
    var t := s.(vm := y.vm);
    FinishPacketsKeep(cfg, t, y.returned, y.now, y.warmup);
    InvParts(cfg, t);
    var u := FinishPackets(cfg, t, y.returned, y.now, y.warmup);
    AdvanceKeeps(cfg, u, y);
    LevelsOk(cfg, Advance(cfg, u, y));
    Advance(cfg, u, y)
  }

  lemma InvParts(cfg: Config, s: Ptw)
    requires PtwInv(cfg, s)
    ensures cfg.Valid() && VirtualMemory.Inv(cfg.g, s.vm)
  {
  }

  ghost predicate CycleOk(cfg: Config, s: Ptw, y: Cycle)
    requires PtwInv(cfg, s)
  {
    VmOk(cfg, s, y) && cfg.Valid() && forall i :: 0 <= i < |y.requests| ==>
      ReadOk(cfg, BeforeReads(cfg, s, y).pscl, y.requests[i])
  }

  ghost function Operate(cfg: Config, s: Ptw, y: Cycle): (r: Ptw)
    requires PtwInv(cfg, s) && CycleOk(cfg, s, y)
    ensures PtwInv(cfg, r)
  {
    var t := BeforeReads(cfg, s, y);
    ReadAllKeeps(cfg, t, y.requests);
    ReadAll(cfg, t, y.requests)
  }

  function StartPtw(cfg: Config, vm: Vm): Ptw {
    Ptw([], [], [], [], seq(cfg.N(), _ => []), vm, 0)
  }

  lemma StartPtwInv(cfg: Config, vm: Vm)
    requires cfg.Valid() && VirtualMemory.Inv(cfg.g, vm)
    ensures PtwInv(cfg, StartPtw(cfg, vm))
  {
    hide VirtualMemory.Inv, Config.Valid;
    var s := StartPtw(cfg, vm);
    forall t: nat ensures Places(s, t) == 0 { }
  }

  ghost predicate RunOk(cfg: Config, vm: Vm, ys: seq<Cycle>)
    decreases |ys|, 0
  {
    cfg.Valid() && VirtualMemory.Inv(cfg.g, vm) &&
    (ys != [] ==> var n := |ys| - 1; RunOk(cfg, vm, ys[..n]) && CycleOk(cfg, Run(cfg, vm, ys[..n]), ys[n]))
  }

  /** The walker after the cycles `ys`, oldest first, starting with virtual memory `vm`. */
  ghost function Run(cfg: Config, vm: Vm, ys: seq<Cycle>): (s: Ptw)
    requires RunOk(cfg, vm, ys)
    ensures PtwInv(cfg, s)
    decreases |ys|, 1
  {
    hide PtwInv, CycleOk, VirtualMemory.Inv, Config.Valid;
    if ys == [] then
      StartPtwInv(cfg, vm);
      StartPtw(cfg, vm)
    else
      var n := |ys| - 1;
      Operate(cfg, Run(cfg, vm, ys[..n]), ys[n])
  }

  // ---- main results ----

  /** Every accepted walk is in exactly one of the MSHR, the finished walks, the
      completed walks and the answers. */
  lemma WalksAreConserved(cfg: Config, vm: Vm, ys: seq<Cycle>, t: nat)
    requires RunOk(cfg, vm, ys)
    ensures var s := Run(cfg, vm, ys);
      Tokens(s.mshr)[t] + Tokens(s.finished)[t] + Tokens(s.completed)[t] + Tokens(s.answers)[t] == if t < s.accepted
        then 1 else 0
  {
    var s := Run(cfg, vm, ys);
    hide Run, RunOk, WalksOk, CachesOk, VirtualMemory.Inv, Config.Valid;
    assert Places(s, t) == if t < s.accepted then 1 else 0;
  }

  /** A walk sends one read for each level from its start down, and answers after the last. */
  lemma WalksDescend(cfg: Config, vm: Vm, ys: seq<Cycle>, i: nat)
    requires RunOk(cfg, vm, ys)
    ensures var s := Run(cfg, vm, ys);
      && (i < |s.mshr| ==> var w := s.mshr[i]; w.level <= w.start <= cfg.N() && w.sent == w.start - w.level + 1)
      && (i < |s.finished| ==> var w := s.finished[i];
        1 <= w.level <= w.start <= cfg.N() && w.sent == w.start - w.level + 1)
      && (i < |s.answers| ==> var w := s.answers[i]; w.level == 0 && w.start <= cfg.N() && w.sent == w.start + 1)
  {
    var s := Run(cfg, vm, ys);
    hide Run, RunOk, CachesOk, VirtualMemory.Inv, Config.Valid, KnownPte, Conserved;
    if i < |s.mshr| { assert Reading(cfg, s.vm, s.mshr[i]); }
    if i < |s.finished| { assert Stepping(cfg, s.vm, s.finished[i]); }
    if i < |s.answers| { assert Done(cfg, s.vm, s.answers[i]); }
  }

  /** Every answer is what va_to_pa gives for the address, which no longer faults. */
  lemma AnswersAreTranslations(cfg: Config, vm: Vm, ys: seq<Cycle>, i: nat, refill: seq<Page>)
    requires RunOk(cfg, vm, ys) && i < |Run(cfg, vm, ys).answers|
    ensures var s := Run(cfg, vm, ys);
      var w := s.answers[i];
      && s.vm.free != []
      && VaToPa(s.vm, cfg.cpu, PageOf(cfg, w.vaddr), refill) == (s.vm, Shr(w.data, cfg.g.pageBits), false)
      && w.data == Shl(Shr(w.data, cfg.g.pageBits), cfg.g.pageBits)
  {
    var s := Run(cfg, vm, ys);
    hide Run, RunOk, CachesOk, Config.Valid, Conserved, Shaped;
    InvShaped(cfg.g, s.vm);
    hide VirtualMemory.Inv;
    assert Done(cfg, s.vm, s.answers[i]);
    DoneIsTranslation(cfg, s.vm, s.answers[i], refill);
  }

  lemma DoneIsTranslation(cfg: Config, vm: Vm, w: Walk, refill: seq<Page>)
    requires Shaped(cfg.g, vm) && Done(cfg, vm, w)
    ensures vm.free != []
    ensures VaToPa(vm, cfg.cpu, PageOf(cfg, w.vaddr), refill) == (vm, Shr(w.data, cfg.g.pageBits), false)
    ensures w.data == Shl(Shr(w.data, cfg.g.pageBits), cfg.g.pageBits)
  {
    hide Geometry.Valid, IsPage, Descended, Pow2;
    var f := vm.frames[(cfg.cpu, PageOf(cfg, w.vaddr))];
    ShrShl(f, cfg.g.pageBits, 0);
    ShrNothing(f);
    hide Shr, Shl, PageOf;
  }

  /** Cache `i` holds entries of level N - i. It finds the right one when the bits it is indexed
      by, those above the shift of `psclLevels[i]`, include all that select the entry's page
      table page; so for caches of levels N + 1 down to 2, as built by default, and of N down to 1. */
  ghost predicate Contiguous(cfg: Config) {
    forall i :: 0 <= i < cfg.N() ==> cfg.psclLevels[i] <= cfg.N() - i + 1
  }

  /** The table with the entry exists; the walk starts at the entry get_pte_pa gives if and only if
      that table is the first in its page, so always when tables have the size of a page. */
  ghost predicate StartsAtEntry(cfg: Config, vm: Vm, vaddr: nat, w: Walk) {
    && cfg.Valid() && LevelOk(cfg.g, w.level) && IsPage(cfg.g, PageOf(cfg, vaddr))
    && var k := KeyOf(cfg.g, cfg.cpu, PageOf(cfg, vaddr), w.level);
    && k in vm.tables
    && (KnownPte(cfg, vm, vaddr, w.level, w.address) <==> TableSlot(cfg.g, vm.tables[k]) == 0)
    && (cfg.g.TableBits() == cfg.g.pageBits ==> KnownPte(cfg, vm, vaddr, w.level, w.address))
  }

  /** Where a hit in any state that satisfies the invariant starts its walk. */
  lemma {:induction false} HitAtItsEntry(cfg: Config, s: Ptw, x: Request, hits: seq<Option<Entry>>)
    requires PtwInv(cfg, s) && PsclOk(cfg, s.pscl) && ReadOk(cfg, s.pscl, (x, hits))
    requires EntryOk(cfg, WalkInit(cfg, x, hits))
    requires Contiguous(cfg) && LastHit(hits).Some?
    ensures StartsAtEntry(cfg, s.vm, x.vaddr, HandleRead(cfg, s, x, hits))
  {
    hide PtwInv, PsclOk, ReadOk, LastHit, Shaped, KnownPte, Contiguous;
    HitEntry(cfg, s, x, hits);
    InvParts(cfg, s);
    InvShaped(cfg.g, s.vm);
    VaddrPage(cfg, x.vaddr);
    SameTable(cfg, s.vm, x.vaddr, LastHit(hits).value);
  }

  /** The accepted reads of a cycle, one by one: each walk is what handle_read gives. */
  lemma {:induction false} ReadAllAt(cfg: Config, s: Ptw, rs: seq<(Request, seq<Option<Entry>>)>, j: nat)
    requires cfg.Valid() && PsclOk(cfg, s.pscl) && (forall i :: 0 <= i < |rs| ==> ReadOk(cfg, s.pscl, rs[i]))
    requires j < |rs|
    ensures EntryOk(cfg, WalkInit(cfg, rs[j].0, rs[j].1))
    ensures var t := ReadAll(cfg, s, rs);
      && t.vm == s.vm && t.pscl == s.pscl && |t.mshr| == |s.mshr| + |rs|
      && t.mshr[|s.mshr| + j] == HandleRead(cfg, s, rs[j].0, rs[j].1).(token := s.accepted + j)
    decreases |rs|
  {
    hide Config.Valid, WalkInit, EntryOk, LastHit, StartAddress, OffsetOf, PageOf, IsVaddr;
    assert ReadOk(cfg, s.pscl, rs[0]) && ReadOk(cfg, s.pscl, rs[j]);
    WalkInitOk(cfg, s.pscl, rs[0].0, rs[0].1);
    WalkInitOk(cfg, s.pscl, rs[j].0, rs[j].1);
    var u := Accept(cfg, s, rs[0].0, rs[0].1);
    if |rs| == 1 {
      assert rs[1..] == [];
    } else {
      hide ReadOk;
      ReadAllAt(cfg, u, rs[1..], if j > 0 then j - 1 else 0);
      if j == 0 { ReadAllKeepsFirst(cfg, u, rs[1..]); }
    }
  }

  lemma {:induction false} ReadAllKeepsFirst(cfg: Config, s: Ptw, rs: seq<(Request, seq<Option<Entry>>)>)
    requires cfg.Valid() && PsclOk(cfg, s.pscl) && (forall i :: 0 <= i < |rs| ==> ReadOk(cfg, s.pscl, rs[i]))
    ensures var t := ReadAll(cfg, s, rs); |t.mshr| >= |s.mshr| && t.mshr[..|s.mshr|] == s.mshr
    decreases |rs|
  {
    hide Config.Valid, WalkInit, EntryOk, HandleRead;
    if rs != [] {
      assert ReadOk(cfg, s.pscl, rs[0]);
      WalkInitOk(cfg, s.pscl, rs[0].0, rs[0].1);
      hide ReadOk;
      var u := Accept(cfg, s, rs[0].0, rs[0].1);
      ReadAllKeepsFirst(cfg, u, rs[1..]);
      assert ReadAll(cfg, s, rs).mshr[..|u.mshr|][..|s.mshr|] == s.mshr;
    }
  }

  /** In every cycle of every run, a walk that starts from a hit starts at the very entry
      get_pte_pa gives for its level if and only if the page table page is the first in its page;
      so always when page table pages have the size of a page. */
  lemma {:induction false} HitStartsAtItsEntry(cfg: Config, vm: Vm, ys: seq<Cycle>, y: Cycle, j: nat)
    requires RunOk(cfg, vm, ys) && CycleOk(cfg, Run(cfg, vm, ys), y) && Contiguous(cfg)
    requires j < |y.requests| && LastHit(y.requests[j].1).Some?
    ensures var s := BeforeReads(cfg, Run(cfg, vm, ys), y);
      var t := Operate(cfg, Run(cfg, vm, ys), y);
      && |t.mshr| == |s.mshr| + |y.requests|
      && var w := t.mshr[|s.mshr| + j];
         var x := y.requests[j].0;
      && w.req == x && w.level == LastHit(y.requests[j].1).value.level
      && StartsAtEntry(cfg, t.vm, x.vaddr, w)
  {
    hide PtwInv, Run, RunOk, Config.Valid, WalkInit, EntryOk, LastHit, HandleRead, BeforeReads, Contiguous, VmOk,
      KnownPte, PageOf, IsPage, KeyOf, TableSlot;
    var s := BeforeReads(cfg, Run(cfg, vm, ys), y);
    var (x, hits) := y.requests[j];
    assert ReadOk(cfg, s.pscl, y.requests[j]);
    hide ReadOk;
    ReadAllAt(cfg, s, y.requests, j);
    HitAtItsEntry(cfg, s, x, hits);
    HitFields(cfg, s, x, hits);
  }

  lemma HitFields(cfg: Config, s: Ptw, x: Request, hits: seq<Option<Entry>>)
    requires cfg.Valid() && IsVaddr(x.vaddr) && LastHit(hits).Some? && EntryOk(cfg, WalkInit(cfg, x, hits))
    ensures var w := HandleRead(cfg, s, x, hits); w.level == LastHit(hits).value.level && w.req == x && w.sent == 1
  {
    hide Config.Valid, IsVaddr, LastHit, StartAddress, OffsetOf, PageOf;
  }

  /** What a hit gives: a known entry whose page table page covers the request's address. */
  lemma {:induction false} HitEntry(cfg: Config, s: Ptw, x: Request, hits: seq<Option<Entry>>)
    requires PtwInv(cfg, s) && PsclOk(cfg, s.pscl) && ReadOk(cfg, s.pscl, (x, hits)) && LastHit(hits).Some?
    requires Contiguous(cfg)
    ensures var e := LastHit(hits).value;
      && KnownPte(cfg, s.vm, e.vaddr, e.level, e.ptwAddr) && IsVaddr(x.vaddr)
      && Shr(e.vaddr, cfg.g.Shamt(e.level + 1)) == Shr(x.vaddr, cfg.g.Shamt(e.level + 1))
  {
    hide LastHit, WalksOk, Conserved, VirtualMemory.Inv, Shr, Geometry.Valid, KnownPte;
    var h := LastHit(hits);
    var i :| 0 <= i < |hits| && hits[i] == h;
    assert HitOk(cfg, s.pscl, x, i, hits[i]);
    var k :| 0 <= k < |s.pscl[i]| && s.pscl[i][k] == h.value;
    SpanGrows(cfg.g, cfg.psclLevels[i] - 1, h.value.level);
    ShrFurther(h.value.vaddr, x.vaddr, cfg.g.Shamt(cfg.psclLevels[i]), cfg.g.Shamt(h.value.level + 1));
  }

  lemma ShrFurther(a: nat, b: nat, m: nat, n: nat)
    requires Shr(a, m) == Shr(b, m) && m <= n
    ensures Shr(a, n) == Shr(b, n)
  {
    ShrAdd(a, m, n - m);
    ShrAdd(b, m, n - m);
  }

  /** The start address lies in the page of the table that also holds the request's entry. */
  lemma {:induction false} SameTable(cfg: Config, vm: Vm, vaddr: nat, e: Entry)
    requires cfg.Valid() && Shaped(cfg.g, vm) && IsVaddr(vaddr) && IsPage(cfg.g, PageOf(cfg, vaddr))
    requires KnownPte(cfg, vm, e.vaddr, e.level, e.ptwAddr)
    requires Shr(e.vaddr, cfg.g.Shamt(e.level + 1)) == Shr(vaddr, cfg.g.Shamt(e.level + 1))
    ensures var k := KeyOf(cfg.g, cfg.cpu, PageOf(cfg, vaddr), e.level);
      var a := StartAddress(cfg.g, e.ptwAddr, OffsetOf(cfg.g, PageOf(cfg, vaddr), e.level));
      && k in vm.tables
      && (KnownPte(cfg, vm, vaddr, e.level, a) <==> TableSlot(cfg.g, vm.tables[k]) == 0)
      && (cfg.g.TableBits() == cfg.g.pageBits ==> KnownPte(cfg, vm, vaddr, e.level, a))
  {
    hide Shr, Pow2, Geometry.Span, KeyOf, OffsetOf, StartAddress, EntryAddress, TableSlot;
    var g, p, q := cfg.g, PageOf(cfg, vaddr), PageOf(cfg, e.vaddr);
    ShrAdd(vaddr, g.pageBits, g.Span(e.level));
    ShrAdd(e.vaddr, g.pageBits, g.Span(e.level));
    KeyValue(g, cfg.cpu, p, e.level);
    KeyValue(g, cfg.cpu, q, e.level);
    var k := KeyOf(g, cfg.cpu, p, e.level);
    assert k == KeyOf(g, cfg.cpu, q, e.level) by { SameKey(g, cfg.cpu, p, q, e.level); }
    hide Geometry.Valid, PageOf, IsPage, LevelOk;
    StartInTable(g, vm.tables[k], OffsetOf(g, q, e.level), OffsetOf(g, p, e.level));
  }

  lemma SameKey(g: Geometry, cpu: nat, p: Page, q: Page, level: nat)
    requires LevelOk(g, level) && IsPage(g, p) && IsPage(g, q)
    requires KeyOf(g, cpu, p, level).prefix == KeyOf(g, cpu, q, level).prefix
    ensures KeyOf(g, cpu, p, level) == KeyOf(g, cpu, q, level)
  {
    hide SliceOf, PageNumber;
  }

  /** The page of one entry of a table with the offset of another is that other entry, if and
      only if the table is the first in its page. */
  lemma {:induction false} StartInTable(g: Geometry, table: nat, o: nat, p: nat)
    requires g.Valid() && table < Pow2(64) && Low(table, g.TableBits()) == 0
    requires o < Pow2(g.entryBits) && p < Pow2(g.entryBits)
    ensures EntryAddress(g, table, o) < Pow2(64) && EntryAddress(g, table, p) < Pow2(64)
    ensures StartAddress(g, EntryAddress(g, table, o), p) == EntryAddress(g, table, p) <==> TableSlot(g, table) == 0
    ensures g.TableBits() == g.pageBits ==> TableSlot(g, table) == 0
  {
    hide Shr, Low, Shl, Pow2, Geometry.Span, StartAddress, EntryAddress;
    EntryBound(g, table, o);
    EntryBound(g, table, p);
    EntryValue(g, table, o);
    EntryValue(g, table, p);
    StartAddressValue(g, EntryAddress(g, table, o), p);
    var t, n := g.TableBits(), g.SlotBits();
    var h, page := Shr(table, t), Shr(table, g.pageBits);
    Split(EntryAddress(g, table, p), t);
    ShrAdd(table, t, n);
    Split(h, n);
    ShlShl(page, n, t);
    if Shl(h, t) == Shl(page, g.pageBits) { ShlInjective(h, Shl(page, n), t); }
    NoBits(h);
  }

  lemma NoBits(v: nat)
    ensures Low(v, 0) == 0
  {
  }
}
