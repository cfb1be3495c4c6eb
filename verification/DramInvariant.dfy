/** What a DRAM channel keeps: banks and scheduled packets match, refreshes are
    respected, reads are conserved through merges, and the bus is never shared. */
module DramInvariant {
  import opened Sequences
  import opened SortedLists
  import opened Responses
  import opened DramAddress
  import opened DramChannel

  // ---- bank states ----

  ghost predicate BankHolds(cfg: Config, s: Chan, b: nat)
    requires cfg.Valid() && b < |s.banks|
  {
    var x := At(s.wq, s.rq, s.banks[b].pkt);
    x.Some? && x.value.scheduled && BankOf(cfg, x.value.address) == b && !s.banks[b].underRefresh
  }

  ghost predicate SlotHeld(cfg: Config, s: Chan, p: Slot)
    requires Sized(cfg, s)
  {
    var x := At(s.wq, s.rq, p);
    x.Some? ==>
      && (x.value.scheduled <==> x.value.ready.None?)
      && (x.value.scheduled ==> x.value.checked)
      && (x.value.scheduled ==>
            && s.banks[BankOf(cfg, x.value.address)].valid
            && s.banks[BankOf(cfg, x.value.address)].pkt == p)
  }

  /** Valid banks and scheduled packets correspond one to one. */
  ghost predicate Matched(cfg: Config, s: Chan) {
    && Sized(cfg, s)
    && (forall b :: 0 <= b < |s.banks| && s.banks[b].valid ==> BankHolds(cfg, s, b))
    && (forall p :: SlotHeld(cfg, s, p))
    && (s.bus.active.Some? ==> s.bus.active.value < |s.banks| && s.banks[s.bus.active.value].valid)
  }

  /** Every packet a bank works on, other than the one on the bus, is in the current mode's queue. */
  ghost predicate InMode(s: Chan) {
    forall b :: 0 <= b < |s.banks| && s.banks[b].valid && s.bus.active != Some(b) ==>
      s.banks[b].pkt.write == s.bus.writeMode
  }

  ghost predicate BankRefresh(cfg: Config, b: Bank, now: int) {
    && (b.underRefresh ==> !b.valid && b.refreshed.Some? && b.ready == b.refreshed.value + cfg.t.tRFC)
    && (!b.underRefresh && b.refreshed.Some? ==> b.refreshed.value + cfg.t.tRFC <= now)
  }

  /** A bank is under refresh for at least tRFC, and holds no packet meanwhile. */
  ghost predicate Refreshing(cfg: Config, s: Chan, now: int) {
    forall b :: 0 <= b < |s.banks| ==> BankRefresh(cfg, s.banks[b], now)
  }

  /** A refresh still owed waits for a packet to finish. */
  ghost predicate RefreshOwed(s: Chan) {
    forall b :: 0 <= b < |s.banks| && s.banks[b].needRefresh ==> s.banks[b].valid
  }

  /** `r` differs from `q` only in entries that were not yet checked and in what merges add. */
  ghost predicate Collapsed(q: Queue, r: Queue) {
    |r| == |q| && forall i :: 0 <= i < |q| ==>
      && (r[i].Some? ==>
            && q[i].Some? && r[i].value.address == q[i].value.address
            && r[i].value.scheduled == q[i].value.scheduled && r[i].value.ready == q[i].value.ready
            && (q[i].value.checked ==> r[i].value.checked))
      && (q[i].Some? && q[i].value.checked ==> r[i].Some?)
  }

  lemma {:induction false} CollapsedChain(q: Queue, r: Queue, u: Queue)
    requires Collapsed(q, r) && Collapsed(r, u)
    ensures Collapsed(q, u)
  {
  }

  lemma {:induction false} CollapsedKeeps(cfg: Config, s: Chan, t: Chan)
    requires Matched(cfg, s) && Collapsed(s.wq, t.wq) && Collapsed(s.rq, t.rq) && t.banks == s.banks && t.bus == s.bus
    ensures Matched(cfg, t)
  {
    hide BankOf;
    forall b | 0 <= b < |t.banks| && t.banks[b].valid ensures BankHolds(cfg, t, b) {
      assert BankHolds(cfg, s, b);
      assert SlotHeld(cfg, s, t.banks[b].pkt);
    }
    forall p ensures SlotHeld(cfg, t, p) {
      assert SlotHeld(cfg, s, p);
    }
  }

  lemma {:induction false} CheckWritesCollapses(cfg: Config, wq: Queue, i: nat)
    requires i <= |wq|
    ensures Collapsed(wq, CheckWrites(cfg, wq, i))
    decreases |wq| - i
  {
    if i < |wq| {
      if Unchecked(wq[i]) {
        var r := wq[i := if FindOther(cfg, wq, i, wq[i].value.address) < |wq| then None
          else Some(wq[i].value.(checked := true))];
        CheckWritesCollapses(cfg, r, i + 1);
        CollapsedChain(wq, r, CheckWrites(cfg, r, i + 1));
      } else {
        CheckWritesCollapses(cfg, wq, i + 1);
      }
    }
  }

  lemma {:induction false} CheckReadsCollapses(cfg: Config, wq: Queue, rq: Queue, answers: seq<Answer>, i: nat)
    requires i <= |rq|
    ensures Collapsed(rq, CheckReads(cfg, wq, rq, answers, i).0)
    decreases |rq| - i
  {
    if i < |rq| {
      if Unchecked(rq[i]) {
        var (r, a) := CheckRead(cfg, wq, rq, answers, i);
        CheckReadsCollapses(cfg, wq, r, a, i + 1);
        assert Collapsed(rq, r);
        CollapsedChain(rq, r, CheckReads(cfg, wq, r, a, i + 1).0);
      } else {
        CheckReadsCollapses(cfg, wq, rq, answers, i + 1);
      }
    }
  }

  // ---- finish, swap, refresh ----

  lemma {:induction false} FinishKeeps(cfg: Config, s: Chan, now: int)
    requires Matched(cfg, s) && InMode(s) && Refreshing(cfg, s, now)
    ensures var t := FinishDbus(s, now); Matched(cfg, t) && InMode(t) && Refreshing(cfg, t, now)
  {
    if BusDone(s, now) {
      var t := FinishDbus(s, now);
      var b := s.bus.active.value;
      assert BankHolds(cfg, s, b);
      hide BankOf;
      forall c | 0 <= c < |t.banks| && t.banks[c].valid ensures BankHolds(cfg, t, c) {
        assert BankHolds(cfg, s, c);
        assert SlotHeld(cfg, s, s.banks[c].pkt) && SlotHeld(cfg, s, s.banks[b].pkt);
      }
      forall p ensures SlotHeld(cfg, t, p) {
        assert SlotHeld(cfg, s, p);
      }
    }
  }

  /** What a reset changes: bank `i` lets go of its packet, nothing else. */
  lemma {:induction false} ResetBankKeeps(cfg: Config, s: Chan, i: nat, now: int)
    requires Matched(cfg, s) && Refreshing(cfg, s, now) && i < |s.banks| && s.bus.active != Some(i) && s.banks[i].valid
    ensures var t := ResetBank(cfg, s, i, now);
      && Matched(cfg, t) && Refreshing(cfg, t, now) && !t.banks[i].valid
      && (forall b :: 0 <= b < |s.banks| && b != i ==> t.banks[b] == s.banks[b])
  {
    var t := ResetBank(cfg, s, i, now);
    assert BankHolds(cfg, s, i);
    hide BankOf;
    forall c | 0 <= c < |t.banks| && t.banks[c].valid ensures BankHolds(cfg, t, c) {
      assert BankHolds(cfg, s, c);
      assert SlotHeld(cfg, s, s.banks[c].pkt) && SlotHeld(cfg, s, s.banks[i].pkt);
    }
    forall p ensures SlotHeld(cfg, t, p) {
      assert SlotHeld(cfg, s, p);
    }
  }

  lemma {:induction false} ResetBanksKeep(cfg: Config, s: Chan, i: nat, now: int)
    requires Matched(cfg, s) && Refreshing(cfg, s, now) && i <= |s.banks|
    requires forall b :: 0 <= b < i && s.banks[b].valid ==> s.bus.active == Some(b)
    ensures var t := ResetBanks(cfg, s, i, now);
      && Matched(cfg, t) && Refreshing(cfg, t, now)
      && (forall b :: 0 <= b < |t.banks| && t.banks[b].valid ==> s.bus.active == Some(b))
      && (s.bus.active.Some? ==> t.banks[s.bus.active.value] == s.banks[s.bus.active.value])
    decreases |s.banks| - i
  {
    hide Matched, Refreshing, ResetBank;
    assert Matched(cfg, s) ==> s.bus.active.Some? ==> s.bus.active.value < |s.banks| by { MatchedActive(cfg, s); }
    if i < |s.banks| {
      if s.bus.active != Some(i) && s.banks[i].valid {
        ResetBankKeeps(cfg, s, i, now);
        ResetBanksKeep(cfg, ResetBank(cfg, s, i, now), i + 1, now);
      } else {
        ResetBanksKeep(cfg, s, i + 1, now);
      }
    }
  }

  lemma MatchedActive(cfg: Config, s: Chan)
    requires Matched(cfg, s)
    ensures s.bus.active.Some? ==> s.bus.active.value < |s.banks| && s.banks[s.bus.active.value].valid
  {
  }

  lemma {:induction false} SwapKeeps(cfg: Config, s: Chan, now: int)
    requires Matched(cfg, s) && InMode(s) && Refreshing(cfg, s, now)
    ensures var t := SwapWriteMode(cfg, s, now); Matched(cfg, t) && InMode(t) && Refreshing(cfg, t, now)
  {
    if ShouldSwap(s) {
      ResetBanksKeep(cfg, s, 0, now);
      var r, t := ResetBanks(cfg, s, 0, now), SwapWriteMode(cfg, s, now);
      hide BankOf, ResetBanks;
      forall c | 0 <= c < |t.banks| && t.banks[c].valid ensures BankHolds(cfg, t, c) { assert BankHolds(cfg, r, c); }
      forall p ensures SlotHeld(cfg, t, p) { assert SlotHeld(cfg, r, p); }
    }
  }

  lemma {:induction false} RefreshKeeps(cfg: Config, s: Chan, now: int)
    requires Matched(cfg, s) && InMode(s) && Refreshing(cfg, s, now)
    ensures var t := ScheduleRefresh(cfg, s, now);
      Matched(cfg, t) && InMode(t) && Refreshing(cfg, t, now) && RefreshOwed(t)
  {
    var t := ScheduleRefresh(cfg, s, now);
    hide BankOf;
    forall c | 0 <= c < |t.banks| ensures BankRefresh(cfg, t.banks[c], now)
      && (t.banks[c].needRefresh ==> t.banks[c].valid) {
      assert BankRefresh(cfg, s.banks[c], now);
    }
    forall c | 0 <= c < |t.banks| && t.banks[c].valid ensures BankHolds(cfg, t, c) { assert BankHolds(cfg, s, c); }
    forall p ensures SlotHeld(cfg, t, p) { assert SlotHeld(cfg, s, p); }
  }

  // ---- populate, service ----

  lemma {:induction false} PopulateKeeps(cfg: Config, s: Chan, now: int)
    requires Matched(cfg, s) && InMode(s) && Refreshing(cfg, s, now) && RefreshOwed(s)
    ensures var t := PopulateDbus(cfg, s, now);
      Matched(cfg, t) && InMode(t) && Refreshing(cfg, t, now) && RefreshOwed(t)
  {
    var t := PopulateDbus(cfg, s, now);
    hide BankOf, BankgroupOf, MinBank;
    forall c | 0 <= c < |t.banks| ensures BankRefresh(cfg, t.banks[c], now) {
      assert BankRefresh(cfg, s.banks[c], now);
    }
    forall c | 0 <= c < |t.banks| && t.banks[c].valid ensures BankHolds(cfg, t, c) { assert BankHolds(cfg, s, c); }
    forall p ensures SlotHeld(cfg, t, p) { assert SlotHeld(cfg, s, p); }
  }

  /** Servicing starts only an idle bank, so it neither drops a refresh that is owed nor
      disturbs one under way. */
  lemma {:induction false} ServiceKeeps(cfg: Config, s: Chan, p: Slot, now: int)
    requires Matched(cfg, s) && InMode(s) && Refreshing(cfg, s, now) && RefreshOwed(s)
    requires p.write == s.bus.writeMode
    requires At(s.wq, s.rq, p).Some? ==> At(s.wq, s.rq, p).value.checked
    ensures var t := ServicePacket(cfg, s, p, now);
      Matched(cfg, t) && InMode(t) && Refreshing(cfg, t, now) && RefreshOwed(t)
    ensures forall b :: 0 <= b < |s.banks| && s.banks[b].needRefresh ==>
      ServicePacket(cfg, s, p, now).banks[b] == s.banks[b]
  {
    hide BankOf, RowOf;
    var t := ServicePacket(cfg, s, p, now);
    assert SlotHeld(cfg, s, p);
    forall c | 0 <= c < |t.banks| ensures BankRefresh(cfg, t.banks[c], now) {
      assert BankRefresh(cfg, s.banks[c], now);
    }
    forall c | 0 <= c < |t.banks| && t.banks[c].valid ensures BankHolds(cfg, t, c) {
      if s.banks[c].valid {
        assert BankHolds(cfg, s, c);
        assert SlotHeld(cfg, s, s.banks[c].pkt);
      }
    }
    forall p' ensures SlotHeld(cfg, t, p') { assert SlotHeld(cfg, s, p'); }
  }

  // ---- collisions ----

  ghost predicate Checked(x: Option<Request>) { x.Some? && x.value.checked }

  /** Checked entries name different blocks. */
  ghost predicate Distinct(cfg: Config, q: Queue) {
    forall i, j :: 0 <= i < j < |q| && Checked(q[i]) && Checked(q[j]) ==>
      Block(cfg, q[i].value.address) != Block(cfg, q[j].value.address)
  }

  ghost predicate AllChecked(q: Queue, n: nat) {
    forall i :: 0 <= i < n && i < |q| && q[i].Some? ==> q[i].value.checked
  }

  lemma {:induction false} CheckWritesDistinct(cfg: Config, wq: Queue, i: nat)
    requires i <= |wq| && Distinct(cfg, wq) && AllChecked(wq, i)
    ensures var r := CheckWrites(cfg, wq, i); Distinct(cfg, r) && AllChecked(r, |r|)
    decreases |wq| - i
  {
    if i < |wq| {
      if Unchecked(wq[i]) {
        var r := wq[i := if FindOther(cfg, wq, i, wq[i].value.address) < |wq| then None
          else Some(wq[i].value.(checked := true))];
        hide Block;
        CheckWritesDistinct(cfg, r, i + 1);
      } else {
        CheckWritesDistinct(cfg, wq, i + 1);
      }
    }
  }

  lemma {:induction false} CheckReadsDistinct(cfg: Config, wq: Queue, rq: Queue, answers: seq<Answer>, i: nat)
    requires i <= |rq| && Distinct(cfg, rq) && AllChecked(rq, i)
    ensures var r := CheckReads(cfg, wq, rq, answers, i).0; Distinct(cfg, r) && AllChecked(r, |r|)
    decreases |rq| - i
  {
    if i < |rq| {
      if Unchecked(rq[i]) {
        var (r, a) := CheckRead(cfg, wq, rq, answers, i);
        hide Block, SetUnion;
        assert Distinct(cfg, r) && AllChecked(r, i + 1);
        CheckReadsDistinct(cfg, wq, r, a, i + 1);
      } else {
        CheckReadsDistinct(cfg, wq, rq, answers, i + 1);
      }
    }
  }

  // ---- conservation of reads ----

  /** An accepted read: model-only bookkeeping, indexed by token. */
  datatype Read = Read(address: nat, deps: seq<nat>, target: Option<nat>)

  ghost function Bag(x: Option<Request>): multiset<nat> {
    if x.Some? then multiset(x.value.tokens) else multiset{}
  }

  ghost function Held(q: Queue): multiset<nat> {
    if q == [] then multiset{} else Bag(q[0]) + Held(q[1..])
  }

  lemma {:induction false} HeldUpdate(q: Queue, i: nat, x: Option<Request>, t: nat)
    requires i < |q|
    ensures Held(q[i := x])[t] + Bag(q[i])[t] == Held(q)[t] + Bag(x)[t]
  {
    var r := q[i := x];
    if i > 0 {
      assert r[1..] == q[1..][i - 1 := x];
      HeldUpdate(q[1..], i - 1, x, t);
    } else {
      assert r[1..] == q[1..];
    }
    assert Held(r) == Bag(r[0]) + Held(r[1..]) && Held(q) == Bag(q[0]) + Held(q[1..]);
    hide Held, Bag;
  }

  /** Every accepted read is in one read-queue entry or in one answer, once. */
  ghost predicate Conserved(n: nat, rq: Queue, answers: seq<Answer>) {
    forall t: nat :: Places(rq, answers, t) == if t < n then 1 else 0
  }

  /** In how many places read `t` is. */
  ghost function Places(rq: Queue, answers: seq<Answer>, t: nat): nat {
    Held(rq)[t] + Given(answers)[t]
  }

  /** An entry or answer serves every read it stands for: same block, all dependent
      instructions, and its return queue. */
  ghost predicate Serves(cfg: Config, accepted: seq<Read>, address: nat, deps: seq<nat>, ret: seq<nat>,
      tokens: seq<nat>) {
    && Sorted(deps) && Sorted(ret)
    && forall k :: 0 <= k < |tokens| ==> ServesOne(cfg, accepted, address, deps, ret, tokens[k])
  }

  ghost predicate ServesOne(cfg: Config, accepted: seq<Read>, address: nat, deps: seq<nat>, ret: seq<nat>, t: nat) {
    && t < |accepted| && Block(cfg, accepted[t].address) == Block(cfg, address)
    && (forall d :: d in accepted[t].deps ==> d in deps)
    && (accepted[t].target.Some? ==> accepted[t].target.value in ret)
  }

  ghost predicate Serving(cfg: Config, accepted: seq<Read>, rq: Queue, answers: seq<Answer>) {
    && (forall i :: 0 <= i < |rq| && rq[i].Some? ==>
      Serves(cfg, accepted, rq[i].value.address, rq[i].value.deps, rq[i].value.ret, rq[i].value.tokens))
    && (forall i :: 0 <= i < |answers| ==>
      Serves(cfg, accepted, answers[i].address, answers[i].deps, answers[i].ret, answers[i].tokens))
  }

  /** Writes ask for no response. */
  ghost predicate Silent(wq: Queue) {
    forall i :: 0 <= i < |wq| && wq[i].Some? ==>
      wq[i].value.ret == [] && wq[i].value.tokens == [] && Sorted(wq[i].value.deps)
  }

  ghost predicate ReadsKept(cfg: Config, accepted: seq<Read>, rq: Queue, answers: seq<Answer>) {
    Conserved(|accepted|, rq, answers) && Serving(cfg, accepted, rq, answers)
  }

  lemma MergeServes(cfg: Config, accepted: seq<Read>, a: Request, x: Request)
    requires Serves(cfg, accepted, a.address, a.deps, a.ret, a.tokens)
    requires Serves(cfg, accepted, x.address, x.deps, x.ret, x.tokens)
    requires Block(cfg, a.address) == Block(cfg, x.address)
    ensures var m := MergeRead(a, x); Serves(cfg, accepted, m.address, m.deps, m.ret, m.tokens)
  {
    var m := MergeRead(a, x);
    UnionMembers(a.deps, x.deps);
    UnionSorted(a.deps, x.deps);
    UnionMembers(a.ret, x.ret);
    UnionSorted(a.ret, x.ret);
    hide SetUnion, Block, Sorted;
    forall k | 0 <= k < |m.tokens| ensures ServesOne(cfg, accepted, m.address, m.deps, m.ret, m.tokens[k]) {
      if k < |a.tokens| {
        assert ServesOne(cfg, accepted, a.address, a.deps, a.ret, a.tokens[k]);
      } else {
        assert ServesOne(cfg, accepted, x.address, x.deps, x.ret, x.tokens[k - |a.tokens|]);
      }
    }
  }

  /** Answering an entry moves its reads from the queue to the log. */
  lemma {:induction false} AnswerKeeps(cfg: Config, accepted: seq<Read>, rq: Queue, answers: seq<Answer>, i: nat)
    requires ReadsKept(cfg, accepted, rq, answers) && i < |rq| && rq[i].Some?
    ensures ReadsKept(cfg, accepted, rq[i := None], answers + [AnswerTo(rq[i].value)])
  {
    AnswerConserves(|accepted|, rq, answers, i);
    hide Serves, Conserved;
  }

  lemma {:induction false} AnswerConserves(n: nat, rq: Queue, answers: seq<Answer>, i: nat)
    requires Conserved(n, rq, answers) && i < |rq| && rq[i].Some?
    ensures Conserved(n, rq[i := None], answers + [AnswerTo(rq[i].value)])
  {
    var a := AnswerTo(rq[i].value);
    var q, b := rq[i := None], answers + [a];
    forall t: nat ensures Places(q, b, t) == if t < n then 1 else 0 {
      assert Places(rq, answers, t) == if t < n then 1 else 0;
      HeldUpdate(rq, i, None, t);
      GivenAppend(answers, a);
      hide Held, Given;
    }
  }

  /** Merging moves them to another entry. */
  lemma {:induction false} MergeKeeps(cfg: Config, accepted: seq<Read>, rq: Queue, answers: seq<Answer>, i: nat, k: nat)
    requires ReadsKept(cfg, accepted, rq, answers) && i < |rq| && k < |rq| && i != k && rq[i].Some? && rq[k].Some?
    requires Block(cfg, rq[k].value.address) == Block(cfg, rq[i].value.address)
    ensures ReadsKept(cfg, accepted, rq[k := Some(MergeRead(rq[k].value, rq[i].value))][i := None], answers)
  {
    hide Serves;
    var m := Some(MergeRead(rq[k].value, rq[i].value));
    MergeServes(cfg, accepted, rq[k].value, rq[i].value);
    assert Bag(m) == Bag(rq[k]) + Bag(rq[i]);
    var q := rq[k := m][i := None];
    forall t: nat ensures Places(q, answers, t) == if t < |accepted| then 1 else 0 {
      assert Places(rq, answers, t) == if t < |accepted| then 1 else 0;
      HeldUpdate(rq, k, m, t);
      HeldUpdate(rq[k := m], i, None, t);
      hide Held, Given;
    }
    hide Places;
  }

  lemma {:induction false} CheckReadsKeep(cfg: Config, accepted: seq<Read>, wq: Queue, rq: Queue, answers: seq<Answer>,
      i: nat)
    requires ReadsKept(cfg, accepted, rq, answers) && i <= |rq|
    ensures var (r, a) := CheckReads(cfg, wq, rq, answers, i); ReadsKept(cfg, accepted, r, a)
    decreases |rq| - i
  {
    if i < |rq| {
      hide ReadsKept, Block, AnswerTo, MergeRead;
      if Unchecked(rq[i]) {
        var (r, a) := CheckRead(cfg, wq, rq, answers, i);
        CheckReadKeeps(cfg, accepted, wq, rq, answers, i);
        CheckReadsKeep(cfg, accepted, wq, r, a, i + 1);
      } else {
        CheckReadsKeep(cfg, accepted, wq, rq, answers, i + 1);
      }
    }
  }

  lemma {:induction false} CheckReadKeeps(cfg: Config, accepted: seq<Read>, wq: Queue, rq: Queue, answers: seq<Answer>,
      i: nat)
    requires ReadsKept(cfg, accepted, rq, answers) && i < |rq| && Unchecked(rq[i])
    ensures var (r, a) := CheckRead(cfg, wq, rq, answers, i); ReadsKept(cfg, accepted, r, a)
  {
    hide ReadsKept, Block, AnswerTo, MergeRead;
    var x := rq[i].value;
    if FindBlock(cfg, wq, 0, |wq|, x.address) < |wq| {
      AnswerKeeps(cfg, accepted, rq, answers, i);
    } else {
      var k := FindOther(cfg, rq, i, x.address);
      if k < |rq| {
        MergeKeeps(cfg, accepted, rq, answers, i, k);
      } else {
        FlagKeeps(cfg, accepted, rq, answers, i, x.(checked := true));
      }
    }
  }

  /** Flags and times are not part of what an entry serves. */
  lemma {:induction false} FlagKeeps(cfg: Config, accepted: seq<Read>, rq: Queue, answers: seq<Answer>, i: nat,
      y: Request)
    requires ReadsKept(cfg, accepted, rq, answers) && i < |rq| && rq[i].Some?
    requires var x := rq[i].value; y.address == x.address && y.deps == x.deps && y.ret == x.ret && y.tokens == x.tokens
    ensures ReadsKept(cfg, accepted, rq[i := Some(y)], answers)
  {
    var q := rq[i := Some(y)];
    forall t: nat ensures Places(q, answers, t) == if t < |accepted| then 1 else 0 {
      HeldUpdate(rq, i, Some(y), t);
      assert Places(rq, answers, t) == if t < |accepted| then 1 else 0;
      hide Held, Given;
    }
    hide Serves, Places;
  }

  lemma {:induction false} DrainKeeps(cfg: Config, accepted: seq<Read>, rq: Queue, answers: seq<Answer>, i: nat)
    requires ReadsKept(cfg, accepted, rq, answers) && i <= |rq| && forall k :: 0 <= k < i ==> rq[k].None?
    ensures var (r, a) := DrainReads(rq, answers, i);
      ReadsKept(cfg, accepted, r, a) && forall k :: 0 <= k < |r| ==> r[k].None?
    decreases |rq| - i
  {
    if i < |rq| {
      hide ReadsKept;
      if rq[i].Some? {
        AnswerKeeps(cfg, accepted, rq, answers, i);
        DrainKeeps(cfg, accepted, rq[i := None], answers + [AnswerTo(rq[i].value)], i + 1);
      } else {
        assert rq[i := None] == rq;
        DrainKeeps(cfg, accepted, rq, answers, i + 1);
      }
    }
  }

  ghost predicate ReadsInv(cfg: Config, accepted: seq<Read>, s: Chan) {
    ReadsKept(cfg, accepted, s.rq, s.answers) && Silent(s.wq)
  }

  lemma {:induction false} CheckWritesSilent(cfg: Config, wq: Queue, i: nat)
    requires i <= |wq| && Silent(wq)
    ensures Silent(CheckWrites(cfg, wq, i))
    decreases |wq| - i
  {
    if i < |wq| {
      if Unchecked(wq[i]) {
        var r := wq[i := if FindOther(cfg, wq, i, wq[i].value.address) < |wq| then None
          else Some(wq[i].value.(checked := true))];
        CheckWritesSilent(cfg, r, i + 1);
      } else {
        CheckWritesSilent(cfg, wq, i + 1);
      }
    }
  }

  /** Completing a write answers nobody. */
  lemma SilentAnswer(cfg: Config, accepted: seq<Read>, rq: Queue, answers: seq<Answer>, a: Answer)
    requires ReadsKept(cfg, accepted, rq, answers) && a.ret == [] && a.tokens == [] && Sorted(a.deps)
    ensures ReadsKept(cfg, accepted, rq, answers + [a])
  {
    var b := answers + [a];
    forall t: nat ensures Places(rq, b, t) == if t < |accepted| then 1 else 0 {
      assert Places(rq, answers, t) == if t < |accepted| then 1 else 0;
      GivenAppend(answers, a);
      hide Given;
    }
    hide Places, ServesOne;
  }

  lemma {:induction false} FinishReads(cfg: Config, accepted: seq<Read>, s: Chan, now: int)
    requires ReadsInv(cfg, accepted, s) && Matched(cfg, s)
    ensures ReadsInv(cfg, accepted, FinishDbus(s, now))
  {
    if BusDone(s, now) {
      var p := s.banks[s.bus.active.value].pkt;
      assert BankHolds(cfg, s, s.bus.active.value);
      hide ReadsKept;
      if p.write {
        SilentAnswer(cfg, accepted, s.rq, s.answers, AnswerTo(s.wq[p.index].value));
      } else {
        AnswerKeeps(cfg, accepted, s.rq, s.answers, p.index);
      }
    }
  }

  /** Changing an entry's flags and time changes no read. */
  lemma {:induction false} SetFlagsReads(cfg: Config, accepted: seq<Read>, s: Chan, p: Slot, scheduled: bool,
      ready: Option<int>)
    requires ReadsInv(cfg, accepted, s) && At(s.wq, s.rq, p).Some?
    ensures ReadsInv(cfg, accepted, SetAt(s, p, Some(At(s.wq, s.rq, p).value.(scheduled := scheduled, ready := ready))))
  {
    hide ReadsKept;
    if !p.write {
      FlagKeeps(cfg, accepted, s.rq, s.answers, p.index, s.rq[p.index].value.(scheduled := scheduled, ready := ready));
    }
  }

  lemma {:induction false} ResetBanksReads(cfg: Config, accepted: seq<Read>, s: Chan, i: nat, now: int)
    requires ReadsInv(cfg, accepted, s) && i <= |s.banks|
    ensures ReadsInv(cfg, accepted, ResetBanks(cfg, s, i, now))
    decreases |s.banks| - i
  {
    if i < |s.banks| {
      if s.bus.active != Some(i) && s.banks[i].valid {
        var b := s.banks[i];
        if At(s.wq, s.rq, b.pkt).Some? { SetFlagsReads(cfg, accepted, s, b.pkt, false, Some(now)); }
        hide ReadsKept;
        ResetBanksReads(cfg, accepted, ResetBank(cfg, s, i, now), i + 1, now);
      } else {
        ResetBanksReads(cfg, accepted, s, i + 1, now);
      }
    }
  }

  lemma {:induction false} ServiceReads(cfg: Config, accepted: seq<Read>, s: Chan, p: Slot, now: int)
    requires ReadsInv(cfg, accepted, s) && Sized(cfg, s)
    ensures ReadsInv(cfg, accepted, ServicePacket(cfg, s, p, now))
  {
    if At(s.wq, s.rq, p).Some? { SetFlagsReads(cfg, accepted, s, p, true, None); }
    hide ReadsKept, BankOf, RowOf;
  }

  lemma {:induction false} CollisionReads(cfg: Config, accepted: seq<Read>, s: Chan)
    requires ReadsInv(cfg, accepted, s)
    ensures ReadsInv(cfg, accepted, CheckCollisions(cfg, s))
  {
    hide ReadsKept;
    CheckWritesSilent(cfg, s.wq, 0);
    CheckReadsKeep(cfg, accepted, CheckWrites(cfg, s.wq, 0), s.rq, s.answers, 0);
  }

  /** The entry of a new read, and its token. */
  ghost function NewEntry(x: Read, token: nat, now: int): Request {
    Request(x.address, Some(now), false, false, x.deps, if x.target.Some? then [x.target.value] else [], [token])
  }

  lemma EnterPlaces(rq: Queue, answers: seq<Answer>, k: nat, y: Request, t: nat)
    requires k < |rq| && rq[k].None?
    ensures Places(rq[k := Some(y)], answers, t) == Places(rq, answers, t) + multiset(y.tokens)[t]
  {
    HeldUpdate(rq, k, Some(y), t);
  }

  lemma {:induction false} EnterConserves(n: nat, rq: Queue, answers: seq<Answer>, k: nat, y: Request)
    requires Conserved(n, rq, answers) && k < |rq| && rq[k].None? && y.tokens == [n]
    ensures Conserved(n + 1, rq[k := Some(y)], answers)
  {
    var q := rq[k := Some(y)];
    forall t: nat ensures Places(q, answers, t) == if t < n + 1 then 1 else 0 {
      assert Places(rq, answers, t) == if t < n then 1 else 0;
      EnterPlaces(rq, answers, k, y, t);
      hide Places;
    }
    hide Places;
  }

  lemma {:induction false} EnterServes(cfg: Config, accepted: seq<Read>, rq: Queue, answers: seq<Answer>, k: nat,
      x: Read, now: int)
    requires Serving(cfg, accepted, rq, answers) && k < |rq| && Sorted(x.deps)
    ensures Serving(cfg, accepted + [x], rq[k := Some(NewEntry(x, |accepted|, now))], answers)
  {
    var more, y := accepted + [x], NewEntry(x, |accepted|, now);
    var q := rq[k := Some(y)];
    hide Block;
    assert Serves(cfg, more, y.address, y.deps, y.ret, y.tokens) by {
      assert ServesOne(cfg, more, y.address, y.deps, y.ret, |accepted|);
    }
    hide Serves, NewEntry;
    forall i | 0 <= i < |q| && q[i].Some? ensures Serves(cfg, more, q[i].value.address, q[i].value.deps, q[i].value.ret,
      q[i].value.tokens) {
      if i != k {
        MoreServes(cfg, accepted, x, rq[i].value.address, rq[i].value.deps, rq[i].value.ret, rq[i].value.tokens);
      }
    }
    forall i | 0 <= i < |answers| ensures Serves(cfg, more, answers[i].address, answers[i].deps, answers[i].ret,
      answers[i].tokens) {
      MoreServes(cfg, accepted, x, answers[i].address, answers[i].deps, answers[i].ret, answers[i].tokens);
    }
  }

  lemma {:induction false} AddReadKeeps(cfg: Config, accepted: seq<Read>, s: Chan, x: Read, now: int)
    requires ReadsInv(cfg, accepted, s) && Sorted(x.deps)
    ensures var (t, ok) := AddRead(s, x.address, x.deps, x.target, |accepted|, now);
      if ok then ReadsInv(cfg, accepted + [x], t) else t == s
  {
    var k := Free(s.rq);
    if k < |s.rq| {
      EnterConserves(|accepted|, s.rq, s.answers, k, NewEntry(x, |accepted|, now));
      EnterServes(cfg, accepted, s.rq, s.answers, k, x, now);
      hide Conserved, Serving, Silent;
    }
  }

  lemma {:induction false} MoreServes(cfg: Config, accepted: seq<Read>, x: Read, address: nat, deps: seq<nat>,
      ret: seq<nat>, tokens: seq<nat>)
    requires Serves(cfg, accepted, address, deps, ret, tokens)
    ensures Serves(cfg, accepted + [x], address, deps, ret, tokens)
  {
    forall k | 0 <= k < |tokens| ensures ServesOne(cfg, accepted + [x], address, deps, ret, tokens[k]) {
      assert ServesOne(cfg, accepted, address, deps, ret, tokens[k]);
    }
  }

  // ---- the data bus ----

  /** What a transfer leaves behind for later ones. */
  ghost predicate TransferOk(cfg: Config, x: Transfer, bgReady: seq<int>, now: int) {
    && x.end == x.start + cfg.t.returnTime && x.issued <= x.start && x.issued <= now
    && x.bankgroup < |bgReady| && bgReady[x.bankgroup] >= x.issued + cfg.t.returnTime + cfg.t.stall
  }

  /** `x` before `y`: the windows do not overlap, a change of direction leaves the
      turn-around time, and a bankgroup waits out its stall. */
  ghost predicate Spaced(cfg: Config, x: Transfer, y: Transfer) {
    && x.end <= y.issued <= y.start
    && (x.write != y.write ==> x.end + cfg.t.turnAround <= y.start)
    && (x.bankgroup == y.bankgroup ==> x.issued + cfg.t.returnTime + cfg.t.stall <= y.start)
  }

  /** How the last transfer relates to the state of the bus. */
  ghost predicate LastOk(cfg: Config, s: Chan, now: int) {
    && (s.bus.active.Some? ==> s.transfers != [])
    && (s.transfers != [] ==>
          var x := s.transfers[|s.transfers| - 1];
          && (s.bus.active.None? ==> x.end <= now)
          && (s.bus.active.Some? && s.bus.active.value < |s.banks| ==>
                x.end == s.banks[s.bus.active.value].ready && x.write == s.banks[s.bus.active.value].pkt.write)
          && (x.write != s.bus.writeMode ==> x.end + cfg.t.turnAround <= s.bus.available))
  }

  ghost predicate BusOk(cfg: Config, s: Chan, now: int) {
    && (forall i :: 0 <= i < |s.transfers| ==> TransferOk(cfg, s.transfers[i], s.bus.bgReady, now))
    && (forall i, j :: 0 <= i < j < |s.transfers| ==> Spaced(cfg, s.transfers[i], s.transfers[j]))
    && LastOk(cfg, s, now)
  }

  lemma FinishBus(cfg: Config, s: Chan, now: int)
    requires BusOk(cfg, s, now)
    ensures BusOk(cfg, FinishDbus(s, now), now)
  {
  }

  lemma {:induction false} ResetBanksLog(cfg: Config, s: Chan, i: nat, now: int)
    requires i <= |s.banks|
    ensures ResetBanks(cfg, s, i, now).transfers == s.transfers
    decreases |s.banks| - i
  {
    if i < |s.banks| {
      if s.bus.active != Some(i) && s.banks[i].valid {
        ResetBanksLog(cfg, ResetBank(cfg, s, i, now), i + 1, now);
      } else {
        ResetBanksLog(cfg, s, i + 1, now);
      }
    }
  }

  lemma SwapBus(cfg: Config, s: Chan, now: int)
    requires BusOk(cfg, s, now) && Matched(cfg, s) && Refreshing(cfg, s, now)
    ensures BusOk(cfg, SwapWriteMode(cfg, s, now), now)
  {
    if ShouldSwap(s) {
      ResetBanksLog(cfg, s, 0, now);
      ResetBanksKeep(cfg, s, 0, now);
      hide Matched, Refreshing, ResetBanks, Spaced;
      MatchedActive(cfg, s);
    }
  }

  lemma RefreshBus(cfg: Config, s: Chan, now: int)
    requires BusOk(cfg, s, now) && Matched(cfg, s)
    ensures BusOk(cfg, ScheduleRefresh(cfg, s, now), now)
  {
    if s.bus.active.Some? { assert BankHolds(cfg, s, s.bus.active.value); }
    hide Spaced;
  }

  lemma ServiceBus(cfg: Config, s: Chan, p: Slot, now: int)
    requires BusOk(cfg, s, now) && Matched(cfg, s)
    ensures BusOk(cfg, ServicePacket(cfg, s, p, now), now)
  {
    hide Spaced, BankOf, RowOf;
    MatchedActive(cfg, s);
  }

  lemma {:induction false} PopulateBus(cfg: Config, s: Chan, now: int)
    requires BusOk(cfg, s, now) && Matched(cfg, s) && InMode(s)
    ensures BusOk(cfg, PopulateDbus(cfg, s, now), now)
  {
    var t := PopulateDbus(cfg, s, now);
    if t.transfers != s.transfers {
      var n := |s.transfers|;
      var x := t.transfers[n];
      hide BankOf, BankgroupOf, MinBank, Matched;
      forall i | 0 <= i < n ensures TransferOk(cfg, s.transfers[i], t.bus.bgReady, now)
        && Spaced(cfg, s.transfers[i], x) {
        assert TransferOk(cfg, s.transfers[i], s.bus.bgReady, now);
        assert i < n - 1 ==> Spaced(cfg, s.transfers[i], s.transfers[n - 1]);
      }
      hide Spaced;
    }
  }

  lemma TimeBus(cfg: Config, s: Chan, now: int, later: int)
    requires BusOk(cfg, s, now) && now <= later
    ensures BusOk(cfg, s, later)
  {
  }
}
