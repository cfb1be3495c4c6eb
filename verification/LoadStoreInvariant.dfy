/** What the load/store queues keep: every instruction's memory operations are
    accounted for, and store-to-load forwarding is exact. */
module LoadStoreInvariant {
  import opened Sequences
  import opened Instructions
  import opened LoadStoreQueue

  // ---- accounting ----

  function LoadsOf(lq: seq<Option<Load>>, id: nat): nat {
    CountIf(lq, (l: Option<Load>) => l.Some? && l.value.id == id)
  }

  function PendingStores(sq: seq<Store>, id: nat): nat {
    CountIf(sq, (s: Store) => !s.issued && s.id == id)
  }

  /** Each ROB entry's finished operations, live loads and unissued stores make up its
      memory operations; the newest entry may still have `slack` to enter the queues. */
  ghost predicate Accounted(rob: seq<Instr>, m: Mem, slack: nat) {
    forall i :: 0 <= i < |rob| ==>
      rob[i].memDone + LoadsOf(m.lq, rob[i].id) + PendingStores(m.sq, rob[i].id)
      + (if i == |rob| - 1 then slack else 0) == rob[i].MemOps()
  }

  ghost predicate HasId(s: seq<Instr>, id: nat) {
    exists i :: 0 <= i < |s| && s[i].id == id
  }

  ghost predicate IdsIncrease(s: seq<Instr>) {
    forall i, j :: 0 <= i < j < |s| ==> s[i].id < s[j].id
  }

  /** Live loads and unissued stores belong to instructions in the ROB. */
  ghost predicate Owned(rob: seq<Instr>, m: Mem) {
    && (forall s :: 0 <= s < |m.lq| && m.lq[s].Some? ==> HasId(rob, m.lq[s].value.id))
    && (forall q :: 0 <= q < |m.sq| && !m.sq[q].issued ==> HasId(rob, m.sq[q].id))
  }

  // ---- forwarding ----

  /** The store queue is in program order and its issued stores are a prefix. */
  ghost predicate StoreOrder(sq: seq<Store>) {
    && (forall i, j :: 0 <= i < j < |sq| ==> sq[i].id <= sq[j].id)
    && (forall i, j :: 0 <= i < j < |sq| && sq[j].issued ==> sq[i].issued)
  }

  ghost predicate Waits(lq: seq<Option<Load>>, s: nat, producer: nat, addr: nat) {
    && s < |lq| && lq[s].Some?
    && lq[s].value.producer == Some(producer) && lq[s].value.addr == addr
    && !lq[s].value.issued && producer < lq[s].value.id
  }

  /** A slot an unissued store lists holds a load bound to it. */
  ghost predicate Listed(m: Mem) {
    forall q, d :: 0 <= q < |m.sq| && !m.sq[q].issued && 0 <= d < |m.sq[q].deps| ==>
      Waits(m.lq, m.sq[q].deps[d], m.sq[q].id, m.sq[q].addr)
  }

  /** No slot is listed twice among the unissued stores. */
  ghost predicate ListedOnce(sq: seq<Store>) {
    forall q, d, r, e ::
      0 <= q < |sq| && !sq[q].issued && 0 <= d < |sq[q].deps| && 0 <= r < |sq| && !sq[r].issued && 0 <= e < |sq[r].deps|
      && sq[q].deps[d] == sq[r].deps[e] ==>
        q == r && d == e
  }

  ghost predicate IsListed(sq: seq<Store>, s: nat) {
    exists q :: 0 <= q < |sq| && !sq[q].issued && s in sq[q].deps
  }

  /** Every waiting load is listed, except the slots `released` of a store that has
      just finished and is releasing them. */
  ghost predicate WaitersListed(m: Mem, released: seq<nat>) {
    forall s :: 0 <= s < |m.lq| && m.lq[s].Some? && m.lq[s].value.producer.Some? ==> s in released || IsListed(m.sq, s)
  }

  /** A live load waits exactly when an older store to its address is in the store
      queue, and then on the youngest such store. */
  ghost predicate Exact(m: Mem) {
    forall s, j ::
      0 <= s < |m.lq| && m.lq[s].Some? && 0 <= j < |m.sq|
      && m.sq[j].addr == m.lq[s].value.addr && m.sq[j].id < m.lq[s].value.id ==>
        m.lq[s].value.producer.Some? && m.sq[j].id <= m.lq[s].value.producer.value
  }

  ghost predicate Forwarding(m: Mem, released: seq<nat>) {
    && StoreOrder(m.sq) && Listed(m) && ListedOnce(m.sq) && WaitersListed(m, released) && Exact(m)
  }

  /** The invariant. `slack` and `released` are nonzero only inside a step. */
  ghost predicate InvAt(rob: seq<Instr>, m: Mem, slack: nat, released: seq<nat>) {
    && IdsIncrease(rob)
    && Accounted(rob, m, slack)
    && Owned(rob, m)
    && Forwarding(m, released)
    && (forall d :: 0 <= d < |released| ==>
      released[d] < |m.lq| && m.lq[released[d]].Some? && !IsListed(m.sq, released[d]))
    && (forall d, e :: 0 <= d < e < |released| ==> released[d] != released[e])
  }

  /** Completed instructions have finished their memory operations. */
  ghost predicate CompletedDone(rob: seq<Instr>) {
    forall i :: 0 <= i < |rob| && rob[i].completed ==> rob[i].memDone == rob[i].MemOps()
  }

  ghost predicate Inv(done: seq<Instr>, rob: seq<Instr>, m: Mem) {
    && InvAt(rob, m, 0, [])
    && IdsIncrease(done + rob)
    && (forall q :: 0 <= q < |m.sq| ==> HasId(done + rob, m.sq[q].id))
    && CompletedDone(rob)
  }

  // ---- finishing an operation ----

  /** `r` is `rob` but for counts of finished operations, which only grow. */
  ghost predicate OnlyCounts(rob: seq<Instr>, r: seq<Instr>) {
    |rob| == |r| && forall i :: 0 <= i < |rob| ==>
      r[i].memDone >= rob[i].memDone && r[i] == rob[i].(memDone := r[i].memDone)
  }

  lemma {:induction false} FindsId(rob: seq<Instr>, i: nat)
    requires IdsIncrease(rob) && i < |rob|
    ensures FindById(rob, rob[i].id) == i
  {
  }

  lemma {:induction false} AccountLoad(rob: seq<Instr>, m: Mem, slack: nat, s: nat, i: nat)
    requires IdsIncrease(rob) && Accounted(rob, m, slack)
    requires s < |m.lq| && m.lq[s].Some? && i < |rob| && rob[i].id == m.lq[s].value.id
    ensures rob[i].memDone < rob[i].MemOps()
    ensures Accounted(rob[i := rob[i].(memDone := rob[i].memDone + 1)], m.(lq := m.lq[s := None]), slack)
  {
    CountIfPositive(m.lq, s, (l: Option<Load>) => l.Some? && l.value.id == rob[i].id);
    forall j | 0 <= j < |rob|
      ensures LoadsOf(m.lq[s := None], rob[j].id) == LoadsOf(m.lq, rob[j].id) - (if i == j then 1 else 0)
    {
      CountIfUpdate(m.lq, s, None, (l: Option<Load>) => l.Some? && l.value.id == rob[j].id);
    }
  }

  /** Emptying a live slot and finishing its load accounts for exactly that operation. */
  lemma {:induction false} FinishLoad(rob: seq<Instr>, m: Mem, slack: nat, released: seq<nat>, s: nat)
    requires IdsIncrease(rob) && Accounted(rob, m, slack) && Owned(rob, m)
    requires s < |m.lq| && m.lq[s].Some?
    ensures var i := FindById(rob, m.lq[s].value.id);
      i < |rob| && rob[i].id == m.lq[s].value.id && rob[i].memDone < rob[i].MemOps()
    ensures var r := Finish(rob, m.lq[s].value.id);
      var w := m.(lq := m.lq[s := None]);
      IdsIncrease(r) && Accounted(r, w, slack) && Owned(r, w) && OnlyCounts(rob, r)
  {
    hide Accounted;
    var id := m.lq[s].value.id;
    var i :| 0 <= i < |rob| && rob[i].id == id;
    FindsId(rob, i);
    AccountLoad(rob, m, slack, s, i);
    OwnedIds(rob, Finish(rob, id), m, m.(lq := m.lq[s := None]));
  }

  lemma OwnedIds(rob: seq<Instr>, r: seq<Instr>, m: Mem, w: Mem)
    requires Owned(rob, m) && OnlyCounts(rob, r)
    requires |w.lq| == |m.lq| && forall s :: 0 <= s < |m.lq| && w.lq[s].Some? ==>
      m.lq[s].Some? && w.lq[s].value.id == m.lq[s].value.id
    requires |w.sq| == |m.sq| && forall q :: 0 <= q < |m.sq| ==>
      w.sq[q].id == m.sq[q].id && (m.sq[q].issued ==> w.sq[q].issued)
    ensures Owned(r, w)
  {
    forall id: nat | HasId(rob, id) ensures HasId(r, id) {
      var i :| 0 <= i < |rob| && rob[i].id == id;
      assert r[i].id == id;
    }
  }

  // ---- a store finishes ----

  /** A store that has not issued finds its instruction, which has an operation left. */
  lemma {:induction false} StoreHasOwner(rob: seq<Instr>, m: Mem, q: nat)
    requires IdsIncrease(rob) && Accounted(rob, m, 0) && Owned(rob, m) && q < |m.sq| && !m.sq[q].issued
    ensures var i := FindById(rob, m.sq[q].id);
      i < |rob| && rob[i].id == m.sq[q].id && rob[i].memDone < rob[i].MemOps()
    ensures var r := Finish(rob, m.sq[q].id); OnlyCounts(rob, r) && IdsIncrease(r)
  {
    hide Accounted;
    var i :| 0 <= i < |rob| && rob[i].id == m.sq[q].id;
    FindsId(rob, i);
    AccountStore(rob, m, q, i, m.sq[q].(issued := true));
  }

  /** Marking a store issued and finishing its own operation leaves its slots to release. */
  lemma {:induction false} IssueStore(rob: seq<Instr>, m: Mem, q: nat, now: int)
    requires InvAt(rob, m, 0, []) && q < |m.sq| && !m.sq[q].issued
    requires forall j :: 0 <= j < q ==> m.sq[j].issued
    ensures var i := FindById(rob, m.sq[q].id);
      i < |rob| && rob[i].id == m.sq[q].id && rob[i].memDone < rob[i].MemOps()
    ensures var r := Finish(rob, m.sq[q].id);
      var w := m.(sq := m.sq[q := m.sq[q].(issued := true, ready := Some(now))]);
      InvAt(r, w, 0, m.sq[q].deps) && OnlyCounts(rob, r)
  {
    hide Accounted, Forwarding, Owned, IdsIncrease, FindById, OnlyCounts, IsListed;
    StoreHasOwner(rob, m, q);
    var w := m.(sq := m.sq[q := m.sq[q].(issued := true, ready := Some(now))]);
    AccountStore(rob, m, q, FindById(rob, m.sq[q].id), w.sq[q]);
    OwnedIds(rob, Finish(rob, m.sq[q].id), m, w);
    IssueStoreForwards(m, q, w);
  }

  lemma {:induction false} AccountStore(rob: seq<Instr>, m: Mem, q: nat, i: nat, x: Store)
    requires IdsIncrease(rob) && Accounted(rob, m, 0)
    requires q < |m.sq| && !m.sq[q].issued && i < |rob| && rob[i].id == m.sq[q].id && x.issued
    ensures rob[i].memDone < rob[i].MemOps()
    ensures Accounted(rob[i := rob[i].(memDone := rob[i].memDone + 1)], m.(sq := m.sq[q := x]), 0)
  {
    CountIfPositive(m.sq, q, (s: Store) => !s.issued && s.id == rob[i].id);
    forall j | 0 <= j < |rob|
      ensures PendingStores(m.sq[q := x], rob[j].id) == PendingStores(m.sq, rob[j].id) - (if i == j then 1 else 0)
    {
      CountIfUpdate(m.sq, q, x, (s: Store) => !s.issued && s.id == rob[j].id);
    }
  }

  lemma {:induction false} IssueStoreForwards(m: Mem, q: nat, w: Mem)
    requires Forwarding(m, []) && q < |m.sq| && !m.sq[q].issued
    requires forall j :: 0 <= j < q ==> m.sq[j].issued
    requires w.lq == m.lq && exists now: int :: w.sq == m.sq[q := m.sq[q].(issued := true, ready := Some(now))]
    ensures Forwarding(w, m.sq[q].deps)
    ensures forall d :: 0 <= d < |m.sq[q].deps| ==>
      m.sq[q].deps[d] < |w.lq| && w.lq[m.sq[q].deps[d]].Some? && !IsListed(w.sq, m.sq[q].deps[d])
    ensures forall d, e :: 0 <= d < e < |m.sq[q].deps| ==> m.sq[q].deps[d] != m.sq[q].deps[e]
  {
    forall s | 0 <= s < |w.lq| && w.lq[s].Some? && w.lq[s].value.producer.Some?
      ensures s in m.sq[q].deps || IsListed(w.sq, s)
    {
      var k :| 0 <= k < |m.sq| && !m.sq[k].issued && s in m.sq[k].deps;
      if k != q { assert w.sq[k] == m.sq[k]; }
    }
    forall d | 0 <= d < |m.sq[q].deps| ensures !IsListed(w.sq, m.sq[q].deps[d]) {
      forall k | 0 <= k < |w.sq| && !w.sq[k].issued ensures m.sq[q].deps[d] !in w.sq[k].deps {
        assert w.sq[k] == m.sq[k];
      }
    }
  }

  /** Emptying a slot no unissued store lists keeps the forwarding relation. */
  lemma {:induction false} EmptySlotForwards(m: Mem, released: seq<nat>, s: nat, rest: seq<nat>)
    requires Forwarding(m, released) && s < |m.lq| && !IsListed(m.sq, s)
    requires forall t :: t in released ==> t == s || t in rest
    ensures Forwarding(m.(lq := m.lq[s := None]), rest)
  {
    var w := m.(lq := m.lq[s := None]);
    assert Listed(w) by {
      forall q, d | 0 <= q < |w.sq| && !w.sq[q].issued && 0 <= d < |w.sq[q].deps|
        ensures Waits(w.lq, w.sq[q].deps[d], w.sq[q].id, w.sq[q].addr)
      {
        assert w.sq[q].deps[d] in w.sq[q].deps;
      }
    }
  }

  /** Releasing one waiting load finishes it and empties its slot. */
  lemma {:induction false} ReleaseOne(rob: seq<Instr>, m: Mem, released: seq<nat>)
    requires InvAt(rob, m, 0, released) && released != []
    ensures var s := released[0];
      && s < |m.lq| && m.lq[s].Some?
      && InvAt(Finish(rob, m.lq[s].value.id), m.(lq := m.lq[s := None]), 0, released[1..])
      && OnlyCounts(rob, Finish(rob, m.lq[s].value.id))
  {
    hide Accounted, Owned, IdsIncrease, Forwarding;
    var s := released[0];
    FinishLoad(rob, m, 0, released, s);
    assert released == [s] + released[1..];
    EmptySlotForwards(m, released, s, released[1..]);
    forall d | 0 <= d < |released[1..]| ensures released[1..][d] == released[d + 1] != s {
    }
  }

  lemma {:induction false} ReleaseKeeps(rob: seq<Instr>, m: Mem, released: seq<nat>)
    requires InvAt(rob, m, 0, released)
    ensures var (r, lq) := Release(rob, m.lq, released); InvAt(r, m.(lq := lq), 0, []) && OnlyCounts(rob, r)
    decreases |released|
  {
    if released != [] {
      ReleaseOne(rob, m, released);
      var s := released[0];
      ReleaseKeeps(Finish(rob, m.lq[s].value.id), m.(lq := m.lq[s := None]), released[1..]);
    }
  }

  lemma {:induction false} ReleaseOnly(rob: seq<Instr>, lq: seq<Option<Load>>, deps: seq<nat>)
    ensures var r := Release(rob, lq, deps).1;
      forall k :: 0 <= k < |lq| ==> r[k] == lq[k] || (r[k].None? && k in deps)
    decreases |deps|
  {
    hide Finish;
    if deps != [] {
      if deps[0] < |lq| && lq[deps[0]].Some? {
        ReleaseOnly(Finish(rob, lq[deps[0]].value.id), lq[deps[0] := None], deps[1..]);
      } else {
        ReleaseOnly(rob, lq, deps[1..]);
      }
    }
  }

  /** Only loads that wait on a store have left. */
  ghost predicate WaitersLeft(lq: seq<Option<Load>>, r: seq<Option<Load>>) {
    |r| == |lq| && forall k :: 0 <= k < |lq| && r[k] != lq[k] ==>
      r[k].None? && lq[k].Some? && lq[k].value.producer.Some?
  }

  lemma FinishStoreReleases(rob: seq<Instr>, m: Mem, q: nat, now: int)
    requires Forwarding(m, []) && q < |m.sq| && !m.sq[q].issued
    ensures WaitersLeft(m.lq, FinishStore(rob, m, q, now).1.lq)
  {
    hide Release, Finish;
    ReleaseOnly(Finish(rob, m.sq[q].id), m.lq, m.sq[q].deps);
    forall k | k in m.sq[q].deps ensures k < |m.lq| && m.lq[k].Some? && m.lq[k].value.producer.Some? {
      var d :| 0 <= d < |m.sq[q].deps| && m.sq[q].deps[d] == k;
      assert Waits(m.lq, m.sq[q].deps[d], m.sq[q].id, m.sq[q].addr);
    }
  }

  lemma {:induction false} FinishStoreKeeps(rob: seq<Instr>, m: Mem, q: nat, now: int)
    requires InvAt(rob, m, 0, []) && q < |m.sq| && !m.sq[q].issued
    requires forall j :: 0 <= j < q ==> m.sq[j].issued
    ensures var (r, w) := FinishStore(rob, m, q, now);
      && InvAt(r, w, 0, []) && OnlyCounts(rob, r)
      && w.sq == m.sq[q := m.sq[q].(issued := true, ready := Some(now))]
  {
    IssueStore(rob, m, q, now);
    var w := m.(sq := m.sq[q := m.sq[q].(issued := true, ready := Some(now))]);
    ReleaseKeeps(Finish(rob, m.sq[q].id), w, m.sq[q].deps);
  }

  lemma {:induction false} FinishStoresKeep(rob: seq<Instr>, m: Mem, q: nat, n: nat, now: int)
    requires InvAt(rob, m, 0, []) && q + n <= |m.sq|
    requires forall j :: 0 <= j < q ==> m.sq[j].issued
    requires forall j :: q <= j < q + n ==> !m.sq[j].issued
    ensures var (r, w) := FinishStores(rob, m, q, n, now);
      && InvAt(r, w, 0, []) && OnlyCounts(rob, r)
      && (forall j :: 0 <= j < |m.sq| ==> w.sq[j].id == m.sq[j].id)
      && (forall j :: 0 <= j < q + n ==> w.sq[j].issued)
      && (forall j :: q + n <= j < |m.sq| ==> w.sq[j] == m.sq[j])
    decreases n
  {
    hide InvAt, FinishStore, Finish;
    if n > 0 {
      FinishStoreKeeps(rob, m, q, now);
      var (r, w) := FinishStore(rob, m, q, now);
      FinishStoresKeep(r, w, q + 1, n - 1, now);
    }
  }

  lemma InvForwards(rob: seq<Instr>, m: Mem)
    requires InvAt(rob, m, 0, [])
    ensures Forwarding(m, [])
  {
  }

  lemma {:induction false} FinishStoresRelease(rob: seq<Instr>, m: Mem, q: nat, n: nat, now: int)
    requires InvAt(rob, m, 0, []) && q + n <= |m.sq|
    requires forall j :: 0 <= j < q ==> m.sq[j].issued
    requires forall j :: q <= j < q + n ==> !m.sq[j].issued
    ensures WaitersLeft(m.lq, FinishStores(rob, m, q, n, now).1.lq)
    decreases n
  {
    hide InvAt, FinishStore, Finish, Forwarding;
    if n > 0 {
      InvForwards(rob, m);
      FinishStoreReleases(rob, m, q, now);
      FinishStoreKeeps(rob, m, q, now);
      var (r, w) := FinishStore(rob, m, q, now);
      FinishStoresRelease(r, w, q + 1, n - 1, now);
    }
  }

  // ---- completed stores leave, loads issue, loads return ----

  lemma {:induction false} DropIssued(sq: seq<Store>, c: nat, id: nat)
    requires c <= |sq| && forall j :: 0 <= j < c ==> sq[j].issued
    ensures PendingStores(sq[c..], id) == PendingStores(sq, id)
  {
    if c == 0 {
      assert sq[0..] == sq;
    } else {
      assert sq[1..][c - 1..] == sq[c..];
      DropIssued(sq[1..], c - 1, id);
    }
  }

  lemma {:induction false} DropForwards(m: Mem, c: nat)
    requires Forwarding(m, []) && c <= |m.sq| && forall j :: 0 <= j < c ==> m.sq[j].issued
    ensures Forwarding(WriteStores(m, c), [])
  {
    var w := WriteStores(m, c);
    forall s | 0 <= s < |w.lq| && w.lq[s].Some? && w.lq[s].value.producer.Some? ensures IsListed(w.sq, s) {
      var q :| 0 <= q < |m.sq| && !m.sq[q].issued && s in m.sq[q].deps;
      assert w.sq[q - c] == m.sq[q];
    }
  }

  lemma {:induction false} DropStores(rob: seq<Instr>, m: Mem, c: nat)
    requires InvAt(rob, m, 0, []) && c <= |m.sq| && forall j :: 0 <= j < c ==> m.sq[j].issued
    ensures InvAt(rob, WriteStores(m, c), 0, [])
  {
    hide Forwarding;
    forall i | 0 <= i < |rob| ensures PendingStores(m.sq[c..], rob[i].id) == PendingStores(m.sq, rob[i].id) {
      DropIssued(m.sq, c, rob[i].id);
    }
    DropForwards(m, c);
  }

  /** Issuing a load that waits on no store changes no accounting and no binding. */
  lemma {:induction false} IssueLoadKeeps(rob: seq<Instr>, m: Mem, s: nat)
    requires InvAt(rob, m, 0, []) && s < |m.lq| && m.lq[s].Some? && m.lq[s].value.producer.None?
    ensures InvAt(rob, m.(lq := m.lq[s := Some(m.lq[s].value.(issued := true))]), 0, [])
  {
    var v := Some(m.lq[s].value.(issued := true));
    forall i | 0 <= i < |rob| ensures LoadsOf(m.lq[s := v], rob[i].id) == LoadsOf(m.lq, rob[i].id) {
      CountIfUpdate(m.lq, s, v, (l: Option<Load>) => l.Some? && l.value.id == rob[i].id);
    }
  }

  lemma {:induction false} IssueLoadsKeep(rob: seq<Instr>, m: Mem, s: nat, bw: nat, now: int, accepts: nat -> bool)
    requires InvAt(rob, m, 0, []) && s <= |m.lq|
    ensures InvAt(rob, m.(lq := IssueLoads(m.lq, s, bw, now, accepts)), 0, [])
    decreases |m.lq| - s
  {
    hide InvAt;
    if s < |m.lq| {
      if bw > 0 && m.lq[s].Some? && m.lq[s].value.producer.None? && !m.lq[s].value.issued
         && m.lq[s].value.ready.Some? && m.lq[s].value.ready.value < now && accepts(s) {
        IssueLoadKeeps(rob, m, s);
        IssueLoadsKeep(rob, m.(lq := m.lq[s := Some(m.lq[s].value.(issued := true))]), s + 1, bw - 1, now, accepts);
      } else {
        IssueLoadsKeep(rob, m, s + 1, bw, now, accepts);
      }
    }
  }

  /** An issued load is bound to no store, so its return finishes it and nothing else. */
  lemma {:induction false} ReturnOne(rob: seq<Instr>, m: Mem, s: nat)
    requires InvAt(rob, m, 0, []) && s < |m.lq| && m.lq[s].Some? && m.lq[s].value.issued
    ensures InvAt(Finish(rob, m.lq[s].value.id), m.(lq := m.lq[s := None]), 0, [])
    ensures OnlyCounts(rob, Finish(rob, m.lq[s].value.id))
  {
    FinishLoad(rob, m, 0, [], s);
    forall q | 0 <= q < |m.sq| && !m.sq[q].issued ensures s !in m.sq[q].deps {
      forall d | 0 <= d < |m.sq[q].deps| ensures m.sq[q].deps[d] != s {
        assert Waits(m.lq, m.sq[q].deps[d], m.sq[q].id, m.sq[q].addr);
      }
    }
    hide Forwarding, Owned, Accounted;
    EmptySlotForwards(m, [], s, []);
  }

  lemma {:induction false} ReturnBlockKeeps(rob: seq<Instr>, m: Mem, s: nat, block: nat, blockSize: nat)
    requires InvAt(rob, m, 0, []) && s <= |m.lq| && blockSize > 0
    ensures var (r, lq) := ReturnBlock(rob, m.lq, s, block, blockSize);
      InvAt(r, m.(lq := lq), 0, []) && OnlyCounts(rob, r)
    decreases |m.lq| - s
  {
    hide InvAt;
    if s < |m.lq| {
      if m.lq[s].Some? && m.lq[s].value.issued && m.lq[s].value.addr / blockSize == block {
        ReturnOne(rob, m, s);
        ReturnBlockKeeps(Finish(rob, m.lq[s].value.id), m.(lq := m.lq[s := None]), s + 1, block, blockSize);
      } else {
        ReturnBlockKeeps(rob, m, s + 1, block, blockSize);
      }
    }
  }

  lemma {:induction false} ReturnBlocksKeep(rob: seq<Instr>, m: Mem, blocks: seq<nat>, blockSize: nat)
    requires InvAt(rob, m, 0, []) && blockSize > 0
    ensures var (r, lq) := ReturnBlocks(rob, m.lq, blocks, blockSize);
      InvAt(r, m.(lq := lq), 0, []) && OnlyCounts(rob, r)
    decreases |blocks|
  {
    hide InvAt;
    if blocks != [] {
      ReturnBlockKeeps(rob, m, 0, blocks[0], blockSize);
      var (r, lq) := ReturnBlock(rob, m.lq, 0, blocks[0], blockSize);
      ReturnBlocksKeep(r, m.(lq := lq), blocks[1..], blockSize);
    }
  }

  /** The load is one that a returned block answers. */
  ghost predicate Answered(l: Option<Load>, blocks: seq<nat>, blockSize: nat)
    requires blockSize > 0
  {
    l.Some? && l.value.issued && l.value.addr / blockSize in blocks
  }

  lemma {:induction false} ReturnBlockAnswers(rob: seq<Instr>, lq: seq<Option<Load>>, s: nat, block: nat,
      blockSize: nat)
    requires s <= |lq| && blockSize > 0
    ensures var r := ReturnBlock(rob, lq, s, block, blockSize).1;
      forall k :: 0 <= k < |lq| ==> r[k] == if k >= s && Answered(lq[k], [block], blockSize) then None else lq[k]
    decreases |lq| - s
  {
    hide Finish;
    if s < |lq| {
      if lq[s].Some? && lq[s].value.issued && lq[s].value.addr / blockSize == block {
        ReturnBlockAnswers(Finish(rob, lq[s].value.id), lq[s := None], s + 1, block, blockSize);
      } else {
        ReturnBlockAnswers(rob, lq, s + 1, block, blockSize);
      }
    }
  }

  /** Returned blocks empty exactly the slots of the issued loads of those blocks. */
  lemma {:induction false} ReturnBlocksAnswer(rob: seq<Instr>, lq: seq<Option<Load>>, blocks: seq<nat>, blockSize: nat)
    requires blockSize > 0
    ensures var r := ReturnBlocks(rob, lq, blocks, blockSize).1;
      forall k :: 0 <= k < |lq| ==> r[k] == if Answered(lq[k], blocks, blockSize) then None else lq[k]
    decreases |blocks|
  {
    hide ReturnBlock;
    if blocks != [] {
      ReturnBlockAnswers(rob, lq, 0, blocks[0], blockSize);
      var (r, q) := ReturnBlock(rob, lq, 0, blocks[0], blockSize);
      ReturnBlocksAnswer(r, q, blocks[1..], blockSize);
      assert blocks == [blocks[0]] + blocks[1..];
    }
  }

  // ---- which loads are sent ----

  /** The load waits on no store, its instruction has executed before now, and it has not been
      sent. */
  ghost predicate Sendable(l: Option<Load>, now: int) {
    && l.Some? && l.value.producer.None? && !l.value.issued
    && l.value.ready.Some? && l.value.ready.value < now
  }

  /** In slot order, the first `bw` loads that may be sent and that the L1D takes are sent. */
  ghost predicate Sends(lq: seq<Option<Load>>, r: seq<Option<Load>>, bw: nat, now: int, accepts: nat -> bool) {
    var can := (s: nat, l: Option<Load>) => Sendable(l, now) && accepts(s);
    |r| == |lq| && forall s :: 0 <= s < |lq| ==>
      r[s] == if can(s, lq[s]) && Able(lq, s, can) < bw then Sent(lq[s]) else lq[s]
  }

  function Sent(l: Option<Load>): Option<Load> {
    if l.Some? then Some(l.value.(issued := true)) else None
  }

  lemma {:induction false} IssueLoadsIsScan(lq: seq<Option<Load>>, s: nat, bw: nat, now: int, accepts: nat -> bool,
      can: (nat, Option<Load>) -> bool, act: Option<Load> -> Option<Load>)
    requires s <= |lq| && (forall k: nat, l :: can(k, l) == (Sendable(l, now) && accepts(k)))
    requires forall l :: act(l) == Sent(l)
    ensures IssueLoads(lq, s, bw, now, accepts) == Scan(lq, s, bw, can, act)
    decreases |lq| - s
  {
    if s < |lq| {
      var u := if bw > 0 && can(s, lq[s]) then lq[s := act(lq[s])] else lq;
      IssueLoadsIsScan(u, s + 1, if bw > 0 && can(s, lq[s]) then bw - 1 else bw, now, accepts, can, act);
    }
  }

  /** The loop over the load queue sends exactly what may be sent, in slot order. */
  lemma IssueLoadsSends(lq: seq<Option<Load>>, bw: nat, now: int, accepts: nat -> bool)
    ensures Sends(lq, IssueLoads(lq, 0, bw, now, accepts), bw, now, accepts)
  {
    var can := (s: nat, l: Option<Load>) => Sendable(l, now) && accepts(s);
    var act := (l: Option<Load>) => Sent(l);
    IssueLoadsIsScan(lq, 0, bw, now, accepts, can, act);
    ScanActs(lq, 0, bw, can, act, lq, bw);
  }

  /** The loads released by a store leave, then the scan sends what may be sent. */
  ghost predicate ReleasesThenSends(lq: seq<Option<Load>>, r: seq<Option<Load>>, bw: nat, now: int,
      accepts: nat -> bool)
  {
    exists q :: WaitersLeft(lq, q) && Sends(q, r, bw, now, accepts)
  }

  // ---- operate_lsq ----

  /** Stores left in the queue are the last of those that were there. */
  ghost predicate Remaining(before: seq<Store>, after: seq<Store>) {
    |after| <= |before| && forall j :: 0 <= j < |after| ==> after[j].id == before[j + |before| - |after|].id
  }

  /** A store older than everything in the ROB has been issued. */
  lemma {:induction false} OldStoreIssued(rob: seq<Instr>, m: Mem, j: nat)
    requires InvAt(rob, m, 0, []) && j < |m.sq| && (rob == [] || m.sq[j].id < rob[0].id)
    ensures m.sq[j].issued
  {
    assert !HasId(rob, m.sq[j].id);
  }

  lemma {:induction false} OperateLsqAt(rob: seq<Instr>, m: Mem, now: int, sqWidth: nat, lqWidth: nat, writes: nat,
      accepts: nat -> bool)
    requires InvAt(rob, m, 0, [])
    ensures var (r, w) := OperateLsq(rob, m, now, sqWidth, lqWidth, writes, accepts);
      InvAt(r, w, 0, []) && OnlyCounts(rob, r) && Remaining(m.sq, w.sq)
  {
    hide InvAt, SpanLen, FinishStores, IssueLoads;
    var u := SpanLen(m.sq, |m.sq|, (x: Store) => x.issued);
    var n := SpanLen(m.sq[u..], sqWidth, (x: Store) => !x.issued && Due(x.ready, now));
    forall j | u <= j < u + n ensures !m.sq[j].issued {
      assert m.sq[j] == m.sq[u..][j - u];
    }
    FinishStoresKeep(rob, m, u, n, now);
    var (r, w) := FinishStores(rob, m, u, n, now);
    var c := SpanLen(w.sq, Min(sqWidth - n, writes), (x: Store) => (rob == [] || x.id < rob[0].id)
      && Due(x.ready, now));
    forall j | 0 <= j < c ensures w.sq[j].issued {
      OldStoreIssued(r, w, j);
    }
    DropStores(r, w, c);
    IssueLoadsKeep(r, WriteStores(w, c), 0, lqWidth, now, accepts);
  }

  /** The time is known, and no later than now. */
  ghost predicate ReadyBy(ready: Option<int>, now: int) {
    match ready case None => false case Some(at) => at <= now
  }

  /** What a cycle does to the store queue, before any store leaves: after the `u` finished stores
      the next `n` finish, which are due, as many as are and the width allows. */
  ghost predicate StoresFinish(sq: seq<Store>, v: seq<Store>, now: int, sqWidth: nat, u: nat, n: nat) {
    && u + n <= |sq| == |v| && n <= sqWidth
    && (forall q :: 0 <= q < u ==> sq[q].issued && v[q] == sq[q])
    && (forall q :: u <= q < u + n ==>
      !sq[q].issued && ReadyBy(sq[q].ready, now) && v[q] == sq[q].(issued := true, ready := Some(now)))
    && (forall q :: u + n <= q < |sq| ==> v[q] == sq[q])
    && (u + n < |sq| && n < sqWidth ==> sq[u + n].issued || !ReadyBy(sq[u + n].ready, now))
    && (u < |sq| ==> !sq[u].issued)
  }

  /** Then the oldest `c` leave, which are due and older than the ROB, as many as are and the width
      left and the L1D allow. */
  ghost predicate StoresLeave(rob: seq<Instr>, m: Mem, w: Mem, v: seq<Store>, now: int, sqWidth: nat, n: nat,
      writes: nat, c: nat)
  {
    && c <= |v| && c <= sqWidth - n && c <= writes && w.written == m.written + v[..c] && w.sq == v[c..]
    && (forall q :: 0 <= q < c ==> (rob == [] || v[q].id < rob[0].id) && ReadyBy(v[q].ready, now))
    && (c < |v| && c < sqWidth - n && c < writes ==> !((rob == [] || v[c].id < rob[0].id) && ReadyBy(v[c].ready, now)))
  }

  ghost predicate StoresMove(rob: seq<Instr>, m: Mem, w: Mem, now: int, sqWidth: nat, writes: nat) {
    exists v: seq<Store>, u: nat, n: nat, c: nat ::
      StoresFinish(m.sq, v, now, sqWidth, u, n) && StoresLeave(rob, m, w, v, now, sqWidth, n, writes, c)
  }

  lemma {:induction false} FinishStoresExact(rob: seq<Instr>, m: Mem, q: nat, n: nat, now: int)
    requires q + n <= |m.sq|
    ensures var w := FinishStores(rob, m, q, n, now).1;
      && w.written == m.written
      && forall j :: 0 <= j < |m.sq| ==>
        w.sq[j] == if q <= j < q + n then m.sq[j].(issued := true, ready := Some(now)) else m.sq[j]
    decreases n
  {
    hide Release, Finish;
    if n > 0 {
      var (r, w) := FinishStore(rob, m, q, now);
      FinishStoresExact(r, w, q + 1, n - 1, now);
    }
  }

  lemma FinishSpan(sq: seq<Store>, v: seq<Store>, now: int, sqWidth: nat, u: nat, n: nat)
    requires u == SpanLen(sq, |sq|, (x: Store) => x.issued)
    requires n == SpanLen(sq[u..], sqWidth, (x: Store) => !x.issued && Due(x.ready, now))
    requires |v| == |sq| && forall j :: 0 <= j < |sq| ==>
      v[j] == if u <= j < u + n then sq[j].(issued := true, ready := Some(now)) else sq[j]
    ensures StoresFinish(sq, v, now, sqWidth, u, n)
  {
    forall q | u <= q < u + n ensures !sq[q].issued && Due(sq[q].ready, now) { assert sq[q] == sq[u..][q - u]; }
    assert u + n < |sq| ==> sq[u..][n] == sq[u + n];
    hide SpanLen;
  }

  lemma LeaveSpan(rob: seq<Instr>, m: Mem, w: Mem, v: seq<Store>, now: int, sqWidth: nat, n: nat, writes: nat, c: nat)
    requires n <= sqWidth && c <= |v| && w.written == m.written + v[..c] && w.sq == v[c..]
    requires c == SpanLen(v, Min(sqWidth - n, writes), (x: Store) => (rob == [] || x.id < rob[0].id)
      && Due(x.ready, now))
    ensures StoresLeave(rob, m, w, v, now, sqWidth, n, writes, c)
  {
  }

  lemma {:induction false} OperateLsqStores(rob: seq<Instr>, m: Mem, now: int, sqWidth: nat, lqWidth: nat, writes: nat,
      accepts: nat -> bool)
    ensures StoresMove(rob, m, OperateLsq(rob, m, now, sqWidth, lqWidth, writes, accepts).1, now, sqWidth, writes)
  {
    hide SpanLen, FinishStores, IssueLoads, StoresFinish, StoresLeave, Due;
    var u := SpanLen(m.sq, |m.sq|, (x: Store) => x.issued);
    var n := SpanLen(m.sq[u..], sqWidth, (x: Store) => !x.issued && Due(x.ready, now));
    FinishStoresExact(rob, m, u, n, now);
    var v := FinishStores(rob, m, u, n, now).1.sq;
    FinishSpan(m.sq, v, now, sqWidth, u, n);
    var c := SpanLen(v, Min(sqWidth - n, writes), (x: Store) => (rob == [] || x.id < rob[0].id) && Due(x.ready, now));
    var w := OperateLsq(rob, m, now, sqWidth, lqWidth, writes, accepts).1;
    LeaveSpan(rob, m, w, v, now, sqWidth, n, writes, c);
    hide OperateLsq;
  }

  lemma {:induction false} OperateLsqSends(rob: seq<Instr>, m: Mem, now: int, sqWidth: nat, lqWidth: nat, writes: nat,
      accepts: nat -> bool)
    requires InvAt(rob, m, 0, [])
    ensures ReleasesThenSends(m.lq, OperateLsq(rob, m, now, sqWidth, lqWidth, writes, accepts).1.lq, lqWidth, now,
      accepts)
  {
    hide InvAt, SpanLen, FinishStores, IssueLoads, Sends, WaitersLeft;
    var u := SpanLen(m.sq, |m.sq|, (x: Store) => x.issued);
    var n := SpanLen(m.sq[u..], sqWidth, (x: Store) => !x.issued && Due(x.ready, now));
    forall j | u <= j < u + n ensures !m.sq[j].issued {
      assert m.sq[j] == m.sq[u..][j - u];
    }
    FinishStoresRelease(rob, m, u, n, now);
    IssueLoadsSends(FinishStores(rob, m, u, n, now).1.lq, lqWidth, now, accepts);
  }

  // ---- the forwarding search ----

  /** `k` is the youngest of the first `n` stores to `addr` (the first of equals), or
      none of them writes `addr`. */
  ghost predicate YoungestTo(sq: seq<Store>, addr: nat, k: nat, n: nat) {
    && k < n <= |sq|
    && (forall j :: 0 <= j < n && sq[j].addr == addr ==>
      sq[k].addr == addr && sq[j].id <= sq[k].id && (sq[j].id == sq[k].id ==> k <= j))
  }

  lemma {:induction false} ScanFindsYoungest(sq: seq<Store>, addr: nat, best: nat, i: nat)
    requires YoungestTo(sq, addr, best, i)
    ensures YoungestTo(sq, addr, MaxScan(sq, addr, best, i), |sq|)
    decreases |sq| - i
  {
    if i < |sq| { ScanFindsYoungest(sq, addr, if Before(sq[best], sq[i], addr) then i else best, i + 1); }
  }

  /** The max_element scan, with a comparator that is no strict weak order, still finds
      the youngest store to the address whenever there is one. */
  lemma {:induction false} ForwardFromFindsYoungest(sq: seq<Store>, addr: nat)
    ensures sq != [] ==> YoungestTo(sq, addr, ForwardFrom(sq, addr), |sq|)
    ensures sq == [] ==> ForwardFrom(sq, addr) == 0
  {
    if sq != [] { ScanFindsYoungest(sq, addr, 0, 1); }
  }

  // ---- dispatch ----

  lemma {:induction false} NoneCounted<T>(s: seq<T>, p: T -> bool)
    requires forall i :: 0 <= i < |s| ==> !p(s[i])
    ensures CountIf(s, p) == 0
  {
    if s != [] { NoneCounted(s[1..], p); }
  }

  lemma {:induction false} EnterRob(rob: seq<Instr>, m: Mem, x: Instr)
    requires InvAt(rob, m, 0, []) && x.memDone == 0
    requires forall i :: 0 <= i < |rob| ==> rob[i].id < x.id
    ensures InvAt(rob + [x], m, x.MemOps(), [])
    ensures forall s :: 0 <= s < |m.lq| && m.lq[s].Some? ==> m.lq[s].value.id <= x.id
  {
    var t := rob + [x];
    forall s | 0 <= s < |m.lq| && m.lq[s].Some? ensures m.lq[s].value.id < x.id && HasId(t, m.lq[s].value.id) {
      var i :| 0 <= i < |rob| && rob[i].id == m.lq[s].value.id;
      assert t[i] == rob[i];
    }
    forall q | 0 <= q < |m.sq| && !m.sq[q].issued ensures m.sq[q].id < x.id && HasId(t, m.sq[q].id) {
      var i :| 0 <= i < |rob| && rob[i].id == m.sq[q].id;
      assert t[i] == rob[i];
    }
    NoneCounted(m.lq, (l: Option<Load>) => l.Some? && l.value.id == x.id);
    NoneCounted(m.sq, (s: Store) => !s.issued && s.id == x.id);
  }

  /** Entering a load into an empty slot. */
  lemma {:induction false} EnterLoad(rob: seq<Instr>, m: Mem, slack: nat, s: nat, load: Load, sq: seq<Store>)
    requires IdsIncrease(rob) && Accounted(rob, m, slack) && Owned(rob, m) && slack > 0 && rob != []
    requires s < |m.lq| && m.lq[s].None? && load.id == rob[|rob| - 1].id
    requires |sq| == |m.sq| && forall q :: 0 <= q < |sq| ==> sq[q].id == m.sq[q].id && sq[q].issued == m.sq[q].issued
    ensures var w := m.(lq := m.lq[s := Some(load)], sq := sq); Accounted(rob, w, slack - 1) && Owned(rob, w)
  {
    var w := m.(lq := m.lq[s := Some(load)], sq := sq);
    forall i | 0 <= i < |rob|
      ensures LoadsOf(w.lq, rob[i].id) == LoadsOf(m.lq, rob[i].id) + (if i == |rob| - 1 then 1 else 0)
      ensures PendingStores(sq, rob[i].id) == PendingStores(m.sq, rob[i].id)
    {
      CountIfUpdate(m.lq, s, Some(load), (l: Option<Load>) => l.Some? && l.value.id == rob[i].id);
      CountIfAgree(m.sq, sq, (x: Store) => !x.issued && x.id == rob[i].id, (x: Store) => !x.issued
        && x.id == rob[i].id);
    }
    assert HasId(rob, load.id) by { assert rob[|rob| - 1].id == load.id; }
  }

  function Bound(m: Mem, s: nat, load: Load, k: nat): Mem
    requires s < |m.lq| && k < |m.sq|
  {
    m.(lq := m.lq[s := Some(load)], sq := m.sq[k := m.sq[k].(deps := m.sq[k].deps + [s])])
  }

  lemma {:induction false} BindForwards(m: Mem, s: nat, load: Load, k: nat)
    requires Forwarding(m, []) && s < |m.lq| && m.lq[s].None? && k < |m.sq| && !m.sq[k].issued
    requires m.sq[k].addr == load.addr && YoungestTo(m.sq, load.addr, k, |m.sq|)
    requires m.sq[k].id < load.id && load.producer == Some(m.sq[k].id) && !load.issued
    ensures Forwarding(Bound(m, s, load, k), [])
  {
    BindKeepsExact(m, s, load, k);
    BindKeepsWaiters(m, s, load, k);
    BindKeepsListed(m, s, load, k);
    hide YoungestTo, Exact, WaitersListed, Listed, ListedOnce;
  }

  lemma {:induction false} BindKeepsListed(m: Mem, s: nat, load: Load, k: nat)
    requires Listed(m) && ListedOnce(m.sq) && s < |m.lq| && m.lq[s].None? && k < |m.sq| && !m.sq[k].issued
    requires m.sq[k].addr == load.addr && m.sq[k].id < load.id && load.producer == Some(m.sq[k].id) && !load.issued
    ensures Listed(Bound(m, s, load, k)) && ListedOnce(Bound(m, s, load, k).sq)
  {
    assert forall q, d :: 0 <= q < |m.sq| && !m.sq[q].issued && 0 <= d < |m.sq[q].deps| ==> m.sq[q].deps[d] != s;
  }

  lemma {:induction false} BindKeepsWaiters(m: Mem, s: nat, load: Load, k: nat)
    requires WaitersListed(m, []) && s < |m.lq| && k < |m.sq| && !m.sq[k].issued
    ensures WaitersListed(Bound(m, s, load, k), [])
  {
    var w := Bound(m, s, load, k);
    assert w.sq[k].deps[|m.sq[k].deps|] == s;
    forall t | 0 <= t < |w.lq| && t != s && w.lq[t].Some? && w.lq[t].value.producer.Some? ensures IsListed(w.sq, t) {
      assert IsListed(m.sq, t);
      var q :| 0 <= q < |m.sq| && !m.sq[q].issued && t in m.sq[q].deps;
      assert t in w.sq[q].deps;
    }
  }

  lemma {:induction false} BindKeepsExact(m: Mem, s: nat, load: Load, k: nat)
    requires Exact(m) && s < |m.lq| && m.lq[s].None? && k < |m.sq|
    requires YoungestTo(m.sq, load.addr, k, |m.sq|) && m.sq[k].addr == load.addr && load.producer == Some(m.sq[k].id)
    ensures Exact(Bound(m, s, load, k))
  {
  }

  lemma {:induction false} FreeLoadForwards(m: Mem, s: nat, load: Load)
    requires Forwarding(m, []) && s < |m.lq| && m.lq[s].None? && load.producer.None?
    requires forall j :: 0 <= j < |m.sq| ==> m.sq[j].addr != load.addr
    ensures Forwarding(m.(lq := m.lq[s := Some(load)]), [])
  {
    assert forall q, d :: 0 <= q < |m.sq| && !m.sq[q].issued && 0 <= d < |m.sq[q].deps| ==> m.sq[q].deps[d] != s;
    var w := m.(lq := m.lq[s := Some(load)]);
    forall t | 0 <= t < |w.lq| && w.lq[t].Some? && w.lq[t].value.producer.Some? ensures IsListed(w.sq, t) {
      assert w.lq[t] == m.lq[t];
    }
  }

  /** Stores in the queue are older than the entry being dispatched. */
  ghost predicate Newest(rob: seq<Instr>, m: Mem) {
    rob != [] && forall q :: 0 <= q < |m.sq| ==> m.sq[q].id < rob[|rob| - 1].id
  }

  /** The load waits on store `k`. */
  lemma {:induction false} BindLoad(rob: seq<Instr>, m: Mem, load: Load, s: nat, k: nat, slack: nat)
    requires InvAt(rob, m, slack, []) && slack > 0 && rob != [] && s < |m.lq| && m.lq[s].None?
    requires k < |m.sq| && !m.sq[k].issued && m.sq[k].addr == load.addr && YoungestTo(m.sq, load.addr, k, |m.sq|)
    requires m.sq[k].id < load.id && load == Load(rob[|rob| - 1].id, load.addr, None, false, Some(m.sq[k].id))
    ensures InvAt(rob, Bound(m, s, load, k), slack - 1, [])
  {
    hide Forwarding, Accounted, Owned, YoungestTo;
    EnterLoad(rob, m, slack, s, load, m.sq[k := m.sq[k].(deps := m.sq[k].deps + [s])]);
    BindForwards(m, s, load, k);
  }

  /** No store to the address is queued. */
  lemma {:induction false} FreeLoad(rob: seq<Instr>, m: Mem, load: Load, s: nat, slack: nat)
    requires InvAt(rob, m, slack, []) && slack > 0 && rob != [] && s < |m.lq| && m.lq[s].None?
    requires load == Load(rob[|rob| - 1].id, load.addr, None, false, None)
    requires forall j :: 0 <= j < |m.sq| ==> m.sq[j].addr != load.addr
    ensures InvAt(rob, m.(lq := m.lq[s := Some(load)]), slack - 1, [])
  {
    hide Forwarding, Accounted, Owned;
    EnterLoad(rob, m, slack, s, load, m.sq);
    FreeLoadForwards(m, s, load);
  }

  /** The store it forwards from has already finished. */
  lemma {:induction false} ForwardedLoad(rob: seq<Instr>, m: Mem, slack: nat)
    requires InvAt(rob, m, slack, []) && slack > 0 && rob != []
    ensures var n := |rob| - 1; InvAt(rob[n := rob[n].(memDone := rob[n].memDone + 1)], m, slack - 1, [])
  {
    var n := |rob| - 1;
    hide Forwarding;
    OwnedIds(rob, rob[n := rob[n].(memDone := rob[n].memDone + 1)], m, m);
  }

  lemma {:induction false} ScheduleLoadKeeps(rob: seq<Instr>, m: Mem, addr: nat, slack: nat)
    requires InvAt(rob, m, slack, []) && slack > 0 && Newest(rob, m) && FreeSlot(m.lq) < |m.lq|
    ensures var (r, w) := ScheduleLoad(rob, m, addr);
      && InvAt(r, w, slack - 1, []) && OnlyCounts(rob, r) && Newest(r, w)
      && |w.sq| == |m.sq| && (forall q :: 0 <= q < |m.sq| ==> w.sq[q].id == m.sq[q].id)
  {
    hide ForwardFrom, FreeSlot, InvAt, YoungestTo;
    var n := |rob| - 1;
    var s := FreeSlot(m.lq);
    var k := ForwardFrom(m.sq, addr);
    ForwardFromFindsYoungest(m.sq, addr);
    if k < |m.sq| && m.sq[k].addr == addr {
      if m.sq[k].issued {
        ForwardedLoad(rob, m, slack);
      } else {
        BindLoad(rob, m, Load(rob[n].id, addr, None, false, Some(m.sq[k].id)), s, k, slack);
      }
    } else {
      FreeLoad(rob, m, Load(rob[n].id, addr, None, false, None), s, slack);
    }
  }

  lemma {:induction false} ScheduleLoadsKeep(rob: seq<Instr>, m: Mem, addrs: seq<nat>, slack: nat)
    requires InvAt(rob, m, slack, []) && slack >= |addrs| && Newest(rob, m) && |addrs| <= FreeSlots(m.lq)
    ensures var (r, w) := ScheduleLoads(rob, m, addrs);
      && InvAt(r, w, slack - |addrs|, []) && OnlyCounts(rob, r) && Newest(r, w)
      && |w.sq| == |m.sq| && (forall q :: 0 <= q < |m.sq| ==> w.sq[q].id == m.sq[q].id)
    decreases |addrs|
  {
    hide InvAt;
    if addrs != [] {
      ScheduleLoadSlots(rob, m, addrs[0]);
      ScheduleLoadKeeps(rob, m, addrs[0], slack);
      var (r, w) := ScheduleLoad(rob, m, addrs[0]);
      ScheduleLoadsKeep(r, w, addrs[1..], slack - 1);
    }
  }

  lemma {:induction false} AllCounted<T>(s: seq<T>, p: T -> bool)
    requires forall i :: 0 <= i < |s| ==> p(s[i])
    ensures CountIf(s, p) == |s|
  {
    if s != [] { AllCounted(s[1..], p); }
  }

  lemma {:induction false} EnterStores(rob: seq<Instr>, m: Mem, addrs: seq<nat>)
    requires InvAt(rob, m, |addrs|, []) && Newest(rob, m)
    ensures InvAt(rob, m.(sq := m.sq + NewStores(rob[|rob| - 1].id, addrs)), 0, [])
  {
    var n := |rob| - 1;
    var added := NewStores(rob[n].id, addrs);
    var w := m.(sq := m.sq + added);
    forall i | 0 <= i < |rob|
      ensures PendingStores(w.sq, rob[i].id) == PendingStores(m.sq, rob[i].id) + (if i == n then |addrs| else 0)
    {
      var p := (x: Store) => !x.issued && x.id == rob[i].id;
      CountIfAppend(m.sq, added, p);
      if i == n { AllCounted(added, p); } else { NoneCounted(added, p); }
    }
    assert HasId(rob, rob[n].id);
    forall s | 0 <= s < |m.lq| && m.lq[s].Some? ensures m.lq[s].value.id <= rob[n].id {
      var i :| 0 <= i < |rob| && rob[i].id == m.lq[s].value.id;
    }
    EnterStoresForwards(m, added, rob[n].id);
    hide Forwarding, Accounted;
    assert Owned(rob, w) by {
      forall q | 0 <= q < |w.sq| && !w.sq[q].issued ensures HasId(rob, w.sq[q].id) {
        if q >= |m.sq| { assert w.sq[q] == added[q - |m.sq|]; }
      }
    }
  }

  lemma {:induction false} EnterStoresForwards(m: Mem, added: seq<Store>, id: nat)
    requires Forwarding(m, [])
    requires forall i :: 0 <= i < |added| ==> added[i].id == id && !added[i].issued && added[i].deps == []
    requires forall q :: 0 <= q < |m.sq| ==> m.sq[q].id < id
    requires forall s :: 0 <= s < |m.lq| && m.lq[s].Some? ==> m.lq[s].value.id <= id
    ensures Forwarding(m.(sq := m.sq + added), [])
  {
    var w := m.(sq := m.sq + added);
    forall t | 0 <= t < |w.lq| && w.lq[t].Some? && w.lq[t].value.producer.Some? ensures IsListed(w.sq, t) {
      var q :| 0 <= q < |m.sq| && !m.sq[q].issued && t in m.sq[q].deps;
      assert w.sq[q] == m.sq[q];
    }
  }

  // ---- the steps of the core ----

  lemma {:induction false} HasIdSplit(s: seq<Instr>, t: seq<Instr>, id: nat)
    ensures HasId(s + t, id) <==> HasId(s, id) || HasId(t, id)
  {
    if HasId(s + t, id) {
      var i :| 0 <= i < |s + t| && (s + t)[i].id == id;
      if i < |s| { assert s[i].id == id; } else { assert t[i - |s|].id == id; }
    }
    if HasId(s, id) {
      var i :| 0 <= i < |s| && s[i].id == id;
      assert (s + t)[i].id == id;
    }
    if HasId(t, id) {
      var i :| 0 <= i < |t| && t[i].id == id;
      assert (s + t)[|s| + i].id == id;
    }
  }

  lemma {:induction false} OnlyCountsAppend(done: seq<Instr>, rob: seq<Instr>, r: seq<Instr>)
    requires OnlyCounts(rob, r)
    ensures OnlyCounts(done + rob, done + r)
    ensures IdsIncrease(done + rob) ==> IdsIncrease(done + r)
    ensures forall id: nat :: HasId(done + rob, id) ==> HasId(done + r, id)
  {
    forall id: nat | HasId(done + rob, id) ensures HasId(done + r, id) {
      var i :| 0 <= i < |done + rob| && (done + rob)[i].id == id;
      assert (done + r)[i].id == id;
    }
  }

  /** Counts never pass the number of operations, so a completed instruction stays done. */
  lemma {:induction false} CompletedStay(rob: seq<Instr>, r: seq<Instr>, w: Mem)
    requires CompletedDone(rob) && OnlyCounts(rob, r) && InvAt(r, w, 0, [])
    ensures CompletedDone(r)
  {
    hide Forwarding, Owned;
    forall i | 0 <= i < |r| && r[i].completed ensures r[i].memDone == r[i].MemOps() {
      assert r[i].memDone <= r[i].MemOps();
      assert r[i] == rob[i].(memDone := r[i].memDone);
    }
  }

  lemma {:induction false} OperateLsqKeeps(done: seq<Instr>, rob: seq<Instr>, m: Mem, now: int, sqWidth: nat,
      lqWidth: nat, writes: nat, accepts: nat -> bool)
    requires Inv(done, rob, m)
    ensures var (r, w) := OperateLsq(rob, m, now, sqWidth, lqWidth, writes, accepts);
      && Inv(done, r, w) && OnlyCounts(rob, r) && Remaining(m.sq, w.sq)
      && ReleasesThenSends(m.lq, w.lq, lqWidth, now, accepts)
      && StoresMove(rob, m, w, now, sqWidth, writes)
  {
    hide InvAt, OperateLsq, ReleasesThenSends, StoresMove;
    OperateLsqStores(rob, m, now, sqWidth, lqWidth, writes, accepts);
    OperateLsqSends(rob, m, now, sqWidth, lqWidth, writes, accepts);
    OperateLsqAt(rob, m, now, sqWidth, lqWidth, writes, accepts);
    var (r, w) := OperateLsq(rob, m, now, sqWidth, lqWidth, writes, accepts);
    OnlyCountsAppend(done, rob, r);
    CompletedStay(rob, r, w);
  }

  lemma {:induction false} ReturnKeeps(done: seq<Instr>, rob: seq<Instr>, m: Mem, blocks: seq<nat>, blockSize: nat)
    requires Inv(done, rob, m) && blockSize > 0
    ensures var (r, lq) := ReturnBlocks(rob, m.lq, blocks, blockSize);
      && Inv(done, r, m.(lq := lq)) && OnlyCounts(rob, r)
      && forall k :: 0 <= k < |lq| ==> lq[k] == if Answered(m.lq[k], blocks, blockSize) then None else m.lq[k]
  {
    hide InvAt, ReturnBlocks;
    ReturnBlocksAnswer(rob, m.lq, blocks, blockSize);
    ReturnBlocksKeep(rob, m, blocks, blockSize);
    var (r, lq) := ReturnBlocks(rob, m.lq, blocks, blockSize);
    OnlyCountsAppend(done, rob, r);
    CompletedStay(rob, r, m.(lq := lq));
  }

  /** Retiring completed instructions leaves no memory operation behind. */
  lemma {:induction false} RetireKeeps(done: seq<Instr>, rob: seq<Instr>, m: Mem, k: nat)
    requires Inv(done, rob, m) && k <= |rob| && forall i :: 0 <= i < k ==> rob[i].completed
    ensures Inv(done + rob[..k], rob[k..], m)
  {
    assert done + rob[..k] + rob[k..] == done + rob;
    forall id: nat | HasId(rob, id)
      && (LoadsOf(m.lq, id) > 0 || PendingStores(m.sq, id) > 0) ensures HasId(rob[k..], id) {
      var i :| 0 <= i < |rob| && rob[i].id == id;
      assert i >= k;
      assert rob[k..][i - k].id == id;
    }
    forall s | 0 <= s < |m.lq| && m.lq[s].Some? ensures HasId(rob[k..], m.lq[s].value.id) {
      CountIfPositive(m.lq, s, (l: Option<Load>) => l.Some? && l.value.id == m.lq[s].value.id);
    }
    forall q | 0 <= q < |m.sq| && !m.sq[q].issued ensures HasId(rob[k..], m.sq[q].id) {
      CountIfPositive(m.sq, q, (x: Store) => !x.issued && x.id == m.sq[q].id);
    }
  }

  /** `t` differs from `rob` only in names, times and flags the queues do not read. */
  ghost predicate SameOps(rob: seq<Instr>, t: seq<Instr>) {
    |rob| == |t| && forall i :: 0 <= i < |rob| ==>
      t[i].id == rob[i].id && t[i].memDone == rob[i].memDone && t[i].srcMem == rob[i].srcMem
        && t[i].dstMem == rob[i].dstMem
  }

  ghost predicate OnlyReady(m: Mem, w: Mem) {
    && |w.lq| == |m.lq| && |w.sq| == |m.sq|
    && (forall s :: 0 <= s < |m.lq| ==> w.lq[s].Some? == m.lq[s].Some?)
    && (forall s :: 0 <= s < |m.lq| && m.lq[s].Some? ==> w.lq[s].value == m.lq[s].value.(ready := w.lq[s].value.ready))
    && (forall q :: 0 <= q < |m.sq| ==> w.sq[q] == m.sq[q].(ready := w.sq[q].ready))
  }

  lemma {:induction false} FlagsKeep(done: seq<Instr>, rob: seq<Instr>, t: seq<Instr>, m: Mem, w: Mem)
    requires Inv(done, rob, m) && SameOps(rob, t) && OnlyReady(m, w) && CompletedDone(t)
    ensures Inv(done, t, w)
  {
    forall id: nat
      ensures HasId(rob, id) ==> HasId(t, id)
      ensures HasId(done + rob, id) ==> HasId(done + t, id)
      ensures LoadsOf(w.lq, id) == LoadsOf(m.lq, id) && PendingStores(w.sq, id) == PendingStores(m.sq, id)
    {
      if HasId(rob, id) { var i :| 0 <= i < |rob| && rob[i].id == id; assert t[i].id == id; }
      HasIdSplit(done, rob, id);
      HasIdSplit(done, t, id);
      CountIfAgree(w.lq, m.lq, (l: Option<Load>) => l.Some? && l.value.id == id, (l: Option<Load>) => l.Some?
        && l.value.id == id);
      CountIfAgree(w.sq, m.sq, (x: Store) => !x.issued && x.id == id, (x: Store) => !x.issued && x.id == id);
    }
    ReadyForwards(m, w);
    hide Forwarding;
    assert Accounted(t, w, 0);
    assert Owned(t, w);
    assert forall i :: 0 <= i < |done + rob| ==> (done + t)[i].id == (done + rob)[i].id;
  }

  lemma {:induction false} ReadyForwards(m: Mem, w: Mem)
    requires Forwarding(m, []) && OnlyReady(m, w)
    ensures Forwarding(w, [])
  {
    forall t | 0 <= t < |w.lq| && w.lq[t].Some? && w.lq[t].value.producer.Some? ensures IsListed(w.sq, t) {
      var q :| 0 <= q < |m.sq| && !m.sq[q].issued && t in m.sq[q].deps;
      assert t in w.sq[q].deps;
    }
    forall q, d | 0 <= q < |w.sq| && !w.sq[q].issued && 0 <= d < |w.sq[q].deps|
      ensures Waits(w.lq, w.sq[q].deps[d], w.sq[q].id, w.sq[q].addr)
    {
      assert Waits(m.lq, m.sq[q].deps[d], m.sq[q].id, m.sq[q].addr);
    }
  }

  lemma {:induction false} DispatchKeeps(done: seq<Instr>, rob: seq<Instr>, m: Mem, x: Instr)
    requires Inv(done, rob, m) && IdsIncrease(done + rob + [x])
    requires x.memDone == 0 && !x.completed && |x.srcMem| <= FreeSlots(m.lq)
    ensures var (r, w) := MemorySchedule(rob + [x], m);
      && Inv(done, r, w) && OnlyCounts(rob + [x], r)
      && |w.sq| == |m.sq| + |x.dstMem|
  {
    hide InvAt, HasId, IdsIncrease;
    var t := rob + [x];
    assert done + t == done + rob + [x];
    EnterNewest(done, rob, m, x);
    ScheduleLoadsKeep(t, m, x.srcMem, x.MemOps());
    var (r, w) := ScheduleLoads(t, m, x.srcMem);
    EnterStores(r, w, x.dstMem);
    var v := w.(sq := w.sq + NewStores(x.id, x.dstMem));
    assert CompletedDone(t);
    CompletedStay(t, r, v);
    hide CompletedDone;
    OnlyCountsAppend(done, t, r);
    StoresKnown(done, rob, m.sq, x, r, v.sq);
  }

  lemma {:induction false} EnterNewest(done: seq<Instr>, rob: seq<Instr>, m: Mem, x: Instr)
    requires Inv(done, rob, m) && IdsIncrease(done + rob + [x]) && x.memDone == 0
    ensures InvAt(rob + [x], m, x.MemOps(), []) && Newest(rob + [x], m)
  {
    forall i | 0 <= i < |rob| ensures rob[i].id < x.id {
      assert (done + rob + [x])[|done| + i] == rob[i] && (done + rob + [x])[|done + rob|] == x;
    }
    EnterRob(rob, m, x);
    NewestInQueue(done, rob, m, x);
    hide InvAt;
  }

  lemma {:induction false} StoresKnown(done: seq<Instr>, rob: seq<Instr>, sq: seq<Store>, x: Instr, r: seq<Instr>,
      w: seq<Store>)
    requires forall id: nat :: HasId(done + (rob + [x]), id) ==> HasId(done + r, id)
    requires forall q :: 0 <= q < |sq| ==> HasId(done + rob, sq[q].id)
    requires |w| >= |sq| && forall q :: 0 <= q < |w| ==> w[q].id == if q < |sq| then sq[q].id else x.id
    ensures forall q :: 0 <= q < |w| ==> HasId(done + r, w[q].id)
  {
    var t := rob + [x];
    assert done + t == done + rob + [x];
    forall q | 0 <= q < |w| ensures HasId(done + r, w[q].id) {
      if q < |sq| {
        HasIdSplit(done + rob, [x], sq[q].id);
        assert HasId(done + t, sq[q].id);
      } else {
        assert (done + t)[|done + rob|].id == x.id;
        assert HasId(done + t, x.id);
      }
    }
  }

  lemma {:induction false} NewestInQueue(done: seq<Instr>, rob: seq<Instr>, m: Mem, x: Instr)
    requires IdsIncrease(done + rob + [x])
    requires forall q :: 0 <= q < |m.sq| ==> HasId(done + rob, m.sq[q].id)
    ensures Newest(rob + [x], m)
  {
    forall q | 0 <= q < |m.sq| ensures m.sq[q].id < x.id {
      var i :| 0 <= i < |done + rob| && (done + rob)[i].id == m.sq[q].id;
      assert (done + rob + [x])[i] == (done + rob)[i] && (done + rob + [x])[|done + rob|] == x;
    }
  }

  // ---- what the invariant gives ----

  /** The store at `q` is the youngest older store to the load in slot `s`, has not
      issued, and alone lists the slot, once. */
  ghost predicate BoundTo(m: Mem, s: nat, q: nat)
    requires s < |m.lq| && m.lq[s].Some?
  {
    var l := m.lq[s].value;
    && q < |m.sq| && !m.sq[q].issued && l.producer == Some(m.sq[q].id)
    && m.sq[q].addr == l.addr && m.sq[q].id < l.id
    && (forall j :: 0 <= j < |m.sq| && m.sq[j].addr == l.addr && m.sq[j].id < l.id ==> m.sq[j].id <= m.sq[q].id)
    && s in m.sq[q].deps
    && (forall r :: 0 <= r < |m.sq| && !m.sq[r].issued && s in m.sq[r].deps ==> r == q)
    && (forall d, e :: 0 <= d < e < |m.sq[q].deps| ==> m.sq[q].deps[d] != m.sq[q].deps[e])
  }

  lemma {:induction false} WaitingIsBound(m: Mem, s: nat)
    requires Forwarding(m, []) && s < |m.lq| && m.lq[s].Some?
    ensures var l := m.lq[s].value;
      && (l.producer.Some? <==> exists j :: 0 <= j < |m.sq| && m.sq[j].addr == l.addr && m.sq[j].id < l.id)
      && (l.producer.Some? ==> !l.issued && exists q :: BoundTo(m, s, q))
  {
    if m.lq[s].value.producer.Some? {
      var q :| 0 <= q < |m.sq| && !m.sq[q].issued && s in m.sq[q].deps;
      var d :| 0 <= d < |m.sq[q].deps| && m.sq[q].deps[d] == s;
      assert Waits(m.lq, m.sq[q].deps[d], m.sq[q].id, m.sq[q].addr);
      forall r | 0 <= r < |m.sq| && !m.sq[r].issued && s in m.sq[r].deps ensures r == q {
        var e :| 0 <= e < |m.sq[r].deps| && m.sq[r].deps[e] == s;
        assert m.sq[r].deps[e] == m.sq[q].deps[d];
      }
      assert BoundTo(m, s, q);
    }
  }

  /** Whatever is live in the queues belongs to an unfinished instruction of the ROB. */
  lemma {:induction false} LiveHasOwner(rob: seq<Instr>, m: Mem, id: nat)
    requires IdsIncrease(rob) && Accounted(rob, m, 0) && Owned(rob, m)
    requires (exists s :: 0 <= s < |m.lq| && m.lq[s].Some? && m.lq[s].value.id == id)
          || (exists q :: 0 <= q < |m.sq| && !m.sq[q].issued && m.sq[q].id == id)
    ensures var i := FindById(rob, id); i < |rob| && rob[i].id == id && rob[i].memDone < rob[i].MemOps()
  {
    var i :| 0 <= i < |rob| && rob[i].id == id;
    FindsId(rob, i);
    if s :| 0 <= s < |m.lq| && m.lq[s].Some? && m.lq[s].value.id == id {
      CountIfPositive(m.lq, s, (l: Option<Load>) => l.Some? && l.value.id == id);
    } else {
      var q :| 0 <= q < |m.sq| && !m.sq[q].issued && m.sq[q].id == id;
      CountIfPositive(m.sq, q, (x: Store) => !x.issued && x.id == id);
    }
  }
}
