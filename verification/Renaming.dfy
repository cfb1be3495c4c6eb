/** What renaming keeps: physical registers are conserved, and every scheduled
    instruction names the registers of its program-order producers. */
module Renaming {
  import opened Sequences
  import opened Instructions
  import opened RegisterAllocation

  // ---- where a register name comes from ----

  /** The physical register of the last destination in `arch` that is `r`. */
  function LastName(arch: seq<Reg>, phys: seq<Reg>, r: Reg): (p: Reg)
    requires |arch| == |phys| && r in arch
    ensures p in phys
    ensures exists j :: 0 <= j < |arch| && arch[j] == r && phys[j] == p
  {
    var n := |arch| - 1;
    if arch[n] == r then phys[n]
    else
      assert arch == arch[..n] + [arch[n]];
      LastName(arch[..n], phys[..n], r)
  }

  ghost predicate NamesMatch(s: seq<Instr>) {
    forall i :: 0 <= i < |s| ==> |s[i].archDst| == |s[i].dst|
  }

  /** What `r` names after the instructions `s`, oldest first: the youngest
      writer among them, or else the committed mapping. */
  ghost function Resolve(backend: seq<Mapping>, s: seq<Instr>, r: Reg): Mapping
    requires |backend| == 256 && NamesMatch(s)
  {
    if s == [] then backend[r]
    else
      var n := |s| - 1;
      if r in s[n].archDst then LastName(s[n].archDst, s[n].dst, r) else Resolve(backend, s[..n], r)
  }

  /** The youngest instruction of `s` that writes `r`. */
  ghost function YoungestWriter(s: seq<Instr>, r: Reg): (w: Option<Instr>)
    ensures w.Some? ==> w.value in s && r in w.value.archDst
    ensures w.None? ==> forall x :: x in s ==> r !in x.archDst
  {
    if s == [] then None
    else
      var n := |s| - 1;
      assert s == s[..n] + [s[n]];
      if r in s[n].archDst then Some(s[n]) else YoungestWriter(s[..n], r)
  }

  /** The producer id the register file must record for `r` after `s`: its youngest
      writer, or 0 for a value that was there before the trace began. */
  ghost function ProducerId(s: seq<Instr>, r: Reg): nat {
    var w := YoungestWriter(s, r);
    if w.Some? then w.value.id else 0
  }

  // ---- who owns each physical register ----

  ghost function Bag(s: seq<int>): multiset<int> {
    multiset(s)
  }

  ghost function Mapped(backend: seq<Mapping>): multiset<int> {
    multiset(backend)[-1 := 0]
  }

  ghost function InFlight(s: seq<Instr>): multiset<int> {
    if s == [] then multiset{} else
      (if s[0].scheduled then Bag(s[0].dst) else multiset{}) + InFlight(s[1..])
  }

  ghost function Owners(a: Alloc, rob: seq<Instr>): multiset<int> {
    Bag(a.free) + Mapped(a.backend) + InFlight(rob)
  }

  /** Every physical register is in the free queue, in the backend RAT or the destination
      of one scheduled instruction, exactly once. */
  ghost predicate Conserved(n: nat, a: Alloc, rob: seq<Instr>) {
    forall p: int :: Owners(a, rob)[p] == if 0 <= p < n then 1 else 0
  }

  // ---- the invariant ----

  /** How many entries, from the head, have been scheduled. */
  ghost function Scheduled(rob: seq<Instr>): (k: nat)
    ensures k <= |rob|
  {
    SpanLen(rob, |rob|, (x: Instr) => x.scheduled)
  }

  ghost predicate Shape(n: nat, a: Alloc) {
    && |a.file| == n <= 256
    && (forall r: Reg :: a.frontend[r] < n && a.backend[r] < n)
  }

  ghost predicate EntryOk(x: Instr) {
    && (x.completed ==> x.executed) && (x.executed ==> x.scheduled)
    && |x.src| == |x.archSrc| && |x.dst| == |x.archDst|
    && (!x.scheduled ==> x.src == x.archSrc && x.dst == x.archDst)
  }

  ghost predicate InOrder(rob: seq<Instr>) {
    && (forall i :: 0 <= i < |rob| ==> EntryOk(rob[i]))
    && (forall i, j :: 0 <= i < j < |rob| && rob[j].scheduled ==> rob[i].scheduled)
  }

  /** frontend_RAT is the resolution after everything scheduled, and each source
      is its resolution at that instruction. */
  ghost predicate Linked(a: Alloc, rob: seq<Instr>)
    requires NamesMatch(rob)
  {
    && (forall r: Reg :: a.frontend[r] == Resolve(a.backend, rob[..Scheduled(rob)], r))
    && (forall i, k :: 0 <= i < Scheduled(rob) && 0 <= k < |rob[i].src| && k < |rob[i].archSrc| ==>
          rob[i].src[k] == Resolve(a.backend, rob[..i], rob[i].archSrc[k]))
  }

  ghost predicate Recorded(a: Alloc, retired: seq<Instr>, rob: seq<Instr>) {
    && (forall r: Reg :: 0 <= a.backend[r] < |a.file| ==>
          a.file[a.backend[r]] == PhysReg(r, ProducerId(retired, r), true, true))
    && (forall r: Reg :: a.backend[r] == -1 ==> YoungestWriter(retired, r) == None)
    && (forall i, k ::
          0 <= i < Scheduled(rob) && 0 <= k < |rob[i].dst| && k < |rob[i].archDst| && rob[i].dst[k] < |a.file| ==>
          a.file[rob[i].dst[k]] == PhysReg(rob[i].archDst[k], rob[i].id, rob[i].completed, true))
  }

  ghost predicate Ready(a: Alloc, rob: seq<Instr>) {
    forall i, k :: 0 <= i < |rob| && rob[i].executed && 0 <= k < |rob[i].src| ==> IsValid(a, rob[i].src[k])
  }

  ghost predicate Inv(n: nat, retired: seq<Instr>, rob: seq<Instr>, a: Alloc) {
    && Shape(n, a)
    && InOrder(rob)
    && Conserved(n, a, rob)
    && Linked(a, rob)
    && Recorded(a, retired, rob)
    && Ready(a, rob)
  }

  lemma ScheduledIs(rob: seq<Instr>, k: nat)
    requires k <= |rob| && (forall i :: 0 <= i < k ==> rob[i].scheduled) && (k < |rob| ==> !rob[k].scheduled)
    ensures Scheduled(rob) == k
  {
    var n := Scheduled(rob);
    assert n < |rob| ==> !rob[n].scheduled;
    assert forall i :: 0 <= i < n ==> rob[i].scheduled;
  }

  lemma ScheduledPrefix(rob: seq<Instr>)
    requires InOrder(rob)
    ensures forall i :: 0 <= i < |rob| ==> (rob[i].scheduled <==> i < Scheduled(rob))
  {
    var n := Scheduled(rob);
    forall i | n <= i < |rob| ensures !rob[i].scheduled {
      assert !rob[n].scheduled;
    }
  }

  // ---- lemmas about resolution ----

  lemma {:induction false} ResolveUnmapped(backend: seq<Mapping>, s: seq<Instr>, r: Reg, i: nat)
    requires |backend| == 256 && NamesMatch(s) && i <= |s|
    requires Resolve(backend, s, r) == -1
    ensures Resolve(backend, s[..i], r) == -1 && backend[r] == -1
  {
    if i < |s| {
      var n := |s| - 1;
      assert s[..n][..i] == s[..i];
      ResolveUnmapped(backend, s[..n], r, i);
    } else {
      assert s[..i] == s;
      if s != [] { 
        var n := |s| - 1;
        assert s[..n][..n] == s[..n];
        ResolveUnmapped(backend, s[..n], r, n);
      }
    }
  }

  /** Resolution reads only the backend entry of the register it resolves. */
  lemma {:induction false} ResolveLocal(b: seq<Mapping>, c: seq<Mapping>, s: seq<Instr>, r: Reg)
    requires |b| == 256 && |c| == 256 && b[r] == c[r] && NamesMatch(s)
    ensures Resolve(b, s, r) == Resolve(c, s, r)
  {
    if s != [] { ResolveLocal(b, c, s[..|s| - 1], r); }
  }

  ghost predicate SameNames(s: seq<Instr>, t: seq<Instr>) {
    |s| == |t| && forall i :: 0 <= i < |s| ==>
      s[i].id == t[i].id && s[i].archDst == t[i].archDst && s[i].dst == t[i].dst
      && s[i].archSrc == t[i].archSrc && s[i].src == t[i].src && s[i].scheduled == t[i].scheduled
  }

  lemma {:induction false} ResolveSameNames(b: seq<Mapping>, s: seq<Instr>, t: seq<Instr>, r: Reg)
    requires |b| == 256 && SameNames(s, t) && NamesMatch(s)
    ensures NamesMatch(t) && Resolve(b, s, r) == Resolve(b, t, r)
  {
    if s != [] { ResolveSameNames(b, s[..|s| - 1], t[..|s| - 1], r); }
  }

  lemma {:induction false} InFlightSameNames(s: seq<Instr>, t: seq<Instr>)
    requires SameNames(s, t)
    ensures InFlight(s) == InFlight(t)
  {
    if s != [] { InFlightSameNames(s[1..], t[1..]); }
  }

  // ---- lemmas about ownership ----

  lemma {:induction false} InFlightAppend(s: seq<Instr>, t: seq<Instr>)
    ensures InFlight(s + t) == InFlight(s) + InFlight(t)
  {
    if s == [] {
      assert s + t == t;
    } else {
      assert (s + t)[1..] == s[1..] + t;
      InFlightAppend(s[1..], t);
    }
  }

  lemma {:induction false} InFlightUnscheduled(s: seq<Instr>)
    requires forall i :: 0 <= i < |s| ==> !s[i].scheduled
    ensures InFlight(s) == multiset{}
  {
    if s != [] { InFlightUnscheduled(s[1..]); }
  }

  lemma InFlightUpdate(s: seq<Instr>, i: nat, x: Instr)
    requires i < |s| && !s[i].scheduled && x.scheduled
    ensures InFlight(s[i := x]) == InFlight(s) + Bag(x.dst)
  {
    assert s == s[..i] + ([s[i]] + s[i + 1..]);
    assert s[i := x] == s[..i] + ([x] + s[i + 1..]);
    InFlightAppend(s[..i], [s[i]] + s[i + 1..]);
    InFlightAppend(s[..i], [x] + s[i + 1..]);
    assert ([x] + s[i + 1..])[1..] == s[i + 1..] == ([s[i]] + s[i + 1..])[1..];
  }

  /** A destination of a scheduled instruction is in flight, as often as it is listed. */
  lemma {:induction false} InFlightContains(s: seq<Instr>, i: nat)
    requires i < |s| && s[i].scheduled
    ensures forall p: int :: InFlight(s)[p] >= Bag(s[i].dst)[p]
  {
    if i > 0 { InFlightContains(s[1..], i - 1); }
  }

  lemma {:induction false} InFlightContainsTwo(s: seq<Instr>, i: nat, j: nat)
    requires i < j < |s| && s[i].scheduled && s[j].scheduled
    ensures forall p: int :: InFlight(s)[p] >= Bag(s[i].dst)[p] + Bag(s[j].dst)[p]
  {
    if i > 0 { InFlightContainsTwo(s[1..], i - 1, j - 1); } else { InFlightContains(s[1..], j - 1); }
  }

  lemma InBag(s: seq<int>, p: int)
    ensures p in s ==> Bag(s)[p] > 0
  {
    assert p in s ==> p in multiset(s);
  }

  lemma BagSplit(s: seq<int>, k: nat)
    requires k <= |s|
    ensures Bag(s) == Bag(s[..k]) + Bag(s[k..])
  {
    assert s == s[..k] + s[k..];
  }

  lemma BagTwice(s: seq<int>, i: nat, j: nat)
    requires i < j < |s| && s[i] == s[j]
    ensures Bag(s)[s[i]] >= 2
  {
    assert s == s[..j] + s[j..];
    assert s[..j][i] == s[i] && s[j..][0] == s[i];
  }

  lemma MappedUpdate(b: seq<Mapping>, r: Reg, p: Reg)
    requires |b| == 256
    ensures b[r] == -1 ==> Mapped(b[r := p]) == Mapped(b) + multiset{p as int}
    ensures b[r] != -1 ==> Mapped(b[r := p]) + multiset{b[r] as int} == Mapped(b) + multiset{p as int}
  {
  }

  /** A register in the free queue is nowhere else. */
  lemma FreeIsUnused(n: nat, a: Alloc, rob: seq<Instr>, f: nat)
    requires Conserved(n, a, rob) && f < |a.free|
    ensures a.free[f] < n
    ensures forall r: Reg :: a.backend[r] != a.free[f]
    ensures forall i :: 0 <= i < |rob| && rob[i].scheduled ==> a.free[f] !in rob[i].dst
    ensures forall g :: 0 <= g < |a.free| && g != f ==> a.free[g] != a.free[f]
  {
    var p := a.free[f];
    assert Bag(a.free)[p] >= 1;
    assert Owners(a, rob)[p] == 1;
    forall r: Reg ensures a.backend[r] != p {
      assert a.backend[r] == p ==> p in multiset(a.backend);
    }
    forall i | 0 <= i < |rob| && rob[i].scheduled ensures p !in rob[i].dst {
      InFlightContains(rob, i);
      InBag(rob[i].dst, p);
    }
    forall g | 0 <= g < |a.free| && g != f ensures a.free[g] != p {
      if a.free[g] == p { if g < f { BagTwice(a.free, g, f); } else { BagTwice(a.free, f, g); } }
    }
  }

  /** A destination in flight is committed nowhere and is nobody else's destination. */
  lemma DestIsUnique(n: nat, a: Alloc, rob: seq<Instr>, i: nat, k: nat)
    requires Conserved(n, a, rob) && i < |rob| && rob[i].scheduled && k < |rob[i].dst|
    ensures rob[i].dst[k] < n
    ensures forall r: Reg :: a.backend[r] != rob[i].dst[k]
    ensures forall j, m ::
      0 <= j < |rob| && rob[j].scheduled && 0 <= m < |rob[j].dst| && rob[j].dst[m] == rob[i].dst[k] ==>
        j == i && m == k
  {
    var p := rob[i].dst[k];
    InFlightContains(rob, i);
    InBag(rob[i].dst, p);
    assert Owners(a, rob)[p] == 1;
    forall r: Reg ensures a.backend[r] != p {
      assert a.backend[r] == p ==> p in multiset(a.backend);
    }
    forall j, m | 0 <= j < |rob| && rob[j].scheduled && 0 <= m < |rob[j].dst| && rob[j].dst[m] == p
      ensures j == i && m == k
    {
      InBag(rob[j].dst, p);
      if j < i { InFlightContainsTwo(rob, j, i); } else if i < j { InFlightContainsTwo(rob, i, j); }
      else if m < k { BagTwice(rob[i].dst, m, k); } else if k < m { BagTwice(rob[i].dst, k, m); }
    }
  }

  // ---- renaming one source ----

  lemma RenameSrcLinks(a: Alloc, rob: seq<Instr>, r: Reg, p: Reg)
    requires InOrder(rob) && Linked(a, rob) && !IsAllocated(a, r)
    ensures Linked(a.(frontend := a.frontend[r := p], backend := a.backend[r := p]), rob)
  {
    var b := a.(frontend := a.frontend[r := p], backend := a.backend[r := p]);
    var n := Scheduled(rob);
    var s := rob[..n];
    forall q: Reg ensures b.frontend[q] == Resolve(b.backend, s, q) {
      if q != r { ResolveLocal(a.backend, b.backend, s, q); } else { ResolveFresh(a.backend, s, r, p); }
    }
    forall i, k | 0 <= i < n && 0 <= k < |rob[i].src|
      ensures rob[i].src[k] == Resolve(b.backend, rob[..i], rob[i].archSrc[k])
    {
      assert s[..i] == rob[..i];
      ResolveUnmapped(a.backend, s, r, i);
      ResolveLocal(a.backend, b.backend, rob[..i], rob[i].archSrc[k]);
    }
  }

  lemma RenameSrcOwns(a: Alloc, rob: seq<Instr>, r: Reg)
    requires !IsAllocated(a, r) && a.backend[r] == -1 && a.free != []
    ensures Owners(RenameSrc(a, r).0, rob) == Owners(a, rob)
  {
    var b := RenameSrc(a, r).0;
    MappedUpdate(a.backend, r, a.free[0]);
    assert a.free == [a.free[0]] + b.free;
    assert Bag(a.free) == Bag([a.free[0]]) + Bag(b.free);
  }

  lemma RenameSrcRecords(n: nat, retired: seq<Instr>, rob: seq<Instr>, a: Alloc, r: Reg)
    requires Inv(n, retired, rob, a) && a.frontend[r] == a.backend[r] == -1 && a.free != []
    ensures Recorded(RenameSrc(a, r).0, retired, rob) && Ready(RenameSrc(a, r).0, rob)
  {
    FreeIsUnused(n, a, rob, 0);
    SourcesLive(n, rob, a);
    hide Conserved, Linked, Resolve, Owners;
  }

  lemma RenameSrcKeeps(n: nat, retired: seq<Instr>, rob: seq<Instr>, a: Alloc, r: Reg)
    requires Inv(n, retired, rob, a)
    requires IsAllocated(a, r) || a.free != []
    ensures Inv(n, retired, rob, RenameSrc(a, r).0)
    ensures RenameSrc(a, r).0.frontend[r] == RenameSrc(a, r).1
    ensures forall q: Reg :: IsAllocated(a, q) ==> RenameSrc(a, r).0.frontend[q] == a.frontend[q]
  {
    if !IsAllocated(a, r) {
      var s, b := rob[..Scheduled(rob)], RenameSrc(a, r).0;
      FreeIsUnused(n, a, rob, 0);
      ResolveUnmapped(a.backend, s, r, 0);
      assert Conserved(n, b, rob) by { RenameSrcOwns(a, rob, r); }
      RenameSrcLinks(a, rob, r, a.free[0]);
      RenameSrcRecords(n, retired, rob, a, r);
      hide Conserved, Linked, Resolve, Owners, Recorded, Ready;
    }
  }

  /** Every source of a scheduled instruction is a live register: committed, or the
      destination of an older instruction still in flight; never a free one. */
  lemma SourcesLive(n: nat, rob: seq<Instr>, a: Alloc)
    requires Shape(n, a) && InOrder(rob) && Conserved(n, a, rob) && Linked(a, rob)
    ensures forall i, k, f :: 0 <= i < Scheduled(rob) && 0 <= k < |rob[i].src| && 0 <= f < |a.free| ==>
      rob[i].src[k] != a.free[f]
  {
    forall i, k, f | 0 <= i < Scheduled(rob) && 0 <= k < |rob[i].src| && 0 <= f < |a.free|
      ensures rob[i].src[k] != a.free[f]
    {
      FreeIsUnused(n, a, rob, f);
      ResolveSource(a.backend, rob[..i], rob[i].archSrc[k]);
    }
  }

  /** A resolution is the committed mapping or some instruction's destination. */
  lemma {:induction false} ResolveSource(backend: seq<Mapping>, s: seq<Instr>, r: Reg)
    requires |backend| == 256 && NamesMatch(s)
    ensures Resolve(backend, s, r) == backend[r] || exists j :: 0 <= j < |s| && Resolve(backend, s, r) in s[j].dst
  {
    if s != [] {
      var n := |s| - 1;
      if r in s[n].archDst {
        assert Resolve(backend, s, r) in s[n].dst;
      } else {
        ResolveSource(backend, s[..n], r);
        if j :| 0 <= j < n && Resolve(backend, s[..n], r) in s[..n][j].dst {
          assert s[j] == s[..n][j];
        }
      }
    }
  }

  /** A register nobody has written resolves to whatever the backend then maps it to. */
  lemma {:induction false} ResolveFresh(backend: seq<Mapping>, s: seq<Instr>, r: Reg, p: Reg)
    requires |backend| == 256 && NamesMatch(s) && Resolve(backend, s, r) == -1
    ensures Resolve(backend[r := p], s, r) == p
  {
    if s != [] { ResolveFresh(backend, s[..|s| - 1], r, p); }
  }

  lemma {:induction false} RenameSourcesKeeps(n: nat, retired: seq<Instr>, rob: seq<Instr>, a: Alloc, regs: seq<Reg>)
    requires Inv(n, retired, rob, a)
    requires Unallocated(a, regs) <= |a.free|
    ensures Inv(n, retired, rob, RenameSources(a, regs).0)
    ensures forall q: Reg :: IsAllocated(a, q) ==> RenameSources(a, regs).0.frontend[q] == a.frontend[q]
    ensures forall j :: 0 <= j < |regs| ==> RenameSources(a, regs).0.frontend[regs[j]] == RenameSources(a, regs).1[j]
    decreases |regs|
  {
    if regs != [] {
      var (b, p) := RenameSrc(a, regs[0]);
      RenameSrcKeeps(n, retired, rob, a, regs[0]);
      UnallocatedShrinks(a, b, regs[1..]);
      RenameSourcesKeeps(n, retired, rob, b, regs[1..]);
    }
  }

  // ---- renaming the destinations ----

  lemma {:induction false} LastNameCons(arch: seq<Reg>, phys: seq<Reg>, r: Reg)
    requires |arch| == |phys| > 0 && r in arch
    ensures LastName(arch, phys, r) == if r in arch[1..] then LastName(arch[1..], phys[1..], r) else phys[0]
  {
    var n := |arch| - 1;
    if arch[n] != r {
      assert arch == arch[..n] + [arch[n]];
      LastNameCons(arch[..n], phys[..n], r);
      assert arch[..n][1..] == arch[1..][..n - 1] && phys[..n][1..] == phys[1..][..n - 1];
      assert arch[1..] == arch[1..][..n - 1] + [arch[n]];
    }
  }

  lemma {:induction false} RenameDestsForm(a: Alloc, regs: seq<Reg>, id: nat)
    requires |regs| <= |a.free|
    requires forall i, j :: 0 <= i < j < |a.free| ==> a.free[i] != a.free[j]
    ensures var (c, ps) := RenameDests(a, regs, id);
      && ps == a.free[..|regs|] && c.free == a.free[|regs|..] && c.backend == a.backend && |c.file| == |a.file|
      && (forall q: Reg :: c.frontend[q] == if q in regs then LastName(regs, ps, q) else a.frontend[q])
      && (forall p :: 0 <= p < |a.file| && p !in ps ==> c.file[p] == a.file[p])
      && (forall j :: 0 <= j < |regs| && ps[j] < |a.file| ==> c.file[ps[j]] == PhysReg(regs[j], id, false, true))
    decreases |regs|
  {
    if regs != [] {
      var (b, p) := RenameDest(a, regs[0], id);
      RenameDestsForm(b, regs[1..], id);
      var (c, ps) := RenameDests(a, regs, id);
      var (d, qs) := RenameDests(b, regs[1..], id);
      assert c == d && ps == [p] + qs;
      hide RenameDests;
      assert ps == a.free[..|regs|] by { assert qs == a.free[1..][..|regs| - 1]; hide LastName; }
      assert p !in qs by { assert forall i :: 0 <= i < |qs| ==> qs[i] == a.free[i + 1]; hide LastName; }
      DestNames(a, b, c, regs, p, qs);
      hide LastName;
      forall j | 0 <= j < |regs| && ps[j] < |a.file| ensures c.file[ps[j]] == PhysReg(regs[j], id, false, true) {
        if j > 0 { assert ps[j] == qs[j - 1] && regs[j] == regs[1..][j - 1]; }
      }
    }
  }

  lemma DestNames(a: Alloc, b: Alloc, c: Alloc, regs: seq<Reg>, p: Reg, qs: seq<Reg>)
    requires regs != [] && |qs| == |regs| - 1 && b.frontend == a.frontend[regs[0] := p]
    requires forall q: Reg :: c.frontend[q] == if q in regs[1..] then LastName(regs[1..], qs, q) else b.frontend[q]
    ensures forall q: Reg :: c.frontend[q] == if q in regs then LastName(regs, [p] + qs, q) else a.frontend[q]
  {
    assert regs == [regs[0]] + regs[1..];
    forall q: Reg ensures c.frontend[q] == if q in regs then LastName(regs, [p] + qs, q) else a.frontend[q] {
      if q in regs { LastNameCons(regs, [p] + qs, q); }
    }
  }

  // ---- scheduling one instruction ----

  /** do_scheduling. */
  function ScheduleInstr(a: Alloc, x: Instr): (Alloc, Instr)
    requires Unallocated(a, x.src) + |x.dst| <= |a.free|
  {
    var (b, ps) := RenameSources(a, x.src);
    var (c, ds) := RenameDests(b, x.dst, x.id);
    (c, x.(src := ps, dst := ds, scheduled := true))
  }

  lemma ScheduleInstrKeeps(n: nat, retired: seq<Instr>, rob: seq<Instr>, a: Alloc)
    requires Inv(n, retired, rob, a)
    requires Scheduled(rob) < |rob|
    requires Unallocated(a, rob[Scheduled(rob)].src) + |rob[Scheduled(rob)].dst| <= |a.free|
    ensures var k := Scheduled(rob);
      var (c, x) := ScheduleInstr(a, rob[k]);
      Inv(n, retired, rob[k := x], c)
  {
    var k := Scheduled(rob);
    var b := RenameSources(a, rob[k].src).0;
    RenameSourcesKeeps(n, retired, rob, a, rob[k].src);
    forall i, j | 0 <= i < j < |b.free| ensures b.free[i] != b.free[j] {
      FreeIsUnused(n, b, rob, i);
    }
    RenameDestsForm(b, rob[k].dst, rob[k].id);
    var (c, x) := ScheduleInstr(a, rob[k]);
    var rob' := rob[k := x];
    ScheduledAfter(rob, k, x);
    ScheduleOwns(n, b, c, rob, k, x);
    ScheduleLinks(n, b, c, rob, k, x);
    ScheduleRecords(n, retired, b, c, rob, k, x);
  }

  /** `c` is `b` after taking the names `x.dst` from the free queue for the instruction at `k`. */
  ghost predicate TookDests(b: Alloc, c: Alloc, rob: seq<Instr>, k: nat, x: Instr) {
    && InOrder(rob) && k == Scheduled(rob) < |rob| && EntryOk(x) && x.scheduled && !x.executed
    && x.id == rob[k].id && x.archDst == rob[k].archDst && x.archSrc == rob[k].archSrc
    && |x.dst| <= |b.free|
    && x.dst == b.free[..|x.dst|] && c.free == b.free[|x.dst|..] && c.backend == b.backend && |c.file| == |b.file|
    && (forall q: Reg :: c.frontend[q] == if q in x.archDst then LastName(x.archDst, x.dst, q) else b.frontend[q])
    && (forall p :: 0 <= p < |b.file| && p !in x.dst ==> c.file[p] == b.file[p])
    && (forall j :: 0 <= j < |x.dst| && x.dst[j] < |b.file| ==>
      c.file[x.dst[j]] == PhysReg(x.archDst[j], x.id, false, true))
    && (forall j :: 0 <= j < |x.src| ==> b.frontend[x.archSrc[j]] == x.src[j])
  }

  lemma ScheduledAfter(rob: seq<Instr>, k: nat, x: Instr)
    requires InOrder(rob) && k == Scheduled(rob) < |rob| && EntryOk(x) && x.scheduled && !x.executed
    ensures InOrder(rob[k := x]) && Scheduled(rob[k := x]) == k + 1
  {
    ScheduledPrefix(rob);
    ScheduledIs(rob[k := x], k + 1);
  }

  lemma ScheduleOwns(n: nat, b: Alloc, c: Alloc, rob: seq<Instr>, k: nat, x: Instr)
    requires TookDests(b, c, rob, k, x)
    ensures Owners(c, rob[k := x]) == Owners(b, rob)
    ensures InOrder(rob[k := x])
  {
    ScheduledPrefix(rob);
    ScheduledAfter(rob, k, x);
    InFlightUpdate(rob, k, x);
    BagSplit(b.free, |x.dst|);
  }

  lemma ScheduleLinks(n: nat, b: Alloc, c: Alloc, rob: seq<Instr>, k: nat, x: Instr)
    requires TookDests(b, c, rob, k, x) && Linked(b, rob)
    ensures InOrder(rob[k := x]) && Linked(c, rob[k := x])
  {
    var t := rob[k := x];
    ScheduledAfter(rob, k, x);
    assert t[..k + 1][..k] == rob[..k];
    forall i, j | 0 <= i < k + 1 && 0 <= j < |t[i].src|
      ensures t[i].src[j] == Resolve(c.backend, t[..i], t[i].archSrc[j])
    {
      assert t[..i] == rob[..i];
    }
  }

  lemma ScheduleRecords(n: nat, retired: seq<Instr>, b: Alloc, c: Alloc, rob: seq<Instr>, k: nat, x: Instr)
    requires Inv(n, retired, rob, b) && TookDests(b, c, rob, k, x)
    ensures InOrder(rob[k := x]) && Recorded(c, retired, rob[k := x]) && Ready(c, rob[k := x]) && Shape(n, c)
  {
    var t := rob[k := x];
    ScheduledAfter(rob, k, x);
    forall j | 0 <= j < |x.dst| ensures x.dst[j] < n && forall r: Reg :: b.backend[r] != x.dst[j] {
      FreeIsUnused(n, b, rob, j);
    }
    forall i, m | 0 <= i < k && 0 <= m < |rob[i].dst| ensures rob[i].dst[m] !in x.dst {
      forall j | 0 <= j < |x.dst| ensures x.dst[j] != rob[i].dst[m] { FreeIsUnused(n, b, rob, j); }
    }
    SourcesLive(n, rob, b);
  }

  // ---- execution, completion ----

  /** Setting `executed` on an entry whose sources are valid, or touching fields that
      name no register, keeps the invariant. */
  lemma FlagsKeep(n: nat, retired: seq<Instr>, rob: seq<Instr>, t: seq<Instr>, a: Alloc)
    requires Inv(n, retired, rob, a) && SameNames(rob, t)
    requires forall i :: 0 <= i < |t| ==> EntryOk(t[i]) && t[i].completed == rob[i].completed
    requires forall i, k :: 0 <= i < |t| && t[i].executed && !rob[i].executed && 0 <= k < |t[i].src| ==>
      IsValid(a, t[i].src[k])
    ensures Inv(n, retired, t, a)
  {
    ScheduledPrefix(rob);
    ScheduledIs(t, Scheduled(rob));
    InFlightSameNames(rob, t);
    assert Owners(a, t) == Owners(a, rob);
    LinkedSameNames(rob, t, a, a);
  }

  lemma LinkedSameNames(rob: seq<Instr>, t: seq<Instr>, a: Alloc, c: Alloc)
    requires InOrder(rob) && Linked(a, rob) && SameNames(rob, t) && Scheduled(t) == Scheduled(rob)
    requires c.frontend == a.frontend && c.backend == a.backend
    ensures NamesMatch(t) && Linked(c, t)
  {
    var k := Scheduled(rob);
    forall r: Reg ensures a.frontend[r] == Resolve(a.backend, t[..k], r) {
      ResolveSameNames(a.backend, rob[..k], t[..k], r);
    }
    forall i, j | 0 <= i < k && 0 <= j < |t[i].src| && j < |t[i].archSrc|
      ensures t[i].src[j] == Resolve(a.backend, t[..i], t[i].archSrc[j])
    {
      ResolveSameNames(a.backend, rob[..i], t[..i], t[i].archSrc[j]);
    }
  }

  lemma {:induction false} CompleteDestsForm(a: Alloc, ps: seq<Reg>)
    ensures var c := CompleteDests(a, ps);
      && c.frontend == a.frontend && c.backend == a.backend && c.free == a.free && |c.file| == |a.file|
      && forall p: Reg :: p < |a.file| ==> c.file[p] == if p in ps then a.file[p].(valid := true) else a.file[p]
    decreases |ps|
  {
    if ps != [] {
      CompleteDestsForm(CompleteDest(a, ps[0]), ps[1..]);
      assert ps == [ps[0]] + ps[1..];
    }
  }

  lemma CompleteKeeps(n: nat, retired: seq<Instr>, rob: seq<Instr>, a: Alloc, i: nat)
    requires Inv(n, retired, rob, a) && i < |rob| && rob[i].executed && !rob[i].completed
    ensures Inv(n, retired, rob[i := rob[i].(completed := true)], CompleteDests(a, rob[i].dst))
  {
    hide Linked, Recorded, Ready, InFlight;
    var t := rob[i := rob[i].(completed := true)];
    var c := CompleteDests(a, rob[i].dst);
    CompleteDestsForm(a, rob[i].dst);
    ScheduledPrefix(rob);
    ScheduledIs(t, Scheduled(rob));
    InFlightSameNames(rob, t);
    assert Owners(c, t) == Owners(a, rob);
    LinkedSameNames(rob, t, a, c);
    CompleteRecords(n, retired, rob, a, i, t, c);
  }

  lemma CompleteRecords(n: nat, retired: seq<Instr>, rob: seq<Instr>, a: Alloc, i: nat, t: seq<Instr>, c: Alloc)
    requires Inv(n, retired, rob, a) && i < |rob| && rob[i].executed
    requires t == rob[i := rob[i].(completed := true)] && Scheduled(t) == Scheduled(rob)
    requires c.backend == a.backend && |c.file| == n
    requires forall p: Reg :: p < n ==> c.file[p] == if p in rob[i].dst then a.file[p].(valid := true) else a.file[p]
    ensures Recorded(c, retired, t) && Ready(c, t)
  {
    ScheduledPrefix(rob);
    forall r: Reg ensures a.backend[r] != -1 ==> a.backend[r] !in rob[i].dst {
      forall k | 0 <= k < |rob[i].dst| ensures a.backend[r] != rob[i].dst[k] { DestIsUnique(n, a, rob, i, k); }
    }
    forall j, k | 0 <= j < Scheduled(rob) && j != i && 0 <= k < |rob[j].dst| ensures rob[j].dst[k] !in rob[i].dst {
      DestIsUnique(n, a, rob, j, k);
    }
  }

  // ---- retirement ----

  lemma {:induction false} RetireDestsOwns(a: Alloc, ps: seq<Reg>)
    requires forall j :: 0 <= j < |ps| ==> ps[j] < |a.file|
    ensures var c := RetireDests(a, ps); Bag(c.free) + Mapped(c.backend) == Bag(a.free) + Mapped(a.backend) + Bag(ps)
    decreases |ps|
  {
    if ps != [] {
      var b := RetireDest(a, ps[0]);
      RetireDestOwns(a, ps[0]);
      RetireDestsOwns(b, ps[1..]);
      BagSplit(ps, 1);
      assert ps[..1] == [ps[0]];
      hide RetireDest, Bag, Mapped;
    }
  }

  lemma RetireDestOwns(a: Alloc, p: Reg)
    requires p < |a.file|
    ensures var b := RetireDest(a, p);
      |b.file| == |a.file| && Bag(b.free) + Mapped(b.backend) == Bag(a.free) + Mapped(a.backend) + Bag([p])
  {
    var r := a.file[p].arch;
    MappedUpdate(a.backend, r, p);
    var b := RetireDest(a, p);
    if a.backend[r] != -1 {
      BagSplit(b.free, |a.free|);
      assert b.free[..|a.free|] == a.free && b.free[|a.free|..] == [a.backend[r] as Reg];
    }
  }

  /** Registers about to be committed: recorded for `arch`, distinct, and not yet committed. */
  ghost predicate Committable(a: Alloc, arch: seq<Reg>, ps: seq<Reg>) {
    && |arch| == |ps|
    && (forall j :: 0 <= j < |ps| ==> ps[j] < |a.file| && a.file[ps[j]].arch == arch[j])
    && (forall j, r: Reg :: 0 <= j < |ps| ==> a.backend[r] != ps[j])
    && (forall i, j :: 0 <= i < j < |ps| ==> ps[i] != ps[j])
  }

  lemma RetireDestForm(a: Alloc, arch: seq<Reg>, ps: seq<Reg>)
    requires Committable(a, arch, ps) && ps != []
    ensures var b := RetireDest(a, ps[0]);
      && b.frontend == a.frontend && |b.file| == |a.file|
      && b.backend == a.backend[arch[0] := ps[0]]
      && a.free <= b.free
      && (forall p: Reg :: p < |a.file| ==> b.file[p] == a.file[p] || p in b.free)
      && Committable(b, arch[1..], ps[1..])
  {
    var b := RetireDest(a, ps[0]);
    var previous := a.backend[arch[0]];
    if previous != -1 {
      assert b.free[|a.free|] == previous;
    }
  }

  lemma {:induction false} RetireDestsForm(a: Alloc, arch: seq<Reg>, ps: seq<Reg>)
    requires Committable(a, arch, ps)
    ensures var c := RetireDests(a, ps);
      && c.frontend == a.frontend && |c.file| == |a.file|
      && (forall q: Reg :: c.backend[q] == if q in arch then LastName(arch, ps, q) else a.backend[q])
      && a.free <= c.free
      && (forall p: Reg :: p < |a.file| ==> c.file[p] == a.file[p] || p in c.free)
    decreases |ps|
  {
    if ps != [] {
      var b := RetireDest(a, ps[0]);
      RetireDestForm(a, arch, ps);
      RetireDestsForm(b, arch[1..], ps[1..]);
      var c := RetireDests(a, ps);
      forall q: Reg ensures c.backend[q] == if q in arch then LastName(arch, ps, q) else a.backend[q] {
        assert q in arch <==> q == arch[0] || q in arch[1..];
        if q in arch { LastNameCons(arch, ps, q); }
      }
      forall p: Reg | p < |a.file| ensures c.file[p] == a.file[p] || p in c.free {
        assert p in b.free ==> p in c.free by { assert b.free <= c.free; PrefixIn(b.free, c.free, p); }
      }
    }
  }

  lemma PrefixIn(s: seq<Reg>, t: seq<Reg>, p: Reg)
    requires s <= t
    ensures p in s ==> p in t
  {
    if p in s {
      var i :| 0 <= i < |s| && s[i] == p;
      assert t[i] == p;
    }
  }

  /** Committing the head's destinations and dropping it changes no resolution. */
  lemma {:induction false} ResolveCommit(b: seq<Mapping>, c: seq<Mapping>, s: seq<Instr>, r: Reg)
    requires |b| == 256 && |c| == 256 && NamesMatch(s) && s != []
    requires forall q: Reg :: c[q] == if q in s[0].archDst then LastName(s[0].archDst, s[0].dst, q) else b[q]
    ensures NamesMatch(s[1..]) && Resolve(c, s[1..], r) == Resolve(b, s, r)
  {
    var n := |s| - 1;
    if n > 0 {
      assert s[1..][..n - 1] == s[..n][1..];
      ResolveCommit(b, c, s[..n], r);
    } else {
      assert Resolve(b, s[..0], r) == b[r];
    }
  }

  lemma HeadCommittable(n: nat, retired: seq<Instr>, rob: seq<Instr>, a: Alloc)
    requires Inv(n, retired, rob, a) && rob != [] && rob[0].scheduled
    ensures Committable(a, rob[0].archDst, rob[0].dst)
  {
    ScheduledPrefix(rob);
    forall j | 0 <= j < |rob[0].dst|
      ensures rob[0].dst[j] < n && a.file[rob[0].dst[j]].arch == rob[0].archDst[j]
      ensures forall r: Reg :: a.backend[r] != rob[0].dst[j]
      ensures forall i :: 0 <= i < j ==> rob[0].dst[i] != rob[0].dst[j]
    {
      DestIsUnique(n, a, rob, 0, j);
    }
  }

  lemma RetireHeadKeeps(n: nat, retired: seq<Instr>, rob: seq<Instr>, a: Alloc)
    requires Inv(n, retired, rob, a) && rob != [] && rob[0].completed
    ensures Inv(n, retired + [rob[0]], rob[1..], RetireDests(a, rob[0].dst))
  {
    var x := rob[0];
    var c := RetireDests(a, x.dst);
    HeadCommittable(n, retired, rob, a);
    RetireDestsForm(a, x.archDst, x.dst);
    RetireHeadOwns(n, retired, rob, a);
    RetireHeadLinks(rob, a, c);
    hide Scheduled, Linked, Conserved;
    RetireHeadRecords(n, retired, rob, a, c);
  }

  lemma RetireHeadOwns(n: nat, retired: seq<Instr>, rob: seq<Instr>, a: Alloc)
    requires Inv(n, retired, rob, a) && rob != [] && rob[0].completed
    ensures Conserved(n, RetireDests(a, rob[0].dst), rob[1..])
  {
    HeadCommittable(n, retired, rob, a);
    RetireDestsOwns(a, rob[0].dst);
    assert Owners(RetireDests(a, rob[0].dst), rob[1..]) == Owners(a, rob);
  }

  lemma RetireHeadLinks(rob: seq<Instr>, a: Alloc, c: Alloc)
    requires InOrder(rob) && Linked(a, rob) && rob != [] && rob[0].scheduled
    requires c.frontend == a.frontend
    requires forall q: Reg :: c.backend[q] == if q in rob[0].archDst then LastName(rob[0].archDst, rob[0].dst, q)
      else a.backend[q]
    ensures InOrder(rob[1..]) && Linked(c, rob[1..])
  {
    var t := rob[1..];
    var k := Scheduled(rob);
    ScheduledPrefix(rob);
    ScheduledIs(t, k - 1);
    assert t[..k - 1] == rob[..k][1..];
    forall r: Reg ensures c.frontend[r] == Resolve(c.backend, t[..k - 1], r) {
      ResolveCommit(a.backend, c.backend, rob[..k], r);
    }
    forall i, j | 0 <= i < k - 1 && 0 <= j < |t[i].src|
      ensures t[i].src[j] == Resolve(c.backend, t[..i], t[i].archSrc[j])
    {
      RetireHeadSource(rob, a, c, i, j);
    }
  }

  lemma RetireHeadSource(rob: seq<Instr>, a: Alloc, c: Alloc, i: nat, j: nat)
    requires InOrder(rob) && Linked(a, rob) && rob != [] && i + 1 < Scheduled(rob) && j < |rob[i + 1].src|
    requires forall q: Reg :: c.backend[q] == if q in rob[0].archDst then LastName(rob[0].archDst, rob[0].dst, q)
      else a.backend[q]
    ensures rob[i + 1].src[j] == Resolve(c.backend, rob[1..][..i], rob[i + 1].archSrc[j])
  {
    assert rob[1..][..i] == rob[..i + 1][1..];
    hide LastName, Scheduled;
    ResolveCommit(a.backend, c.backend, rob[..i + 1], rob[i + 1].archSrc[j]);
  }

  lemma RetireHeadRecords(n: nat, retired: seq<Instr>, rob: seq<Instr>, a: Alloc, c: Alloc)
    requires Inv(n, retired, rob, a) && rob != [] && rob[0].completed
    requires Shape(n, c) && InOrder(rob[1..]) && Conserved(n, c, rob[1..]) && Linked(c, rob[1..])
    requires forall q: Reg :: c.backend[q] == if q in rob[0].archDst then LastName(rob[0].archDst, rob[0].dst, q)
      else a.backend[q]
    requires forall p: Reg :: p < n ==> c.file[p] == a.file[p] || p in c.free
    ensures Recorded(c, retired + [rob[0]], rob[1..]) && Ready(c, rob[1..])
  {
    hide Conserved, Linked, Scheduled, LastName;
    var x := rob[0];
    var t := rob[1..];
    var k := Scheduled(rob);
    var done := retired + [x];
    ScheduledPrefix(rob);
    ScheduledIs(t, k - 1);
    assert done[..|retired|] == retired;
    forall r: Reg | c.backend[r] != -1
      ensures c.file[c.backend[r]] == PhysReg(r, ProducerId(done, r), true, true)
    {
      forall f | 0 <= f < |c.free| ensures c.free[f] != c.backend[r] { FreeIsUnused(n, c, t, f); }
    }
    forall i, m | 0 <= i < k - 1 && 0 <= m < |t[i].dst|
      ensures t[i].dst[m] < n && c.file[t[i].dst[m]] == PhysReg(t[i].archDst[m], t[i].id, t[i].completed, true)
    {
      DestIsUnique(n, a, rob, i + 1, m);
      forall f | 0 <= f < |c.free| ensures c.free[f] != t[i].dst[m] { FreeIsUnused(n, c, t, f); }
    }
    SourcesLive(n, t, c);
  }

  // ---- dispatch ----

  lemma DispatchKeeps(n: nat, retired: seq<Instr>, rob: seq<Instr>, a: Alloc, x: Instr)
    requires Inv(n, retired, rob, a) && EntryOk(x) && !x.scheduled
    ensures Inv(n, retired, rob + [x], a)
  {
    hide Linked, Recorded, Ready, Resolve;
    var t := rob + [x];
    ScheduledPrefix(rob);
    ScheduledIs(t, Scheduled(rob));
    InFlightAppend(rob, [x]);
    InFlightUnscheduled([x]);
    assert Owners(a, t) == Owners(a, rob);
    DispatchLinks(rob, a, x);
    DispatchRecords(retired, rob, a, x);
  }

  lemma DispatchRecords(retired: seq<Instr>, rob: seq<Instr>, a: Alloc, x: Instr)
    requires Recorded(a, retired, rob) && Ready(a, rob) && InOrder(rob)
    requires Scheduled(rob + [x]) == Scheduled(rob) && EntryOk(x) && !x.scheduled
    ensures Recorded(a, retired, rob + [x]) && Ready(a, rob + [x]) && InOrder(rob + [x])
  {
    hide Scheduled;
    assert forall i :: 0 <= i < |rob| ==> (rob + [x])[i] == rob[i];
  }

  lemma DispatchLinks(rob: seq<Instr>, a: Alloc, x: Instr)
    requires InOrder(rob) && Linked(a, rob) && Scheduled(rob + [x]) == Scheduled(rob) && EntryOk(x)
    ensures NamesMatch(rob + [x]) && Linked(a, rob + [x])
  {
    var t := rob + [x];
    var k := Scheduled(rob);
    assert t[..k] == rob[..k];
    forall i, j | 0 <= i < k && 0 <= j < |t[i].src|
      ensures t[i].src[j] == Resolve(a.backend, t[..i], t[i].archSrc[j])
    {
      assert t[..i] == rob[..i];
    }
  }

  // ---- what the invariant gives ----

  lemma {:induction false} YoungestAppend(s: seq<Instr>, t: seq<Instr>, r: Reg)
    ensures YoungestWriter(s + t, r) == if YoungestWriter(t, r).Some? then YoungestWriter(t, r)
      else YoungestWriter(s, r)
  {
    if t == [] {
      assert s + t == s;
    } else {
      var n := |t| - 1;
      assert (s + t)[..|s + t| - 1] == s + t[..n];
      YoungestAppend(s, t[..n], r);
    }
  }

  lemma ResolveStep(backend: seq<Mapping>, s: seq<Instr>, i: nat, r: Reg)
    requires |backend| == 256 && NamesMatch(s) && 0 < i <= |s|
    ensures Resolve(backend, s[..i], r)
         == if r in s[i - 1].archDst then LastName(s[i - 1].archDst, s[i - 1].dst, r)
           else Resolve(backend, s[..i - 1], r)
    ensures YoungestWriter(s[..i], r) == if r in s[i - 1].archDst then Some(s[i - 1]) else YoungestWriter(s[..i - 1], r)
  {
    assert s[..i][..i - 1] == s[..i - 1];
  }

  /** The register file describes `p` as the value of `r` after the youngest writer of
      `s`, or of the retired instructions. */
  ghost predicate Describes(a: Alloc, p: int, retired: seq<Instr>, s: seq<Instr>, r: Reg) {
    var w := YoungestWriter(s, r);
    && 0 <= p < |a.file|
    && a.file[p] == PhysReg(r, ProducerId(retired + s, r), w.Some? ==> w.value.completed, true)
    && (w.Some? ==> p in w.value.dst)
  }

  lemma {:induction false} WrittenIsDescribed(n: nat, retired: seq<Instr>, rob: seq<Instr>, a: Alloc, i: nat, r: Reg)
    requires Inv(n, retired, rob, a) && i < Scheduled(rob) && r in rob[i].archDst
    ensures Describes(a, LastName(rob[i].archDst, rob[i].dst, r), retired, rob[..i + 1], r)
  {
    ScheduledPrefix(rob);
    hide Linked, Ready, Scheduled;
    var p := LastName(rob[i].archDst, rob[i].dst, r);
    var j :| 0 <= j < |rob[i].archDst| && rob[i].archDst[j] == r && rob[i].dst[j] == p;
    assert p < n by { DestIsUnique(n, a, rob, i, j); }
    ResolveStep(a.backend, rob, i + 1, r);
    YoungestAppend(retired, rob[..i + 1], r);
    hide LastName, Conserved, YoungestWriter, Resolve;
  }

  lemma {:induction false} PassedOn(a: Alloc, p: int, retired: seq<Instr>, s: seq<Instr>, t: seq<Instr>, r: Reg)
    requires Describes(a, p, retired, s, r) && YoungestWriter(t, r) == YoungestWriter(s, r)
    ensures Describes(a, p, retired, t, r)
  {
    YoungestAppend(retired, s, r);
    YoungestAppend(retired, t, r);
    hide YoungestWriter;
  }

  /** A resolved name is recorded for the register it resolves, for its youngest
      program-order writer, and is valid just when that writer is committed or completed. */
  lemma {:induction false} ResolvedIsRecorded(n: nat, retired: seq<Instr>, rob: seq<Instr>, a: Alloc, i: nat, r: Reg)
    requires Inv(n, retired, rob, a) && NamesMatch(rob) && i <= Scheduled(rob) && Resolve(a.backend, rob[..i], r) != -1
    ensures Describes(a, Resolve(a.backend, rob[..i], r), retired, rob[..i], r)
  {
    hide Resolve, YoungestWriter, Describes, Inv, Scheduled, LastName;
    if i > 0 {
      ResolveStep(a.backend, rob, i, r);
      if r in rob[i - 1].archDst {
        WrittenIsDescribed(n, retired, rob, a, i - 1, r);
      } else {
        ResolvedIsRecorded(n, retired, rob, a, i - 1, r);
        PassedOn(a, Resolve(a.backend, rob[..i - 1], r), retired, rob[..i - 1], rob[..i], r);
      }
    } else {
      CommittedIsDescribed(n, retired, rob, a, r);
    }
  }

  lemma CommittedIsDescribed(n: nat, retired: seq<Instr>, rob: seq<Instr>, a: Alloc, r: Reg)
    requires Inv(n, retired, rob, a) && Resolve(a.backend, rob[..0], r) != -1
    ensures Describes(a, Resolve(a.backend, rob[..0], r), retired, rob[..0], r)
  {
    assert retired + rob[..0] == retired;
  }

  /** Renaming preserves dataflow: each source of a scheduled instruction names a live
      register that holds the architectural register the instruction was delivered
      with, written by its youngest program-order writer; and the instruction has
      executed only if that writer has completed. */
  lemma Dataflow(n: nat, retired: seq<Instr>, rob: seq<Instr>, a: Alloc, i: nat, k: nat)
    requires Inv(n, retired, rob, a) && i < |rob| && rob[i].scheduled && k < |rob[i].src|
    ensures k < |rob[i].archSrc|
    ensures var p := rob[i].src[k];
      var r := rob[i].archSrc[k];
      var w := YoungestWriter(rob[..i], r);
      && p < |a.file| && p !in a.free
      && a.file[p].arch == r && a.file[p].producer == ProducerId(retired + rob[..i], r)
      && (w.Some? ==> p in w.value.dst && (a.file[p].valid <==> w.value.completed))
      && (w.None? ==> p == a.backend[r] && a.file[p].valid)
      && (rob[i].executed && w.Some? ==> w.value.completed)
  {
    ScheduledPrefix(rob);
    SourcesLive(n, rob, a);
    var r := rob[i].archSrc[k];
    assert rob[i].src[k] == Resolve(a.backend, rob[..i], r);
    ResolvedIsRecorded(n, retired, rob, a, i, r);
    if YoungestWriter(rob[..i], r).None? { ResolveCommitted(a.backend, rob[..i], r); }
  }

  lemma {:induction false} ResolveCommitted(backend: seq<Mapping>, s: seq<Instr>, r: Reg)
    requires |backend| == 256 && NamesMatch(s) && YoungestWriter(s, r) == None
    ensures Resolve(backend, s, r) == backend[r]
  {
    if s != [] { ResolveCommitted(backend, s[..|s| - 1], r); }
  }

  // ---- counting registers ----

  ghost function MappedCount(a: Alloc): nat {
    CountIf(a.backend, (m: Mapping) => m != -1)
  }

  lemma {:induction false} MappedSize(b: seq<Mapping>)
    ensures |Mapped(b)| == CountIf(b, (m: Mapping) => m != -1)
  {
    if b != [] {
      MappedSize(b[1..]);
      assert b == [b[0]] + b[1..];
      assert Mapped(b) == (if b[0] != -1 then multiset{b[0] as int} else multiset{}) + Mapped(b[1..]);
    } else {
      assert Mapped(b) == multiset{};
    }
  }

  lemma {:induction false} UniverseSize(m: multiset<int>, n: nat)
    requires forall p: int :: m[p] == if 0 <= p < n then 1 else 0
    ensures |m| == n
  {
    if n == 0 {
      assert forall p: int | p in m :: false;
    } else {
      UniverseSize(m - multiset{n - 1}, n - 1);
    }
  }

  /** Every physical register is free, committed or in flight, so their counts add up. */
  lemma RegistersAddUp(n: nat, a: Alloc, rob: seq<Instr>)
    requires Conserved(n, a, rob)
    ensures |a.free| + MappedCount(a) + |InFlight(rob)| == n
  {
    UniverseSize(Owners(a, rob), n);
    MappedSize(a.backend);
  }

  /** An unscheduled instruction at the head of the ROB passes the scheduler's guard
      exactly when the file can hold the mapped registers, its unmapped sources and
      its destinations; in particular always when it can hold all its operands. */
  lemma HeadPassesGuard(n: nat, retired: seq<Instr>, rob: seq<Instr>, a: Alloc)
    requires Inv(n, retired, rob, a) && rob != [] && !rob[0].scheduled
    ensures Unallocated(a, rob[0].src) + |rob[0].dst| <= |a.free|
       <==> MappedCount(a) + Unallocated(a, rob[0].src) + |rob[0].dst| <= n
    ensures MappedCount(a) + |rob[0].src| + |rob[0].dst| <= n ==> Unallocated(a, rob[0].src) + |rob[0].dst| <= |a.free|
  {
    ScheduledPrefix(rob);
    InFlightUnscheduled(rob);
    RegistersAddUp(n, a, rob);
  }
}
