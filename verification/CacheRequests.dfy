/** What a cache asks of its lower level: one request for each miss it waits for, and no other. */
module CacheRequests {
  import opened Sequences
  import opened Channels
  import opened Caches
  import opened CacheInvariant
  import opened CacheDiscipline
  import opened CacheRuns

  /** How many requests for block `b` that want a response the lower level has taken. Only a local
      prefetch that skips the fill wants none. */
  ghost function Asked(cfg: CacheConfig, sent: seq<Lookup>, b: nat): nat {
    CountIf(sent, (x: Lookup) => BlockOf(cfg, x.address) == b && (!x.fromThis || !x.skipFill))
  }

  /** How many misses wait for block `b` to return. */
  ghost function Awaited(cfg: CacheConfig, q: seq<Mshr>, b: nat): nat {
    CountIf(q, (m: Mshr) => BlockOf(cfg, m.address) == b && m.data.None?)
  }

  ghost function Returned(cfg: CacheConfig, addrs: seq<nat>, b: nat): nat {
    CountIf(addrs, (a: nat) => BlockOf(cfg, a) == b)
  }

  /** Every address returned in the cycles of a run. */
  ghost function AllReturned(ys: seq<Cycle>): seq<nat> {
    if ys == [] then [] else AllReturned(ys[..|ys| - 1]) + ys[|ys| - 1].returned
  }

  ghost predicate Balanced(cfg: CacheConfig, c: Cache, b: nat, returned: nat) {
    Asked(cfg, c.sent, b) == returned + Awaited(cfg, c.mshr, b)
  }

  // ---- each step ----

  lemma MergeAwaited(cfg: CacheConfig, q: seq<Mshr>, k: nat, x: Lookup, b: nat)
    requires k < |q| && BlockOf(cfg, q[k].address) == BlockOf(cfg, x.address)
    ensures Awaited(cfg, q[k := Merge(q[k], MshrOf(x))], b) == Awaited(cfg, q, b)
  {
    hide BlockOf;
    CountIfUpdate(q, k, Merge(q[k], MshrOf(x)), (m: Mshr) => BlockOf(cfg, m.address) == b && m.data.None?);
  }

  lemma MissBalanced(cfg: CacheConfig, c: Cache, x: Lookup, accepted: bool, b: nat, n: nat)
    requires Balanced(cfg, c, b, n) && HandleMiss(cfg, c, x, accepted).Some?
    ensures Balanced(cfg, HandleMiss(cfg, c, x, accepted).value, b, n)
  {
    var k := FindMshr(cfg, c.mshr, x.address);
    hide BlockOf, FindMshr;
    if k < |c.mshr| {
      MergeAwaited(cfg, c.mshr, k, x, b);
    } else {
      hide Merge;
      CountIfAppend(c.sent, [x], (x: Lookup) => BlockOf(cfg, x.address) == b && (!x.fromThis || !x.skipFill));
      CountIfAppend(c.mshr, [MshrOf(x)], (m: Mshr) => BlockOf(cfg, m.address) == b && m.data.None?);
    }
  }

  lemma {:induction false} HandleMissesBalanced(cfg: CacheConfig, c: Cache, xs: seq<Lookup>, accepts: nat -> bool,
      k: nat, now: int, warmup: bool, b: nat, n: nat)
    requires Balanced(cfg, c, b, n)
    ensures Balanced(cfg, HandleMisses(cfg, c, xs, accepts, k, now, warmup).0, b, n)
    decreases |xs|
  {
    hide Asked, Awaited, HandleMiss;
    if xs != [] {
      if xs[0].kind == Write && !cfg.MatchOffset() {
        var d := HandleWrite(cfg, c, xs[0], now, warmup);
        assert Balanced(cfg, d, b, n);
        hide Balanced, HandleWrite;
        HandleMissesBalanced(cfg, d, xs[1..], accepts, k + 1, now, warmup, b, n);
      } else if HandleMiss(cfg, c, xs[0], accepts(k)).Some? {
        hide Balanced;
        MissBalanced(cfg, c, xs[0], accepts(k), b, n);
        HandleMissesBalanced(cfg, HandleMiss(cfg, c, xs[0], accepts(k)).value, xs[1..], accepts, k
          + 1, now, warmup, b, n);
      } else {
        hide Balanced;
        HandleMissesBalanced(cfg, c, xs[1..], accepts, k + 1, now, warmup, b, n);
      }
    }
  }

  lemma {:induction false} TryHitsSent(cfg: CacheConfig, c: Cache, xs: seq<Lookup>)
    requires Sized(cfg, c)
    ensures var d := TryHits(cfg, c, xs).0; d.sent == c.sent && d.mshr == c.mshr
    decreases |xs|
  {
    hide Sized, Hits, FindWay, SetIndex;
    if xs != [] {
      if Hits(cfg, c, xs[0]) {
        TryHitsSent(cfg, TakeHit(cfg, c, xs[0]), xs[1..]);
      } else { TryHitsSent(cfg, c, xs[1..]); }
    }
  }

  lemma TagChecksBalanced(cfg: CacheConfig, c: Cache, accepts: nat -> bool, now: int, warmup: bool, b: nat, n: nat)
    requires Sized(cfg, c) && Balanced(cfg, c, b, n)
    ensures Balanced(cfg, TagChecks(cfg, c, accepts, now, warmup), b, n)
  {
    var l := SpanLen(c.tags, cfg.maxTag, (x: Lookup) => x.ready <= now && x.translated);
    hide SpanLen, TryHits, HandleMisses, Sized, Asked, Awaited;
    TryHitsSent(cfg, c, c.tags[..l]);
    var (d, misses) := TryHits(cfg, c, c.tags[..l]);
    HandleMissesBalanced(cfg, d, misses, accepts, 0, now, warmup, b, n);
  }

  /** A returned block ends one wait. */
  lemma ReturnAwaited(cfg: CacheConfig, q: seq<Mshr>, k: nat, at: int, b: nat)
    requires k < |q| && FirstUnreturned(q) < |q| && q[k].data.None?
    ensures Awaited(cfg, q, b) == Awaited(cfg, Return(q, k, at), b) + (if BlockOf(cfg, q[k].address) == b then 1 else 0)
  {
    var p := (m: Mshr) => BlockOf(cfg, m.address) == b && m.data.None?;
    var f, x := FirstUnreturned(q), q[k].(data := Some(at));
    hide BlockOf, FirstUnreturned;
    CountIfUpdate(q, k, if f == k then x else q[f], p);
    if f != k { CountIfUpdate(q[k := q[f]], f, x, p); }
  }

  lemma {:induction false} FinishAllBalanced(cfg: CacheConfig, c: Cache, addrs: seq<nat>, now: int, warmup: bool,
      b: nat, n: nat)
    requires Misses(cfg, c.mshr, now, warmup) && ReturnsOk(cfg, c, addrs, now, warmup) && Balanced(cfg, c, b, n)
    ensures Balanced(cfg, FinishAll(cfg, c, addrs, now, warmup), b, n + Returned(cfg, addrs, b))
    decreases |addrs|
  {
    hide BlockOf, Return, FindMshr, FirstUnreturned, ReturnedFirst, Asked, Awaited;
    if addrs != [] {
      FinishPacketMisses(cfg, c, addrs[0], now, warmup);
      FindReturnable(cfg, c.mshr, addrs[0]);
      var k := FindMshr(cfg, c.mshr, addrs[0]);
      ReturnAwaited(cfg, c.mshr, k, now + Latency(warmup, cfg.fillLatency), b);
      var m := if BlockOf(cfg, addrs[0]) == b then n + 1 else n;
      var d := FinishPacket(cfg, c, addrs[0], now, warmup);
      assert Balanced(cfg, d, b, m);
      hide Balanced, OneForEachBlock, Returnable, FinishPacket;
      FinishAllBalanced(cfg, d, addrs[1..], now, warmup, b, m);
    }
  }

  /** What is filled has returned. */
  lemma {:induction false} FilledAwaited(cfg: CacheConfig, q: seq<Mshr>, m: nat, now: int, b: nat)
    requires m <= |q| && forall k :: 0 <= k < m ==> IsReady(q[k], now)
    ensures Awaited(cfg, q[m..], b) == Awaited(cfg, q, b)
  {
    hide BlockOf;
    if m > 0 {
      FilledAwaited(cfg, q[1..], m - 1, now, b);
      TailOfTail(q, m);
    } else {
      assert q[0..] == q;
    }
  }

  lemma FillsBalanced(cfg: CacheConfig, c: Cache, now: int, choices: nat -> FillChoice, b: nat, n: nat)
    requires Sized(cfg, c) && VictimsOk(cfg, choices) && Balanced(cfg, c, b, n)
    ensures Balanced(cfg, Fills(cfg, c, now, choices), b, n)
  {
    var l := SpanLen(c.mshr, cfg.maxFill, (x: Mshr) => IsReady(x, now));
    hide SpanLen, FillFrom, VictimsOk, Sized, IsReady, Asked, Awaited;
    FillFromFrame(cfg, c, c.mshr, l, choices, 0);
    var (r, m) := FillMshrs(cfg, c, now, choices);
    FilledAwaited(cfg, c.mshr, m, now, b);
    var w := SpanLen(r.writes, cfg.maxFill - m, (x: Mshr) => IsReady(x, now));
    FillFromFrame(cfg, r, r.writes, w, choices, m);
  }

  // ---- a cycle ----

  lemma SameBalanced(cfg: CacheConfig, c: Cache, d: Cache, b: nat, n: nat)
    requires Balanced(cfg, c, b, n) && SameStore(c, d)
    ensures Balanced(cfg, d, b, n)
  {
  }

  lemma InvParts(cfg: CacheConfig, c: Cache, acc: seq<Accepted>, y: Cycle)
    requires CacheRuns.Inv(cfg, c, acc, y.now, y.warmup) && CycleOk(cfg, c, y)
    ensures Sized(cfg, c) && VictimsOk(cfg, y.choices) && Misses(cfg, c.mshr, y.now, y.warmup)
    ensures ReturnsOk(cfg, CheckChannels(cfg, c, 0), y.returned, y.now, y.warmup)
    ensures SameStore(c, CheckChannels(cfg, c, 0))
  {
    hide Kept, Misses, Residency, VictimsOk, ReturnsOk, CheckChannels;
  }

  lemma ParkFrame(c: Cache, y: Cycle)
    ensures SameStore(c, Park(c, y))
  {
    hide Issue, Select;
  }

  lemma {:induction false} OperateBalanced(cfg: CacheConfig, c: Cache, acc: seq<Accepted>, y: Cycle, b: nat, n: nat)
    requires CacheRuns.Inv(cfg, c, acc, y.now, y.warmup) && CycleOk(cfg, c, y) && Balanced(cfg, c, b, n)
    ensures Sized(cfg, c) && VictimsOk(cfg, y.choices)
    ensures Balanced(cfg, Operate(cfg, c, y), b, n + Returned(cfg, y.returned, b))
  {
    InvParts(cfg, c, acc, y);
    ReturnsSized(cfg, c, y);
    hide CacheRuns.Inv, CycleOk, VictimsOk, ReturnsOk, Sized, CheckChannels, FinishAll, TranslateEach, Fills, Initiate,
      Park, TagChecks, Balanced, Misses, Returned;
    var c1 := CheckChannels(cfg, c, 0);
    SameBalanced(cfg, c, c1, b, n);
    FinishAllBalanced(cfg, c1, y.returned, y.now, y.warmup, b, n);
    var m := n + Returned(cfg, y.returned, b);
    var c2 := FinishAll(cfg, c1, y.returned, y.now, y.warmup);
    TranslateEachFrame(c2, y.pageBits, y.translations);
    var r := Returns(cfg, c, y);
    SameBalanced(cfg, c2, r, b, m);
    FillsBalanced(cfg, r, y.now, y.choices, b, m);
    var d := Fills(cfg, r, y.now, y.choices);
    InitiateFrame(cfg, d, y);
    var e := Initiate(cfg, d, y);
    ParkFrame(e, y);
    SameSized(cfg, d, Park(e, y));
    SameBalanced(cfg, d, Park(e, y), b, m);
    TagChecksBalanced(cfg, Park(e, y), y.accepts, y.now, y.warmup, b, m);
  }

  // ---- runs ----

  lemma {:induction false} ArriveAllSame(cfg: CacheConfig, c: Cache, acc: seq<Accepted>, xs: seq<Arrival>)
    ensures SameStore(c, ArriveAll(cfg, c, acc, xs).0)
    decreases |xs|
  {
    hide QueueOf, WithQueue, SizeOf, AddTo;
    if xs != [] {
      var (d, more) := Arrive(cfg, c, acc, xs[0]);
      ArriveAllSame(cfg, d, more, xs[1..]);
    }
  }

  lemma {:induction false} StepBalanced(cfg: CacheConfig, c: Cache, acc: seq<Accepted>, y: Cycle, b: nat, n: nat)
    requires CacheRuns.Inv(cfg, c, acc, y.now, y.warmup) && ArrivalsOk(y) && CycleOk(cfg, Entered(cfg, c, acc, y).0, y)
    requires Balanced(cfg, c, b, n)
    ensures Balanced(cfg, Step(cfg, c, acc, y).0, b, n + Returned(cfg, y.returned, b))
  {
    ArriveAllSame(cfg, c, acc, y.arrivals);
    hide CacheRuns.Inv, ArrivalsOk, CycleOk, ArriveAll, Operate, Balanced, Returned;
    var (d, more) := Entered(cfg, c, acc, y);
    SameBalanced(cfg, c, d, b, n);
    EnteredInv(cfg, c, acc, y.now, y.warmup, y);
    OperateBalanced(cfg, d, more, y, b, n);
  }

  /** On every run and for every block: of the requests for it that the lower level has taken and
      answers, one is open if a miss waits for the block, and none if none does. */
  lemma {:induction false} EachMissHasOneRequest(cfg: CacheConfig, channels: nat, ys: seq<Cycle>, b: nat)
    requires RunOk(cfg, channels, ys)
    ensures var c := Run(cfg, channels, ys).0;
      Asked(cfg, c.sent, b) == Returned(cfg, AllReturned(ys), b) + (if Waits(cfg, c.mshr, b) then 1 else 0)
  {
    RunBalanced(cfg, channels, ys, b);
    MissesAreDisciplined(cfg, channels, ys);
    hide Run, RunOk, Asked, Returned;
    AwaitedOnce(cfg, Run(cfg, channels, ys).0.mshr, b);
  }

  /** A miss waits for block `b`. */
  ghost predicate Waits(cfg: CacheConfig, q: seq<Mshr>, b: nat) {
    exists k :: 0 <= k < |q| && q[k].data.None? && BlockOf(cfg, q[k].address) == b
  }

  lemma {:induction false} AwaitedOnce(cfg: CacheConfig, q: seq<Mshr>, b: nat)
    requires forall i, j :: 0 <= i < j < |q| ==> BlockOf(cfg, q[i].address) != BlockOf(cfg, q[j].address)
    ensures Awaited(cfg, q, b) == if Waits(cfg, q, b) then 1 else 0
  {
    hide BlockOf;
    if q != [] {
      AwaitedOnce(cfg, q[1..], b);
      if k :| 0 <= k < |q| && q[k].data.None? && BlockOf(cfg, q[k].address) == b {
        if k > 0 { assert q[1..][k - 1] == q[k]; }
      }
      if k :| 0 <= k < |q[1..]| && q[1..][k].data.None? && BlockOf(cfg, q[1..][k].address) == b {
        assert q[k + 1] == q[1..][k];
      }
    }
  }

  lemma {:induction false} RunBalanced(cfg: CacheConfig, channels: nat, ys: seq<Cycle>, b: nat)
    requires RunOk(cfg, channels, ys)
    ensures Balanced(cfg, Run(cfg, channels, ys).0, b, Returned(cfg, AllReturned(ys), b))
    decreases |ys|
  {
    hide CacheRuns.Inv, CycleOk, Entered, ArrivalsOk, Step, NextOk, InvAfter;
    if ys != [] {
      var n := |ys| - 1;
      var (c, acc) := Run(cfg, channels, ys[..n]);
      CountIfAppend(AllReturned(ys[..n]), ys[n].returned, (a: nat) => BlockOf(cfg, a) == b);
      hide Balanced, BlockOf;
      RunBalanced(cfg, channels, ys[..n], b);
      NextInv(cfg, channels, c, acc, ys[..n], ys[n]);
      StepBalanced(cfg, c, acc, ys[n], b, Returned(cfg, AllReturned(ys[..n]), b));
    }
  }

  /** So the lower level may return an address to a cache that has only checked its channels since, if
      and only if it has taken more requests for the block than it has answered: the lookup that
      finish_packet asserts then succeeds. */
  lemma {:induction false} ReturnsFindTheirMiss(cfg: CacheConfig, channels: nat, ys: seq<Cycle>, a: nat)
    requires RunOk(cfg, channels, ys)
    ensures var c := Run(cfg, channels, ys).0;
      Returnable(cfg, c.mshr, a) <==>
        Asked(cfg, c.sent, BlockOf(cfg, a)) > Returned(cfg, AllReturned(ys), BlockOf(cfg, a))
  {
    EachMissHasOneRequest(cfg, channels, ys, BlockOf(cfg, a));
    hide Run, RunOk, Asked, Returned, BlockOf;
  }
}
