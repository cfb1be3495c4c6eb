/** The discipline of misses, and where a block may be. */
module CacheDiscipline {
  import opened Sequences
  import opened Bits
  import opened Channels
  import opened Caches

  // ---- misses ----

  /** At most one MSHR for each block. */
  ghost predicate OneForEachBlock(cfg: CacheConfig, q: seq<Mshr>) {
    forall i, j :: 0 <= i < j < |q| ==> BlockOf(cfg, q[i].address) != BlockOf(cfg, q[j].address)
  }

  /** Returned entries come first, in the order they become ready, none later than `limit`. */
  ghost predicate ReturnedFirst(q: seq<Mshr>, limit: int) {
    && (forall i, j :: 0 <= i < j < |q| && q[j].data.Some? ==> q[i].data.Some? && q[i].data.value <= q[j].data.value)
    && (forall i :: 0 <= i < |q| && q[i].data.Some? ==> q[i].data.value <= limit)
  }

  ghost function Limit(cfg: CacheConfig, now: int, warmup: bool): int { now + Latency(warmup, cfg.fillLatency) }

  ghost predicate Misses(cfg: CacheConfig, q: seq<Mshr>, now: int, warmup: bool) {
    OneForEachBlock(cfg, q) && ReturnedFirst(q, Limit(cfg, now, warmup)) && |q| <= cfg.mshrSize
  }

  /** Where the entry at `j` comes from when the returned one moves to the front. */
  ghost function Origin(j: nat, k: nat, f: nat): nat { if j == f then k else if j == k then f else j }

  lemma {:induction false} ReturnAddresses(q: seq<Mshr>, k: nat, at: int)
    requires k < |q| && FirstUnreturned(q) < |q|
    ensures var r, f := Return(q, k, at), FirstUnreturned(q);
      |r| == |q| && forall j :: 0 <= j < |q| ==> r[j].address == q[Origin(j, k, f)].address
  {
    hide FirstUnreturned;
  }

  lemma {:induction false} ReturnDistinct(cfg: CacheConfig, q: seq<Mshr>, k: nat, at: int)
    requires k < |q| && FirstUnreturned(q) < |q| && OneForEachBlock(cfg, q)
    ensures OneForEachBlock(cfg, Return(q, k, at))
  {
    ReturnAddresses(q, k, at);
    hide BlockOf, Return, FirstUnreturned;
    var r, f := Return(q, k, at), FirstUnreturned(q);
    forall i, j | 0 <= i < j < |r| ensures BlockOf(cfg, r[i].address) != BlockOf(cfg, r[j].address) {
      var x, y := Origin(i, k, f), Origin(j, k, f);
      assert x != y && 0 <= x < |q| && 0 <= y < |q|;
      assert BlockOf(cfg, q[if x < y then x else y].address) != BlockOf(cfg, q[if x < y then y else x].address);
    }
  }

  lemma {:induction false} ReturnSorted(q: seq<Mshr>, k: nat, limit: int)
    requires k < |q| && q[k].data.None? && FirstUnreturned(q) < |q| && ReturnedFirst(q, limit)
    ensures ReturnedFirst(Return(q, k, limit), limit)
  {
    var f, r := FirstUnreturned(q), Return(q, k, limit);
    forall j | f <= j < |q| ensures q[j].data.None? { UnreturnedAfter(q, limit, f, j); }
    forall j | 0 <= j < |r| ensures r[j].data == if j < f then q[j].data else if j == f then Some(limit) else None { }
    hide Return, FirstUnreturned;
    assert ReturnedFirst(q, limit);
  }

  lemma UnreturnedAfter(q: seq<Mshr>, limit: int, i: nat, j: nat)
    requires ReturnedFirst(q, limit) && i <= j < |q| && q[i].data.None?
    ensures q[j].data.None?
  {
  }

  lemma {:induction false} FinishPacketMisses(cfg: CacheConfig, c: Cache, a: nat, now: int, warmup: bool)
    requires Misses(cfg, c.mshr, now, warmup) && Returnable(cfg, c.mshr, a)
    ensures Misses(cfg, FinishPacket(cfg, c, a, now, warmup).mshr, now, warmup)
    ensures FindMshr(cfg, c.mshr, a) < |c.mshr| && FirstUnreturned(c.mshr) < |c.mshr|
  {
    hide Return, FindMshr, FirstUnreturned;
    FindReturnable(cfg, c.mshr, a);
    ReturnMisses(cfg, c.mshr, FindMshr(cfg, c.mshr, a), now, warmup);
    hide Misses;
  }

  /** The lower level answers a miss that has not returned, and the search finds it. */
  lemma {:induction false} FindReturnable(cfg: CacheConfig, q: seq<Mshr>, a: nat)
    requires OneForEachBlock(cfg, q) && Returnable(cfg, q, a)
    ensures var k := FindMshr(cfg, q, a); k < |q| && q[k].data.None?
    ensures FirstUnreturned(q) < |q|
  {
    hide BlockOf;
    var i :| 0 <= i < |q| && q[i].data.None? && BlockOf(cfg, q[i].address) == BlockOf(cfg, a);
    assert FindMshr(cfg, q, a) == i;
    assert FirstUnreturned(q) <= i;
  }

  lemma {:induction false} ReturnMisses(cfg: CacheConfig, q: seq<Mshr>, k: nat, now: int, warmup: bool)
    requires Misses(cfg, q, now, warmup) && k < |q| && q[k].data.None? && FirstUnreturned(q) < |q|
    ensures Misses(cfg, Return(q, k, Limit(cfg, now, warmup)), now, warmup)
  {
    var limit := Limit(cfg, now, warmup);
    ReturnDistinct(cfg, q, k, limit);
    ReturnSorted(q, k, limit);
    ReturnAddresses(q, k, limit);
    hide Return, FirstUnreturned, OneForEachBlock, ReturnedFirst, Limit;
  }

  /** The span of ready entries leaves a ready entry behind only for lack of bandwidth. */
  lemma {:induction false} ReadySpanIsComplete(q: seq<Mshr>, width: nat, now: int, limit: int, i: nat)
    requires ReturnedFirst(q, limit) && i < |q| && IsReady(q[i], now)
    ensures var n := SpanLen(q, width, (x: Mshr) => IsReady(x, now)); i < n || n == width
  {
    assert forall j :: 0 <= j <= i ==> IsReady(q[j], now);
  }

  /** Fill `m` meets a dirty victim that the lower level does not take. */
  ghost predicate Blocked(cfg: CacheConfig, c: Cache, x: Mshr, choice: FillChoice)
    requires Sized(cfg, c) && choice.victim <= cfg.ways
  {
    NeedsWriteback(cfg, c, x, FillWay(cfg, c, x, choice.victim)) && !choice.writeback
  }

  /** Filling stops early only at a victim that cannot be written back. */
  lemma {:induction false} FillStops(cfg: CacheConfig, c: Cache, q: seq<Mshr>, n: nat, choices: nat -> FillChoice,
      k: nat)
    requires Sized(cfg, c) && n <= |q| && VictimsOk(cfg, choices)
    ensures var (r, m) := FillFrom(cfg, c, q, n, choices, k); m < n ==> Blocked(cfg, r, q[m], choices(k + m))
    decreases n
  {
    hide FillWay, NeedsWriteback, SetIndex, AnswerOf, Sized, FillBlock, Evict;
    if n > 0 && !Blocked(cfg, c, q[0], choices(k)) {
      FillStops(cfg, Filled(cfg, c, q, choices, k), q[1..], n - 1, choices, k + 1);
    }
  }

  /** Filling answers what it fills, in order. */
  lemma {:induction false} FillAnswersInOrder(cfg: CacheConfig, c: Cache, q: seq<Mshr>, n: nat,
      choices: nat -> FillChoice, k: nat)
    requires Sized(cfg, c) && n <= |q| && VictimsOk(cfg, choices)
    ensures var (r, m) := FillFrom(cfg, c, q, n, choices, k);
      |r.answers| == |c.answers| + m && forall j :: 0 <= j < |r.answers| ==>
        r.answers[j] == if j < |c.answers| then c.answers[j] else AnswerOf(q[j - |c.answers|])
    decreases n
  {
    hide FillFrom, Filled, Sized, VictimsOk, AnswerOf;
    FillStep(cfg, c, q, n, choices, k);
    var (r, m) := FillFrom(cfg, c, q, n, choices, k);
    if m > 0 { FillAnswersInOrder(cfg, Filled(cfg, c, q, choices, k), q[1..], n - 1, choices, k + 1); }
  }

  lemma {:induction false} DropMisses(cfg: CacheConfig, q: seq<Mshr>, m: nat, now: int, warmup: bool)
    requires Misses(cfg, q, now, warmup) && m <= |q|
    ensures Misses(cfg, q[m..], now, warmup)
  {
    hide BlockOf;
  }

  lemma {:induction false} MissMisses(cfg: CacheConfig, c: Cache, x: Lookup, accepted: bool, now: int, warmup: bool)
    requires Misses(cfg, c.mshr, now, warmup) && HandleMiss(cfg, c, x, accepted).Some?
    ensures Misses(cfg, HandleMiss(cfg, c, x, accepted).value.mshr, now, warmup)
  {
    hide BlockOf;
    var k := FindMshr(cfg, c.mshr, x.address);
    if k < |c.mshr| { MergeFields(c.mshr[k], MshrOf(x)); }
    hide Merge;
  }

  lemma MergeFields(p: Mshr, s: Mshr)
    ensures Merge(p, s).data == p.data && (Merge(p, s).address == p.address || Merge(p, s).address == s.address)
  {
  }

  lemma {:induction false} HandleMissesMisses(cfg: CacheConfig, c: Cache, xs: seq<Lookup>, accepts: nat -> bool, k: nat,
      now: int, warmup: bool)
    requires Misses(cfg, c.mshr, now, warmup)
    ensures Misses(cfg, HandleMisses(cfg, c, xs, accepts, k, now, warmup).0.mshr, now, warmup)
    decreases |xs|
  {
    hide Misses, HandleMiss;
    if xs != [] {
      if xs[0].kind == Write && !cfg.MatchOffset() {
        HandleMissesMisses(cfg, HandleWrite(cfg, c, xs[0], now, warmup), xs[1..], accepts, k + 1, now, warmup);
      } else if HandleMiss(cfg, c, xs[0], accepts(k)).Some? {
        MissMisses(cfg, c, xs[0], accepts(k), now, warmup);
        HandleMissesMisses(cfg, HandleMiss(cfg, c, xs[0], accepts(k)).value, xs[1..], accepts, k + 1, now, warmup);
      } else {
        HandleMissesMisses(cfg, c, xs[1..], accepts, k + 1, now, warmup);
      }
    }
  }

  // ---- where a block may be ----

  /** Every resident block is in its own set. */
  ghost predicate InOwnSet(cfg: CacheConfig, block: seq<seq<Way>>) {
    forall s, w :: 0 <= s < |block| && 0 <= w < |block[s]| && block[s][w].valid ==>
      SetIndex(cfg, block[s][w].address) == s
  }

  /** No block is resident in two ways. */
  ghost predicate OneWayEach(cfg: CacheConfig, block: seq<seq<Way>>) {
    forall s, v, w :: 0 <= s < |block| && 0 <= v < w < |block[s]| && block[s][v].valid && block[s][w].valid ==>
      BlockOf(cfg, block[s][v].address) != BlockOf(cfg, block[s][w].address)
  }

  ghost predicate Resident(cfg: CacheConfig, block: seq<seq<Way>>, a: nat) {
    exists s, w :: 0 <= s < |block| && 0 <= w < |block[s]| && block[s][w].valid
      && BlockOf(cfg, block[s][w].address) == BlockOf(cfg, a)
  }

  ghost predicate NoneResident(cfg: CacheConfig, block: seq<seq<Way>>, q: seq<Mshr>) {
    forall k :: 0 <= k < |q| ==> !Resident(cfg, block, q[k].address)
  }

  ghost predicate Placed(cfg: CacheConfig, block: seq<seq<Way>>, q: seq<Mshr>) {
    InOwnSet(cfg, block) && OneWayEach(cfg, block) && NoneResident(cfg, block, q)
  }

  /** Same blocks in the same ways. */
  ghost predicate SamePlaces(b: seq<seq<Way>>, d: seq<seq<Way>>) {
    |b| == |d| && forall s :: 0 <= s < |b| ==> |b[s]| == |d[s]| && forall w :: 0 <= w < |b[s]| ==>
      b[s][w].valid == d[s][w].valid && b[s][w].address == d[s][w].address
  }

  lemma {:induction false} SamePlacesChain(b: seq<seq<Way>>, d: seq<seq<Way>>, e: seq<seq<Way>>)
    requires SamePlaces(b, d) && SamePlaces(d, e)
    ensures SamePlaces(b, e)
  {
  }

  lemma {:induction false} SamePlacesResident(cfg: CacheConfig, b: seq<seq<Way>>, d: seq<seq<Way>>, a: nat)
    requires SamePlaces(b, d)
    ensures Resident(cfg, b, a) <==> Resident(cfg, d, a)
  {
    hide BlockOf;
  }

  lemma {:induction false} SamePlacesPlaced(cfg: CacheConfig, b: seq<seq<Way>>, d: seq<seq<Way>>, q: seq<Mshr>)
    requires SamePlaces(b, d) && Placed(cfg, b, q)
    ensures Placed(cfg, d, q)
  {
    hide BlockOf, SetIndex;
    forall k | 0 <= k < |q| ensures !Resident(cfg, d, q[k].address) { SamePlacesResident(cfg, b, d, q[k].address); }
    hide Resident;
  }

  lemma SameBlockSameSet(cfg: CacheConfig, a: nat, b: nat)
    requires BlockOf(cfg, a) == BlockOf(cfg, b)
    ensures SetIndex(cfg, a) == SetIndex(cfg, b)
  {
  }

  /** A lookup that misses in its set is resident nowhere. */
  lemma {:induction false} MissIsNotResident(cfg: CacheConfig, c: Cache, x: Lookup)
    requires Sized(cfg, c) && InOwnSet(cfg, c.block) && !Hits(cfg, c, x)
    ensures !Resident(cfg, c.block, x.address)
  {
    var t := SetIndex(cfg, x.address);
    forall s, w | 0 <= s < |c.block| && 0 <= w < |c.block[s]| && c.block[s][w].valid
      ensures BlockOf(cfg, c.block[s][w].address) != BlockOf(cfg, x.address)
    {
      if BlockOf(cfg, c.block[s][w].address) == BlockOf(cfg, x.address) {
        SameBlockSameSet(cfg, c.block[s][w].address, x.address);
      }
    }
  }

  lemma {:induction false} HitPlaces(cfg: CacheConfig, c: Cache, x: Lookup)
    requires Sized(cfg, c) && Hits(cfg, c, x)
    ensures SamePlaces(c.block, TakeHit(cfg, c, x).block)
  {
    hide FindWay, SetIndex;
  }

  lemma {:induction false} TryHitsPlaces(cfg: CacheConfig, c: Cache, xs: seq<Lookup>)
    requires Sized(cfg, c) && InOwnSet(cfg, c.block)
    ensures var (r, ms) := TryHits(cfg, c, xs);
      && SamePlaces(c.block, r.block) && r.mshr == c.mshr && r.writes == c.writes
      && (forall i :: 0 <= i < |ms| ==> !Resident(cfg, c.block, ms[i].address))
    decreases |xs|
  {
    var (r, ms) := TryHits(cfg, c, xs);
    if xs != [] {
      if Hits(cfg, c, xs[0]) {
        var d := TakeHit(cfg, c, xs[0]);
        HitPlaces(cfg, c, xs[0]);
        OwnSetSame(cfg, c.block, d.block);
        hide TakeHit, Resident, InOwnSet, Sized, SamePlaces, Hits;
        TryHitsPlaces(cfg, d, xs[1..]);
        SamePlacesChain(c.block, d.block, r.block);
        forall i | 0 <= i < |ms| ensures !Resident(cfg, c.block, ms[i].address) {
          SamePlacesResident(cfg, c.block, d.block, ms[i].address);
        }
      } else {
        MissIsNotResident(cfg, c, xs[0]);
        hide TakeHit, Resident, InOwnSet, Sized, SamePlaces, Hits;
        TryHitsPlaces(cfg, c, xs[1..]);
      }
    } else {
      assert SamePlaces(c.block, c.block);
    }
  }

  lemma OwnSetSame(cfg: CacheConfig, b: seq<seq<Way>>, d: seq<seq<Way>>)
    requires SamePlaces(b, d) && InOwnSet(cfg, b)
    ensures InOwnSet(cfg, d)
  {
    hide SetIndex;
  }

  // ---- misses keep blocks in one place ----

  lemma {:induction false} MissPlaced(cfg: CacheConfig, c: Cache, x: Lookup, accepted: bool)
    requires Placed(cfg, c.block, c.mshr) && !Resident(cfg, c.block, x.address) && HandleMiss(cfg, c, x, accepted).Some?
    ensures var d := HandleMiss(cfg, c, x, accepted).value;
      d.block == c.block && Placed(cfg, d.block, d.mshr) && d.writes == c.writes
  {
    hide InOwnSet, OneWayEach;
    var k := FindMshr(cfg, c.mshr, x.address);
    if k < |c.mshr| {
      MergeFields(c.mshr[k], MshrOf(x));
      hide Merge, Resident;
      assert !Resident(cfg, c.block, Merge(c.mshr[k], MshrOf(x)).address);
    }
    hide Merge, Resident;
  }

  lemma {:induction false} HandleMissesPlaced(cfg: CacheConfig, c: Cache, xs: seq<Lookup>, accepts: nat -> bool, k: nat,
      now: int, warmup: bool)
    requires cfg.MatchOffset() && Placed(cfg, c.block, c.mshr)
    requires forall i :: 0 <= i < |xs| ==> !Resident(cfg, c.block, xs[i].address)
    ensures var r := HandleMisses(cfg, c, xs, accepts, k, now, warmup).0;
      r.block == c.block && Placed(cfg, r.block, r.mshr) && r.writes == c.writes
    decreases |xs|
  {
    if xs != [] {
      if HandleMiss(cfg, c, xs[0], accepts(k)).Some? {
        MissPlaced(cfg, c, xs[0], accepts(k));
        hide Placed, Resident, HandleMiss;
        HandleMissesPlaced(cfg, HandleMiss(cfg, c, xs[0], accepts(k)).value, xs[1..], accepts, k + 1, now, warmup);
      } else {
        hide Placed, Resident, HandleMiss;
        HandleMissesPlaced(cfg, c, xs[1..], accepts, k + 1, now, warmup);
      }
    }
  }

  /** A tag check: because every hit is decided before any miss, a block that misses is
      still not resident when its MSHR is allocated. */
  lemma {:induction false} TagChecksPlaced(cfg: CacheConfig, c: Cache, accepts: nat -> bool, now: int, warmup: bool)
    requires cfg.MatchOffset() && Sized(cfg, c) && Placed(cfg, c.block, c.mshr)
    ensures var r := TagChecks(cfg, c, accepts, now, warmup); Placed(cfg, r.block, r.mshr) && r.writes == c.writes
  {
    var n := SpanLen(c.tags, cfg.maxTag, (x: Lookup) => x.ready <= now && x.translated);
    TryHitsPlaces(cfg, c, c.tags[..n]);
    var (d, misses) := TryHits(cfg, c, c.tags[..n]);
    SamePlacesPlaced(cfg, c.block, d.block, c.mshr);
    forall i | 0 <= i < |misses| ensures !Resident(cfg, d.block, misses[i].address) {
      SamePlacesResident(cfg, c.block, d.block, misses[i].address);
    }
    hide SpanLen, TryHits, HandleMisses, Placed, Resident, Sized;
    HandleMissesPlaced(cfg, d, misses, accepts, 0, now, warmup);
  }

  // ---- fills ----

  lemma {:induction false} FillPlaced(cfg: CacheConfig, c: Cache, q: seq<Mshr>, w: nat)
    requires Sized(cfg, c) && w <= cfg.ways && q != [] && Placed(cfg, c.block, q) && OneForEachBlock(cfg, q)
    ensures Placed(cfg, FillBlock(cfg, c, q[0], w).block, q[1..])
  {
    hide BlockOf, SetIndex;
    var d, s := FillBlock(cfg, c, q[0], w), SetIndex(cfg, q[0].address);
    forall k | 0 <= k < |q[1..]| ensures !Resident(cfg, d.block, q[1..][k].address) {
      assert q[1..][k] == q[k + 1];
      assert !Resident(cfg, c.block, q[k + 1].address);
    }
    assert !Resident(cfg, c.block, q[0].address);
    assert OneWayEach(cfg, d.block);
  }

  lemma {:induction false} FillFromPlaced(cfg: CacheConfig, c: Cache, q: seq<Mshr>, n: nat, choices: nat -> FillChoice,
      k: nat)
    requires Sized(cfg, c) && n <= |q| && VictimsOk(cfg, choices) && Placed(cfg, c.block, q) && OneForEachBlock(cfg, q)
    ensures var (r, m) := FillFrom(cfg, c, q, n, choices, k); Placed(cfg, r.block, q[m..]) && r.writes == c.writes
    decreases n
  {
    hide *;
    assert q[0..] == q;
    FillStep(cfg, c, q, n, choices, k);
    if FillFrom(cfg, c, q, n, choices, k).1 > 0 {
      FillOnePlaced(cfg, c, q, choices, k);
      FillFromPlaced(cfg, Filled(cfg, c, q, choices, k), q[1..], n - 1, choices, k + 1);
      TailOfTail(q, FillFrom(cfg, c, q, n, choices, k).1);
    }
  }

  lemma {:induction false} FillOnePlaced(cfg: CacheConfig, c: Cache, q: seq<Mshr>, choices: nat -> FillChoice, k: nat)
    requires Sized(cfg, c) && q != [] && VictimsOk(cfg, choices) && Placed(cfg, c.block, q) && OneForEachBlock(cfg, q)
    ensures var d := Filled(cfg, c, q, choices, k);
      Placed(cfg, d.block, q[1..]) && OneForEachBlock(cfg, q[1..]) && d.writes == c.writes
  {
    FillPlaced(cfg, c, q, FillWay(cfg, c, q[0], choices(k).victim));
    hide BlockOf, Placed, FillWay, FillBlock;
  }
}
