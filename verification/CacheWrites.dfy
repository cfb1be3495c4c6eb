/** What becomes of written data in a cache. */
module CacheWrites {
  import opened Sequences
  import opened Bits
  import opened Channels
  import opened Caches
  import opened CacheInvariant
  import opened CacheDiscipline
  import opened CacheRuns

  // ---- the statements ----

  /** The last thing that happened to written data of block `b`. */
  ghost function LastEvent(cfg: CacheConfig, events: seq<Event>, b: nat): Option<Event> {
    if events == [] then None
    else
      var e := events[|events| - 1];
      if BlockOf(cfg, e.address) == b then Some(e) else LastEvent(cfg, events[..|events| - 1], b)
  }

  /** The block was written, and nothing has happened to that data since. */
  ghost predicate Unsaved(cfg: CacheConfig, events: seq<Event>, b: nat) {
    var e := LastEvent(cfg, events, b);
    e.Some? && e.value.Wrote?
  }

  ghost predicate EverWritten(cfg: CacheConfig, events: seq<Event>, b: nat) {
    exists i :: 0 <= i < |events| && events[i].Wrote? && BlockOf(cfg, events[i].address) == b
  }

  ghost predicate DirtyWay(cfg: CacheConfig, block: seq<seq<Way>>, b: nat) {
    exists s, w :: 0 <= s < |block| && 0 <= w < |block[s]| && IsDirty(cfg, block[s][w], b)
  }

  ghost predicate IsDirty(cfg: CacheConfig, w: Way, b: nat) {
    w.valid && w.dirty && BlockOf(cfg, w.address) == b
  }

  /** A write to the block waits in the queue. */
  ghost predicate WriteWaits(cfg: CacheConfig, q: seq<Mshr>, b: nat) {
    exists k :: 0 <= k < |q| && IsWrite(cfg, q[k], b)
  }

  ghost predicate IsWrite(cfg: CacheConfig, x: Mshr, b: nat) {
    x.kind == Write && BlockOf(cfg, x.address) == b
  }

  /** The cache has data of the block that it must write back. */
  ghost predicate Dirty(cfg: CacheConfig, c: Cache, b: nat) {
    DirtyWay(cfg, c.block, b) || WriteWaits(cfg, c.mshr, b) || WriteWaits(cfg, c.writes, b)
  }

  // ---- the invariant ----

  ghost predicate SavedAt(cfg: CacheConfig, block: seq<seq<Way>>, q: seq<Mshr>, o: seq<Mshr>, events: seq<Event>,
      b: nat)
  {
    var dirty := DirtyWay(cfg, block, b) || WriteWaits(cfg, q, b) || WriteWaits(cfg, o, b);
    && (Unsaved(cfg, events, b) ==> dirty)
    && (dirty ==> EverWritten(cfg, events, b))
    && (cfg.MatchOffset() && dirty ==> Unsaved(cfg, events, b))
  }

  ghost predicate Saved(cfg: CacheConfig, c: Cache, b: nat) {
    SavedAt(cfg, c.block, c.mshr, c.writes, c.events, b)
  }

  lemma MoreEvents(cfg: CacheConfig, events: seq<Event>, e: Event, b: nat)
    ensures BlockOf(cfg, e.address) == b ==> LastEvent(cfg, events + [e], b) == Some(e)
    ensures BlockOf(cfg, e.address) != b ==> LastEvent(cfg, events + [e], b) == LastEvent(cfg, events, b)
    ensures EverWritten(cfg, events, b) ==> EverWritten(cfg, events + [e], b)
    ensures e.Wrote? && BlockOf(cfg, e.address) == b ==> EverWritten(cfg, events + [e], b)
  {
    hide BlockOf;
    var more := events + [e];
    assert more[..|more| - 1] == events;
    assert more[|events|] == e;
    if EverWritten(cfg, events, b) {
      var i :| 0 <= i < |events| && events[i].Wrote? && BlockOf(cfg, events[i].address) == b;
      assert more[i] == events[i];
    }
  }

  /** In a cache that matches full addresses, a block is in one place. */
  ghost predicate Single(cfg: CacheConfig, block: seq<seq<Way>>, q: seq<Mshr>, o: seq<Mshr>) {
    cfg.MatchOffset() ==> Placed(cfg, block, q) && OneForEachBlock(cfg, q) && o == []
  }

  // ---- fills ----

  lemma WaitsTail(cfg: CacheConfig, q: seq<Mshr>, b: nat)
    requires q != []
    ensures WriteWaits(cfg, q, b) <==> IsWrite(cfg, q[0], b) || WriteWaits(cfg, q[1..], b)
  {
    hide IsWrite;
    if k :| 0 <= k < |q| && IsWrite(cfg, q[k], b) {
      if k > 0 { assert q[1..][k - 1] == q[k]; }
    }
    if k :| 0 <= k < |q[1..]| && IsWrite(cfg, q[1..][k], b) {
      assert q[k + 1] == q[1..][k];
    }
  }

  ghost predicate OtherDirty(cfg: CacheConfig, block: seq<seq<Way>>, b: nat, s: nat, w: nat) {
    exists r, v :: 0 <= r < |block| && 0 <= v < |block[r]| && (r != s || v != w) && IsDirty(cfg, block[r][v], b)
  }

  lemma WayReplaced(cfg: CacheConfig, block: seq<seq<Way>>, s: nat, w: nat, y: Way, b: nat)
    requires s < |block| && w < |block[s]|
    ensures var d := block[s := block[s][w := y]];
      && (DirtyWay(cfg, block, b) <==> OtherDirty(cfg, block, b, s, w) || IsDirty(cfg, block[s][w], b))
      && (DirtyWay(cfg, d, b) <==> OtherDirty(cfg, block, b, s, w) || IsDirty(cfg, y, b))
  {
    hide IsDirty;
    var d := block[s := block[s][w := y]];
    assert d[s][w] == y;
    forall r, v | 0 <= r < |block| && 0 <= v < |block[r]| && (r != s || v != w) ensures d[r][v] == block[r][v] { }
  }

  /** Evicting a way and filling it, seen from block `b`. */
  lemma FillSaves(cfg: CacheConfig, c: Cache, q: seq<Mshr>, o: seq<Mshr>, w: nat, choice: FillChoice, b: nat)
    requires Sized(cfg, c) && q != [] && w <= cfg.ways && (NeedsWriteback(cfg, c, q[0], w) ==> choice.writeback)
    requires SavedAt(cfg, c.block, q, o, c.events, b) && Single(cfg, c.block, q, o)
    ensures var d := FillBlock(cfg, Evict(cfg, c, q[0], w, choice), q[0], w);
      SavedAt(cfg, d.block, q[1..], o, d.events, b)
  {
    hide SetIndex, BlockOf, LastEvent, DirtyWay, WriteWaits, EverWritten, Single;
    var m, s := q[0], SetIndex(cfg, q[0].address);
    var d := FillBlock(cfg, Evict(cfg, c, m, w, choice), m, w);
    assert c.events + [] == c.events;
    WaitsTail(cfg, q, b);
    if cfg.MatchOffset() { SingleFill(cfg, c.block, q, o, s, w, b); }
    if w < cfg.ways {
      WayReplaced(cfg, c.block, s, w, Way(true, m.address, m.kind == Write, m.fromThis), b);
      if NeedsWriteback(cfg, c, m, w) { MoreEvents(cfg, c.events, WroteBack(c.block[s][w].address), b); }
    } else {
      MoreEvents(cfg, c.events, Bypassed(m.address), b);
    }
    hide OtherDirty;
  }

  /** What is nowhere else, in a cache that matches full addresses. */
  lemma SingleFill(cfg: CacheConfig, block: seq<seq<Way>>, q: seq<Mshr>, o: seq<Mshr>, s: nat, w: nat, b: nat)
    requires cfg.MatchOffset() && Single(cfg, block, q, o) && q != []
    ensures !WriteWaits(cfg, o, b)
    ensures BlockOf(cfg, q[0].address) == b ==> !DirtyWay(cfg, block, b) && !WriteWaits(cfg, q[1..], b)
    ensures s < |block| && w < |block[s]| && block[s][w].valid && BlockOf(cfg, block[s][w].address) == b ==>
      !OtherDirty(cfg, block, b, s, w) && !WriteWaits(cfg, q, b)
  {
    hide BlockOf, SetIndex;
    if BlockOf(cfg, q[0].address) == b {
      assert !Resident(cfg, block, q[0].address);
      forall k | 0 <= k < |q[1..]| ensures !IsWrite(cfg, q[1..][k], b) { assert q[1..][k] == q[k + 1]; }
    }
    if s < |block| && w < |block[s]| && block[s][w].valid && BlockOf(cfg, block[s][w].address) == b {
      forall r, v | 0 <= r < |block| && 0 <= v < |block[r]| && (r != s || v != w) && block[r][v].valid
        ensures BlockOf(cfg, block[r][v].address) != b
      {
        if BlockOf(cfg, block[r][v].address) == b { SameBlockSameSet(cfg, block[r][v].address, block[s][w].address); }
      }
      forall k | 0 <= k < |q| ensures !IsWrite(cfg, q[k], b) { assert !Resident(cfg, block, q[k].address); }
    }
  }

  lemma FillTaken(cfg: CacheConfig, c: Cache, q: seq<Mshr>, n: nat, choices: nat -> FillChoice, k: nat)
    requires Sized(cfg, c) && n <= |q| && VictimsOk(cfg, choices) && FillFrom(cfg, c, q, n, choices, k).1 > 0
    ensures q != [] && (NeedsWriteback(cfg, c, q[0], FillWay(cfg, c, q[0], choices(k).victim)) ==> choices(k).writeback)
  {
    hide FillWay, NeedsWriteback, FillBlock, Evict;
  }

  lemma FilledSaves(cfg: CacheConfig, c: Cache, q: seq<Mshr>, o: seq<Mshr>, choices: nat -> FillChoice, k: nat, b: nat)
    requires Sized(cfg, c) && q != [] && VictimsOk(cfg, choices)
    requires NeedsWriteback(cfg, c, q[0], FillWay(cfg, c, q[0], choices(k).victim)) ==> choices(k).writeback
    requires SavedAt(cfg, c.block, q, o, c.events, b) && Single(cfg, c.block, q, o)
    ensures var d := Filled(cfg, c, q, choices, k);
      SavedAt(cfg, d.block, q[1..], o, d.events, b) && Single(cfg, d.block, q[1..], o)
  {
    hide SavedAt, NeedsWriteback, FillWay, FillBlock, Evict, Placed, BlockOf, SetIndex;
    FillSaves(cfg, c, q, o, FillWay(cfg, c, q[0], choices(k).victim), choices(k), b);
    if cfg.MatchOffset() { FillOnePlaced(cfg, c, q, choices, k); }
  }

  lemma {:induction false} FillFromSaves(cfg: CacheConfig, c: Cache, q: seq<Mshr>, o: seq<Mshr>, n: nat,
      choices: nat -> FillChoice, k: nat, b: nat)
    requires Sized(cfg, c) && n <= |q| && VictimsOk(cfg, choices)
    requires SavedAt(cfg, c.block, q, o, c.events, b) && Single(cfg, c.block, q, o)
    ensures var (r, m) := FillFrom(cfg, c, q, n, choices, k); SavedAt(cfg, r.block, q[m..], o, r.events, b)
    decreases n
  {
    hide *;
    assert q[0..] == q;
    FillStep(cfg, c, q, n, choices, k);
    if FillFrom(cfg, c, q, n, choices, k).1 > 0 {
      FillTaken(cfg, c, q, n, choices, k);
      FilledSaves(cfg, c, q, o, choices, k, b);
      FillFromSaves(cfg, Filled(cfg, c, q, choices, k), q[1..], o, n - 1, choices, k + 1, b);
      TailOfTail(q, FillFrom(cfg, c, q, n, choices, k).1);
    }
  }

  lemma SavedSwap(cfg: CacheConfig, block: seq<seq<Way>>, q: seq<Mshr>, o: seq<Mshr>, events: seq<Event>, b: nat)
    requires SavedAt(cfg, block, q, o, events, b)
    ensures SavedAt(cfg, block, o, q, events, b)
  {
    hide DirtyWay, WriteWaits, Unsaved, EverWritten;
  }

  lemma {:induction false} FillMshrsSave(cfg: CacheConfig, c: Cache, now: int, choices: nat -> FillChoice, b: nat)
    requires Sized(cfg, c) && VictimsOk(cfg, choices) && Saved(cfg, c, b) && Single(cfg, c.block, c.mshr, c.writes)
    ensures var d := FillMshrs(cfg, c, now, choices).0;
      Saved(cfg, d, b) && d.writes == c.writes
  {
    var n := SpanLen(c.mshr, cfg.maxFill, (x: Mshr) => IsReady(x, now));
    hide SpanLen, FillFrom, VictimsOk, Sized, SavedAt, Single;
    FillFromFrame(cfg, c, c.mshr, n, choices, 0);
    FillFromSaves(cfg, c, c.mshr, c.writes, n, choices, 0, b);
  }

  lemma {:induction false} FillWritesSave(cfg: CacheConfig, c: Cache, width: nat, now: int, choices: nat -> FillChoice,
      k: nat, b: nat)
    requires Sized(cfg, c) && VictimsOk(cfg, choices) && Saved(cfg, c, b) && !cfg.MatchOffset()
    ensures Saved(cfg, FillWrites(cfg, c, width, now, choices, k), b)
  {
    var n := SpanLen(c.writes, width, (x: Mshr) => IsReady(x, now));
    assert Single(cfg, c.block, c.writes, c.mshr);
    hide SpanLen, FillFrom, VictimsOk, Sized, SavedAt, Single;
    FillFromFrame(cfg, c, c.writes, n, choices, k);
    SavedSwap(cfg, c.block, c.mshr, c.writes, c.events, b);
    FillFromSaves(cfg, c, c.writes, c.mshr, n, choices, k, b);
    var (r, m) := FillFrom(cfg, c, c.writes, n, choices, k);
    SavedSwap(cfg, r.block, c.writes[m..], c.mshr, r.events, b);
  }

  lemma {:induction false} NoWritesSave(cfg: CacheConfig, c: Cache, width: nat, now: int, choices: nat -> FillChoice,
      k: nat, b: nat)
    requires Sized(cfg, c) && VictimsOk(cfg, choices) && Saved(cfg, c, b) && c.writes == []
    ensures Saved(cfg, FillWrites(cfg, c, width, now, choices, k), b)
  {
    var n := SpanLen(c.writes, width, (x: Mshr) => IsReady(x, now));
    hide SpanLen, VictimsOk, Sized, SavedAt;
    FillStep(cfg, c, c.writes, n, choices, k);
    hide FillFrom;
    assert c.writes[0..] == c.writes;
  }

  lemma {:induction false} FillsSave(cfg: CacheConfig, c: Cache, now: int, choices: nat -> FillChoice, b: nat)
    requires Sized(cfg, c) && VictimsOk(cfg, choices) && Saved(cfg, c, b) && Single(cfg, c.block, c.mshr, c.writes)
    ensures Saved(cfg, Fills(cfg, c, now, choices), b)
  {
    hide VictimsOk, Sized, SavedAt, FillMshrs, FillWrites, Placed, OneForEachBlock, Saved;
    FillMshrsSave(cfg, c, now, choices, b);
    var (r, m) := FillMshrs(cfg, c, now, choices);
    if cfg.MatchOffset() {
      NoWritesSave(cfg, r, cfg.maxFill - m, now, choices, m, b);
    } else {
      FillWritesSave(cfg, r, cfg.maxFill - m, now, choices, m, b);
    }
  }

  // ---- hits ----

  lemma HitSaves(cfg: CacheConfig, c: Cache, x: Lookup, b: nat)
    requires Sized(cfg, c) && Hits(cfg, c, x) && Saved(cfg, c, b)
    ensures Saved(cfg, TakeHit(cfg, c, x), b)
  {
    hide BlockOf, LastEvent, EverWritten, DirtyWay, WriteWaits;
    var s := SetIndex(cfg, x.address);
    var k := FindWay(cfg, c.block[s], x.address);
    var w := c.block[s][k];
    hide FindWay, SetIndex;
    WayReplaced(cfg, c.block, s, k, TakeHit(cfg, c, x).block[s][k], b);
    MoreEvents(cfg, c.events, Wrote(x.address), b);
    hide OtherDirty;
  }

  lemma {:induction false} TryHitsSave(cfg: CacheConfig, c: Cache, xs: seq<Lookup>, b: nat)
    requires Sized(cfg, c) && Saved(cfg, c, b)
    ensures Saved(cfg, TryHits(cfg, c, xs).0, b)
    decreases |xs|
  {
    hide Saved, Hits, TakeHit, Sized;
    if xs != [] {
      if Hits(cfg, c, xs[0]) {
        HitSaves(cfg, c, xs[0], b);
        TryHitsSave(cfg, TakeHit(cfg, c, xs[0]), xs[1..], b);
      } else {
        TryHitsSave(cfg, c, xs[1..], b);
      }
    }
  }

  // ---- misses ----

  /** When merging keeps a write: the source takes the successor's kind, unless it is a prefetch. */
  lemma MergeKeepsWrite(p: Mshr, s: Mshr)
    ensures Merge(p, s).kind == Write <==> s.kind == Write || (s.kind == Prefetch && p.kind == Write)
  {
  }

  lemma WaitsChanged(cfg: CacheConfig, q: seq<Mshr>, k: nat, y: Mshr, b: nat)
    requires k < |q| && BlockOf(cfg, y.address) == BlockOf(cfg, q[k].address)
    ensures BlockOf(cfg, y.address) != b || (y.kind == Write) == (q[k].kind == Write) ==>
      WriteWaits(cfg, q[k := y], b) == WriteWaits(cfg, q, b)
    ensures BlockOf(cfg, y.address) == b && y.kind == Write ==> WriteWaits(cfg, q[k := y], b)
    ensures BlockOf(cfg, y.address) == b && y.kind != Write && OneForEachBlock(cfg, q) ==>
      !WriteWaits(cfg, q[k := y], b)
  {
    hide BlockOf;
    var r := q[k := y];
    assert r[k] == y;
    if j :| 0 <= j < |q| && IsWrite(cfg, q[j], b) { assert j != k ==> r[j] == q[j]; }
    if j :| 0 <= j < |r| && IsWrite(cfg, r[j], b) { assert j != k ==> r[j] == q[j]; }
  }

  lemma WaitsAdded(cfg: CacheConfig, q: seq<Mshr>, y: Mshr, b: nat)
    ensures WriteWaits(cfg, q + [y], b) <==> WriteWaits(cfg, q, b) || IsWrite(cfg, y, b)
  {
    hide IsWrite;
    var r := q + [y];
    assert r[|q|] == y;
    if j :| 0 <= j < |q| && IsWrite(cfg, q[j], b) { assert r[j] == q[j]; }
  }

  lemma NotResidentNotDirty(cfg: CacheConfig, block: seq<seq<Way>>, a: nat)
    requires !Resident(cfg, block, a)
    ensures !DirtyWay(cfg, block, BlockOf(cfg, a))
  {
    hide BlockOf;
  }

  lemma MergeSaves(cfg: CacheConfig, c: Cache, x: Lookup, accepted: bool, b: nat)
    requires FindMshr(cfg, c.mshr, x.address) < |c.mshr| && Saved(cfg, c, b)
    requires cfg.MatchOffset() ==> c.writes == [] && OneForEachBlock(cfg, c.mshr) && !Resident(cfg, c.block, x.address)
    ensures Saved(cfg, HandleMiss(cfg, c, x, accepted).value, b)
  {
    hide BlockOf, LastEvent, EverWritten, DirtyWay, Resident, WriteWaits;
    var k := FindMshr(cfg, c.mshr, x.address);
    var y := Merge(c.mshr[k], MshrOf(x));
    hide FindMshr;
    MergeKeepsWrite(c.mshr[k], MshrOf(x));
    MergedBlock(cfg, c.mshr[k], x);
    hide Merge;
    WaitsChanged(cfg, c.mshr, k, y, b);
    WaitsAt(cfg, c.mshr, k);
    MoreEvents(cfg, c.events, Overtaken(x.address), b);
    MoreEvents(cfg, c.events, Wrote(x.address), b);
    if cfg.MatchOffset() {
      NotResidentNotDirty(cfg, c.block, x.address);
      NothingWaits(cfg, c.writes, b);
    }
  }

  lemma MergedBlock(cfg: CacheConfig, p: Mshr, x: Lookup)
    requires BlockOf(cfg, p.address) == BlockOf(cfg, x.address)
    ensures BlockOf(cfg, Merge(p, MshrOf(x)).address) == BlockOf(cfg, x.address)
  {
    hide BlockOf;
  }

  lemma WaitsAt(cfg: CacheConfig, q: seq<Mshr>, k: nat)
    requires k < |q|
    ensures q[k].kind == Write ==> WriteWaits(cfg, q, BlockOf(cfg, q[k].address))
  {
    assert IsWrite(cfg, q[k], BlockOf(cfg, q[k].address)) == (q[k].kind == Write);
    hide IsWrite;
  }

  lemma NothingWaits(cfg: CacheConfig, q: seq<Mshr>, b: nat)
    requires q == []
    ensures !WriteWaits(cfg, q, b)
  {
  }

  lemma MissSaves(cfg: CacheConfig, c: Cache, x: Lookup, accepted: bool, b: nat)
    requires HandleMiss(cfg, c, x, accepted).Some? && Saved(cfg, c, b)
    requires cfg.MatchOffset() ==> c.writes == [] && OneForEachBlock(cfg, c.mshr) && !Resident(cfg, c.block, x.address)
    ensures Saved(cfg, HandleMiss(cfg, c, x, accepted).value, b)
  {
    if FindMshr(cfg, c.mshr, x.address) < |c.mshr| {
      hide Saved, HandleMiss;
      MergeSaves(cfg, c, x, accepted, b);
    } else {
      hide BlockOf, LastEvent, EverWritten, DirtyWay, Resident, WriteWaits, Merge, FindMshr;
      WaitsAdded(cfg, c.mshr, MshrOf(x), b);
      MoreEvents(cfg, c.events, Wrote(x.address), b);
    }
  }

  lemma WriteSaves(cfg: CacheConfig, c: Cache, x: Lookup, now: int, warmup: bool, b: nat)
    requires x.kind == Write && Saved(cfg, c, b)
    ensures Saved(cfg, HandleWrite(cfg, c, x, now, warmup), b)
  {
    hide BlockOf, LastEvent, EverWritten, DirtyWay, WriteWaits;
    WaitsAdded(cfg, c.writes, MshrOf(x).(data := Some(now + Latency(warmup, cfg.fillLatency))), b);
    MoreEvents(cfg, c.events, Wrote(x.address), b);
  }

  lemma {:induction false} HandleMissesSave(cfg: CacheConfig, c: Cache, xs: seq<Lookup>, accepts: nat -> bool, k: nat,
      now: int, warmup: bool, b: nat)
    requires Saved(cfg, c, b) && Misses(cfg, c.mshr, now, warmup)
    requires cfg.MatchOffset() ==> Placed(cfg, c.block, c.mshr) && c.writes == []
    requires cfg.MatchOffset() ==> forall i :: 0 <= i < |xs| ==> !Resident(cfg, c.block, xs[i].address)
    ensures Saved(cfg, HandleMisses(cfg, c, xs, accepts, k, now, warmup).0, b)
    decreases |xs|
  {
    hide Saved, Placed, Resident, HandleMiss, HandleWrite, OneForEachBlock, ReturnedFirst;
    if xs != [] {
      if xs[0].kind == Write && !cfg.MatchOffset() {
        var d := HandleWrite(cfg, c, xs[0], now, warmup);
        WriteSaves(cfg, c, xs[0], now, warmup, b);
        WriteFrame(cfg, c, xs[0], now, warmup);
        HandleMissesSave(cfg, d, xs[1..], accepts, k + 1, now, warmup, b);
      } else if HandleMiss(cfg, c, xs[0], accepts(k)).Some? {
        var d := HandleMiss(cfg, c, xs[0], accepts(k)).value;
        MissSaves(cfg, c, xs[0], accepts(k), b);
        MissMisses(cfg, c, xs[0], accepts(k), now, warmup);
        if cfg.MatchOffset() { MissPlaced(cfg, c, xs[0], accepts(k)); }
        HandleMissesSave(cfg, d, xs[1..], accepts, k + 1, now, warmup, b);
      } else {
        HandleMissesSave(cfg, c, xs[1..], accepts, k + 1, now, warmup, b);
      }
    }
  }

  lemma WriteFrame(cfg: CacheConfig, c: Cache, x: Lookup, now: int, warmup: bool)
    ensures var d := HandleWrite(cfg, c, x, now, warmup); d.mshr == c.mshr && d.block == c.block
  {
  }

  lemma {:induction false} TagChecksSave(cfg: CacheConfig, c: Cache, accepts: nat -> bool, now: int, warmup: bool,
      b: nat)
    requires Sized(cfg, c) && Saved(cfg, c, b) && Misses(cfg, c.mshr, now, warmup) && Residency(cfg, c)
    ensures Saved(cfg, TagChecks(cfg, c, accepts, now, warmup), b)
  {
    var n := SpanLen(c.tags, cfg.maxTag, (x: Lookup) => x.ready <= now && x.translated);
    hide SpanLen, TryHits, HandleMisses, SavedAt, Resident, Misses, InOwnSet, OneWayEach, NoneResident;
    var (d, misses) := TryHits(cfg, c, c.tags[..n]);
    TryHitsSave(cfg, c, c.tags[..n], b);
    TryHitsMshr(cfg, c, c.tags[..n]);
    if cfg.MatchOffset() {
      CacheDiscipline.TryHitsPlaces(cfg, c, c.tags[..n]);
      SamePlacesPlaced(cfg, c.block, d.block, c.mshr);
      forall i | 0 <= i < |misses| ensures !Resident(cfg, d.block, misses[i].address) {
        SamePlacesResident(cfg, c.block, d.block, misses[i].address);
      }
    }
    hide Placed, SamePlaces, Sized;
    HandleMissesSave(cfg, d, misses, accepts, 0, now, warmup, b);
  }

  // ---- returns ----

  lemma ReturnKinds(q: seq<Mshr>, k: nat, at: int)
    requires k < |q| && FirstUnreturned(q) < |q|
    ensures var r, f := Return(q, k, at), FirstUnreturned(q);
      |r| == |q| && forall j :: 0 <= j < |q| ==>
        r[j].address == q[Origin(j, k, f)].address && r[j].kind == q[Origin(j, k, f)].kind
  {
    hide FirstUnreturned;
  }

  lemma ReturnWaits(cfg: CacheConfig, q: seq<Mshr>, k: nat, at: int, b: nat)
    requires k < |q| && FirstUnreturned(q) < |q|
    ensures WriteWaits(cfg, Return(q, k, at), b) == WriteWaits(cfg, q, b)
  {
    ReturnKinds(q, k, at);
    hide BlockOf, Return, FirstUnreturned;
    var r, f := Return(q, k, at), FirstUnreturned(q);
    if j :| 0 <= j < |q| && IsWrite(cfg, q[j], b) {
      assert Origin(Origin(j, k, f), k, f) == j;
      assert IsWrite(cfg, r[Origin(j, k, f)], b);
    }
    if j :| 0 <= j < |r| && IsWrite(cfg, r[j], b) { assert IsWrite(cfg, q[Origin(j, k, f)], b); }
  }

  lemma {:induction false} FinishAllSaves(cfg: CacheConfig, c: Cache, addrs: seq<nat>, now: int, warmup: bool, b: nat)
    requires Saved(cfg, c, b)
    ensures Saved(cfg, FinishAll(cfg, c, addrs, now, warmup), b)
    decreases |addrs|
  {
    hide BlockOf, Return, FindMshr, FirstUnreturned, WriteWaits, DirtyWay, Unsaved, EverWritten;
    if addrs != [] {
      var k := FindMshr(cfg, c.mshr, addrs[0]);
      if k < |c.mshr| && FirstUnreturned(c.mshr) < |c.mshr| {
        ReturnWaits(cfg, c.mshr, k, now + Latency(warmup, cfg.fillLatency), b);
      }
      var d := FinishPacket(cfg, c, addrs[0], now, warmup);
      assert Saved(cfg, d, b);
      hide Saved, FinishPacket;
      FinishAllSaves(cfg, d, addrs[1..], now, warmup, b);
    }
  }

  lemma SameStoreSaved(cfg: CacheConfig, c: Cache, d: Cache, b: nat)
    requires Saved(cfg, c, b) && SameStore(c, d)
    ensures Saved(cfg, d, b)
  {
    hide SavedAt;
  }

  lemma {:induction false} ReturnsSave(cfg: CacheConfig, c: Cache, acc: seq<Accepted>, y: Cycle, b: nat)
    requires CacheRuns.Inv(cfg, c, acc, y.now, y.warmup) && Saved(cfg, c, b)
    ensures Saved(cfg, Returns(cfg, c, y), b)
  {
    var d := CheckChannels(cfg, c, 0);
    assert SameStore(c, d);
    hide CheckChannels, FinishAll, TranslateEach, CacheRuns.Inv, Saved, SameStore;
    SameStoreSaved(cfg, c, d, b);
    FinishAllSaves(cfg, d, y.returned, y.now, y.warmup, b);
    var e := FinishAll(cfg, d, y.returned, y.now, y.warmup);
    TranslateEachFrame(e, y.pageBits, y.translations);
    SameStoreSaved(cfg, e, TranslateEach(e, y.pageBits, y.translations), b);
  }

  lemma InvParts(cfg: CacheConfig, c: Cache, acc: seq<Accepted>, now: int, warmup: bool)
    requires CacheRuns.Inv(cfg, c, acc, now, warmup)
    ensures Sized(cfg, c) && Misses(cfg, c.mshr, now, warmup) && Residency(cfg, c)
    ensures Single(cfg, c.block, c.mshr, c.writes)
  {
    hide Kept, Placed, ReturnedFirst;
  }

  lemma ParkFrame(c: Cache, y: Cycle)
    ensures SameStore(c, Park(c, y))
  {
    hide Issue, Select;
  }

  lemma {:induction false} OperateSaves(cfg: CacheConfig, c: Cache, acc: seq<Accepted>, y: Cycle, b: nat)
    requires CacheRuns.Inv(cfg, c, acc, y.now, y.warmup) && CycleOk(cfg, c, y) && Saved(cfg, c, b)
    ensures Sized(cfg, c) && VictimsOk(cfg, y.choices) && Saved(cfg, Operate(cfg, c, y), b)
  {
    assert Sized(cfg, c) && VictimsOk(cfg, y.choices);
    ReturnsKeep(cfg, c, acc, y);
    ReturnsSized(cfg, c, y);
    ReturnsSave(cfg, c, acc, y, b);
    hide CacheRuns.Inv, CycleOk, VictimsOk, Sized, Returns, Fills, Initiate, Park, TagChecks, Saved, Misses, Residency,
      Single, SameStore;
    var r := Returns(cfg, c, y);
    InvParts(cfg, r, acc, y.now, y.warmup);
    FillsSave(cfg, r, y.now, y.choices, b);
    FillsInv(cfg, r, acc, y.now, y.choices, y.warmup);
    var d := Fills(cfg, r, y.now, y.choices);
    InitiateInv(cfg, d, acc, y);
    var e := Initiate(cfg, d, y);
    InitiateFrame(cfg, d, y);
    SameStoreSaved(cfg, d, e, b);
    StashInv(cfg, e, acc, y);
    ParkFrame(e, y);
    SameStoreSaved(cfg, e, Park(e, y), b);
    InvParts(cfg, Park(e, y), acc, y.now, y.warmup);
    TagChecksSave(cfg, Park(e, y), y.accepts, y.now, y.warmup, b);
  }

  // ---- runs ----

  lemma {:induction false} EnteredSame(cfg: CacheConfig, c: Cache, acc: seq<Accepted>, xs: seq<Arrival>)
    ensures SameStore(c, ArriveAll(cfg, c, acc, xs).0)
    decreases |xs|
  {
    hide QueueOf, WithQueue, SizeOf, AddTo;
    if xs != [] {
      var (d, more) := Arrive(cfg, c, acc, xs[0]);
      EnteredSame(cfg, d, more, xs[1..]);
    }
  }

  lemma {:induction false} StepSaves(cfg: CacheConfig, c: Cache, acc: seq<Accepted>, y: Cycle, b: nat)
    requires CacheRuns.Inv(cfg, c, acc, y.now, y.warmup) && ArrivalsOk(y) && CycleOk(cfg, Entered(cfg, c, acc, y).0, y)
    requires Saved(cfg, c, b)
    ensures Saved(cfg, Step(cfg, c, acc, y).0, b)
  {
    EnteredSame(cfg, c, acc, y.arrivals);
    hide CacheRuns.Inv, ArrivalsOk, CycleOk, ArriveAll, Operate, Saved;
    var (d, more) := Entered(cfg, c, acc, y);
    SameStoreSaved(cfg, c, d, b);
    EnteredInv(cfg, c, acc, y.now, y.warmup, y);
    OperateSaves(cfg, d, more, y, b);
  }

  lemma EmptySaved(cfg: CacheConfig, channels: nat, b: nat)
    ensures Saved(cfg, Empty(cfg, channels), b)
  {
    hide BlockOf;
  }

  lemma {:induction false} RunSaves(cfg: CacheConfig, channels: nat, ys: seq<Cycle>, b: nat)
    requires RunOk(cfg, channels, ys)
    ensures Saved(cfg, Run(cfg, channels, ys).0, b)
    decreases |ys|
  {
    hide CacheRuns.Inv, CycleOk, Entered, Empty, ArrivalsOk, Step, NextOk, Saved, InvAfter;
    if ys == [] {
      EmptySaved(cfg, channels, b);
    } else {
      var n := |ys| - 1;
      var (c, acc) := Run(cfg, channels, ys[..n]);
      RunSaves(cfg, channels, ys[..n], b);
      NextInv(cfg, channels, c, acc, ys[..n], ys[n]);
      StepSaves(cfg, c, acc, ys[n], b);
    }
  }

  // ---- main results ----

  /** On every run, written data is never silently lost: if nothing has happened to a block since
      it was last written, it is in a dirty way or its write waits to be filled. What is dirty has
      been written. */
  lemma {:induction false} WrittenDataIsKept(cfg: CacheConfig, channels: nat, ys: seq<Cycle>, b: nat)
    requires RunOk(cfg, channels, ys)
    ensures var c := Run(cfg, channels, ys).0;
      && (Unsaved(cfg, c.events, b) ==> Dirty(cfg, c, b))
      && (Dirty(cfg, c, b) ==> EverWritten(cfg, c.events, b))
  {
    hide Run, RunOk, Unsaved, DirtyWay, WriteWaits, EverWritten;
    RunSaves(cfg, channels, ys, b);
  }

  /** In a cache that matches full addresses it is exact: a block is dirty, in a way or waiting, if
      and only if the last thing that happened to its data is that it was written. */
  lemma {:induction false} DirtyIsExact(cfg: CacheConfig, channels: nat, ys: seq<Cycle>, b: nat)
    requires RunOk(cfg, channels, ys) && cfg.MatchOffset()
    ensures var c := Run(cfg, channels, ys).0;
      Dirty(cfg, c, b) <==> Unsaved(cfg, c.events, b)
  {
    hide Run, RunOk, Unsaved, DirtyWay, WriteWaits, EverWritten;
    RunSaves(cfg, channels, ys, b);
  }

  // ---- caches that match block addresses only ----

  /** No write waits in the MSHR there, so none can be overtaken. */
  ghost predicate Apart(cfg: CacheConfig, q: seq<Mshr>, events: seq<Event>) {
    !cfg.MatchOffset() ==>
      && (forall k :: 0 <= k < |q| ==> q[k].kind != Write)
      && (forall i :: 0 <= i < |events| ==> !events[i].Overtaken?)
  }

  lemma {:induction false} FillFromApart(cfg: CacheConfig, c: Cache, q: seq<Mshr>, n: nat, choices: nat -> FillChoice,
      k: nat)
    requires Sized(cfg, c) && n <= |q| && VictimsOk(cfg, choices) && Apart(cfg, c.mshr, c.events)
    ensures Apart(cfg, c.mshr, FillFrom(cfg, c, q, n, choices, k).0.events)
    decreases n
  {
    FillStep(cfg, c, q, n, choices, k);
    if FillFrom(cfg, c, q, n, choices, k).1 > 0 {
      hide FillFrom, FillBlock, FillWay, NeedsWriteback, SetIndex, Sized, VictimsOk;
      var d := Filled(cfg, c, q, choices, k);
      assert Apart(cfg, d.mshr, d.events);
      hide Filled, Apart;
      FillFromApart(cfg, d, q[1..], n - 1, choices, k + 1);
    }
  }

  lemma {:induction false} FillsApart(cfg: CacheConfig, c: Cache, now: int, choices: nat -> FillChoice)
    requires Sized(cfg, c) && VictimsOk(cfg, choices) && Apart(cfg, c.mshr, c.events)
    ensures Apart(cfg, Fills(cfg, c, now, choices).mshr, Fills(cfg, c, now, choices).events)
  {
    var n := SpanLen(c.mshr, cfg.maxFill, (x: Mshr) => IsReady(x, now));
    hide SpanLen, FillFrom, VictimsOk, Sized;
    FillFromFrame(cfg, c, c.mshr, n, choices, 0);
    FillFromApart(cfg, c, c.mshr, n, choices, 0);
    var (r, m) := FillMshrs(cfg, c, now, choices);
    assert Apart(cfg, r.mshr, r.events);
    var l := SpanLen(r.writes, cfg.maxFill - m, (x: Mshr) => IsReady(x, now));
    hide FillMshrs, Apart;
    FillFromFrame(cfg, r, r.writes, l, choices, m);
    FillFromApart(cfg, r, r.writes, l, choices, m);
  }

  lemma {:induction false} TryHitsApart(cfg: CacheConfig, c: Cache, xs: seq<Lookup>)
    requires Sized(cfg, c) && Apart(cfg, c.mshr, c.events)
    ensures var d := TryHits(cfg, c, xs).0; Apart(cfg, d.mshr, d.events)
    decreases |xs|
  {
    hide Hits, Sized, SetIndex;
    if xs != [] {
      if Hits(cfg, c, xs[0]) {
        var d := TakeHit(cfg, c, xs[0]);
        assert Apart(cfg, d.mshr, d.events);
        hide Apart, TakeHit;
        TryHitsApart(cfg, d, xs[1..]);
      } else {
        hide Apart, TakeHit;
        TryHitsApart(cfg, c, xs[1..]);
      }
    }
  }

  lemma MissApart(cfg: CacheConfig, c: Cache, x: Lookup, accepted: bool)
    requires HandleMiss(cfg, c, x, accepted).Some? && (x.kind != Write || cfg.MatchOffset())
    requires Apart(cfg, c.mshr, c.events)
    ensures var d := HandleMiss(cfg, c, x, accepted).value; Apart(cfg, d.mshr, d.events)
  {
    var k := FindMshr(cfg, c.mshr, x.address);
    if k < |c.mshr| { MergeKeepsWrite(c.mshr[k], MshrOf(x)); }
    hide FindMshr, Merge, BlockOf;
  }

  lemma {:induction false} HandleMissesApart(cfg: CacheConfig, c: Cache, xs: seq<Lookup>, accepts: nat -> bool, k: nat,
      now: int, warmup: bool)
    requires Apart(cfg, c.mshr, c.events)
    ensures var d := HandleMisses(cfg, c, xs, accepts, k, now, warmup).0; Apart(cfg, d.mshr, d.events)
    decreases |xs|
  {
    if xs != [] {
      if xs[0].kind == Write && !cfg.MatchOffset() {
        var d := HandleWrite(cfg, c, xs[0], now, warmup);
        assert Apart(cfg, d.mshr, d.events);
        hide Apart, HandleWrite, HandleMiss;
        HandleMissesApart(cfg, d, xs[1..], accepts, k + 1, now, warmup);
      } else if HandleMiss(cfg, c, xs[0], accepts(k)).Some? {
        hide Apart, HandleMiss;
        MissApart(cfg, c, xs[0], accepts(k));
        HandleMissesApart(cfg, HandleMiss(cfg, c, xs[0], accepts(k)).value, xs[1..], accepts, k + 1, now, warmup);
      } else {
        hide Apart, HandleMiss;
        HandleMissesApart(cfg, c, xs[1..], accepts, k + 1, now, warmup);
      }
    }
  }

  lemma TagChecksApart(cfg: CacheConfig, c: Cache, accepts: nat -> bool, now: int, warmup: bool)
    requires Sized(cfg, c) && Apart(cfg, c.mshr, c.events)
    ensures var d := TagChecks(cfg, c, accepts, now, warmup); Apart(cfg, d.mshr, d.events)
  {
    var n := SpanLen(c.tags, cfg.maxTag, (x: Lookup) => x.ready <= now && x.translated);
    hide SpanLen, TryHits, HandleMisses, Sized, Apart;
    TryHitsApart(cfg, c, c.tags[..n]);
    var (d, misses) := TryHits(cfg, c, c.tags[..n]);
    HandleMissesApart(cfg, d, misses, accepts, 0, now, warmup);
  }

  lemma {:induction false} FinishAllApart(cfg: CacheConfig, c: Cache, addrs: seq<nat>, now: int, warmup: bool)
    requires Apart(cfg, c.mshr, c.events)
    ensures var d := FinishAll(cfg, c, addrs, now, warmup); Apart(cfg, d.mshr, d.events)
    decreases |addrs|
  {
    hide FindMshr, FirstUnreturned, BlockOf;
    if addrs != [] {
      var d := FinishPacket(cfg, c, addrs[0], now, warmup);
      assert Apart(cfg, d.mshr, d.events);
      hide Apart, FinishPacket;
      FinishAllApart(cfg, d, addrs[1..], now, warmup);
    }
  }

  lemma {:induction false} OperateApart(cfg: CacheConfig, c: Cache, y: Cycle)
    requires Sized(cfg, c) && VictimsOk(cfg, y.choices) && Apart(cfg, c.mshr, c.events)
    ensures var d := Operate(cfg, c, y); Apart(cfg, d.mshr, d.events)
  {
    var c1 := CheckChannels(cfg, c, 0);
    assert SameStore(c, c1);
    hide CheckChannels, FinishAll, TranslateEach, Fills, Initiate, Park, TagChecks, Apart, Sized, VictimsOk;
    var c2 := FinishAll(cfg, c1, y.returned, y.now, y.warmup);
    FinishAllApart(cfg, c1, y.returned, y.now, y.warmup);
    TranslateEachFrame(c2, y.pageBits, y.translations);
    ReturnsSized(cfg, c, y);
    var r := Returns(cfg, c, y);
    FillsApart(cfg, r, y.now, y.choices);
    var d := Fills(cfg, r, y.now, y.choices);
    InitiateFrame(cfg, d, y);
    var e := Initiate(cfg, d, y);
    ParkFrame(e, y);
    SameSized(cfg, d, Park(e, y));
    TagChecksApart(cfg, Park(e, y), y.accepts, y.now, y.warmup);
  }

  lemma InvSized(cfg: CacheConfig, c: Cache, acc: seq<Accepted>, y: Cycle)
    requires CacheRuns.Inv(cfg, c, acc, y.now, y.warmup) && CycleOk(cfg, Entered(cfg, c, acc, y).0, y)
    ensures Sized(cfg, Entered(cfg, c, acc, y).0) && VictimsOk(cfg, y.choices)
  {
    EnteredSame(cfg, c, acc, y.arrivals);
    hide Kept, Misses, Residency, ArriveAll, VictimsOk, ReturnsOk;
  }

  lemma {:induction false} RunApart(cfg: CacheConfig, channels: nat, ys: seq<Cycle>)
    requires RunOk(cfg, channels, ys)
    ensures var c := Run(cfg, channels, ys).0; Apart(cfg, c.mshr, c.events)
    decreases |ys|
  {
    hide CacheRuns.Inv, CycleOk, ArrivalsOk, NextOk, InvAfter, Operate, ArriveAll, Apart;
    if ys == [] {
      EmptyApart(cfg, channels);
    } else {
      var n, y := |ys| - 1, ys[|ys| - 1];
      var (c, acc) := Run(cfg, channels, ys[..n]);
      RunApart(cfg, channels, ys[..n]);
      NextInv(cfg, channels, c, acc, ys[..n], y);
      EnteredSame(cfg, c, acc, y.arrivals);
      InvSized(cfg, c, acc, y);
      OperateApart(cfg, Entered(cfg, c, acc, y).0, y);
    }
  }

  lemma EmptyApart(cfg: CacheConfig, channels: nat)
    ensures var c := Empty(cfg, channels); Apart(cfg, c.mshr, c.events)
  {
  }

  /** In any other cache no write is ever overtaken: a block that has been written stays dirty until
      it is written back, unless its fill bypasses the cache, which the source asserts it does not. */
  lemma {:induction false} NothingIsOvertaken(cfg: CacheConfig, channels: nat, ys: seq<Cycle>, b: nat)
    requires RunOk(cfg, channels, ys) && !cfg.MatchOffset()
    requires EverWritten(cfg, Run(cfg, channels, ys).0.events, b)
    ensures var c := Run(cfg, channels, ys).0;
      Dirty(cfg, c, b) || (var e := LastEvent(cfg, c.events, b); e.Some? && (e.value.WroteBack? || e.value.Bypassed?))
  {
    hide Run, RunOk, Dirty;
    RunApart(cfg, channels, ys);
    WrittenDataIsKept(cfg, channels, ys, b);
    WrittenHasLast(cfg, Run(cfg, channels, ys).0.events, b);
  }

  lemma {:induction false} WrittenHasLast(cfg: CacheConfig, events: seq<Event>, b: nat)
    ensures EverWritten(cfg, events, b) ==> LastEvent(cfg, events, b).Some?
    ensures LastEvent(cfg, events, b).Some? ==> LastEvent(cfg, events, b).value in events
  {
    hide BlockOf;
    if events != [] {
      var n := |events| - 1;
      WrittenHasLast(cfg, events[..n], b);
      if i :| 0 <= i < |events| && events[i].Wrote? && BlockOf(cfg, events[i].address) == b {
        if i < n { assert events[..n][i] == events[i]; }
      }
    }
  }
}
