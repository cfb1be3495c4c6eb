/** When a cache starts, fills and gives up: the times of lookups, misses and writes, and which
    blocks are evicted. */
module CacheTiming {
  import opened Sequences
  import opened Bits
  import opened Channels
  import opened Caches
  import CacheInvariant
  import opened CacheDiscipline
  import opened CacheRuns

  // ---- evictions ----

  /** From `b` to `d` no way loses its block unless its set is then full, and none becomes invalid. */
  ghost predicate LeavesFullSets(b: seq<seq<Way>>, d: seq<seq<Way>>) {
    && |d| == |b| && forall s :: 0 <= s < |b| ==>
      && |d[s]| == |b[s]|
      && (forall w :: 0 <= w < |b[s]| && b[s][w].valid ==> d[s][w].valid)
      && (forall w :: 0 <= w < |b[s]| && b[s][w].valid && d[s][w].address != b[s][w].address ==>
        forall v :: 0 <= v < |b[s]| ==> d[s][v].valid)
  }

  lemma LeavesChain(b: seq<seq<Way>>, d: seq<seq<Way>>, e: seq<seq<Way>>)
    requires LeavesFullSets(b, d) && LeavesFullSets(d, e)
    ensures LeavesFullSets(b, e)
  {
  }

  lemma LeavesSame(b: seq<seq<Way>>)
    ensures LeavesFullSets(b, b)
  {
  }

  lemma FillLeaves(cfg: CacheConfig, c: Cache, m: Mshr, choice: FillChoice)
    requires Sized(cfg, c) && choice.victim <= cfg.ways
    ensures var w := FillWay(cfg, c, m, choice.victim);
      LeavesFullSets(c.block, FillBlock(cfg, Evict(cfg, c, m, w, choice), m, w).block)
  {
    hide SetIndex, NeedsWriteback;
    var s := SetIndex(cfg, m.address);
    var k := FirstInvalid(c.block[s]);
    hide FirstInvalid;
  }

  lemma FilledLeaves(cfg: CacheConfig, c: Cache, q: seq<Mshr>, choices: nat -> FillChoice, k: nat)
    requires Sized(cfg, c) && q != [] && VictimsOk(cfg, choices)
    ensures LeavesFullSets(c.block, Filled(cfg, c, q, choices, k).block)
  {
    FillLeaves(cfg, c, q[0], choices(k));
    hide FillBlock, FillWay, Evict, LeavesFullSets;
  }

  lemma {:induction false} FillFromLeaves(cfg: CacheConfig, c: Cache, q: seq<Mshr>, n: nat, choices: nat -> FillChoice,
      k: nat)
    requires Sized(cfg, c) && n <= |q| && VictimsOk(cfg, choices)
    ensures LeavesFullSets(c.block, FillFrom(cfg, c, q, n, choices, k).0.block)
    decreases n
  {
    hide *;
    FillStep(cfg, c, q, n, choices, k);
    LeavesSame(c.block);
    if FillFrom(cfg, c, q, n, choices, k).1 > 0 {
      FilledLeaves(cfg, c, q, choices, k);
      FillFromLeaves(cfg, Filled(cfg, c, q, choices, k), q[1..], n - 1, choices, k + 1);
      LeavesChain(c.block, Filled(cfg, c, q, choices, k).block, FillFrom(cfg, c, q, n, choices, k).0.block);
    }
  }

  lemma {:induction false} FillsLeave(cfg: CacheConfig, c: Cache, now: int, choices: nat -> FillChoice)
    requires Sized(cfg, c) && VictimsOk(cfg, choices)
    ensures LeavesFullSets(c.block, Fills(cfg, c, now, choices).block)
  {
    hide SpanLen, FillFrom, VictimsOk, Sized, LeavesFullSets;
    var n := SpanLen(c.mshr, cfg.maxFill, (x: Mshr) => IsReady(x, now));
    FillFromLeaves(cfg, c, c.mshr, n, choices, 0);
    var (r, m) := FillMshrs(cfg, c, now, choices);
    var l := SpanLen(r.writes, cfg.maxFill - m, (x: Mshr) => IsReady(x, now));
    FillFromLeaves(cfg, r, r.writes, l, choices, m);
    LeavesChain(c.block, r.block, FillFrom(cfg, r, r.writes, l, choices, m).0.block);
  }

  lemma {:induction false} HitsLeave(cfg: CacheConfig, c: Cache, xs: seq<Lookup>)
    requires Sized(cfg, c)
    ensures LeavesFullSets(c.block, TryHits(cfg, c, xs).0.block)
    decreases |xs|
  {
    LeavesSame(c.block);
    if xs != [] {
      if Hits(cfg, c, xs[0]) {
        var d := TakeHit(cfg, c, xs[0]);
        assert LeavesFullSets(c.block, d.block) by { HitPlaces(cfg, c, xs[0]); hide TakeHit; }
        hide TakeHit, Hits, LeavesFullSets, Sized;
        HitsLeave(cfg, d, xs[1..]);
        LeavesChain(c.block, d.block, TryHits(cfg, c, xs).0.block);
      } else {
        hide TakeHit, Hits, LeavesFullSets, Sized;
        HitsLeave(cfg, c, xs[1..]);
      }
    }
  }

  lemma TagChecksLeave(cfg: CacheConfig, c: Cache, accepts: nat -> bool, now: int, warmup: bool)
    requires Sized(cfg, c)
    ensures LeavesFullSets(c.block, TagChecks(cfg, c, accepts, now, warmup).block)
  {
    hide SpanLen, TryHits, HandleMisses, Sized, LeavesFullSets;
    var n := SpanLen(c.tags, cfg.maxTag, (x: Lookup) => x.ready <= now && x.translated);
    HitsLeave(cfg, c, c.tags[..n]);
    var (d, misses) := TryHits(cfg, c, c.tags[..n]);
    HandleMissesBlock(cfg, d, misses, accepts, 0, now, warmup);
  }

  // ---- misses ----

  /** The state of the miss of block `b`: None if there is none, else when its data is ready. */
  ghost function DataOf(cfg: CacheConfig, q: seq<Mshr>, b: nat): Option<Option<int>> {
    if q == [] then None
    else if BlockOf(cfg, q[0].address) == b then Some(q[0].data)
    else DataOf(cfg, q[1..], b)
  }

  ghost predicate BlockIn(cfg: CacheConfig, addrs: seq<nat>, b: nat) {
    exists i :: 0 <= i < |addrs| && BlockOf(cfg, addrs[i]) == b
  }

  /** What a cycle may do to the miss of a block: allocate one; note that its data is back, ready at
      `at`, just when it is returned; and fill it, but not before it is ready. */
  ghost predicate MissStep(before: Option<Option<int>>, after: Option<Option<int>>, returned: bool, now: int, at: int) {
    match before
    case None => after == None || after == Some(None)
    case Some(None) =>
      if returned then after == Some(Some(at)) || (at <= now && (after == None || after == Some(None)))
      else after == Some(None)
    case Some(Some(v)) => after == before || (v <= now && (after == None || after == Some(None)))
  }

  lemma {:induction false} DataFound(cfg: CacheConfig, q: seq<Mshr>, k: nat)
    requires OneForEachBlock(cfg, q) && k < |q|
    ensures DataOf(cfg, q, BlockOf(cfg, q[k].address)) == Some(q[k].data)
  {
    hide BlockOf;
    if k > 0 {
      assert BlockOf(cfg, q[0].address) != BlockOf(cfg, q[k].address);
      var r := q[1..];
      assert forall i, j :: 0 <= i < j < |r| ==> r[i] == q[i + 1] && r[j] == q[j + 1];
      DataFound(cfg, r, k - 1);
    }
  }

  lemma {:induction false} DataMissing(cfg: CacheConfig, q: seq<Mshr>, b: nat)
    requires forall k :: 0 <= k < |q| ==> BlockOf(cfg, q[k].address) != b
    ensures DataOf(cfg, q, b) == None
  {
    hide BlockOf;
    if q != [] { DataMissing(cfg, q[1..], b); }
  }

  /** Entries of the same blocks with the same times, in any order, say the same. */
  lemma {:induction false} DataByEntries(cfg: CacheConfig, q: seq<Mshr>, b: nat)
    requires OneForEachBlock(cfg, q)
    ensures DataOf(cfg, q, b).Some? <==> exists k :: 0 <= k < |q| && BlockOf(cfg, q[k].address) == b
    ensures forall k :: 0 <= k < |q| && BlockOf(cfg, q[k].address) == b ==> DataOf(cfg, q, b) == Some(q[k].data)
  {
    hide BlockOf, OneForEachBlock, DataOf;
    if k :| 0 <= k < |q| && BlockOf(cfg, q[k].address) == b {
      forall j | 0 <= j < |q| && BlockOf(cfg, q[j].address) == b ensures DataOf(cfg, q, b) == Some(q[j].data) {
        DataFound(cfg, q, j);
      }
    } else {
      DataMissing(cfg, q, b);
    }
  }

  // ---- returns ----

  lemma ReturnData(cfg: CacheConfig, q: seq<Mshr>, k: nat, at: int, b: nat)
    requires OneForEachBlock(cfg, q) && k < |q| && FirstUnreturned(q) < |q| && q[k].data.None?
    ensures DataOf(cfg, Return(q, k, at), b) ==
      if BlockOf(cfg, q[k].address) == b then Some(Some(at)) else DataOf(cfg, q, b)
  {
    var r, f := Return(q, k, at), FirstUnreturned(q);
    ReturnDistinct(cfg, q, k, at);
    ReturnAddresses(q, k, at);
    assert forall j :: 0 <= j < |q| ==> r[j].data == if j == f then Some(at) else q[Origin(j, k, f)].data;
    DataByEntries(cfg, q, b);
    DataByEntries(cfg, r, b);
    hide BlockOf, Return, FirstUnreturned, OneForEachBlock, DataOf;
    if j :| 0 <= j < |q| && BlockOf(cfg, q[j].address) == b {
      assert Origin(Origin(j, k, f), k, f) == j;
      assert r[Origin(j, k, f)].address == q[j].address;
    }
    if j :| 0 <= j < |r| && BlockOf(cfg, r[j].address) == b {
      assert BlockOf(cfg, q[Origin(j, k, f)].address) == b;
    }
  }

  lemma {:induction false} FinishAllData(cfg: CacheConfig, c: Cache, addrs: seq<nat>, now: int, warmup: bool, b: nat)
    requires Misses(cfg, c.mshr, now, warmup) && ReturnsOk(cfg, c, addrs, now, warmup)
    ensures var d := FinishAll(cfg, c, addrs, now, warmup);
      && Misses(cfg, d.mshr, now, warmup)
      && DataOf(cfg, d.mshr, b) ==
        if BlockIn(cfg, addrs, b) then Some(Some(now + Latency(warmup, cfg.fillLatency))) else DataOf(cfg, c.mshr, b)
    ensures BlockIn(cfg, addrs, b) ==> DataOf(cfg, c.mshr, b) == Some(None)
    decreases |addrs|
  {
    hide BlockOf, DataOf, Return, FindMshr, FirstUnreturned, Latency, ReturnedFirst;
    if addrs != [] {
      FinishPacketMisses(cfg, c, addrs[0], now, warmup);
      FindReturnable(cfg, c.mshr, addrs[0]);
      var k := FindMshr(cfg, c.mshr, addrs[0]);
      ReturnData(cfg, c.mshr, k, now + Latency(warmup, cfg.fillLatency), b);
      DataByEntries(cfg, c.mshr, b);
      var d := FinishPacket(cfg, c, addrs[0], now, warmup);
      hide OneForEachBlock, Returnable;
      FinishAllData(cfg, d, addrs[1..], now, warmup, b);
      BlockInTail(cfg, addrs, b);
    }
  }

  lemma BlockInTail(cfg: CacheConfig, addrs: seq<nat>, b: nat)
    requires addrs != []
    ensures BlockIn(cfg, addrs, b) <==> BlockOf(cfg, addrs[0]) == b || BlockIn(cfg, addrs[1..], b)
  {
    hide BlockOf;
    if i :| 0 <= i < |addrs| && BlockOf(cfg, addrs[i]) == b { assert i > 0 ==> addrs[1..][i - 1] == addrs[i]; }
    if i :| 0 <= i < |addrs[1..]| && BlockOf(cfg, addrs[1..][i]) == b { assert addrs[i + 1] == addrs[1..][i]; }
  }

  // ---- fills and new misses ----

  lemma DropData(cfg: CacheConfig, q: seq<Mshr>, m: nat, now: int, b: nat)
    requires OneForEachBlock(cfg, q) && m <= |q| && forall k :: 0 <= k < m ==> IsReady(q[k], now)
    ensures var x, z := DataOf(cfg, q, b), DataOf(cfg, q[m..], b);
      z == x || (z == None && x.Some? && x.value.Some? && x.value.value <= now)
  {
    hide BlockOf;
    var r := q[m..];
    assert OneForEachBlock(cfg, r);
    DataByEntries(cfg, q, b);
    DataByEntries(cfg, r, b);
    hide DataOf;
    if k :| 0 <= k < |q| && BlockOf(cfg, q[k].address) == b {
      if k >= m { assert r[k - m] == q[k]; }
    }
    if k :| 0 <= k < |r| && BlockOf(cfg, r[k].address) == b { assert q[k + m] == r[k]; }
  }

  lemma {:induction false} FillsData(cfg: CacheConfig, c: Cache, now: int, choices: nat -> FillChoice, b: nat)
    requires Sized(cfg, c) && VictimsOk(cfg, choices) && OneForEachBlock(cfg, c.mshr)
    ensures var x, z := DataOf(cfg, c.mshr, b), DataOf(cfg, Fills(cfg, c, now, choices).mshr, b);
      z == x || (z == None && x.Some? && x.value.Some? && x.value.value <= now)
  {
    var n := SpanLen(c.mshr, cfg.maxFill, (x: Mshr) => IsReady(x, now));
    hide SpanLen, FillFrom, VictimsOk, Sized, DataOf, IsReady, OneForEachBlock;
    CacheInvariant.FillFromFrame(cfg, c, c.mshr, n, choices, 0);
    var (r, m) := FillMshrs(cfg, c, now, choices);
    DropData(cfg, c.mshr, m, now, b);
    var l := SpanLen(r.writes, cfg.maxFill - m, (x: Mshr) => IsReady(x, now));
    CacheInvariant.FillFromFrame(cfg, r, r.writes, l, choices, m);
  }

  lemma MissData(cfg: CacheConfig, c: Cache, x: Lookup, accepted: bool, b: nat)
    requires HandleMiss(cfg, c, x, accepted).Some? && OneForEachBlock(cfg, c.mshr)
    ensures var v, z := DataOf(cfg, c.mshr, b), DataOf(cfg, HandleMiss(cfg, c, x, accepted).value.mshr, b);
      OneForEachBlock(cfg, HandleMiss(cfg, c, x, accepted).value.mshr) && (z == v || (v == None && z == Some(None)))
  {
    hide BlockOf;
    var q, k := c.mshr, FindMshr(cfg, c.mshr, x.address);
    var r := HandleMiss(cfg, c, x, accepted).value.mshr;
    if k < |q| { CacheDiscipline.MergeFields(q[k], MshrOf(x)); }
    hide Merge, FindMshr;
    assert OneForEachBlock(cfg, r);
    DataByEntries(cfg, q, b);
    DataByEntries(cfg, r, b);
    hide DataOf;
    if j :| 0 <= j < |q| && BlockOf(cfg, q[j].address) == b {
      assert BlockOf(cfg, r[j].address) == b && r[j].data == q[j].data;
    }
    if j :| 0 <= j < |r| && BlockOf(cfg, r[j].address) == b {
      assert j < |q| ==> BlockOf(cfg, q[j].address) == b;
    }
  }

  lemma {:induction false} HandleMissesData(cfg: CacheConfig, c: Cache, xs: seq<Lookup>, accepts: nat -> bool, k: nat,
      now: int, warmup: bool, b: nat)
    requires OneForEachBlock(cfg, c.mshr)
    ensures var v, z := DataOf(cfg, c.mshr, b),
      DataOf(cfg, HandleMisses(cfg, c, xs, accepts, k, now, warmup).0.mshr, b);
      z == v || (v == None && z == Some(None))
    decreases |xs|
  {
    hide OneForEachBlock, HandleMiss, DataOf;
    if xs != [] {
      if xs[0].kind == Write && !cfg.MatchOffset() {
        HandleMissesData(cfg, HandleWrite(cfg, c, xs[0], now, warmup), xs[1..], accepts, k + 1, now, warmup, b);
      } else if HandleMiss(cfg, c, xs[0], accepts(k)).Some? {
        MissData(cfg, c, xs[0], accepts(k), b);
        HandleMissesData(cfg, HandleMiss(cfg, c, xs[0], accepts(k)).value, xs[1..], accepts, k + 1, now, warmup, b);
      } else {
        HandleMissesData(cfg, c, xs[1..], accepts, k + 1, now, warmup, b);
      }
    }
  }

  lemma {:induction false} TagChecksData(cfg: CacheConfig, c: Cache, accepts: nat -> bool, now: int, warmup: bool,
      b: nat)
    requires Sized(cfg, c) && OneForEachBlock(cfg, c.mshr)
    ensures var v, z := DataOf(cfg, c.mshr, b), DataOf(cfg, TagChecks(cfg, c, accepts, now, warmup).mshr, b);
      z == v || (v == None && z == Some(None))
  {
    hide SpanLen, TryHits, HandleMisses, OneForEachBlock, DataOf, Sized;
    var n := SpanLen(c.tags, cfg.maxTag, (x: Lookup) => x.ready <= now && x.translated);
    TryHitsMshr(cfg, c, c.tags[..n]);
    var (d, misses) := TryHits(cfg, c, c.tags[..n]);
    HandleMissesData(cfg, d, misses, accepts, 0, now, warmup, b);
  }

  // ---- writes ----

  /** Writes leave in order, only ready ones, and enter at the end with their time. */
  ghost predicate WritesStep(q: seq<Mshr>, r: seq<Mshr>, m: nat, now: int, at: int) {
    && m <= |q| <= |r| + m && r[..|q| - m] == q[m..]
    && (forall i :: 0 <= i < m ==> q[i].data.Some? && q[i].data.value <= now)
    && (forall i :: |q| - m <= i < |r| ==> r[i].kind == Write && r[i].data == Some(at))
  }

  lemma {:induction false} FillsWrites(cfg: CacheConfig, c: Cache, now: int,
      choices: nat -> FillChoice) returns (m: nat)
    requires Sized(cfg, c) && VictimsOk(cfg, choices)
    ensures m <= |c.writes| && Fills(cfg, c, now, choices).writes == c.writes[m..]
    ensures forall i :: 0 <= i < m ==> IsReady(c.writes[i], now)
  {
    var n := SpanLen(c.mshr, cfg.maxFill, (x: Mshr) => IsReady(x, now));
    hide SpanLen, FillFrom, VictimsOk, Sized, IsReady;
    CacheInvariant.FillFromFrame(cfg, c, c.mshr, n, choices, 0);
    var (r, k) := FillMshrs(cfg, c, now, choices);
    var l := SpanLen(r.writes, cfg.maxFill - k, (x: Mshr) => IsReady(x, now));
    CacheInvariant.FillFromFrame(cfg, r, r.writes, l, choices, k);
    m := FillFrom(cfg, r, r.writes, l, choices, k).1;
  }

  lemma {:induction false} HandleMissesWrites(cfg: CacheConfig, c: Cache, xs: seq<Lookup>, accepts: nat -> bool, k: nat,
      now: int, warmup: bool)
    ensures WritesStep(c.writes, HandleMisses(cfg, c, xs, accepts, k, now, warmup).0.writes, 0, now, now
      + Latency(warmup, cfg.fillLatency))
    decreases |xs|
  {
    var at := now + Latency(warmup, cfg.fillLatency);
    if xs == [] {
      assert c.writes[..|c.writes|] == c.writes[0..];
    } else if xs[0].kind == Write && !cfg.MatchOffset() {
      var d := HandleWrite(cfg, c, xs[0], now, warmup);
      HandleMissesWrites(cfg, d, xs[1..], accepts, k + 1, now, warmup);
      var r := HandleMisses(cfg, d, xs[1..], accepts, k + 1, now, warmup).0.writes;
      OneMoreWrite(c.writes, d.writes, r, now, at);
    } else {
      hide HandleWrite, FindMshr, Merge, WritesStep, Latency;
      var d := HandleMiss(cfg, c, xs[0], accepts(k));
      assert d.Some? ==> d.value.writes == c.writes;
      HandleMissesWrites(cfg, if d.Some? then d.value else c, xs[1..], accepts, k + 1, now, warmup);
    }
  }

  lemma OneMoreWrite(q: seq<Mshr>, d: seq<Mshr>, r: seq<Mshr>, now: int, at: int)
    requires |d| == |q| + 1 && d[..|q|] == q && d[|q|].kind == Write && d[|q|].data == Some(at)
    requires WritesStep(d, r, 0, now, at)
    ensures WritesStep(q, r, 0, now, at)
  {
    assert r[..|q|] == r[..|d|][..|q|] == q;
    assert r[|q|] == r[..|d|][|q|];
    assert q[0..] == q;
  }

  // ---- lookups ----

  /** The same lookup, perhaps translated or its translation asked for since. */
  ghost predicate Same(x: Lookup, z: Lookup) {
    z == x.(address := z.address, translated := z.translated, issued := z.issued)
  }

  ghost predicate Among(s: seq<Lookup>, z: Lookup) {
    exists x :: x in s && Same(x, z)
  }

  /** Every lookup of `s` that is not due stays, and every one of `t` is of `s` or starts now, translated
      if there is no room for others. */
  ghost predicate TagsStep(s: seq<Lookup>, t: seq<Lookup>, room: bool, now: int, at: int) {
    && (forall x :: x in s && x.ready > now ==> StaysIn(x, t))
    && (forall z :: z in t ==> Among(s, z) || Starts(z, room, at))
  }

  ghost predicate StaysIn(x: Lookup, t: seq<Lookup>) {
    exists z :: z in t && Same(x, z)
  }

  ghost predicate Starts(z: Lookup, room: bool, at: int) {
    z.ready == at && (z.translated || room)
  }

  lemma SameTwice(x: Lookup, z: Lookup, v: Lookup)
    requires Same(x, z) && Same(z, v)
    ensures Same(x, v)
  {
  }

  /** Two steps in a row, of which the first starts nothing. */
  lemma TagsAfter(s: seq<Lookup>, t: seq<Lookup>, u: seq<Lookup>, room: bool, now: int, at: int)
    requires (forall x :: x in s ==> StaysIn(x, t)) && (forall z :: z in t ==> Among(s, z))
    requires TagsStep(t, u, room, now, at)
    ensures TagsStep(s, u, room, now, at)
  {
    hide Same, Starts;
    forall x | x in s && x.ready > now ensures StaysIn(x, u) {
      assert StaysIn(x, t);
      var z :| z in t && Same(x, z);
      SameReady(x, z);
      assert StaysIn(z, u);
      var v :| v in u && Same(z, v);
      SameTwice(x, z, v);
    }
    forall v | v in u ensures Among(s, v) || Starts(v, room, at) {
      if Among(t, v) {
        var z :| z in t && Same(z, v);
        assert Among(s, z);
        var x :| x in s && Same(x, z);
        SameTwice(x, z, v);
      }
    }
  }

  lemma TranslateTags(s: seq<Lookup>, pageBits: nat, vpage: nat, ppage: nat)
    ensures var t := TranslateAll(s, pageBits, vpage, ppage);
      (forall x :: x in s ==> StaysIn(x, t)) && (forall z :: z in t ==> Among(s, z))
  {
    hide Shr, Low, Shl;
    var t := TranslateAll(s, pageBits, vpage, ppage);
    forall i | 0 <= i < |s| ensures Same(s[i], t[i]) { }
    hide Translate, Same;
    forall x | x in s ensures StaysIn(x, t) {
      var i :| 0 <= i < |s| && s[i] == x;
      assert t[i] in t;
    }
    forall z | z in t ensures Among(s, z) {
      var i :| 0 <= i < |t| && t[i] == z;
      assert s[i] in s;
    }
  }

  lemma {:induction false} TranslateEachTags(c: Cache, pageBits: nat, ts: seq<(nat, nat)>, u: seq<Lookup>, room: bool,
      now: int, at: int)
    requires TagsStep(TranslateEach(c, pageBits, ts).tags, u, room, now, at)
    ensures TagsStep(c.tags, u, room, now, at)
    decreases |ts|
  {
    hide TagsStep, FinishStash, StaysIn, Among, TranslateAll;
    if ts != [] {
      var d := FinishTranslation(c, pageBits, ts[0].0, ts[0].1);
      TranslateEachTags(d, pageBits, ts[1..], u, room, now, at);
      TranslateTags(c.tags, pageBits, ts[0].0, ts[0].1);
      TagsAfter(c.tags, d.tags, u, room, now, at);
    }
  }

  lemma {:induction false} StashSize(s: seq<Lookup>, p: Lookup -> bool)
    ensures |Select(s, p, true)| + |Select(s, p, false)| == |s|
  {
    if s != [] { StashSize(s[1..], p); }
  }

  lemma {:induction false} TranslateEachStash(c: Cache, pageBits: nat, ts: seq<(nat, nat)>)
    ensures |TranslateEach(c, pageBits, ts).stash| == |c.stash|
    decreases |ts|
  {
    hide Select, Translate, Shr;
    if ts != [] {
      var vpage := ts[0].0;
      StashSize(c.stash[LeadingTranslated(c.stash)..], (x: Lookup) => !x.translated && Shr(x.vaddr, pageBits) == vpage);
      TranslateEachStash(FinishTranslation(c, pageBits, ts[0].0, ts[0].1), pageBits, ts[1..]);
    }
  }

  // ---- starting ----

  /** What starting adds. */
  ghost predicate Adds(s: seq<Lookup>, t: seq<Lookup>, room: bool, at: int) {
    |s| <= |t| && t[..|s|] == s && forall i :: |s| <= i < |t| ==> Starts(t[i], room, at)
  }

  lemma AddsChain(s: seq<Lookup>, t: seq<Lookup>, u: seq<Lookup>, room: bool, at: int)
    requires Adds(s, t, room, at) && Adds(t, u, room, at)
    ensures Adds(s, u, room, at)
  {
    hide Starts;
    assert u[..|s|] == u[..|t|][..|s|] == s;
    forall i | |s| <= i < |u| ensures Starts(u[i], room, at) {
      if i < |t| { assert u[i] == u[..|t|][i] == t[i]; }
    }
  }

  lemma StashAdds(c: Cache, n: nat, room: bool, at: int)
    ensures Adds(c.tags, TakeStash(c, n, at).tags, room, at)
  {
    var k := SpanLen(c.stash, n, (x: Lookup) => x.translated);
    hide SpanLen;
  }

  lemma InternalAdds(c: Cache, n: nat, room: bool, at: int)
    ensures Adds(c.tags, TakeInternal(c, n, room, at).tags, room, at)
  {
    var k := SpanLen(c.internal, n, (x: Lookup) => room || x.translated);
    hide SpanLen;
  }

  lemma LookupsStart(q: seq<Request>, k: nat, n: nat, room: bool, channel: nat, at: int)
    requires k == Allowed(q, n, room)
    ensures forall i :: 0 <= i < k ==> Starts(LookupsOf(q[..k], channel, at)[i], room, at)
  {
    hide SpanLen;
  }

  lemma ChannelAdds(c: Cache, i: nat, s: Share, room: bool, at: int)
    requires i < |c.channels|
    ensures Adds(c.tags, TakeChannel(c, i, s, room, at).tags, room, at)
  {
    var q := c.channels[i];
    var w, r, p := Allowed(q.wq, s.wq, room), Allowed(q.rq, s.rq, room), Allowed(q.pq, s.pq, room);
    LookupsStart(q.wq, w, s.wq, room, i, at);
    LookupsStart(q.rq, r, s.rq, room, i, at);
    LookupsStart(q.pq, p, s.pq, room, i, at);
    hide Allowed, LookupsOf, Starts;
    var a, b, d := LookupsOf(q.wq[..w], i, at), LookupsOf(q.rq[..r], i, at), LookupsOf(q.pq[..p], i, at);
    assert TakeChannel(c, i, s, room, at).tags == c.tags + (a + b + d);
  }

  lemma {:induction false} ChannelsAdd(c: Cache, order: seq<nat>, shares: nat -> Share, room: bool, at: int)
    ensures Adds(c.tags, TakeChannels(c, order, shares, room, at).tags, room, at)
    decreases |order|
  {
    hide TakeChannel, Starts;
    if order != [] {
      var d := if order[0] < |c.channels| then TakeChannel(c, order[0], shares(order[0]), room, at) else c;
      if order[0] < |c.channels| { ChannelAdds(c, order[0], shares(order[0]), room, at); }
      ChannelsAdd(d, order[1..], shares, room, at);
      AddsChain(c.tags, d.tags, TakeChannels(c, order, shares, room, at).tags, room, at);
    }
  }

  lemma InitiateAdds(cfg: CacheConfig, c: Cache, y: Cycle)
    ensures Adds(c.tags, Initiate(cfg, c, y).tags, |c.stash| < cfg.mshrSize, y.now + Latency(y.warmup, cfg.hitLatency))
  {
    hide TakeStash, TakeChannels, TakeInternal, Adds, Latency;
    var room, at := |c.stash| < cfg.mshrSize, y.now + Latency(y.warmup, cfg.hitLatency);
    var d := TakeStash(c, y.stashShare, at);
    StashAdds(c, y.stashShare, room, at);
    ChannelsAdd(d, y.order, y.shares, room, at);
    var e := TakeChannels(d, y.order, y.shares, room, at);
    AddsChain(c.tags, d.tags, e.tags, room, at);
    InternalAdds(e, y.internalShare, room, at);
    AddsChain(c.tags, e.tags, Initiate(cfg, c, y).tags, room, at);
  }

  // ---- leaving ----

  lemma {:induction false} Selected(s: seq<Lookup>, p: Lookup -> bool, x: Lookup)
    requires x in s
    ensures x in Select(s, p, p(x))
  {
    if s[0] != x { Selected(s[1..], p, x); }
  }

  /** A lookup of `s`, perhaps with its translation asked for since. */
  ghost predicate IssuedFrom(s: seq<Lookup>, z: Lookup) {
    exists x :: x in s && z == x.(issued := z.issued)
  }

  lemma ParkTags(c: Cache, y: Cycle, t: seq<Lookup>)
    requires forall x :: x in Park(c, y).tags && x.ready > y.now ==> x in t
    requires forall z :: z in t ==> z in Park(c, y).tags
    ensures forall x :: x in c.tags && x.ready > y.now ==> StaysIn(x, t)
    ensures forall z :: z in t ==> IssuedFrom(c.tags, z)
  {
    var u := Issue(c.tags, y.issueTags);
    var p := (x: Lookup) => x.ready <= y.now && !x.translated;
    assert Park(c, y).tags == Select(u, p, false);
    forall i | 0 <= i < |u| ensures Same(c.tags[i], u[i]) && u[i] == c.tags[i].(issued := u[i].issued) { }
    hide Issue, Select, Same;
    forall x | x in c.tags && x.ready > y.now ensures StaysIn(x, t) {
      var i :| 0 <= i < |c.tags| && c.tags[i] == x;
      assert u[i].ready == x.ready by { SameReady(x, u[i]); }
      Selected(u, p, u[i]);
    }
    forall z | z in t ensures IssuedFrom(c.tags, z) {
      assert z in u;
      var i :| 0 <= i < |u| && u[i] == z;
      assert c.tags[i] in c.tags;
    }
  }

  lemma SameReady(x: Lookup, z: Lookup)
    requires Same(x, z)
    ensures z.ready == x.ready
  {
  }

  lemma {:induction false} MissesAmong(cfg: CacheConfig, c: Cache, xs: seq<Lookup>)
    requires Sized(cfg, c)
    ensures forall x :: x in TryHits(cfg, c, xs).1 ==> x in xs
    decreases |xs|
  {
    hide Hits, TakeHit, Sized;
    if xs != [] {
      if Hits(cfg, c, xs[0]) {
        MissesAmong(cfg, TakeHit(cfg, c, xs[0]), xs[1..]);
      } else { MissesAmong(cfg, c, xs[1..]); }
    }
  }

  lemma {:induction false} AgainAmong(cfg: CacheConfig, c: Cache, xs: seq<Lookup>, accepts: nat -> bool, k: nat,
      now: int, warmup: bool)
    ensures forall x :: x in HandleMisses(cfg, c, xs, accepts, k, now, warmup).1 ==> x in xs
    decreases |xs|
  {
    hide HandleMiss, HandleWrite;
    if xs != [] {
      if xs[0].kind == Write && !cfg.MatchOffset() {
        AgainAmong(cfg, HandleWrite(cfg, c, xs[0], now, warmup), xs[1..], accepts, k + 1, now, warmup);
      } else if HandleMiss(cfg, c, xs[0], accepts(k)).Some? {
        AgainAmong(cfg, HandleMiss(cfg, c, xs[0], accepts(k)).value, xs[1..], accepts, k + 1, now, warmup);
      } else {
        AgainAmong(cfg, c, xs[1..], accepts, k + 1, now, warmup);
      }
    }
  }

  lemma TagChecksTags(cfg: CacheConfig, c: Cache, accepts: nat -> bool, now: int, warmup: bool)
    requires Sized(cfg, c)
    ensures var t := TagChecks(cfg, c, accepts, now, warmup).tags;
      && (forall x :: x in c.tags && !(x.ready <= now && x.translated) ==> x in t)
      && (forall z :: z in t ==> z in c.tags)
  {
    var n := SpanLen(c.tags, cfg.maxTag, (x: Lookup) => x.ready <= now && x.translated);
    hide SpanLen, TryHits, HandleMisses, Sized;
    var (d, misses) := TryHits(cfg, c, c.tags[..n]);
    MissesAmong(cfg, c, c.tags[..n]);
    AgainAmong(cfg, d, misses, accepts, 0, now, warmup);
    assert c.tags == c.tags[..n] + c.tags[n..];
    forall x | x in c.tags[..n] ensures x.ready <= now && x.translated {
      var i :| 0 <= i < n && c.tags[..n][i] == x;
      assert c.tags[i] == x;
    }
  }

  /** From the start of the lookups to the end of the cycle. */
  lemma StartToEnd(cfg: CacheConfig, c: Cache, y: Cycle)
    requires Sized(cfg, Park(Initiate(cfg, c, y), y))
    ensures TagsStep(c.tags, TagChecks(cfg, Park(Initiate(cfg, c, y), y), y.accepts, y.now, y.warmup).tags,
      |c.stash| < cfg.mshrSize, y.now, y.now + Latency(y.warmup, cfg.hitLatency))
  {
    hide Initiate, Park, TagChecks, Latency, Sized, Same;
    var d := Initiate(cfg, c, y);
    var e := Park(d, y);
    var t := TagChecks(cfg, e, y.accepts, y.now, y.warmup).tags;
    TagChecksTags(cfg, e, y.accepts, y.now, y.warmup);
    ParkTags(d, y, t);
    InitiateAdds(cfg, c, y);
    AddedOrThere(c.tags, d.tags, t, |c.stash| < cfg.mshrSize, y.now, y.now + Latency(y.warmup, cfg.hitLatency));
  }

  lemma AddedOrThere(s: seq<Lookup>, d: seq<Lookup>, t: seq<Lookup>, room: bool, now: int, at: int)
    requires Adds(s, d, room, at)
    requires forall x :: x in d && x.ready > now ==> StaysIn(x, t)
    requires forall z :: z in t ==> IssuedFrom(d, z)
    ensures TagsStep(s, t, room, now, at)
  {
    forall x | x in s && x.ready > now ensures StaysIn(x, t) { assert x in d[..|s|]; }
    forall z | z in t ensures Among(s, z) || Starts(z, room, at) {
      var x :| x in d && z == x.(issued := z.issued);
      var i :| 0 <= i < |d| && d[i] == x;
      if i < |s| {
        assert d[..|s|][i] == x && x in s;
        assert Same(x, z);
      }
    }
  }

  // ---- a cycle ----

  /** What a cycle does: only full sets lose blocks; lookups wait out the hit latency, misses and
      writes the fill latency. */
  ghost predicate CycleTimed(cfg: CacheConfig, c: Cache, t: Cache, y: Cycle) {
    TimedBy(cfg, c, t, y, if y.warmup then y.now else y.now + cfg.hitLatency,
      if y.warmup then y.now else y.now + cfg.fillLatency)
  }

  ghost predicate TimedBy(cfg: CacheConfig, c: Cache, t: Cache, y: Cycle, hit: int, fill: int) {
    && LeavesFullSets(c.block, t.block)
    && (forall b: nat ::
      MissStep(DataOf(cfg, c.mshr, b), DataOf(cfg, t.mshr, b), BlockIn(cfg, y.returned, b), y.now, fill))
    && (exists m: nat :: WritesStep(c.writes, t.writes, m, y.now, fill))
    && TagsStep(c.tags, t.tags, |c.stash| < cfg.mshrSize, y.now, hit)
  }

  lemma MissChain(x: Option<Option<int>>, u: Option<Option<int>>, v: Option<Option<int>>, z: Option<Option<int>>,
      returned: bool, now: int, at: int)
    requires (returned ==> x == Some(None)) && u == if returned then Some(Some(at)) else x
    requires v == u || (v == None && u.Some? && u.value.Some? && u.value.value <= now)
    requires z == v || (v == None && z == Some(None))
    ensures MissStep(x, z, returned, now, at)
  {
  }

  lemma {:induction false} OperateMisses(cfg: CacheConfig, c: Cache, acc: seq<Accepted>, y: Cycle, b: nat)
    requires Inv(cfg, c, acc, y.now, y.warmup) && CycleOk(cfg, c, y)
    ensures Sized(cfg, c) && VictimsOk(cfg, y.choices)
    ensures MissStep(DataOf(cfg, c.mshr, b), DataOf(cfg, Operate(cfg, c, y).mshr, b), BlockIn(cfg, y.returned, b),
      y.now,
      y.now + Latency(y.warmup, cfg.fillLatency))
  {
    hide *;
    OperateParts(cfg, c, acc, y);
    var c1 := CheckChannels(cfg, c, 0);
    var c2 := FinishAll(cfg, c1, y.returned, y.now, y.warmup);
    FinishAllData(cfg, c1, y.returned, y.now, y.warmup, b);
    var r := Returns(cfg, c, y);
    var d := Fills(cfg, r, y.now, y.choices);
    MissesOne(cfg, r.mshr, y.now, y.warmup);
    FillsData(cfg, r, y.now, y.choices, b);
    var e := Park(Initiate(cfg, d, y), y);
    MissesOne(cfg, e.mshr, y.now, y.warmup);
    TagChecksData(cfg, e, y.accepts, y.now, y.warmup, b);
    MissChain(DataOf(cfg, c.mshr, b), DataOf(cfg, r.mshr, b), DataOf(cfg, d.mshr, b),
      DataOf(cfg, Operate(cfg, c, y).mshr, b), BlockIn(cfg, y.returned, b), y.now,
      y.now + Latency(y.warmup, cfg.fillLatency));
  }

  lemma StoreOf(cfg: CacheConfig, c: Cache, acc: seq<Accepted>, y: Cycle)
    requires Inv(cfg, c, acc, y.now, y.warmup) && CycleOk(cfg, c, y)
    ensures Sized(cfg, c) && VictimsOk(cfg, y.choices) && Misses(cfg, c.mshr, y.now, y.warmup)
    ensures ReturnsOk(cfg, CheckChannels(cfg, c, 0), y.returned, y.now, y.warmup)
    ensures var d := CheckChannels(cfg, c, 0); SameStore(c, d) && d.tags == c.tags && d.stash == c.stash
  {
    hide CacheInvariant.Kept, Residency, OneForEachBlock, ReturnedFirst, VictimsOk, ReturnsOk, CheckChannels;
  }

  lemma ReturnsFrame(cfg: CacheConfig, c: Cache, y: Cycle)
    ensures var c1 := CheckChannels(cfg, c, 0);
      var r := Returns(cfg, c, y);
      && r.block == c1.block && r.writes == c1.writes
      && r.mshr == FinishAll(cfg, c1, y.returned, y.now, y.warmup).mshr
      && |r.stash| == |c1.stash| && r.tags == TranslateEach(FinishAll(cfg, c1, y.returned, y.now, y.warmup), y.pageBits,
        y.translations).tags
      && FinishAll(cfg, c1, y.returned, y.now, y.warmup).tags == c1.tags
  {
    hide CheckChannels, FinishAll, TranslateEach;
    var c1 := CheckChannels(cfg, c, 0);
    var c2 := FinishAll(cfg, c1, y.returned, y.now, y.warmup);
    FinishAllFrame(cfg, c1, y.returned, y.now, y.warmup);
    FinishAllLookups(cfg, c1, y.returned, y.now, y.warmup);
    TranslateEachFrame(c2, y.pageBits, y.translations);
    TranslateEachStash(c2, y.pageBits, y.translations);
  }

  lemma {:induction false} FinishAllLookups(cfg: CacheConfig, c: Cache, addrs: seq<nat>, now: int, warmup: bool)
    ensures var d := FinishAll(cfg, c, addrs, now, warmup); d.tags == c.tags && d.stash == c.stash
    decreases |addrs|
  {
    if addrs != [] {
      hide FindMshr, FirstUnreturned, Return;
      FinishAllLookups(cfg, FinishPacket(cfg, c, addrs[0], now, warmup), addrs[1..], now, warmup);
    }
  }

  lemma FillsLookups(cfg: CacheConfig, c: Cache, now: int, choices: nat -> FillChoice)
    requires Sized(cfg, c) && VictimsOk(cfg, choices)
    ensures var d := Fills(cfg, c, now, choices); d.tags == c.tags && d.stash == c.stash
  {
    var n := SpanLen(c.mshr, cfg.maxFill, (x: Mshr) => IsReady(x, now));
    hide SpanLen, FillFrom, VictimsOk, Sized, IsReady;
    CacheInvariant.FillFromFrame(cfg, c, c.mshr, n, choices, 0);
    var (r, m) := FillMshrs(cfg, c, now, choices);
    var l := SpanLen(r.writes, cfg.maxFill - m, (x: Mshr) => IsReady(x, now));
    CacheInvariant.FillFromFrame(cfg, r, r.writes, l, choices, m);
  }

  lemma ParkSame(c: Cache, y: Cycle)
    ensures SameStore(c, Park(c, y))
  {
    hide Issue, Select;
  }

  lemma MissesOne(cfg: CacheConfig, q: seq<Mshr>, now: int, warmup: bool)
    requires Misses(cfg, q, now, warmup)
    ensures OneForEachBlock(cfg, q)
  {
  }

  /** The stages of a cycle, and what the ones that are not about the store leave alone. */
  lemma {:induction false} OperateParts(cfg: CacheConfig, c: Cache, acc: seq<Accepted>, y: Cycle)
    requires Inv(cfg, c, acc, y.now, y.warmup) && CycleOk(cfg, c, y)
    ensures Sized(cfg, c) && VictimsOk(cfg, y.choices)
    ensures var c1 := CheckChannels(cfg, c, 0);
      && Misses(cfg, c1.mshr, y.now, y.warmup) && ReturnsOk(cfg, c1, y.returned, y.now, y.warmup)
      && c1.mshr == c.mshr && c1.block == c.block && c1.writes == c.writes && c1.tags == c.tags && c1.stash == c.stash
      && Returns(cfg, c, y).mshr == FinishAll(cfg, c1, y.returned, y.now, y.warmup).mshr
    ensures var r := Returns(cfg, c, y);
      && Sized(cfg, r) && r.block == c.block && r.writes == c.writes && Misses(cfg, r.mshr, y.now, y.warmup)
      && var d := Fills(cfg, r, y.now, y.choices);
      && d.tags == r.tags && d.stash == r.stash
      && var e := Park(Initiate(cfg, d, y), y);
      && Sized(cfg, e) && e.mshr == d.mshr && e.block == d.block && e.writes == d.writes
        && Misses(cfg, e.mshr, y.now, y.warmup)
      && Operate(cfg, c, y) == TagChecks(cfg, e, y.accepts, y.now, y.warmup)
  {
    StoreOf(cfg, c, acc, y);
    ReturnsKeep(cfg, c, acc, y);
    ReturnsSized(cfg, c, y);
    ReturnsFrame(cfg, c, y);
    hide CheckChannels, Returns, Fills, Initiate, Park, TagChecks, FinishAll, CacheInvariant.Kept, Residency, VictimsOk,
      ReturnsOk, OneForEachBlock, ReturnedFirst, Sized;
    var r := Returns(cfg, c, y);
    FillsInv(cfg, r, acc, y.now, y.choices, y.warmup);
    var d := Fills(cfg, r, y.now, y.choices);
    FillsLookups(cfg, r, y.now, y.choices);
    InitiateFrame(cfg, d, y);
    ParkSame(Initiate(cfg, d, y), y);
    SameSized(cfg, d, Park(Initiate(cfg, d, y), y));
  }

  lemma {:induction false} OperateBlocks(cfg: CacheConfig, c: Cache, acc: seq<Accepted>, y: Cycle)
    requires Inv(cfg, c, acc, y.now, y.warmup) && CycleOk(cfg, c, y)
    ensures Sized(cfg, c) && VictimsOk(cfg, y.choices)
    ensures LeavesFullSets(c.block, Operate(cfg, c, y).block)
  {
    hide *;
    OperateParts(cfg, c, acc, y);
    var d := Fills(cfg, Returns(cfg, c, y), y.now, y.choices);
    FillsLeave(cfg, Returns(cfg, c, y), y.now, y.choices);
    TagChecksLeave(cfg, Park(Initiate(cfg, d, y), y), y.accepts, y.now, y.warmup);
    LeavesChain(c.block, d.block, Operate(cfg, c, y).block);
  }

  lemma {:induction false} OperateWrites(cfg: CacheConfig, c: Cache, acc: seq<Accepted>, y: Cycle) returns (m: nat)
    requires Inv(cfg, c, acc, y.now, y.warmup) && CycleOk(cfg, c, y)
    ensures Sized(cfg, c) && VictimsOk(cfg, y.choices)
    ensures WritesStep(c.writes, Operate(cfg, c, y).writes, m, y.now, y.now + Latency(y.warmup, cfg.fillLatency))
  {
    hide *;
    OperateParts(cfg, c, acc, y);
    var r := Returns(cfg, c, y);
    m := FillsWrites(cfg, r, y.now, y.choices);
    var e := Park(Initiate(cfg, Fills(cfg, r, y.now, y.choices), y), y);
    TagChecksWrites(cfg, e, y.accepts, y.now, y.warmup);
    WritesChain(c.writes, e.writes, Operate(cfg, c, y).writes, m, y.now, y.now + Latency(y.warmup, cfg.fillLatency));
  }

  lemma TagChecksWrites(cfg: CacheConfig, c: Cache, accepts: nat -> bool, now: int, warmup: bool)
    requires Sized(cfg, c)
    ensures WritesStep(c.writes, TagChecks(cfg, c, accepts, now, warmup).writes, 0, now, now
      + Latency(warmup, cfg.fillLatency))
  {
    hide SpanLen, TryHits, HandleMisses, Sized, WritesStep, Latency;
    var n := SpanLen(c.tags, cfg.maxTag, (x: Lookup) => x.ready <= now && x.translated);
    HitsWrites(cfg, c, c.tags[..n]);
    var (d, misses) := TryHits(cfg, c, c.tags[..n]);
    HandleMissesWrites(cfg, d, misses, accepts, 0, now, warmup);
  }

  lemma {:induction false} HitsWrites(cfg: CacheConfig, c: Cache, xs: seq<Lookup>)
    requires Sized(cfg, c)
    ensures TryHits(cfg, c, xs).0.writes == c.writes
    decreases |xs|
  {
    hide Hits, Sized;
    if xs != [] {
      if Hits(cfg, c, xs[0]) { HitsWrites(cfg, TakeHit(cfg, c, xs[0]), xs[1..]); } else { HitsWrites(cfg, c, xs[1..]); }
    }
  }

  lemma WritesChain(q: seq<Mshr>, u: seq<Mshr>, r: seq<Mshr>, m: nat, now: int, at: int)
    requires m <= |q| && u == q[m..] && (forall i :: 0 <= i < m ==> IsReady(q[i], now)) && WritesStep(u, r, 0, now, at)
    ensures WritesStep(q, r, m, now, at)
  {
  }

  lemma {:induction false} OperateTags(cfg: CacheConfig, c: Cache, acc: seq<Accepted>, y: Cycle)
    requires Inv(cfg, c, acc, y.now, y.warmup) && CycleOk(cfg, c, y)
    ensures Sized(cfg, c) && VictimsOk(cfg, y.choices)
    ensures TagsStep(c.tags, Operate(cfg, c, y).tags, |c.stash| < cfg.mshrSize, y.now, y.now
      + Latency(y.warmup, cfg.hitLatency))
  {
    hide *;
    OperateParts(cfg, c, acc, y);
    ReturnsFrame(cfg, c, y);
    var d := Fills(cfg, Returns(cfg, c, y), y.now, y.choices);
    StartToEnd(cfg, d, y);
    TranslateEachTags(FinishAll(cfg, CheckChannels(cfg, c, 0), y.returned, y.now, y.warmup), y.pageBits, y.translations,
      Operate(cfg, c, y).tags, |c.stash| < cfg.mshrSize, y.now, y.now + Latency(y.warmup, cfg.hitLatency));
  }

  lemma OperateTimed(cfg: CacheConfig, c: Cache, acc: seq<Accepted>, y: Cycle)
    requires Inv(cfg, c, acc, y.now, y.warmup) && CycleOk(cfg, c, y)
    ensures Sized(cfg, c) && VictimsOk(cfg, y.choices) && CycleTimed(cfg, c, Operate(cfg, c, y), y)
  {
    hide LeavesFullSets, MissStep, WritesStep, TagsStep, Operate, Inv, CycleOk, DataOf, BlockIn, VictimsOk,
      Sized;
    OperateBlocks(cfg, c, acc, y);
    var m := OperateWrites(cfg, c, acc, y);
    OperateTags(cfg, c, acc, y);
    var fill := y.now + Latency(y.warmup, cfg.fillLatency);
    var t := Operate(cfg, c, y);
    forall b: nat
      ensures MissStep(DataOf(cfg, c.mshr, b), DataOf(cfg, t.mshr, b), BlockIn(cfg, y.returned, b), y.now, fill)
    {
      OperateMisses(cfg, c, acc, y, b);
    }
  }

  // ---- runs ----

  lemma {:induction false} ArrivalsLookups(cfg: CacheConfig, c: Cache, acc: seq<Accepted>, xs: seq<Arrival>)
    ensures var d := ArriveAll(cfg, c, acc, xs).0; SameStore(c, d) && d.tags == c.tags && d.stash == c.stash
    decreases |xs|
  {
    hide QueueOf, WithQueue, SizeOf, AddTo;
    if xs != [] {
      var (d, more) := Arrive(cfg, c, acc, xs[0]);
      ArrivalsLookups(cfg, d, more, xs[1..]);
    }
  }

  lemma SameTimed(cfg: CacheConfig, c: Cache, d: Cache, t: Cache, y: Cycle)
    requires CycleTimed(cfg, d, t, y) && SameStore(c, d) && d.tags == c.tags && d.stash == c.stash
    ensures CycleTimed(cfg, c, t, y)
  {
    hide LeavesFullSets, MissStep, WritesStep, TagsStep, DataOf, BlockIn;
  }

  /** In every cycle of every run: a block leaves its set only if the set is then full; a lookup leaves
      the pipeline no earlier than the hit latency after it started, and none starts untranslated once
      the stash is full; a miss is filled no earlier than the fill latency after its block was
      returned, which is noted for the returned blocks only, and a write no earlier than the fill
      latency after it missed. In warmup there are no latencies. */
  lemma {:induction false} CachesTakeTheirTime(cfg: CacheConfig, channels: nat, ys: seq<Cycle>, y: Cycle)
    requires RunOk(cfg, channels, ys) && NextOk(cfg, Run(cfg, channels, ys).0, Run(cfg, channels, ys).1, ys, y)
    ensures RunOk(cfg, channels, ys + [y])
    ensures CycleTimed(cfg, Run(cfg, channels, ys).0, Run(cfg, channels, ys + [y]).0, y)
  {
    hide Inv, NextOk, Operate, Empty, CycleOk, ArrivalsOk, InvAfter, ArriveAll, CycleTimed, SameStore;
    assert (ys + [y])[..|ys|] == ys && (ys + [y])[|ys|] == y;
    var (c, acc) := Run(cfg, channels, ys);
    NextInv(cfg, channels, c, acc, ys, y);
    EnteredInv(cfg, c, acc, y.now, y.warmup, y);
    ArrivalsLookups(cfg, c, acc, y.arrivals);
    var (d, more) := Entered(cfg, c, acc, y);
    OperateInv(cfg, d, more, y);
    OperateTimed(cfg, d, more, y);
    PrefetchesSame(cfg, c, acc, y);
    SameTimed(cfg, c, d, Operate(cfg, d, y), y);
  }

  lemma PrefetchesSame(cfg: CacheConfig, c: Cache, acc: seq<Accepted>, y: Cycle)
    ensures var d := Entered(cfg, c, acc, y).0; SameStore(c, d) && d.tags == c.tags && d.stash == c.stash
  {
    ArrivalsLookups(cfg, c, acc, y.arrivals);
    hide ArriveAll;
  }
}
