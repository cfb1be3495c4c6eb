/** One cycle of a cache, and the main results about every run. */
module CacheRuns {
  import opened Sequences
  import opened SortedLists
  import opened Bits
  import opened Responses
  import opened Channels
  import opened Caches
  import opened CacheInvariant
  import opened CacheDiscipline

  datatype QueueName = ToWrites | ToReads | ToPrefetches

  /** A packet offered to a channel. */
  datatype Arrival = Arrival(channel: nat, to: QueueName, x: Request)

  /** What the environment decides in one cycle. */
  datatype Cycle = Cycle(now: int, warmup: bool, arrivals: seq<Arrival>, prefetches: seq<Lookup>,
                         returned: seq<nat>, pageBits: nat, translations: seq<(nat, nat)>, choices: nat -> FillChoice,
                         stashShare: nat, order: seq<nat>, shares: nat -> Share, internalShare: nat,
                         issueTags: nat -> bool, issueStash: nat -> bool, accepts: nat -> bool)

  // ---- arrivals ----

  function QueueOf(c: Channel, to: QueueName): seq<Request> {
    match to case ToWrites => c.wq case ToReads => c.rq case ToPrefetches => c.pq
  }

  function WithQueue(c: Channel, to: QueueName, q: seq<Request>): Channel {
    match to case ToWrites => c.(wq := q) case ToReads => c.(rq := q) case ToPrefetches => c.(pq := q)
  }

  function SizeOf(cfg: Channels.Config, to: QueueName): nat {
    match to case ToWrites => cfg.wqSize case ToReads => cfg.rqSize case ToPrefetches => cfg.pqSize
  }

  /** add_rq, add_wq, add_pq. A packet that wants a response gets the next token. */
  function Arrive(cfg: CacheConfig, c: Cache, acc: seq<Accepted>, a: Arrival): (Cache, seq<Accepted>) {
    if a.channel >= |c.channels| then (c, acc)
    else
      var q := QueueOf(c.channels[a.channel], a.to);
      var r := AddTo(q, SizeOf(cfg.channel, a.to), a.x.(tokens := if a.x.wants then [|acc|] else []));
      if r.None? then (c, acc)
      else
        (c.(channels := c.channels[a.channel := WithQueue(c.channels[a.channel], a.to, r.value)]),
         if a.x.wants then acc + [Accepted(a.channel, a.x.address, a.x.translated, a.x.deps)] else acc)
  }

  function ArriveAll(cfg: CacheConfig, c: Cache, acc: seq<Accepted>, xs: seq<Arrival>): (Cache, seq<Accepted>)
    decreases |xs|
  {
    if xs == [] then (c, acc)
    else
      var (d, more) := Arrive(cfg, c, acc, xs[0]);
      ArriveAll(cfg, d, more, xs[1..])
  }

  /** prefetch_line: a local prefetch, which stands for no request. */
  ghost predicate PrefetchOk(x: Lookup) {
    x.fromThis && x.kind == Prefetch && x.deps == [] && x.ret == [] && x.tokens == []
  }

  // ---- the steps of operate ----

  function FinishAll(cfg: CacheConfig, c: Cache, addrs: seq<nat>, now: int, warmup: bool): Cache
    decreases |addrs|
  {
    if addrs == [] then c else FinishAll(cfg, FinishPacket(cfg, c, addrs[0], now, warmup), addrs[1..], now, warmup)
  }

  function TranslateEach(c: Cache, pageBits: nat, ts: seq<(nat, nat)>): Cache
    decreases |ts|
  {
    if ts == [] then c else TranslateEach(FinishTranslation(c, pageBits, ts[0].0, ts[0].1), pageBits, ts[1..])
  }

  /** Lookups start: from the stash, from the channels, and from the cache's own prefetches. */
  function Initiate(cfg: CacheConfig, c: Cache, y: Cycle): Cache {
    var room := |c.stash| < cfg.mshrSize;
    var at := y.now + Latency(y.warmup, cfg.hitLatency);
    TakeInternal(TakeChannels(TakeStash(c, y.stashShare, at), y.order, y.shares, room, at), y.internalShare, room, at)
  }

  /** The returns and the translations. */
  function Collect(cfg: CacheConfig, c: Cache, y: Cycle): Cache {
    TranslateEach(FinishAll(cfg, c, y.returned, y.now, y.warmup), y.pageBits, y.translations)
  }

  /** The cycle up to the fills. */
  function Returns(cfg: CacheConfig, c: Cache, y: Cycle): Cache {
    Collect(cfg, CheckChannels(cfg, c, 0), y)
  }

  /** Translations are issued, and lookups that wait for one leave the pipeline. */
  function Park(c: Cache, y: Cycle): Cache {
    Stash(c.(tags := Issue(c.tags, y.issueTags), stash := Issue(c.stash, y.issueStash)), y.now)
  }

  /** The cycle from the fills on. */
  function Continue(cfg: CacheConfig, c: Cache, y: Cycle): Cache
    requires Sized(cfg, c) && VictimsOk(cfg, y.choices)
  {
    var d := Fills(cfg, c, y.now, y.choices);
    InitiateFrame(cfg, d, y);
    TagChecks(cfg, Park(Initiate(cfg, d, y), y), y.accepts, y.now, y.warmup)
  }

  function Operate(cfg: CacheConfig, c: Cache, y: Cycle): Cache
    requires Sized(cfg, c) && VictimsOk(cfg, y.choices)
  {
    ReturnsSized(cfg, c, y);
    Continue(cfg, Returns(cfg, c, y), y)
  }

  ghost predicate SameStore(c: Cache, d: Cache) {
    d.block == c.block && d.mshr == c.mshr && d.writes == c.writes && d.events == c.events && d.sent == c.sent
  }

  lemma {:induction false} FinishAllFrame(cfg: CacheConfig, c: Cache, addrs: seq<nat>, now: int, warmup: bool)
    ensures var d := FinishAll(cfg, c, addrs, now, warmup);
      d.block == c.block && d.writes == c.writes && d.answers == c.answers
    decreases |addrs|
  {
    if addrs != [] {
      hide FindMshr, FirstUnreturned, Return;
      FinishAllFrame(cfg, FinishPacket(cfg, c, addrs[0], now, warmup), addrs[1..], now, warmup);
    }
  }

  lemma {:induction false} TranslateEachFrame(c: Cache, pageBits: nat, ts: seq<(nat, nat)>)
    ensures SameStore(c, TranslateEach(c, pageBits, ts)) && TranslateEach(c, pageBits, ts).answers == c.answers
    decreases |ts|
  {
    if ts != [] { TranslateEachFrame(FinishTranslation(c, pageBits, ts[0].0, ts[0].1), pageBits, ts[1..]); }
  }

  lemma CollectSized(cfg: CacheConfig, c: Cache, y: Cycle)
    requires Sized(cfg, c)
    ensures Sized(cfg, Collect(cfg, c, y)) && Collect(cfg, c, y).answers == c.answers
  {
    var e := FinishAll(cfg, c, y.returned, y.now, y.warmup);
    hide FinishAll, TranslateEach;
    FinishAllFrame(cfg, c, y.returned, y.now, y.warmup);
    TranslateEachFrame(e, y.pageBits, y.translations);
  }

  lemma ReturnsSized(cfg: CacheConfig, c: Cache, y: Cycle)
    requires Sized(cfg, c)
    ensures Sized(cfg, Returns(cfg, c, y))
  {
    hide CheckChannels, Collect;
    CollectSized(cfg, CheckChannels(cfg, c, 0), y);
  }

  lemma {:induction false} TakeChannelsFrame(c: Cache, order: seq<nat>, shares: nat -> Share, room: bool, at: int)
    ensures SameStore(c, TakeChannels(c, order, shares, room, at))
    decreases |order|
  {
    if order != [] {
      hide Allowed, LookupsOf;
      TakeChannelsFrame(if order[0] < |c.channels| then TakeChannel(c, order[0], shares(order[0]), room, at)
        else c, order[1..], shares, room, at);
    }
  }

  lemma InitiateFrame(cfg: CacheConfig, c: Cache, y: Cycle)
    ensures SameStore(c, Initiate(cfg, c, y))
  {
    var at := y.now + Latency(y.warmup, cfg.hitLatency);
    TakeChannelsFrame(TakeStash(c, y.stashShare, at), y.order, y.shares, |c.stash| < cfg.mshrSize, at);
    hide TakeChannels;
  }

  // ---- the invariant ----

  /** Where blocks are, in a cache that matches full addresses: writes are handled like reads there. */
  ghost predicate Residency(cfg: CacheConfig, c: Cache) {
    cfg.MatchOffset() ==> Placed(cfg, c.block, c.mshr) && c.writes == []
  }

  ghost predicate Inv(cfg: CacheConfig, c: Cache, acc: seq<Accepted>, now: int, warmup: bool) {
    Kept(cfg, acc, c) && Sized(cfg, c) && Misses(cfg, c.mshr, now, warmup) && Residency(cfg, c)
  }

  /** The lower level returns only what it was asked for and has not answered. */
  ghost predicate ReturnsOk(cfg: CacheConfig, c: Cache, addrs: seq<nat>, now: int, warmup: bool)
    decreases |addrs|
  {
    addrs != [] ==>
      && Returnable(cfg, c.mshr, addrs[0])
      && ReturnsOk(cfg, FinishPacket(cfg, c, addrs[0], now, warmup), addrs[1..], now, warmup)
  }

  lemma {:induction false} FinishAllKeeps(cfg: CacheConfig, c: Cache, acc: seq<Accepted>, addrs: seq<nat>, now: int,
      warmup: bool)
    requires Inv(cfg, c, acc, now, warmup) && ReturnsOk(cfg, c, addrs, now, warmup)
    ensures Inv(cfg, FinishAll(cfg, c, addrs, now, warmup), acc, now, warmup)
    decreases |addrs|
  {
    if addrs != [] {
      var d := FinishPacket(cfg, c, addrs[0], now, warmup);
      FinishPacketKeeps(cfg, acc, c, addrs[0], now, warmup);
      FinishPacketMisses(cfg, c, addrs[0], now, warmup);
      FinishPacketPlaced(cfg, c, addrs[0], now, warmup);
      hide Kept, Misses, FinishPacket, Placed, Sized, Returnable;
      FinishAllKeeps(cfg, d, acc, addrs[1..], now, warmup);
    }
  }

  lemma {:induction false} FinishPacketPlaced(cfg: CacheConfig, c: Cache, a: nat, now: int, warmup: bool)
    requires FindMshr(cfg, c.mshr, a) < |c.mshr| && FirstUnreturned(c.mshr) < |c.mshr|
    ensures var d := FinishPacket(cfg, c, a, now, warmup);
      d.block == c.block && d.writes == c.writes && (Placed(cfg, c.block, c.mshr) ==> Placed(cfg, d.block, d.mshr))
  {
    ReturnAddresses(c.mshr, FindMshr(cfg, c.mshr, a), now + Latency(warmup, cfg.fillLatency));
    hide FindMshr, FirstUnreturned, Return, InOwnSet, OneWayEach, Resident;
  }

  lemma {:induction false} TranslateEachKeeps(cfg: CacheConfig, acc: seq<Accepted>, c: Cache, pageBits: nat,
      ts: seq<(nat, nat)>)
    requires Kept(cfg, acc, c)
    ensures Kept(cfg, acc, TranslateEach(c, pageBits, ts))
    decreases |ts|
  {
    hide Kept, FinishTranslation;
    if ts != [] {
      FinishTranslationKeeps(cfg, acc, c, pageBits, ts[0].0, ts[0].1);
      TranslateEachKeeps(cfg, acc, FinishTranslation(c, pageBits, ts[0].0, ts[0].1), pageBits, ts[1..]);
    }
  }

  lemma SameStoreKeeps(cfg: CacheConfig, c: Cache, d: Cache, acc: seq<Accepted>, now: int, warmup: bool)
    requires Inv(cfg, c, acc, now, warmup) && SameStore(c, d) && Kept(cfg, acc, d)
    ensures Inv(cfg, d, acc, now, warmup)
  {
    hide Kept, Misses, Placed;
  }

  ghost predicate CycleOk(cfg: CacheConfig, c: Cache, y: Cycle) {
    VictimsOk(cfg, y.choices) && ReturnsOk(cfg, CheckChannels(cfg, c, 0), y.returned, y.now, y.warmup)
  }

  lemma {:induction false} ReturnsKeep(cfg: CacheConfig, c: Cache, acc: seq<Accepted>, y: Cycle)
    requires Inv(cfg, c, acc, y.now, y.warmup) && CycleOk(cfg, c, y)
    ensures Inv(cfg, Returns(cfg, c, y), acc, y.now, y.warmup)
  {
    var d := CheckChannels(cfg, c, 0);
    CheckChannelsKeep(cfg, acc, c, 0);
    hide Kept, CheckChannels, FinishAll, TranslateEach, ReturnsOk, VictimsOk, Sized, Misses, Residency;
    SameStoreKeeps(cfg, c, d, acc, y.now, y.warmup);
    var e := FinishAll(cfg, d, y.returned, y.now, y.warmup);
    FinishAllKeeps(cfg, d, acc, y.returned, y.now, y.warmup);
    TranslateEachFrame(e, y.pageBits, y.translations);
    TranslateEachKeeps(cfg, acc, e, y.pageBits, y.translations);
    SameStoreKeeps(cfg, e, TranslateEach(e, y.pageBits, y.translations), acc, y.now, y.warmup);
  }

  lemma {:induction false} FillsStore(cfg: CacheConfig, c: Cache, now: int, choices: nat -> FillChoice, warmup: bool)
    requires Sized(cfg, c) && VictimsOk(cfg, choices) && Misses(cfg, c.mshr, now, warmup) && Residency(cfg, c)
    ensures var d := Fills(cfg, c, now, choices); Misses(cfg, d.mshr, now, warmup) && Residency(cfg, d)
  {
    var n := SpanLen(c.mshr, cfg.maxFill, (x: Mshr) => IsReady(x, now));
    hide SpanLen, FillFrom, VictimsOk, Sized;
    FillFromFrame(cfg, c, c.mshr, n, choices, 0);
    var (r, m) := FillMshrs(cfg, c, now, choices);
    DropMisses(cfg, c.mshr, m, now, warmup);
    assert r.mshr == c.mshr[m..] && r.writes == c.writes;
    if cfg.MatchOffset() { FillFromPlaced(cfg, c, c.mshr, n, choices, 0); }
    hide Placed, Misses, FillMshrs;
    WritesStore(cfg, r, cfg.maxFill - m, now, choices, m);
  }

  lemma {:induction false} WritesStore(cfg: CacheConfig, c: Cache, width: nat, now: int, choices: nat -> FillChoice,
      k: nat)
    requires Sized(cfg, c) && VictimsOk(cfg, choices)
    ensures var d := FillWrites(cfg, c, width, now, choices, k);
      d.mshr == c.mshr && (c.writes == [] ==> d.block == c.block && d.writes == [])
  {
    var n := SpanLen(c.writes, width, (x: Mshr) => IsReady(x, now));
    hide SpanLen, VictimsOk, Sized;
    FillFromFrame(cfg, c, c.writes, n, choices, k);
    FillStep(cfg, c, c.writes, n, choices, k);
    hide FillFrom;
  }

  lemma {:induction false} FillsInv(cfg: CacheConfig, c: Cache, acc: seq<Accepted>, now: int,
      choices: nat -> FillChoice, warmup: bool)
    requires Inv(cfg, c, acc, now, warmup) && VictimsOk(cfg, choices)
    ensures Inv(cfg, Fills(cfg, c, now, choices), acc, now, warmup)
  {
    hide Kept, Misses, Residency, Sized, VictimsOk, Fills;
    FillsKeep(cfg, acc, c, now, choices);
    FillsStore(cfg, c, now, choices, warmup);
  }

  lemma {:induction false} InitiateInv(cfg: CacheConfig, c: Cache, acc: seq<Accepted>, y: Cycle)
    requires Inv(cfg, c, acc, y.now, y.warmup)
    ensures Inv(cfg, Initiate(cfg, c, y), acc, y.now, y.warmup)
  {
    hide Kept, Misses, Residency, Sized, TakeStash, TakeChannels, TakeInternal;
    var room := |c.stash| < cfg.mshrSize;
    var at := y.now + Latency(y.warmup, cfg.hitLatency);
    var d := TakeStash(c, y.stashShare, at);
    TakeStashKeeps(cfg, acc, c, y.stashShare, at);
    TakeChannelsKeep(cfg, acc, d, y.order, y.shares, room, at);
    TakeInternalKeeps(cfg, acc, TakeChannels(d, y.order, y.shares, room, at), y.internalShare, room, at);
    InitiateFrame(cfg, c, y);
    SameStoreKeeps(cfg, c, Initiate(cfg, c, y), acc, y.now, y.warmup);
  }

  lemma {:induction false} StashInv(cfg: CacheConfig, c: Cache, acc: seq<Accepted>, y: Cycle)
    requires Inv(cfg, c, acc, y.now, y.warmup)
    ensures Inv(cfg, Park(c, y), acc, y.now, y.warmup)
  {
    hide Kept, Misses, Residency, Sized, Issue, Select;
    var d := c.(tags := Issue(c.tags, y.issueTags), stash := Issue(c.stash, y.issueStash));
    IssueKeeps(cfg, acc, c, y.issueTags, y.issueStash);
    StashKeeps(cfg, acc, d, y.now);
    SameStoreKeeps(cfg, c, Park(c, y), acc, y.now, y.warmup);
  }

  lemma {:induction false} TagChecksInv(cfg: CacheConfig, c: Cache, acc: seq<Accepted>, y: Cycle)
    requires Inv(cfg, c, acc, y.now, y.warmup)
    ensures Inv(cfg, TagChecks(cfg, c, y.accepts, y.now, y.warmup), acc, y.now, y.warmup)
  {
    TagChecksKeep(cfg, acc, c, y.accepts, y.now, y.warmup);
    TagChecksMisses(cfg, c, y.accepts, y.now, y.warmup);
    if cfg.MatchOffset() { TagChecksPlaced(cfg, c, y.accepts, y.now, y.warmup); }
    hide Kept, Misses, Placed, TagChecks, Sized;
  }

  lemma {:induction false} TagChecksMisses(cfg: CacheConfig, c: Cache, accepts: nat -> bool, now: int, warmup: bool)
    requires Sized(cfg, c) && Misses(cfg, c.mshr, now, warmup)
    ensures var r := TagChecks(cfg, c, accepts, now, warmup); Misses(cfg, r.mshr, now, warmup) && Sized(cfg, r)
  {
    var n := SpanLen(c.tags, cfg.maxTag, (x: Lookup) => x.ready <= now && x.translated);
    hide SpanLen, TryHits, HandleMisses, Misses, Sized;
    var (d, misses) := TryHits(cfg, c, c.tags[..n]);
    TryHitsMshr(cfg, c, c.tags[..n]);
    HandleMissesMisses(cfg, d, misses, accepts, 0, now, warmup);
    HandleMissesBlock(cfg, d, misses, accepts, 0, now, warmup);
    SameSized(cfg, d, TagChecks(cfg, c, accepts, now, warmup));
  }

  lemma SameSized(cfg: CacheConfig, c: Cache, d: Cache)
    requires Sized(cfg, c) && d.block == c.block
    ensures Sized(cfg, d)
  {
  }

  lemma {:induction false} TryHitsMshr(cfg: CacheConfig, c: Cache, xs: seq<Lookup>)
    requires Sized(cfg, c)
    ensures TryHits(cfg, c, xs).0.mshr == c.mshr
    decreases |xs|
  {
    if xs != [] {
      hide Hits, Sized;
      if Hits(cfg, c, xs[0]) {
        TryHitsMshr(cfg, TakeHit(cfg, c, xs[0]), xs[1..]);
      } else { TryHitsMshr(cfg, c, xs[1..]); }
    }
  }

  lemma {:induction false} HandleMissesBlock(cfg: CacheConfig, c: Cache, xs: seq<Lookup>, accepts: nat -> bool, k: nat,
      now: int, warmup: bool)
    ensures HandleMisses(cfg, c, xs, accepts, k, now, warmup).0.block == c.block
    decreases |xs|
  {
    if xs != [] {
      hide FindMshr, Merge;
      if xs[0].kind == Write && !cfg.MatchOffset() {
        HandleMissesBlock(cfg, HandleWrite(cfg, c, xs[0], now, warmup), xs[1..], accepts, k + 1, now, warmup);
      } else if HandleMiss(cfg, c, xs[0], accepts(k)).Some? {
        HandleMissesBlock(cfg, HandleMiss(cfg, c, xs[0], accepts(k)).value, xs[1..], accepts, k + 1, now, warmup);
      } else {
        HandleMissesBlock(cfg, c, xs[1..], accepts, k + 1, now, warmup);
      }
    }
  }

  /** One cycle keeps the invariant. */
  lemma {:induction false} OperateInv(cfg: CacheConfig, c: Cache, acc: seq<Accepted>, y: Cycle)
    requires Inv(cfg, c, acc, y.now, y.warmup) && CycleOk(cfg, c, y)
    ensures Sized(cfg, c) && VictimsOk(cfg, y.choices) && Inv(cfg, Operate(cfg, c, y), acc, y.now, y.warmup)
  {
    assert Sized(cfg, c) && VictimsOk(cfg, y.choices);
    ReturnsKeep(cfg, c, acc, y);
    ReturnsSized(cfg, c, y);
    hide Inv, CycleOk, VictimsOk, Sized, Returns, Fills, Initiate, Park, TagChecks;
    var b := Returns(cfg, c, y);
    FillsInv(cfg, b, acc, y.now, y.choices, y.warmup);
    var d := Fills(cfg, b, y.now, y.choices);
    InitiateInv(cfg, d, acc, y);
    var e := Initiate(cfg, d, y);
    InitiateFrame(cfg, d, y);
    StashInv(cfg, e, acc, y);
    TagChecksInv(cfg, Park(e, y), acc, y);
  }

  // ---- arrivals keep the invariant ----

  lemma {:induction false} MoreServes(acc: seq<Accepted>, x: Accepted, off: nat, address: nat, deps: seq<nat>,
      ret: seq<nat>, tokens: seq<nat>)
    requires Serves(acc, off, address, deps, ret, tokens)
    ensures Serves(acc + [x], off, address, deps, ret, tokens)
  {
    hide Prefix, Sorted;
    forall k | 0 <= k < |tokens| ensures AnswersFor(acc + [x], off, address, deps, ret, tokens[k]) {
      assert AnswersFor(acc, off, address, deps, ret, tokens[k]);
    }
  }

  lemma {:induction false} MoreLookups(acc: seq<Accepted>, x: Accepted, off: nat, s: seq<Lookup>)
    requires LookupsOk(acc, off, s)
    ensures LookupsOk(acc + [x], off, s)
  {
    forall i | 0 <= i < |s| ensures LookupOk(acc + [x], off, s[i]) {
      assert LookupOk(acc, off, s[i]);
      MoreServes(acc, x, off, s[i].address, s[i].deps, s[i].ret, s[i].tokens);
      hide Serves;
    }
    hide LookupOk;
  }

  lemma {:induction false} MoreMshrs(acc: seq<Accepted>, x: Accepted, off: nat, s: seq<Mshr>)
    requires MshrsOk(acc, off, s)
    ensures MshrsOk(acc + [x], off, s)
  {
    forall i | 0 <= i < |s| ensures MshrOk(acc + [x], off, s[i]) {
      assert MshrOk(acc, off, s[i]);
      MoreServes(acc, x, off, s[i].address, s[i].deps, s[i].ret, s[i].tokens);
      hide Serves;
    }
    hide MshrOk;
  }

  lemma {:induction false} MoreAnswers(acc: seq<Accepted>, x: Accepted, off: nat, s: seq<Answer>)
    requires AnswersOk(acc, off, s)
    ensures AnswersOk(acc + [x], off, s)
  {
    hide Prefix, Sorted;
    forall i, k | 0 <= i < |s| && 0 <= k < |s[i].tokens| ensures AnswersFor(acc
      + [x], off, s[i].address, s[i].deps, s[i].ret, s[i].tokens[k]) {
      assert AnswerOk(acc, off, s[i]);
      assert AnswersFor(acc, off, s[i].address, s[i].deps, s[i].ret, s[i].tokens[k]);
    }
    hide AnswersFor;
    forall i | 0 <= i < |s| ensures AnswerOk(acc + [x], off, s[i]) { assert AnswerOk(acc, off, s[i]); }
  }

  lemma {:induction false} MoreQueue(acc: seq<Accepted>, x: Accepted, off: nat, channel: nat, q: seq<Request>)
    requires QueueOk(acc, off, channel, q)
    ensures QueueOk(acc + [x], off, channel, q)
  {
    hide Prefix, Sorted;
    forall i | 0 <= i < |q| ensures RequestOk(acc + [x], off, channel, q[i]) {
      assert RequestOk(acc, off, channel, q[i]);
      forall k | 0 <= k < |q[i].tokens| ensures StandsFor(acc + [x], off, channel, q[i], q[i].tokens[k]) {
        assert StandsFor(acc, off, channel, q[i], q[i].tokens[k]);
      }
      hide StandsFor;
    }
    hide RequestOk;
  }

  lemma {:induction false} MoreChannels(acc: seq<Accepted>, x: Accepted, off: nat, cs: seq<Channel>)
    requires ChannelsOk(acc, off, cs)
    ensures ChannelsOk(acc + [x], off, cs)
  {
    forall i | 0 <= i < |cs| ensures ChannelOk(acc + [x], off, i, cs[i]) {
      assert ChannelOk(acc, off, i, cs[i]);
      MoreQueue(acc, x, off, i, cs[i].wq);
      MoreQueue(acc, x, off, i, cs[i].rq);
      MoreQueue(acc, x, off, i, cs[i].pq);
      hide QueueOk;
    }
    hide ChannelOk;
  }

  lemma {:induction false} MoreServing(cfg: CacheConfig, acc: seq<Accepted>, x: Accepted, c: Cache)
    requires Serving(cfg, acc, c)
    ensures Serving(cfg, acc + [x], c)
  {
    var off := cfg.OffsetBits();
    hide ChannelsOk, LookupsOk, MshrsOk, AnswersOk;
    MoreChannels(acc, x, off, c.channels);
    MoreLookups(acc, x, off, c.internal);
    MoreLookups(acc, x, off, c.tags);
    MoreLookups(acc, x, off, c.stash);
    MoreMshrs(acc, x, off, c.mshr);
    MoreMshrs(acc, x, off, c.writes);
    MoreAnswers(acc, x, off, c.answers);
  }

  /** A queue takes one more request. */
  lemma {:induction false} EnqueueOk(acc: seq<Accepted>, off: nat, channel: nat, c: Channel, to: QueueName, x: Request,
      t: nat)
    requires ChannelOk(acc, off, channel, c) && RequestOk(acc, off, channel, x)
    ensures var d := WithQueue(c, to, QueueOf(c, to) + [x]);
      ChannelOk(acc, off, channel, d) && ChannelTokens(d)[t] == ChannelTokens(c)[t] + multiset(x.tokens)[t]
  {
    var q := QueueOf(c, to);
    TokensAppend(q, [x]);
    TokensOne(x);
    hide RequestOk, Tokens;
    assert QueueOk(acc, off, channel, q + [x]);
  }

  function Enqueued(c: Cache, i: nat, to: QueueName, x: Request): Cache
    requires i < |c.channels|
  {
    c.(channels := c.channels[i := WithQueue(c.channels[i], to, QueueOf(c.channels[i], to) + [x])])
  }

  lemma {:induction false} EnqueuedServes(cfg: CacheConfig, c: Cache, acc: seq<Accepted>, i: nat, to: QueueName,
      x: Request)
    requires Serving(cfg, acc, c) && i < |c.channels| && RequestOk(acc, cfg.OffsetBits(), i, x)
    ensures Serving(cfg, acc, Enqueued(c, i, to, x))
  {
    hide RequestOk, QueueOf, WithQueue, LookupsOk, MshrsOk, AnswersOk;
    assert ChannelOk(acc, cfg.OffsetBits(), i, c.channels[i]);
    EnqueueOk(acc, cfg.OffsetBits(), i, c.channels[i], to, x, 0);
    hide ChannelOk;
  }

  lemma {:induction false} EnqueuedPlaces(cfg: CacheConfig, c: Cache, acc: seq<Accepted>, i: nat, to: QueueName,
      x: Request, t: nat)
    requires Serving(cfg, acc, c) && i < |c.channels| && RequestOk(acc, cfg.OffsetBits(), i, x)
    ensures Places(Enqueued(c, i, to, x), t) == Places(c, t) + multiset(x.tokens)[t]
  {
    assert ChannelOk(acc, cfg.OffsetBits(), i, c.channels[i]);
    hide RequestOk, Serving, ChannelOk, QueueOf, WithQueue, ChannelTokens, InChannels, InLookups, InMshrs, Given;
    EnqueueOk(acc, cfg.OffsetBits(), i, c.channels[i], to, x, t);
    ChannelsUpdate(c.channels, i, Enqueued(c, i, to, x).channels[i], t);
  }

  /** A request that wants a response enters with the next token. */
  lemma {:induction false} EnterWanted(cfg: CacheConfig, c: Cache, acc: seq<Accepted>, i: nat, to: QueueName,
      x: Request)
    requires Kept(cfg, acc, c) && i < |c.channels| && Sorted(x.deps) && x.wants && x.tokens == [|acc|]
    ensures Kept(cfg, acc + [Accepted(i, x.address, x.translated, x.deps)], Enqueued(c, i, to, x))
  {
    hide Serving, Places, Enqueued;
    var n := |acc|;
    var more := acc + [Accepted(i, x.address, x.translated, x.deps)];
    var d := Enqueued(c, i, to, x);
    MoreServing(cfg, acc, more[n], c);
    assert RequestOk(more, cfg.OffsetBits(), i, x) by { assert StandsFor(more, cfg.OffsetBits(), i, x, n); }
    hide RequestOk;
    EnqueuedServes(cfg, c, more, i, to, x);
    forall t: nat ensures Places(d, t) == if t < |more| then 1 else 0 {
      assert Places(c, t) == if t < n then 1 else 0;
      EnqueuedPlaces(cfg, c, more, i, to, x, t);
    }
  }

  lemma {:induction false} EnterUnwanted(cfg: CacheConfig, c: Cache, acc: seq<Accepted>, i: nat, to: QueueName,
      x: Request)
    requires Kept(cfg, acc, c) && i < |c.channels| && Sorted(x.deps) && x.tokens == []
    ensures Kept(cfg, acc, Enqueued(c, i, to, x))
  {
    var d := Enqueued(c, i, to, x);
    assert RequestOk(acc, cfg.OffsetBits(), i, x);
    hide Serving, RequestOk, Places, Enqueued;
    EnqueuedServes(cfg, c, acc, i, to, x);
    forall t: nat ensures Places(d, t) == if t < |acc| then 1 else 0 {
      assert Places(c, t) == if t < |acc| then 1 else 0;
      EnqueuedPlaces(cfg, c, acc, i, to, x, t);
    }
  }

  lemma {:induction false} ArriveKeeps(cfg: CacheConfig, c: Cache, acc: seq<Accepted>, a: Arrival)
    requires Kept(cfg, acc, c) && Sorted(a.x.deps)
    ensures var (d, more) := Arrive(cfg, c, acc, a); Kept(cfg, more, d) && SameStore(c, d)
  {
    hide Kept, Sorted, QueueOf, WithQueue, SizeOf;
    if a.channel < |c.channels| {
      var x := a.x.(tokens := if a.x.wants then [|acc|] else [], checked := false);
      if a.x.wants {
        EnterWanted(cfg, c, acc, a.channel, a.to, x);
      } else { EnterUnwanted(cfg, c, acc, a.channel, a.to, x); }
    }
  }

  lemma {:induction false} ArriveAllKeeps(cfg: CacheConfig, c: Cache, acc: seq<Accepted>, xs: seq<Arrival>)
    requires Kept(cfg, acc, c) && forall i :: 0 <= i < |xs| ==> Sorted(xs[i].x.deps)
    ensures var (d, more) := ArriveAll(cfg, c, acc, xs); Kept(cfg, more, d) && SameStore(c, d)
    decreases |xs|
  {
    hide Kept, Arrive, Sorted;
    if xs != [] {
      ArriveKeeps(cfg, c, acc, xs[0]);
      var (d, more) := Arrive(cfg, c, acc, xs[0]);
      ArriveAllKeeps(cfg, d, more, xs[1..]);
    }
  }

  lemma {:induction false} PrefetchesKeep(cfg: CacheConfig, c: Cache, acc: seq<Accepted>, xs: seq<Lookup>)
    requires Kept(cfg, acc, c) && forall i :: 0 <= i < |xs| ==> PrefetchOk(xs[i])
    ensures Kept(cfg, acc, c.(internal := c.internal + xs))
  {
    var d := c.(internal := c.internal + xs);
    hide ChannelsOk, MshrsOk, AnswersOk;
    assert LookupsOk(acc, cfg.OffsetBits(), d.internal);
    hide LookupsOk, InChannels, InMshrs, Given;
    forall t: nat ensures Places(d, t) == if t < |acc| then 1 else 0 {
      assert Places(c, t) == if t < |acc| then 1 else 0;
      LookupsAppend(c.internal, xs, t);
      NoTokens(xs, t);
      hide InLookups;
    }
  }

  lemma {:induction false} NoTokens(xs: seq<Lookup>, t: nat)
    requires forall i :: 0 <= i < |xs| ==> xs[i].tokens == []
    ensures InLookups(xs, t) == 0
  {
    if xs != [] {
      LookupsHead(xs, t);
      NoTokens(xs[1..], t);
    }
  }

  // ---- runs ----

  function Entered(cfg: CacheConfig, c: Cache, acc: seq<Accepted>, y: Cycle): (Cache, seq<Accepted>) {
    var (d, more) := ArriveAll(cfg, c, acc, y.arrivals);
    (d.(internal := d.internal + y.prefetches), more)
  }

  ghost predicate ArrivalsOk(y: Cycle) {
    (forall i :: 0 <= i < |y.arrivals| ==> Sorted(y.arrivals[i].x.deps))
      && (forall i :: 0 <= i < |y.prefetches| ==> PrefetchOk(y.prefetches[i]))
  }

  lemma {:induction false} EnteredInv(cfg: CacheConfig, c: Cache, acc: seq<Accepted>, now: int, warmup: bool, y: Cycle)
    requires Inv(cfg, c, acc, now, warmup) && ArrivalsOk(y) && now <= y.now && (y.warmup ==> warmup)
    ensures var (d, more) := Entered(cfg, c, acc, y); Inv(cfg, d, more, y.now, y.warmup)
  {
    var (d, more) := ArriveAll(cfg, c, acc, y.arrivals);
    hide Kept, ArriveAll, Sorted, Placed, PrefetchOk, Sized;
    ArriveAllKeeps(cfg, c, acc, y.arrivals);
    PrefetchesKeep(cfg, d, more, y.prefetches);
    LaterMisses(cfg, c.mshr, now, warmup, y.now, y.warmup);
    SameSized(cfg, c, d.(internal := d.internal + y.prefetches));
    hide Misses;
  }

  lemma LaterMisses(cfg: CacheConfig, q: seq<Mshr>, now: int, warmup: bool, later: int, still: bool)
    requires Misses(cfg, q, now, warmup) && now <= later && (still ==> warmup)
    ensures Misses(cfg, q, later, still)
  {
    hide BlockOf;
  }

  function Empty(cfg: CacheConfig, channels: nat): Cache {
    Cache(seq(channels, _ => Channel([], [], [])), [], [], [], [], [],
      seq(cfg.Sets(), _ => seq(cfg.ways, _ => Way(false, 0, false, false))), [], [], [])
  }

  lemma {:induction false} EmptyInv(cfg: CacheConfig, channels: nat, now: int, warmup: bool)
    ensures Inv(cfg, Empty(cfg, channels), [], now, warmup)
  {
    var c := Empty(cfg, channels);
    hide BlockOf, SetIndex, Pow2;
    assert Sized(cfg, c);
    assert Residency(cfg, c);
    forall t: nat ensures Places(c, t) == 0 { NothingInChannels(c.channels, t); }
  }

  lemma {:induction false} NothingInChannels(cs: seq<Channel>, t: nat)
    requires forall i :: 0 <= i < |cs| ==> cs[i] == Channel([], [], [])
    ensures InChannels(cs, t) == 0
  {
    if cs != [] { NothingInChannels(cs[1..], t); }
  }

  /** One cycle, with what arrives before it. */
  ghost function Step(cfg: CacheConfig, c: Cache, acc: seq<Accepted>, y: Cycle): (res: (Cache, seq<Accepted>))
    requires Inv(cfg, c, acc, y.now, y.warmup) && ArrivalsOk(y) && CycleOk(cfg, Entered(cfg, c, acc, y).0, y)
    ensures Inv(cfg, res.0, res.1, y.now, y.warmup)
  {
    hide Inv, CycleOk, Operate, Entered, ArrivalsOk;
    EnteredInv(cfg, c, acc, y.now, y.warmup, y);
    var (d, more) := Entered(cfg, c, acc, y);
    OperateInv(cfg, d, more, y);
    (Operate(cfg, d, y), more)
  }

  lemma LaterInv(cfg: CacheConfig, c: Cache, acc: seq<Accepted>, now: int, warmup: bool, later: int, still: bool)
    requires Inv(cfg, c, acc, now, warmup) && now <= later && (still ==> warmup)
    ensures Inv(cfg, c, acc, later, still)
  {
    hide Kept, Sized, Residency;
    LaterMisses(cfg, c.mshr, now, warmup, later, still);
    hide Misses;
  }

  /** Time does not run backwards, warmup does not resume, and the cycle is well-formed. */
  ghost predicate NextOk(cfg: CacheConfig, c: Cache, acc: seq<Accepted>, before: seq<Cycle>, y: Cycle) {
    && ArrivalsOk(y) && CycleOk(cfg, Entered(cfg, c, acc, y).0, y)
    && (before != [] ==> var x := before[|before| - 1]; x.now <= y.now && (y.warmup ==> x.warmup))
  }

  ghost predicate InvAfter(cfg: CacheConfig, channels: nat, c: Cache, acc: seq<Accepted>, ys: seq<Cycle>) {
    if ys == [] then (c, acc) == (Empty(cfg, channels), []) else Inv(cfg, c, acc, ys[|ys| - 1].now, ys[|ys| - 1].warmup)
  }

  lemma NextInv(cfg: CacheConfig, channels: nat, c: Cache, acc: seq<Accepted>, before: seq<Cycle>, y: Cycle)
    requires InvAfter(cfg, channels, c, acc, before) && NextOk(cfg, c, acc, before, y)
    ensures Inv(cfg, c, acc, y.now, y.warmup) && ArrivalsOk(y) && CycleOk(cfg, Entered(cfg, c, acc, y).0, y)
  {
    hide Inv, ArrivalsOk, CycleOk, Entered, Empty;
    if before == [] {
      EmptyInv(cfg, channels, y.now, y.warmup);
    } else {
      var x := before[|before| - 1];
      LaterInv(cfg, c, acc, x.now, x.warmup, y.now, y.warmup);
    }
  }

  ghost predicate RunOk(cfg: CacheConfig, channels: nat, ys: seq<Cycle>)
    decreases |ys|, 0
  {
    ys != [] ==>
      var n := |ys| - 1;
      && RunOk(cfg, channels, ys[..n])
      && var (c, acc) := Run(cfg, channels, ys[..n]);
         NextOk(cfg, c, acc, ys[..n], ys[n])
  }

  /** The cache and the requests accepted so far that want a response, after `ys`. */
  ghost function Run(cfg: CacheConfig, channels: nat, ys: seq<Cycle>): (res: (Cache, seq<Accepted>))
    requires RunOk(cfg, channels, ys)
    ensures InvAfter(cfg, channels, res.0, res.1, ys)
    decreases |ys|, 1
  {
    hide Inv, CycleOk, Entered, Empty, ArrivalsOk, Step, NextOk;
    if ys == [] then (Empty(cfg, channels), [])
    else
      var n := |ys| - 1;
      var (c, acc) := Run(cfg, channels, ys[..n]);
      NextInv(cfg, channels, c, acc, ys[..n], ys[n]);
      Step(cfg, c, acc, ys[n])
  }

  // ---- main results ----

  /** In how many places inside the cache request `t` waits. */
  ghost function Waiting(c: Cache, t: nat): nat {
    InChannels(c.channels, t) + InLookups(c.internal, t) + InLookups(c.tags, t) + InLookups(c.stash, t)
      + InMshrs(c.mshr, t) + InMshrs(c.writes, t)
  }

  /** Every accepted request that wants a response waits in exactly one place until exactly
      one response to its channel answers it. */
  lemma {:induction false} RequestsAreAnsweredOnce(cfg: CacheConfig, channels: nat, ys: seq<Cycle>, t: nat)
    requires RunOk(cfg, channels, ys) && ys != [] && t < |Run(cfg, channels, ys).1|
    ensures var (c, acc) := Run(cfg, channels, ys);
      Waiting(c, t) + Reaching(Pushed(c.answers), acc[t].channel, t) == 1
  {
    hide Run, RunOk, Misses, Residency, Sized, InChannels, InLookups, InMshrs;
    var (c, acc) := Run(cfg, channels, ys);
    assert Places(c, t) == 1;
    forall i | 0 <= i < |c.answers| ensures Delivers(c.answers[i], acc[t].channel, t) {
      assert AnswerOk(acc, cfg.OffsetBits(), c.answers[i]);
      if t in c.answers[i].tokens {
        var k :| 0 <= k < |c.answers[i].tokens| && c.answers[i].tokens[k] == t;
        assert AnswersFor(acc, cfg.OffsetBits(), c.answers[i].address, c.answers[i].deps, c.answers[i].ret,
          c.answers[i].tokens[k]);
      }
    }
    PushedReaches(c.answers, acc[t].channel, t);
  }

  /** Every answer wakes all the instructions of each request it answers, on its channel,
      and is for its block. */
  lemma {:induction false} AnswersCoverRequests(cfg: CacheConfig, channels: nat, ys: seq<Cycle>, i: nat, t: nat)
    requires RunOk(cfg, channels, ys) && ys != [] && i < |Run(cfg, channels, ys).0.answers|
    requires t in Run(cfg, channels, ys).0.answers[i].tokens
    ensures var (c, acc) := Run(cfg, channels, ys);
      var a := c.answers[i];
      && t < |acc| && acc[t].channel in a.ret && (forall d :: d in acc[t].deps ==> d in a.deps)
      && (acc[t].translated ==> BlockOf(cfg, acc[t].address) == BlockOf(cfg, a.address))
  {
    var (c, acc) := Run(cfg, channels, ys);
    hide Run, RunOk, Misses, Residency, Sized, Conserved;
    assert AnswerOk(acc, cfg.OffsetBits(), c.answers[i]);
    var k :| 0 <= k < |c.answers[i].tokens| && c.answers[i].tokens[k] == t;
    assert AnswersFor(acc, cfg.OffsetBits(), c.answers[i].address, c.answers[i].deps, c.answers[i].ret,
      c.answers[i].tokens[k]);
  }

  /** One MSHR for each block, never more than there are, and returned entries first in the
      order they become ready. */
  lemma {:induction false} MissesAreDisciplined(cfg: CacheConfig, channels: nat, ys: seq<Cycle>)
    requires RunOk(cfg, channels, ys)
    ensures var q := Run(cfg, channels, ys).0.mshr;
      && |q| <= cfg.mshrSize
      && (forall i, j :: 0 <= i < j < |q| ==> BlockOf(cfg, q[i].address) != BlockOf(cfg, q[j].address))
      && (forall i, j :: 0 <= i < j < |q| && q[j].data.Some? ==> q[i].data.Some? && q[i].data.value <= q[j].data.value)
  {
    var (c, acc) := Run(cfg, channels, ys);
    hide Run, RunOk, Kept, Residency, Sized, BlockOf;
  }

  /** The cache when the next cycle comes to its fills. */
  ghost function AtFills(cfg: CacheConfig, c: Cache, acc: seq<Accepted>, y: Cycle): Cache {
    Returns(cfg, Entered(cfg, c, acc, y).0, y)
  }

  lemma AtFillsInv(cfg: CacheConfig, channels: nat, c: Cache, acc: seq<Accepted>, ys: seq<Cycle>, y: Cycle)
    requires InvAfter(cfg, channels, c, acc, ys) && NextOk(cfg, c, acc, ys, y)
    ensures Inv(cfg, AtFills(cfg, c, acc, y), Entered(cfg, c, acc, y).1, y.now, y.warmup) && VictimsOk(cfg, y.choices)
  {
    hide Inv, InvAfter, ArrivalsOk, Returns, Entered, VictimsOk, ReturnsOk;
    NextInv(cfg, channels, c, acc, ys, y);
    EnteredInv(cfg, c, acc, y.now, y.warmup, y);
    var (d, more) := Entered(cfg, c, acc, y);
    ReturnsKeep(cfg, d, more, y);
  }

  /** On every run, a miss whose block has returned and is ready when a cycle comes to its fills
      is filled and answered in that cycle, unless fills take the whole bandwidth or an earlier
      one meets a dirty victim that the lower level does not take. */
  lemma {:induction false} ReadyMissesAreFilled(cfg: CacheConfig, channels: nat, ys: seq<Cycle>, y: Cycle, i: nat)
    requires RunOk(cfg, channels, ys) && NextOk(cfg, Run(cfg, channels, ys).0, Run(cfg, channels, ys).1, ys, y)
    requires var d := AtFills(cfg, Run(cfg, channels, ys).0, Run(cfg, channels, ys).1, y);
      i < |d.mshr| && IsReady(d.mshr[i], y.now)
    ensures var d := AtFills(cfg, Run(cfg, channels, ys).0, Run(cfg, channels, ys).1, y);
      && Sized(cfg, d) && VictimsOk(cfg, y.choices)
      && var (r, m) := FillMshrs(cfg, d, y.now, y.choices);
         if i < m then |d.answers| + i < |r.answers| && r.answers[|d.answers| + i] == AnswerOf(d.mshr[i])
         else m == cfg.maxFill || Blocked(cfg, r, d.mshr[m], y.choices(m))
  {
    hide Run, RunOk, NextOk, InvAfter, AtFills, Kept, Residency, Sized, VictimsOk, OneForEachBlock, SpanLen, FillFrom,
      AnswerOf;
    var (c, acc) := Run(cfg, channels, ys);
    AtFillsInv(cfg, channels, c, acc, ys, y);
    ReadyIsFilled(cfg, AtFills(cfg, c, acc, y), y.now, y.warmup, y.choices, i);
    hide Misses, FillMshrs, Blocked;
  }

  lemma {:induction false} ReadyIsFilled(cfg: CacheConfig, d: Cache, now: int, warmup: bool, choices: nat -> FillChoice,
      i: nat)
    requires Sized(cfg, d) && VictimsOk(cfg, choices) && Misses(cfg, d.mshr, now, warmup) && i < |d.mshr|
    requires IsReady(d.mshr[i], now)
    ensures var (r, m) := FillMshrs(cfg, d, now, choices);
      if i < m then |d.answers| + i < |r.answers| && r.answers[|d.answers| + i] == AnswerOf(d.mshr[i])
      else m == cfg.maxFill || (m < |d.mshr| && Blocked(cfg, r, d.mshr[m], choices(m)))
  {
    hide OneForEachBlock, ReturnedFirst, SpanLen, FillFrom, AnswerOf, IsReady, SetIndex;
    ReadySpanIsComplete(d.mshr, cfg.maxFill, now, Limit(cfg, now, warmup), i);
    var n := SpanLen(d.mshr, cfg.maxFill, (x: Mshr) => IsReady(x, now));
    FillStops(cfg, d, d.mshr, n, choices, 0);
    FillAnswersInOrder(cfg, d, d.mshr, n, choices, 0);
  }

  /** In a cache that matches full addresses a block is resident in at most one way, and no
      resident block has an MSHR. */
  lemma {:induction false} BlocksAreInOnePlace(cfg: CacheConfig, channels: nat, ys: seq<Cycle>, s: nat, v: nat, r: nat,
      w: nat)
    requires RunOk(cfg, channels, ys) && ys != [] && cfg.MatchOffset()
    requires var b := Run(cfg, channels, ys).0.block;
      s < |b| && v < |b[s]| && r < |b| && w < |b[r]| && b[s][v].valid && b[r][w].valid
    ensures var c := Run(cfg, channels, ys).0;
      && (BlockOf(cfg, c.block[s][v].address) == BlockOf(cfg, c.block[r][w].address) ==> s == r && v == w)
      && (forall k :: 0 <= k < |c.mshr| ==> BlockOf(cfg, c.mshr[k].address) != BlockOf(cfg, c.block[s][v].address))
  {
    hide Run, RunOk, Kept, Misses, Sized, BlockOf, SetIndex;
    var (c, acc) := Run(cfg, channels, ys);
    if BlockOf(cfg, c.block[s][v].address) == BlockOf(cfg, c.block[r][w].address) {
      SameBlockSameSet(cfg, c.block[s][v].address, c.block[r][w].address);
    }
    forall k | 0 <= k < |c.mshr| ensures BlockOf(cfg, c.mshr[k].address) != BlockOf(cfg, c.block[s][v].address) {
      assert !Resident(cfg, c.block, c.mshr[k].address);
    }
  }
}
