/** One request for each block: what the collision checks leave in the channels of a cache, on
    every run whose channels each receive requests of one address space. */
module ChannelRuns {
  import opened Sequences
  import opened Bits
  import opened Responses
  import opened Channels
  import opened Caches
  import CacheInvariant
  import opened CacheRuns
  import VirtualAnswers

  // ---- queues ----

  ghost predicate InSpace(q: seq<Request>, space: bool) { forall j :: 0 <= j < |q| ==> q[j].translated == space }

  ghost predicate AllChecked(q: seq<Request>, n: nat) { forall j :: 0 <= j < n && j < |q| ==> q[j].checked }

  /** Before the checks: what was checked is one for each block. */
  ghost predicate Waiting(q: seq<Request>, shift: nat, space: bool) {
    InSpace(q, space) && Distinct(q, FirstUnchecked(q), shift)
  }

  /** After the checks: everything is. */
  ghost predicate Settled(q: seq<Request>, shift: nat, space: bool) {
    InSpace(q, space) && AllChecked(q, |q|) && Distinct(q, |q|, shift)
  }

  lemma SettledWaits(q: seq<Request>, shift: nat, space: bool)
    requires Settled(q, shift, space)
    ensures Waiting(q, shift, space)
  {
    hide Prefix;
  }

  lemma NoneUnchecked(q: seq<Request>, x: Request)
    requires !x.checked
    ensures FirstUnchecked(q + [x]) == FirstUnchecked(q)
  {
    var k := FirstUnchecked(q);
    var r := q + [x];
    assert k < |q| ==> !q[k].checked by { FirstIsUnchecked(q); }
    assert r[k] == if k < |q| then q[k] else x;
    FirstIs(r, k);
  }

  lemma {:induction false} FirstIsUnchecked(q: seq<Request>)
    ensures FirstUnchecked(q) < |q| ==> !q[FirstUnchecked(q)].checked
  {
    if q != [] && q[0].checked { FirstIsUnchecked(q[1..]); }
  }

  lemma FirstIs(q: seq<Request>, k: nat)
    requires k < |q| && !q[k].checked && forall j :: 0 <= j < k ==> q[j].checked
    ensures FirstUnchecked(q) == k
  {
    FirstIsUnchecked(q);
  }

  lemma ArrivalWaits(q: seq<Request>, shift: nat, space: bool, x: Request)
    requires Waiting(q, shift, space) && x.translated == space && !x.checked
    ensures Waiting(q + [x], shift, space)
  {
    hide Prefix, FirstUnchecked;
    NoneUnchecked(q, x);
  }

  lemma DropSettled(q: seq<Request>, k: nat, shift: nat, space: bool)
    requires Settled(q, shift, space) && k <= |q|
    ensures Settled(q[k..], shift, space)
  {
    hide Prefix;
  }

  /** The checks leave nothing unchecked, and no request changes its space. */
  lemma {:induction false} ForwardsCheckAll(wq: seq<Request>, q: seq<Request>, i: nat, wshift: nat, shift: nat,
      channel: nat, answers: seq<Answer>, space: bool)
    requires i <= |q| && InSpace(q, space) && AllChecked(q, i)
    ensures var r := CheckForwards(wq, q, i, wshift, shift, channel, answers).0; InSpace(r, space) && AllChecked(r, |r|)
    decreases |q| - i
  {
    hide CheckForwards, Collides, Forward, FindSame, MergeAt;
    if i == |q| {
      NothingToCheck(wq, q, wshift, shift, channel, answers);
    } else {
      CheckForwardsStep(wq, q, i, wshift, shift, channel, answers);
      if Collides(wq, |wq|, wshift, q[i]) {
        ForwardsCheckAll(wq, Erase(q, i), i, wshift, shift, channel, Forward(q[i], channel, answers), space);
      } else if Collides(q, i, shift, q[i]) {
        MergeChecked(q, i, shift, space);
        ForwardsCheckAll(wq, MergeAt(q, i, shift), i, wshift, shift, channel, answers, space);
      } else {
        ForwardsCheckAll(wq, q[i := q[i].(checked := true)], i + 1, wshift, shift, channel, answers, space);
      }
    }
  }

  lemma MergeChecked(q: seq<Request>, i: nat, shift: nat, space: bool)
    requires i < |q| && Collides(q, i, shift, q[i]) && InSpace(q, space) && AllChecked(q, i)
    ensures InSpace(MergeAt(q, i, shift), space) && AllChecked(MergeAt(q, i, shift), i)
  {
    hide FindSame, Prefix;
  }

  lemma OneSpaceAgrees(wq: seq<Request>, wshift: nat, q: seq<Request>, i: nat, shift: nat, space: bool)
    requires InSpace(q, space)
    ensures Agree(wq, wshift, q, i, shift) && OneSpaceEach(q, shift)
  {
    hide Prefix, Stays;
  }

  // ---- channels ----

  ghost predicate ChannelWaits(cfg: Channels.Config, c: Channel, space: bool) {
    && Waiting(c.wq, cfg.WriteShift(), space) && Waiting(c.rq, cfg.offsetBits, space)
    && Waiting(c.pq, cfg.offsetBits, space)
  }

  ghost predicate ChannelSettled(cfg: Channels.Config, c: Channel, space: bool) {
    && Settled(c.wq, cfg.WriteShift(), space) && Settled(c.rq, cfg.offsetBits, space)
    && Settled(c.pq, cfg.offsetBits, space)
  }

  lemma {:induction false} CheckSettles(cfg: Channels.Config, c: Channel, channel: nat, answers: seq<Answer>,
      space: bool)
    requires ChannelWaits(cfg, c, space)
    ensures ChannelSettled(cfg, CheckCollision(cfg, c, channel, answers).0, space)
  {
    hide CheckForwards, CheckMerges, Distinct, Agree, OneSpaceEach, InSpace, FirstUnchecked;
    var w, o := cfg.WriteShift(), cfg.offsetBits;
    CheckCollisionDistinct(cfg, c, channel, answers);
    OneSpaceAgrees(c.wq, w, c.wq, 0, w, space);
    OneSpaceAgrees(c.wq, w, c.rq, FirstUnchecked(c.rq), o, space);
    OneSpaceAgrees(c.wq, w, c.pq, FirstUnchecked(c.pq), o, space);
    MergesAreForwards(c.wq, FirstUnchecked(c.wq), w);
    ForwardsCheckAll([], c.wq, FirstUnchecked(c.wq), 0, w, 0, [], space);
    var wq := CheckMerges(c.wq, FirstUnchecked(c.wq), w);
    ForwardsCheckAll(wq, c.rq, FirstUnchecked(c.rq), w, o, channel, answers, space);
    var a := CheckForwards(wq, c.rq, FirstUnchecked(c.rq), w, o, channel, answers).1;
    ForwardsCheckAll(wq, c.pq, FirstUnchecked(c.pq), w, o, channel, a, space);
  }

  /** Channel `i` carries requests of space `space(i)`; the first `n` have been checked. */
  ghost predicate Tidy(cfg: CacheConfig, cs: seq<Channel>, n: nat, space: nat -> bool) {
    forall i :: 0 <= i < |cs| ==>
      if i < n then ChannelSettled(cfg.channel, cs[i], space(i)) else ChannelWaits(cfg.channel, cs[i], space(i))
  }

  lemma {:induction false} CheckChannelsTidy(cfg: CacheConfig, c: Cache, i: nat, space: nat -> bool)
    requires i <= |c.channels| && Tidy(cfg, c.channels, i, space)
    ensures Tidy(cfg, CheckChannels(cfg, c, i).channels, |c.channels|, space)
    decreases |c.channels| - i
  {
    hide ChannelWaits, ChannelSettled, CheckCollision;
    if i < |c.channels| {
      CheckSettles(cfg.channel, c.channels[i], i, c.answers, space(i));
      var (d, a) := CheckCollision(cfg.channel, c.channels[i], i, c.answers);
      CheckChannelsTidy(cfg, c.(channels := c.channels[i := d], answers := a), i + 1, space);
    }
  }

  lemma SettledIsTidy(cfg: CacheConfig, cs: seq<Channel>, space: nat -> bool)
    requires Tidy(cfg, cs, |cs|, space)
    ensures Tidy(cfg, cs, 0, space)
  {
    hide Waiting, Settled;
    forall i | 0 <= i < |cs| ensures ChannelWaits(cfg.channel, cs[i], space(i)) {
      assert ChannelSettled(cfg.channel, cs[i], space(i));
      SettledWaits(cs[i].wq, cfg.channel.WriteShift(), space(i));
      SettledWaits(cs[i].rq, cfg.channel.offsetBits, space(i));
      SettledWaits(cs[i].pq, cfg.channel.offsetBits, space(i));
    }
  }

  // ---- the other steps ----

  lemma {:induction false} FinishAllChannels(cfg: CacheConfig, c: Cache, addrs: seq<nat>, now: int, warmup: bool)
    ensures FinishAll(cfg, c, addrs, now, warmup).channels == c.channels
    decreases |addrs|
  {
    hide FindMshr, FirstUnreturned, Return;
    if addrs != [] { FinishAllChannels(cfg, FinishPacket(cfg, c, addrs[0], now, warmup), addrs[1..], now, warmup); }
  }

  lemma {:induction false} TranslateEachChannels(c: Cache, pageBits: nat, ts: seq<(nat, nat)>)
    ensures TranslateEach(c, pageBits, ts).channels == c.channels
    decreases |ts|
  {
    hide FinishStash, TranslateAll;
    if ts != [] { TranslateEachChannels(FinishTranslation(c, pageBits, ts[0].0, ts[0].1), pageBits, ts[1..]); }
  }

  lemma FillsChannels(cfg: CacheConfig, c: Cache, now: int, choices: nat -> FillChoice)
    requires Sized(cfg, c) && VictimsOk(cfg, choices)
    ensures Fills(cfg, c, now, choices).channels == c.channels
  {
    hide SpanLen, FillFrom, Sized, VictimsOk;
    var n := SpanLen(c.mshr, cfg.maxFill, (x: Mshr) => IsReady(x, now));
    CacheInvariant.FillFromFrame(cfg, c, c.mshr, n, choices, 0);
    var (r, m) := FillMshrs(cfg, c, now, choices);
    var w := SpanLen(r.writes, cfg.maxFill - m, (x: Mshr) => IsReady(x, now));
    CacheInvariant.FillFromFrame(cfg, r, r.writes, w, choices, m);
  }

  lemma TakeChannelTidy(cfg: CacheConfig, c: Cache, i: nat, s: Share, room: bool, at: int, space: nat -> bool)
    requires Tidy(cfg, c.channels, |c.channels|, space) && i < |c.channels|
    ensures Tidy(cfg, TakeChannel(c, i, s, room, at).channels, |c.channels|, space)
  {
    hide Settled, Allowed, LookupsOf, ChannelWaits;
    var q, w, o := c.channels[i], cfg.channel.WriteShift(), cfg.channel.offsetBits;
    assert ChannelSettled(cfg.channel, q, space(i));
    DropSettled(q.wq, Allowed(q.wq, s.wq, room), w, space(i));
    DropSettled(q.rq, Allowed(q.rq, s.rq, room), o, space(i));
    DropSettled(q.pq, Allowed(q.pq, s.pq, room), o, space(i));
    assert ChannelSettled(cfg.channel, TakeChannel(c, i, s, room, at).channels[i], space(i));
    hide ChannelSettled;
  }

  lemma {:induction false} TakeChannelsTidy(cfg: CacheConfig, c: Cache, order: seq<nat>, shares: nat -> Share,
      room: bool, at: int, space: nat -> bool)
    requires Tidy(cfg, c.channels, |c.channels|, space)
    ensures var d := TakeChannels(c, order, shares, room, at);
      |d.channels| == |c.channels| && Tidy(cfg, d.channels, |d.channels|, space)
    decreases |order|
  {
    hide Tidy, LookupsOf, Allowed;
    if order != [] {
      if order[0] < |c.channels| {
        TakeChannelTidy(cfg, c, order[0], shares(order[0]), room, at, space);
        TakeChannelsTidy(cfg, TakeChannel(c, order[0], shares(order[0]), room, at), order[1..], shares, room, at,
          space);
      } else {
        TakeChannelsTidy(cfg, c, order[1..], shares, room, at, space);
      }
    }
  }

  lemma TagChecksChannels(cfg: CacheConfig, c: Cache, accepts: nat -> bool, now: int, warmup: bool)
    requires Sized(cfg, c)
    ensures TagChecks(cfg, c, accepts, now, warmup).channels == c.channels
  {
    hide SpanLen, TryHits, HandleMisses, Sized;
    var n := SpanLen(c.tags, cfg.maxTag, (x: Lookup) => x.ready <= now && x.translated);
    CacheInvariant.TryHitsPlaces(cfg, c, c.tags[..n], 0);
    var (d, misses) := TryHits(cfg, c, c.tags[..n]);
    VirtualAnswers.MissesRest(cfg, d, misses, accepts, 0, now, warmup);
  }

  lemma {:induction false} OperateTidy(cfg: CacheConfig, c: Cache, y: Cycle, space: nat -> bool)
    requires Tidy(cfg, c.channels, 0, space) && Sized(cfg, c) && VictimsOk(cfg, y.choices)
    ensures var d := Operate(cfg, c, y); Tidy(cfg, d.channels, |d.channels|, space)
  {
    hide Tidy, CheckChannels, FinishAll, TranslateEach, Fills, TakeChannels, TagChecks, Sized, VictimsOk, SpanLen,
      Issue, Select, Retimed;
    CheckChannelsTidy(cfg, c, 0, space);
    var c1 := CheckChannels(cfg, c, 0);
    FinishAllChannels(cfg, c1, y.returned, y.now, y.warmup);
    TranslateEachChannels(FinishAll(cfg, c1, y.returned, y.now, y.warmup), y.pageBits, y.translations);
    ReturnsSized(cfg, c, y);
    var c3 := Returns(cfg, c, y);
    FillsChannels(cfg, c3, y.now, y.choices);
    var c4 := Fills(cfg, c3, y.now, y.choices);
    var room := |c4.stash| < cfg.mshrSize;
    var at := y.now + Latency(y.warmup, cfg.hitLatency);
    TakeChannelsTidy(cfg, TakeStash(c4, y.stashShare, at), y.order, y.shares, room, at, space);
    InitiateFrame(cfg, c4, y);
    var c5 := Park(Initiate(cfg, c4, y), y);
    SameSized(cfg, c4, c5);
    TagChecksChannels(cfg, c5, y.accepts, y.now, y.warmup);
  }

  // ---- arrivals ----

  /** Every request that arrives at channel `i` is of space `space(i)`. */
  ghost predicate OneSpaceArrivals(xs: seq<Arrival>, space: nat -> bool) {
    forall i :: 0 <= i < |xs| ==> xs[i].x.translated == space(xs[i].channel)
  }

  lemma ArriveTidy(cfg: CacheConfig, c: Cache, acc: seq<Accepted>, a: Arrival, space: nat -> bool)
    requires Tidy(cfg, c.channels, 0, space) && a.x.translated == space(a.channel)
    ensures Tidy(cfg, Arrive(cfg, c, acc, a).0.channels, 0, space)
  {
    hide Waiting;
    if a.channel < |c.channels| {
      var q := c.channels[a.channel];
      var x := a.x.(tokens := if a.x.wants then [|acc|] else [], checked := false);
      assert ChannelWaits(cfg.channel, q, space(a.channel));
      ArrivalWaits(q.wq, cfg.channel.WriteShift(), space(a.channel), x);
      ArrivalWaits(q.rq, cfg.channel.offsetBits, space(a.channel), x);
      ArrivalWaits(q.pq, cfg.channel.offsetBits, space(a.channel), x);
    }
  }

  lemma {:induction false} ArriveAllTidy(cfg: CacheConfig, c: Cache, acc: seq<Accepted>, xs: seq<Arrival>,
      space: nat -> bool)
    requires Tidy(cfg, c.channels, 0, space) && OneSpaceArrivals(xs, space)
    ensures Tidy(cfg, ArriveAll(cfg, c, acc, xs).0.channels, 0, space)
    decreases |xs|
  {
    hide Tidy, Arrive;
    if xs != [] {
      ArriveTidy(cfg, c, acc, xs[0], space);
      var (d, more) := Arrive(cfg, c, acc, xs[0]);
      ArriveAllTidy(cfg, d, more, xs[1..], space);
    }
  }

  // ---- runs ----

  ghost predicate OneSpaceRun(ys: seq<Cycle>, space: nat -> bool) {
    forall i :: 0 <= i < |ys| ==> OneSpaceArrivals(ys[i].arrivals, space)
  }

  lemma {:induction false} RunTidy(cfg: CacheConfig, channels: nat, ys: seq<Cycle>, space: nat -> bool)
    requires RunOk(cfg, channels, ys) && OneSpaceRun(ys, space)
    ensures var c := Run(cfg, channels, ys).0; Tidy(cfg, c.channels, |c.channels|, space)
    decreases |ys|
  {
    hide Tidy, Inv, InvAfter, CycleOk, ArriveAll, OneSpaceArrivals, Operate, ArrivalsOk, Empty;
    if ys == [] {
      EmptyTidy(cfg, channels, space);
    } else {
      var n := |ys| - 1;
      RunTidy(cfg, channels, ys[..n], space);
      var (c, acc) := Run(cfg, channels, ys[..n]);
      var y := ys[n];
      SettledIsTidy(cfg, c.channels, space);
      ArriveAllTidy(cfg, c, acc, y.arrivals, space);
      NextInv(cfg, channels, c, acc, ys[..n], y);
      EnteredInv(cfg, c, acc, y.now, y.warmup, y);
      var (d, more) := Entered(cfg, c, acc, y);
      OperateInv(cfg, d, more, y);
      OperateTidy(cfg, d, y, space);
    }
  }

  lemma EmptyTidy(cfg: CacheConfig, channels: nat, space: nat -> bool)
    ensures var c := Empty(cfg, channels); Tidy(cfg, c.channels, |c.channels|, space)
  {
  }

  /** On every run in which each channel receives requests of one address space, every queue of
      every channel holds one request for each block after the checks of each cycle, and still
      does when the cycle ends. */
  lemma {:induction false} OneRequestPerBlock(cfg: CacheConfig, channels: nat, ys: seq<Cycle>, y: Cycle,
      space: nat -> bool, i: nat)
    requires RunOk(cfg, channels, ys) && OneSpaceRun(ys, space) && OneSpaceArrivals(y.arrivals, space)
    ensures var (c, acc) := Run(cfg, channels, ys);
      var checked := CheckChannels(cfg, Entered(cfg, c, acc, y).0, 0).channels;
      && (i < |c.channels| ==> OneForEachBlock(cfg, c.channels[i]))
      && (i < |checked| ==> OneForEachBlock(cfg, checked[i]))
  {
    hide Run, RunOk, OneSpaceRun, OneSpaceArrivals, ChannelWaits, InSpace, AllChecked, Distinct, ArriveAll,
      CheckChannels;
    RunTidy(cfg, channels, ys, space);
    var (c, acc) := Run(cfg, channels, ys);
    SettledIsTidy(cfg, c.channels, space);
    ArriveAllTidy(cfg, c, acc, y.arrivals, space);
    CheckChannelsTidy(cfg, Entered(cfg, c, acc, y).0, 0, space);
  }

  ghost predicate OneForEachBlock(cfg: CacheConfig, c: Channel) {
    && Distinct(c.wq, |c.wq|, cfg.channel.WriteShift()) && Distinct(c.rq, |c.rq|, cfg.OffsetBits())
    && Distinct(c.pq, |c.pq|, cfg.OffsetBits())
  }
}
