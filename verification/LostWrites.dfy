/** How a cache that matches full addresses can lose a write: a demand load merges into the miss of
    the write, and the block is filled clean. */
module LostWrites {
  import opened Sequences
  import opened SortedLists
  import opened Bits
  import opened Responses
  import opened Channels
  import opened Caches
  import CacheInvariant
  import opened CacheRuns
  import opened CacheWrites
  import opened VirtualAliases

  // ---- the run ----

  /** Room for one lookup of each kind and one miss. */
  ghost predicate Room(cfg: CacheConfig) {
    cfg.channel.wqSize >= 1 && cfg.channel.rqSize >= 1 && cfg.mshrSize >= 1 && cfg.maxTag >= 1
  }

  function Demand(a: nat, kind: Kind): Request { Request(a, a, true, false, false, kind, [], []) }

  /** A cycle in which the one upper level sends a request, whose tag check starts at once. */
  function Send(cfg: CacheConfig, to: QueueName, x: Request): Cycle {
    Quiet(cfg, 0).(arrivals := [Arrival(0, to, x)], order := [0], shares := _ => Share(1, 1, 1))
  }

  // ---- one such cycle ----

  function With(cfg: CacheConfig, q: seq<Mshr>, events: seq<Event>, sent: seq<Lookup>): Cache {
    Bare(cfg).(mshr := q, events := events, sent := sent)
  }

  function OneIn(to: QueueName, x: Request): Channel { WithQueue(Channel([], [], []), to, [x]) }

  lemma {:induction false} SendEnters(cfg: CacheConfig, c: Cache, to: QueueName, a: nat, kind: Kind)
    requires Room(cfg) && to != ToPrefetches && c.channels == [Channel([], [], [])] && c.internal == []
    ensures Entered(cfg, c, [], Send(cfg, to, Demand(a, kind))) ==
      (c.(channels := [OneIn(to, Demand(a, kind))]), [])
  {
    var xs := Send(cfg, to, Demand(a, kind)).arrivals;
    var d := c.(channels := [OneIn(to, Demand(a, kind))]);
    assert [] + [Demand(a, kind)] == [Demand(a, kind)];
    assert c.channels[0 := d.channels[0]] == d.channels;
    assert Arrive(cfg, c, [], xs[0]) == (d, []);
    hide Arrive;
    assert xs[1..] == [] && ArriveAll(cfg, d, [], []) == (d, []);
    assert ArriveAll(cfg, c, [], xs) == (d, []);
    assert d.internal + [] == d.internal;
  }

  lemma {:induction false} SendChecks(cfg: CacheConfig, c: Cache, to: QueueName, a: nat, kind: Kind)
    requires c.channels == [OneIn(to, Demand(a, kind))] && to != ToPrefetches
    ensures CheckChannels(cfg, c, 0) == c.(channels := [OneIn(to, Demand(a, kind).(checked := true))])
  {
    var q, o, s := c.channels[0], cfg.OffsetBits(), cfg.channel.WriteShift();
    var x := Demand(a, kind);
    var r := [x.(checked := true)];
    hide Prefix;
    assert CheckMerges([], 0, s) == [];
    if to == ToWrites {
      assert q == Channel([x], [], []) && FirstUnchecked(q.wq) == 0;
      assert !Collides(q.wq, 0, s, x) && q.wq[0 := x.(checked := true)] == r;
      assert CheckMerges(r, 1, s) == r;
      assert CheckMerges(q.wq, 0, s) == r;
      assert CheckCollision(cfg.channel, q, 0, c.answers) == (Channel(r, [], []), c.answers);
    } else {
      assert q == Channel([], [x], []) && FirstUnchecked(q.rq) == 0;
      assert !Collides(q.rq, 0, o, x) && !Collides([], 0, s, x) && q.rq[0 := x.(checked := true)] == r;
      assert CheckForwards([], r, 1, s, o, 0, c.answers) == (r, c.answers);
      assert CheckForwards([], q.rq, 0, s, o, 0, c.answers) == (r, c.answers);
      assert CheckCollision(cfg.channel, q, 0, c.answers) == (Channel([], r, []), c.answers);
    }
    hide CheckCollision;
    var d := c.(channels := c.channels[0 := OneIn(to, x.(checked := true))]);
    assert CheckChannels(cfg, d, 1) == d;
  }

  /** The lookup that starts. */
  function Started(a: nat, kind: Kind): Lookup { Lookup(a, a, kind, false, false, true, false, 0, [], [], []) }

  lemma OneAllowed(x: Request)
    ensures Allowed([x], 1, true) == 1 && Allowed([], 1, true) == 0
  {
    assert SpanLen([x][1..], 0, (x: Request) => true || x.translated) == 0;
  }

  lemma SendTakes(c: Cache, to: QueueName, a: nat, kind: Kind)
    requires to != ToPrefetches && c.channels == [OneIn(to, Demand(a, kind).(checked := true))] && c.tags == []
    ensures TakeChannel(c, 0, Share(1, 1, 1), true, 0) ==
      c.(channels := [Channel([], [], [])], tags := [Started(a, kind)])
  {
    var x, t := Demand(a, kind).(checked := true), [Started(a, kind)];
    OneAllowed(x);
    assert [x][..1] == [x] && [x][1..] == [];
    assert LookupsOf([x], 0, 0) == t && LookupsOf([], 0, 0) == [];
    assert c.channels[0 := Channel([], [], [])] == [Channel([], [], [])];
    assert [] + (t + [] + []) == t && [] + ([] + t + []) == t;
    hide Allowed, LookupsOf;
  }

  lemma NoneTaken(c: Cache)
    ensures TakeStash(c, 0, 0) == c && TakeInternal(c, 0, true, 0) == c
  {
    assert Retimed(c.stash[..0], 0) == [] && c.stash[0..] == c.stash && c.tags + [] == c.tags;
    assert Retimed(c.internal[..0], 0) == [] && c.internal[0..] == c.internal;
  }

  lemma SendInitiates(cfg: CacheConfig, c: Cache, to: QueueName, a: nat, kind: Kind)
    requires Room(cfg) && to != ToPrefetches && c.channels == [OneIn(to, Demand(a, kind).(checked := true))]
    requires c.tags == [] && c.stash == []
    ensures Initiate(cfg, c, Send(cfg, to, Demand(a, kind))) ==
      c.(channels := [Channel([], [], [])], tags := [Started(a, kind)])
  {
    hide TakeChannel, TakeStash, TakeInternal;
    var y, d := Send(cfg, to, Demand(a, kind)), c.(channels := [Channel([], [], [])], tags := [Started(a, kind)]);
    NoneTaken(c);
    NoneTaken(d);
    SendTakes(c, to, a, kind);
    assert y.order[1..] == [];
    assert TakeChannels(d, [], y.shares, true, 0) == d;
    assert TakeChannels(c, y.order, y.shares, true, 0) == d;
  }

  lemma StartedStays(c: Cache, y: Cycle, a: nat, kind: Kind)
    requires c.tags == [Started(a, kind)] && c.stash == []
    ensures Park(c, y) == c
  {
    var p := (x: Lookup) => x.ready <= y.now && !x.translated;
    assert Issue(c.tags, y.issueTags) == c.tags && Issue(c.stash, y.issueStash) == [];
    SelectOne(Started(a, kind), p);
    hide Issue, Select;
  }

  lemma {:induction false} SendStarts(cfg: CacheConfig, q: seq<Mshr>, e: seq<Event>, l: seq<Lookup>, to: QueueName,
      a: nat, kind: Kind)
    requires Room(cfg) && to != ToPrefetches
    ensures var y := Send(cfg, to, Demand(a, kind));
      var c := With(cfg, q, e, l).(channels := [OneIn(to, Demand(a, kind).(checked := true))]);
      Park(Initiate(cfg, c, y), y) == With(cfg, q, e, l).(tags := [Started(a, kind)])
  {
    var b, y := With(cfg, q, e, l), Send(cfg, to, Demand(a, kind));
    var c := b.(channels := [OneIn(to, Demand(a, kind).(checked := true))]);
    var d := b.(tags := [Started(a, kind)]);
    assert d == c.(channels := [Channel([], [], [])], tags := [Started(a, kind)]);
    assert c.stash == [] && c.tags == [];
    hide Initiate, Park, With;
    SendInitiates(cfg, c, to, a, kind);
    StartedStays(d, y, a, kind);
  }

  lemma {:induction false} NothingReady(cfg: CacheConfig, c: Cache, y: Cycle)
    requires Sized(cfg, c) && VictimsOk(cfg, y.choices) && c.writes == []
    requires forall k :: 0 <= k < |c.mshr| ==> c.mshr[k].data.None?
    ensures Fills(cfg, c, y.now, y.choices) == c
  {
    hide Sized, VictimsOk;
    var p := (x: Mshr) => IsReady(x, y.now);
    assert SpanLen(c.mshr, cfg.maxFill, p) == 0;
    FillNone(cfg, c, c.mshr, y.choices, 0);
    FillNone(cfg, c, c.writes, y.choices, 0);
    assert c.mshr[0..] == c.mshr && c.writes[0..] == c.writes;
  }

  /** It misses. */
  lemma {:induction false} SendMisses(cfg: CacheConfig, q: seq<Mshr>, e: seq<Event>, l: seq<Lookup>, y: Cycle, a: nat,
      kind: Kind)
    requires Room(cfg) && cfg.MatchOffset() && y.now == 0 && y.warmup && y.accepts(0)
    requires HandleMiss(cfg, With(cfg, q, e, l), Started(a, kind), true).Some?
    ensures var c := With(cfg, q, e, l).(tags := [Started(a, kind)]);
      Sized(cfg, c) && TagChecks(cfg, c, y.accepts, y.now, y.warmup) ==
        HandleMiss(cfg, With(cfg, q, e, l), Started(a, kind), true).value
  {
    hide SetIndex, BlockOf;
    BareSized(cfg);
    var c, x := With(cfg, q, e, l).(tags := [Started(a, kind)]), Started(a, kind);
    SameSized(cfg, Bare(cfg), c);
    var p := (z: Lookup) => z.ready <= y.now && z.translated;
    assert SpanLen(c.tags, cfg.maxTag, p) == 1 by { assert SpanLen(c.tags[1..], cfg.maxTag - 1, p) == 0; }
    assert c.tags[..1] == [x] && c.tags[1..] == [];
    NoWay(cfg, c.block[SetIndex(cfg, a)], a);
    assert !Hits(cfg, c, x);
    hide Hits, FindWay;
    assert TryHits(cfg, c, []) == (c, []) && [x] + [] == [x];
    assert TryHits(cfg, c, [x]) == (c, [x]) by { assert [x][1..] == []; }
    hide TryHits;
    var d := HandleMiss(cfg, c, x, true).value;
    assert HandleMisses(cfg, d, [], y.accepts, 1, y.now, y.warmup) == (d, []);
    assert HandleMisses(cfg, c, [x], y.accepts, 0, y.now, y.warmup) == (d, []) by { assert [x][1..] == []; }
    hide FindMshr, Merge, HandleMisses;
    assert d.(tags := []) == HandleMiss(cfg, With(cfg, q, e, l), x, true).value;
  }

  lemma {:induction false} SendCycle(cfg: CacheConfig, q: seq<Mshr>, e: seq<Event>, l: seq<Lookup>, to: QueueName,
      a: nat, kind: Kind)
    requires Room(cfg) && cfg.MatchOffset() && to != ToPrefetches
    requires forall k :: 0 <= k < |q| ==> q[k].data.None?
    requires HandleMiss(cfg, With(cfg, q, e, l), Started(a, kind), true).Some?
    ensures var y, b := Send(cfg, to, Demand(a, kind)), With(cfg, q, e, l);
      var (c, acc) := Entered(cfg, b, [], y);
      && Sized(cfg, c) && VictimsOk(cfg, y.choices) && CycleOk(cfg, c, y) && ArrivalsOk(y) && acc == []
      && Operate(cfg, c, y) == HandleMiss(cfg, b, Started(a, kind), true).value
  {
    hide Entered, CheckChannels, Fills, Initiate, Park, TagChecks, Sized, HandleMiss;
    var y, b := Send(cfg, to, Demand(a, kind)), With(cfg, q, e, l);
    BareSized(cfg);
    SendEnters(cfg, b, to, a, kind);
    var c := b.(channels := [OneIn(to, Demand(a, kind))]);
    SameSized(cfg, Bare(cfg), c);
    SendChecks(cfg, c, to, a, kind);
    var d := b.(channels := [OneIn(to, Demand(a, kind).(checked := true))]);
    SameSized(cfg, Bare(cfg), d);
    NothingReady(cfg, d, y);
    SendStarts(cfg, q, e, l, to, a, kind);
    SendMisses(cfg, q, e, l, y, a, kind);
  }

  // ---- the loss ----

  function WriteMiss(a: nat): Mshr { Mshr(a, a, Write, false, None, [], [], []) }

  lemma FirstMiss(cfg: CacheConfig, a: nat)
    requires Room(cfg)
    ensures HandleMiss(cfg, Bare(cfg), Started(a, Write), true) ==
      Some(With(cfg, [WriteMiss(a)], [Wrote(a)], [Started(a, Write)]))
  {
    assert [] + [Started(a, Write)] == [Started(a, Write)];
    assert [] + [WriteMiss(a)] == [WriteMiss(a)] && [] + [Wrote(a)] == [Wrote(a)];
  }

  lemma SecondMiss(cfg: CacheConfig, a: nat)
    ensures HandleMiss(cfg, With(cfg, [WriteMiss(a)], [Wrote(a)], [Started(a, Write)]), Started(a, Load), true) ==
      Some(With(cfg, [WriteMiss(a).(kind := Load)], [Wrote(a), Overtaken(a)], [Started(a, Write)]))
  {
    hide BlockOf;
    assert FindMshr(cfg, [WriteMiss(a)], a) == 0;
    assert Caches.Merge(WriteMiss(a), MshrOf(Started(a, Load))) == WriteMiss(a).(kind := Load) by {
      assert SetUnion([], []) == [];
    }
    assert [WriteMiss(a)][0 := WriteMiss(a).(kind := Load)] == [WriteMiss(a).(kind := Load)];
    assert [Wrote(a)] + [Overtaken(a)] == [Wrote(a), Overtaken(a)];
  }

  /** A run of two cycles, in which a write and then a load of the address arrive. The block of the
      write is then not dirty anywhere, although nothing has been written back. */
  ghost predicate Loses(cfg: CacheConfig, ys: seq<Cycle>, a: nat) {
    && RunOk(cfg, 1, ys) && |ys| == 2
    && ys[0].arrivals == [Arrival(0, ToWrites, Demand(a, Write))]
    && ys[1].arrivals == [Arrival(0, ToReads, Demand(a, Load))]
    && var c := Run(cfg, 1, ys).0;
       c.events == [Wrote(a), Overtaken(a)] && !Dirty(cfg, c, BlockOf(cfg, a))
  }

  /** Such a run exists for every address, in every cache with room that matches full addresses. */
  lemma {:induction false} LoadOvertakesWrite(cfg: CacheConfig, a: nat)
    requires Room(cfg) && cfg.MatchOffset()
    ensures exists ys :: Loses(cfg, ys, a)
  {
    hide Entered, Operate, CycleOk, ArrivalsOk, BlockOf, Room, Empty, HandleMiss, Dirty, With;
    var y1, y2 := Send(cfg, ToWrites, Demand(a, Write)), Send(cfg, ToReads, Demand(a, Load));
    RunNone(cfg);
    BareIs(cfg, a);
    FirstMiss(cfg, a);
    SendCycle(cfg, [], [], [], ToWrites, a, Write);
    RunMore(cfg, [], y1);
    SecondMiss(cfg, a);
    SendCycle(cfg, [WriteMiss(a)], [Wrote(a)], [Started(a, Write)], ToReads, a, Load);
    RunMore(cfg, [] + [y1], y2);
    var ys := [] + [y1] + [y2];
    var c := Run(cfg, 1, ys).0;
    assert c.events == [Wrote(a), Overtaken(a)];
    DirtyIsExact(cfg, 1, ys, BlockOf(cfg, a));
    LastIsOvertaken(cfg, a);
    assert Loses(cfg, ys, a);
  }

  lemma BareIs(cfg: CacheConfig, a: nat)
    ensures With(cfg, [], [], []) == Bare(cfg)
    ensures With(cfg, [WriteMiss(a).(kind := Load)], [Wrote(a), Overtaken(a)], [Started(a, Write)]).events ==
      [Wrote(a), Overtaken(a)]
  {
  }

  lemma LastIsOvertaken(cfg: CacheConfig, a: nat)
    ensures !Unsaved(cfg, [Wrote(a), Overtaken(a)], BlockOf(cfg, a))
  {
    hide BlockOf;
  }
}
