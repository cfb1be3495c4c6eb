/** What happens to loads of two virtual blocks that translations give one physical block: a run
    in which the answer carries only one of them, so that the core would wait for the other. */
module VirtualAliases {
  import opened Sequences
  import opened SortedLists
  import opened Bits
  import opened Responses
  import opened Channels
  import opened Caches
  import CacheInvariant
  import opened CacheRuns
  import opened VirtualAnswers

  // ---- the run ----

  /** Two virtual addresses at one place of two pages, and in two blocks. */
  ghost predicate Aliases(cfg: CacheConfig, pageBits: nat, v: nat, w: nat) {
    && Shr(v, pageBits) != Shr(w, pageBits) && Low(v, pageBits) == Low(w, pageBits)
    && BlockOf(cfg, v) != BlockOf(cfg, w)
  }

  /** Room for two lookups and one miss. */
  ghost predicate Roomy(cfg: CacheConfig) {
    cfg.channel.rqSize >= 2 && cfg.mshrSize >= 1 && cfg.maxTag >= 2 && cfg.maxFill >= 1
  }

  function Load0(v: nat): Arrival { Arrival(0, ToReads, Request(v, v, false, true, false, Load, [], [])) }

  function Quiet(cfg: CacheConfig, pageBits: nat): Cycle {
    Cycle(0, true, [], [], [], pageBits, [], _ => FillChoice(cfg.ways, true), 0, [], _ => Share(0, 2, 0), 0,
          _ => true, _ => true, _ => true)
  }

  /** The core loads from both addresses; */
  function Ask(cfg: CacheConfig, pageBits: nat, v: nat, w: nat): Cycle {
    Quiet(cfg, pageBits).(arrivals := [Load0(v), Load0(w)], order := [0])
  }

  /** both pages are translated to one, and both loads miss; */
  function Translated(cfg: CacheConfig, pageBits: nat, v: nat, w: nat, ppage: nat): Cycle {
    Quiet(cfg, pageBits).(translations := [(Shr(v, pageBits), ppage), (Shr(w, pageBits), ppage)], stashShare := 2)
  }

  /** the lower level returns the block. */
  function Returned(cfg: CacheConfig, pageBits: nat, a: nat): Cycle {
    Quiet(cfg, pageBits).(returned := [a])
  }

  function Place(pageBits: nat, v: nat, ppage: nat): nat { Low(v, pageBits) + Shl(ppage, pageBits) }

  // ---- the states in between ----

  function Asked(v: nat, t: nat, checked: bool): Request { Request(v, v, false, true, checked, Load, [], [t]) }

  function Parked(v: nat, t: nat): Lookup { Lookup(v, v, Load, false, false, false, true, 0, [], [0], [t]) }

  function Found(v: nat, a: nat, t: nat): Lookup { Lookup(a, v, Load, false, false, true, true, 0, [], [0], [t]) }

  function Missed(v: nat, a: nat): Mshr { Mshr(a, v, Load, false, None, [], [0], [0, 1]) }

  function Both(v: nat, w: nat): seq<Accepted> { [Accepted(0, v, false, []), Accepted(0, w, false, [])] }

  function Bare(cfg: CacheConfig): Cache { Empty(cfg, 1) }

  // ---- nothing to do ----

  lemma NoChecks(cfg: CacheConfig, c: Cache)
    requires c.channels == [Channel([], [], [])]
    ensures CheckChannels(cfg, c, 0) == c
  {
    assert CheckMerges([], 0, cfg.channel.WriteShift()) == [];
    assert CheckCollision(cfg.channel, c.channels[0], 0, c.answers) == (Channel([], [], []), c.answers);
    var d := c.(channels := c.channels[0 := Channel([], [], [])], answers := c.answers);
    assert d == c && CheckChannels(cfg, d, 1) == d;
  }

  lemma NoFills(cfg: CacheConfig, c: Cache, y: Cycle)
    requires Sized(cfg, c) && VictimsOk(cfg, y.choices) && c.mshr == [] && c.writes == []
    ensures Fills(cfg, c, y.now, y.choices) == c
  {
    hide Sized, VictimsOk;
    assert c.mshr[0..] == c.mshr && c.writes[0..] == c.writes;
  }

  lemma NoLookups(cfg: CacheConfig, c: Cache, y: Cycle)
    requires c.tags == [] && c.stash == [] && c.internal == [] && y.order == []
    ensures Park(Initiate(cfg, c, y), y) == c
  {
    hide Issue;
    assert Retimed(c.stash[..0], 0) == [] && c.stash[0..] == [] && c.internal[0..] == [];
  }

  lemma NoTagChecks(cfg: CacheConfig, c: Cache, y: Cycle)
    requires Sized(cfg, c) && c.tags == []
    ensures TagChecks(cfg, c, y.accepts, y.now, y.warmup) == c
  {
    hide Sized;
    assert c.tags[..0] == [] && c.tags[0..] == [];
  }

  // ---- the first cycle ----

  lemma {:induction false} AskEnters(cfg: CacheConfig, pageBits: nat, v: nat, w: nat)
    requires Roomy(cfg)
    ensures Entered(cfg, Bare(cfg), [], Ask(cfg, pageBits, v, w)) ==
      (Bare(cfg).(channels := [Channel([], [Asked(v, 0, false), Asked(w, 1, false)], [])]), Both(v, w))
  {
    var c := Bare(cfg);
    var c1 := c.(channels := [Channel([], [Asked(v, 0, false)], [])]);
    var c2 := c.(channels := [Channel([], [Asked(v, 0, false), Asked(w, 1, false)], [])]);
    var xs := Ask(cfg, pageBits, v, w).arrivals;
    assert Arrive(cfg, c, [], xs[0]) == (c1, [Accepted(0, v, false, [])]) by {
      assert c.channels[0] == Channel([], [], []) && c.channels[0 := c1.channels[0]] == c1.channels;
      assert [] + [Asked(v, 0, false)] == [Asked(v, 0, false)];
      assert [] + [Accepted(0, v, false, [])] == [Accepted(0, v, false, [])];
    }
    assert Arrive(cfg, c1, [Accepted(0, v, false, [])], xs[1]) == (c2, Both(v, w)) by {
      assert c1.channels[0 := c2.channels[0]] == c2.channels;
      assert [Asked(v, 0, false)] + [Asked(w, 1, false)] == c2.channels[0].rq;
      assert [Accepted(0, v, false, [])] + [Accepted(0, w, false, [])] == Both(v, w);
    }
    assert xs[1..] == [xs[1]] && xs[1..][1..] == [];
    hide Arrive;
    assert ArriveAll(cfg, c2, Both(v, w), []) == (c2, Both(v, w));
    assert ArriveAll(cfg, c1, [Accepted(0, v, false, [])], xs[1..]) == (c2, Both(v, w));
    assert ArriveAll(cfg, c, [], xs) == (c2, Both(v, w));
    assert c2.internal + [] == c2.internal;
  }

  lemma {:induction false} AskChecks(cfg: CacheConfig, c: Cache, v: nat, w: nat)
    requires c.channels == [Channel([], [Asked(v, 0, false), Asked(w, 1, false)], [])]
    requires BlockOf(cfg, v) != BlockOf(cfg, w)
    ensures CheckChannels(cfg, c, 0) == c.(channels := [Channel([], [Asked(v, 0, true), Asked(w, 1, true)], [])])
  {
    var q, o, s := c.channels[0], cfg.OffsetBits(), cfg.channel.WriteShift();
    var r1, r2 := [Asked(v, 0, true), Asked(w, 1, false)], [Asked(v, 0, true), Asked(w, 1, true)];
    assert Prefix(v, o) != Prefix(w, o);
    hide Prefix;
    assert CheckForwards([], r2, 2, s, o, 0, c.answers) == (r2, c.answers);
    assert !Collides(r1, 1, o, r1[1]) && !Collides([], 0, s, r1[1]) && r1[1 := r1[1].(checked := true)] == r2;
    assert CheckForwards([], r1, 1, s, o, 0, c.answers) == (r2, c.answers);
    assert !Collides(q.rq, 0, o, q.rq[0]) && !Collides([], 0, s, q.rq[0]) && q.rq[0 := q.rq[0].(checked := true)] == r1;
    assert CheckForwards([], q.rq, 0, s, o, 0, c.answers) == (r2, c.answers);
    assert CheckMerges([], 0, s) == [] && FirstUnchecked(q.rq) == 0;
    assert CheckCollision(cfg.channel, q, 0, c.answers) == (Channel([], r2, []), c.answers);
    hide CheckCollision;
    var d := c.(channels := c.channels[0 := Channel([], r2, [])]);
    assert CheckChannels(cfg, d, 1) == d;
  }

  lemma {:induction false} AskStarts(cfg: CacheConfig, pageBits: nat, v: nat, w: nat)
    requires Roomy(cfg)
    ensures var c := Bare(cfg).(channels := [Channel([], [Asked(v, 0, true), Asked(w, 1, true)], [])]);
      var y := Ask(cfg, pageBits, v, w);
      Park(Initiate(cfg, c, y), y) == Bare(cfg).(stash := [Parked(v, 0), Parked(w, 1)])
  {
    var b, y := Bare(cfg), Ask(cfg, pageBits, v, w);
    var q := Channel([], [Asked(v, 0, true), Asked(w, 1, true)], []);
    var c := b.(channels := [q]);
    var new0, new1 := LookupOf(q.rq[0], 0, 0), LookupOf(q.rq[1], 0, 0);
    assert TakeStash(c, 0, 0) == c by { assert Retimed(c.stash[..0], 0) == []; }
    var d := b.(tags := [new0, new1]);
    assert TakeChannel(c, 0, y.shares(0), true, 0) == d by {
      assert Allowed(q.rq, 2, true) == 2 by { TwoAllowed(q.rq); }
      assert Allowed(q.wq, 0, true) == 0 && Allowed(q.pq, 0, true) == 0;
      assert LookupsOf(q.rq[..2], 0, 0) == [new0, new1];
      assert LookupsOf(q.wq[..0], 0, 0) == [] && LookupsOf(q.pq[..0], 0, 0) == [];
      assert q.wq[0..] == [] && q.rq[2..] == [] && q.pq[0..] == [];
      assert c.channels[0 := Channel([], [], [])] == b.channels;
      assert c.tags + ([] + [new0, new1] + []) == [new0, new1];
    }
    hide TakeChannel;
    assert TakeChannels(d, [], y.shares, true, 0) == d;
    assert TakeChannels(c, y.order, y.shares, true, 0) == d by { assert y.order[1..] == []; }
    assert TakeInternal(d, 0, true, 0) == d by { assert Retimed(d.internal[..0], 0) == []; }
    assert Initiate(cfg, c, y) == d;
    hide Initiate;
    ParkTwo(d, y, new0, new1);
  }

  lemma TwoAllowed(q: seq<Request>)
    requires |q| == 2
    ensures Allowed(q, 2, true) == 2
  {
    var p := (x: Request) => true || x.translated;
    assert SpanLen(q[1..][1..], 0, p) == 0;
    assert SpanLen(q[1..], 1, p) == 1;
  }

  lemma ParkTwo(c: Cache, y: Cycle, a: Lookup, b: Lookup)
    requires c.tags == [a, b] && c.stash == [] && y.now == 0 && (forall i :: y.issueTags(i))
    requires !a.translated && !b.translated && !a.issued && !b.issued && a.ready == b.ready == 0
    ensures Park(c, y) == c.(tags := [], stash := [a.(issued := true), b.(issued := true)])
  {
    var tags, stash := Issue(c.tags, y.issueTags), Issue(c.stash, y.issueStash);
    var p := (x: Lookup) => x.ready <= y.now && !x.translated;
    assert tags == [a.(issued := true), b.(issued := true)] && stash == [];
    SelectTwo(tags, p, true);
    hide Issue, Select;
  }

  lemma SelectTwo(s: seq<Lookup>, p: Lookup -> bool, all: bool)
    requires |s| == 2 && p(s[0]) == p(s[1]) == all
    ensures Select(s, p, all) == s && Select(s, p, !all) == []
  {
    assert Select(s[1..][1..], p, all) == [] && Select(s[1..][1..], p, !all) == [];
    assert Select(s[1..], p, all) == [s[1]] && Select(s[1..], p, !all) == [];
  }

  lemma BareSized(cfg: CacheConfig)
    ensures Sized(cfg, Bare(cfg)) && Bare(cfg).channels == [Channel([], [], [])]
  {
  }

  lemma {:induction false} FirstCycle(cfg: CacheConfig, pageBits: nat, v: nat, w: nat)
    requires Roomy(cfg) && BlockOf(cfg, v) != BlockOf(cfg, w)
    ensures var y := Ask(cfg, pageBits, v, w);
      var (c, acc) := Entered(cfg, Bare(cfg), [], y);
      && Sized(cfg, c) && VictimsOk(cfg, y.choices) && CycleOk(cfg, c, y) && ArrivalsOk(y)
      && Operate(cfg, c, y) == Bare(cfg).(stash := [Parked(v, 0), Parked(w, 1)]) && acc == Both(v, w)
  {
    hide Entered, CheckChannels, Fills, Initiate, Park, TagChecks, Sized;
    var y := Ask(cfg, pageBits, v, w);
    BareSized(cfg);
    AskEnters(cfg, pageBits, v, w);
    var c := Bare(cfg).(channels := [Channel([], [Asked(v, 0, false), Asked(w, 1, false)], [])]);
    SameSized(cfg, Bare(cfg), c);
    AskChecks(cfg, c, v, w);
    var d := Bare(cfg).(channels := [Channel([], [Asked(v, 0, true), Asked(w, 1, true)], [])]);
    SameSized(cfg, Bare(cfg), d);
    NoFills(cfg, d, y);
    AskStarts(cfg, pageBits, v, w);
    var e := Bare(cfg).(stash := [Parked(v, 0), Parked(w, 1)]);
    SameSized(cfg, Bare(cfg), e);
    NoTagChecks(cfg, e, y);
  }

  // ---- the second cycle ----

  lemma {:induction false} SelectOne(x: Lookup, p: Lookup -> bool)
    ensures Select([x], p, true) == (if p(x) then [x] else []) && Select([x], p, false) == (if p(x) then [] else [x])
  {
    assert Select([x][1..], p, true) == [] && Select([x][1..], p, false) == [];
  }

  lemma {:induction false} SelectPair(x: Lookup, z: Lookup, p: Lookup -> bool)
    requires p(x) && !p(z)
    ensures Select([x, z], p, true) == [x] && Select([x, z], p, false) == [z]
  {
    assert [x, z][1..] == [z];
    SelectOne(z, p);
  }

  lemma LeadingIs(s: seq<Lookup>, k: nat)
    requires k < |s| && !s[k].translated && forall j :: 0 <= j < k ==> s[j].translated
    ensures LeadingTranslated(s) == k
  {
  }

  /** Each translation moves its load behind the translated ones. */
  lemma {:induction false} TranslateFirst(pageBits: nat, v: nat, w: nat, ppage: nat)
    requires Shr(v, pageBits) != Shr(w, pageBits)
    ensures FinishStash([Parked(v, 0), Parked(w, 1)], pageBits, Shr(v, pageBits), ppage) ==
      [Found(v, Place(pageBits, v, ppage), 0), Parked(w, 1)]
  {
    hide Shr, Low, Shl;
    var s, vpage := [Parked(v, 0), Parked(w, 1)], Shr(v, pageBits);
    var p := (x: Lookup) => !x.translated && Shr(x.vaddr, pageBits) == vpage;
    LeadingIs(s, 0);
    assert s[0..] == s && s[..0] == [];
    SelectPair(s[0], s[1], p);
    assert TranslateAll([s[0]], pageBits, vpage, ppage) == [Found(v, Place(pageBits, v, ppage), 0)];
    assert Select(s[0..], p, true) == [s[0]] && Select(s[0..], p, false) == [s[1]];
    hide Select, LeadingTranslated, TranslateAll;
  }

  lemma {:induction false} TranslateSecond(pageBits: nat, v: nat, a: nat, w: nat, ppage: nat)
    ensures FinishStash([Found(v, a, 0), Parked(w, 1)], pageBits, Shr(w, pageBits), ppage) ==
      [Found(v, a, 0), Found(w, Place(pageBits, w, ppage), 1)]
  {
    hide Shr, Low, Shl;
    var s, vpage := [Found(v, a, 0), Parked(w, 1)], Shr(w, pageBits);
    var p := (x: Lookup) => !x.translated && Shr(x.vaddr, pageBits) == vpage;
    LeadingIs(s, 1);
    assert s[1..] == [s[1]] && s[..1] == [s[0]];
    SelectOne(s[1], p);
    assert TranslateAll([s[1]], pageBits, vpage, ppage) == [Found(w, Place(pageBits, w, ppage), 1)];
    assert Select(s[1..], p, true) == [s[1]] && Select(s[1..], p, false) == [];
    hide Select, LeadingTranslated, TranslateAll;
  }

  lemma {:induction false} Translate2(cfg: CacheConfig, pageBits: nat, v: nat, w: nat, ppage: nat)
    requires Shr(v, pageBits) != Shr(w, pageBits) && Low(v, pageBits) == Low(w, pageBits)
    ensures var a := Place(pageBits, v, ppage);
      TranslateEach(Bare(cfg).(stash := [Parked(v, 0), Parked(w, 1)]), pageBits,
                    Translated(cfg, pageBits, v, w, ppage).translations)
      == Bare(cfg).(stash := [Found(v, a, 0), Found(w, a, 1)])
  {
    hide Shr, Low, Shl, FinishStash;
    var a := Place(pageBits, v, ppage);
    var ts: seq<(nat, nat)> := Translated(cfg, pageBits, v, w, ppage).translations;
    var c0 := Bare(cfg).(stash := [Parked(v, 0), Parked(w, 1)]);
    var c1 := Bare(cfg).(stash := [Found(v, a, 0), Parked(w, 1)]);
    var c2 := Bare(cfg).(stash := [Found(v, a, 0), Found(w, a, 1)]);
    TranslateFirst(pageBits, v, w, ppage);
    TranslateSecond(pageBits, v, a, w, ppage);
    assert TranslateAll([], pageBits, Shr(v, pageBits), ppage) == []
      && TranslateAll([], pageBits, Shr(w, pageBits), ppage) == [];
    assert FinishTranslation(c0, pageBits, ts[0].0, ts[0].1) == c1;
    assert FinishTranslation(c1, pageBits, ts[1].0, ts[1].1) == c2;
    var rest := ts[1..];
    assert rest == [ts[1]] && rest[1..] == [];
    hide FinishTranslation;
    assert TranslateEach(c2, pageBits, []) == c2;
    assert TranslateEach(c1, pageBits, rest) == c2;
  }

  lemma {:induction false} TakeTwo(cfg: CacheConfig, c: Cache, y: Cycle, a: Lookup, b: Lookup)
    requires c.stash == [a, b] && c.tags == [] && c.internal == [] && y.order == [] && y.stashShare == 2
    requires y.now == 0 && y.warmup && y.internalShare == 0
    requires a.translated && b.translated && a.ready == b.ready == 0
    ensures Park(Initiate(cfg, c, y), y) == c.(tags := [a, b], stash := [])
  {
    var p := (x: Lookup) => x.translated;
    assert SpanLen(c.stash[1..][1..], 0, p) == 0;
    assert SpanLen(c.stash[1..], 1, p) == 1;
    assert SpanLen(c.stash, 2, p) == 2;
    assert c.stash[..2] == [a, b] && c.stash[2..] == [];
    assert Retimed([a, b], 0) == [a, b];
    var d := c.(tags := [a, b], stash := []);
    assert TakeStash(c, 2, 0) == d by { assert c.tags + [a, b] == [a, b]; }
    assert Retimed(d.internal[..0], 0) == [] && d.internal[0..] == [] && d.tags + [] == d.tags;
    assert Initiate(cfg, c, y) == d;
    hide Initiate, TakeStash;
    var q := (x: Lookup) => x.ready <= y.now && !x.translated;
    assert Issue(d.tags, y.issueTags) == d.tags && Issue(d.stash, y.issueStash) == [];
    SelectTwo(d.tags, q, false);
    hide Issue, Select;
  }

  lemma {:induction false} NoWay(cfg: CacheConfig, s: seq<Way>, a: nat)
    requires forall k :: 0 <= k < |s| ==> !s[k].valid
    ensures FindWay(cfg, s, a) == |s|
  {
  }

  /** Both miss, and merge. */
  lemma {:induction false} MissTwo(cfg: CacheConfig, c: Cache, y: Cycle, v: nat, w: nat, a: nat)
    requires Roomy(cfg) && c == Bare(cfg).(tags := [Found(v, a, 0), Found(w, a, 1)])
    requires y.now == 0 && y.warmup && y.accepts(0)
    ensures Sized(cfg, c) && TagChecks(cfg, c, y.accepts, y.now, y.warmup) ==
      Bare(cfg).(mshr := [Missed(w, a)], sent := [Found(v, a, 0)])
  {
    hide SetIndex, BlockOf;
    BareSized(cfg);
    var x, z := Found(v, a, 0), Found(w, a, 1);
    var p := (l: Lookup) => l.ready <= y.now && l.translated;
    assert SpanLen(c.tags, cfg.maxTag, p) == 2 by {
      assert SpanLen(c.tags[1..][1..], cfg.maxTag - 2, p) == 0;
      assert SpanLen(c.tags[1..], cfg.maxTag - 1, p) == 1;
    }
    assert c.tags[..2] == [x, z] && c.tags[2..] == [];
    NoWay(cfg, c.block[SetIndex(cfg, a)], a);
    assert !Hits(cfg, c, x) && !Hits(cfg, c, z);
    hide Hits, FindWay;
    assert [x, z][1..] == [z] && [z][1..] == [];
    assert TryHits(cfg, c, []) == (c, []) && [z] + [] == [z] && [x] + [z] == [x, z];
    assert TryHits(cfg, c, [z]) == (c, [z]);
    assert TryHits(cfg, c, [x, z]) == (c, [x, z]);
    hide TryHits;
    MergeTwo(cfg, c, y, v, w, a);
  }

  lemma {:induction false} MergeTwo(cfg: CacheConfig, c: Cache, y: Cycle, v: nat, w: nat, a: nat)
    requires cfg.mshrSize >= 1 && c.mshr == [] && c.sent == [] && y.accepts(0)
    ensures HandleMisses(cfg, c, [Found(v, a, 0), Found(w, a, 1)], y.accepts, 0, y.now, y.warmup) ==
      (c.(mshr := [Missed(w, a)], sent := [Found(v, a, 0)]), [])
  {
    hide BlockOf;
    var x, z := Found(v, a, 0), Found(w, a, 1);
    var d, e := c.(mshr := [MshrOf(x)], sent := [x]), c.(mshr := [Missed(w, a)], sent := [x]);
    assert [] + [x] == [x];
    assert FindMshr(cfg, c.mshr, a) == 0 && [] + [MshrOf(x)] == [MshrOf(x)];
    assert HandleMiss(cfg, c, x, true) == Some(d);
    assert SetUnion([], []) == [];
    assert SetUnion([0], [0]) == [0] by { assert [0][1..] == []; }
    assert [0] + [1] == [0, 1];
    assert Caches.Merge(MshrOf(x), MshrOf(z)) == Missed(w, a);
    assert FindMshr(cfg, d.mshr, a) == 0 && d.mshr[0 := Missed(w, a)] == [Missed(w, a)];
    assert HandleMiss(cfg, d, z, y.accepts(1)) == Some(e);
    hide HandleMiss;
    assert [x, z][1..] == [z] && [z][1..] == [];
    assert HandleMisses(cfg, e, [], y.accepts, 2, y.now, y.warmup) == (e, []);
    assert HandleMisses(cfg, d, [z], y.accepts, 1, y.now, y.warmup) == (e, []);
  }

  lemma {:induction false} SecondCycle(cfg: CacheConfig, pageBits: nat, v: nat, w: nat, ppage: nat)
    requires Roomy(cfg) && Aliases(cfg, pageBits, v, w)
    ensures var y := Translated(cfg, pageBits, v, w, ppage);
      var c := Bare(cfg).(stash := [Parked(v, 0), Parked(w, 1)]);
      && Entered(cfg, c, Both(v, w), y) == (c, Both(v, w))
      && Sized(cfg, c) && VictimsOk(cfg, y.choices) && CycleOk(cfg, c, y) && ArrivalsOk(y)
      && Operate(cfg, c, y) == Bare(cfg).(mshr := [Missed(w, Place(pageBits, v, ppage))],
        sent := [Found(v, Place(pageBits, v, ppage), 0)])
  {
    hide CheckChannels, Fills, Initiate, Park, TagChecks, Sized, TranslateEach, Place;
    var y, a := Translated(cfg, pageBits, v, w, ppage), Place(pageBits, v, ppage);
    var c := Bare(cfg).(stash := [Parked(v, 0), Parked(w, 1)]);
    assert c.internal + [] == c.internal;
    BareSized(cfg);
    SameSized(cfg, Bare(cfg), c);
    NoChecks(cfg, c);
    Translate2(cfg, pageBits, v, w, ppage);
    var d := Bare(cfg).(stash := [Found(v, a, 0), Found(w, a, 1)]);
    SameSized(cfg, Bare(cfg), d);
    NoFills(cfg, d, y);
    TakeTwo(cfg, d, y, Found(v, a, 0), Found(w, a, 1));
    MissTwo(cfg, Bare(cfg).(tags := [Found(v, a, 0), Found(w, a, 1)]), y, v, w, a);
  }

  // ---- the third cycle ----

  /** The block returns, and one answer goes out. */
  lemma {:induction false} ThirdCycle(cfg: CacheConfig, pageBits: nat, v: nat, w: nat, a: nat)
    requires Roomy(cfg)
    ensures var y := Returned(cfg, pageBits, a);
      var c := Bare(cfg).(mshr := [Missed(w, a)], sent := [Found(v, a, 0)]);
      && Entered(cfg, c, Both(v, w), y) == (c, Both(v, w))
      && Sized(cfg, c) && VictimsOk(cfg, y.choices) && CycleOk(cfg, c, y) && ArrivalsOk(y)
      && Operate(cfg, c, y).answers == [Answer(a, w, [], [0], [0, 1])]
  {
    hide CheckChannels, Initiate, Park, TagChecks, Sized, BlockOf, Fills;
    var y := Returned(cfg, pageBits, a);
    var m := Missed(w, a);
    var c := Bare(cfg).(mshr := [m], sent := [Found(v, a, 0)]);
    assert c.internal + [] == c.internal;
    BareSized(cfg);
    SameSized(cfg, Bare(cfg), c);
    NoChecks(cfg, c);
    var d := Bare(cfg).(mshr := [m.(data := Some(0))], sent := [Found(v, a, 0)]);
    assert FindMshr(cfg, c.mshr, a) == 0 && FirstUnreturned(c.mshr) == 0;
    assert Return(c.mshr, 0, 0) == d.mshr by { assert c.mshr[0 := m.(data := Some(0))] == d.mshr; }
    assert FinishPacket(cfg, c, a, 0, true) == d;
    hide FinishPacket;
    assert [a][1..] == [];
    assert FinishAll(cfg, c, [a], 0, true) == d by { assert FinishAll(cfg, d, [], 0, true) == d; }
    assert Returnable(cfg, c.mshr, a) by { assert c.mshr[0].data.None?; }
    hide FinishAll, Returnable;
    SameSized(cfg, Bare(cfg), d);
    FillOne(cfg, d, y, m.(data := Some(0)));
    assert [] + [AnswerOf(m.(data := Some(0)))] == [Answer(a, w, [], [0], [0, 1])];
    var f := Fills(cfg, d, y.now, y.choices);
    assert ReturnsOk(cfg, c, [a], 0, true);
    assert Returns(cfg, c, y) == d;
    NoLookups(cfg, f, y);
    NoTagChecks(cfg, f, y);
  }

  lemma {:induction false} FillOne(cfg: CacheConfig, d: Cache, y: Cycle, m: Mshr)
    requires Sized(cfg, d) && VictimsOk(cfg, y.choices) && cfg.maxFill >= 1
    requires d.mshr == [m] && d.writes == [] && m.data == Some(0) && y.now == 0 && y.choices(0).writeback
    ensures var f := Fills(cfg, d, y.now, y.choices);
      f == d.(mshr := [], block := f.block, answers := d.answers + [AnswerOf(m)], events := f.events)
  {
    hide Sized, VictimsOk, SetIndex, FirstInvalid;
    var p := (x: Mshr) => IsReady(x, 0);
    assert SpanLen(d.mshr, cfg.maxFill, p) == 1 by { assert SpanLen(d.mshr[1..], cfg.maxFill - 1, p) == 0; }
    var e := Filled(cfg, d, [m], y.choices, 0);
    assert FillFrom(cfg, e, [m][1..], 0, y.choices, 1) == (e, 0);
    assert FillFrom(cfg, d, [m], 1, y.choices, 0) == (e, 1);
    hide FillFrom, Filled;
    assert d.mshr[1..] == [];
    var (r, k) := FillMshrs(cfg, d, 0, y.choices);
    assert r == e.(mshr := []) && k == 1;
    assert FillFrom(cfg, r, r.writes, 0, y.choices, 1) == (r, 0) by { FillNone(cfg, r, r.writes, y.choices, 1); }
    assert r.writes[0..] == r.writes;
  }

  lemma FillNone(cfg: CacheConfig, c: Cache, q: seq<Mshr>, choices: nat -> FillChoice, k: nat)
    requires Sized(cfg, c) && VictimsOk(cfg, choices)
    ensures FillFrom(cfg, c, q, 0, choices, k) == (c, 0)
  {
  }

  // ---- the run ----

  lemma {:induction false} RunMore(cfg: CacheConfig, ys: seq<Cycle>, y: Cycle)
    requires RunOk(cfg, 1, ys) && NextOk(cfg, Run(cfg, 1, ys).0, Run(cfg, 1, ys).1, ys, y)
    ensures RunOk(cfg, 1, ys + [y])
    ensures var (c, acc) := Run(cfg, 1, ys);
      var (d, more) := Entered(cfg, c, acc, y);
      Sized(cfg, d) && VictimsOk(cfg, y.choices) && Run(cfg, 1, ys + [y]) == (Operate(cfg, d, y), more)
  {
    hide Inv, NextOk, Entered, Operate, Empty, CycleOk, ArrivalsOk, InvAfter;
    assert (ys + [y])[..|ys|] == ys && (ys + [y])[|ys|] == y;
    var (c, acc) := Run(cfg, 1, ys);
    NextInv(cfg, 1, c, acc, ys, y);
    EnteredInv(cfg, c, acc, y.now, y.warmup, y);
    var (d, more) := Entered(cfg, c, acc, y);
    OperateInv(cfg, d, more, y);
  }

  /** A run of three cycles in which nothing arrives but the two loads, nothing is translated but
      their pages, both to `ppage`, and the one answer answers both, with the address of the
      second. */
  ghost predicate AliasRun(cfg: CacheConfig, ys: seq<Cycle>, pageBits: nat, v: nat, w: nat, ppage: nat) {
    && RunOk(cfg, 1, ys) && |ys| == 3
    && (forall i :: 0 <= i < 3 ==> ys[i].pageBits == pageBits && ys[i].prefetches == [])
    && ys[0].arrivals == [Load0(v), Load0(w)] && ys[1].arrivals == [] && ys[2].arrivals == []
    && ys[0].translations == [] && ys[2].translations == []
    && ys[1].translations == [(Shr(v, pageBits), ppage), (Shr(w, pageBits), ppage)]
    && var (c, acc) := Run(cfg, 1, ys);
       acc == Both(v, w) && c.answers == [Answer(Place(pageBits, v, ppage), w, [], [0], [0, 1])]
  }

  /** Any two pages will do. */
  lemma AliasesExist(cfg: CacheConfig, pageBits: nat)
    requires cfg.OffsetBits() <= pageBits
    ensures Aliases(cfg, pageBits, 0, Shl(1, pageBits))
  {
    hide Shr, Shl, Low, Pow2;
    var off := cfg.OffsetBits();
    ShrShl(1, pageBits, 0);
    ShrNothing(1);
    ShlShl(1, pageBits - off, off);
    ShrShl(Shl(1, pageBits - off), off, 0);
    ShrNothing(Shl(1, pageBits - off));
    OneIsLeft(pageBits - off);
    ZeroStays(pageBits);
    ZeroStays(off);
    Join(0, 1, pageBits);
  }

  lemma {:induction false} OneIsLeft(n: nat)
    ensures Shl(1, n) > 0
  {
    if n > 0 { OneIsLeft(n - 1); }
  }

  lemma {:induction false} ZeroStays(n: nat)
    ensures Shr(0, n) == 0 && Low(0, n) == 0
  {
    if n > 0 { ZeroStays(n - 1); }
  }

  /** Where translations give two virtual blocks one physical block, the core that loads from both
      is answered for both with the address of the second: the first load's block is in no answer,
      so AnswersCarryVirtualBlocks needs its condition. */
  lemma {:induction false} AliasLosesBlock(cfg: CacheConfig, pageBits: nat, v: nat, w: nat, ppage: nat)
    requires Roomy(cfg) && Aliases(cfg, pageBits, v, w)
    ensures exists ys :: AliasRun(cfg, ys, pageBits, v, w, ppage)
    ensures forall ys :: AliasRun(cfg, ys, pageBits, v, w, ppage) ==>
      forall i :: 0 <= i < |Run(cfg, 1, ys).0.answers| ==>
        BlockOf(cfg, Run(cfg, 1, ys).0.answers[i].vaddr) != BlockOf(cfg, v)
  {
    hide Entered, Operate, CycleOk, ArrivalsOk, Ask, Translated, Returned, Place, BlockOf, Low, Shr, Roomy, Empty;
    var a := Place(pageBits, v, ppage);
    var y1, y2, y3 := Ask(cfg, pageBits, v, w), Translated(cfg, pageBits, v, w, ppage), Returned(cfg, pageBits, a);
    CyclesAre(cfg, pageBits, v, w, ppage, a);
    RunNone(cfg);
    FirstCycle(cfg, pageBits, v, w);
    RunMore(cfg, [], y1);
    SecondCycle(cfg, pageBits, v, w, ppage);
    RunMore(cfg, [] + [y1], y2);
    ThirdCycle(cfg, pageBits, v, w, a);
    RunMore(cfg, [] + [y1] + [y2], y3);
    var ys := [] + [y1] + [y2] + [y3];
    assert AliasRun(cfg, ys, pageBits, v, w, ppage);
  }

  /** And no reading of physical blocks as virtual ones makes sense of such a run. */
  lemma {:induction false} AliasRunsAreNotUnderstood(cfg: CacheConfig, ys: seq<Cycle>, pageBits: nat, v: nat, w: nat,
      ppage: nat, view: View)
    requires Aliases(cfg, pageBits, v, w) && AliasRun(cfg, ys, pageBits, v, w, ppage) && view.off == cfg.OffsetBits()
    ensures !Understood(view, ys)
  {
    hide RunOk, Run, Understood, BlockOf, Shr, Low, Place;
    if Understood(view, ys) {
      AnswersCarryVirtualBlocks(view, cfg, 1, ys, 0, 0);
      assert false;
    }
  }

  /** Such loads exist for every cache with room, whatever the size of a page and the page both
      are translated to. */
  lemma {:induction false} SomeRunLosesBlock(cfg: CacheConfig, pageBits: nat, ppage: nat)
    requires Roomy(cfg) && cfg.OffsetBits() <= pageBits
    ensures exists v: nat, w: nat, ys ::
      Aliases(cfg, pageBits, v, w) && AliasRun(cfg, ys, pageBits, v, w, ppage)
  {
    hide AliasRun, Aliases, Roomy;
    AliasesExist(cfg, pageBits);
    AliasLosesBlock(cfg, pageBits, 0, Shl(1, pageBits), ppage);
  }

  lemma RunNone(cfg: CacheConfig)
    ensures RunOk(cfg, 1, []) && Run(cfg, 1, []) == (Bare(cfg), [])
  {
  }

  lemma CyclesAre(cfg: CacheConfig, pageBits: nat, v: nat, w: nat, ppage: nat, a: nat)
    ensures var x, y, z := Ask(cfg, pageBits, v, w), Translated(cfg, pageBits, v, w, ppage), Returned(cfg, pageBits, a);
      && x.now == y.now == z.now && x.warmup && y.warmup && z.warmup
      && x.pageBits == y.pageBits == z.pageBits == pageBits
      && x.prefetches == [] && y.prefetches == [] && z.prefetches == []
      && x.arrivals == [Load0(v), Load0(w)] && y.arrivals == [] && z.arrivals == []
      && x.translations == [] && z.translations == []
      && y.translations == [(Shr(v, pageBits), ppage), (Shr(w, pageBits), ppage)]
  {
  }
}
