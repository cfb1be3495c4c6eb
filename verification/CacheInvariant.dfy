/** What every step of a cache keeps: requests that want a response are conserved, misses
    are disciplined, and with full-address matching no block is in two places. */
module CacheInvariant {
  import opened Sequences
  import opened SortedLists
  import opened Bits
  import opened Responses
  import opened Channels
  import opened Caches

  // ---- tokens ----

  /** How often token `t` is in these lists. */
  ghost function Count(ts: seq<seq<nat>>, t: nat): nat {
    if ts == [] then 0 else multiset(ts[0])[t] + Count(ts[1..], t)
  }

  lemma {:induction false} CountAppend(s: seq<seq<nat>>, u: seq<seq<nat>>, t: nat)
    ensures Count(s + u, t) == Count(s, t) + Count(u, t)
  {
    if s == [] {
      assert s + u == u;
    } else {
      assert (s + u)[1..] == s[1..] + u;
      CountAppend(s[1..], u, t);
    }
  }

  lemma CountOne(x: seq<nat>, t: nat)
    ensures Count([x], t) == multiset(x)[t]
  {
    assert Count([x], t) == multiset(x)[t] + Count([x][1..], t);
  }

  lemma {:induction false} CountUpdate(s: seq<seq<nat>>, i: nat, x: seq<nat>, t: nat)
    requires i < |s|
    ensures Count(s[i := x], t) + multiset(s[i])[t] == Count(s, t) + multiset(x)[t]
  {
    var r := s[i := x];
    if i > 0 {
      assert r[1..] == s[1..][i - 1 := x];
      CountUpdate(s[1..], i - 1, x, t);
    } else {
      assert r[1..] == s[1..];
    }
  }

  /** The tokens of lookups and of misses. */
  ghost function OfLookups(s: seq<Lookup>): (r: seq<seq<nat>>)
    ensures |r| == |s| && forall i :: 0 <= i < |s| ==> r[i] == s[i].tokens
  {
    seq(|s|, i requires 0 <= i < |s| => s[i].tokens)
  }

  ghost function OfMshrs(s: seq<Mshr>): (r: seq<seq<nat>>)
    ensures |r| == |s| && forall i :: 0 <= i < |s| ==> r[i] == s[i].tokens
  {
    seq(|s|, i requires 0 <= i < |s| => s[i].tokens)
  }

  ghost function InLookups(s: seq<Lookup>, t: nat): nat { Count(OfLookups(s), t) }

  ghost function InMshrs(s: seq<Mshr>, t: nat): nat { Count(OfMshrs(s), t) }

  ghost function InChannels(cs: seq<Channel>, t: nat): nat {
    if cs == [] then 0 else ChannelTokens(cs[0])[t] + InChannels(cs[1..], t)
  }

  lemma {:induction false} LookupsAppend(s: seq<Lookup>, u: seq<Lookup>, t: nat)
    ensures InLookups(s + u, t) == InLookups(s, t) + InLookups(u, t)
  {
    assert OfLookups(s + u) == OfLookups(s) + OfLookups(u);
    CountAppend(OfLookups(s), OfLookups(u), t);
  }

  lemma {:induction false} LookupsSplit(s: seq<Lookup>, k: nat, t: nat)
    requires k <= |s|
    ensures InLookups(s, t) == InLookups(s[..k], t) + InLookups(s[k..], t)
  {
    assert s == s[..k] + s[k..];
    LookupsAppend(s[..k], s[k..], t);
  }

  lemma LookupsOne(x: Lookup, t: nat)
    ensures InLookups([x], t) == multiset(x.tokens)[t]
  {
    assert OfLookups([x]) == [x.tokens];
    CountOne(x.tokens, t);
  }

  lemma {:induction false} LookupsHead(s: seq<Lookup>, t: nat)
    requires s != []
    ensures InLookups(s, t) == multiset(s[0].tokens)[t] + InLookups(s[1..], t)
  {
    assert s == [s[0]] + s[1..];
    LookupsAppend([s[0]], s[1..], t);
    LookupsOne(s[0], t);
  }

  lemma SameTokens(s: seq<Lookup>, u: seq<Lookup>, t: nat)
    requires |s| == |u| && forall i :: 0 <= i < |s| ==> s[i].tokens == u[i].tokens
    ensures InLookups(s, t) == InLookups(u, t)
  {
    assert OfLookups(s) == OfLookups(u);
  }

  lemma {:induction false} SelectTokens(s: seq<Lookup>, p: Lookup -> bool, t: nat)
    ensures InLookups(Select(s, p, true), t) + InLookups(Select(s, p, false), t) == InLookups(s, t)
  {
    if s != [] {
      SelectTokens(s[1..], p, t);
      LookupsHead(s, t);
      var m := p(s[0]);
      assert Select(s, p, m) == [s[0]] + Select(s[1..], p, m) && Select(s, p, !m) == Select(s[1..], p, !m);
      LookupsAppend([s[0]], Select(s[1..], p, m), t);
      LookupsOne(s[0], t);
    }
  }

  lemma {:induction false} MshrsAppend(s: seq<Mshr>, u: seq<Mshr>, t: nat)
    ensures InMshrs(s + u, t) == InMshrs(s, t) + InMshrs(u, t)
  {
    assert OfMshrs(s + u) == OfMshrs(s) + OfMshrs(u);
    CountAppend(OfMshrs(s), OfMshrs(u), t);
  }

  lemma MshrsOne(x: Mshr, t: nat)
    ensures InMshrs([x], t) == multiset(x.tokens)[t]
  {
    assert OfMshrs([x]) == [x.tokens];
    CountOne(x.tokens, t);
  }

  lemma {:induction false} MshrsHead(s: seq<Mshr>, t: nat)
    requires s != []
    ensures InMshrs(s, t) == multiset(s[0].tokens)[t] + InMshrs(s[1..], t)
  {
    assert s == [s[0]] + s[1..];
    MshrsAppend([s[0]], s[1..], t);
    MshrsOne(s[0], t);
  }

  lemma {:induction false} MshrsUpdate(s: seq<Mshr>, i: nat, x: Mshr, t: nat)
    requires i < |s|
    ensures InMshrs(s[i := x], t) + multiset(s[i].tokens)[t] == InMshrs(s, t) + multiset(x.tokens)[t]
  {
    assert OfMshrs(s[i := x]) == OfMshrs(s)[i := x.tokens];
    CountUpdate(OfMshrs(s), i, x.tokens, t);
  }

  lemma {:induction false} ChannelsUpdate(cs: seq<Channel>, i: nat, c: Channel, t: nat)
    requires i < |cs|
    ensures InChannels(cs[i := c], t) + ChannelTokens(cs[i])[t] == InChannels(cs, t) + ChannelTokens(c)[t]
  {
    var ds := cs[i := c];
    hide ChannelTokens;
    if i > 0 {
      assert ds[1..] == cs[1..][i - 1 := c];
      ChannelsUpdate(cs[1..], i - 1, c, t);
    } else {
      assert ds[1..] == cs[1..];
    }
  }

  /** In how many places request `t` is. */
  ghost function Places(c: Cache, t: nat): nat {
    InChannels(c.channels, t) + InLookups(c.internal, t) + InLookups(c.tags, t) + InLookups(c.stash, t)
    + InMshrs(c.mshr, t) + InMshrs(c.writes, t) + Given(c.answers)[t]
  }

  ghost predicate Conserved(n: nat, c: Cache) {
    forall t: nat :: Places(c, t) == if t < n then 1 else 0
  }

  // ---- what each entry answers for ----

  ghost predicate Serves(acc: seq<Accepted>, off: nat, address: nat, deps: seq<nat>, ret: seq<nat>, tokens: seq<nat>) {
    Sorted(deps) && Sorted(ret) && forall k :: 0 <= k < |tokens| ==> AnswersFor(acc, off, address, deps, ret, tokens[k])
  }

  /** A lookup that is not translated stands only for requests that were not; a local
      prefetch stands for none. */
  ghost predicate LookupOk(acc: seq<Accepted>, off: nat, x: Lookup) {
    && Serves(acc, off, x.address, x.deps, x.ret, x.tokens)
    && (!x.translated ==> forall k :: 0 <= k < |x.tokens| ==> x.tokens[k] < |acc| && !acc[x.tokens[k]].translated)
    && (x.fromThis ==> x.tokens == [])
  }

  ghost predicate MshrOk(acc: seq<Accepted>, off: nat, x: Mshr) {
    Serves(acc, off, x.address, x.deps, x.ret, x.tokens)
  }

  ghost predicate LookupsOk(acc: seq<Accepted>, off: nat, s: seq<Lookup>) {
    forall i :: 0 <= i < |s| ==> LookupOk(acc, off, s[i])
  }

  ghost predicate MshrsOk(acc: seq<Accepted>, off: nat, s: seq<Mshr>) {
    forall i :: 0 <= i < |s| ==> MshrOk(acc, off, s[i])
  }

  ghost predicate ChannelsOk(acc: seq<Accepted>, off: nat, cs: seq<Channel>) {
    forall i :: 0 <= i < |cs| ==> ChannelOk(acc, off, i, cs[i])
  }

  ghost predicate Serving(cfg: CacheConfig, acc: seq<Accepted>, c: Cache) {
    var off := cfg.OffsetBits();
    && ChannelsOk(acc, off, c.channels) && LookupsOk(acc, off, c.internal) && LookupsOk(acc, off, c.tags)
      && LookupsOk(acc, off, c.stash)
    && MshrsOk(acc, off, c.mshr) && MshrsOk(acc, off, c.writes) && AnswersOk(acc, off, c.answers)
  }

  /** Both halves of the accounting. */
  ghost predicate Kept(cfg: CacheConfig, acc: seq<Accepted>, c: Cache) {
    Conserved(|acc|, c) && Serving(cfg, acc, c)
  }

  lemma {:induction false} AnswerKeeps(acc: seq<Accepted>, off: nat, answers: seq<Answer>, a: Answer)
    requires AnswersOk(acc, off, answers) && Serves(acc, off, a.address, a.deps, a.ret, a.tokens)
    ensures AnswersOk(acc, off, answers + [a]) && Given(answers + [a]) == Given(answers) + multiset(a.tokens)
  {
    GivenAppend(answers, a);
    hide AnswersFor, Given;
  }

  // ---- collisions ----

  lemma {:induction false} CheckChannelsKeep(cfg: CacheConfig, acc: seq<Accepted>, c: Cache, i: nat)
    requires Kept(cfg, acc, c) && i <= |c.channels|
    ensures Kept(cfg, acc, CheckChannels(cfg, c, i))
    decreases |c.channels| - i
  {
    if i < |c.channels| {
      var (d, a) := CheckCollision(cfg.channel, c.channels[i], i, c.answers);
      var e := c.(channels := c.channels[i := d], answers := a);
      CheckChannelKeeps(cfg, acc, c, i);
      hide Kept, CheckCollision;
      CheckChannelsKeep(cfg, acc, e, i + 1);
    }
  }

  lemma {:induction false} CheckChannelKeeps(cfg: CacheConfig, acc: seq<Accepted>, c: Cache, i: nat)
    requires Kept(cfg, acc, c) && i < |c.channels|
    ensures var (d, a) := CheckCollision(cfg.channel, c.channels[i], i, c.answers);
      Kept(cfg, acc, c.(channels := c.channels[i := d], answers := a))
  {
    var (d, a) := CheckCollision(cfg.channel, c.channels[i], i, c.answers);
    CheckCollisionKeeps(cfg.channel, acc, i, c.channels[i], c.answers);
    hide CheckCollision, ChannelOk, LookupsOk, MshrsOk, AnswersOk;
    var e := c.(channels := c.channels[i := d], answers := a);
    assert Serving(cfg, acc, e);
    hide Serving, InChannels, InLookups, InMshrs, Given, ChannelTokens;
    forall t: nat ensures Places(e, t) == if t < |acc| then 1 else 0 {
      assert Places(c, t) == if t < |acc| then 1 else 0;
      assert ChannelTokens(d)[t] + Given(a)[t] == ChannelTokens(c.channels[i])[t] + Given(c.answers)[t];
      ChannelsUpdate(c.channels, i, d, t);
    }
  }

  // ---- returns and translations ----

  lemma {:induction false} ReturnPlaces(q: seq<Mshr>, k: nat, at: int, t: nat)
    requires k < |q| && FirstUnreturned(q) < |q|
    ensures InMshrs(Return(q, k, at), t) == InMshrs(q, t)
  {
    var f, x := FirstUnreturned(q), q[k].(data := Some(at));
    if f == k {
      MshrsUpdate(q, k, x, t);
    } else {
      MshrsUpdate(q, k, q[f], t);
      MshrsUpdate(q[k := q[f]], f, x, t);
    }
  }

  lemma {:induction false} ReturnOk(acc: seq<Accepted>, off: nat, q: seq<Mshr>, k: nat, at: int)
    requires MshrsOk(acc, off, q) && k < |q| && FirstUnreturned(q) < |q|
    ensures MshrsOk(acc, off, Return(q, k, at))
  {
    var f, x := FirstUnreturned(q), q[k].(data := Some(at));
    assert MshrOk(acc, off, q[k]) && MshrOk(acc, off, q[f]);
    assert MshrOk(acc, off, x);
    hide MshrOk, FirstUnreturned;
  }

  lemma {:induction false} FinishPacketKeeps(cfg: CacheConfig, acc: seq<Accepted>, c: Cache, a: nat, now: int,
      warmup: bool)
    requires Kept(cfg, acc, c)
    ensures Kept(cfg, acc, FinishPacket(cfg, c, a, now, warmup))
  {
    var k, at := FindMshr(cfg, c.mshr, a), now + Latency(warmup, cfg.fillLatency);
    if k < |c.mshr| && FirstUnreturned(c.mshr) < |c.mshr| {
      ReturnOk(acc, cfg.OffsetBits(), c.mshr, k, at);
      var d := c.(mshr := Return(c.mshr, k, at));
      assert d == FinishPacket(cfg, c, a, now, warmup);
      hide FinishPacket, ChannelsOk, LookupsOk, MshrsOk, AnswersOk, FindMshr, Return, FirstUnreturned, InChannels,
        InLookups, InMshrs, Given;
      forall t: nat ensures Places(d, t) == if t < |acc| then 1 else 0 {
        assert Places(c, t) == if t < |acc| then 1 else 0;
        ReturnPlaces(c.mshr, k, at, t);
      }
    }
  }

  lemma TranslateOk(acc: seq<Accepted>, off: nat, x: Lookup, pageBits: nat, vpage: nat, ppage: nat)
    requires LookupOk(acc, off, x)
    ensures LookupOk(acc, off, Translate(x, pageBits, vpage, ppage))
  {
    hide Prefix;
    var y := Translate(x, pageBits, vpage, ppage);
    forall k | 0 <= k < |y.tokens| ensures AnswersFor(acc, off, y.address, y.deps, y.ret, y.tokens[k]) {
      assert AnswersFor(acc, off, x.address, x.deps, x.ret, x.tokens[k]);
    }
  }

  lemma {:induction false} TranslateAllOk(acc: seq<Accepted>, off: nat, s: seq<Lookup>, pageBits: nat, vpage: nat,
      ppage: nat)
    requires LookupsOk(acc, off, s)
    ensures LookupsOk(acc, off, TranslateAll(s, pageBits, vpage, ppage))
  {
    forall i | 0 <= i < |s| ensures LookupOk(acc, off, Translate(s[i], pageBits, vpage, ppage)) {
      TranslateOk(acc, off, s[i], pageBits, vpage, ppage);
    }
    hide LookupOk, Translate;
  }

  lemma {:induction false} SelectOk(acc: seq<Accepted>, off: nat, s: seq<Lookup>, p: Lookup -> bool, want: bool)
    requires LookupsOk(acc, off, s)
    ensures LookupsOk(acc, off, Select(s, p, want))
  {
    hide LookupOk;
    var r := Select(s, p, want);
    forall x | x in s ensures LookupOk(acc, off, x) { var i :| 0 <= i < |s| && s[i] == x; }
    forall i | 0 <= i < |r| ensures LookupOk(acc, off, r[i]) { assert r[i] in r; }
  }

  lemma PartsOk(acc: seq<Accepted>, off: nat, s: seq<Lookup>, u: seq<Lookup>)
    requires LookupsOk(acc, off, s) && LookupsOk(acc, off, u)
    ensures LookupsOk(acc, off, s + u)
    ensures forall k :: 0 <= k <= |s| ==> LookupsOk(acc, off, s[..k]) && LookupsOk(acc, off, s[k..])
  {
    hide LookupOk;
  }

  lemma {:induction false} FinishStashKeeps(acc: seq<Accepted>, off: nat, s: seq<Lookup>, pageBits: nat, vpage: nat,
      ppage: nat)
    requires LookupsOk(acc, off, s)
    ensures LookupsOk(acc, off, FinishStash(s, pageBits, vpage, ppage))
    ensures forall t: nat :: InLookups(FinishStash(s, pageBits, vpage, ppage), t) == InLookups(s, t)
  {
    var b := LeadingTranslated(s);
    var p := (x: Lookup) => !x.translated && Shr(x.vaddr, pageBits) == vpage;
    var u, v := Select(s[b..], p, true), Select(s[b..], p, false);
    var w := TranslateAll(u, pageBits, vpage, ppage);
    PartsOk(acc, off, s, s);
    SelectOk(acc, off, s[b..], p, true);
    SelectOk(acc, off, s[b..], p, false);
    TranslateAllOk(acc, off, u, pageBits, vpage, ppage);
    hide LookupOk, Select, LeadingTranslated;
    PartsOk(acc, off, s[..b], w);
    PartsOk(acc, off, s[..b] + w, v);
    forall t: nat ensures InLookups(FinishStash(s, pageBits, vpage, ppage), t) == InLookups(s, t) {
      LookupsAppend(s[..b], w, t);
      LookupsAppend(s[..b] + w, v, t);
      SameTokens(u, w, t);
      SelectTokens(s[b..], p, t);
      LookupsSplit(s, b, t);
      hide InLookups, LookupsOk;
    }
  }

  lemma {:induction false} FinishTranslationKeeps(cfg: CacheConfig, acc: seq<Accepted>, c: Cache, pageBits: nat,
      vpage: nat, ppage: nat)
    requires Kept(cfg, acc, c)
    ensures Kept(cfg, acc, FinishTranslation(c, pageBits, vpage, ppage))
  {
    FinishStashKeeps(acc, cfg.OffsetBits(), c.stash, pageBits, vpage, ppage);
    TranslateAllOk(acc, cfg.OffsetBits(), c.tags, pageBits, vpage, ppage);
    var d := FinishTranslation(c, pageBits, vpage, ppage);
    hide ChannelsOk, LookupsOk, MshrsOk, AnswersOk, FinishStash, InChannels, InMshrs, Given;
    forall t: nat ensures Places(d, t) == if t < |acc| then 1 else 0 {
      assert Places(c, t) == if t < |acc| then 1 else 0;
      SameTokens(c.tags, d.tags, t);
      hide InLookups;
    }
  }

  // ---- fills ----

  /** The part of the accounting a fill from `q` works on: `q` is still to be filled. */
  ghost predicate Filling(cfg: CacheConfig, acc: seq<Accepted>, c: Cache, q: seq<Mshr>) {
    MshrsOk(acc, cfg.OffsetBits(), q) && AnswersOk(acc, cfg.OffsetBits(), c.answers)
  }

  lemma {:induction false} FillFromServes(cfg: CacheConfig, acc: seq<Accepted>, c: Cache, q: seq<Mshr>, n: nat,
      choices: nat -> FillChoice, k: nat)
    requires Sized(cfg, c) && n <= |q| && VictimsOk(cfg, choices) && Filling(cfg, acc, c, q)
    ensures var (r, m) := FillFrom(cfg, c, q, n, choices, k); Filling(cfg, acc, r, q[m..])
    decreases n
  {
    hide *;
    FillStep(cfg, c, q, n, choices, k);
    var (r, m) := FillFrom(cfg, c, q, n, choices, k);
    if m > 0 {
      var d := Filled(cfg, c, q, choices, k);
      FillAnswers(cfg, acc, c, q, choices, k);
      FillFromServes(cfg, acc, d, q[1..], n - 1, choices, k + 1);
      TailOfTail(q, m);
    } else {
      assert q[0..] == q;
    }
  }

  lemma {:induction false} FillFromFrame(cfg: CacheConfig, c: Cache, q: seq<Mshr>, n: nat, choices: nat -> FillChoice,
      k: nat)
    requires Sized(cfg, c) && n <= |q| && VictimsOk(cfg, choices)
    ensures var r := FillFrom(cfg, c, q, n, choices, k).0;
      r == c.(block := r.block, answers := r.answers, events := r.events)
    decreases n
  {
    FillStep(cfg, c, q, n, choices, k);
    hide FillFrom, Sized, VictimsOk, Filled;
    if FillFrom(cfg, c, q, n, choices, k).1 > 0 {
      FillFromFrame(cfg, Filled(cfg, c, q, choices, k), q[1..], n - 1, choices, k + 1);
    }
  }

  lemma {:induction false} FillFromPlaces(cfg: CacheConfig, c: Cache, q: seq<Mshr>, n: nat, choices: nat -> FillChoice,
      k: nat, t: nat)
    requires Sized(cfg, c) && n <= |q| && VictimsOk(cfg, choices)
    ensures var (r, m) := FillFrom(cfg, c, q, n, choices, k);
      InMshrs(q[m..], t) + Given(r.answers)[t] == InMshrs(q, t) + Given(c.answers)[t]
    decreases n
  {
    hide *;
    FillStep(cfg, c, q, n, choices, k);
    var (r, m) := FillFrom(cfg, c, q, n, choices, k);
    if m > 0 {
      var d := Filled(cfg, c, q, choices, k);
      FillFromPlaces(cfg, d, q[1..], n - 1, choices, k + 1, t);
      GivenOne(c.answers, q, t);
      TailOfTail(q, m);
    } else {
      assert q[0..] == q;
    }
  }

  lemma GivenOne(answers: seq<Answer>, q: seq<Mshr>, t: nat)
    requires q != []
    ensures InMshrs(q[1..], t) + Given(answers + [AnswerOf(q[0])])[t] == InMshrs(q, t) + Given(answers)[t]
  {
    GivenAppend(answers, AnswerOf(q[0]));
    MshrsHead(q, t);
    hide Given, InMshrs;
  }

  lemma {:induction false} FillAnswers(cfg: CacheConfig, acc: seq<Accepted>, c: Cache, q: seq<Mshr>,
      choices: nat -> FillChoice, k: nat)
    requires Sized(cfg, c) && q != [] && VictimsOk(cfg, choices) && Filling(cfg, acc, c, q)
    ensures Filling(cfg, acc, Filled(cfg, c, q, choices, k), q[1..])
  {
    assert MshrOk(acc, cfg.OffsetBits(), q[0]);
    AnswerKeeps(acc, cfg.OffsetBits(), c.answers, AnswerOf(q[0]));
    hide Filled, AnswersOk, MshrOk, Given, Sized, VictimsOk;
  }

  lemma {:induction false} FillMshrsKeep(cfg: CacheConfig, acc: seq<Accepted>, c: Cache, now: int,
      choices: nat -> FillChoice)
    requires Kept(cfg, acc, c) && Sized(cfg, c) && VictimsOk(cfg, choices)
    ensures Kept(cfg, acc, FillMshrs(cfg, c, now, choices).0)
  {
    var n := SpanLen(c.mshr, cfg.maxFill, (x: Mshr) => IsReady(x, now));
    hide SpanLen, FillFrom, ChannelsOk, LookupsOk, MshrsOk, AnswersOk, VictimsOk, Given, InChannels, InMshrs, InLookups,
      Sized;
    FillFromServes(cfg, acc, c, c.mshr, n, choices, 0);
    FillFromFrame(cfg, c, c.mshr, n, choices, 0);
    var (r, m) := FillFrom(cfg, c, c.mshr, n, choices, 0);
    var d := r.(mshr := c.mshr[m..]);
    forall t: nat ensures Places(d, t) == if t < |acc| then 1 else 0 {
      assert Places(c, t) == if t < |acc| then 1 else 0;
      FillFromPlaces(cfg, c, c.mshr, n, choices, 0, t);
    }
  }

  lemma {:induction false} FillWritesKeep(cfg: CacheConfig, acc: seq<Accepted>, c: Cache, width: nat, now: int,
      choices: nat -> FillChoice, k: nat)
    requires Kept(cfg, acc, c) && Sized(cfg, c) && VictimsOk(cfg, choices)
    ensures Kept(cfg, acc, FillWrites(cfg, c, width, now, choices, k))
  {
    var n := SpanLen(c.writes, width, (x: Mshr) => IsReady(x, now));
    hide SpanLen, FillFrom, ChannelsOk, LookupsOk, MshrsOk, AnswersOk, VictimsOk, Given, InChannels, InMshrs, InLookups,
      Sized;
    FillFromServes(cfg, acc, c, c.writes, n, choices, k);
    FillFromFrame(cfg, c, c.writes, n, choices, k);
    var (r, m) := FillFrom(cfg, c, c.writes, n, choices, k);
    var d := r.(writes := c.writes[m..]);
    forall t: nat ensures Places(d, t) == if t < |acc| then 1 else 0 {
      assert Places(c, t) == if t < |acc| then 1 else 0;
      FillFromPlaces(cfg, c, c.writes, n, choices, k, t);
    }
  }

  lemma {:induction false} FillsKeep(cfg: CacheConfig, acc: seq<Accepted>, c: Cache, now: int,
      choices: nat -> FillChoice)
    requires Kept(cfg, acc, c) && Sized(cfg, c) && VictimsOk(cfg, choices)
    ensures Kept(cfg, acc, Fills(cfg, c, now, choices))
  {
    hide Kept, Sized, VictimsOk, FillMshrs, FillWrites;
    FillMshrsKeep(cfg, acc, c, now, choices);
    var (r, m) := FillMshrs(cfg, c, now, choices);
    FillWritesKeep(cfg, acc, r, cfg.maxFill - m, now, choices, m);
  }

  // ---- tag checks start ----

  lemma {:induction false} LookupsOfOk(acc: seq<Accepted>, off: nat, q: seq<Request>, channel: nat, at: int)
    requires QueueOk(acc, off, channel, q)
    ensures LookupsOk(acc, off, LookupsOf(q, channel, at))
  {
    forall i | 0 <= i < |q| ensures LookupOk(acc, off, LookupOf(q[i], channel, at)) {
      var x, y := q[i], LookupOf(q[i], channel, at);
      assert RequestOk(acc, off, channel, x);
      hide Prefix;
      forall k | 0 <= k < |x.tokens| ensures AnswersFor(acc, off, y.address, y.deps, y.ret, y.tokens[k])
        && acc[y.tokens[k]].translated == y.translated {
        assert StandsFor(acc, off, channel, x, x.tokens[k]);
      }
    }
    hide LookupOk, LookupOf, RequestOk;
  }

  lemma {:induction false} LookupsOfTokens(q: seq<Request>, channel: nat, at: int, t: nat)
    ensures InLookups(LookupsOf(q, channel, at), t) == Tokens(q)[t]
  {
    if q != [] {
      LookupsOfTokens(q[1..], channel, at, t);
      var s := LookupsOf(q, channel, at);
      LookupsHead(s, t);
      assert s[1..] == LookupsOf(q[1..], channel, at);
    }
  }

  lemma {:induction false} TokensSplit(q: seq<Request>, k: nat)
    requires k <= |q|
    ensures Tokens(q) == Tokens(q[..k]) + Tokens(q[k..])
  {
    assert q == q[..k] + q[k..];
    TokensAppend(q[..k], q[k..]);
  }

  /** Taking a prefix of one queue. */
  lemma {:induction false} TakeQueue(acc: seq<Accepted>, off: nat, q: seq<Request>, channel: nat, k: nat, at: int,
      t: nat)
    requires QueueOk(acc, off, channel, q) && k <= |q|
    ensures QueueOk(acc, off, channel, q[k..]) && LookupsOk(acc, off, LookupsOf(q[..k], channel, at))
    ensures Tokens(q)[t] == InLookups(LookupsOf(q[..k], channel, at), t) + Tokens(q[k..])[t]
  {
    assert QueueOk(acc, off, channel, q[..k]) && QueueOk(acc, off, channel, q[k..]) by { hide RequestOk; }
    LookupsOfOk(acc, off, q[..k], channel, at);
    LookupsOfTokens(q[..k], channel, at, t);
    TokensSplit(q, k);
    assert Tokens(q)[t] == (Tokens(q[..k]) + Tokens(q[k..]))[t];
  }

  lemma {:induction false} TakeChannelServes(cfg: CacheConfig, acc: seq<Accepted>, c: Cache, i: nat, s: Share,
      room: bool, at: int)
    requires Serving(cfg, acc, c) && i < |c.channels|
    ensures Serving(cfg, acc, TakeChannel(c, i, s, room, at))
  {
    var off, q := cfg.OffsetBits(), c.channels[i];
    var w, r, p := Allowed(q.wq, s.wq, room), Allowed(q.rq, s.rq, room), Allowed(q.pq, s.pq, room);
    var a, b, e := LookupsOf(q.wq[..w], i, at), LookupsOf(q.rq[..r], i, at), LookupsOf(q.pq[..p], i, at);
    assert ChannelOk(acc, off, i, q);
    TakeQueue(acc, off, q.wq, i, w, at, 0);
    TakeQueue(acc, off, q.rq, i, r, at, 0);
    TakeQueue(acc, off, q.pq, i, p, at, 0);
    hide QueueOk, LookupOk, Allowed, MshrsOk, AnswersOk, LookupsOf, Tokens, InLookups;
    PartsOk(acc, off, a, b);
    PartsOk(acc, off, a + b, e);
    PartsOk(acc, off, c.tags, a + b + e);
    hide LookupsOk;
  }

  lemma {:induction false} TakeChannelPlaces(acc: seq<Accepted>, off: nat, c: Cache, i: nat, s: Share, room: bool,
      at: int, t: nat)
    requires i < |c.channels| && ChannelOk(acc, off, i, c.channels[i])
    ensures Places(TakeChannel(c, i, s, room, at), t) == Places(c, t)
  {
    var q, d := c.channels[i], TakeChannel(c, i, s, room, at);
    var w, r, p := Allowed(q.wq, s.wq, room), Allowed(q.rq, s.rq, room), Allowed(q.pq, s.pq, room);
    hide QueueOk, Allowed, LookupsOf, LookupsOk, InChannels, InLookups, InMshrs, Given, Tokens;
    var a, b, e := LookupsOf(q.wq[..w], i, at), LookupsOf(q.rq[..r], i, at), LookupsOf(q.pq[..p], i, at);
    TakeQueue(acc, off, q.wq, i, w, at, t);
    TakeQueue(acc, off, q.rq, i, r, at, t);
    TakeQueue(acc, off, q.pq, i, p, at, t);
    LookupsAppend(a, b, t);
    LookupsAppend(a + b, e, t);
    LookupsAppend(c.tags, a + b + e, t);
    ChannelsUpdate(c.channels, i, d.channels[i], t);
  }

  lemma {:induction false} TakeChannelKeeps(cfg: CacheConfig, acc: seq<Accepted>, c: Cache, i: nat, s: Share,
      room: bool, at: int)
    requires Kept(cfg, acc, c) && i < |c.channels|
    ensures Kept(cfg, acc, TakeChannel(c, i, s, room, at))
  {
    assert ChannelOk(acc, cfg.OffsetBits(), i, c.channels[i]);
    hide Serving, ChannelOk, TakeChannel, Places;
    TakeChannelServes(cfg, acc, c, i, s, room, at);
    var d := TakeChannel(c, i, s, room, at);
    forall t: nat ensures Places(d, t) == if t < |acc| then 1 else 0 {
      assert Places(c, t) == if t < |acc| then 1 else 0;
      TakeChannelPlaces(acc, cfg.OffsetBits(), c, i, s, room, at, t);
    }
  }

  lemma {:induction false} TakeChannelsKeep(cfg: CacheConfig, acc: seq<Accepted>, c: Cache, order: seq<nat>,
      shares: nat -> Share, room: bool, at: int)
    requires Kept(cfg, acc, c)
    ensures Kept(cfg, acc, TakeChannels(c, order, shares, room, at))
    decreases |order|
  {
    hide Kept, TakeChannel;
    if order != [] {
      if order[0] < |c.channels| {
        TakeChannelKeeps(cfg, acc, c, order[0], shares(order[0]), room, at);
        TakeChannelsKeep(cfg, acc, TakeChannel(c, order[0], shares(order[0]), room, at), order[1..], shares, room, at);
      } else {
        TakeChannelsKeep(cfg, acc, c, order[1..], shares, room, at);
      }
    }
  }

  lemma {:induction false} RetimedOk(acc: seq<Accepted>, off: nat, s: seq<Lookup>, at: int)
    requires LookupsOk(acc, off, s)
    ensures LookupsOk(acc, off, Retimed(s, at))
  {
    forall i | 0 <= i < |s| ensures LookupOk(acc, off, s[i].(ready := at)) { assert LookupOk(acc, off, s[i]); }
    hide LookupOk;
  }

  lemma {:induction false} TakeStashKeeps(cfg: CacheConfig, acc: seq<Accepted>, c: Cache, n: nat, at: int)
    requires Kept(cfg, acc, c)
    ensures Kept(cfg, acc, TakeStash(c, n, at))
  {
    var off := cfg.OffsetBits();
    var k := SpanLen(c.stash, n, (x: Lookup) => x.translated);
    var d, m := TakeStash(c, n, at), Retimed(c.stash[..k], at);
    hide SpanLen, ChannelsOk, MshrsOk, AnswersOk, LookupOk;
    PartsOk(acc, off, c.stash, c.stash);
    RetimedOk(acc, off, c.stash[..k], at);
    PartsOk(acc, off, c.tags, m);
    hide LookupsOk, InChannels, InLookups, InMshrs, Given;
    forall t: nat ensures Places(d, t) == if t < |acc| then 1 else 0 {
      assert Places(c, t) == if t < |acc| then 1 else 0;
      LookupsSplit(c.stash, k, t);
      SameTokens(c.stash[..k], m, t);
      LookupsAppend(c.tags, m, t);
    }
  }

  lemma {:induction false} TakeInternalKeeps(cfg: CacheConfig, acc: seq<Accepted>, c: Cache, n: nat, room: bool,
      at: int)
    requires Kept(cfg, acc, c)
    ensures Kept(cfg, acc, TakeInternal(c, n, room, at))
  {
    var off := cfg.OffsetBits();
    var k := SpanLen(c.internal, n, (x: Lookup) => room || x.translated);
    var d, m := TakeInternal(c, n, room, at), Retimed(c.internal[..k], at);
    hide SpanLen, ChannelsOk, MshrsOk, AnswersOk, LookupOk;
    PartsOk(acc, off, c.internal, c.internal);
    RetimedOk(acc, off, c.internal[..k], at);
    PartsOk(acc, off, c.tags, m);
    hide LookupsOk, InChannels, InLookups, InMshrs, Given;
    forall t: nat ensures Places(d, t) == if t < |acc| then 1 else 0 {
      assert Places(c, t) == if t < |acc| then 1 else 0;
      LookupsSplit(c.internal, k, t);
      SameTokens(c.internal[..k], m, t);
      LookupsAppend(c.tags, m, t);
    }
  }

  lemma {:induction false} IssueKeeps(cfg: CacheConfig, acc: seq<Accepted>, c: Cache, f: nat -> bool, g: nat -> bool)
    requires Kept(cfg, acc, c)
    ensures Kept(cfg, acc, c.(tags := Issue(c.tags, f), stash := Issue(c.stash, g)))
  {
    var d := c.(tags := Issue(c.tags, f), stash := Issue(c.stash, g));
    IssueOk(acc, cfg.OffsetBits(), c.tags, f);
    IssueOk(acc, cfg.OffsetBits(), c.stash, g);
    hide ChannelsOk, MshrsOk, AnswersOk, LookupsOk, InChannels, InMshrs, Given;
    forall t: nat ensures Places(d, t) == if t < |acc| then 1 else 0 {
      assert Places(c, t) == if t < |acc| then 1 else 0;
      SameTokens(c.tags, d.tags, t);
      SameTokens(c.stash, d.stash, t);
      hide InLookups;
    }
  }

  lemma IssueOk(acc: seq<Accepted>, off: nat, s: seq<Lookup>, f: nat -> bool)
    requires LookupsOk(acc, off, s)
    ensures LookupsOk(acc, off, Issue(s, f))
  {
    var r := Issue(s, f);
    forall i | 0 <= i < |s| ensures LookupOk(acc, off, r[i]) { assert LookupOk(acc, off, s[i]); }
    hide LookupOk;
  }

  lemma {:induction false} StashKeeps(cfg: CacheConfig, acc: seq<Accepted>, c: Cache, now: int)
    requires Kept(cfg, acc, c)
    ensures Kept(cfg, acc, Stash(c, now))
  {
    var off, d := cfg.OffsetBits(), Stash(c, now);
    var p := (x: Lookup) => x.ready <= now && !x.translated;
    SelectOk(acc, off, c.tags, p, true);
    SelectOk(acc, off, c.tags, p, false);
    hide ChannelsOk, MshrsOk, AnswersOk, LookupOk, Select;
    PartsOk(acc, off, c.stash, Select(c.tags, p, true));
    hide LookupsOk, InChannels, InLookups, InMshrs, Given;
    forall t: nat ensures Places(d, t) == if t < |acc| then 1 else 0 {
      assert Places(c, t) == if t < |acc| then 1 else 0;
      SelectTokens(c.tags, p, t);
      LookupsAppend(c.stash, Select(c.tags, p, true), t);
    }
  }

  // ---- tag checks end ----

  /** What hits and misses work on: the lookups `xs` are still to be decided. */
  ghost predicate Deciding(cfg: CacheConfig, acc: seq<Accepted>, c: Cache, xs: seq<Lookup>) {
    var off := cfg.OffsetBits();
    LookupsOk(acc, off, xs) && MshrsOk(acc, off, c.mshr) && MshrsOk(acc, off, c.writes)
      && AnswersOk(acc, off, c.answers)
  }

  /** In how many of those places `t` is. */
  ghost function Decided(c: Cache, xs: seq<Lookup>, t: nat): nat {
    InLookups(xs, t) + InMshrs(c.mshr, t) + InMshrs(c.writes, t) + Given(c.answers)[t]
  }

  ghost predicate SameRest(c: Cache, d: Cache) {
    d == c.(block := d.block, answers := d.answers, mshr := d.mshr, writes := d.writes, events := d.events,
      sent := d.sent)
  }

  lemma {:induction false} HitKeeps(cfg: CacheConfig, acc: seq<Accepted>, c: Cache, xs: seq<Lookup>)
    requires Sized(cfg, c) && xs != [] && Hits(cfg, c, xs[0]) && Deciding(cfg, acc, c, xs)
    ensures Deciding(cfg, acc, TakeHit(cfg, c, xs[0]), xs[1..])
  {
    assert LookupOk(acc, cfg.OffsetBits(), xs[0]);
    AnswerKeeps(acc, cfg.OffsetBits(), c.answers, AnswerLookup(xs[0]));
    hide Sized, Hits, FindWay, LookupOk, MshrsOk, AnswersOk, SetIndex;
  }

  lemma {:induction false} HitPlaces(cfg: CacheConfig, c: Cache, xs: seq<Lookup>, t: nat)
    requires Sized(cfg, c) && xs != [] && Hits(cfg, c, xs[0])
    ensures Decided(TakeHit(cfg, c, xs[0]), xs[1..], t) == Decided(c, xs, t) && SameRest(c, TakeHit(cfg, c, xs[0]))
  {
    GivenAppend(c.answers, AnswerLookup(xs[0]));
    LookupsHead(xs, t);
    hide Sized, Hits, FindWay, InLookups, InMshrs, Given, SetIndex;
  }

  lemma {:induction false} MoveMiss(xs: seq<Lookup>, ms: seq<Lookup>, t: nat)
    requires xs != []
    ensures InLookups([xs[0]] + ms, t) == multiset(xs[0].tokens)[t] + InLookups(ms, t)
    ensures InLookups(xs, t) == multiset(xs[0].tokens)[t] + InLookups(xs[1..], t)
  {
    LookupsHead(xs, t);
    LookupsAppend([xs[0]], ms, t);
    LookupsOne(xs[0], t);
  }

  lemma {:induction false} TailsOk(acc: seq<Accepted>, off: nat, xs: seq<Lookup>, ms: seq<Lookup>)
    requires LookupsOk(acc, off, xs) && xs != []
    ensures LookupsOk(acc, off, xs[1..])
    ensures LookupsOk(acc, off, ms) ==> LookupsOk(acc, off, [xs[0]] + ms)
  {
    hide LookupOk;
  }

  lemma {:induction false} TryHitsKeep(cfg: CacheConfig, acc: seq<Accepted>, c: Cache, xs: seq<Lookup>)
    requires Sized(cfg, c) && Deciding(cfg, acc, c, xs)
    ensures var (r, ms) := TryHits(cfg, c, xs); Deciding(cfg, acc, r, ms)
    decreases |xs|
  {
    if xs != [] {
      TailsOk(acc, cfg.OffsetBits(), xs, TryHits(cfg, c, xs[1..]).1);
      hide LookupsOk, MshrsOk, AnswersOk, Hits, TakeHit, Sized;
      if Hits(cfg, c, xs[0]) {
        HitKeeps(cfg, acc, c, xs);
        TryHitsKeep(cfg, acc, TakeHit(cfg, c, xs[0]), xs[1..]);
      } else {
        TryHitsKeep(cfg, acc, c, xs[1..]);
      }
    }
  }

  lemma {:induction false} TryHitsPlaces(cfg: CacheConfig, c: Cache, xs: seq<Lookup>, t: nat)
    requires Sized(cfg, c)
    ensures var (r, ms) := TryHits(cfg, c, xs); Decided(r, ms, t) == Decided(c, xs, t) && SameRest(c, r)
    decreases |xs|
  {
    if xs != [] {
      hide InLookups, InMshrs, Given, Hits, TakeHit, Sized;
      if Hits(cfg, c, xs[0]) {
        HitPlaces(cfg, c, xs, t);
        TryHitsPlaces(cfg, TakeHit(cfg, c, xs[0]), xs[1..], t);
      } else {
        TryHitsPlaces(cfg, c, xs[1..], t);
        MoveMiss(xs, TryHits(cfg, c, xs[1..]).1, t);
      }
    }
  }

  /** mshr_type::merge answers for both. */
  lemma {:induction false} MergeOk(acc: seq<Accepted>, off: nat, p: Mshr, s: Mshr)
    requires MshrOk(acc, off, p) && MshrOk(acc, off, s) && Prefix(p.address, off) == Prefix(s.address, off)
    ensures MshrOk(acc, off, Merge(p, s))
  {
    var m := Merge(p, s);
    UnionMembers(p.deps, s.deps);
    UnionSorted(p.deps, s.deps);
    UnionMembers(p.ret, s.ret);
    UnionSorted(p.ret, s.ret);
    hide SetUnion, Prefix, Sorted;
    forall k | 0 <= k < |m.tokens| ensures AnswersFor(acc, off, m.address, m.deps, m.ret, m.tokens[k]) {
      if k < |p.tokens| {
        assert AnswersFor(acc, off, p.address, p.deps, p.ret, p.tokens[k]);
      } else {
        assert AnswersFor(acc, off, s.address, s.deps, s.ret, s.tokens[k - |p.tokens|]);
      }
    }
  }

  lemma {:induction false} MissKeeps(cfg: CacheConfig, acc: seq<Accepted>, c: Cache, xs: seq<Lookup>, accepted: bool)
    requires xs != [] && Deciding(cfg, acc, c, xs) && HandleMiss(cfg, c, xs[0], accepted).Some?
    ensures Deciding(cfg, acc, HandleMiss(cfg, c, xs[0], accepted).value, xs[1..])
  {
    var off, k := cfg.OffsetBits(), FindMshr(cfg, c.mshr, xs[0].address);
    assert LookupOk(acc, off, xs[0]);
    assert MshrOk(acc, off, MshrOf(xs[0]));
    TailsOk(acc, off, xs, []);
    if k < |c.mshr| {
      assert MshrOk(acc, off, c.mshr[k]);
      MergeOk(acc, off, c.mshr[k], MshrOf(xs[0]));
    }
    hide FindMshr, LookupsOk, MshrOk, AnswersOk, Merge, MshrOf, NeedsMshr;
  }

  lemma {:induction false} MissPlaces(cfg: CacheConfig, acc: seq<Accepted>, c: Cache, xs: seq<Lookup>, accepted: bool,
      t: nat)
    requires xs != [] && Deciding(cfg, acc, c, xs) && HandleMiss(cfg, c, xs[0], accepted).Some?
    ensures var d := HandleMiss(cfg, c, xs[0], accepted).value;
      Decided(d, xs[1..], t) == Decided(c, xs, t) && SameRest(c, d)
  {
    var k := FindMshr(cfg, c.mshr, xs[0].address);
    assert LookupOk(acc, cfg.OffsetBits(), xs[0]);
    LookupsHead(xs, t);
    MshrsOne(MshrOf(xs[0]), t);
    MshrsAppend(c.mshr, [MshrOf(xs[0])], t);
    if k < |c.mshr| {
      var m := Merge(c.mshr[k], MshrOf(xs[0]));
      MshrsUpdate(c.mshr, k, m, t);
      assert multiset(m.tokens)[t] == multiset(c.mshr[k].tokens)[t] + multiset(xs[0].tokens)[t];
    }
    hide FindMshr, InLookups, InMshrs, Given, Deciding, Merge;
  }

  lemma {:induction false} WriteKeeps(cfg: CacheConfig, acc: seq<Accepted>, c: Cache, xs: seq<Lookup>, now: int,
      warmup: bool)
    requires xs != [] && Deciding(cfg, acc, c, xs)
    ensures Deciding(cfg, acc, HandleWrite(cfg, c, xs[0], now, warmup), xs[1..])
  {
    assert LookupOk(acc, cfg.OffsetBits(), xs[0]);
    TailsOk(acc, cfg.OffsetBits(), xs, []);
    hide LookupsOk, AnswersOk, AnswersFor;
  }

  lemma {:induction false} WritePlaces(cfg: CacheConfig, c: Cache, xs: seq<Lookup>, now: int, warmup: bool, t: nat)
    requires xs != []
    ensures var d := HandleWrite(cfg, c, xs[0], now, warmup);
      Decided(d, xs[1..], t) == Decided(c, xs, t) && SameRest(c, d)
  {
    var m := MshrOf(xs[0]).(data := Some(now + Latency(warmup, cfg.fillLatency)));
    LookupsHead(xs, t);
    MshrsAppend(c.writes, [m], t);
    MshrsOne(m, t);
    hide InLookups, InMshrs, Given;
  }

  lemma {:induction false} HandleMissesKeep(cfg: CacheConfig, acc: seq<Accepted>, c: Cache, xs: seq<Lookup>,
      accepts: nat -> bool, k: nat, now: int, warmup: bool)
    requires Deciding(cfg, acc, c, xs)
    ensures var (r, fs) := HandleMisses(cfg, c, xs, accepts, k, now, warmup); Deciding(cfg, acc, r, fs)
    decreases |xs|
  {
    if xs != [] {
      TailsOk(acc, cfg.OffsetBits(), xs, HandleMisses(cfg, c, xs[1..], accepts, k + 1, now, warmup).1);
      hide LookupsOk, MshrsOk, AnswersOk, HandleMiss, HandleWrite;
      if xs[0].kind == Write && !cfg.MatchOffset() {
        WriteKeeps(cfg, acc, c, xs, now, warmup);
        HandleMissesKeep(cfg, acc, HandleWrite(cfg, c, xs[0], now, warmup), xs[1..], accepts, k + 1, now, warmup);
      } else if HandleMiss(cfg, c, xs[0], accepts(k)).Some? {
        MissKeeps(cfg, acc, c, xs, accepts(k));
        HandleMissesKeep(cfg, acc, HandleMiss(cfg, c, xs[0], accepts(k)).value, xs[1..], accepts, k + 1, now, warmup);
      } else {
        HandleMissesKeep(cfg, acc, c, xs[1..], accepts, k + 1, now, warmup);
      }
    }
  }

  lemma {:induction false} HandleMissesPlaces(cfg: CacheConfig, acc: seq<Accepted>, c: Cache, xs: seq<Lookup>,
      accepts: nat -> bool, k: nat, now: int, warmup: bool, t: nat)
    requires Deciding(cfg, acc, c, xs)
    ensures var (r, fs) := HandleMisses(cfg, c, xs, accepts, k, now, warmup);
      Decided(r, fs, t) == Decided(c, xs, t) && SameRest(c, r)
    decreases |xs|
  {
    if xs != [] {
      TailsOk(acc, cfg.OffsetBits(), xs, []);
      hide LookupsOk, MshrsOk, AnswersOk, HandleMiss, HandleWrite, InLookups, InMshrs, Given;
      if xs[0].kind == Write && !cfg.MatchOffset() {
        WriteKeeps(cfg, acc, c, xs, now, warmup);
        WritePlaces(cfg, c, xs, now, warmup, t);
        HandleMissesPlaces(cfg, acc, HandleWrite(cfg, c, xs[0], now, warmup), xs[1..], accepts, k + 1, now, warmup, t);
      } else if HandleMiss(cfg, c, xs[0], accepts(k)).Some? {
        MissKeeps(cfg, acc, c, xs, accepts(k));
        MissPlaces(cfg, acc, c, xs, accepts(k), t);
        HandleMissesPlaces(cfg, acc, HandleMiss(cfg, c, xs[0], accepts(k)).value, xs[1..], accepts, k
          + 1, now, warmup, t);
      } else {
        HandleMissesPlaces(cfg, acc, c, xs[1..], accepts, k + 1, now, warmup, t);
        MoveMiss(xs, HandleMisses(cfg, c, xs[1..], accepts, k + 1, now, warmup).1, t);
      }
    }
  }

  lemma {:induction false} TagChecksKeep(cfg: CacheConfig, acc: seq<Accepted>, c: Cache, accepts: nat -> bool, now: int,
      warmup: bool)
    requires Kept(cfg, acc, c) && Sized(cfg, c)
    ensures Kept(cfg, acc, TagChecks(cfg, c, accepts, now, warmup))
  {
    var off := cfg.OffsetBits();
    var n := SpanLen(c.tags, cfg.maxTag, (x: Lookup) => x.ready <= now && x.translated);
    PartsOk(acc, off, c.tags, c.tags);
    hide SpanLen, ChannelsOk, LookupsOk, MshrsOk, AnswersOk, TryHits, HandleMisses, Sized;
    var (d, misses) := TryHits(cfg, c, c.tags[..n]);
    TryHitsKeep(cfg, acc, c, c.tags[..n]);
    TryHitsPlaces(cfg, c, c.tags[..n], 0);
    var (e, again) := HandleMisses(cfg, d, misses, accepts, 0, now, warmup);
    HandleMissesKeep(cfg, acc, d, misses, accepts, 0, now, warmup);
    HandleMissesPlaces(cfg, acc, d, misses, accepts, 0, now, warmup, 0);
    PartsOk(acc, off, again, c.tags[n..]);
    var f := e.(tags := again + c.tags[n..]);
    assert f == TagChecks(cfg, c, accepts, now, warmup) && Serving(cfg, acc, f);
    hide TagChecks, Serving, Deciding, InChannels, InLookups, InMshrs, Given;
    forall t: nat ensures Places(f, t) == if t < |acc| then 1 else 0 {
      assert Places(c, t) == if t < |acc| then 1 else 0;
      TryHitsPlaces(cfg, c, c.tags[..n], t);
      HandleMissesPlaces(cfg, acc, d, misses, accepts, 0, now, warmup, t);
      LookupsSplit(c.tags, n, t);
      LookupsAppend(again, c.tags[n..], t);
    }
  }
}
