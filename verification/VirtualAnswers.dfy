/** The virtual addresses that responses carry: what the core matches its loads by
    (src/ooo_cpu.cc: handle_memory_return), although misses are merged by physical address. */
module VirtualAnswers {
  import opened Sequences
  import opened SortedLists
  import opened Bits
  import opened Responses
  import opened Channels
  import opened Caches
  import CacheInvariant
  import opened CacheRuns

  /** What the environment means by an address: `own` gives, for a physical block that data are
      kept in, the virtual block they belong to. */
  datatype View = View(own: nat -> Option<nat>, off: nat)

  // ---- the invariant ----

  /** Token `t` names a request that arrived untranslated, as the core's do. */
  ghost predicate Virtual(acc: seq<Accepted>, t: nat) { t < |acc| && !acc[t].translated }

  ghost predicate Direct(acc: seq<Accepted>, tokens: seq<nat>) {
    exists k :: 0 <= k < |tokens| && Virtual(acc, tokens[k])
  }

  /** `vaddr` is in the block of every untranslated request among these. */
  ghost predicate Carries(v: View, acc: seq<Accepted>, vaddr: nat, tokens: seq<nat>) {
    forall k :: 0 <= k < |tokens| ==>
      tokens[k] < |acc| && (Virtual(acc, tokens[k]) ==> Prefix(acc[tokens[k]].address, v.off) == Prefix(vaddr, v.off))
  }

  ghost predicate Owned(v: View, address: nat, vaddr: nat) {
    v.own(Prefix(address, v.off)) == Some(Prefix(vaddr, v.off))
  }

  ghost predicate MayOwn(v: View, address: nat, vaddr: nat) {
    v.own(Prefix(address, v.off)).Some? ==> Owned(v, address, vaddr)
  }

  ghost predicate RequestV(v: View, acc: seq<Accepted>, x: Request) {
    && Carries(v, acc, x.vaddr, x.tokens)
    && (Direct(acc, x.tokens) ==> !x.translated)
    && (if x.translated then x.kind != Prefetch ==>
      MayOwn(v, x.address, x.vaddr) else x.address == x.vaddr && x.kind != Prefetch)
  }

  ghost predicate LookupV(v: View, acc: seq<Accepted>, x: Lookup) {
    && Carries(v, acc, x.vaddr, x.tokens)
    && (x.translated && x.kind != Prefetch ==> MayOwn(v, x.address, x.vaddr))
    && (Direct(acc, x.tokens) ==> x.kind != Prefetch && (x.translated ==> Owned(v, x.address, x.vaddr)))
  }

  ghost predicate MshrV(v: View, acc: seq<Accepted>, x: Mshr) {
    && Carries(v, acc, x.vaddr, x.tokens)
    && (x.kind != Prefetch ==> MayOwn(v, x.address, x.vaddr))
    && (Direct(acc, x.tokens) ==> x.kind != Prefetch && Owned(v, x.address, x.vaddr))
  }

  ghost predicate AnswerV(v: View, acc: seq<Accepted>, a: Answer) { Carries(v, acc, a.vaddr, a.tokens) }

  ghost predicate QueueV(v: View, acc: seq<Accepted>, q: seq<Request>) {
    forall i :: 0 <= i < |q| ==> RequestV(v, acc, q[i])
  }

  ghost predicate ChannelV(v: View, acc: seq<Accepted>, c: Channel) {
    QueueV(v, acc, c.wq) && QueueV(v, acc, c.rq) && QueueV(v, acc, c.pq)
  }

  ghost predicate ChannelsV(v: View, acc: seq<Accepted>, cs: seq<Channel>) {
    forall i :: 0 <= i < |cs| ==> ChannelV(v, acc, cs[i])
  }

  ghost predicate LookupsV(v: View, acc: seq<Accepted>, s: seq<Lookup>) {
    forall i :: 0 <= i < |s| ==> LookupV(v, acc, s[i])
  }

  ghost predicate MshrsV(v: View, acc: seq<Accepted>, s: seq<Mshr>) { forall i :: 0 <= i < |s| ==> MshrV(v, acc, s[i]) }

  ghost predicate AnswersV(v: View, acc: seq<Accepted>, s: seq<Answer>) {
    forall i :: 0 <= i < |s| ==> AnswerV(v, acc, s[i])
  }

  ghost predicate CacheV(v: View, acc: seq<Accepted>, c: Cache) {
    && ChannelsV(v, acc, c.channels) && LookupsV(v, acc, c.internal) && LookupsV(v, acc, c.tags)
      && LookupsV(v, acc, c.stash)
    && MshrsV(v, acc, c.mshr) && MshrsV(v, acc, c.writes) && AnswersV(v, acc, c.answers)
  }

  // ---- merging ----

  lemma JoinTokens(v: View, acc: seq<Accepted>, vaddr: nat, s: seq<nat>, t: seq<nat>)
    requires Carries(v, acc, vaddr, s) && Carries(v, acc, vaddr, t)
    ensures Carries(v, acc, vaddr, s + t)
    ensures Direct(acc, s + t) ==> Direct(acc, s) || Direct(acc, t)
  {
    hide Prefix, Virtual;
    var u := s + t;
    forall k | 0 <= k < |u| ensures u[k] == if k < |s| then s[k] else t[k - |s|] { }
  }

  lemma OtherBlock(v: View, acc: seq<Accepted>, a: nat, b: nat, tokens: seq<nat>)
    requires Carries(v, acc, a, tokens) && (Direct(acc, tokens) ==> Prefix(a, v.off) == Prefix(b, v.off))
    ensures Carries(v, acc, b, tokens)
  {
    hide Prefix, Virtual;
    forall k | 0 <= k < |tokens| && Virtual(acc, tokens[k]) ensures Prefix(acc[tokens[k]].address, v.off) ==
      Prefix(b, v.off) {
      assert Direct(acc, tokens);
    }
  }

  /** Requests collide only in one address space; untranslated ones then have one block. */
  lemma MergeIntoV(v: View, acc: seq<Accepted>, d: Request, s: Request, shift: nat)
    requires RequestV(v, acc, d) && RequestV(v, acc, s) && d.translated == s.translated && shift <= v.off
    requires Prefix(d.address, shift) == Prefix(s.address, shift)
    ensures RequestV(v, acc, MergeInto(d, s))
  {
    hide Prefix, SetUnion, Carries, Direct;
    CoarserPrefix(d.address, s.address, shift, v.off);
    OtherBlock(v, acc, s.vaddr, d.vaddr, s.tokens);
    JoinTokens(v, acc, d.vaddr, d.tokens, s.tokens);
  }

  /** Misses merge by physical block, and keep a virtual address that all of them share, because
      only prefetches are without the right one. */
  lemma MergeV(v: View, acc: seq<Accepted>, p: Mshr, s: Mshr)
    requires MshrV(v, acc, p) && MshrV(v, acc, s) && Prefix(p.address, v.off) == Prefix(s.address, v.off)
    ensures MshrV(v, acc, Caches.Merge(p, s))
  {
    hide Prefix, SetUnion, Carries, Direct;
    var m := Caches.Merge(p, s);
    OtherBlock(v, acc, p.vaddr, m.vaddr, p.tokens);
    OtherBlock(v, acc, s.vaddr, m.vaddr, s.tokens);
    JoinTokens(v, acc, m.vaddr, p.tokens, s.tokens);
  }

  /** Which virtual block a merge keeps: the successor's unless that is a prefetch. So a request
      of the other one is lost if and only if the blocks differ. */
  lemma MergeKeepsBlock(p: Mshr, s: Mshr, off: nat)
    ensures var m := Caches.Merge(p, s);
      && (Prefix(m.vaddr, off) == Prefix(p.vaddr, off) <==>
            s.kind == Prefetch || Prefix(p.vaddr, off) == Prefix(s.vaddr, off))
      && (Prefix(m.vaddr, off) == Prefix(s.vaddr, off) <==>
            s.kind != Prefetch || Prefix(p.vaddr, off) == Prefix(s.vaddr, off))
  {
    hide Prefix, SetUnion;
  }

  // ---- the channels ----

  lemma MergeAtV(v: View, acc: seq<Accepted>, q: seq<Request>, i: nat, shift: nat)
    requires QueueV(v, acc, q) && i < |q| && shift <= v.off && Collides(q, i, shift, q[i])
    ensures QueueV(v, acc, MergeAt(q, i, shift))
  {
    hide RequestV, Prefix, MergeInto;
    var k := FindSame(q, i, shift, q[i].address);
    MergeIntoV(v, acc, q[k], q[i], shift);
  }

  lemma FlagV(v: View, acc: seq<Accepted>, q: seq<Request>, i: nat)
    requires QueueV(v, acc, q) && i < |q|
    ensures QueueV(v, acc, q[i := q[i].(checked := true)])
  {
    hide Carries, Direct, MayOwn;
    assert RequestV(v, acc, q[i]) && RequestV(v, acc, q[i].(checked := true));
    hide RequestV;
  }

  lemma {:induction false} CheckMergesV(v: View, acc: seq<Accepted>, q: seq<Request>, i: nat, shift: nat)
    requires QueueV(v, acc, q) && i <= |q| && shift <= v.off
    ensures QueueV(v, acc, CheckMerges(q, i, shift))
    decreases |q| - i
  {
    hide QueueV, MergeAt, Collides;
    if i < |q| {
      if Collides(q, i, shift, q[i]) {
        MergeAtV(v, acc, q, i, shift);
        CheckMergesV(v, acc, MergeAt(q, i, shift), i, shift);
      } else {
        FlagV(v, acc, q, i);
        CheckMergesV(v, acc, q[i := q[i].(checked := true)], i + 1, shift);
      }
    }
  }

  lemma ForwardV(v: View, acc: seq<Accepted>, q: seq<Request>, i: nat, channel: nat, answers: seq<Answer>)
    requires QueueV(v, acc, q) && i < |q| && AnswersV(v, acc, answers)
    ensures AnswersV(v, acc, Forward(q[i], channel, answers)) && QueueV(v, acc, Erase(q, i))
  {
    hide Carries, Direct, MayOwn;
    assert RequestV(v, acc, q[i]);
    hide RequestV;
  }

  lemma {:induction false} CheckForwardsV(v: View, acc: seq<Accepted>, wq: seq<Request>, q: seq<Request>, i: nat,
      wshift: nat, shift: nat, channel: nat,
                                          answers: seq<Answer>)
    requires QueueV(v, acc, q) && i <= |q| && shift <= v.off && AnswersV(v, acc, answers)
    ensures var (r, a) := CheckForwards(wq, q, i, wshift, shift, channel, answers);
      QueueV(v, acc, r) && AnswersV(v, acc, a)
    decreases |q| - i
  {
    hide QueueV, AnswersV, CheckForwards, MergeAt, Collides, Forward, Erase;
    if i == |q| {
      NothingToCheck(wq, q, wshift, shift, channel, answers);
    } else {
      CheckForwardsStep(wq, q, i, wshift, shift, channel, answers);
      if Collides(wq, |wq|, wshift, q[i]) {
        ForwardV(v, acc, q, i, channel, answers);
        CheckForwardsV(v, acc, wq, Erase(q, i), i, wshift, shift, channel, Forward(q[i], channel, answers));
      } else if Collides(q, i, shift, q[i]) {
        MergeAtV(v, acc, q, i, shift);
        CheckForwardsV(v, acc, wq, MergeAt(q, i, shift), i, wshift, shift, channel, answers);
      } else {
        FlagV(v, acc, q, i);
        CheckForwardsV(v, acc, wq, q[i := q[i].(checked := true)], i + 1, wshift, shift, channel, answers);
      }
    }
  }

  lemma CheckCollisionV(v: View, acc: seq<Accepted>, cfg: Channels.Config, c: Channel, channel: nat,
      answers: seq<Answer>)
    requires ChannelV(v, acc, c) && AnswersV(v, acc, answers) && cfg.offsetBits == v.off
    ensures var (d, a) := CheckCollision(cfg, c, channel, answers); ChannelV(v, acc, d) && AnswersV(v, acc, a)
  {
    hide QueueV, AnswersV, CheckMerges, CheckForwards, FirstUnchecked;
    var w, o := cfg.WriteShift(), cfg.offsetBits;
    CheckMergesV(v, acc, c.wq, FirstUnchecked(c.wq), w);
    var wq := CheckMerges(c.wq, FirstUnchecked(c.wq), w);
    CheckForwardsV(v, acc, wq, c.rq, FirstUnchecked(c.rq), w, o, channel, answers);
    var (rq, a) := CheckForwards(wq, c.rq, FirstUnchecked(c.rq), w, o, channel, answers);
    CheckForwardsV(v, acc, wq, c.pq, FirstUnchecked(c.pq), w, o, channel, a);
  }

  lemma {:induction false} CheckChannelsV(v: View, acc: seq<Accepted>, cfg: CacheConfig, c: Cache, i: nat)
    requires CacheV(v, acc, c) && i <= |c.channels| && cfg.OffsetBits() == v.off
    ensures CacheV(v, acc, CheckChannels(cfg, c, i))
    decreases |c.channels| - i
  {
    hide ChannelV, AnswersV, LookupsV, MshrsV, CheckCollision;
    if i < |c.channels| {
      CheckCollisionV(v, acc, cfg.channel, c.channels[i], i, c.answers);
      var (d, a) := CheckCollision(cfg.channel, c.channels[i], i, c.answers);
      CheckChannelsV(v, acc, cfg, c.(channels := c.channels[i := d], answers := a), i + 1);
    }
  }

  // ---- returns and translations ----

  lemma ReturnV(v: View, acc: seq<Accepted>, q: seq<Mshr>, k: nat, at: int)
    requires MshrsV(v, acc, q) && k < |q| && FirstUnreturned(q) < |q|
    ensures MshrsV(v, acc, Return(q, k, at))
  {
    hide Carries, Direct, MayOwn, Owned, FirstUnreturned;
    var x := q[k].(data := Some(at));
    assert MshrV(v, acc, q[k]) && MshrV(v, acc, x);
    hide MshrV;
  }

  lemma {:induction false} FinishAllV(v: View, acc: seq<Accepted>, cfg: CacheConfig, c: Cache, addrs: seq<nat>,
      now: int, warmup: bool)
    requires CacheV(v, acc, c)
    ensures CacheV(v, acc, FinishAll(cfg, c, addrs, now, warmup))
    decreases |addrs|
  {
    hide ChannelsV, AnswersV, LookupsV, MshrsV, FindMshr, FirstUnreturned, Return;
    if addrs != [] {
      var k := FindMshr(cfg, c.mshr, addrs[0]);
      if k < |c.mshr| && FirstUnreturned(c.mshr) < |c.mshr| {
        ReturnV(v, acc, c.mshr, k, now + Latency(warmup, cfg.fillLatency));
      }
      FinishAllV(v, acc, cfg, FinishPacket(cfg, c, addrs[0], now, warmup), addrs[1..], now, warmup);
    }
  }

  /** A translation gives data their own block, wherever in the page. */
  ghost predicate TranslationOk(v: View, pageBits: nat, vpage: nat, ppage: nat) {
    forall a: nat :: Shr(a, pageBits) == vpage ==> Owned(v, Low(a, pageBits) + Shl(ppage, pageBits), a)
  }

  lemma TranslateV(v: View, acc: seq<Accepted>, x: Lookup, pageBits: nat, vpage: nat, ppage: nat)
    requires LookupV(v, acc, x) && TranslationOk(v, pageBits, vpage, ppage)
    ensures LookupV(v, acc, Translate(x, pageBits, vpage, ppage))
  {
    hide Carries, Direct, Owned, Shr, Low, Shl;
  }

  lemma TranslateAllV(v: View, acc: seq<Accepted>, s: seq<Lookup>, pageBits: nat, vpage: nat, ppage: nat)
    requires LookupsV(v, acc, s) && TranslationOk(v, pageBits, vpage, ppage)
    ensures LookupsV(v, acc, TranslateAll(s, pageBits, vpage, ppage))
  {
    hide LookupV, Translate, TranslationOk;
    forall i | 0 <= i < |s| ensures LookupV(v, acc, Translate(s[i], pageBits, vpage, ppage)) {
      TranslateV(v, acc, s[i], pageBits, vpage, ppage);
    }
  }

  lemma SelectV(v: View, acc: seq<Accepted>, s: seq<Lookup>, p: Lookup -> bool, want: bool)
    requires LookupsV(v, acc, s)
    ensures LookupsV(v, acc, Select(s, p, want))
  {
    hide LookupV;
    var r := Select(s, p, want);
    forall i | 0 <= i < |r| ensures LookupV(v, acc, r[i]) { assert r[i] in r; }
  }

  lemma PartsV(v: View, acc: seq<Accepted>, s: seq<Lookup>, k: nat, u: seq<Lookup>)
    requires LookupsV(v, acc, s) && LookupsV(v, acc, u) && k <= |s|
    ensures LookupsV(v, acc, s[..k]) && LookupsV(v, acc, s[k..]) && LookupsV(v, acc, s + u)
  {
    hide LookupV;
  }

  lemma FinishStashV(v: View, acc: seq<Accepted>, s: seq<Lookup>, pageBits: nat, vpage: nat, ppage: nat)
    requires LookupsV(v, acc, s) && TranslationOk(v, pageBits, vpage, ppage)
    ensures LookupsV(v, acc, FinishStash(s, pageBits, vpage, ppage))
  {
    hide LookupsV, Select, LeadingTranslated, TranslateAll, TranslationOk, Shr;
    var b := LeadingTranslated(s);
    var p := (x: Lookup) => !x.translated && Shr(x.vaddr, pageBits) == vpage;
    var u, w := Select(s[b..], p, true), Select(s[b..], p, false);
    PartsV(v, acc, s, b, s);
    SelectV(v, acc, s[b..], p, true);
    SelectV(v, acc, s[b..], p, false);
    TranslateAllV(v, acc, u, pageBits, vpage, ppage);
    PartsV(v, acc, s[..b], 0, TranslateAll(u, pageBits, vpage, ppage));
    PartsV(v, acc, s[..b] + TranslateAll(u, pageBits, vpage, ppage), 0, w);
  }

  lemma {:induction false} TranslateEachV(v: View, acc: seq<Accepted>, c: Cache, pageBits: nat, ts: seq<(nat, nat)>)
    requires CacheV(v, acc, c) && forall i :: 0 <= i < |ts| ==> TranslationOk(v, pageBits, ts[i].0, ts[i].1)
    ensures CacheV(v, acc, TranslateEach(c, pageBits, ts))
    decreases |ts|
  {
    hide ChannelsV, AnswersV, LookupsV, MshrsV, FinishStash, TranslateAll, TranslationOk;
    if ts != [] {
      FinishStashV(v, acc, c.stash, pageBits, ts[0].0, ts[0].1);
      TranslateAllV(v, acc, c.tags, pageBits, ts[0].0, ts[0].1);
      TranslateEachV(v, acc, FinishTranslation(c, pageBits, ts[0].0, ts[0].1), pageBits, ts[1..]);
    }
  }

  // ---- fills ----

  lemma AnswerMore(v: View, acc: seq<Accepted>, answers: seq<Answer>, a: Answer)
    requires AnswersV(v, acc, answers) && AnswerV(v, acc, a)
    ensures AnswersV(v, acc, answers + [a])
  {
    hide AnswerV;
  }

  lemma FirstV(v: View, acc: seq<Accepted>, q: seq<Mshr>)
    requires MshrsV(v, acc, q) && q != []
    ensures AnswerV(v, acc, AnswerOf(q[0])) && MshrsV(v, acc, q[1..])
  {
    hide Carries, Direct, MayOwn, Owned;
    assert MshrV(v, acc, q[0]);
    hide MshrV;
  }

  lemma {:induction false} FillFromV(v: View, acc: seq<Accepted>, cfg: CacheConfig, c: Cache, q: seq<Mshr>, n: nat,
      choices: nat -> FillChoice, k: nat)
    requires Sized(cfg, c) && n <= |q| && VictimsOk(cfg, choices) && MshrsV(v, acc, q) && AnswersV(v, acc, c.answers)
    ensures var (r, m) := FillFrom(cfg, c, q, n, choices, k); MshrsV(v, acc, q[m..]) && AnswersV(v, acc, r.answers)
    decreases n
  {
    hide *;
    FillStep(cfg, c, q, n, choices, k);
    var (r, m) := FillFrom(cfg, c, q, n, choices, k);
    if m > 0 {
      FirstV(v, acc, q);
      AnswerMore(v, acc, c.answers, AnswerOf(q[0]));
      FillFromV(v, acc, cfg, Filled(cfg, c, q, choices, k), q[1..], n - 1, choices, k + 1);
      TailOfTail(q, m);
    } else {
      assert q[0..] == q;
    }
  }

  lemma FillsV(v: View, acc: seq<Accepted>, cfg: CacheConfig, c: Cache, now: int, choices: nat -> FillChoice)
    requires CacheV(v, acc, c) && Sized(cfg, c) && VictimsOk(cfg, choices)
    ensures CacheV(v, acc, Fills(cfg, c, now, choices))
  {
    hide ChannelsV, AnswersV, LookupsV, MshrsV, SpanLen, FillFrom, Sized, VictimsOk;
    var n := SpanLen(c.mshr, cfg.maxFill, (x: Mshr) => IsReady(x, now));
    FillFromV(v, acc, cfg, c, c.mshr, n, choices, 0);
    CacheInvariant.FillFromFrame(cfg, c, c.mshr, n, choices, 0);
    var (r, m) := FillMshrs(cfg, c, now, choices);
    var w := SpanLen(r.writes, cfg.maxFill - m, (x: Mshr) => IsReady(x, now));
    FillFromV(v, acc, cfg, r, r.writes, w, choices, m);
    CacheInvariant.FillFromFrame(cfg, r, r.writes, w, choices, m);
  }

  // ---- tag checks start ----

  lemma TakeQueueV(v: View, acc: seq<Accepted>, q: seq<Request>, k: nat, channel: nat, at: int)
    requires QueueV(v, acc, q) && k <= |q|
    ensures QueueV(v, acc, q[k..]) && LookupsV(v, acc, LookupsOf(q[..k], channel, at))
  {
    hide Carries, Direct, MayOwn, Owned;
    forall i | 0 <= i < k ensures LookupV(v, acc, LookupOf(q[i], channel, at)) { assert RequestV(v, acc, q[i]); }
    hide LookupV, RequestV, LookupOf;
  }

  lemma TakeChannelV(v: View, acc: seq<Accepted>, c: Cache, i: nat, s: Share, room: bool, at: int)
    requires CacheV(v, acc, c) && i < |c.channels|
    ensures CacheV(v, acc, TakeChannel(c, i, s, room, at))
  {
    hide QueueV, AnswersV, LookupsV, MshrsV, Allowed, LookupsOf;
    var q := c.channels[i];
    assert ChannelV(v, acc, q);
    var w, r, p := Allowed(q.wq, s.wq, room), Allowed(q.rq, s.rq, room), Allowed(q.pq, s.pq, room);
    var a, b, d := LookupsOf(q.wq[..w], i, at), LookupsOf(q.rq[..r], i, at), LookupsOf(q.pq[..p], i, at);
    TakeQueueV(v, acc, q.wq, w, i, at);
    TakeQueueV(v, acc, q.rq, r, i, at);
    TakeQueueV(v, acc, q.pq, p, i, at);
    PartsV(v, acc, a, 0, b);
    PartsV(v, acc, a + b, 0, d);
    PartsV(v, acc, c.tags, 0, a + b + d);
  }

  lemma {:induction false} TakeChannelsV(v: View, acc: seq<Accepted>, c: Cache, order: seq<nat>, shares: nat -> Share,
      room: bool, at: int)
    requires CacheV(v, acc, c)
    ensures CacheV(v, acc, TakeChannels(c, order, shares, room, at))
    decreases |order|
  {
    hide CacheV, TakeChannel;
    if order != [] {
      if order[0] < |c.channels| {
        TakeChannelV(v, acc, c, order[0], shares(order[0]), room, at);
        TakeChannelsV(v, acc, TakeChannel(c, order[0], shares(order[0]), room, at), order[1..], shares, room, at);
      } else {
        TakeChannelsV(v, acc, c, order[1..], shares, room, at);
      }
    }
  }

  /** Lookups that differ in times and flags only. */
  lemma RetimedV(v: View, acc: seq<Accepted>, s: seq<Lookup>, r: seq<Lookup>)
    requires LookupsV(v, acc, s) && |r| == |s|
    requires forall i :: 0 <= i < |s| ==> r[i] == s[i].(ready := r[i].ready, issued := r[i].issued)
    ensures LookupsV(v, acc, r)
  {
    hide Carries, Direct, MayOwn, Owned;
    forall i | 0 <= i < |r| ensures LookupV(v, acc, r[i]) { assert LookupV(v, acc, s[i]); }
  }

  lemma TakeStashV(v: View, acc: seq<Accepted>, c: Cache, n: nat, at: int)
    requires CacheV(v, acc, c)
    ensures CacheV(v, acc, TakeStash(c, n, at))
  {
    hide ChannelsV, AnswersV, LookupsV, MshrsV, SpanLen;
    var k := SpanLen(c.stash, n, (x: Lookup) => x.translated);
    PartsV(v, acc, c.stash, k, c.stash);
    RetimedV(v, acc, c.stash[..k], Retimed(c.stash[..k], at));
    PartsV(v, acc, c.tags, 0, Retimed(c.stash[..k], at));
  }

  lemma TakeInternalV(v: View, acc: seq<Accepted>, c: Cache, n: nat, room: bool, at: int)
    requires CacheV(v, acc, c)
    ensures CacheV(v, acc, TakeInternal(c, n, room, at))
  {
    hide ChannelsV, AnswersV, LookupsV, MshrsV, SpanLen;
    var k := SpanLen(c.internal, n, (x: Lookup) => room || x.translated);
    PartsV(v, acc, c.internal, k, c.internal);
    RetimedV(v, acc, c.internal[..k], Retimed(c.internal[..k], at));
    PartsV(v, acc, c.tags, 0, Retimed(c.internal[..k], at));
  }

  lemma ParkV(v: View, acc: seq<Accepted>, c: Cache, y: Cycle)
    requires CacheV(v, acc, c)
    ensures CacheV(v, acc, Park(c, y)) && SameStore(c, Park(c, y))
  {
    hide ChannelsV, AnswersV, LookupsV, MshrsV, Select;
    var tags, stash := Issue(c.tags, y.issueTags), Issue(c.stash, y.issueStash);
    RetimedV(v, acc, c.tags, tags);
    RetimedV(v, acc, c.stash, stash);
    var p := (x: Lookup) => x.ready <= y.now && !x.translated;
    SelectV(v, acc, tags, p, true);
    SelectV(v, acc, tags, p, false);
    PartsV(v, acc, stash, 0, Select(tags, p, true));
  }

  // ---- tag checks end ----

  ghost predicate Deciding(v: View, acc: seq<Accepted>, c: Cache, xs: seq<Lookup>) {
    && LookupsV(v, acc, xs) && (forall i :: 0 <= i < |xs| ==> xs[i].translated)
    && MshrsV(v, acc, c.mshr) && MshrsV(v, acc, c.writes) && AnswersV(v, acc, c.answers)
  }

  lemma HeadV(v: View, acc: seq<Accepted>, c: Cache, xs: seq<Lookup>)
    requires Deciding(v, acc, c, xs) && xs != []
    ensures LookupV(v, acc, xs[0]) && xs[0].translated && Deciding(v, acc, c, xs[1..])
    ensures MshrV(v, acc, MshrOf(xs[0])) && AnswerV(v, acc, AnswerLookup(xs[0]))
  {
    hide Carries, Direct, MayOwn, Owned, MshrsV, AnswersV;
    assert LookupV(v, acc, xs[0]);
  }

  lemma ConsV(v: View, acc: seq<Accepted>, c: Cache, x: Lookup, ms: seq<Lookup>)
    requires Deciding(v, acc, c, ms) && LookupV(v, acc, x) && x.translated
    ensures Deciding(v, acc, c, [x] + ms)
  {
    hide LookupV, MshrsV, AnswersV;
  }

  lemma {:induction false} TryHitsV(v: View, acc: seq<Accepted>, cfg: CacheConfig, c: Cache, xs: seq<Lookup>)
    requires Sized(cfg, c) && Deciding(v, acc, c, xs)
    ensures var (r, ms) := TryHits(cfg, c, xs); Deciding(v, acc, r, ms)
    decreases |xs|
  {
    hide LookupsV, LookupV, AnswerV, AnswersV, MshrsV, MshrV, Hits, FindWay, SetIndex, Sized;
    if xs != [] {
      HeadV(v, acc, c, xs);
      if Hits(cfg, c, xs[0]) {
        AnswerMore(v, acc, c.answers, AnswerLookup(xs[0]));
        var d := TakeHit(cfg, c, xs[0]);
        hide TakeHit;
        TryHitsV(v, acc, cfg, d, xs[1..]);
      } else {
        TryHitsV(v, acc, cfg, c, xs[1..]);
        var (r, ms) := TryHits(cfg, c, xs[1..]);
        ConsV(v, acc, r, xs[0], ms);
      }
    }
  }

  lemma MshrsMore(v: View, acc: seq<Accepted>, s: seq<Mshr>, x: Mshr)
    requires MshrsV(v, acc, s) && MshrV(v, acc, x)
    ensures MshrsV(v, acc, s + [x])
  {
    hide MshrV;
  }

  lemma MshrsUpdate(v: View, acc: seq<Accepted>, s: seq<Mshr>, k: nat, x: Mshr)
    requires MshrsV(v, acc, s) && MshrV(v, acc, x) && k < |s|
    ensures MshrsV(v, acc, s[k := x])
  {
    hide MshrV;
  }

  lemma MissV(v: View, acc: seq<Accepted>, cfg: CacheConfig, c: Cache, xs: seq<Lookup>, accepted: bool)
    requires xs != [] && Deciding(v, acc, c, xs) && HandleMiss(cfg, c, xs[0], accepted).Some?
    requires cfg.OffsetBits() == v.off
    ensures Deciding(v, acc, HandleMiss(cfg, c, xs[0], accepted).value, xs[1..])
  {
    hide LookupV, AnswersV, LookupsV, FindMshr, Caches.Merge, MshrOf, MshrV, AnswerV, NeedsMshr;
    HeadV(v, acc, c, xs);
    var k := FindMshr(cfg, c.mshr, xs[0].address);
    MshrsMore(v, acc, c.mshr, MshrOf(xs[0]));
    if k < |c.mshr| {
      SameBlock(cfg, c.mshr[k], xs[0]);
      MergeV(v, acc, c.mshr[k], MshrOf(xs[0]));
      MshrsUpdate(v, acc, c.mshr, k, Caches.Merge(c.mshr[k], MshrOf(xs[0])));
    }
    hide MshrsV;
  }

  lemma SameBlock(cfg: CacheConfig, m: Mshr, x: Lookup)
    requires BlockOf(cfg, m.address) == BlockOf(cfg, x.address)
    ensures Prefix(m.address, cfg.OffsetBits()) == Prefix(MshrOf(x).address, cfg.OffsetBits())
  {
  }

  lemma WriteV(v: View, acc: seq<Accepted>, cfg: CacheConfig, c: Cache, xs: seq<Lookup>, now: int, warmup: bool)
    requires xs != [] && Deciding(v, acc, c, xs)
    ensures Deciding(v, acc, HandleWrite(cfg, c, xs[0], now, warmup), xs[1..])
  {
    hide Carries, Direct, MayOwn, Owned, AnswersV, LookupsV, MshrsV;
    HeadV(v, acc, c, xs);
    MshrsMore(v, acc, c.writes, MshrOf(xs[0]).(data := Some(now + Latency(warmup, cfg.fillLatency))));
  }

  lemma {:induction false} HandleMissesV(v: View, acc: seq<Accepted>, cfg: CacheConfig, c: Cache, xs: seq<Lookup>,
      accepts: nat -> bool, k: nat, now: int, warmup: bool)
    requires Deciding(v, acc, c, xs) && cfg.OffsetBits() == v.off
    ensures var (r, fs) := HandleMisses(cfg, c, xs, accepts, k, now, warmup); Deciding(v, acc, r, fs)
    decreases |xs|
  {
    hide Deciding, LookupV, HandleMiss, HandleWrite, AnswerV, MshrV;
    if xs != [] {
      HeadV(v, acc, c, xs);
      if xs[0].kind == Write && !cfg.MatchOffset() {
        WriteV(v, acc, cfg, c, xs, now, warmup);
        HandleMissesV(v, acc, cfg, HandleWrite(cfg, c, xs[0], now, warmup), xs[1..], accepts, k + 1, now, warmup);
      } else if HandleMiss(cfg, c, xs[0], accepts(k)).Some? {
        MissV(v, acc, cfg, c, xs, accepts(k));
        HandleMissesV(v, acc, cfg, HandleMiss(cfg, c, xs[0], accepts(k)).value, xs[1..], accepts, k + 1, now, warmup);
      } else {
        HandleMissesV(v, acc, cfg, c, xs[1..], accepts, k + 1, now, warmup);
        var (r, fs) := HandleMisses(cfg, c, xs[1..], accepts, k + 1, now, warmup);
        ConsV(v, acc, r, xs[0], fs);
      }
    }
  }

  lemma TagChecksV(v: View, acc: seq<Accepted>, cfg: CacheConfig, c: Cache, accepts: nat -> bool, now: int,
      warmup: bool)
    requires CacheV(v, acc, c) && Sized(cfg, c) && cfg.OffsetBits() == v.off
    ensures CacheV(v, acc, TagChecks(cfg, c, accepts, now, warmup))
  {
    hide ChannelsV, AnswersV, LookupsV, MshrsV, SpanLen, TryHits, HandleMisses, Sized;
    var n := SpanLen(c.tags, cfg.maxTag, (x: Lookup) => x.ready <= now && x.translated);
    PartsV(v, acc, c.tags, n, c.tags);
    TryHitsV(v, acc, cfg, c, c.tags[..n]);
    CacheInvariant.TryHitsPlaces(cfg, c, c.tags[..n], 0);
    var (d, misses) := TryHits(cfg, c, c.tags[..n]);
    HandleMissesV(v, acc, cfg, d, misses, accepts, 0, now, warmup);
    MissesRest(cfg, d, misses, accepts, 0, now, warmup);
    var (e, again) := HandleMisses(cfg, d, misses, accepts, 0, now, warmup);
    PartsV(v, acc, again, 0, c.tags[n..]);
  }

  lemma {:induction false} MissesRest(cfg: CacheConfig, c: Cache, xs: seq<Lookup>, accepts: nat -> bool, k: nat,
      now: int, warmup: bool)
    ensures CacheInvariant.SameRest(c, HandleMisses(cfg, c, xs, accepts, k, now, warmup).0)
    decreases |xs|
  {
    hide FindMshr, Caches.Merge, MshrOf, NeedsMshr;
    if xs != [] {
      if xs[0].kind == Write && !cfg.MatchOffset() {
        MissesRest(cfg, HandleWrite(cfg, c, xs[0], now, warmup), xs[1..], accepts, k + 1, now, warmup);
      } else if HandleMiss(cfg, c, xs[0], accepts(k)).Some? {
        MissesRest(cfg, HandleMiss(cfg, c, xs[0], accepts(k)).value, xs[1..], accepts, k + 1, now, warmup);
      } else {
        MissesRest(cfg, c, xs[1..], accepts, k + 1, now, warmup);
      }
    }
  }

  // ---- a cycle ----

  ghost predicate TranslationsOk(v: View, y: Cycle) {
    forall i :: 0 <= i < |y.translations| ==> TranslationOk(v, y.pageBits, y.translations[i].0, y.translations[i].1)
  }

  lemma OperateV(v: View, acc: seq<Accepted>, cfg: CacheConfig, c: Cache, y: Cycle)
    requires CacheV(v, acc, c) && Sized(cfg, c) && VictimsOk(cfg, y.choices) && TranslationsOk(v, y)
    requires cfg.OffsetBits() == v.off
    ensures CacheV(v, acc, Operate(cfg, c, y))
  {
    hide CacheV, CheckChannels, FinishAll, TranslateEach, Fills, TakeStash, TakeChannels, TakeInternal, Park, TagChecks,
      Sized, VictimsOk;
    CheckChannelsV(v, acc, cfg, c, 0);
    var c1 := CheckChannels(cfg, c, 0);
    FinishAllV(v, acc, cfg, c1, y.returned, y.now, y.warmup);
    var c2 := FinishAll(cfg, c1, y.returned, y.now, y.warmup);
    TranslateEachV(v, acc, c2, y.pageBits, y.translations);
    ReturnsSized(cfg, c, y);
    var c3 := Returns(cfg, c, y);
    FillsV(v, acc, cfg, c3, y.now, y.choices);
    var c4 := Fills(cfg, c3, y.now, y.choices);
    var room := |c4.stash| < cfg.mshrSize;
    var at := y.now + Latency(y.warmup, cfg.hitLatency);
    TakeStashV(v, acc, c4, y.stashShare, at);
    TakeChannelsV(v, acc, TakeStash(c4, y.stashShare, at), y.order, y.shares, room, at);
    TakeInternalV(v, acc, TakeChannels(TakeStash(c4, y.stashShare, at), y.order, y.shares, room, at), y.internalShare,
      room, at);
    InitiateFrame(cfg, c4, y);
    var c5 := Initiate(cfg, c4, y);
    ParkV(v, acc, c5, y);
    SameSized(cfg, c4, Park(c5, y));
    TagChecksV(v, acc, cfg, Park(c5, y), y.accepts, y.now, y.warmup);
  }

  // ---- arrivals ----

  /** The core asks for virtual addresses, and never to prefetch; what comes from caches and
      walkers is translated, and not for the data of another virtual block. */
  ghost predicate ArrivalOk(v: View, x: Request) {
    if x.translated then x.kind != Prefetch ==>
      MayOwn(v, x.address, x.vaddr) else x.address == x.vaddr && x.kind != Prefetch
  }

  ghost predicate ArrivalsV(v: View, xs: seq<Arrival>) { forall i :: 0 <= i < |xs| ==> ArrivalOk(v, xs[i].x) }

  lemma MoreCarries(v: View, acc: seq<Accepted>, x: Accepted, vaddr: nat, tokens: seq<nat>)
    requires Carries(v, acc, vaddr, tokens)
    ensures Carries(v, acc + [x], vaddr, tokens) && (Direct(acc + [x], tokens) <==> Direct(acc, tokens))
  {
    hide Prefix;
    assert forall k :: 0 <= k < |tokens| ==> Virtual(acc + [x], tokens[k]) == Virtual(acc, tokens[k]);
    hide Virtual;
  }

  lemma MoreQueue(v: View, acc: seq<Accepted>, x: Accepted, q: seq<Request>)
    requires QueueV(v, acc, q)
    ensures QueueV(v, acc + [x], q)
  {
    hide Carries, Direct, MayOwn;
    forall i | 0 <= i < |q| ensures RequestV(v, acc + [x], q[i]) {
      assert RequestV(v, acc, q[i]);
      MoreCarries(v, acc, x, q[i].vaddr, q[i].tokens);
    }
  }

  lemma MoreChannels(v: View, acc: seq<Accepted>, x: Accepted, cs: seq<Channel>)
    requires ChannelsV(v, acc, cs)
    ensures ChannelsV(v, acc + [x], cs)
  {
    hide QueueV;
    forall i | 0 <= i < |cs| ensures ChannelV(v, acc + [x], cs[i]) {
      assert ChannelV(v, acc, cs[i]);
      MoreQueue(v, acc, x, cs[i].wq);
      MoreQueue(v, acc, x, cs[i].rq);
      MoreQueue(v, acc, x, cs[i].pq);
    }
  }

  lemma MoreLookups(v: View, acc: seq<Accepted>, x: Accepted, s: seq<Lookup>)
    requires LookupsV(v, acc, s)
    ensures LookupsV(v, acc + [x], s)
  {
    hide Carries, Direct, MayOwn, Owned;
    forall i | 0 <= i < |s| ensures LookupV(v, acc + [x], s[i]) {
      assert LookupV(v, acc, s[i]);
      MoreCarries(v, acc, x, s[i].vaddr, s[i].tokens);
    }
  }

  lemma MoreMshrs(v: View, acc: seq<Accepted>, x: Accepted, s: seq<Mshr>)
    requires MshrsV(v, acc, s)
    ensures MshrsV(v, acc + [x], s)
  {
    hide Carries, Direct, MayOwn, Owned;
    forall i | 0 <= i < |s| ensures MshrV(v, acc + [x], s[i]) {
      assert MshrV(v, acc, s[i]);
      MoreCarries(v, acc, x, s[i].vaddr, s[i].tokens);
    }
  }

  lemma MoreAnswers(v: View, acc: seq<Accepted>, x: Accepted, s: seq<Answer>)
    requires AnswersV(v, acc, s)
    ensures AnswersV(v, acc + [x], s)
  {
    hide Carries, Direct;
    forall i | 0 <= i < |s| ensures AnswerV(v, acc + [x], s[i]) {
      assert AnswerV(v, acc, s[i]);
      MoreCarries(v, acc, x, s[i].vaddr, s[i].tokens);
    }
  }

  lemma MoreV(v: View, acc: seq<Accepted>, x: Accepted, c: Cache)
    requires CacheV(v, acc, c)
    ensures CacheV(v, acc + [x], c)
  {
    hide ChannelsV, AnswersV, LookupsV, MshrsV;
    MoreChannels(v, acc, x, c.channels);
    MoreLookups(v, acc, x, c.internal);
    MoreLookups(v, acc, x, c.tags);
    MoreLookups(v, acc, x, c.stash);
    MoreMshrs(v, acc, x, c.mshr);
    MoreMshrs(v, acc, x, c.writes);
    MoreAnswers(v, acc, x, c.answers);
  }

  /** A request enters with the next token, or none. */
  lemma NewRequestV(v: View, acc: seq<Accepted>, channel: nat, x: Request)
    requires ArrivalOk(v, x)
    ensures RequestV(v, acc + [Accepted(channel, x.address, x.translated, x.deps)],
      x.(tokens := [|acc|], checked := false))
    ensures RequestV(v, acc, x.(tokens := [], checked := false))
  {
    hide Prefix;
  }

  lemma EnqueueV(v: View, acc: seq<Accepted>, c: Cache, i: nat, to: QueueName, x: Request)
    requires CacheV(v, acc, c) && i < |c.channels| && RequestV(v, acc, x)
    ensures CacheV(v, acc, Enqueued(c, i, to, x))
  {
    hide RequestV, AnswersV, LookupsV, MshrsV;
    assert ChannelV(v, acc, c.channels[i]);
    assert ChannelV(v, acc, WithQueue(c.channels[i], to, QueueOf(c.channels[i], to) + [x]));
    hide ChannelV;
  }

  lemma ArriveV(v: View, acc: seq<Accepted>, cfg: CacheConfig, c: Cache, a: Arrival)
    requires CacheV(v, acc, c) && ArrivalOk(v, a.x)
    ensures var (d, more) := Arrive(cfg, c, acc, a); CacheV(v, more, d)
  {
    hide CacheV, ArrivalOk, RequestV, QueueOf, WithQueue, SizeOf;
    if a.channel < |c.channels| {
      var x := Accepted(a.channel, a.x.address, a.x.translated, a.x.deps);
      NewRequestV(v, acc, a.channel, a.x);
      MoreV(v, acc, x, c);
      if a.x.wants {
        EnqueueV(v, acc + [x], c, a.channel, a.to, a.x.(tokens := [|acc|], checked := false));
      } else {
        EnqueueV(v, acc, c, a.channel, a.to, a.x.(tokens := [], checked := false));
      }
    }
  }

  lemma {:induction false} ArriveAllV(v: View, acc: seq<Accepted>, cfg: CacheConfig, c: Cache, xs: seq<Arrival>)
    requires CacheV(v, acc, c) && ArrivalsV(v, xs)
    ensures var (d, more) := ArriveAll(cfg, c, acc, xs); CacheV(v, more, d)
    decreases |xs|
  {
    hide CacheV, Arrive, ArrivalOk;
    if xs != [] {
      ArriveV(v, acc, cfg, c, xs[0]);
      var (d, more) := Arrive(cfg, c, acc, xs[0]);
      ArriveAllV(v, more, cfg, d, xs[1..]);
    }
  }

  lemma EnteredV(v: View, acc: seq<Accepted>, cfg: CacheConfig, c: Cache, y: Cycle)
    requires CacheV(v, acc, c) && ArrivalsV(v, y.arrivals) && ArrivalsOk(y)
    ensures var (d, more) := Entered(cfg, c, acc, y); CacheV(v, more, d)
  {
    hide ArrivalsV, ArriveAll, Sorted, ChannelsV, AnswersV, MshrsV, LookupV;
    ArriveAllV(v, acc, cfg, c, y.arrivals);
    var (d, more) := ArriveAll(cfg, c, acc, y.arrivals);
    forall i | 0 <= i < |y.prefetches| ensures LookupV(v, more, y.prefetches[i]) {
      PrefetchV(v, more, y.prefetches[i]);
    }
    PartsV(v, more, d.internal, 0, y.prefetches);
    hide LookupsV;
  }

  lemma PrefetchV(v: View, acc: seq<Accepted>, x: Lookup)
    requires PrefetchOk(x)
    ensures LookupV(v, acc, x)
  {
  }

  // ---- runs ----

  ghost predicate Understood(v: View, ys: seq<Cycle>) {
    forall i :: 0 <= i < |ys| ==> ArrivalsV(v, ys[i].arrivals) && TranslationsOk(v, ys[i])
  }

  lemma {:induction false} RunV(v: View, cfg: CacheConfig, channels: nat, ys: seq<Cycle>)
    requires RunOk(cfg, channels, ys) && Understood(v, ys) && cfg.OffsetBits() == v.off
    ensures var (c, acc) := Run(cfg, channels, ys); CacheV(v, acc, c)
    decreases |ys|
  {
    hide CacheV, Inv, InvAfter, CycleOk, Entered, ArrivalsV, TranslationsOk, Operate, ArrivalsOk, Empty;
    if ys == [] {
      EmptyV(v, cfg, channels);
    } else {
      var n := |ys| - 1;
      RunV(v, cfg, channels, ys[..n]);
      var (c, acc) := Run(cfg, channels, ys[..n]);
      var y := ys[n];
      NextInv(cfg, channels, c, acc, ys[..n], y);
      EnteredV(v, acc, cfg, c, y);
      EnteredInv(cfg, c, acc, y.now, y.warmup, y);
      var (d, more) := Entered(cfg, c, acc, y);
      OperateInv(cfg, d, more, y);
      OperateV(v, more, cfg, d, y);
    }
  }

  lemma EmptyV(v: View, cfg: CacheConfig, channels: nat)
    ensures CacheV(v, [], Empty(cfg, channels))
  {
  }

  /** On every run, an answer to a request that arrived untranslated carries a virtual address in
      the block the request asked for, although misses merge by physical block: provided that
      translations give every virtual block a physical block of its own. */
  lemma {:induction false} AnswersCarryVirtualBlocks(v: View, cfg: CacheConfig, channels: nat, ys: seq<Cycle>, i: nat,
      t: nat)
    requires RunOk(cfg, channels, ys) && Understood(v, ys) && cfg.OffsetBits() == v.off
    requires var (c, acc) := Run(cfg, channels, ys); i < |c.answers| && t in c.answers[i].tokens && Virtual(acc, t)
    ensures var (c, acc) := Run(cfg, channels, ys); BlockOf(cfg, c.answers[i].vaddr) == BlockOf(cfg, acc[t].address)
  {
    hide Run, RunOk, Understood, ChannelsV, LookupsV, MshrsV;
    RunV(v, cfg, channels, ys);
    var (c, acc) := Run(cfg, channels, ys);
    assert AnswerV(v, acc, c.answers[i]);
    var k :| 0 <= k < |c.answers[i].tokens| && c.answers[i].tokens[k] == t;
  }
}
