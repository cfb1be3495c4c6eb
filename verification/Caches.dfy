/** A cache as a function of its state (src/cache.cc). Victims, prefetches, the tag
    bandwidth each queue gets and the lower level's acceptance are the environment's. */
module Caches {
  import opened Sequences
  import opened SortedLists
  import opened Bits
  import opened Responses
  import opened Channels

  datatype CacheConfig = CacheConfig(channel: Channels.Config, setBits: nat, ways: nat, mshrSize: nat, hitLatency: nat,
      fillLatency: nat, maxTag: nat, maxFill: nat)
  {
    function OffsetBits(): nat { channel.offsetBits }
    function MatchOffset(): bool { channel.matchOffset }
    function Sets(): nat { Pow2(setBits) }
  }

  /** tag_lookup_type. */
  datatype Lookup = Lookup(address: nat, vaddr: nat, kind: Kind, fromThis: bool, skipFill: bool, translated: bool,
      issued: bool, ready: int,
                           deps: seq<nat>, ret: seq<nat>, tokens: seq<nat>)

  /** mshr_type: `data` is when the returned data is ready, None before it returns. */
  datatype Mshr = Mshr(address: nat, vaddr: nat, kind: Kind, fromThis: bool, data: Option<int>, deps: seq<nat>,
      ret: seq<nat>, tokens: seq<nat>)

  datatype Way = Way(valid: bool, address: nat, dirty: bool, prefetch: bool)

  /** What happens to written data: a write takes effect, a dirty block is written back, a write
      that waits for its block is overtaken by a demand miss that merges with it, or its fill
      bypasses the cache. */
  datatype Event = Wrote(address: nat) | WroteBack(address: nat) | Overtaken(address: nat) | Bypassed(address: nat)

  /** `writes` is inflight_writes. `answers`, `events` and `sent` are model-only logs: the responses,
      what has happened to written data, and the misses whose requests the lower level took. */
  datatype Cache = Cache(channels: seq<Channel>, internal: seq<Lookup>, tags: seq<Lookup>, stash: seq<Lookup>,
      mshr: seq<Mshr>, writes: seq<Mshr>, block: seq<seq<Way>>, answers: seq<Answer>, events: seq<Event>,
      sent: seq<Lookup>)

  function BlockOf(cfg: CacheConfig, a: nat): nat { Shr(a, cfg.OffsetBits()) }

  function SetIndex(cfg: CacheConfig, a: nat): (s: nat)
    ensures s < cfg.Sets()
  {
    LowBound(Shr(a, cfg.OffsetBits()), cfg.setBits);
    Low(Shr(a, cfg.OffsetBits()), cfg.setBits)
  }

  ghost predicate Sized(cfg: CacheConfig, c: Cache) {
    |c.block| == cfg.Sets() && forall s :: 0 <= s < |c.block| ==> |c.block[s]| == cfg.ways
  }

  // ---- check_collision of every upper level ----

  function CheckChannels(cfg: CacheConfig, c: Cache, i: nat): (r: Cache)
    requires i <= |c.channels|
    ensures |r.channels| == |c.channels|
    ensures r == c.(channels := r.channels, answers := r.answers)
    decreases |c.channels| - i
  {
    if i == |c.channels| then c
    else
      var (d, a) := CheckCollision(cfg.channel, c.channels[i], i, c.answers);
      CheckChannels(cfg, c.(channels := c.channels[i := d], answers := a), i + 1)
  }

  // ---- finish_packet ----

  function FindMshr(cfg: CacheConfig, q: seq<Mshr>, a: nat): (k: nat)
    ensures k <= |q|
    ensures k < |q| ==> BlockOf(cfg, q[k].address) == BlockOf(cfg, a)
    ensures forall j :: 0 <= j < k ==> BlockOf(cfg, q[j].address) != BlockOf(cfg, a)
  {
    if q == [] || BlockOf(cfg, q[0].address) == BlockOf(cfg, a) then 0 else 1 + FindMshr(cfg, q[1..], a)
  }

  function FirstUnreturned(q: seq<Mshr>): (k: nat)
    ensures k <= |q|
    ensures k < |q| ==> q[k].data.None?
    ensures forall j :: 0 <= j < k ==> q[j].data.Some?
  {
    if q == [] || q[0].data.None? then 0 else 1 + FirstUnreturned(q[1..])
  }

  function Latency(warmup: bool, l: nat): nat { if warmup then 0 else l }

  /** std::iter_swap puts the returned entry after the previously returned ones. The
      position to swap with is found before the entry is marked. */
  function Return(q: seq<Mshr>, k: nat, at: int): seq<Mshr>
    requires k < |q| && FirstUnreturned(q) < |q|
  {
    var f := FirstUnreturned(q);
    var x := q[k].(data := Some(at));
    if f == k then q[k := x] else q[k := q[f]][f := x]
  }

  /** What the lower level may return: the block of a miss that has not returned. */
  ghost predicate Returnable(cfg: CacheConfig, q: seq<Mshr>, a: nat) {
    exists k :: 0 <= k < |q| && q[k].data.None? && BlockOf(cfg, q[k].address) == BlockOf(cfg, a)
  }

  function FinishPacket(cfg: CacheConfig, c: Cache, a: nat, now: int, warmup: bool): Cache {
    var k := FindMshr(cfg, c.mshr, a);
    if k < |c.mshr| && FirstUnreturned(c.mshr) < |c.mshr|
      then c.(mshr := Return(c.mshr, k, now + Latency(warmup, cfg.fillLatency)))
    else c
  }

  // ---- finish_translation ----

  function Translate(x: Lookup, pageBits: nat, vpage: nat, ppage: nat): Lookup {
    if !x.translated && Shr(x.vaddr, pageBits) == vpage
      then x.(address := Low(x.vaddr, pageBits) + Shl(ppage, pageBits), translated := true) else x
  }

  function TranslateAll(s: seq<Lookup>, pageBits: nat, vpage: nat, ppage: nat): (r: seq<Lookup>)
    ensures |r| == |s| && forall i :: 0 <= i < |s| ==> r[i] == Translate(s[i], pageBits, vpage, ppage)
  {
    seq(|s|, i requires 0 <= i < |s| => Translate(s[i], pageBits, vpage, ppage))
  }

  function Select(s: seq<Lookup>, p: Lookup -> bool, want: bool): (r: seq<Lookup>)
    ensures |r| <= |s| && forall x :: x in r ==> x in s && p(x) == want
  {
    if s == [] then [] else (if p(s[0]) == want then [s[0]] else []) + Select(s[1..], p, want)
  }

  function LeadingTranslated(s: seq<Lookup>): (n: nat)
    ensures n <= |s|
  {
    SpanLen(s, |s|, (x: Lookup) => x.translated)
  }

  /** The stashed lookups of the page move ahead of the others that wait, and are translated. */
  function FinishStash(s: seq<Lookup>, pageBits: nat, vpage: nat, ppage: nat): seq<Lookup> {
    var b := LeadingTranslated(s);
    var p := (x: Lookup) => !x.translated && Shr(x.vaddr, pageBits) == vpage;
    s[..b] + TranslateAll(Select(s[b..], p, true), pageBits, vpage, ppage) + Select(s[b..], p, false)
  }

  function FinishTranslation(c: Cache, pageBits: nat, vpage: nat, ppage: nat): Cache {
    c.(stash := FinishStash(c.stash, pageBits, vpage, ppage), tags := TranslateAll(c.tags, pageBits, vpage, ppage))
  }

  // ---- handle_fill ----

  function FirstInvalid(s: seq<Way>): (k: nat)
    ensures k <= |s| && (k < |s| ==> !s[k].valid)
    ensures forall j :: 0 <= j < k ==> s[j].valid
  {
    if s == [] || !s[0].valid then 0 else 1 + FirstInvalid(s[1..])
  }

  function AnswerOf(m: Mshr): Answer { Answer(m.address, m.vaddr, m.deps, m.ret, m.tokens) }

  /** The way a fill goes to: an invalid one, or else the victim; |ways| bypasses. */
  function FillWay(cfg: CacheConfig, c: Cache, m: Mshr, victim: nat): (w: nat)
    requires Sized(cfg, c) && victim <= cfg.ways
    ensures w <= cfg.ways
  {
    var k := FirstInvalid(c.block[SetIndex(cfg, m.address)]);
    if k < cfg.ways then k else victim
  }

  /** A dirty victim needs the lower level to take its writeback. */
  predicate NeedsWriteback(cfg: CacheConfig, c: Cache, m: Mshr, w: nat)
    requires Sized(cfg, c) && w <= cfg.ways
  {
    w < cfg.ways && c.block[SetIndex(cfg, m.address)][w].valid && c.block[SetIndex(cfg, m.address)][w].dirty
  }

  function FillBlock(cfg: CacheConfig, c: Cache, m: Mshr, w: nat): (r: Cache)
    requires Sized(cfg, c) && w <= cfg.ways
    ensures Sized(cfg, r)
  {
    var s := SetIndex(cfg, m.address);
    c.(block := if w < cfg.ways then c.block[s := c.block[s][w := Way(true, m.address, m.kind == Write, m.fromThis)]]
      else c.block,
       answers := c.answers + [AnswerOf(m)])
  }

  /** What a fill meets: the replacement policy's victim, and whether a writeback is taken. */
  datatype FillChoice = FillChoice(victim: nat, writeback: bool)

  /** A victim is a way of the set; the number of ways means that the fill bypasses. */
  ghost predicate VictimsOk(cfg: CacheConfig, choices: nat -> FillChoice) {
    forall j :: choices(j).victim <= cfg.ways
  }

  /** What a fill of way `w` does first: send the writeback of a dirty victim, if it is taken; or
      bypass. */
  function Evict(cfg: CacheConfig, c: Cache, m: Mshr, w: nat, choice: FillChoice): (r: Cache)
    requires Sized(cfg, c) && w <= cfg.ways
    ensures r == c.(events := r.events)
  {
    c.(events := c.events
      + (if NeedsWriteback(cfg, c, m, w) && choice.writeback
         then [WroteBack(c.block[SetIndex(cfg, m.address)][w].address)]
         else if w == cfg.ways && m.kind == Write then [Bypassed(m.address)] else []))
  }

  /** Fill the first `n` entries of `q` in turn until one cannot write back its victim;
      the second result is how many were filled. */
  function FillFrom(cfg: CacheConfig, c: Cache, q: seq<Mshr>, n: nat, choices: nat -> FillChoice,
      k: nat): (res: (Cache, nat))
    requires Sized(cfg, c) && n <= |q| && VictimsOk(cfg, choices)
    ensures Sized(cfg, res.0) && res.1 <= n
    decreases n
  {
    if n == 0 then (c, 0)
    else
      var w := FillWay(cfg, c, q[0], choices(k).victim);
      if NeedsWriteback(cfg, c, q[0], w) && !choices(k).writeback then (c, 0)
      else
        var (r, m) := FillFrom(cfg, FillBlock(cfg, Evict(cfg, c, q[0], w, choices(k)), q[0], w), q[1..], n - 1, choices,
          k + 1);
        (r, m + 1)
  }

  ghost function Filled(cfg: CacheConfig, c: Cache, q: seq<Mshr>, choices: nat -> FillChoice, k: nat): (r: Cache)
    requires Sized(cfg, c) && q != [] && VictimsOk(cfg, choices)
    ensures Sized(cfg, r) && r == c.(block := r.block, answers := r.answers, events := r.events)
    ensures r.answers == c.answers + [AnswerOf(q[0])]
  {
    var w := FillWay(cfg, c, q[0], choices(k).victim);
    FillBlock(cfg, Evict(cfg, c, q[0], w, choices(k)), q[0], w)
  }

  /** One step of filling. */
  lemma {:induction false} FillStep(cfg: CacheConfig, c: Cache, q: seq<Mshr>, n: nat, choices: nat -> FillChoice,
      k: nat)
    requires Sized(cfg, c) && n <= |q| && VictimsOk(cfg, choices)
    ensures var (r, m) := FillFrom(cfg, c, q, n, choices, k);
      if m == 0 then r == c
      else n > 0 && FillFrom(cfg, Filled(cfg, c, q, choices, k), q[1..], n - 1, choices, k + 1) == (r, m - 1)
  {
    hide FillWay, NeedsWriteback, SetIndex, FillBlock, Evict;
  }

  lemma TailOfTail(q: seq<Mshr>, m: nat)
    requires 0 < m <= |q|
    ensures q[1..][m - 1..] == q[m..]
  {
  }

  function IsReady(x: Mshr, now: int): bool { x.data.Some? && x.data.value <= now }

  function FillMshrs(cfg: CacheConfig, c: Cache, now: int, choices: nat -> FillChoice): (res: (Cache, nat))
    requires Sized(cfg, c) && VictimsOk(cfg, choices)
    ensures Sized(cfg, res.0) && res.1 <= cfg.maxFill
  {
    var n := SpanLen(c.mshr, cfg.maxFill, (x: Mshr) => IsReady(x, now));
    var (r, m) := FillFrom(cfg, c, c.mshr, n, choices, 0);
    (r.(mshr := c.mshr[m..]), m)
  }

  function FillWrites(cfg: CacheConfig, c: Cache, width: nat, now: int, choices: nat -> FillChoice, k: nat): (r: Cache)
    requires Sized(cfg, c) && VictimsOk(cfg, choices)
    ensures Sized(cfg, r)
  {
    var n := SpanLen(c.writes, width, (x: Mshr) => IsReady(x, now));
    var (r, m) := FillFrom(cfg, c, c.writes, n, choices, k);
    r.(writes := c.writes[m..])
  }

  /** Fills from the MSHR, then from the writes, sharing the fill bandwidth. */
  function Fills(cfg: CacheConfig, c: Cache, now: int, choices: nat -> FillChoice): (r: Cache)
    requires Sized(cfg, c) && VictimsOk(cfg, choices)
    ensures Sized(cfg, r)
  {
    var (r, m) := FillMshrs(cfg, c, now, choices);
    FillWrites(cfg, r, cfg.maxFill - m, now, choices, m)
  }

  // ---- initiate_tag_check ----

  function LookupOf(x: Request, channel: nat, at: int): Lookup {
    Lookup(x.address, x.vaddr, x.kind, false, false, x.translated, false, at, x.deps, if x.wants then [channel]
      else [], x.tokens)
  }

  function LookupsOf(q: seq<Request>, channel: nat, at: int): (r: seq<Lookup>)
    ensures |r| == |q| && forall i :: 0 <= i < |q| ==> r[i] == LookupOf(q[i], channel, at)
  {
    seq(|q|, i requires 0 <= i < |q| => LookupOf(q[i], channel, at))
  }

  function Retimed(s: seq<Lookup>, at: int): (r: seq<Lookup>)
    ensures |r| == |s| && forall i :: 0 <= i < |s| ==> r[i] == s[i].(ready := at)
  {
    seq(|s|, i requires 0 <= i < |s| => s[i].(ready := at))
  }

  /** How many entries of each queue start their tag check this cycle. */
  datatype Share = Share(wq: nat, rq: nat, pq: nat)

  /** The longest allowed prefix: at most `n`, and only translated ones once the stash is full. */
  function Allowed(q: seq<Request>, n: nat, room: bool): (k: nat)
    ensures k <= |q|
  {
    SpanLen(q, n, (x: Request) => room || x.translated)
  }

  function TakeChannel(c: Cache, i: nat, s: Share, room: bool, at: int): Cache
    requires i < |c.channels|
  {
    var q := c.channels[i];
    var w, r, p := Allowed(q.wq, s.wq, room), Allowed(q.rq, s.rq, room), Allowed(q.pq, s.pq, room);
    c.(channels := c.channels[i := Channel(q.wq[w..], q.rq[r..], q.pq[p..])],
       tags := c.tags + (LookupsOf(q.wq[..w], i, at) + LookupsOf(q.rq[..r], i, at) + LookupsOf(q.pq[..p], i, at)))
  }

  /** The channels in the order the rotation gives. */
  function TakeChannels(c: Cache, order: seq<nat>, shares: nat -> Share, room: bool, at: int): (r: Cache)
    decreases |order|
  {
    if order == [] then c
    else TakeChannels(if order[0] < |c.channels| then TakeChannel(c, order[0], shares(order[0]), room, at)
      else c, order[1..], shares, room, at)
  }

  function TakeStash(c: Cache, n: nat, at: int): Cache {
    var k := SpanLen(c.stash, n, (x: Lookup) => x.translated);
    c.(tags := c.tags + Retimed(c.stash[..k], at), stash := c.stash[k..])
  }

  function TakeInternal(c: Cache, n: nat, room: bool, at: int): Cache {
    var k := SpanLen(c.internal, n, (x: Lookup) => room || x.translated);
    c.(tags := c.tags + Retimed(c.internal[..k], at), internal := c.internal[k..])
  }

  /** issue_translation: `accepts` says for which waiting lookups the translator takes a request. */
  function Issue(s: seq<Lookup>, accepts: nat -> bool): (r: seq<Lookup>)
    ensures |r| == |s| && forall i :: 0 <= i < |s| ==> r[i] == s[i].(issued := r[i].issued)
  {
    seq(|s|, i requires 0 <= i < |s| => if !s[i].issued && !s[i].translated then s[i].(issued := accepts(i)) else s[i])
  }

  /** Lookups that would be ready but are not translated move to the stash. */
  function Stash(c: Cache, now: int): Cache {
    var p := (x: Lookup) => x.ready <= now && !x.translated;
    c.(tags := Select(c.tags, p, false), stash := c.stash + Select(c.tags, p, true))
  }

  // ---- try_hit ----

  function FindWay(cfg: CacheConfig, s: seq<Way>, a: nat): (k: nat)
    ensures k <= |s|
    ensures k < |s| ==> s[k].valid && BlockOf(cfg, s[k].address) == BlockOf(cfg, a)
    ensures forall j :: 0 <= j < k ==> !(s[j].valid && BlockOf(cfg, s[j].address) == BlockOf(cfg, a))
  {
    if s == [] || (s[0].valid && BlockOf(cfg, s[0].address) == BlockOf(cfg, a)) then 0 else 1 + FindWay(cfg, s[1..], a)
  }

  predicate Hits(cfg: CacheConfig, c: Cache, x: Lookup)
    requires Sized(cfg, c)
  {
    FindWay(cfg, c.block[SetIndex(cfg, x.address)], x.address) < cfg.ways
  }

  function AnswerLookup(x: Lookup): Answer { Answer(x.address, x.vaddr, x.deps, x.ret, x.tokens) }

  function Written(events: seq<Event>, x: Lookup): seq<Event> {
    if x.kind == Write then events + [Wrote(x.address)] else events
  }

  /** A hit answers, and updates the block's dirty and prefetch bits. */
  function TakeHit(cfg: CacheConfig, c: Cache, x: Lookup): (r: Cache)
    requires Sized(cfg, c) && Hits(cfg, c, x)
    ensures Sized(cfg, r)
  {
    var s := SetIndex(cfg, x.address);
    var k := FindWay(cfg, c.block[s], x.address);
    var w := c.block[s][k];
    c.(block := c.block[s := c.block[s][k := w.(dirty := w.dirty || x.kind == Write, prefetch := w.prefetch
      && x.fromThis)]],
       answers := c.answers + [AnswerLookup(x)], events := Written(c.events, x))
  }

  /** Try every lookup in turn; the second result is those that missed. */
  function TryHits(cfg: CacheConfig, c: Cache, xs: seq<Lookup>): (res: (Cache, seq<Lookup>))
    requires Sized(cfg, c)
    ensures Sized(cfg, res.0)
    decreases |xs|
  {
    if xs == [] then (c, [])
    else if Hits(cfg, c, xs[0]) then TryHits(cfg, TakeHit(cfg, c, xs[0]), xs[1..])
    else
      var (r, ms) := TryHits(cfg, c, xs[1..]);
      (r, [xs[0]] + ms)
  }

  // ---- handle_miss, handle_write ----

  function MshrOf(x: Lookup): Mshr { Mshr(x.address, x.vaddr, x.kind, x.fromThis, None, x.deps, x.ret, x.tokens) }

  /** mshr_type::merge: the successor's fields unless it is a prefetch, both waiting lists,
      and the predecessor's data. */
  function Merge(predecessor: Mshr, successor: Mshr): Mshr {
    (if successor.kind == Prefetch then predecessor else successor).(
      data := predecessor.data, deps := SetUnion(predecessor.deps, successor.deps),
        ret := SetUnion(predecessor.ret, successor.ret),
      tokens := predecessor.tokens + successor.tokens)
  }

  /** A local prefetch that skips the fill asks for no response and takes no MSHR. */
  predicate NeedsMshr(x: Lookup) { !x.fromThis || !x.skipFill }

  /** The lower level's add_rq or add_pq: the request of a miss, if it is taken. */
  function SendRequest(c: Cache, x: Lookup, accepted: bool): Cache {
    if accepted then c.(sent := c.sent + [x]) else c
  }

  /** None when the miss must be tried again. */
  function HandleMiss(cfg: CacheConfig, c: Cache, x: Lookup, accepted: bool): Option<Cache> {
    var k := FindMshr(cfg, c.mshr, x.address);
    if k < |c.mshr| then Some(c.(mshr := c.mshr[k := Merge(c.mshr[k], MshrOf(x))],
      events := if c.mshr[k].kind == Write && x.kind != Write && x.kind != Prefetch
        then c.events + [Overtaken(x.address)] else Written(c.events, x)))
    else if |c.mshr| == cfg.mshrSize then None
    else
      var d := SendRequest(c, x, accepted);
      if !accepted then None
      else if NeedsMshr(x) then Some(d.(mshr := c.mshr + [MshrOf(x)], events := Written(c.events, x)))
      else Some(d)
  }

  function HandleWrite(cfg: CacheConfig, c: Cache, x: Lookup, now: int, warmup: bool): Cache {
    c.(writes := c.writes + [MshrOf(x).(data := Some(now + Latency(warmup, cfg.fillLatency)))],
       events := Written(c.events, x))
  }

  /** Handle every miss in turn; the second result is those to try again. */
  function HandleMisses(cfg: CacheConfig, c: Cache, xs: seq<Lookup>, accepts: nat -> bool, k: nat, now: int,
      warmup: bool): (res: (Cache, seq<Lookup>))
    decreases |xs|
  {
    if xs == [] then (c, [])
    else if xs[0].kind == Write && !cfg.MatchOffset()
      then HandleMisses(cfg, HandleWrite(cfg, c, xs[0], now, warmup), xs[1..], accepts, k + 1, now, warmup)
    else
      var d := HandleMiss(cfg, c, xs[0], accepts(k));
      if d.Some? then HandleMisses(cfg, d.value, xs[1..], accepts, k + 1, now, warmup)
      else
        var (r, fs) := HandleMisses(cfg, c, xs[1..], accepts, k + 1, now, warmup);
        (r, [xs[0]] + fs)
  }

  /** All hits are decided before any miss is handled. */
  function TagChecks(cfg: CacheConfig, c: Cache, accepts: nat -> bool, now: int, warmup: bool): (r: Cache)
    requires Sized(cfg, c)
  {
    var n := SpanLen(c.tags, cfg.maxTag, (x: Lookup) => x.ready <= now && x.translated);
    var (d, misses) := TryHits(cfg, c, c.tags[..n]);
    var (e, again) := HandleMisses(cfg, d, misses, accepts, 0, now, warmup);
    e.(tags := again + c.tags[n..])
  }
}
