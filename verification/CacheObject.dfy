/** A cache as the object the simulator updates in place (src/cache.cc). Its channels are
    kept as values; what the environment decides comes as parameters. */
module CacheObjects {
  import opened Sequences
  import opened SortedLists
  import opened Bits
  import opened Responses
  import opened Channels
  import opened Caches
  import opened CacheInvariant
  import opened CacheDiscipline
  import opened CacheRuns

  class CacheUnit {
    const cfg: CacheConfig
    var channels: seq<Channel>
    var internalPq: seq<Lookup>
    var inflightTagCheck: seq<Lookup>
    var translationStash: seq<Lookup>
    var mshr: seq<Mshr>
    var inflightWrites: seq<Mshr>
    var block: seq<seq<Way>>
    /** The return queues of the upper levels, as one sequence of pushes. */
    var returned: seq<Response>
    ghost var answers: seq<Answer>
    ghost var events: seq<Event>
    ghost var sent: seq<Lookup>

    ghost function State(): Cache
      reads this
    {
      Cache(channels, internalPq, inflightTagCheck, translationStash, mshr, inflightWrites, block, answers, events,
        sent)
    }

    ghost predicate Shaped()
      reads this
    {
      Sized(cfg, State()) && returned == Pushed(answers)
    }

    constructor (cfg: CacheConfig, channelCount: nat)
      ensures Shaped() && this.cfg == cfg && State() == Empty(cfg, channelCount)
    {
      this.cfg := cfg;
      channels, events, sent := seq(channelCount, _ => Channel([], [], [])), [], [];
      internalPq, inflightTagCheck, translationStash, mshr, inflightWrites, returned, answers := [], [], [], [], [], [],
        [];
      block := seq(cfg.Sets(), _ => seq(cfg.ways, _ => Way(false, 0, false, false)));
    }

    method PushResponses(a: Answer)
      requires Shaped()
      modifies this`returned, this`answers
      ensures Shaped() && answers == old(answers) + [a]
    {
      PushedAppend(answers, a);
      returned := Push(returned, a);
      answers := answers + [a];
    }

    // ---- finish_packet, finish_translation ----

    method FinishReturned(a: nat, now: int, warmup: bool)
      modifies this`mshr
      ensures State() == FinishPacket(cfg, old(State()), a, now, warmup)
    {
      var entry := FindMshr(cfg, mshr, a);
      var firstUnreturned := FirstUnreturned(mshr);
      if entry < |mshr| && firstUnreturned < |mshr| {
        mshr := mshr[entry := mshr[entry].(data := Some(now + Latency(warmup, cfg.fillLatency)))];
        var x, z := mshr[entry], mshr[firstUnreturned];
        mshr := mshr[entry := z][firstUnreturned := x];
      }
    }

    method FinishPage(pageBits: nat, vpage: nat, ppage: nat)
      modifies this`translationStash, this`inflightTagCheck
      ensures State() == FinishTranslation(old(State()), pageBits, vpage, ppage)
    {
      translationStash := FinishStash(translationStash, pageBits, vpage, ppage);
      ghost var s := inflightTagCheck;
      for i := 0 to |inflightTagCheck|
        invariant |inflightTagCheck| == |s|
        invariant translationStash == FinishStash(old(translationStash), pageBits, vpage, ppage)
        invariant forall k :: 0 <= k < |s| ==>
          inflightTagCheck[k] == if k < i then Translate(s[k], pageBits, vpage, ppage) else s[k]
      {
        var x := inflightTagCheck[i];
        if !x.translated && Shr(x.vaddr, pageBits) == vpage {
          inflightTagCheck := inflightTagCheck[i := x.(address := Low(x.vaddr, pageBits)
            + Shl(ppage, pageBits), translated := true)];
        }
      }
      assert inflightTagCheck == TranslateAll(s, pageBits, vpage, ppage);
    }

    // ---- handle_fill ----

    method HandleFill(m: Mshr, choice: FillChoice) returns (ok: bool)
      requires Shaped() && choice.victim <= cfg.ways
      modifies this`block, this`returned, this`answers, this`events
      ensures Shaped()
      ensures var c := old(State()); var w := FillWay(cfg, c, m, choice.victim);
        && ok == !(NeedsWriteback(cfg, c, m, w) && !choice.writeback)
        && State() == if ok then FillBlock(cfg, Evict(cfg, c, m, w, choice), m, w) else c
    {
      hide Pushed, SetIndex;
      var s := SetIndex(cfg, m.address);
      var way: nat := FirstInvalid(block[s]);
      if way == cfg.ways {
        way := choice.victim;
      }
      ok := true;
      if way < cfg.ways && block[s][way].valid && block[s][way].dirty {
        ok := choice.writeback;
        if ok { events := events + [WroteBack(block[s][way].address)]; }
      } else if way == cfg.ways && m.kind == Write {
        events := events + [Bypassed(m.address)];
      }
      if ok {
        PushResponses(AnswerOf(m));
        if way < cfg.ways {
          block := block[s := block[s][way := Way(true, m.address, m.kind == Write, m.fromThis)]];
        }
      }
    }

    method FillQueue(q: seq<Mshr>, n: nat, choices: nat -> FillChoice, k: nat) returns (m: nat)
      requires Shaped() && n <= |q| && VictimsOk(cfg, choices)
      modifies this`block, this`returned, this`answers, this`events
      ensures Shaped() && old(Sized(cfg, State())) && (State(), m) == FillFrom(cfg, old(State()), q, n, choices, k)
      decreases n
    {
      hide NeedsWriteback, FillWay, FillBlock, Evict, Pushed;
      m := 0;
      if n > 0 {
        var ok := HandleFill(q[0], choices(k));
        if ok {
          m := FillQueue(q[1..], n - 1, choices, k + 1);
          m := m + 1;
        }
      }
    }

    method PerformFills(now: int, choices: nat -> FillChoice)
      requires Shaped() && VictimsOk(cfg, choices)
      modifies this`block, this`returned, this`answers, this`events, this`mshr, this`inflightWrites
      ensures Shaped() && old(Sized(cfg, State())) && State() == Fills(cfg, old(State()), now, choices)
    {
      hide SpanLen, FillFrom, VictimsOk, Pushed;
      var n := SpanLen(mshr, cfg.maxFill, (x: Mshr) => IsReady(x, now));
      FillFromFrame(cfg, State(), mshr, n, choices, 0);
      var m := FillQueue(mshr, n, choices, 0);
      mshr := mshr[m..];
      var l := SpanLen(inflightWrites, cfg.maxFill - m, (x: Mshr) => IsReady(x, now));
      FillFromFrame(cfg, State(), inflightWrites, l, choices, m);
      var k := FillQueue(inflightWrites, l, choices, m);
      inflightWrites := inflightWrites[k..];
    }

    // ---- try_hit ----

    method TryHit(x: Lookup) returns (hit: bool)
      requires Shaped()
      modifies this`block, this`returned, this`answers, this`events
      ensures Shaped() && old(Sized(cfg, State())) && hit == Hits(cfg, old(State()), x)
      ensures State() == if hit then TakeHit(cfg, old(State()), x) else old(State())
    {
      hide Pushed, SetIndex;
      var s := SetIndex(cfg, x.address);
      var way := FindWay(cfg, block[s], x.address);
      hit := way != cfg.ways;
      if hit {
        PushResponses(AnswerLookup(x));
        var w := block[s][way];
        if x.kind == Write { w := w.(dirty := true); }
        events := Written(events, x);
        if w.prefetch && !x.fromThis { w := w.(prefetch := false); }
        block := block[s := block[s][way := w]];
      }
    }

    /** std::stable_partition by try_hit: what is left are the misses, in order. */
    method PartitionHits(xs: seq<Lookup>) returns (misses: seq<Lookup>)
      requires Shaped()
      modifies this`block, this`returned, this`answers, this`events
      ensures Shaped() && old(Sized(cfg, State())) && (State(), misses) == TryHits(cfg, old(State()), xs)
      decreases |xs|
    {
      hide Hits, TakeHit, Pushed;
      misses := [];
      if xs != [] {
        var hit := TryHit(xs[0]);
        misses := PartitionHits(xs[1..]);
        if !hit { misses := [xs[0]] + misses; }
      }
    }

    // ---- handle_miss, handle_write ----

    method HandleOneMiss(x: Lookup, accepted: bool) returns (ok: bool)
      modifies this`mshr, this`events, this`sent
      ensures ok == HandleMiss(cfg, old(State()), x, accepted).Some?
      ensures State() == if ok then HandleMiss(cfg, old(State()), x, accepted).value else old(State())
    {
      var entry := FindMshr(cfg, mshr, x.address);
      var full := |mshr| == cfg.mshrSize;
      ok := true;
      if entry < |mshr| {
        events := if mshr[entry].kind == Write && x.kind != Write && x.kind != Prefetch
          then events + [Overtaken(x.address)] else Written(events, x);
        mshr := mshr[entry := Merge(mshr[entry], MshrOf(x))];
      } else if full {
        ok := false;
      } else {
        if accepted { sent := sent + [x]; }
        ok := accepted;
        if ok && NeedsMshr(x) {
          mshr := mshr + [MshrOf(x)];
          events := Written(events, x);
        }
      }
    }

    method HandleOneWrite(x: Lookup, now: int, warmup: bool)
      modifies this`inflightWrites, this`events
      ensures State() == HandleWrite(cfg, old(State()), x, now, warmup)
    {
      events := Written(events, x);
      inflightWrites := inflightWrites + [MshrOf(x).(data := Some(now + Latency(warmup, cfg.fillLatency)))];
    }

    /** std::stable_partition by do_handle_miss: what is left is tried again. */
    method PartitionMisses(xs: seq<Lookup>, accepts: nat -> bool, k: nat, now: int,
        warmup: bool) returns (again: seq<Lookup>)
      modifies this`mshr, this`inflightWrites, this`events, this`sent
      ensures (State(), again) == HandleMisses(cfg, old(State()), xs, accepts, k, now, warmup)
      decreases |xs|
    {
      hide HandleMiss, HandleWrite;
      again := [];
      if xs != [] {
        var ok := true;
        if xs[0].kind == Write && !cfg.MatchOffset() {
          HandleOneWrite(xs[0], now, warmup);
        } else {
          ok := HandleOneMiss(xs[0], accepts(k));
        }
        again := PartitionMisses(xs[1..], accepts, k + 1, now, warmup);
        if !ok { again := [xs[0]] + again; }
      }
    }

    method CheckTags(accepts: nat -> bool, now: int, warmup: bool)
      requires Shaped()
      modifies this`block, this`returned, this`answers, this`events, this`mshr, this`inflightWrites, this`sent,
        this`inflightTagCheck
      ensures old(Sized(cfg, State())) && State() == TagChecks(cfg, old(State()), accepts, now, warmup)
      ensures returned == Pushed(answers)
    {
      hide TryHits, HandleMisses, SpanLen, Pushed;
      var n := SpanLen(inflightTagCheck, cfg.maxTag, (x: Lookup) => x.ready <= now && x.translated);
      var rest := inflightTagCheck[n..];
      var misses := PartitionHits(inflightTagCheck[..n]);
      var again := PartitionMisses(misses, accepts, 0, now, warmup);
      inflightTagCheck := again + rest;
    }

    // ---- operate ----

    method CollectReturns(y: Cycle)
      modifies this`mshr, this`translationStash, this`inflightTagCheck
      ensures State() == Collect(cfg, old(State()), y)
    {
      hide FinishPacket, FinishTranslation;
      ghost var c := State();
      assert y.returned[0..] == y.returned && y.translations[0..] == y.translations;
      for i := 0 to |y.returned|
        invariant FinishAll(cfg, State(), y.returned[i..], y.now, y.warmup) ==
          FinishAll(cfg, c, y.returned, y.now, y.warmup)
      {
        assert y.returned[i..][0] == y.returned[i] && y.returned[i..][1..] == y.returned[i + 1..];
        FinishReturned(y.returned[i], y.now, y.warmup);
      }
      ghost var d := State();
      assert d == FinishAll(cfg, c, y.returned, y.now, y.warmup);
      for i := 0 to |y.translations|
        invariant TranslateEach(State(), y.pageBits, y.translations[i..]) ==
          TranslateEach(d, y.pageBits, y.translations)
      {
        assert y.translations[i..][0] == y.translations[i] && y.translations[i..][1..] == y.translations[i + 1..];
        FinishPage(y.pageBits, y.translations[i].0, y.translations[i].1);
      }
    }

    /** The prefixes that start their tag check: from the stash, each channel, and the
        cache's own prefetches. */
    method InitiateTagChecks(y: Cycle)
      modifies this`channels, this`internalPq, this`inflightTagCheck, this`translationStash
      ensures State() == Initiate(cfg, old(State()), y)
    {
      hide TakeChannel, SpanLen;
      var room := |translationStash| < cfg.mshrSize;
      var at := y.now + Latency(y.warmup, cfg.hitLatency);
      var k := SpanLen(translationStash, y.stashShare, (x: Lookup) => x.translated);
      inflightTagCheck := inflightTagCheck + Retimed(translationStash[..k], at);
      translationStash := translationStash[k..];
      ghost var c := State();
      assert y.order[0..] == y.order;
      for i := 0 to |y.order|
        invariant internalPq == old(internalPq)
        invariant TakeChannels(State(), y.order[i..], y.shares, room, at) ==
          TakeChannels(c, y.order, y.shares, room, at)
      {
        assert y.order[i..][0] == y.order[i] && y.order[i..][1..] == y.order[i + 1..];
        if y.order[i] < |channels| { TakeFrom(y.order[i], y.shares(y.order[i]), room, at); }
      }
      var l := SpanLen(internalPq, y.internalShare, (x: Lookup) => room || x.translated);
      inflightTagCheck := inflightTagCheck + Retimed(internalPq[..l], at);
      internalPq := internalPq[l..];
    }

    method TakeFrom(i: nat, s: Share, room: bool, at: int)
      requires i < |channels|
      modifies this`channels, this`inflightTagCheck
      ensures State() == TakeChannel(old(State()), i, s, room, at)
    {
      hide Allowed, LookupsOf;
      var q := channels[i];
      var w, r, p := Allowed(q.wq, s.wq, room), Allowed(q.rq, s.rq, room), Allowed(q.pq, s.pq, room);
      channels := channels[i := Channel(q.wq[w..], q.rq[r..], q.pq[p..])];
      inflightTagCheck := inflightTagCheck
        + (LookupsOf(q.wq[..w], i, at) + LookupsOf(q.rq[..r], i, at) + LookupsOf(q.pq[..p], i, at));
    }

    /** issue_translation, and the lookups that wait for one move to the stash. */
    method ParkUntranslated(y: Cycle)
      modifies this`inflightTagCheck, this`translationStash
      ensures State() == Park(old(State()), y)
    {
      hide Issue, Select;
      inflightTagCheck := Issue(inflightTagCheck, y.issueTags);
      translationStash := Issue(translationStash, y.issueStash);
      var p := (x: Lookup) => x.ready <= y.now && !x.translated;
      translationStash := translationStash + Select(inflightTagCheck, p, true);
      inflightTagCheck := Select(inflightTagCheck, p, false);
    }

    /** From the fills on. */
    method ContinueCycle(y: Cycle)
      requires Shaped() && VictimsOk(cfg, y.choices)
      modifies this
      ensures returned == Pushed(answers) && old(Sized(cfg, State())) && State() == Continue(cfg, old(State()), y)
    {
      hide Continue, Fills, Initiate, Park, TagChecks, Pushed, Sized, VictimsOk;
      ContinueParts(cfg, State(), y);
      PerformFills(y.now, y.choices);
      InitiateTagChecks(y);
      ParkUntranslated(y);
      CheckTags(y.accepts, y.now, y.warmup);
    }

    /** operate, once the channels have resolved their collisions. */
    method OperateOnce(y: Cycle)
      requires Shaped() && VictimsOk(cfg, y.choices)
      modifies this
      ensures returned == Pushed(answers)
      ensures Sized(cfg, Collect(cfg, old(State()), y)) && State() == Continue(cfg, Collect(cfg, old(State()), y), y)
    {
      CollectSized(cfg, State(), y);
      hide Collect, Continue, Pushed, Sized, VictimsOk;
      CollectReturns(y);
      ContinueCycle(y);
    }
  }

  lemma ContinueParts(cfg: CacheConfig, c: Cache, y: Cycle)
    requires Sized(cfg, c) && VictimsOk(cfg, y.choices)
    ensures var d := Initiate(cfg, Fills(cfg, c, y.now, y.choices), y);
      && d.block == Fills(cfg, c, y.now, y.choices).block && d.answers == Fills(cfg, c, y.now, y.choices).answers
      && Sized(cfg, Park(d, y)) && Continue(cfg, c, y) == TagChecks(cfg, Park(d, y), y.accepts, y.now, y.warmup)
  {
    var d := Fills(cfg, c, y.now, y.choices);
    InitiateFrame(cfg, d, y);
    InitiateAnswers(cfg, d, y);
    hide Fills, Initiate, TagChecks, Issue, Select;
  }

  lemma {:induction false} TakeChannelsAnswers(c: Cache, order: seq<nat>, shares: nat -> Share, room: bool, at: int)
    ensures TakeChannels(c, order, shares, room, at).answers == c.answers
    decreases |order|
  {
    if order != [] {
      hide Allowed, LookupsOf;
      TakeChannelsAnswers(if order[0] < |c.channels| then TakeChannel(c, order[0], shares(order[0]), room, at)
        else c, order[1..], shares, room, at);
    }
  }

  lemma InitiateAnswers(cfg: CacheConfig, c: Cache, y: Cycle)
    ensures Initiate(cfg, c, y).answers == c.answers
  {
    var at := y.now + Latency(y.warmup, cfg.hitLatency);
    TakeChannelsAnswers(TakeStash(c, y.stashShare, at), y.order, y.shares, |c.stash| < cfg.mshrSize, at);
    hide TakeChannels;
  }
}
