/** The queues between caches (src/channel.cc). */
module Channels {
  import opened Sequences
  import opened SortedLists
  import opened Bits
  import opened Responses

  datatype Kind = Load | Rfo | Prefetch | Write | Translation

  /** A request; `wants` says that a response is requested. `tokens` is model-only: the
      accepted requests that want a response and that this one stands for. */
  datatype Request = Request(address: nat, vaddr: nat, translated: bool, wants: bool, checked: bool, kind: Kind,
      deps: seq<nat>, tokens: seq<nat>)

  datatype Channel = Channel(wq: seq<Request>, rq: seq<Request>, pq: seq<Request>)

  datatype Config = Config(wqSize: nat, rqSize: nat, pqSize: nat, offsetBits: nat, matchOffset: bool)
  {
    function WriteShift(): nat { if matchOffset then 0 else offsetBits }
  }

  function Prefix(a: nat, shift: nat): nat { Shr(a, shift) }

  // ---- do_collision_for ----

  /** std::find_if over the first `n` entries: `n` if none has the address. */
  function FindSame(q: seq<Request>, n: nat, shift: nat, a: nat): (k: nat)
    requires n <= |q|
    ensures k <= n
    ensures k < n ==> Prefix(q[k].address, shift) == Prefix(a, shift)
    ensures forall j :: 0 <= j < k ==> Prefix(q[j].address, shift) != Prefix(a, shift)
  {
    if n == 0 then 0
    else
      var k := FindSame(q, n - 1, shift, a);
      if k < n - 1 then k else if Prefix(q[n - 1].address, shift) == Prefix(a, shift) then n - 1 else n
  }

  /** Only the first entry with the address is looked at, and only a request in the same
      address space collides. */
  predicate Collides(q: seq<Request>, n: nat, shift: nat, x: Request)
    requires n <= |q|
  {
    var k := FindSame(q, n, shift, x.address);
    k < n && q[k].translated == x.translated
  }

  function MergeInto(d: Request, s: Request): Request {
    d.(wants := d.wants || s.wants, deps := SetUnion(d.deps, s.deps), tokens := d.tokens + s.tokens)
  }

  function Erase<T>(s: seq<T>, i: nat): (r: seq<T>)
    requires i < |s|
    ensures |r| == |s| - 1
    ensures forall j :: 0 <= j < |r| ==> r[j] == if j < i then s[j] else s[j + 1]
  {
    s[..i] + s[i + 1..]
  }

  /** Merge entry `i` into the earlier entry it collides with. */
  function MergeAt(q: seq<Request>, i: nat, shift: nat): (r: seq<Request>)
    requires i < |q| && Collides(q, i, shift, q[i])
    ensures |r| == |q| - 1
  {
    var k := FindSame(q, i, shift, q[i].address);
    Erase(q[k := MergeInto(q[k], q[i])], i)
  }

  // ---- check_collision ----

  function FirstUnchecked(q: seq<Request>): (i: nat)
    ensures i <= |q|
    ensures forall j :: 0 <= j < i ==> q[j].checked
  {
    if q == [] || !q[0].checked then 0 else 1 + FirstUnchecked(q[1..])
  }

  /** The loop over the write queue. */
  function CheckMerges(q: seq<Request>, i: nat, shift: nat): seq<Request>
    requires i <= |q|
    decreases |q| - i
  {
    if i == |q| then q
    else if Collides(q, i, shift, q[i]) then CheckMerges(MergeAt(q, i, shift), i, shift)
    else CheckMerges(q[i := q[i].(checked := true)], i + 1, shift)
  }

  /** A forwarded write answers a request that wants a response. */
  function Forward(x: Request, channel: nat, answers: seq<Answer>): seq<Answer> {
    if x.wants then answers + [Answer(x.address, x.vaddr, x.deps, [channel], x.tokens)] else answers
  }

  /** The loop over the read or prefetch queue: forward from the write queue, else merge. */
  function CheckForwards(wq: seq<Request>, q: seq<Request>, i: nat, wshift: nat, shift: nat, channel: nat,
      answers: seq<Answer>): (seq<Request>, seq<Answer>)
    requires i <= |q|
    decreases |q| - i
  {
    if i == |q| then (q, answers)
    else if Collides(wq, |wq|, wshift, q[i])
      then CheckForwards(wq, Erase(q, i), i, wshift, shift, channel, Forward(q[i], channel, answers))
    else if Collides(q, i, shift, q[i]) then CheckForwards(wq, MergeAt(q, i, shift), i, wshift, shift, channel, answers)
    else CheckForwards(wq, q[i := q[i].(checked := true)], i + 1, wshift, shift, channel, answers)
  }

  function CheckCollision(cfg: Config, c: Channel, channel: nat, answers: seq<Answer>): (Channel, seq<Answer>) {
    var wq := CheckMerges(c.wq, FirstUnchecked(c.wq), cfg.WriteShift());
    var (rq, a) := CheckForwards(wq, c.rq, FirstUnchecked(c.rq), cfg.WriteShift(), cfg.offsetBits, channel, answers);
    var (pq, b) := CheckForwards(wq, c.pq, FirstUnchecked(c.pq), cfg.WriteShift(), cfg.offsetBits, channel, a);
    (Channel(wq, rq, pq), b)
  }

  // ---- do_add_queue ----

  /** add_rq, add_wq and add_pq: None when the queue is full. */
  function AddTo(q: seq<Request>, size: nat, x: Request): Option<seq<Request>> {
    if |q| >= size then None else Some(q + [x.(checked := false)])
  }

  // ---- tokens ----

  ghost function Tokens(q: seq<Request>): multiset<nat> {
    if q == [] then multiset{} else multiset(q[0].tokens) + Tokens(q[1..])
  }

  lemma {:induction false} TokensAppend(s: seq<Request>, t: seq<Request>)
    ensures Tokens(s + t) == Tokens(s) + Tokens(t)
  {
    if s == [] {
      assert s + t == t;
    } else {
      assert (s + t)[1..] == s[1..] + t;
      TokensAppend(s[1..], t);
    }
  }

  lemma TokensOne(x: Request)
    ensures Tokens([x]) == multiset(x.tokens)
  {
    assert Tokens([x]) == multiset(x.tokens) + Tokens([x][1..]);
  }

  lemma {:induction false} TokensUpdate(q: seq<Request>, i: nat, x: Request)
    requires i < |q|
    ensures Tokens(q[i := x]) + multiset(q[i].tokens) == Tokens(q) + multiset(x.tokens)
  {
    assert q == q[..i] + [q[i]] + q[i + 1..] && q[i := x] == q[..i] + [x] + q[i + 1..];
    TokensAppend(q[..i] + [q[i]], q[i + 1..]);
    TokensAppend(q[..i], [q[i]]);
    TokensAppend(q[..i] + [x], q[i + 1..]);
    TokensAppend(q[..i], [x]);
    TokensOne(q[i]);
    TokensOne(x);
  }

  lemma {:induction false} TokensErase(q: seq<Request>, i: nat)
    requires i < |q|
    ensures Tokens(Erase(q, i)) + multiset(q[i].tokens) == Tokens(q)
  {
    assert q == q[..i] + [q[i]] + q[i + 1..];
    TokensAppend(q[..i] + [q[i]], q[i + 1..]);
    TokensAppend(q[..i], [q[i]]);
    TokensAppend(q[..i], q[i + 1..]);
    TokensOne(q[i]);
  }

  lemma Cancel(a: multiset<nat>, b: multiset<nat>, x: multiset<nat>)
    requires a + x == b + x
    ensures a == b
  {
    forall t: nat ensures a[t] == b[t] { assert (a + x)[t] == (b + x)[t]; }
  }

  /** Merging keeps every token. */
  lemma {:induction false} MergeAtTokens(q: seq<Request>, i: nat, shift: nat)
    requires i < |q| && Collides(q, i, shift, q[i])
    ensures Tokens(MergeAt(q, i, shift)) == Tokens(q)
  {
    var k := FindSame(q, i, shift, q[i].address);
    var m := MergeInto(q[k], q[i]);
    TokensUpdate(q, k, m);
    TokensErase(q[k := m], i);
    var a, b := multiset(q[k].tokens), multiset(q[i].tokens);
    assert multiset(m.tokens) == a + b;
    assert Tokens(q[k := m]) + a == (Tokens(q) + b) + a;
    Cancel(Tokens(q[k := m]), Tokens(q) + b, a);
    Cancel(Tokens(MergeAt(q, i, shift)), Tokens(q), b);
  }

  // ---- what a channel keeps ----

  /** An accepted request that wants a response: model-only, indexed by token. */
  datatype Accepted = Accepted(channel: nat, address: nat, translated: bool, deps: seq<nat>)

  /** A queued request answers for each of its tokens: same channel, same address
      space and block, and at least the same dependent instructions. */
  ghost predicate StandsFor(acc: seq<Accepted>, offsetBits: nat, channel: nat, x: Request, t: nat) {
    && t < |acc| && acc[t].channel == channel && acc[t].translated == x.translated
    && Prefix(acc[t].address, offsetBits) == Prefix(x.address, offsetBits)
    && (forall d :: d in acc[t].deps ==> d in x.deps)
  }

  ghost predicate RequestOk(acc: seq<Accepted>, offsetBits: nat, channel: nat, x: Request) {
    && Sorted(x.deps) && (x.tokens != [] ==> x.wants)
    && forall k :: 0 <= k < |x.tokens| ==> StandsFor(acc, offsetBits, channel, x, x.tokens[k])
  }

  ghost predicate QueueOk(acc: seq<Accepted>, offsetBits: nat, channel: nat, q: seq<Request>) {
    forall i :: 0 <= i < |q| ==> RequestOk(acc, offsetBits, channel, q[i])
  }

  lemma CoarserPrefix(a: nat, b: nat, fine: nat, coarse: nat)
    requires fine <= coarse && Prefix(a, fine) == Prefix(b, fine)
    ensures Prefix(a, coarse) == Prefix(b, coarse)
  {
    ShrAdd(a, fine, coarse - fine);
    ShrAdd(b, fine, coarse - fine);
  }

  lemma {:induction false} MergeIntoOk(acc: seq<Accepted>, offsetBits: nat, channel: nat, d: Request, s: Request)
    requires RequestOk(acc, offsetBits, channel, d) && RequestOk(acc, offsetBits, channel, s)
    requires d.translated == s.translated && Prefix(d.address, offsetBits) == Prefix(s.address, offsetBits)
    ensures RequestOk(acc, offsetBits, channel, MergeInto(d, s))
  {
    var m := MergeInto(d, s);
    UnionMembers(d.deps, s.deps);
    UnionSorted(d.deps, s.deps);
    hide SetUnion, Prefix, Sorted;
    forall k | 0 <= k < |m.tokens| ensures StandsFor(acc, offsetBits, channel, m, m.tokens[k]) {
      if k < |d.tokens| {
        assert StandsFor(acc, offsetBits, channel, d, d.tokens[k]);
      } else {
        assert StandsFor(acc, offsetBits, channel, s, s.tokens[k - |d.tokens|]);
      }
    }
  }

  lemma {:induction false} MergeAtOk(acc: seq<Accepted>, offsetBits: nat, channel: nat, q: seq<Request>, i: nat,
      shift: nat)
    requires QueueOk(acc, offsetBits, channel, q) && i < |q| && shift <= offsetBits && Collides(q, i, shift, q[i])
    ensures QueueOk(acc, offsetBits, channel, MergeAt(q, i, shift))
  {
    var k := FindSame(q, i, shift, q[i].address);
    CoarserPrefix(q[k].address, q[i].address, shift, offsetBits);
    MergeIntoOk(acc, offsetBits, channel, q[k], q[i]);
    hide RequestOk, Prefix, MergeInto;
    var r := MergeAt(q, i, shift);
    forall j | 0 <= j < |r| ensures RequestOk(acc, offsetBits, channel, r[j]) {
      assert RequestOk(acc, offsetBits, channel, q[j]) && RequestOk(acc, offsetBits, channel, q[j + 1]);
    }
  }

  lemma {:induction false} CheckMergesKeeps(acc: seq<Accepted>, offsetBits: nat, channel: nat, q: seq<Request>, i: nat,
      shift: nat)
    requires QueueOk(acc, offsetBits, channel, q) && i <= |q| && shift <= offsetBits
    ensures var r := CheckMerges(q, i, shift); QueueOk(acc, offsetBits, channel, r) && Tokens(r) == Tokens(q)
    decreases |q| - i
  {
    if i < |q| {
      if Collides(q, i, shift, q[i]) {
        MergeAtOk(acc, offsetBits, channel, q, i, shift);
        MergeAtTokens(q, i, shift);
        hide QueueOk, MergeAt, Collides, Tokens;
        CheckMergesKeeps(acc, offsetBits, channel, MergeAt(q, i, shift), i, shift);
      } else {
        FlagOk(acc, offsetBits, channel, q, i);
        hide QueueOk, Collides, Tokens;
        CheckMergesKeeps(acc, offsetBits, channel, q[i := q[i].(checked := true)], i + 1, shift);
      }
    }
  }

  lemma {:induction false} FlagOk(acc: seq<Accepted>, offsetBits: nat, channel: nat, q: seq<Request>, i: nat)
    requires QueueOk(acc, offsetBits, channel, q) && i < |q|
    ensures var r := q[i := q[i].(checked := true)]; QueueOk(acc, offsetBits, channel, r) && Tokens(r) == Tokens(q)
  {
    TokensUpdate(q, i, q[i].(checked := true));
    Cancel(Tokens(q[i := q[i].(checked := true)]), Tokens(q), multiset(q[i].tokens));
    hide Prefix, Tokens;
    assert RequestOk(acc, offsetBits, channel, q[i]);
    forall k | 0 <= k < |q[i].tokens| ensures StandsFor(acc, offsetBits, channel, q[i].(checked := true),
      q[i].tokens[k]) {
      assert StandsFor(acc, offsetBits, channel, q[i], q[i].tokens[k]);
    }
    hide StandsFor;
  }

  // ---- forwarding ----

  /** An answer serves each of its tokens. */
  ghost predicate AnswersFor(acc: seq<Accepted>, offsetBits: nat, address: nat, deps: seq<nat>, ret: seq<nat>, t: nat) {
    && t < |acc| && acc[t].channel in ret
    && (acc[t].translated ==> Prefix(acc[t].address, offsetBits) == Prefix(address, offsetBits))
    && (forall d :: d in acc[t].deps ==> d in deps)
  }

  ghost predicate AnswerOk(acc: seq<Accepted>, offsetBits: nat, a: Answer) {
    && Sorted(a.ret)
    && forall k :: 0 <= k < |a.tokens| ==> AnswersFor(acc, offsetBits, a.address, a.deps, a.ret, a.tokens[k])
  }

  ghost predicate AnswersOk(acc: seq<Accepted>, offsetBits: nat, answers: seq<Answer>) {
    forall i :: 0 <= i < |answers| ==> AnswerOk(acc, offsetBits, answers[i])
  }

  lemma {:induction false} ForwardOk(acc: seq<Accepted>, offsetBits: nat, channel: nat, x: Request,
      answers: seq<Answer>)
    requires RequestOk(acc, offsetBits, channel, x) && AnswersOk(acc, offsetBits, answers)
    ensures var r := Forward(x, channel, answers);
      AnswersOk(acc, offsetBits, r) && Given(r) == Given(answers) + multiset(x.tokens)
  {
    var a := Answer(x.address, x.vaddr, x.deps, [channel], x.tokens);
    hide Prefix;
    forall k | 0 <= k < |a.tokens| ensures AnswersFor(acc, offsetBits, a.address, a.deps, a.ret, a.tokens[k]) {
      assert StandsFor(acc, offsetBits, channel, x, x.tokens[k]);
    }
    hide AnswersFor, StandsFor;
    if x.wants { GivenAppend(answers, a); }
  }

  lemma {:induction false} EraseOk(acc: seq<Accepted>, offsetBits: nat, channel: nat, q: seq<Request>, i: nat)
    requires QueueOk(acc, offsetBits, channel, q) && i < |q|
    ensures QueueOk(acc, offsetBits, channel, Erase(q, i))
  {
    hide RequestOk;
  }

  /** One step of the loop. */
  lemma CheckForwardsStep(wq: seq<Request>, q: seq<Request>, i: nat, wshift: nat, shift: nat, channel: nat,
      answers: seq<Answer>)
    requires i < |q|
    ensures CheckForwards(wq, q, i, wshift, shift, channel, answers) ==
      if Collides(wq, |wq|, wshift, q[i])
        then CheckForwards(wq, Erase(q, i), i, wshift, shift, channel, Forward(q[i], channel, answers))
      else if Collides(q, i, shift, q[i])
        then CheckForwards(wq, MergeAt(q, i, shift), i, wshift, shift, channel, answers)
      else CheckForwards(wq, q[i := q[i].(checked := true)], i + 1, wshift, shift, channel, answers)
  {
    hide Collides, MergeAt, Forward;
  }

  lemma QueueAt(acc: seq<Accepted>, offsetBits: nat, channel: nat, q: seq<Request>, i: nat)
    requires QueueOk(acc, offsetBits, channel, q) && i < |q|
    ensures RequestOk(acc, offsetBits, channel, q[i]) && (q[i].tokens != [] ==> q[i].wants)
  {
    hide StandsFor, Sorted;
  }

  lemma {:induction false} CheckForwardsOk(acc: seq<Accepted>, offsetBits: nat, channel: nat, wq: seq<Request>,
      q: seq<Request>, i: nat,
                                           wshift: nat, shift: nat, answers: seq<Answer>)
    requires QueueOk(acc, offsetBits, channel, q) && AnswersOk(acc, offsetBits, answers) && i <= |q|
    requires shift <= offsetBits
    ensures var (r, a) := CheckForwards(wq, q, i, wshift, shift, channel, answers);
      QueueOk(acc, offsetBits, channel, r) && AnswersOk(acc, offsetBits, a)
    decreases |q| - i
  {
    hide *;
    if i == |q| {
      NothingToCheck(wq, q, wshift, shift, channel, answers);
    } else {
      QueueAt(acc, offsetBits, channel, q, i);
      if Collides(wq, |wq|, wshift, q[i]) {
        EraseOk(acc, offsetBits, channel, q, i);
        ForwardOk(acc, offsetBits, channel, q[i], answers);
        CheckForwardsStep(wq, q, i, wshift, shift, channel, answers);
        CheckForwardsOk(acc, offsetBits, channel, wq, Erase(q, i), i, wshift, shift, Forward(q[i], channel, answers));
      } else if Collides(q, i, shift, q[i]) {
        MergeAtOk(acc, offsetBits, channel, q, i, shift);
        CheckForwardsStep(wq, q, i, wshift, shift, channel, answers);
        CheckForwardsOk(acc, offsetBits, channel, wq, MergeAt(q, i, shift), i, wshift, shift, answers);
      } else {
        FlagOk(acc, offsetBits, channel, q, i);
        CheckForwardsStep(wq, q, i, wshift, shift, channel, answers);
        CheckForwardsOk(acc, offsetBits, channel, wq, q[i := q[i].(checked := true)], i + 1, wshift, shift, answers);
      }
    }
  }

  lemma {:induction false} ForwardTokens(x: Request, channel: nat, answers: seq<Answer>, t: nat)
    requires x.tokens != [] ==> x.wants
    ensures Given(Forward(x, channel, answers))[t] == Given(answers)[t] + multiset(x.tokens)[t]
  {
    if x.wants { GivenAppend(answers, Answer(x.address, x.vaddr, x.deps, [channel], x.tokens)); }
    hide Given;
  }

  lemma {:induction false} EraseTokens(q: seq<Request>, i: nat, t: nat)
    requires i < |q|
    ensures Tokens(Erase(q, i))[t] + multiset(q[i].tokens)[t] == Tokens(q)[t]
  {
    TokensErase(q, i);
    assert Tokens(q)[t] == (Tokens(Erase(q, i)) + multiset(q[i].tokens))[t];
  }

  lemma {:induction false} CheckForwardsTokens(acc: seq<Accepted>, offsetBits: nat, channel: nat, wq: seq<Request>,
      q: seq<Request>, i: nat,
                                               wshift: nat, shift: nat, answers: seq<Answer>, t: nat)
    requires QueueOk(acc, offsetBits, channel, q) && AnswersOk(acc, offsetBits, answers) && i <= |q|
    requires shift <= offsetBits
    ensures var (r, a) := CheckForwards(wq, q, i, wshift, shift, channel, answers);
      Tokens(r)[t] + Given(a)[t] == Tokens(q)[t] + Given(answers)[t]
    decreases |q| - i
  {
    hide *;
    if i == |q| {
      NothingToCheck(wq, q, wshift, shift, channel, answers);
    } else {
      QueueAt(acc, offsetBits, channel, q, i);
      if Collides(wq, |wq|, wshift, q[i]) {
        EraseOk(acc, offsetBits, channel, q, i);
        EraseTokens(q, i, t);
        ForwardOk(acc, offsetBits, channel, q[i], answers);
        ForwardTokens(q[i], channel, answers, t);
        CheckForwardsStep(wq, q, i, wshift, shift, channel, answers);
        CheckForwardsTokens(acc, offsetBits, channel, wq, Erase(q, i), i, wshift, shift,
          Forward(q[i], channel, answers), t);
      } else if Collides(q, i, shift, q[i]) {
        MergeAtOk(acc, offsetBits, channel, q, i, shift);
        MergeAtTokens(q, i, shift);
        CheckForwardsStep(wq, q, i, wshift, shift, channel, answers);
        CheckForwardsTokens(acc, offsetBits, channel, wq, MergeAt(q, i, shift), i, wshift, shift, answers, t);
      } else {
        FlagOk(acc, offsetBits, channel, q, i);
        CheckForwardsStep(wq, q, i, wshift, shift, channel, answers);
        CheckForwardsTokens(acc, offsetBits, channel, wq, q[i := q[i].(checked := true)], i
          + 1, wshift, shift, answers, t);
      }
    }
  }

  ghost predicate ChannelOk(acc: seq<Accepted>, offsetBits: nat, channel: nat, c: Channel) {
    QueueOk(acc, offsetBits, channel, c.wq) && QueueOk(acc, offsetBits, channel, c.rq)
      && QueueOk(acc, offsetBits, channel, c.pq)
  }

  ghost function ChannelTokens(c: Channel): multiset<nat> {
    Tokens(c.wq) + Tokens(c.rq) + Tokens(c.pq)
  }

  /** Resolving collisions loses no request and answers none twice: each token stays in its
      channel or moves into an answer. */
  lemma {:induction false} CheckCollisionKeeps(cfg: Config, acc: seq<Accepted>, channel: nat, c: Channel,
      answers: seq<Answer>)
    requires ChannelOk(acc, cfg.offsetBits, channel, c) && AnswersOk(acc, cfg.offsetBits, answers)
    ensures var (d, a) := CheckCollision(cfg, c, channel, answers);
      ChannelOk(acc, cfg.offsetBits, channel, d) && AnswersOk(acc, cfg.offsetBits, a)
    ensures var (d, a) := CheckCollision(cfg, c, channel, answers);
      forall t: nat :: ChannelTokens(d)[t] + Given(a)[t] == ChannelTokens(c)[t] + Given(answers)[t]
  {
    hide QueueOk, AnswersOk, CheckMerges, CheckForwards, Tokens, Given, FirstUnchecked;
    var wq := CheckMerges(c.wq, FirstUnchecked(c.wq), cfg.WriteShift());
    CheckMergesKeeps(acc, cfg.offsetBits, channel, c.wq, FirstUnchecked(c.wq), cfg.WriteShift());
    CheckForwardsOk(acc, cfg.offsetBits, channel, wq, c.rq, FirstUnchecked(c.rq), cfg.WriteShift(), cfg.offsetBits,
      answers);
    var (rq, a) := CheckForwards(wq, c.rq, FirstUnchecked(c.rq), cfg.WriteShift(), cfg.offsetBits, channel, answers);
    CheckForwardsOk(acc, cfg.offsetBits, channel, wq, c.pq, FirstUnchecked(c.pq), cfg.WriteShift(), cfg.offsetBits, a);
    var (pq, b) := CheckForwards(wq, c.pq, FirstUnchecked(c.pq), cfg.WriteShift(), cfg.offsetBits, channel, a);
    var d := Channel(wq, rq, pq);
    assert (d, b) == CheckCollision(cfg, c, channel, answers);
    hide CheckCollision;
    forall t: nat ensures ChannelTokens(d)[t] + Given(b)[t] == ChannelTokens(c)[t] + Given(answers)[t] {
      CheckForwardsTokens(acc, cfg.offsetBits, channel, wq, c.rq, FirstUnchecked(c.rq), cfg.WriteShift(),
        cfg.offsetBits, answers, t);
      CheckForwardsTokens(acc, cfg.offsetBits, channel, wq, c.pq, FirstUnchecked(c.pq), cfg.WriteShift(),
        cfg.offsetBits, a, t);
    }
  }

  // ---- one request per block ----

  /** No two of the first `n` requests share an address prefix. */
  ghost predicate Distinct(q: seq<Request>, n: nat, shift: nat) {
    forall i, j :: 0 <= i < j < n && j < |q| ==> Prefix(q[i].address, shift) != Prefix(q[j].address, shift)
  }

  /** Entry `a` is still in the queue after the loop from `i` on, or merged into another. */
  ghost predicate Stays(wq: seq<Request>, wshift: nat, q: seq<Request>, i: nat, a: nat)
    requires a < |q|
  {
    a < i || !Collides(wq, |wq|, wshift, q[a])
  }

  /** Of the requests that no write answers, those for one block are in one address space. */
  ghost predicate Agree(wq: seq<Request>, wshift: nat, q: seq<Request>, i: nat, shift: nat) {
    forall a, b ::
      0 <= a < b < |q| && Stays(wq, wshift, q, i, a) && Stays(wq, wshift, q, i, b)
      && Prefix(q[a].address, shift) == Prefix(q[b].address, shift) ==>
        q[a].translated == q[b].translated
  }

  /** The loop over the read or prefetch queue leaves one request for each block if and only if
      those it found already checked were one for each block, and no two requests that no write
      answers are for one block in different address spaces: only the first match is looked at. */
  lemma {:induction false} ForwardsDistinctExactly(wq: seq<Request>, q: seq<Request>, i: nat, wshift: nat, shift: nat,
      channel: nat, answers: seq<Answer>)
    requires i <= |q|
    ensures var r := CheckForwards(wq, q, i, wshift, shift, channel, answers).0;
      Distinct(r, |r|, shift) <==> Distinct(q, i, shift) && Agree(wq, wshift, q, i, shift)
    decreases |q| - i
  {
    hide CheckForwards, Collides, FindSame, MergeAt, Forward, Distinct, Agree, Erase;
    if i == |q| {
      NothingToCheck(wq, q, wshift, shift, channel, answers);
    } else {
      CheckForwardsStep(wq, q, i, wshift, shift, channel, answers);
      if Collides(wq, |wq|, wshift, q[i]) {
        ForwardAgrees(wq, wshift, q, i, shift);
        ForwardsDistinctExactly(wq, Erase(q, i), i, wshift, shift, channel, Forward(q[i], channel, answers));
      } else if Collides(q, i, shift, q[i]) {
        MergeAgrees(wq, wshift, q, i, shift);
        ForwardsDistinctExactly(wq, MergeAt(q, i, shift), i, wshift, shift, channel, answers);
      } else {
        KeepAgrees(wq, wshift, q, i, shift);
        ForwardsDistinctExactly(wq, q[i := q[i].(checked := true)], i + 1, wshift, shift, channel, answers);
      }
    }
  }

  lemma NothingToCheck(wq: seq<Request>, q: seq<Request>, wshift: nat, shift: nat, channel: nat, answers: seq<Answer>)
    ensures CheckForwards(wq, q, |q|, wshift, shift, channel, answers) == (q, answers)
    ensures Distinct(q, |q|, shift) ==> Agree(wq, wshift, q, |q|, shift)
  {
  }

  /** `r` is `q` without entry `i`, as far as addresses and spaces go. */
  ghost predicate Without(q: seq<Request>, r: seq<Request>, i: nat) {
    |r| + 1 == |q| && i < |q| && forall j :: 0 <= j < |r| ==>
      var k := if j < i then j else j + 1;
      r[j].address == q[k].address && r[j].translated == q[k].translated
  }

  lemma CollidesView(q: seq<Request>, n: nat, shift: nat, x: Request, y: Request)
    requires n <= |q| && x.address == y.address && x.translated == y.translated
    ensures Collides(q, n, shift, x) == Collides(q, n, shift, y)
  {
  }

  /** An entry that stays, seen from `q` and from `r`. */
  lemma StaysWithout(wq: seq<Request>, wshift: nat, q: seq<Request>, r: seq<Request>, i: nat, j: nat)
    requires Without(q, r, i) && j < |r|
    ensures Stays(wq, wshift, r, i, j) == Stays(wq, wshift, q, i, if j < i then j else j + 1)
  {
    hide Collides;
    CollidesView(wq, |wq|, wshift, r[j], q[if j < i then j else j + 1]);
  }

  /** Leaving out an entry that a write answers, or that agrees with an earlier one of its
      block, changes nothing. */
  lemma {:induction false} WithoutAgrees(wq: seq<Request>, wshift: nat, q: seq<Request>, r: seq<Request>, i: nat,
      shift: nat, k: nat)
    requires Without(q, r, i)
    requires Stays(wq, wshift, q, i, i) ==>
               k < i && Prefix(q[k].address, shift) == Prefix(q[i].address, shift) && q[k].translated == q[i].translated
    ensures Agree(wq, wshift, r, i, shift) <==> Agree(wq, wshift, q, i, shift)
    ensures Distinct(r, i, shift) <==> Distinct(q, i, shift)
  {
    hide Prefix, Collides;
    SameHead(q, r, i, shift);
    SameHead(r, q, i, shift);
    if Agree(wq, wshift, q, i, shift) {
      forall a, b | 0 <= a < b < |r| && Stays(wq, wshift, r, i, a) && Stays(wq, wshift, r, i, b)
        && Prefix(r[a].address, shift) == Prefix(r[b].address, shift)
        ensures r[a].translated == r[b].translated
      {
        StaysWithout(wq, wshift, q, r, i, a);
        StaysWithout(wq, wshift, q, r, i, b);
      }
    }
    if Agree(wq, wshift, r, i, shift) {
      forall a, b | 0 <= a < b < |q| && Stays(wq, wshift, q, i, a) && Stays(wq, wshift, q, i, b)
        && Prefix(q[a].address, shift) == Prefix(q[b].address, shift)
        ensures q[a].translated == q[b].translated
      {
        PairWithout(wq, wshift, q, r, i, shift, if a == i then k else a, if b == i then k else b);
      }
    }
  }

  lemma SameHead(q: seq<Request>, r: seq<Request>, n: nat, shift: nat)
    requires n <= |q| && n <= |r| && forall j :: 0 <= j < n ==> q[j].address == r[j].address
    ensures Distinct(q, n, shift) ==> Distinct(r, n, shift)
  {
    hide Prefix;
    if Distinct(q, n, shift) {
      forall a, b | 0 <= a < b < n && b < |r| ensures Prefix(r[a].address, shift) != Prefix(r[b].address, shift) {
        assert q[a].address == r[a].address && q[b].address == r[b].address;
      }
    }
  }

  lemma PairWithout(wq: seq<Request>, wshift: nat, q: seq<Request>, r: seq<Request>, i: nat, shift: nat, a: nat, b: nat)
    requires Without(q, r, i) && Agree(wq, wshift, r, i, shift)
    requires a < |q| && b < |q| && a != i && b != i && Stays(wq, wshift, q, i, a) && Stays(wq, wshift, q, i, b)
    requires Prefix(q[a].address, shift) == Prefix(q[b].address, shift)
    ensures q[a].translated == q[b].translated
  {
    hide Prefix, Collides;
    var c, d := if a < i then a else a - 1, if b < i then b else b - 1;
    StaysWithout(wq, wshift, q, r, i, c);
    StaysWithout(wq, wshift, q, r, i, d);
    assert r[c].translated == r[d].translated by {
      if c < d { assert Stays(wq, wshift, r, i, c); } else if d < c { assert Stays(wq, wshift, r, i, d); }
    }
  }

  lemma ForwardAgrees(wq: seq<Request>, wshift: nat, q: seq<Request>, i: nat, shift: nat)
    requires i < |q| && Collides(wq, |wq|, wshift, q[i])
    ensures Agree(wq, wshift, Erase(q, i), i, shift) <==> Agree(wq, wshift, q, i, shift)
    ensures Distinct(Erase(q, i), i, shift) <==> Distinct(q, i, shift)
  {
    hide Agree, Distinct, Collides;
    WithoutAgrees(wq, wshift, q, Erase(q, i), i, shift, 0);
  }

  lemma MergeAgrees(wq: seq<Request>, wshift: nat, q: seq<Request>, i: nat, shift: nat)
    requires i < |q| && Collides(q, i, shift, q[i])
    ensures var r := MergeAt(q, i, shift);
      && (Agree(wq, wshift, r, i, shift) <==> Agree(wq, wshift, q, i, shift))
      && (Distinct(r, i, shift) <==> Distinct(q, i, shift))
  {
    hide Agree, Distinct, MergeInto, Stays;
    var k := FindSame(q, i, shift, q[i].address);
    MergeFields(q[k], q[i]);
    WithoutAgrees(wq, wshift, q, MergeAt(q, i, shift), i, shift, k);
  }

  /** An entry kept because the first match is in the other space is a duplicate for good. */
  lemma KeepAgrees(wq: seq<Request>, wshift: nat, q: seq<Request>, i: nat, shift: nat)
    requires i < |q| && !Collides(wq, |wq|, wshift, q[i]) && !Collides(q, i, shift, q[i])
    ensures var r := q[i := q[i].(checked := true)];
      Distinct(r, i + 1, shift) && Agree(wq, wshift, r, i + 1, shift) <==>
        Distinct(q, i, shift) && Agree(wq, wshift, q, i, shift)
  {
    hide Prefix, FindSame;
    var r := q[i := q[i].(checked := true)];
    var k := FindSame(q, i, shift, q[i].address);
    if k < i {
      assert Stays(wq, wshift, q, i, k) && Stays(wq, wshift, q, i, i);
      assert Prefix(r[k].address, shift) == Prefix(r[i].address, shift);
    } else {
      forall a | 0 <= a < |q| ensures Stays(wq, wshift, r, i + 1, a) == Stays(wq, wshift, q, i, a) { }
      SameHead(q, r, i, shift);
      SameHead(r, q, i, shift);
      assert Distinct(r, i + 1, shift) <==> Distinct(r, i, shift);
      hide Stays;
      assert Agree(wq, wshift, r, i + 1, shift) <==> Agree(wq, wshift, q, i, shift);
    }
  }

  lemma MergeFields(d: Request, s: Request)
    ensures MergeInto(d, s).address == d.address && MergeInto(d, s).translated == d.translated
  {
  }

  /** The loop over the write queue is that loop with nothing to forward from. */
  lemma {:induction false} MergesAreForwards(q: seq<Request>, i: nat, shift: nat)
    requires i <= |q|
    ensures CheckMerges(q, i, shift) == CheckForwards([], q, i, 0, shift, 0, []).0
    decreases |q| - i
  {
    hide MergeAt;
    if i < |q| {
      if Collides(q, i, shift, q[i]) {
        MergesAreForwards(MergeAt(q, i, shift), i, shift);
      } else {
        MergesAreForwards(q[i := q[i].(checked := true)], i + 1, shift);
      }
    }
  }

  /** Requests for one block are in one address space. */
  ghost predicate OneSpaceEach(q: seq<Request>, shift: nat) {
    forall a, b :: 0 <= a < b < |q| && Prefix(q[a].address, shift) == Prefix(q[b].address, shift) ==>
      q[a].translated == q[b].translated
  }

  /** The loop over the write queue leaves one request for each block if and only if those it
      found already checked were one for each block, and requests for one block are all in
      one address space. */
  lemma {:induction false} CheckMergesDistinct(q: seq<Request>, i: nat, shift: nat)
    requires i <= |q|
    ensures var r := CheckMerges(q, i, shift);
      Distinct(r, |r|, shift) <==> Distinct(q, i, shift) && OneSpaceEach(q, shift)
  {
    hide CheckMerges, CheckForwards, Prefix, Distinct;
    MergesAreForwards(q, i, shift);
    ForwardsDistinctExactly([], q, i, 0, shift, 0, []);
    forall a | 0 <= a < |q| ensures Stays([], 0, q, i, a) { }
  }

  /** A mixed write queue that keeps two writes to one block. */
  lemma MixedSpacesKeepDuplicates()
    ensures var x := Request(0, 0, true, false, false, Write, [], []);
      var q := [x, x.(translated := false), x.(translated := false)];
      var r := CheckMerges(q, 0, 6);
      !Distinct(r, |r|, 6)
  {
    hide CheckMerges, Distinct;
    var x := Request(0, 0, true, false, false, Write, [], []);
    var q := [x, x.(translated := false), x.(translated := false)];
    CheckMergesDistinct(q, 0, 6);
    assert Prefix(q[0].address, 6) == Prefix(q[1].address, 6) && q[0].translated != q[1].translated;
  }

  /** The address space of the first entry for a block: what decides a collision. */
  ghost function FirstSpace(q: seq<Request>, shift: nat, a: nat): Option<bool> {
    var k := FindSame(q, |q|, shift, a);
    if k < |q| then Some(q[k].translated) else None
  }

  lemma FindsFirst(q: seq<Request>, shift: nat, a: nat, k: nat)
    requires k < |q| && Prefix(q[k].address, shift) == Prefix(a, shift)
    requires forall j :: 0 <= j < k ==> Prefix(q[j].address, shift) != Prefix(a, shift)
    ensures FindSame(q, |q|, shift, a) == k
  {
    hide Prefix;
  }

  /** Leaving out an entry that follows one of its block changes no first entry. */
  lemma {:induction false} FirstWithout(q: seq<Request>, r: seq<Request>, i: nat, k: nat, shift: nat, a: nat)
    requires Without(q, r, i) && k < i && Prefix(q[k].address, shift) == Prefix(q[i].address, shift)
    ensures FirstSpace(r, shift, a) == FirstSpace(q, shift, a)
  {
    hide Prefix, FindSame;
    var m := FindSame(q, |q|, shift, a);
    forall j | 0 <= j < |r|
      ensures r[j].address == q[if j < i then j else j + 1].address
      ensures r[j].translated == q[if j < i then j else j + 1].translated
    {
    }
    if m < |q| {
      assert m != i;
      FindsFirst(r, shift, a, if m < i then m else m - 1);
    }
  }

  lemma {:induction false} MergesKeepFirst(q: seq<Request>, i: nat, shift: nat, a: nat)
    requires i <= |q|
    ensures FirstSpace(CheckMerges(q, i, shift), shift, a) == FirstSpace(q, shift, a)
    decreases |q| - i
  {
    hide FirstSpace, MergeAt, Collides;
    if i < |q| {
      if Collides(q, i, shift, q[i]) {
        MergeKeepsFirst(q, i, shift, a);
        MergesKeepFirst(MergeAt(q, i, shift), i, shift, a);
      } else {
        FlagKeepsFirst(q, i, shift, a);
        MergesKeepFirst(q[i := q[i].(checked := true)], i + 1, shift, a);
      }
    }
  }

  lemma MergeKeepsFirst(q: seq<Request>, i: nat, shift: nat, a: nat)
    requires i < |q| && Collides(q, i, shift, q[i])
    ensures FirstSpace(MergeAt(q, i, shift), shift, a) == FirstSpace(q, shift, a)
  {
    hide FirstSpace, MergeInto, Prefix;
    var k := FindSame(q, i, shift, q[i].address);
    MergeFields(q[k], q[i]);
    FirstWithout(q, MergeAt(q, i, shift), i, k, shift, a);
  }

  lemma FlagKeepsFirst(q: seq<Request>, i: nat, shift: nat, a: nat)
    requires i < |q|
    ensures FirstSpace(q[i := q[i].(checked := true)], shift, a) == FirstSpace(q, shift, a)
  {
    hide Prefix, FindSame;
    var k := FindSame(q, |q|, shift, a);
    if k < |q| { FindsFirst(q[i := q[i].(checked := true)], shift, a, k); }
  }

  /** What the merged write queue answers is what the queue before merging would. */
  lemma MergedAgree(wq: seq<Request>, i: nat, wshift: nat, q: seq<Request>, j: nat, shift: nat)
    requires i <= |wq|
    ensures Agree(CheckMerges(wq, i, wshift), wshift, q, j, shift) <==> Agree(wq, wshift, q, j, shift)
  {
    hide Prefix, FindSame, CheckMerges;
    var r := CheckMerges(wq, i, wshift);
    forall a | 0 <= a < |q| ensures Stays(r, wshift, q, j, a) == Stays(wq, wshift, q, j, a) {
      MergesKeepFirst(wq, i, wshift, q[a].address);
    }
    hide Stays;
  }

  /** Checking a channel leaves one request for each block in each queue if and only if the
      entries checked before were, and those that no write answers agree about their space. */
  lemma {:induction false} CheckCollisionDistinct(cfg: Config, c: Channel, channel: nat, answers: seq<Answer>)
    ensures var d := CheckCollision(cfg, c, channel, answers).0;
      var w, o := cfg.WriteShift(), cfg.offsetBits;
      var i, j, k := FirstUnchecked(c.wq), FirstUnchecked(c.rq), FirstUnchecked(c.pq);
      && (Distinct(d.wq, |d.wq|, w) <==> Distinct(c.wq, i, w) && OneSpaceEach(c.wq, w))
      && (Distinct(d.rq, |d.rq|, o) <==> Distinct(c.rq, j, o) && Agree(c.wq, w, c.rq, j, o))
      && (Distinct(d.pq, |d.pq|, o) <==> Distinct(c.pq, k, o) && Agree(c.wq, w, c.pq, k, o))
  {
    hide CheckMerges, CheckForwards, Distinct, Agree, OneSpaceEach, FirstUnchecked;
    var w, o := cfg.WriteShift(), cfg.offsetBits;
    var i := FirstUnchecked(c.wq);
    CheckMergesDistinct(c.wq, i, w);
    MergedAgree(c.wq, i, w, c.rq, FirstUnchecked(c.rq), o);
    MergedAgree(c.wq, i, w, c.pq, FirstUnchecked(c.pq), o);
    var wq := CheckMerges(c.wq, i, w);
    ForwardsDistinctExactly(wq, c.rq, FirstUnchecked(c.rq), w, o, channel, answers);
    var a := CheckForwards(wq, c.rq, FirstUnchecked(c.rq), w, o, channel, answers).1;
    ForwardsDistinctExactly(wq, c.pq, FirstUnchecked(c.pq), w, o, channel, a);
  }
}
