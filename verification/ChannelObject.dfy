/** A channel as the object two caches share and update in place (src/channel.cc). */
module ChannelObjects {
  import opened Sequences
  import opened SortedLists
  import opened Responses
  import opened Channels

  /** The loop of std::find_if over the first `n` entries, and the check of the address space. */
  method DoCollisionFor(q: seq<Request>, n: nat, shift: nat, x: Request) returns (hit: bool, k: nat)
    requires n <= |q|
    ensures hit == Collides(q, n, shift, x)
    ensures hit ==> k == FindSame(q, n, shift, x.address) < n
  {
    k := 0;
    while k < n && Prefix(q[k].address, shift) != Prefix(x.address, shift)
      invariant k <= n && forall j :: 0 <= j < k ==> Prefix(q[j].address, shift) != Prefix(x.address, shift)
    {
      k := k + 1;
    }
    hit := k < n && q[k].translated == x.translated;
  }

  class ChannelQueues {
    const cfg: Config
    const id: nat
    var wq: seq<Request>
    var rq: seq<Request>
    var pq: seq<Request>
    var returned: seq<Response>
    ghost var answers: seq<Answer>

    ghost function State(): Channel
      reads this
    {
      Channel(wq, rq, pq)
    }

    /** The return queue is what the answers push. */
    ghost predicate Valid()
      reads this
    {
      returned == Pushed(answers)
    }

    constructor (cfg: Config, id: nat)
      ensures Valid() && this.cfg == cfg && this.id == id && State() == Channel([], [], []) && answers == []
    {
      this.cfg, this.id := cfg, id;
      wq, rq, pq, returned, answers := [], [], [], [], [];
    }

    /** do_collision_for_return's action. */
    method ForwardTo(x: Request)
      requires Valid()
      modifies this`returned, this`answers
      ensures Valid() && answers == Forward(x, id, old(answers))
    {
      if x.wants {
        var a := Answer(x.address, x.vaddr, x.deps, [id], x.tokens);
        PushedAppend(answers, a);
        returned := Push(returned, a);
        answers := answers + [a];
      }
    }

    method FindUnchecked(q: seq<Request>) returns (i: nat)
      ensures i == FirstUnchecked(q)
    {
      i := 0;
      assert q[0..] == q;
      while i < |q| && q[i].checked
        invariant i <= |q| && i + FirstUnchecked(q[i..]) == FirstUnchecked(q)
      {
        assert q[i..][0] == q[i] && q[i..][1..] == q[i + 1..];
        i := i + 1;
      }
    }

    /** The loop over the write queue: merge or mark. */
    method CheckWrites()
      modifies this`wq
      ensures wq == CheckMerges(old(wq), FirstUnchecked(old(wq)), cfg.WriteShift())
    {
      var i: nat := FindUnchecked(wq);
      var shift := cfg.WriteShift();
      ghost var q, first := wq, i;
      while i < |wq|
        invariant i <= |wq| && CheckMerges(wq, i, shift) == CheckMerges(q, first, shift)
        decreases |wq| - i
      {
        var hit, k := DoCollisionFor(wq, i, shift, wq[i]);
        if hit {
          wq := Erase(wq[k := MergeInto(wq[k], wq[i])], i);
        } else {
          wq := wq[i := wq[i].(checked := true)];
          i := i + 1;
        }
      }
    }

    /** The loop over the read or the prefetch queue: forward, merge or mark. */
    method CheckLookups(all: seq<Request>) returns (q: seq<Request>)
      requires Valid()
      modifies this`returned, this`answers
      ensures Valid()
      ensures (q, answers) == CheckForwards(wq, all, FirstUnchecked(all), cfg.WriteShift(), cfg.offsetBits, id,
        old(answers))
    {
      q := all;
      var i: nat := FindUnchecked(q);
      ghost var first := i;
      while i < |q|
        invariant Valid() && i <= |q|
        invariant CheckForwards(wq, q, i, cfg.WriteShift(), cfg.offsetBits, id, answers)
               == CheckForwards(wq, all, first, cfg.WriteShift(), cfg.offsetBits, id, old(answers))
        decreases |q| - i
      {
        var forwarded, _ := DoCollisionFor(wq, |wq|, cfg.WriteShift(), q[i]);
        if forwarded {
          ForwardTo(q[i]);
          q := Erase(q, i);
        } else {
          var hit, k := DoCollisionFor(q, i, cfg.offsetBits, q[i]);
          if hit {
            q := Erase(q[k := MergeInto(q[k], q[i])], i);
          } else {
            q := q[i := q[i].(checked := true)];
            i := i + 1;
          }
        }
      }
    }

    method ResolveCollisions()
      requires Valid()
      modifies this
      ensures Valid()
      ensures (State(), answers) == CheckCollision(cfg, old(State()), id, old(answers))
    {
      CheckWrites();
      var lookups := CheckLookups(rq);
      rq := lookups;
      var prefetches := CheckLookups(pq);
      pq := prefetches;
    }

    /** Resolving collisions loses no request that wants a response and answers none twice. */
    method CheckCollisions(ghost acc: seq<Accepted>)
      requires Valid() && ChannelOk(acc, cfg.offsetBits, id, State()) && AnswersOk(acc, cfg.offsetBits, answers)
      modifies this
      ensures Valid() && ChannelOk(acc, cfg.offsetBits, id, State()) && AnswersOk(acc, cfg.offsetBits, answers)
      ensures forall t: nat ::
        ChannelTokens(State())[t] + Given(answers)[t] == old(ChannelTokens(State())[t] + Given(answers)[t])
    {
      CheckCollisionKeeps(cfg, acc, id, State(), answers);
      hide ChannelOk, AnswersOk, ChannelTokens, Given, CheckCollision;
      ResolveCollisions();
    }

    /** do_add_queue for each queue: a full queue refuses. */
    method AddRq(x: Request) returns (ok: bool)
      modifies this`rq
      ensures ok == (|old(rq)| < cfg.rqSize) && AddTo(old(rq), cfg.rqSize, x) == if ok then Some(rq) else None
      ensures !ok ==> rq == old(rq)
    {
      ok := |rq| < cfg.rqSize;
      if ok { rq := rq + [x.(checked := false)]; }
    }

    method AddWq(x: Request) returns (ok: bool)
      modifies this`wq
      ensures ok == (|old(wq)| < cfg.wqSize) && AddTo(old(wq), cfg.wqSize, x) == if ok then Some(wq) else None
      ensures !ok ==> wq == old(wq)
    {
      ok := |wq| < cfg.wqSize;
      if ok { wq := wq + [x.(checked := false)]; }
    }

    method AddPq(x: Request) returns (ok: bool)
      modifies this`pq
      ensures ok == (|old(pq)| < cfg.pqSize) && AddTo(old(pq), cfg.pqSize, x) == if ok then Some(pq) else None
      ensures !ok ==> pq == old(pq)
    {
      ok := |pq| < cfg.pqSize;
      if ok { pq := pq + [x.(checked := false)]; }
    }
  }
}
