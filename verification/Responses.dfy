/** Responses: what is pushed to return queues, and how often a token reaches its queue. */
module Responses {
  import opened Sequences
  import opened SortedLists

  /** One completion: a response with these instructions goes to every queue in `ret`.
      `tokens` is model-only: the accepted requests it answers. */
  datatype Answer = Answer(address: nat, vaddr: nat, deps: seq<nat>, ret: seq<nat>, tokens: seq<nat>)

  /** What is pushed to a return queue. */
  datatype Response = Response(queue: nat, address: nat, vaddr: nat, deps: seq<nat>, tokens: seq<nat>)

  function Respond(a: Answer, k: nat): (r: seq<Response>)
    requires k <= |a.ret|
    decreases |a.ret| - k
  {
    if k == |a.ret| then [] else [Response(a.ret[k], a.address, a.vaddr, a.deps, a.tokens)] + Respond(a, k + 1)
  }

  /** All responses, in the order they are pushed. */
  function Pushed(answers: seq<Answer>): seq<Response> {
    if answers == [] then [] else Pushed(answers[..|answers| - 1]) + Respond(answers[|answers| - 1], 0)
  }

  ghost predicate Reaches(r: Response, queue: nat, t: nat) { r.queue == queue && t in r.tokens }

  ghost function Reaching(rs: seq<Response>, queue: nat, t: nat): nat {
    CountIf(rs, (r: Response) => Reaches(r, queue, t))
  }

  lemma {:induction false} RespondReaches(a: Answer, k: nat, queue: nat, t: nat)
    requires k <= |a.ret| && Sorted(a.ret)
    ensures Reaching(Respond(a, k), queue, t) == if t in a.tokens && queue in a.ret[k..] then 1 else 0
    decreases |a.ret| - k
  {
    if k < |a.ret| {
      RespondReaches(a, k + 1, queue, t);
      assert a.ret[k..] == [a.ret[k]] + a.ret[k + 1..];
      assert a.ret[k] !in a.ret[k + 1..];
      var r := Respond(a, k);
      assert r[1..] == Respond(a, k + 1);
    }
  }

  /** The tokens answered so far. */
  ghost function Given(answers: seq<Answer>): multiset<nat> {
    if answers == [] then multiset{} else Given(answers[..|answers| - 1]) + multiset(answers[|answers| - 1].tokens)
  }

  lemma GivenAppend(answers: seq<Answer>, a: Answer)
    ensures Given(answers + [a]) == Given(answers) + multiset(a.tokens)
  {
    assert (answers + [a])[..|answers|] == answers;
  }

  /** The answer's return queues are sorted, and include this one if it answers the token. */
  ghost predicate Delivers(a: Answer, queue: nat, t: nat) {
    Sorted(a.ret) && (t in a.tokens ==> queue in a.ret)
  }

  /** A token answered at most once reaches its queue exactly as often. */
  lemma {:induction false} PushedReaches(answers: seq<Answer>, queue: nat, t: nat)
    requires Given(answers)[t] <= 1
    requires forall i :: 0 <= i < |answers| ==> Delivers(answers[i], queue, t)
    ensures Reaching(Pushed(answers), queue, t) == Given(answers)[t]
  {
    if answers != [] {
      var n := |answers| - 1;
      var a := answers[n];
      PushedReaches(answers[..n], queue, t);
      CountIfAppend(Pushed(answers[..n]), Respond(a, 0), (r: Response) => Reaches(r, queue, t));
      assert a.ret[0..] == a.ret;
      RespondReaches(a, 0, queue, t);
      assert t in multiset(a.tokens) <==> t in a.tokens;
      assert Delivers(a, queue, t);
      hide Pushed, Respond, Delivers;
      assert multiset(a.tokens)[t] <= 1;
    }
  }

  /** The loop that pushes one response to each return queue. */
  method Push(returned: seq<Response>, a: Answer) returns (r: seq<Response>)
    ensures r == returned + Respond(a, 0)
  {
    r := returned;
    for k := 0 to |a.ret|
      invariant r + Respond(a, k) == returned + Respond(a, 0)
    {
      var x := Response(a.ret[k], a.address, a.vaddr, a.deps, a.tokens);
      assert r + ([x] + Respond(a, k + 1)) == (r + [x]) + Respond(a, k + 1);
      r := r + [x];
    }
    assert r + [] == r;
  }

  lemma PushedAppend(answers: seq<Answer>, a: Answer)
    ensures Pushed(answers + [a]) == Pushed(answers) + Respond(a, 0)
  {
    assert (answers + [a])[..|answers|] == answers;
  }
}
