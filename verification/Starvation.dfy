/** What the starvation check really measures: `enqueued_at` is one slot per flow, so a run decides
    starvation by the last action that touched the flow's slot, not by how long its head has waited. */
module Starvation {
  import opened Flows
  import opened Drr
  import opened Fairness

  /** The action writes or clears the stamp of `f`. */
  predicate Touches(s: Sched, op: Op, f: FlowId) {
    match op
    case Stamp(g, _) => g == f
    case Drop(g, _) => g == f
    case Select(_, _) => PickOf(s, op).Some? && PickOf(s, op).value.flow == f
    case _ => false
  }

  predicate TouchesAt(s: Sched, ops: seq<Op>, k: nat, f: FlowId)
    requires k < |ops|
  {
    Touches(Exec(s, ops[..k]), ops[k], f)
  }

  ghost predicate LastTouch(s: Sched, ops: seq<Op>, k: nat, f: FlowId) {
    k < |ops| && TouchesAt(s, ops, k, f) && forall j: nat :: k < j < |ops| ==> !TouchesAt(s, ops, j, f)
  }

  lemma {:induction false} ExecAppend(s: Sched, ops: seq<Op>, op: Op)
    ensures Exec(s, ops + [op]) == Do(Exec(s, ops), op)
    decreases |ops|
  {
    hide Do;
    if ops == [] {
      assert ([op] + [])[1..] == [];
      assert ops + [op] == [op];
    } else {
      assert (ops + [op])[1..] == ops[1..] + [op];
      ExecAppend(Do(s, ops[0]), ops[1..], op);
    }
  }

  lemma Exec4(s: Sched, a: Op, b: Op, c: Op, d: Op)
    ensures Exec(s, [a, b, c, d]) == Do(Do(Do(Do(s, a), b), c), d)
  {
    hide Do;
    assert [a, b, c, d] == [a, b, c] + [d] && [a, b, c] == [a, b] + [c] && [a, b] == [a] + [b] && [a] == [] + [a];
    ExecAppend(s, [a, b, c], d);
    ExecAppend(s, [a, b], c);
    ExecAppend(s, [a], b);
    ExecAppend(s, [], a);
  }

  /** Only an enqueue writes the stamp; a selection or a cancel clears it; nothing else changes it. */
  lemma StampAfter(s: Sched, op: Op, f: FlowId)
    ensures var t := Do(s, op);
      && (op.Stamp? && op.flow == f ==> f in t.stamp && t.stamp[f] == op.at)
      && (Touches(s, op, f) && !op.Stamp? ==> f !in t.stamp)
      && (!Touches(s, op, f) ==> (f in t.stamp <==> f in s.stamp) && (f in s.stamp ==> t.stamp[f] == s.stamp[f]))
  {
    hide Round, Without, WithoutId;
    if op.Select? { RoundStamps(s, op.env, op.cap); }
  }

  /** A round clears the stamp of its pick and no other. */
  lemma RoundStamps(s: Sched, env: Env, cap: int)
    ensures var r := Round(s, env, cap);
      r.next.stamp == if r.pick.Some? then s.stamp - {r.pick.value.flow} else s.stamp
  {
    hide CreditedUpTo, Candidates, AnyCredited, Without;
  }

  lemma TouchesPrefix(s: Sched, ops: seq<Op>, op: Op, f: FlowId)
    ensures forall k: nat :: k < |ops| ==> (TouchesAt(s, ops + [op], k, f) <==> TouchesAt(s, ops, k, f))
  {
    hide Touches;
    forall k: nat | k < |ops| ensures TouchesAt(s, ops + [op], k, f) <==> TouchesAt(s, ops, k, f) {
      assert (ops + [op])[..k] == ops[..k];
    }
  }

  /** The stamp a run ends with. */
  ghost predicate StampExplained(s: Sched, ops: seq<Op>, f: FlowId, at: int) {
    exists k: nat :: LastTouch(s, ops, k, f) && ops[k].Stamp? && ops[k].at == at
  }

  lemma {:induction false} StampIsLastTouch(s: Sched, ops: seq<Op>, f: FlowId)
    requires f !in s.stamp
    ensures var t := Exec(s, ops);
      forall at :: f in t.stamp && t.stamp[f] == at <==> StampExplained(s, ops, f, at)
    decreases |ops|
  {
    if ops != [] {
      var n := |ops| - 1;
      var init, op := ops[..n], ops[n];
      assert init + [op] == ops;
      ExecAppend(s, init, op);
      StampIsLastTouch(s, init, f);
      StampAfter(Exec(s, init), op, f);
      TouchesPrefix(s, init, op, f);
      forall at ensures StampExplained(s, ops, f, at) <==>
        (if TouchesAt(s, ops, n, f) then op.Stamp? && op.at == at else StampExplained(s, init, f, at))
      {
        LastTouchStep(s, init, op, f, at);
      }
    }
  }

  lemma LastTouchStep(s: Sched, init: seq<Op>, op: Op, f: FlowId, at: int)
    ensures var ops := init + [op];
      StampExplained(s, ops, f, at) <==>
        (if TouchesAt(s, ops, |init|, f) then op.Stamp? && op.at == at else StampExplained(s, init, f, at))
  {
    hide TouchesAt;
    var ops := init + [op];
    TouchesPrefix(s, init, op, f);
    if TouchesAt(s, ops, |init|, f) {
      assert LastTouch(s, ops, |init|, f);
    } else {
      if StampExplained(s, init, f, at) {
        var k: nat :| LastTouch(s, init, k, f) && init[k].Stamp? && init[k].at == at;
        assert LastTouch(s, ops, k, f);
      }
      if StampExplained(s, ops, f, at) {
        var k: nat :| LastTouch(s, ops, k, f) && ops[k].Stamp? && ops[k].at == at;
        assert LastTouch(s, init, k, f);
      }
    }
  }

  /** After any run a flow counts as starved exactly when it is queued and the last action that touched
      its stamp was an enqueue more than the timeout ago. In particular a selection that leaves requests
      queued, or a sibling's cancel, stops the clock until the flow enqueues again. */
  lemma StarvedIffLastEnqueueIsOld(permits: nat, ops: seq<Op>, env: Env, f: FlowId)
    ensures var t := Exec(Init(permits), ops);
      Starved(t, env, f) <==> Queued(t, f) && exists at :: StampExplained(Init(permits), ops, f, at) && env.clock(f) - at > env.timeout
  {
    hide Exec, StampExplained;
    var t := Exec(Init(permits), ops);
    StampIsLastTouch(Init(permits), ops, f);
    if f in t.stamp { assert StampExplained(Init(permits), ops, f, t.stamp[f]); }
  }

  /** So no bound on the wait of a single request follows: a head that has waited longer than the timeout
      is not starved when the same flow has just enqueued again. */
  lemma OverdueHeadIsNotStarved(f: FlowId, cost: int, env: Env)
    requires env.timeout == 5 && env.clock(f) == 11
    ensures var t := Exec(Init(1), [Enqueue(f, cost, 0), Stamp(f, 0), Enqueue(f, cost, 10), Stamp(f, 10)]);
      && Queued(t, f) && env.clock(f) - t.waiting[f][0].enqueuedAt > env.timeout
      && !Starved(t, env, f)
  {
    Exec4(Init(1), Enqueue(f, cost, 0), Stamp(f, 0), Enqueue(f, cost, 10), Stamp(f, 10));
    var s2 := Do(Do(Init(1), Enqueue(f, cost, 0)), Stamp(f, 0));
    var s4 := Do(Do(s2, Enqueue(f, cost, 10)), Stamp(f, 10));
    assert s4.waiting[f] == [Pending(0, cost, 0), Pending(1, cost, 10)];
  }

  /** A selection leaves the served flow a deficit if and only if it is forced and there was one; whether
      the flow's queue was emptied plays no part. */
  lemma DeficitSurvivesServiceIff(s: Sched, env: Env, cap: int)
    ensures var r := Round(s, env, cap);
      r.pick.Some? ==>
        var f := r.pick.value.flow;
        && (f in r.next.deficit <==> r.pick.value.forced && f in s.deficit)
        && (f in r.next.deficit ==> r.next.deficit[f] == s.deficit[f])
  {
    hide CreditedUpTo, Candidates, AnyCredited, Without;
  }

  /** So a reachable state can hold a deficit for a flow that is not waiting: enqueued, credited in one
      round, then found starved and force-selected. */
  lemma DeficitOfAFlowThatIsNotWaiting(f: FlowId, w: int, cost: int, env: Env)
    requires 1 <= w < cost && env.weight(f) == w && env.clock(f) == 0 && env.timeout == 5
    ensures var ops := [Enqueue(f, cost, 0), Stamp(f, 0), Select(env, 1), Select(env.(clock := _ => 9), 1)];
      var t := Exec(Init(1), ops);
      f !in t.waiting && f !in t.cursor && f in t.deficit && t.deficit[f] == w
  {
    var late := env.(clock := _ => 9);
    var s1 := Do(Do(Init(1), Enqueue(f, cost, 0)), Stamp(f, 0));
    assert s1.waiting[f] == [Pending(0, cost, 0)] && s1.cursor == [f] && s1.stamp[f] == 0;
    CreditedOnce(s1, env, f, w, cost);
    var s2 := Do(s1, Select(env, 1));
    assert s2 == s1.(deficit := map[f := w]);
    assert Starved(s2, late, f) && FirstStarved(s2, late, 0) == Some(f);
    var t := Do(s2, Select(late, 1));
    assert t == Take(s2, f);
    Exec4(Init(1), Enqueue(f, cost, 0), Stamp(f, 0), Select(env, 1), Select(late, 1));
  }

  lemma CreditedOnce(s: Sched, env: Env, f: FlowId, w: int, cost: int)
    requires s.cursor == [f] && s.deficit == map[] && f in s.waiting && s.waiting[f] == [Pending(0, cost, 0)]
    requires 1 <= w < cost && env.weight(f) == w && env.clock(f) == 0 && env.timeout == 5 && f in s.stamp && s.stamp[f] == 0
    requires Active(s) < 1
    ensures Round(s, env, 1).next == s.(deficit := map[f := w])
  {
    assert !Starved(s, env, f) && FirstStarved(s, env, 1) == None;
    assert CreditedUpTo(s, env, 0) == map[] && CreditedUpTo(s, env, 1) == map[f := w];
    assert Candidates(s, env, 0) == [] && Candidates(s, env, 1) == [];
    assert [f][1..] + [f] == [f];
  }
}
