/** Forced selections: which starved flow a round takes, and how long a starved flow can be passed over. */
module ForcedSelection {
  import opened Flows
  import opened Drr
  import opened Fairness
  import opened BoundedWaiting

  /** No starved flow stands before `f` in the cursor. */
  predicate LeadsTheStarved(s: Sched, env: Env, f: FlowId) {
    && f in s.cursor && Starved(s, env, f)
    && forall g :: g in s.cursor && Starved(s, env, g) ==> IndexOf(s.cursor, f) <= IndexOf(s.cursor, g)
  }

  lemma {:induction false} FirstStarvedFrom(s: Sched, env: Env, i: nat)
    requires i <= |s.cursor| && NoDup(s.cursor) && forall k :: 0 <= k < i ==> !Starved(s, env, s.cursor[k])
    ensures FirstStarved(s, env, i).Some? <==> exists g :: g in s.cursor && Starved(s, env, g)
    ensures FirstStarved(s, env, i).Some? ==> LeadsTheStarved(s, env, FirstStarved(s, env, i).value)
    decreases |s.cursor| - i
  {
    if i == |s.cursor| {
    } else if Starved(s, env, s.cursor[i]) {
      var f := s.cursor[i];
      IndexOfUnique(s.cursor, i);
      forall g | g in s.cursor && Starved(s, env, g) ensures i <= IndexOf(s.cursor, g) {
        assert s.cursor[IndexOf(s.cursor, g)] == g;
      }
    } else {
      FirstStarvedFrom(s, env, i + 1);
    }
  }

  /** A round forces a selection if and only if a permit is free below the cap and some listed flow is
      starved. It takes the head request of the starved flow that stands first in the cursor. */
  lemma ForcedPickLeadsTheStarved(s: Sched, env: Env, cap: int)
    requires Valid(s)
    ensures var p := Round(s, env, cap).pick;
      && (p.Some? && p.value.forced <==> Active(s) < cap && exists g :: g in s.cursor && Starved(s, env, g))
      && (p.Some? && p.value.forced ==>
            LeadsTheStarved(s, env, p.value.flow) && p.value.pending == s.waiting[p.value.flow][0])
  {
    hide Candidates, CreditedUpTo, AnyCredited, Starved, LeadsTheStarved;
    FirstStarvedFrom(s, env, 0);
  }

  // ----- Passing over a starved flow -----

  /** A round that passes the cap gate. */
  predicate Gated(s: Sched, op: Op) {
    op.Select? && Active(s) < op.cap
  }

  function GatedRounds(s: Sched, ops: seq<Op>): nat
    decreases |ops|
  {
    if ops == [] then 0
    else (if Gated(s, ops[0]) then 1 else 0) + GatedRounds(Do(s, ops[0]), ops[1..])
  }

  /** Through the whole run `f` is queued, and every round that passes the cap gate finds it starved and takes
      another flow. */
  ghost predicate PassedOverStarving(s: Sched, ops: seq<Op>, f: FlowId)
    decreases |ops|
  {
    && Queued(s, f) && f in s.cursor
    && (ops != [] ==>
          && (Gated(s, ops[0]) ==> Starved(s, ops[0].env, f) && !Takes(s, ops[0], f))
          && PassedOverStarving(Do(s, ops[0]), ops[1..], f))
  }

  predicate Takes(s: Sched, op: Op, f: FlowId) {
    PickOf(s, op).Some? && PickOf(s, op).value.flow == f
  }

  /** A round that finds `f` starved and takes another flow takes one in front of `f`, which moves up. */
  lemma StarvedFlowMovesUp(s: Sched, env: Env, cap: int, f: FlowId)
    requires Valid(s) && f in s.cursor && Starved(s, env, f) && Active(s) < cap
    requires !Takes(s, Select(env, cap), f)
    ensures var t := Round(s, env, cap).next;
      f in t.cursor && IndexOf(t.cursor, f) == IndexOf(s.cursor, f) - 1
  {
    hide Round, Valid, Starved, IndexOf, Without;
    ForcedPickLeadsTheStarved(s, env, cap);
    ForcedRoundTakes(s, env, cap);
    var g := Round(s, env, cap).pick.value.flow;
    assert s.cursor[IndexOf(s.cursor, g)] == g && s.cursor[IndexOf(s.cursor, f)] == f;
    PositionAfterMove(s.cursor, g, f, if s.waiting[g][1..] == [] then [] else [g]);
  }

  lemma ForcedRoundTakes(s: Sched, env: Env, cap: int)
    requires Valid(s)
    ensures var r := Round(s, env, cap);
      && NoDup(s.cursor)
      && (r.pick.Some? && r.pick.value.forced ==> Queued(s, r.pick.value.flow) && r.next == Take(s, r.pick.value.flow))
  {
    hide Candidates, CreditedUpTo, AnyCredited, Take;
  }

  lemma IndexNeverGrows(s: Sched, op: Op, f: FlowId)
    requires Valid(s) && f in s.cursor && !Gated(s, op) && f in Do(s, op).cursor && Queued(Do(s, op), f)
    ensures IndexOf(Do(s, op).cursor, f) <= IndexOf(s.cursor, f)
  {
    match op
    case Enqueue(g, cost, at) => PushKeepsPosition(s, g, cost, at, f);
    case Drop(g, id) => CancelKeepsPosition(s, g, id, f);
    case _ =>
  }

  /** A starved flow at cursor index i is passed over by at most i rounds that pass the cap gate, so the
      (i + 1)-th takes it, whatever arrives or is cancelled in between. */
  lemma {:induction false} StarvedFlowIsForcedWithinBound(s: Sched, ops: seq<Op>, f: FlowId)
    requires Valid(s) && PassedOverStarving(s, ops, f)
    ensures GatedRounds(s, ops) <= IndexOf(s.cursor, f)
    decreases |ops|
  {
    hide Valid, Do, Starved, Takes, Gated;
    if ops != [] {
      DoValid(s, ops[0]);
      OneOpMovesUp(s, ops[0], f);
      StarvedFlowIsForcedWithinBound(Do(s, ops[0]), ops[1..], f);
    }
  }

  lemma OneOpMovesUp(s: Sched, op: Op, f: FlowId)
    requires Valid(s) && f in s.cursor && f in Do(s, op).cursor && Queued(Do(s, op), f)
    requires Gated(s, op) ==> Starved(s, op.env, f) && !Takes(s, op, f)
    ensures IndexOf(Do(s, op).cursor, f) + (if Gated(s, op) then 1 else 0) <= IndexOf(s.cursor, f)
  {
    hide Valid, Round, Starved, Takes;
    if Gated(s, op) {
      StarvedFlowMovesUp(s, op.env, op.cap, f);
    } else {
      IndexNeverGrows(s, op, f);
    }
  }
}
