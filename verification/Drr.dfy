/** The DRR scheduler state as a value, and every action on it as a function: the specification
    the class `DrrState` is proved against and the one that fairness is proved about. */
module Drr {
  import opened Flows
  import opened Priority

  /** A queued request; `cost` is its work unit after `as i64`. */
  datatype Pending = Pending(id: nat, cost: int, enqueuedAt: int)

  /** `stamp` holds `Flow.enqueued_at` where it is `Some`; `credit` holds `Flow.credit`, 0 if absent. */
  datatype Sched = Sched(
    waiting: map<FlowId, seq<Pending>>,
    cursor: seq<FlowId>,
    available: int,
    maxPermits: nat,
    nextId: nat,
    deficit: map<FlowId, int>,
    stamp: map<FlowId, int>,
    credit: map<FlowId, int>)

  /** What one round reads from outside: weights after `as i64`, priorities, footprints, the clock
      reading taken for each flow, the starvation timeout, the KV-bias configuration and the pressure. */
  datatype Env = Env(
    weight: FlowId -> int,
    priority: FlowId -> nat,
    footprint: FlowId -> real,
    clock: FlowId -> int,
    timeout: int,
    kv: KvBias,
    pressure: real)
  {
    /** The KV-bias weight of the round. */
    function Bias(): real { BiasInForce(kv, pressure) }
  }

  datatype Pick = Pick(flow: FlowId, pending: Pending, forced: bool)

  datatype RoundResult = RoundResult(pick: Option<Pick>, progressed: bool, next: Sched)

  /** What a dropped lifecycle guard reports. */
  datatype AccountingReport = Completed(deliveredTokens: int, restoreCost: int) | Cancelled(restoreCost: int)

  function Init(permits: nat): Sched {
    Sched(map[], [], permits, permits, 0, map[], map[], map[])
  }

  function Active(s: Sched): int { s.maxPermits - s.available }

  function DeficitOf(s: Sched, f: FlowId): int {
    if f in s.deficit then s.deficit[f] else 0
  }

  function CreditOf(s: Sched, f: FlowId): int {
    if f in s.credit then s.credit[f] else 0
  }

  predicate Queued(s: Sched, f: FlowId) {
    f in s.waiting && s.waiting[f] != []
  }

  // ----- Enqueue, cancel, accounting -----

  function Push(s: Sched, f: FlowId, cost: int, at: int): Sched {
    var q := if f in s.waiting then s.waiting[f] else [];
    s.(waiting := s.waiting[f := q + [Pending(s.nextId, cost, at)]],
       cursor := if f in s.cursor then s.cursor else s.cursor + [f],
       nextId := s.nextId + 1)
  }

  function WithoutId(q: seq<Pending>, id: nat): (r: seq<Pending>)
    ensures forall p :: p in r <==> p in q && p.id != id
    ensures |r| <= |q|
  {
    if q == [] then []
    else if q[0].id == id then WithoutId(q[1..], id)
    else [q[0]] + WithoutId(q[1..], id)
  }

  function Forget(s: Sched, f: FlowId): Sched {
    s.(waiting := s.waiting - {f}, deficit := s.deficit - {f}, cursor := Without(s.cursor, f))
  }

  /** Dropping an unconsumed admission guard; `id` is `None` until the guard has enqueued. */
  function Cancel(s: Sched, f: FlowId, id: Option<nat>): Sched {
    var s1 :=
      if f !in s.waiting then s
      else
        var q := if id.Some? then WithoutId(s.waiting[f], id.value) else s.waiting[f];
        if q == [] then Forget(s, f) else s.(waiting := s.waiting[f := q]);
    s1.(stamp := s1.stamp - {f})
  }

  function Restore(s: Sched, f: FlowId, amount: int): Sched {
    s.(credit := s.credit[f := CreditOf(s, f) + amount])
  }

  // ----- One `try_select` round -----

  predicate Starved(s: Sched, env: Env, f: FlowId) {
    Queued(s, f) && f in s.stamp && env.clock(f) - s.stamp[f] > env.timeout
  }

  /** The first starved flow at or after cursor position `i`. */
  function FirstStarved(s: Sched, env: Env, i: nat): (r: Option<FlowId>)
    requires i <= |s.cursor|
    ensures r.Some? ==> Starved(s, env, r.value) && r.value in s.cursor
    ensures r.None? ==> forall k :: i <= k < |s.cursor| ==> !Starved(s, env, s.cursor[k])
    decreases |s.cursor| - i
  {
    if i == |s.cursor| then None
    else if Starved(s, env, s.cursor[i]) then Some(s.cursor[i])
    else FirstStarved(s, env, i + 1)
  }

  predicate Creditable(s: Sched, env: Env, f: FlowId) {
    Queued(s, f) && env.weight(f) > 0
  }

  /** Eligible once this round's credit is added. */
  predicate Eligible(s: Sched, env: Env, f: FlowId) {
    Creditable(s, env, f) && DeficitOf(s, f) + env.weight(f) >= s.waiting[f][0].cost
  }

  /** The deficits after the first `n` cursor entries were credited. */
  function CreditedUpTo(s: Sched, env: Env, n: nat): map<FlowId, int>
    requires n <= |s.cursor|
  {
    if n == 0 then s.deficit
    else
      var f := s.cursor[n - 1];
      var d := CreditedUpTo(s, env, n - 1);
      if Creditable(s, env, f) then d[f := (if f in d then d[f] else 0) + env.weight(f)] else d
  }

  function Credited(s: Sched, env: Env): Sched {
    s.(deficit := CreditedUpTo(s, env, |s.cursor|))
  }

  function CandidateAt(s: Sched, env: Env, i: nat): Candidate
    requires i < |s.cursor| && Queued(s, s.cursor[i])
  {
    var f := s.cursor[i];
    Candidate(f, env.priority(f), s.waiting[f][0].enqueuedAt, i as real, env.footprint(f))
  }

  function Candidates(s: Sched, env: Env, n: nat): (r: seq<Candidate>)
    requires n <= |s.cursor|
    ensures forall c :: c in r ==> Eligible(s, env, c.flow) && c.flow in s.cursor
  {
    if n == 0 then []
    else
      var r := Candidates(s, env, n - 1);
      if Eligible(s, env, s.cursor[n - 1]) then r + [CandidateAt(s, env, n - 1)] else r
  }

  /** Whether crediting the first `n` cursor entries credits anyone. */
  predicate AnyCredited(s: Sched, env: Env, n: nat)
    requires n <= |s.cursor|
    ensures AnyCredited(s, env, n) <==> exists i :: 0 <= i < n && Creditable(s, env, s.cursor[i])
  {
    n > 0 && (Creditable(s, env, s.cursor[n - 1]) || AnyCredited(s, env, n - 1))
  }

  /** Pop the head of `f`, debit the permanent credit, rotate `f` to the back, take a permit. */
  function Take(s: Sched, f: FlowId): Sched
    requires Queued(s, f)
  {
    var rest := s.waiting[f][1..];
    s.(waiting := if rest == [] then s.waiting - {f} else s.waiting[f := rest],
       cursor := Without(s.cursor, f) + (if rest == [] then [] else [f]),
       stamp := s.stamp - {f},
       credit := s.credit[f := CreditOf(s, f) - s.waiting[f][0].cost],
       available := s.available - 1)
  }

  /** The state a credit round serves `f` from: everyone credited, the deficit of `f` cleared. */
  function ReadyToServe(s: Sched, env: Env, f: FlowId): Sched {
    var credited := Credited(s, env);
    credited.(deficit := credited.deficit - {f})
  }

  function Rotate(s: Sched): Sched {
    if s.cursor == [] then s else s.(cursor := s.cursor[1..] + [s.cursor[0]])
  }

  function CreditRound(s: Sched, env: Env): RoundResult {
    var cands := Candidates(s, env, |s.cursor|);
    if cands != [] then
      var winner := cands[KvIndex(cands, env.Bias())];
      assert winner in cands;
      var f := winner.flow;
      RoundResult(Some(Pick(f, s.waiting[f][0], false)), true, Take(ReadyToServe(s, env, f), f))
    else
      RoundResult(None, AnyCredited(s, env, |s.cursor|), Rotate(Credited(s, env)))
  }

  function Round(s: Sched, env: Env, cap: int): RoundResult {
    if Active(s) >= cap || s.cursor == [] then RoundResult(None, false, s)
    else
      match FirstStarved(s, env, 0)
      case Some(f) => RoundResult(Some(Pick(f, s.waiting[f][0], true)), true, Take(s, f))
      case None => CreditRound(s, env)
  }

  // ----- The queue structure -----

  predicate Ascending(q: seq<Pending>, bound: nat) {
    && (forall i :: 0 <= i < |q| ==> q[i].id < bound)
    && (forall i, j :: 0 <= i < j < |q| ==> q[i].id < q[j].id)
  }

  ghost predicate Has(s: Sched, f: FlowId, id: nat) {
    f in s.waiting && exists i :: 0 <= i < |s.waiting[f]| && s.waiting[f][i].id == id
  }

  ghost predicate IdsDistinct(s: Sched) {
    forall f, g, id :: Has(s, f, id) && Has(s, g, id) ==> f == g
  }

  /** The cursor lists exactly the flows with a queue, once each. */
  ghost predicate CursorExact(s: Sched) {
    NoDup(s.cursor) && forall f :: f in s.cursor <==> f in s.waiting
  }

  ghost predicate QueuesOrdered(s: Sched) {
    forall f :: f in s.waiting ==> s.waiting[f] != [] && Ascending(s.waiting[f], s.nextId)
  }

  ghost predicate DeficitsNonNegative(s: Sched) {
    forall f :: f in s.deficit ==> s.deficit[f] >= 0
  }

  /** The cursor lists exactly the flows with a non-empty queue, once each; pending ids are unique
      and ascend in every queue; deficits are never negative. */
  ghost predicate Valid(s: Sched) {
    CursorExact(s) && QueuesOrdered(s) && IdsDistinct(s) && DeficitsNonNegative(s)
  }

  /** Queues that only lost entries keep ids distinct. */
  lemma FewerIdsDistinct(s: Sched, t: Sched)
    requires IdsDistinct(s)
    requires forall f, id :: Has(t, f, id) ==> Has(s, f, id)
    ensures IdsDistinct(t)
  {}

  lemma PushHas(s: Sched, f: FlowId, cost: int, at: int)
    ensures var t := Push(s, f, cost, at);
      forall g, id :: Has(t, g, id) <==> Has(s, g, id) || (g == f && id == s.nextId)
  {
    var t := Push(s, f, cost, at);
    var q := if f in s.waiting then s.waiting[f] else [];
    assert t.waiting[f][|q|].id == s.nextId;
    forall id | Has(s, f, id) ensures Has(t, f, id) {
      var i :| 0 <= i < |s.waiting[f]| && s.waiting[f][i].id == id;
      assert t.waiting[f][i].id == id;
    }
  }

  lemma PushValid(s: Sched, f: FlowId, cost: int, at: int)
    requires Valid(s)
    ensures Valid(Push(s, f, cost, at))
  {
    hide CursorExact, QueuesOrdered, IdsDistinct, DeficitsNonNegative, Push;
    PushKeepsCursor(s, f, cost, at);
    PushKeepsQueues(s, f, cost, at);
    PushKeepsIds(s, f, cost, at);
    PushKeepsDeficits(s, f, cost, at);
  }

  lemma PushKeepsCursor(s: Sched, f: FlowId, cost: int, at: int)
    requires CursorExact(s)
    ensures CursorExact(Push(s, f, cost, at))
  {}

  lemma PushKeepsQueues(s: Sched, f: FlowId, cost: int, at: int)
    requires QueuesOrdered(s)
    ensures QueuesOrdered(Push(s, f, cost, at))
  {}

  lemma PushKeepsIds(s: Sched, f: FlowId, cost: int, at: int)
    requires QueuesOrdered(s) && IdsDistinct(s)
    ensures IdsDistinct(Push(s, f, cost, at))
  {
    PushHas(s, f, cost, at);
    assert forall g :: !Has(s, g, s.nextId);
    hide Push, Has;
  }

  lemma PushKeepsDeficits(s: Sched, f: FlowId, cost: int, at: int)
    requires DeficitsNonNegative(s)
    ensures DeficitsNonNegative(Push(s, f, cost, at))
  {}

  lemma PrependAscending(p: Pending, q: seq<Pending>, bound: nat)
    requires Ascending(q, bound) && p.id < bound && forall i :: 0 <= i < |q| ==> p.id < q[i].id
    ensures Ascending([p] + q, bound)
  {
    var r := [p] + q;
    assert forall i :: 1 <= i < |r| ==> r[i] == q[i - 1];
  }

  lemma {:induction false} WithoutIdAscending(q: seq<Pending>, id: nat, bound: nat)
    requires Ascending(q, bound)
    ensures Ascending(WithoutId(q, id), bound)
  {
    if q != [] {
      var r := WithoutId(q[1..], id);
      WithoutIdAscending(q[1..], id, bound);
      forall i | 0 <= i < |r| ensures q[0].id < r[i].id {
        assert r[i] in q[1..];
      }
      PrependAscending(q[0], r, bound);
    }
  }

  /** Cancelling removes at most the caller's own entry: every other entry, of this flow or any
      other, stays queued. */
  lemma CancelRemovesOnlyOwnEntry(s: Sched, f: FlowId, id: Option<nat>)
    requires Valid(s)
    ensures var t := Cancel(s, f, id);
      forall g, k: nat :: Has(t, g, k) <==> Has(s, g, k) && !(g == f && id == Some(k))
    ensures forall g :: g != f ==>
      (g in Cancel(s, f, id).waiting <==> g in s.waiting)
      && (g in s.waiting ==> Cancel(s, f, id).waiting[g] == s.waiting[g])
  {
    hide Valid, Without;
    var t := Cancel(s, f, id);
    if f in s.waiting && id.Some? {
      var q := s.waiting[f];
      var r := WithoutId(q, id.value);
      forall k: nat ensures Has(t, f, k) <==> Has(s, f, k) && k != id.value {
        if Has(t, f, k) {
          var i :| 0 <= i < |r| && r[i].id == k;
          assert r[i] in q;
        }
        if Has(s, f, k) && k != id.value {
          var i :| 0 <= i < |q| && q[i].id == k;
          assert q[i] in r;
        }
      }
    }
  }

  lemma CancelValid(s: Sched, f: FlowId, id: Option<nat>)
    requires Valid(s)
    ensures Valid(Cancel(s, f, id))
  {
    hide QueuesOrdered, CursorExact, IdsDistinct, Cancel, Has;
    CancelKeepsQueues(s, f, id);
    CancelKeepsCursor(s, f, id);
    CancelRemovesOnlyOwnEntry(s, f, id);
    FewerIdsDistinct(s, Cancel(s, f, id));
    CancelKeepsDeficits(s, f, id);
  }

  /** A cancel forgets the flow's deficit exactly when it empties the flow's queue, and always its timestamp. */
  lemma CancelForgetsEmptied(s: Sched, f: FlowId, id: Option<nat>)
    requires Valid(s)
    ensures var t := Cancel(s, f, id);
      && (forall g :: g != f ==> (g in t.waiting <==> g in s.waiting) && (g in s.waiting ==> t.waiting[g] == s.waiting[g]))
      && t.deficit == (if f in s.waiting && f !in t.waiting then s.deficit - {f} else s.deficit)
      && t.stamp == s.stamp - {f} && t.credit == s.credit && t.available == s.available
  {
    hide Without, WithoutId, IdsDistinct;
  }

  lemma CancelKeepsQueues(s: Sched, f: FlowId, id: Option<nat>)
    requires QueuesOrdered(s)
    ensures QueuesOrdered(Cancel(s, f, id))
  {
    if f in s.waiting && id.Some? { WithoutIdAscending(s.waiting[f], id.value, s.nextId); }
  }

  lemma CancelKeepsCursor(s: Sched, f: FlowId, id: Option<nat>)
    requires CursorExact(s)
    ensures CursorExact(Cancel(s, f, id))
  {
    WithoutNoDup(s.cursor, f);
  }

  lemma CancelKeepsDeficits(s: Sched, f: FlowId, id: Option<nat>)
    requires DeficitsNonNegative(s)
    ensures DeficitsNonNegative(Cancel(s, f, id))
  {}

  lemma TakeHas(s: Sched, f: FlowId)
    requires Valid(s) && Queued(s, f)
    ensures forall g, id: nat :: Has(Take(s, f), g, id) <==> Has(s, g, id) && !(g == f && id == s.waiting[f][0].id)
  {
    var t, q := Take(s, f), s.waiting[f];
    forall g, id: nat | g != f ensures Has(t, g, id) <==> Has(s, g, id) {
      assert (g in t.waiting <==> g in s.waiting) && (g in s.waiting ==> t.waiting[g] == s.waiting[g]);
    }
    forall id: nat ensures Has(t, f, id) <==> Has(s, f, id) && id != q[0].id {
      if Has(t, f, id) {
        var i :| 0 <= i < |t.waiting[f]| && t.waiting[f][i].id == id;
        assert q[i + 1].id == id;
      }
      if Has(s, f, id) && id != q[0].id {
        var i :| 0 <= i < |q| && q[i].id == id;
        assert i > 0 && t.waiting[f] == q[1..] && t.waiting[f][i - 1] == q[i];
      }
    }
  }

  lemma TakeValid(s: Sched, f: FlowId)
    requires Valid(s) && Queued(s, f)
    ensures Valid(Take(s, f))
  {
    var t := Take(s, f);
    assert QueuesOrdered(t);
    assert CursorExact(t) by { WithoutNoDup(s.cursor, f); }
    assert IdsDistinct(t) by {
      TakeHas(s, f);
      FewerIdsDistinct(s, t);
    }
  }

  lemma {:induction false} CreditedAt(s: Sched, env: Env, n: nat)
    requires n <= |s.cursor| && NoDup(s.cursor)
    ensures var d := CreditedUpTo(s, env, n);
      forall f :: (f in d <==> f in s.deficit || (f in s.cursor[..n] && Creditable(s, env, f)))
               && (f in d ==> d[f] == DeficitOf(s, f) + (if f in s.cursor[..n] && Creditable(s, env, f) then env.weight(f) else 0))
  {
    if n > 0 {
      CreditedAt(s, env, n - 1);
      var f := s.cursor[n - 1];
      assert s.cursor[..n] == s.cursor[..n - 1] + [f];
      assert f !in s.cursor[..n - 1];
    }
  }

  /** What a round's crediting does to each deficit. */
  lemma CreditedDeficit(s: Sched, env: Env)
    requires Valid(s)
    ensures forall f :: DeficitOf(Credited(s, env), f)
                     == DeficitOf(s, f) + (if Creditable(s, env, f) then env.weight(f) else 0)
    ensures Valid(Credited(s, env))
  {
    var t := Credited(s, env);
    CreditedAt(s, env, |s.cursor|);
    assert s.cursor[..|s.cursor|] == s.cursor;
    SameQueuesValid(s, t);
  }

  /** `Valid` does not mention the stamps, the credits or the permits. */
  lemma SameQueuesValid(s: Sched, t: Sched)
    requires Valid(s) && t.waiting == s.waiting && t.nextId == s.nextId
    requires CursorExact(t) && DeficitsNonNegative(t)
    ensures Valid(t)
  {
    assert forall f, id :: Has(t, f, id) ==> Has(s, f, id);
    FewerIdsDistinct(s, t);
  }

  lemma RotateValid(s: Sched)
    requires Valid(s)
    ensures Valid(Rotate(s))
  {
    if s.cursor != [] {
      var t := Rotate(s);
      assert forall f :: f in t.cursor <==> f in s.cursor by {
        assert s.cursor == [s.cursor[0]] + s.cursor[1..];
      }
      SameQueuesValid(s, t);
    }
  }

  lemma ReadyToServeValid(s: Sched, env: Env, f: FlowId)
    requires Valid(s)
    ensures Valid(ReadyToServe(s, env, f))
  {
    CreditedDeficit(s, env);
    SameQueuesValid(Credited(s, env), ReadyToServe(s, env, f));
  }

  lemma RoundValid(s: Sched, env: Env, cap: int)
    requires Valid(s)
    ensures Valid(Round(s, env, cap).next)
  {
    var r := Round(s, env, cap);
    if r.pick.Some? {
      var f := r.pick.value.flow;
      if r.pick.value.forced {
        TakeValid(s, f);
      } else {
        ReadyToServeValid(s, env, f);
        TakeValid(ReadyToServe(s, env, f), f);
      }
    } else {
      CreditedDeficit(s, env);
      RotateValid(Credited(s, env));
    }
  }
}
