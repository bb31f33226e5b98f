/** What the scheduler guarantees over whole runs: every interleaving of enqueues, cancellations,
    selection rounds, permit releases and accounting reports. */
module Fairness {
  import opened Flows
  import opened Priority
  import opened Drr

  /** One atomic action on the scheduler state. */
  datatype Op =
    | Enqueue(flow: FlowId, cost: int, at: int)
    | Stamp(flow: FlowId, at: int)
    | Drop(flow: FlowId, id: Option<nat>)
    | Select(env: Env, cap: int)
    | Release
    | Report(flow: FlowId, amount: int)

  function Do(s: Sched, op: Op): Sched {
    match op
    case Enqueue(f, cost, at) => Push(s, f, cost, at)
    case Stamp(f, at) => s.(stamp := s.stamp[f := at])
    case Drop(f, id) => Cancel(s, f, id)
    case Select(env, cap) => Round(s, env, cap).next
    case Release => s.(available := s.available + 1)
    case Report(f, amount) => Restore(s, f, amount)
  }

  function Exec(s: Sched, ops: seq<Op>): Sched
    decreases |ops|
  {
    if ops == [] then s else Exec(Do(s, ops[0]), ops[1..])
  }

  lemma DoValid(s: Sched, op: Op)
    requires Valid(s)
    ensures Valid(Do(s, op))
  {
    match op
    case Enqueue(f, cost, at) => PushValid(s, f, cost, at);
    case Drop(f, id) => CancelValid(s, f, id);
    case Select(env, cap) => RoundValid(s, env, cap);
    case _ => SameQueuesValid(s, Do(s, op));
  }

  /** The queue structure survives every run. */
  lemma {:induction false} RunKeepsQueueStructure(s: Sched, ops: seq<Op>)
    requires Valid(s)
    ensures Valid(Exec(s, ops))
    decreases |ops|
  {
    if ops != [] {
      DoValid(s, ops[0]);
      RunKeepsQueueStructure(Do(s, ops[0]), ops[1..]);
    }
  }

  // ----- FIFO service -----

  function PickOf(s: Sched, op: Op): Option<Pick> {
    if op.Select? then Round(s, op.env, op.cap).pick else None
  }

  function Picks(s: Sched, ops: seq<Op>): seq<Pick>
    decreases |ops|
  {
    if ops == [] then []
    else
      var later := Picks(Do(s, ops[0]), ops[1..]);
      match PickOf(s, ops[0])
      case Some(p) => [p] + later
      case None => later
  }

  /** The least pending id `f` can still be served. */
  function Low(s: Sched, f: FlowId): nat {
    if Queued(s, f) then s.waiting[f][0].id else s.nextId
  }

  lemma LowRises(s: Sched, op: Op, f: FlowId)
    requires Valid(s)
    ensures Low(Do(s, op), f) >= Low(s, f)
    ensures PickOf(s, op).Some? && PickOf(s, op).value.flow == f ==>
      Low(s, f) == PickOf(s, op).value.pending.id < Low(Do(s, op), f)
  {
    match op
    case Drop(g, id) =>
      if g == f && f in s.waiting && id.Some? {
        var r := WithoutId(s.waiting[f], id.value);
        if r != [] { assert r[0] in s.waiting[f]; }
      }
    case Select(env, cap) =>
      TakeLow(s, env, cap, f);
    case _ =>
  }

  lemma TakeLow(s: Sched, env: Env, cap: int, f: FlowId)
    requires Valid(s)
    ensures var r := Round(s, env, cap);
      && Low(r.next, f) >= Low(s, f)
      && (r.pick.Some? && r.pick.value.flow == f ==> Low(s, f) == r.pick.value.pending.id < Low(r.next, f))
  {
    hide Candidates, KvIndex, FirstStarved, CreditedUpTo, IdsDistinct, CursorExact, DeficitsNonNegative, AnyCredited, Without;
    var r := Round(s, env, cap);
    if r.pick.Some? && r.pick.value.flow == f && |s.waiting[f]| > 1 {
      assert s.waiting[f][1..][0] == s.waiting[f][1];
    }
  }

  lemma {:induction false} PicksAboveLow(s: Sched, ops: seq<Op>, f: FlowId)
    requires Valid(s)
    ensures forall i :: 0 <= i < |Picks(s, ops)| && Picks(s, ops)[i].flow == f ==>
      Picks(s, ops)[i].pending.id >= Low(s, f)
    decreases |ops|
  {
    if ops != [] {
      DoValid(s, ops[0]);
      LowRises(s, ops[0], f);
      PicksAboveLow(Do(s, ops[0]), ops[1..], f);
    }
  }

  /** Within each flow, served ids ascend. */
  predicate FifoOrder(p: seq<Pick>) {
    forall i, j :: 0 <= i < j < |p| && p[i].flow == p[j].flow ==> p[i].pending.id < p[j].pending.id
  }

  lemma PrependFifo(p: Pick, later: seq<Pick>, low: nat)
    requires FifoOrder(later) && p.pending.id < low
    requires forall i :: 0 <= i < |later| && later[i].flow == p.flow ==> later[i].pending.id >= low
    ensures FifoOrder([p] + later)
  {
    var all := [p] + later;
    assert forall i :: 1 <= i < |all| ==> all[i] == later[i - 1];
  }

  /** Each flow is served in the order it enqueued, whatever else happens in between. */
  lemma {:induction false} ServiceIsFifo(s: Sched, ops: seq<Op>)
    requires Valid(s)
    ensures FifoOrder(Picks(s, ops))
    decreases |ops|
  {
    if ops != [] {
      var t := Do(s, ops[0]);
      DoValid(s, ops[0]);
      ServiceIsFifo(t, ops[1..]);
      var first := PickOf(s, ops[0]);
      if first.Some? {
        var f := first.value.flow;
        LowRises(s, ops[0], f);
        PicksAboveLow(t, ops[1..], f);
        PrependFifo(first.value, Picks(t, ops[1..]), Low(t, f));
      }
    }
  }

  // ----- Weighted rate bound -----

  /** The rounds that reach the crediting phase. */
  predicate IsCreditRound(s: Sched, op: Op) {
    op.Select? && Active(s) < op.cap && s.cursor != [] && FirstStarved(s, op.env, 0).None?
  }

  /** Cost of the credit (non-forced) selections of `f`. */
  function CreditServed(s: Sched, ops: seq<Op>, f: FlowId): int
    decreases |ops|
  {
    if ops == [] then 0 else ServedBy(s, ops[0], f) + CreditServed(Do(s, ops[0]), ops[1..], f)
  }

  function ServedBy(s: Sched, op: Op, f: FlowId): int {
    match PickOf(s, op)
    case Some(p) => if p.flow == f && !p.forced then p.pending.cost else 0
    case None => 0
  }

  /** Credit rounds `f` was waiting in. */
  function RoundsWaited(s: Sched, ops: seq<Op>, f: FlowId): nat
    decreases |ops|
  {
    if ops == [] then 0
    else (if IsCreditRound(s, ops[0]) && Queued(s, f) then 1 else 0) + RoundsWaited(Do(s, ops[0]), ops[1..], f)
  }

  ghost predicate FixedWeight(ops: seq<Op>, f: FlowId, w: int) {
    forall i :: 0 <= i < |ops| && ops[i].Select? ==> ops[i].env.weight(f) == w
  }

  function Positive(w: int): nat { if w > 0 then w else 0 }

  lemma OneMore(w: nat, n: nat)
    ensures w * (1 + n) == w + w * n && w * (0 + n) == w * n
  {}

  lemma RateOfRound(s: Sched, env: Env, cap: int, f: FlowId)
    requires Valid(s)
    ensures ServedBy(s, Select(env, cap), f) + DeficitOf(Round(s, env, cap).next, f)
         <= DeficitOf(s, f) + (if IsCreditRound(s, Select(env, cap)) && Queued(s, f) then Positive(env.weight(f)) else 0)
  {
    hide Without, CreditedUpTo, AnyCredited, CandidateAt, KvIndex, QueuesOrdered, IdsDistinct;
    CreditedDeficit(s, env);
  }

  lemma RateOfOneOp(s: Sched, op: Op, f: FlowId, w: int)
    requires Valid(s) && (op.Select? ==> op.env.weight(f) == w)
    ensures ServedBy(s, op, f) + DeficitOf(Do(s, op), f)
         <= DeficitOf(s, f) + (if IsCreditRound(s, op) && Queued(s, f) then Positive(w) else 0)
  {
    hide Round, QueuesOrdered, IdsDistinct;
    if op.Select? {
      RateOfRound(s, op.env, op.cap, f);
    }
  }

  /** Over any run, what a flow of weight `w` is served on credit, plus the deficit it still holds,
      is at most `w` per credit round it waited in (plus the deficit it started with). */
  lemma {:induction false} WeightedRateBound(s: Sched, ops: seq<Op>, f: FlowId, w: int)
    requires Valid(s) && FixedWeight(ops, f, w)
    ensures CreditServed(s, ops, f) + DeficitOf(Exec(s, ops), f)
         <= DeficitOf(s, f) + Positive(w) * RoundsWaited(s, ops, f)
    decreases |ops|
  {
    hide Valid, Do, DeficitOf, ServedBy, IsCreditRound, Queued;
    if ops != [] {
      var t := Do(s, ops[0]);
      DoValid(s, ops[0]);
      WeightedRateBound(t, ops[1..], f, w);
      RateOfOneOp(s, ops[0], f, w);
      OneMore(Positive(w), RoundsWaited(t, ops[1..], f));
    }
  }
}
