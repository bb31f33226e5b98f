/** Credit accounting and the per-flow progress tracker, each action one atomic step. */
module Accounting {
  import opened Flows
  import opened Drr
  import opened DrrScheduler

  // ----- The tracker -----

  datatype Progress = Progress(estimated: int, delivered: int)

  type Entries = map<FlowId, Progress>

  function Registered(e: Entries, f: FlowId, estimate: int): Entries {
    var p := if f in e then e[f] else Progress(0, 0);
    e[f := p.(estimated := p.estimated + estimate)]
  }

  function Updated(e: Entries, f: FlowId, delta: int): Entries {
    if f in e then e[f := e[f].(delivered := e[f].delivered + delta)] else e
  }

  function Unregistered(e: Entries, f: FlowId, estimate: int, delivered: int): Entries {
    if f !in e then e
    else
      var p := Progress(e[f].estimated - estimate, e[f].delivered - delivered);
      if p == Progress(0, 0) then e - {f} else e[f := p]
  }

  predicate NearDone(p: Progress, threshold: real) {
    p.estimated > 0 && p.delivered as real / p.estimated as real >= threshold
  }

  lemma NearDoneIff(p: Progress, threshold: real)
    ensures NearDone(p, threshold) <==> p.estimated > 0 && p.delivered as real >= threshold * p.estimated as real
  {
    if p.estimated > 0 {
      var ratio, e := p.delivered as real / p.estimated as real, p.estimated as real;
      assert ratio * e == p.delivered as real;
      assert ratio >= threshold ==> (ratio - threshold) * e >= 0.0;
      assert ratio < threshold ==> (threshold - ratio) * e > 0.0;
    }
  }

  class FlowProgressTracker {
    var entries: Entries

    constructor ()
      ensures entries == map[]
    {
      entries := map[];
    }

    method Register(f: FlowId, estimate: int)
      modifies this
      ensures entries == Registered(old(entries), f, estimate)
    {
      if f !in entries { entries := entries[f := Progress(0, 0)]; }
      entries := entries[f := Progress(entries[f].estimated + estimate, entries[f].delivered)];
    }

    method UpdateDelivered(f: FlowId, delta: int)
      modifies this
      ensures entries == Updated(old(entries), f, delta)
    {
      if f in entries {
        entries := entries[f := Progress(entries[f].estimated, entries[f].delivered + delta)];
      }
    }

    method Unregister(f: FlowId, estimate: int, delivered: int)
      modifies this
      ensures entries == Unregistered(old(entries), f, estimate, delivered)
    {
      if f in entries {
        var newEst, newDel := entries[f].estimated - estimate, entries[f].delivered - delivered;
        if newEst == 0 && newDel == 0 {
          entries := entries - {f};
        } else {
          entries := entries[f := Progress(newEst, newDel)];
        }
      }
    }

    /** The tracker is scanned in arbitrary order; the answer does not depend on it. */
    method AnyFlowNearDone(threshold: real) returns (found: bool)
      ensures found <==> exists f :: f in entries && NearDone(entries[f], threshold)
      ensures found <==> exists f :: (
        f in entries && entries[f].estimated > 0 && entries[f].delivered as real >= threshold * entries[f].estimated as real)
    {
      forall f | f in entries ensures NearDone(entries[f], threshold) <==>
        entries[f].estimated > 0 && entries[f].delivered as real >= threshold * entries[f].estimated as real
      {
        NearDoneIff(entries[f], threshold);
      }
      var left := entries.Keys;
      found := false;
      while left != {} && !found
        invariant left <= entries.Keys
        invariant !found ==> forall f :: f in entries && NearDone(entries[f], threshold) ==> f in left
        invariant found ==> exists f :: f in entries && NearDone(entries[f], threshold)
        decreases left
      {
        var f :| f in left;
        if NearDone(entries[f], threshold) { found := true; }
        left := left - {f};
      }
    }
  }

  // ----- The guard -----

  /** What a dropped guard asks to be restored. */
  function RestoreCost(estimate: int, delivered: int, completed: bool): int {
    if completed && delivered <= 0 then 0 else estimate - delivered
  }

  class LifecycleGuard {
    const flow: FlowId
    const estimate: int
    const scheduler: DrrState
    const tracker: FlowProgressTracker
    var completedNormally: bool
    var deliveredTokens: int

    constructor (flow: FlowId, estimate: int, scheduler: DrrState, tracker: FlowProgressTracker)
      modifies tracker
      ensures this.flow == flow && this.estimate == estimate
      ensures this.scheduler == scheduler && this.tracker == tracker
      ensures !completedNormally && deliveredTokens == 0
      ensures tracker.entries == Registered(old(tracker.entries), flow, estimate)
    {
      this.flow, this.estimate, this.scheduler, this.tracker := flow, estimate, scheduler, tracker;
      completedNormally, deliveredTokens := false, 0;
      new;
      tracker.Register(flow, estimate);
    }

    method AddDeliveredTokens(count: int)
      modifies this, tracker
      ensures deliveredTokens == old(deliveredTokens) + count && completedNormally == old(completedNormally)
      ensures tracker.entries == Updated(old(tracker.entries), flow, count)
    {
      deliveredTokens := deliveredTokens + count;
      tracker.UpdateDelivered(flow, count);
    }

    method MarkCompleted()
      modifies this
      ensures completedNormally && deliveredTokens == old(deliveredTokens)
    {
      completedNormally := true;
    }

    /** `Drop`. */
    method Release()
      modifies tracker, scheduler`credit
      ensures tracker.entries == Unregistered(old(tracker.entries), flow, estimate, deliveredTokens)
      ensures scheduler.Model()
           == Restore(old(scheduler.Model()), flow, RestoreCost(estimate, deliveredTokens, completedNormally))
    {
      tracker.Unregister(flow, estimate, deliveredTokens);
      if completedNormally {
        if deliveredTokens > 0 {
          scheduler.ReportAccounting(flow, Completed(deliveredTokens, estimate - deliveredTokens));
        } else {
          scheduler.ReportAccounting(flow, Completed(estimate, 0));
        }
      } else {
        scheduler.ReportAccounting(flow, Cancelled(estimate - deliveredTokens));
      }
    }
  }

  // ----- The books of a whole run -----

  /** A selected request: its ticket has not reached a guard, its guard is live, or its guard was
      dropped. */
  datatype Stage = Selected | Live | Closed

  datatype Request = Request(flow: FlowId, estimate: int, delivered: int, completed: bool, stage: Stage)

  datatype Books = Books(credit: map<FlowId, int>, ledger: seq<Request>, progress: Entries)

  datatype Step =
    | Select(flow: FlowId, estimate: int)
    | Open(i: nat)
    | Deliver(i: nat, tokens: int)
    | Complete(i: nat)
    | Close(i: nat)

  predicate Enabled(b: Books, step: Step) {
    match step
    case Select(_, _) => true
    case Open(i) => i < |b.ledger| && b.ledger[i].stage == Selected
    case Deliver(i, _) => i < |b.ledger| && b.ledger[i].stage == Live
    case Complete(i) => i < |b.ledger| && b.ledger[i].stage == Live
    case Close(i) => i < |b.ledger| && b.ledger[i].stage == Live
  }

  function CreditIn(b: Books, f: FlowId): int {
    if f in b.credit then b.credit[f] else 0
  }

  function Put(b: Books, i: nat, r: Request): Books
    requires i < |b.ledger|
  {
    b.(ledger := b.ledger[i := r])
  }

  function Apply(b: Books, step: Step): Books
    requires Enabled(b, step)
  {
    match step
    case Select(f, est) =>
      b.(credit := b.credit[f := CreditIn(b, f) - est], ledger := b.ledger + [Request(f, est, 0, false, Selected)])
    case Open(i) =>
      var r := b.ledger[i];
      Put(b, i, r.(stage := Live)).(progress := Registered(b.progress, r.flow, r.estimate))
    case Deliver(i, n) =>
      var r := b.ledger[i];
      Put(b, i, r.(delivered := r.delivered + n)).(progress := Updated(b.progress, r.flow, n))
    case Complete(i) => Put(b, i, b.ledger[i].(completed := true))
    case Close(i) =>
      var r := b.ledger[i];
      Put(b, i, r.(stage := Closed))
        .(progress := Unregistered(b.progress, r.flow, r.estimate, r.delivered),
          credit := b.credit[r.flow := CreditIn(b, r.flow) + RestoreCost(r.estimate, r.delivered, r.completed)])
  }

  /** What a request costs its flow: the estimate until its guard is dropped; then the delivered
      tokens, except that a completion without usage data keeps the full estimate. */
  function Charge(r: Request): int {
    if r.stage != Closed then r.estimate
    else if r.completed && r.delivered <= 0 then r.estimate
    else r.delivered
  }

  datatype Kind = Charged | LiveEstimate | LiveDelivered | LiveCount

  function Part(r: Request, f: FlowId, kind: Kind): int {
    if r.flow != f then 0
    else
      match kind
      case Charged => Charge(r)
      case LiveEstimate => if r.stage == Live then r.estimate else 0
      case LiveDelivered => if r.stage == Live then r.delivered else 0
      case LiveCount => if r.stage == Live then 1 else 0
  }

  function Total(ledger: seq<Request>, f: FlowId, kind: Kind): int {
    if ledger == [] then 0 else Part(ledger[0], f, kind) + Total(ledger[1..], f, kind)
  }

  lemma {:induction false} TotalAppend(ledger: seq<Request>, r: Request, f: FlowId, kind: Kind)
    ensures Total(ledger + [r], f, kind) == Total(ledger, f, kind) + Part(r, f, kind)
  {
    if ledger == [] {
      assert ledger + [r] == [r];
    } else {
      assert (ledger + [r])[1..] == ledger[1..] + [r];
      TotalAppend(ledger[1..], r, f, kind);
    }
  }

  lemma {:induction false} TotalUpdate(ledger: seq<Request>, i: nat, r: Request, f: FlowId, kind: Kind)
    requires i < |ledger|
    ensures Total(ledger[i := r], f, kind) == Total(ledger, f, kind) - Part(ledger[i], f, kind) + Part(r, f, kind)
  {
    if i == 0 {
      assert ledger[0 := r][1..] == ledger[1..];
    } else {
      assert ledger[i := r][1..] == ledger[1..][i - 1 := r];
      TotalUpdate(ledger[1..], i - 1, r, f, kind);
    }
  }

  /** Each flow's credit is minus the sum of its requests' charges. */
  ghost predicate Balanced(b: Books) {
    forall f :: CreditIn(b, f) == -Total(b.ledger, f, Charged)
  }

  lemma BalancedStep(b: Books, step: Step)
    requires Balanced(b) && Enabled(b, step)
    ensures Balanced(Apply(b, step))
  {
    var c := Apply(b, step);
    forall f ensures CreditIn(c, f) == -Total(c.ledger, f, Charged) {
      match step
      case Select(g, est) => TotalAppend(b.ledger, Request(g, est, 0, false, Selected), f, Charged);
      case Open(i) => TotalUpdate(b.ledger, i, c.ledger[i], f, Charged);
      case Deliver(i, n) => TotalUpdate(b.ledger, i, c.ledger[i], f, Charged);
      case Complete(i) => TotalUpdate(b.ledger, i, c.ledger[i], f, Charged);
      case Close(i) => TotalUpdate(b.ledger, i, c.ledger[i], f, Charged);
    }
  }

  /** The tracker's entry for `f` is the exact sum over its live guards, absent when there are none. */
  predicate ExactFor(b: Books, f: FlowId) {
    && (f in b.progress <==> Total(b.ledger, f, LiveCount) > 0)
    && (f in b.progress ==>
          b.progress[f] == Progress(Total(b.ledger, f, LiveEstimate), Total(b.ledger, f, LiveDelivered)))
  }

  ghost predicate Exact(b: Books) {
    forall f :: ExactFor(b, f)
  }

  lemma {:induction false} LiveTotals(ledger: seq<Request>, f: FlowId)
    ensures Total(ledger, f, LiveCount) >= 0
    ensures Total(ledger, f, LiveCount) == 0 ==> Total(ledger, f, LiveEstimate) == 0 == Total(ledger, f, LiveDelivered)
    ensures (forall r :: r in ledger ==> r.estimate >= 1) ==> Total(ledger, f, LiveEstimate) >= Total(ledger, f, LiveCount)
  {
    if ledger != [] {
      assert forall r :: r in ledger[1..] ==> r in ledger;
      LiveTotals(ledger[1..], f);
    }
  }

  lemma {:induction false} LiveMember(ledger: seq<Request>, i: nat)
    requires i < |ledger| && ledger[i].stage == Live
    ensures Total(ledger, ledger[i].flow, LiveCount) >= 1
  {
    LiveTotals(ledger[1..], ledger[i].flow);
    if i > 0 { LiveMember(ledger[1..], i - 1); }
  }

  /** A request whose guard does not exist yet has delivered nothing. */
  predicate SelectedUntouched(b: Books) {
    forall i :: 0 <= i < |b.ledger| && b.ledger[i].stage == Selected ==> b.ledger[i].delivered == 0
  }

  lemma UpdateTotals(b: Books, i: nat, r: Request, f: FlowId)
    requires i < |b.ledger|
    ensures forall kind ::
      Total(b.ledger[i := r], f, kind) == Total(b.ledger, f, kind) - Part(b.ledger[i], f, kind) + Part(r, f, kind)
  {
    forall kind ensures Total(b.ledger[i := r], f, kind)
      == Total(b.ledger, f, kind) - Part(b.ledger[i], f, kind) + Part(r, f, kind)
    {
      TotalUpdate(b.ledger, i, r, f, kind);
    }
  }

  /** Everything but a dropped guard keeps the tracker exact, whatever the estimates. */
  lemma ExactUntilClose(b: Books, step: Step)
    requires Exact(b) && SelectedUntouched(b) && Enabled(b, step) && !step.Close?
    ensures Exact(Apply(b, step)) && SelectedUntouched(Apply(b, step))
  {
    var c := Apply(b, step);
    forall f ensures ExactFor(c, f) {
      assert ExactFor(b, f);
      LiveTotals(b.ledger, f);
      if step.Select? {
        forall kind ensures Total(c.ledger, f, kind)
          == Total(b.ledger, f, kind) + Part(Request(step.flow, step.estimate, 0, false, Selected), f, kind)
        {
          TotalAppend(b.ledger, Request(step.flow, step.estimate, 0, false, Selected), f, kind);
        }
      } else {
        UpdateTotals(b, step.i, c.ledger[step.i], f);
        if step.Deliver? { LiveMember(b.ledger, step.i); }
      }
    }
  }

  /** The flow has another live guard, yet its sums without `r` are both 0. */
  predicate ErasesSibling(b: Books, r: Request) {
    && Total(b.ledger, r.flow, LiveCount) > 1
    && Total(b.ledger, r.flow, LiveEstimate) == r.estimate
    && Total(b.ledger, r.flow, LiveDelivered) == r.delivered
  }

  /** Dropping a guard removes the entry when both sums reach 0. So the tracker stays exact if and
      only if the flow has no other live guard or its remaining sums are not both 0. */
  lemma ExactAfterCloseIff(b: Books, i: nat)
    requires Exact(b) && Enabled(b, Close(i))
    ensures var r := b.ledger[i];
      Exact(Apply(b, Close(i))) <==> !ErasesSibling(b, r)
  {
    var r, c := b.ledger[i], Apply(b, Close(i));
    LiveMember(b.ledger, i);
    assert ExactFor(b, r.flow);
    UpdateTotals(b, i, c.ledger[i], r.flow);
    LiveTotals(c.ledger, r.flow);
    forall f | f != r.flow ensures ExactFor(c, f) {
      assert ExactFor(b, f);
      UpdateTotals(b, i, c.ledger[i], f);
    }
    assert ExactFor(c, r.flow) <==> !ErasesSibling(b, r);
  }

  function Run(b: Books, steps: seq<Step>): Books
    requires Legal(b, steps)
    decreases |steps|
  {
    if steps == [] then b else Run(Apply(b, steps[0]), steps[1..])
  }

  predicate Legal(b: Books, steps: seq<Step>)
    decreases |steps|
  {
    steps != [] ==> Enabled(b, steps[0]) && Legal(Apply(b, steps[0]), steps[1..])
  }

  const NO_BOOKS := Books(map[], [], map[])

  lemma {:induction false} BalancedRun(b: Books, steps: seq<Step>)
    requires Balanced(b) && Legal(b, steps)
    ensures Balanced(Run(b, steps))
    decreases |steps|
  {
    if steps != [] {
      BalancedStep(b, steps[0]);
      BalancedRun(Apply(b, steps[0]), steps[1..]);
    }
  }

  predicate EstimatesPositive(ledger: seq<Request>) {
    forall i :: 0 <= i < |ledger| ==> ledger[i].estimate >= 1
  }

  lemma ExactStep(b: Books, step: Step)
    requires Exact(b) && SelectedUntouched(b) && EstimatesPositive(b.ledger) && Enabled(b, step)
    ensures Exact(Apply(b, step)) && SelectedUntouched(Apply(b, step))
  {
    if step.Close? {
      var r, c := b.ledger[step.i], Apply(b, step);
      ExactAfterCloseIff(b, step.i);
      UpdateTotals(b, step.i, c.ledger[step.i], r.flow);
      assert forall q :: q in c.ledger ==> q.estimate >= 1;
      LiveTotals(c.ledger, r.flow);
      assert ExactFor(b, r.flow);
    } else {
      ExactUntilClose(b, step);
    }
  }

  lemma {:induction false} ExactRun(b: Books, steps: seq<Step>)
    requires Exact(b) && SelectedUntouched(b) && EstimatesPositive(b.ledger) && Legal(b, steps)
    requires forall i :: 0 <= i < |steps| && steps[i].Select? ==> steps[i].estimate >= 1
    ensures Exact(Run(b, steps))
    decreases |steps|
  {
    if steps != [] {
      ExactStep(b, steps[0]);
      ExactRun(Apply(b, steps[0]), steps[1..]);
    }
  }

  /** With estimates of at least 1, on every run the tracker holds for each flow exactly the sums
      over its live guards, and no entry for a flow without one. */
  lemma TrackerIsExact(steps: seq<Step>)
    requires Legal(NO_BOOKS, steps)
    requires forall i :: 0 <= i < |steps| && steps[i].Select? ==> steps[i].estimate >= 1
    ensures Exact(Run(NO_BOOKS, steps))
  {
    assert Exact(NO_BOOKS) && SelectedUntouched(NO_BOOKS) && EstimatesPositive(NO_BOOKS.ledger);
    ExactRun(NO_BOOKS, steps);
  }

  /** An estimate of 0 (a request with `max_tokens` below 1) breaks exactness: with two such guards
      live, dropping one erases the entry while the other is still live. */
  lemma ZeroEstimateErasesEntry(f: FlowId)
    ensures var steps := [Select(f, 0), Select(f, 0), Open(0), Open(1), Close(0)];
      Legal(NO_BOOKS, steps) && !Exact(Run(NO_BOOKS, steps)) && f !in Run(NO_BOOKS, steps).progress
  {
    var b2 := Apply(Apply(NO_BOOKS, Select(f, 0)), Select(f, 0));
    var idle := Request(f, 0, 0, false, Selected);
    assert b2.ledger == [idle, idle];
    var b4 := Apply(Apply(b2, Open(0)), Open(1));
    assert b4.ledger == [idle.(stage := Live), idle.(stage := Live)] && b4.progress == map[f := Progress(0, 0)];
    var b5 := Apply(b4, Close(0));
    assert b5.ledger == [idle.(stage := Closed), idle.(stage := Live)];
    LiveMember(b5.ledger, 1);
    assert !ExactFor(b5, f);
    RunStep(NO_BOOKS, [Select(f, 0), Select(f, 0), Open(0), Open(1), Close(0)]);
    RunStep(Apply(NO_BOOKS, Select(f, 0)), [Select(f, 0), Open(0), Open(1), Close(0)]);
    RunStep(b2, [Open(0), Open(1), Close(0)]);
    RunStep(Apply(b2, Open(0)), [Open(1), Close(0)]);
    RunStep(b4, [Close(0)]);
  }

  lemma RunStep(b: Books, steps: seq<Step>)
    requires steps != []
    ensures Legal(b, steps) <==> Enabled(b, steps[0]) && Legal(Apply(b, steps[0]), steps[1..])
    ensures Legal(b, steps) ==> Run(b, steps) == Run(Apply(b, steps[0]), steps[1..])
  {}
}
