/** The scheduler's own credit over whole runs. A run of the scheduler whose reports are made by dropped
    lifecycle guards keeps the books of `Accounting` along the way, so the law of charges holds of it. */
module Credit {
  import opened Flows
  import opened Drr
  import opened Fairness
  import A = Accounting
  import Admission

  // ----- Debits and reports over a run -----

  /** The cost of the selections of `f`, forced or not. */
  function Debited(s: Sched, ops: seq<Op>, f: FlowId): int
    decreases |ops|
  {
    if ops == [] then 0 else DebitOf(s, ops[0], f) + Debited(Do(s, ops[0]), ops[1..], f)
  }

  function DebitOf(s: Sched, op: Op, f: FlowId): int {
    match PickOf(s, op)
    case Some(p) => if p.flow == f then p.pending.cost else 0
    case None => 0
  }

  /** What was reported back for `f`. */
  function Reported(ops: seq<Op>, f: FlowId): int {
    if ops == [] then 0
    else (if ops[0].Report? && ops[0].flow == f then ops[0].amount else 0) + Reported(ops[1..], f)
  }

  /** A round, forced or not, debits exactly its pick; no other credit changes. */
  lemma RoundDebitsItsPick(s: Sched, env: Env, cap: int, f: FlowId)
    ensures CreditOf(Round(s, env, cap).next, f) == CreditOf(s, f) - DebitOf(s, Op.Select(env, cap), f)
  {
    hide CreditedUpTo, Candidates, AnyCredited, Without;
  }

  lemma CreditOfOneOp(s: Sched, op: Op, f: FlowId)
    ensures CreditOf(Do(s, op), f)
         == CreditOf(s, f) - DebitOf(s, op, f) + (if op.Report? && op.flow == f then op.amount else 0)
  {
    hide Round;
    if op.Select? { RoundDebitsItsPick(s, op.env, op.cap, f); }
  }

  /** On every run a flow's credit is its start value, minus the costs of its selections, plus what was
      reported for it: nothing else ever moves it. */
  lemma {:induction false} CreditOverRuns(s: Sched, ops: seq<Op>, f: FlowId)
    ensures CreditOf(Exec(s, ops), f) == CreditOf(s, f) - Debited(s, ops, f) + Reported(ops, f)
    decreases |ops|
  {
    hide Do, CreditOf, DebitOf;
    if ops != [] {
      CreditOfOneOp(s, ops[0], f);
      CreditOverRuns(Do(s, ops[0]), ops[1..], f);
    }
  }

  // ----- Runs whose reports come from guards -----

  /** A scheduler action other than a report, or something that happens to a selected request: its guard is
      opened, counts tokens, is marked completed, or is dropped and reports. */
  datatype Event = Action(op: Op) | Guard(step: A.Step)

  datatype Joint = Joint(sched: Sched, books: A.Books)

  predicate Possible(j: Joint, e: Event) {
    match e
    case Action(op) => !op.Report?
    case Guard(step) => !step.Select? && A.Enabled(j.books, step)
  }

  /** The step in the books: a round that picks enters its request; a guard event is itself. */
  function BookStep(s: Sched, e: Event): Option<A.Step> {
    match e
    case Action(op) =>
      (match PickOf(s, op)
       case Some(p) => Some(A.Select(p.flow, p.pending.cost))
       case None => None)
    case Guard(step) => Some(step)
  }

  /** The action on the scheduler: a dropped guard reports its restore cost. */
  function SchedulerOp(b: A.Books, e: Event): Option<Op> {
    match e
    case Action(op) => Some(op)
    case Guard(Close(i)) =>
      if i < |b.ledger| then
        var r := b.ledger[i];
        Some(Report(r.flow, A.RestoreCost(r.estimate, r.delivered, r.completed)))
      else None
    case _ => None
  }

  function Next(j: Joint, e: Event): Joint
    requires Possible(j, e)
  {
    Joint(
      match SchedulerOp(j.books, e) { case Some(op) => Do(j.sched, op) case None => j.sched },
      match BookStep(j.sched, e) { case Some(step) => A.Apply(j.books, step) case None => j.books })
  }

  ghost predicate Legal(j: Joint, events: seq<Event>)
    decreases |events|
  {
    events != [] ==> Possible(j, events[0]) && Legal(Next(j, events[0]), events[1..])
  }

  ghost function Run(j: Joint, events: seq<Event>): Joint
    requires Legal(j, events)
    decreases |events|
  {
    if events == [] then j else Run(Next(j, events[0]), events[1..])
  }

  ghost function SchedulerOps(j: Joint, events: seq<Event>): seq<Op>
    requires Legal(j, events)
    decreases |events|
  {
    if events == [] then []
    else
      var rest := SchedulerOps(Next(j, events[0]), events[1..]);
      match SchedulerOp(j.books, events[0])
      case Some(op) => [op] + rest
      case None => rest
  }

  ghost function BookSteps(j: Joint, events: seq<Event>): seq<A.Step>
    requires Legal(j, events)
    decreases |events|
  {
    if events == [] then []
    else
      var rest := BookSteps(Next(j, events[0]), events[1..]);
      match BookStep(j.sched, events[0])
      case Some(step) => [step] + rest
      case None => rest
  }

  /** The scheduler half of a joint run is a run of the scheduler. */
  lemma {:induction false} SchedulerHalf(j: Joint, events: seq<Event>)
    requires Legal(j, events)
    ensures Run(j, events).sched == Exec(j.sched, SchedulerOps(j, events))
    decreases |events|
  {
    hide Do, SchedulerOp, BookStep, Possible;
    if events != [] {
      SchedulerHalf(Next(j, events[0]), events[1..]);
      var rest := SchedulerOps(Next(j, events[0]), events[1..]);
      if SchedulerOp(j.books, events[0]).Some? {
        assert ([SchedulerOp(j.books, events[0]).value] + rest)[1..] == rest;
      }
    }
  }

  /** The other half is a run of the books. */
  lemma {:induction false} BooksHalf(j: Joint, events: seq<Event>)
    requires Legal(j, events)
    ensures A.Legal(j.books, BookSteps(j, events)) && Run(j, events).books == A.Run(j.books, BookSteps(j, events))
    decreases |events|
  {
    hide Do, SchedulerOp, A.Apply;
    if events != [] {
      BooksHalf(Next(j, events[0]), events[1..]);
      var rest := BookSteps(Next(j, events[0]), events[1..]);
      if BookStep(j.sched, events[0]).Some? {
        var step := BookStep(j.sched, events[0]).value;
        assert ([step] + rest)[1..] == rest;
        A.RunStep(j.books, [step] + rest);
      }
    }
  }

  ghost predicate SameCredit(j: Joint) {
    forall f :: CreditOf(j.sched, f) == A.CreditIn(j.books, f)
  }

  lemma NextKeepsSameCredit(j: Joint, e: Event)
    requires SameCredit(j) && Possible(j, e)
    ensures SameCredit(Next(j, e))
  {
    hide Do, Round, CreditOf;
    forall f ensures CreditOf(Next(j, e).sched, f) == A.CreditIn(Next(j, e).books, f) {
      var op := SchedulerOp(j.books, e);
      if op.Some? { CreditOfOneOp(j.sched, op.value, f); }
    }
  }

  lemma {:induction false} CreditsAgree(j: Joint, events: seq<Event>)
    requires SameCredit(j) && Legal(j, events)
    ensures SameCredit(Run(j, events))
    decreases |events|
  {
    hide Next, SameCredit;
    if events != [] {
      NextKeepsSameCredit(j, events[0]);
      CreditsAgree(Next(j, events[0]), events[1..]);
    }
  }

  /** On every run of the scheduler whose reports come from dropped guards, each flow's credit is minus the
      sum of its requests' charges: the estimate while outstanding or never delivered to a guard; then the
      delivered tokens, or the full estimate for a completion without usage data. */
  lemma CreditIsMinusCharges(permits: nat, events: seq<Event>, f: FlowId)
    requires Legal(Joint(Init(permits), A.NO_BOOKS), events)
    ensures var end := Run(Joint(Init(permits), A.NO_BOOKS), events);
      && CreditOf(end.sched, f) == -A.Total(end.books.ledger, f, A.Charged)
      && end.sched == Exec(Init(permits), SchedulerOps(Joint(Init(permits), A.NO_BOOKS), events))
  {
    hide Legal, Run, SchedulerOps, BookSteps, A.Run, A.Legal;
    var start := Joint(Init(permits), A.NO_BOOKS);
    CreditsAgree(start, events);
    BooksHalf(start, events);
    A.BalancedRun(A.NO_BOOKS, BookSteps(start, events));
    SchedulerHalf(start, events);
  }

  /** The same of every run of the whole admission system whose scheduler actions are those of the joint
      run. */
  lemma SystemCreditIsMinusCharges(permits: nat, cap: int, steps: seq<Admission.Step>, events: seq<Event>, f: FlowId)
    requires Legal(Joint(Init(permits), A.NO_BOOKS), events)
    requires Admission.Ops(Admission.Start(permits, cap), steps) == SchedulerOps(Joint(Init(permits), A.NO_BOOKS), events)
    ensures CreditOf(Admission.Run(Admission.Start(permits, cap), steps).sched, f)
         == -A.Total(Run(Joint(Init(permits), A.NO_BOOKS), events).books.ledger, f, A.Charged)
  {
    hide Legal, Run, SchedulerOps, Admission.Run, Admission.Ops;
    CreditIsMinusCharges(permits, events, f);
    Admission.RunProjects(Admission.Start(permits, cap), steps);
  }
}
