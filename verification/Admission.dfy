/** The scheduler and everyone who touches it, as one transition system: requests arriving,
    enqueueing, hanging up and dropping guards or tickets, backend pressure changing, and the
    admission loop, interleaved at every lock, notify and await. */
module Admission {
  import opened Flows
  import opened Drr
  import opened Fairness
  import opened PressureCap

  /** A live `DrrAdmitGuard`; `id` is set once its request is queued. */
  datatype Guard = Guard(flow: FlowId, id: Option<nat>)

  datatype Phase = InHand | Sent | Received

  /** An armed `QueueTicket`. */
  datatype Ticket = Ticket(flow: FlowId, phase: Phase)

  /** Where the admission loop stands. */
  datatype Pc = Parked | Top | HaveCap(cap: int) | Selecting(cap: int) | Delivering(id: nat)

  /** The live guards, the per-flow depth counters and the reporting queue. */
  datatype Desk = Desk(guards: map<nat, Guard>, nextGuard: nat, depth: map<FlowId, int>, report: seq<FlowId>)

  /** `listening`: pending ids whose oneshot receiver is alive. */
  datatype Wires = Wires(listening: set<nat>, tickets: map<nat, Ticket>)

  /** `stamping`: enqueuers that still have to write `enqueued_at`. `notifying`: tasks about to call
      `notify_one`. `stored`: the permit held by `Notify`. `unseen`: the loop's watch receiver has a
      snapshot it has not seen. `cap`: the effective cap at the current pressure. */
  datatype Signals = Signals(
    stamping: map<nat, (FlowId, int)>, notifying: nat, stored: bool,
    unseen: bool, senderAlive: bool, monitorAlive: bool, cap: int)

  datatype Sys = Sys(sched: Sched, desk: Desk, wires: Wires, signals: Signals, pc: Pc)

  datatype Step =
    | Arrive(flow: FlowId)
    | EnqueueRequest(guard: nat, cost: int, at: int)
    | WriteStamp(id: nat)
    | Notify
    | WakeNotified
    | WakeSnapshot
    | WakeClosed
    | ReadCap
    | CheckCap
    | TrySelect(env: Env)
    | Deliver
    | Receive(guard: nat)
    | HangUp(guard: nat)
    | DropGuard(guard: nat)
    | DropTicket(id: nat)
    | ChangePressure(cap: int)
    | DropSender
    | ReportAccounting(flow: FlowId, amount: int)

  function Start(permits: nat, cap: int): Sys {
    Sys(Init(permits), Desk(map[], 0, map[], []), Wires({}, map[]),
        Signals(map[], 0, false, false, true, true, cap), Parked)
  }

  function DepthOf(d: Desk, f: FlowId): int {
    if f in d.depth then d.depth[f] else 0
  }

  function IdOf(d: Desk, g: nat): Option<nat> {
    if g in d.guards then d.guards[g].id else None
  }

  predicate TicketIs(w: Wires, id: nat, phase: Phase) {
    id in w.tickets && w.tickets[id].phase == phase
  }

  /** `weight` is the fixed weight of every flow. */
  ghost predicate Enabled(s: Sys, step: Step, weight: FlowId -> int) {
    match step
    case Arrive(_) => true
    case EnqueueRequest(g, _, _) => g in s.desk.guards && s.desk.guards[g].id == None
    case WriteStamp(id) => id in s.signals.stamping
    case Notify => s.signals.notifying > 0
    case WakeNotified => s.pc == Parked && s.signals.stored
    case WakeSnapshot => s.pc == Parked && s.signals.monitorAlive && s.signals.unseen
    case WakeClosed => s.pc == Parked && s.signals.monitorAlive && !s.signals.unseen && !s.signals.senderAlive
    case ReadCap => s.pc == Top
    case CheckCap => s.pc.HaveCap?
    case TrySelect(env) => s.pc.Selecting? && forall f :: env.weight(f) == weight(f)
    case Deliver => s.pc.Delivering?
    case Receive(g) => AwaitedBy(s, g) && TicketIs(s.wires, IdOf(s.desk, g).value, Sent)
    case HangUp(g) => AwaitedBy(s, g) && IdOf(s.desk, g).value !in s.signals.stamping
    case DropGuard(g) => g in s.desk.guards && !AwaitedBy(s, g)
    case DropTicket(id) => TicketIs(s.wires, id, Received)
    case ChangePressure(cap) => s.signals.senderAlive && cap <= s.sched.maxPermits
    case DropSender => s.signals.senderAlive
    case ReportAccounting(_, _) => true
  }

  /** The guard's request is queued and its receiver is still alive. */
  predicate AwaitedBy(s: Sys, g: nat) {
    IdOf(s.desk, g).Some? && IdOf(s.desk, g).value in s.wires.listening
  }

  // ----- What each step does to each part -----

  /** The action on the scheduler state, if any. */
  function SchedOp(s: Sys, step: Step): Option<Op> {
    match step
    case EnqueueRequest(g, cost, at) =>
      if g in s.desk.guards then Some(Op.Enqueue(s.desk.guards[g].flow, cost, at)) else None
    case WriteStamp(id) =>
      if id in s.signals.stamping then Some(Op.Stamp(s.signals.stamping[id].0, s.signals.stamping[id].1)) else None
    case TrySelect(env) => if s.pc.Selecting? then Some(Op.Select(env, s.pc.cap)) else None
    case Deliver => if s.pc.Delivering? && s.pc.id !in s.wires.listening then Some(Op.Release) else None
    case HangUp(g) =>
      if IdOf(s.desk, g).Some? && TicketIs(s.wires, IdOf(s.desk, g).value, Sent) then Some(Op.Release) else None
    case DropGuard(g) =>
      if g in s.desk.guards then Some(Op.Drop(s.desk.guards[g].flow, s.desk.guards[g].id)) else None
    case DropTicket(_) => Some(Op.Release)
    case ReportAccounting(f, amount) => Some(Op.Report(f, amount))
    case _ => None
  }

  function NextSched(s: Sys, step: Step): Sched {
    match SchedOp(s, step)
    case Some(op) => Do(s.sched, op)
    case None => s.sched
  }

  /** The request a selection round picks. */
  function Picked(s: Sys, step: Step): Option<Pick> {
    if step.TrySelect? && s.pc.Selecting? then Round(s.sched, step.env, s.pc.cap).pick else None
  }

  function NextDesk(d: Desk, step: Step, nextId: nat): Desk {
    match step
    case Arrive(f) =>
      Desk(d.guards[d.nextGuard := Guard(f, None)], d.nextGuard + 1, d.depth[f := DepthOf(d, f) + 1], d.report + [f])
    case EnqueueRequest(g, _, _) =>
      if g in d.guards then d.(guards := d.guards[g := Guard(d.guards[g].flow, Some(nextId))]) else d
    case Receive(g) => RetireGuard(d, g)
    case DropGuard(g) => RetireGuard(d, g)
    case _ => d
  }

  /** A guard goes away, consumed or dropped: depth and reporting queue each lose one entry. */
  function RetireGuard(d: Desk, g: nat): Desk {
    if g !in d.guards then d
    else
      var f := d.guards[g].flow;
      Desk(d.guards - {g}, d.nextGuard, d.depth[f := DepthOf(d, f) - 1], RemoveFirst(d.report, f))
  }

  /** `remove_from_queue`: the first occurrence goes. */
  function RemoveFirst(q: seq<FlowId>, f: FlowId): seq<FlowId> {
    if q == [] then [] else if q[0] == f then q[1..] else [q[0]] + RemoveFirst(q[1..], f)
  }

  function SetPhase(w: Wires, id: nat, phase: Phase): Wires {
    if id in w.tickets then w.(tickets := w.tickets[id := w.tickets[id].(phase := phase)]) else w
  }

  function NextWires(s: Sys, step: Step): Wires {
    var w := s.wires;
    match step
    case EnqueueRequest(_, _, _) => w.(listening := w.listening + {s.sched.nextId})
    case TrySelect(_) =>
      (match Picked(s, step)
       case Some(p) => w.(tickets := w.tickets[p.pending.id := Ticket(p.flow, InHand)])
       case None => w)
    case Deliver =>
      if !s.pc.Delivering? then w
      else if s.pc.id in w.listening then SetPhase(w, s.pc.id, Sent)
      else w.(tickets := w.tickets - {s.pc.id})
    case Receive(g) =>
      if IdOf(s.desk, g).None? then w
      else SetPhase(w, IdOf(s.desk, g).value, Received).(listening := w.listening - {IdOf(s.desk, g).value})
    case HangUp(g) =>
      if IdOf(s.desk, g).None? then w
      else
        var id := IdOf(s.desk, g).value;
        Wires(w.listening - {id}, if TicketIs(w, id, Sent) then w.tickets - {id} else w.tickets)
    case DropTicket(id) => w.(tickets := w.tickets - {id})
    case _ => w
  }

  function NextSignals(s: Sys, step: Step): Signals {
    var n := s.signals;
    match step
    case EnqueueRequest(g, _, at) =>
      if g in s.desk.guards then n.(stamping := n.stamping[s.sched.nextId := (s.desk.guards[g].flow, at)]) else n
    case WriteStamp(id) => n.(stamping := n.stamping - {id}, notifying := n.notifying + 1)
    case Notify => if n.notifying > 0 then n.(notifying := n.notifying - 1, stored := true) else n
    case WakeNotified => n.(stored := false)
    case WakeSnapshot => n.(unseen := false)
    case WakeClosed => n.(monitorAlive := false)
    case Deliver => if SchedOp(s, step).Some? then n.(stored := true) else n
    case HangUp(_) => if SchedOp(s, step).Some? then n.(notifying := n.notifying + 1) else n
    case DropTicket(_) => n.(notifying := n.notifying + 1)
    case ChangePressure(cap) => n.(cap := cap, unseen := true)
    case DropSender => n.(senderAlive := false)
    case _ => n
  }

  function NextPc(s: Sys, step: Step): Pc {
    match step
    case WakeNotified => Top
    case WakeSnapshot => Top
    case WakeClosed => Top
    case ReadCap => HaveCap(s.signals.cap)
    case CheckCap =>
      if !s.pc.HaveCap? then s.pc
      else if Active(s.sched) >= s.pc.cap || s.sched.cursor == [] then Parked
      else Selecting(s.pc.cap)
    case TrySelect(env) =>
      if !s.pc.Selecting? then s.pc
      else
        (match Picked(s, step)
         case Some(p) => Delivering(p.pending.id)
         case None => if Round(s.sched, env, s.pc.cap).progressed then Top else Parked)
    case Deliver => Top
    case _ => s.pc
  }

  function Apply(s: Sys, step: Step): Sys {
    Sys(NextSched(s, step), NextDesk(s.desk, step, s.sched.nextId), NextWires(s, step), NextSignals(s, step),
        NextPc(s, step))
  }

  // ----- Invariants -----

  /** Every permit is either in the pool or held by exactly one live armed ticket. */
  ghost predicate PermitsConserved(s: Sys) {
    && s.sched.available + |s.wires.tickets| == s.sched.maxPermits
    && 0 <= s.sched.available
    && s.signals.cap <= s.sched.maxPermits
    && (s.pc.HaveCap? || s.pc.Selecting? ==> s.pc.cap <= s.sched.maxPermits)
  }

  /** A permit could be granted now: below the cap, with a waiting flow that earns credit. */
  ghost predicate WorkReady(sched: Sched, cap: int, weight: FlowId -> int) {
    Active(sched) < cap && exists f :: f in sched.waiting && weight(f) > 0
  }

  /** Somebody still owes the loop a wakeup. */
  predicate WakeupDue(n: Signals) {
    n.stored || n.unseen || n.notifying > 0 || n.stamping != map[]
  }

  ghost predicate WakeupsKept(s: Sys, weight: FlowId -> int) {
    && (s.pc == Parked && WorkReady(s.sched, s.signals.cap, weight) ==> WakeupDue(s.signals))
    && (s.pc.HaveCap? || s.pc.Selecting? ==> s.pc.cap == s.signals.cap || s.signals.unseen)
    && (s.signals.unseen || s.signals.senderAlive ==> s.signals.monitorAlive)
  }

  /** `g` is the live guard of request `id` of flow `f`. */
  predicate Owns(d: Desk, g: nat, f: FlowId, id: nat) {
    g in d.guards && d.guards[g] == Guard(f, Some(id))
  }

  ghost predicate HasOwner(d: Desk, f: FlowId, id: nat) {
    exists g :: Owns(d, g, f, id)
  }

  /** Guards carry distinct, already issued ids. */
  ghost predicate GuardsDistinct(d: Desk, nextId: nat) {
    && (forall g :: g in d.guards ==> g < d.nextGuard)
    && (forall g: nat, f, id: nat :: Owns(d, g, f, id) ==> id < nextId)
    && (forall g: nat, h: nat, f, e, id: nat :: Owns(d, g, f, id) && Owns(d, h, e, id) ==> g == h)
  }

  /** Every queued entry belongs to a live guard of its flow. */
  ghost predicate QueuedOwned(sched: Sched, d: Desk) {
    forall f, id: nat :: Has(sched, f, id) ==> HasOwner(d, f, id)
  }

  /** A ticket's id was issued and is no longer queued; the one in hand is the loop's. */
  ghost predicate TicketsAccounted(sched: Sched, w: Wires, pc: Pc) {
    && (forall id: nat :: id in w.tickets ==> id < sched.nextId && !Pends(sched, id))
    && (forall id: nat :: TicketIs(w, id, InHand) <==> pc == Delivering(id))
  }

  ghost predicate Pends(s: Sched, id: nat) {
    exists f :: Has(s, f, id)
  }

  /** A live receiver's request is queued, or its ticket is on the way; a sent ticket has a live
      receiver. */
  ghost predicate ReceiversAccounted(sched: Sched, w: Wires) {
    && (forall id: nat :: id in w.listening ==>
          id < sched.nextId && (Pends(sched, id) || TicketIs(w, id, InHand) || TicketIs(w, id, Sent)))
    && (forall id: nat :: TicketIs(w, id, Sent) ==> id in w.listening)
  }

  /** The live guards of `f`. */
  function GuardsOf(d: Desk, f: FlowId): set<nat> {
    set g | g in d.guards && d.guards[g].flow == f
  }

  /** A flow's depth is its number of live guards and its multiplicity in the reporting queue. */
  ghost predicate WaitersConserved(d: Desk) {
    forall f :: DepthOf(d, f) == |GuardsOf(d, f)| == multiset(d.report)[f]
  }

  ghost predicate Inv(s: Sys, weight: FlowId -> int) {
    && Valid(s.sched) && PermitsConserved(s) && WakeupsKept(s, weight)
    && GuardsDistinct(s.desk, s.sched.nextId) && QueuedOwned(s.sched, s.desk)
    && TicketsAccounted(s.sched, s.wires, s.pc) && ReceiversAccounted(s.sched, s.wires)
    && WaitersConserved(s.desk)
  }

  // ----- What each scheduler action does to queues and permits -----

  lemma RoundFacts(s: Sched, env: Env, cap: int)
    requires Valid(s)
    ensures var r := Round(s, env, cap);
      && r.next.nextId == s.nextId && r.next.maxPermits == s.maxPermits
      && (r.pick.None? ==> r.next.available == s.available && r.next.waiting == s.waiting)
      && (r.pick.Some? ==>
            && r.next.available == s.available - 1 && Active(s) < cap
            && Has(s, r.pick.value.flow, r.pick.value.pending.id))
  {
    var r := Round(s, env, cap);
    if r.pick.Some? {
      var f := r.pick.value.flow;
      assert s.waiting[f][0].id == r.pick.value.pending.id;
    }
  }

  /** A round unqueues exactly the request it picks. */
  lemma RoundUnqueuesItsPick(s: Sched, env: Env, cap: int)
    requires Valid(s)
    ensures var r := Round(s, env, cap);
      forall f, id: nat :: Has(r.next, f, id) <==>
        Has(s, f, id) && !(r.pick.Some? && f == r.pick.value.flow && id == r.pick.value.pending.id)
  {
    var r := Round(s, env, cap);
    if r.pick.Some? {
      var f := r.pick.value.flow;
      var from := if r.pick.value.forced then s else ReadyToServe(s, env, f);
      assert Valid(from) by { ReadyToServeValid(s, env, f); }
      assert r.next == Take(from, f);
      TakeHas(from, f);
      assert forall g, id: nat :: Has(from, g, id) <==> Has(s, g, id);
    } else {
      assert forall g, id: nat :: Has(r.next, g, id) <==> Has(s, g, id);
    }
  }

  /** A round that neither picks nor credits left no creditable flow behind. */
  lemma IdleRoundHadNoWork(s: Sched, env: Env, cap: int)
    requires Valid(s) && Active(s) < cap && Round(s, env, cap).pick.None? && !Round(s, env, cap).progressed
    ensures forall f :: f in s.waiting ==> env.weight(f) <= 0
  {
    forall f | f in s.waiting ensures env.weight(f) <= 0 {
      assert f in s.cursor;
      var i := IndexOf(s.cursor, f);
      assert !Creditable(s, env, s.cursor[i]);
    }
  }

  /** The permits a step returns to the pool (or, selecting, takes from it). */
  function PermitsReturned(s: Sys, step: Step): int {
    if Picked(s, step).Some? then -1
    else if SchedOp(s, step).Some? && SchedOp(s, step).value.Release? then 1
    else 0
  }

  lemma SchedCounters(s: Sys, step: Step)
    requires Valid(s.sched)
    ensures var t := NextSched(s, step);
      && t.available == s.sched.available + PermitsReturned(s, step)
      && t.maxPermits == s.sched.maxPermits
      && t.nextId == s.sched.nextId + (if SchedOp(s, step).Some? && SchedOp(s, step).value.Enqueue? then 1 else 0)
  {
    hide Valid, Round;
    match SchedOp(s, step)
    case Some(Select(env, cap)) => RoundFacts(s.sched, env, cap);
    case _ =>
  }

  // ----- Permits -----

  lemma MapGains<T>(m: map<nat, T>, k: nat, v: T)
    ensures |m[k := v]| == |m| + (if k in m then 0 else 1)
  {
    assert m[k := v].Keys == m.Keys + {k};
  }

  lemma MapLoses<T>(m: map<nat, T>, k: nat)
    ensures |m - {k}| == |m| - (if k in m then 1 else 0)
  {
    assert (m - {k}).Keys == m.Keys - {k};
  }

  lemma PhaseKeepsCount(w: Wires, id: nat, phase: Phase)
    ensures |SetPhase(w, id, phase).tickets| == |w.tickets|
  {
    if id in w.tickets { MapGains(w.tickets, id, w.tickets[id].(phase := phase)); }
  }

  /** The picked request had no ticket yet; the request being delivered has one. */
  lemma TicketTouched(s: Sys, step: Step)
    requires Valid(s.sched) && TicketsAccounted(s.sched, s.wires, s.pc)
    ensures s.pc.Delivering? ==> s.pc.id in s.wires.tickets
    ensures Picked(s, step).Some? ==> Picked(s, step).value.pending.id !in s.wires.tickets
    ensures Picked(s, step).Some? ==> s.pc.Selecting? && Active(s.sched) < s.pc.cap
  {
    hide Round, Valid;
    if s.pc.Delivering? { assert TicketIs(s.wires, s.pc.id, InHand); }
    if Picked(s, step).Some? { RoundFacts(s.sched, step.env, s.pc.cap); }
  }

  predicate TicketsBalance(s: Sys, step: Step) {
    |NextWires(s, step).tickets| == |s.wires.tickets| - PermitsReturned(s, step)
  }

  lemma SelectBalances(s: Sys, env: Env)
    requires Valid(s.sched) && TicketsAccounted(s.sched, s.wires, s.pc) && s.pc.Selecting?
    ensures TicketsBalance(s, TrySelect(env))
  {
    hide Valid, TicketsAccounted, Round;
    TicketTouched(s, TrySelect(env));
    var p := Picked(s, TrySelect(env));
    if p.Some? { MapGains(s.wires.tickets, p.value.pending.id, Ticket(p.value.flow, InHand)); }
  }

  lemma DeliverBalances(s: Sys)
    requires Valid(s.sched) && TicketsAccounted(s.sched, s.wires, s.pc) && s.pc.Delivering?
    ensures TicketsBalance(s, Deliver)
  {
    hide Valid, TicketsAccounted, SetPhase;
    TicketTouched(s, Deliver);
    MapLoses(s.wires.tickets, s.pc.id);
    PhaseKeepsCount(s.wires, s.pc.id, Sent);
  }

  lemma ReceiveBalances(s: Sys, g: nat)
    ensures TicketsBalance(s, Receive(g))
  {
    hide SetPhase;
    if IdOf(s.desk, g).Some? { PhaseKeepsCount(s.wires, IdOf(s.desk, g).value, Received); }
  }

  lemma HangUpBalances(s: Sys, g: nat)
    requires IdOf(s.desk, g).Some?
    ensures TicketsBalance(s, HangUp(g))
  {
    MapLoses(s.wires.tickets, IdOf(s.desk, g).value);
  }

  lemma DropTicketBalances(s: Sys, id: nat)
    requires id in s.wires.tickets
    ensures TicketsBalance(s, DropTicket(id))
  {
    MapLoses(s.wires.tickets, id);
  }

  lemma OtherStepBalances(s: Sys, step: Step)
    requires !step.TrySelect? && !step.Deliver? && !step.Receive? && !step.HangUp? && !step.DropTicket?
    ensures TicketsBalance(s, step)
  {}

  /** Every permit granted is one new ticket, and every ticket that disappears, whoever held it,
      returns exactly one permit. */
  lemma TicketsBalancePermits(s: Sys, step: Step, weight: FlowId -> int)
    requires Valid(s.sched) && TicketsAccounted(s.sched, s.wires, s.pc) && Enabled(s, step, weight)
    ensures |NextWires(s, step).tickets| == |s.wires.tickets| - PermitsReturned(s, step)
  {
    hide Valid, TicketsAccounted, NextWires, PermitsReturned;
    match step {
      case TrySelect(env) => SelectBalances(s, env);
      case Deliver => DeliverBalances(s);
      case Receive(g) => ReceiveBalances(s, g);
      case HangUp(g) => HangUpBalances(s, g);
      case DropTicket(id) => DropTicketBalances(s, id);
      case _ => OtherStepBalances(s, step);
    }
  }

  /** A selection only happens below the cap read for it, so it never takes the active count above
      that cap, even if pressure has since lowered the cap in force. */
  lemma GrantStaysWithinCapRead(s: Sys, env: Env, weight: FlowId -> int)
    requires Valid(s.sched) && Enabled(s, TrySelect(env), weight)
    ensures NextPc(s, TrySelect(env)).Delivering? ==>
      Active(s.sched) < s.pc.cap && Active(NextSched(s, TrySelect(env))) <= s.pc.cap
  {
    hide Valid, Round;
    RoundFacts(s.sched, env, s.pc.cap);
  }

  lemma PermitsStep(s: Sys, step: Step, weight: FlowId -> int)
    requires Valid(s.sched) && PermitsConserved(s) && TicketsAccounted(s.sched, s.wires, s.pc)
    requires Enabled(s, step, weight)
    ensures PermitsConserved(Apply(s, step))
  {
    hide Valid, TicketsAccounted, NextSched, NextWires, NextDesk, Picked, Round;
    SchedCounters(s, step);
    TicketsBalancePermits(s, step, weight);
    TicketTouched(s, step);
  }

  // ----- Wakeups -----

  lemma ValidCursor(s: Sched)
    requires Valid(s)
    ensures CursorExact(s)
  {}

  lemma CancelShrinksWaiting(s: Sched, f: FlowId, id: Option<nat>)
    ensures forall g :: g in Cancel(s, f, id).waiting ==> g in s.waiting
  {}

  lemma WakeupsStep(s: Sys, step: Step, weight: FlowId -> int)
    requires Valid(s.sched) && WakeupsKept(s, weight) && Enabled(s, step, weight)
    ensures WakeupsKept(Apply(s, step), weight)
  {
    hide Valid, Round, Cancel, NextDesk, NextWires;
    SchedCounters(s, step);
    match step {
      case TrySelect(env) =>
        RoundFacts(s.sched, env, s.pc.cap);
        if Active(s.sched) < s.pc.cap && NextPc(s, step) == Parked {
          IdleRoundHadNoWork(s.sched, env, s.pc.cap);
        }
      case CheckCap =>
        ValidCursor(s.sched);
      case DropGuard(g) =>
        CancelShrinksWaiting(s.sched, s.desk.guards[g].flow, s.desk.guards[g].id);
      case EnqueueRequest(_, _, _) =>
        assert s.sched.nextId in NextSignals(s, step).stamping;
      case _ =>
    }
  }

  // ----- Requests -----

  /** What a step does to the set of queued entries: an enqueue adds the next id, a selection
      removes its pick, a dropped guard removes its own request. */
  predicate Unqueues(s: Sys, step: Step, f: FlowId, id: nat) {
    || (Picked(s, step).Some? && f == Picked(s, step).value.flow && id == Picked(s, step).value.pending.id)
    || (step.DropGuard? && Owns(s.desk, step.guard, f, id))
  }

  predicate Queues(s: Sys, step: Step, f: FlowId, id: nat) {
    step.EnqueueRequest? && step.guard in s.desk.guards && f == s.desk.guards[step.guard].flow && id == s.sched.nextId
  }

  lemma EntriesChange(s: Sys, step: Step, f: FlowId, id: nat)
    requires Valid(s.sched)
    ensures Has(NextSched(s, step), f, id) <==>
      (Has(s.sched, f, id) && !Unqueues(s, step, f, id)) || Queues(s, step, f, id)
  {
    hide Valid, Round, Cancel, Push;
    match SchedOp(s, step) {
      case Some(Enqueue(g, cost, at)) =>
        PushHas(s.sched, g, cost, at);
        NextIdUnused(s.sched);
      case Some(Drop(g, own)) => CancelRemovesOnlyOwnEntry(s.sched, g, own);
      case Some(Select(env, cap)) => RoundUnqueuesItsPick(s.sched, env, cap);
      case _ =>
    }
  }

  lemma NextIdUnused(s: Sched)
    requires Valid(s)
    ensures forall f, id: nat :: Has(s, f, id) ==> id < s.nextId
  {}

  /** A step gives a guard its id, or retires guards; it never changes an id. */
  lemma OwnersChange(d: Desk, step: Step, nextId: nat)
    requires forall g :: g in d.guards ==> g < d.nextGuard
    requires step.EnqueueRequest? && step.guard in d.guards ==> d.guards[step.guard].id == None
    ensures forall g: nat, f, id: nat :: Owns(NextDesk(d, step, nextId), g, f, id) <==>
      || (Owns(d, g, f, id) && !((step.Receive? || step.DropGuard?) && g == step.guard))
      || (step.EnqueueRequest? && g == step.guard && g in d.guards && f == d.guards[g].flow && id == nextId)
  {}

  lemma GuardsStep(s: Sys, step: Step, weight: FlowId -> int)
    requires GuardsDistinct(s.desk, s.sched.nextId) && Enabled(s, step, weight) && Valid(s.sched)
    ensures GuardsDistinct(Apply(s, step).desk, Apply(s, step).sched.nextId)
  {
    hide Valid, NextSched, Round, NextWires, NextSignals, NextPc;
    SchedCounters(s, step);
    OwnersChange(s.desk, step, s.sched.nextId);
    var d := NextDesk(s.desk, step, s.sched.nextId);
    assert forall g :: g in d.guards ==> g < d.nextGuard;
    hide NextDesk, Owns;
  }

  lemma QueuedOwnedStep(s: Sys, step: Step, weight: FlowId -> int)
    requires Valid(s.sched) && GuardsDistinct(s.desk, s.sched.nextId) && QueuedOwned(s.sched, s.desk)
    requires TicketsAccounted(s.sched, s.wires, s.pc) && Enabled(s, step, weight)
    ensures QueuedOwned(Apply(s, step).sched, Apply(s, step).desk)
  {
    hide Valid, NextSched, Round, NextWires, NextSignals, NextPc, Picked, Has;
    var d := NextDesk(s.desk, step, s.sched.nextId);
    OwnersChange(s.desk, step, s.sched.nextId);
    forall f, id: nat | Has(NextSched(s, step), f, id) ensures HasOwner(d, f, id) {
      EntriesChange(s, step, f, id);
      if Queues(s, step, f, id) {
        assert Owns(d, step.guard, f, id);
      } else {
        var g: nat :| Owns(s.desk, g, f, id);
        assert Pends(s.sched, id);
        assert Owns(d, g, f, id);
      }
    }
  }

  lemma PendsChange(s: Sys, step: Step, id: nat)
    requires Valid(s.sched)
    ensures Pends(NextSched(s, step), id) ==>
      || (Pends(s.sched, id) && !(Picked(s, step).Some? && id == Picked(s, step).value.pending.id))
      || (step.EnqueueRequest? && id == s.sched.nextId)
    ensures (&& Pends(s.sched, id)
             && !(Picked(s, step).Some? && id == Picked(s, step).value.pending.id)
             && !(step.DropGuard? && IdOf(s.desk, step.guard) == Some(id)))
      ==> Pends(NextSched(s, step), id)
  {
    if Pends(NextSched(s, step), id) {
      var f :| Has(NextSched(s, step), f, id);
      EntriesChange(s, step, f, id);
      if Has(s.sched, f, id) { PickIsUnique(s, step, f, id); }
    }
    if Pends(s.sched, id) {
      var f :| Has(s.sched, f, id);
      EntriesChange(s, step, f, id);
    }
  }

  /** Only the picked flow holds the picked id. */
  lemma PickIsUnique(s: Sys, step: Step, f: FlowId, id: nat)
    requires Valid(s.sched) && Has(s.sched, f, id)
    ensures Picked(s, step).Some? && id == Picked(s, step).value.pending.id ==> f == Picked(s, step).value.flow
  {
    hide Round;
    if Picked(s, step).Some? { RoundFacts(s.sched, step.env, s.pc.cap); }
  }

  lemma PickWasQueued(s: Sys, step: Step)
    requires Valid(s.sched) && Picked(s, step).Some?
    ensures Pends(s.sched, Picked(s, step).value.pending.id) && Picked(s, step).value.pending.id < s.sched.nextId
  {
    hide Round, Valid;
    RoundFacts(s.sched, step.env, s.pc.cap);
    NextIdUnused(s.sched);
  }

  lemma TicketsStep(s: Sys, step: Step, weight: FlowId -> int)
    requires Valid(s.sched) && TicketsAccounted(s.sched, s.wires, s.pc) && Enabled(s, step, weight)
    ensures TicketsAccounted(NextSched(s, step), NextWires(s, step), NextPc(s, step))
  {
    hide Valid, NextSched, Picked, Pends, NextDesk, NextSignals, Round;
    SchedCounters(s, step);
    if Picked(s, step).Some? { PickWasQueued(s, step); }
    var w := NextWires(s, step);
    forall id: nat | id in w.tickets ensures id < NextSched(s, step).nextId && !Pends(NextSched(s, step), id) {
      PendsChange(s, step, id);
    }
    PickedOnlyWhenSelecting(s, step);
    forall id: nat ensures TicketIs(w, id, InHand) <==> NextPc(s, step) == Delivering(id) {
      assert TicketIs(s.wires, id, InHand) <==> s.pc == Delivering(id);
    }
  }

  lemma PickedOnlyWhenSelecting(s: Sys, step: Step)
    ensures Picked(s, step).Some? ==> step.TrySelect? && s.pc.Selecting?
  {}

  lemma ReceiversStep(s: Sys, step: Step, weight: FlowId -> int)
    requires Valid(s.sched) && TicketsAccounted(s.sched, s.wires, s.pc) && ReceiversAccounted(s.sched, s.wires)
    requires Enabled(s, step, weight)
    ensures ReceiversAccounted(NextSched(s, step), NextWires(s, step))
  {
    hide Valid, NextSched, Picked, Pends, NextDesk, NextSignals, Round;
    SchedCounters(s, step);
    if Picked(s, step).Some? { PickWasQueued(s, step); }
    PickedOnlyWhenSelecting(s, step);
    var w := NextWires(s, step);
    forall id: nat | id in w.listening
      ensures id < NextSched(s, step).nextId
      ensures Pends(NextSched(s, step), id) || TicketIs(w, id, InHand) || TicketIs(w, id, Sent)
    {
      PendsChange(s, step, id);
      if step.EnqueueRequest? && id == s.sched.nextId { NewEntryPends(s, step); }
      assert TicketIs(s.wires, id, InHand) <==> s.pc == Delivering(id);
    }
    forall id: nat | TicketIs(w, id, Sent) ensures id in w.listening {
      assert TicketIs(s.wires, id, Sent) ==> id in s.wires.listening;
    }
  }

  lemma NewEntryPends(s: Sys, step: Step)
    requires Valid(s.sched) && step.EnqueueRequest? && step.guard in s.desk.guards
    ensures Pends(NextSched(s, step), s.sched.nextId)
  {
    EntriesChange(s, step, s.desk.guards[step.guard].flow, s.sched.nextId);
  }

  // ----- Waiters -----

  lemma {:induction false} RemoveFirstCount(q: seq<FlowId>, f: FlowId)
    ensures multiset(RemoveFirst(q, f)) == multiset(q) - multiset{f}
  {
    if q != [] {
      var t := q[1..];
      assert q == [q[0]] + t;
      assert multiset(q) == multiset{q[0]} + multiset(t);
      if q[0] != f {
        RemoveFirstCount(t, f);
        assert multiset([q[0]] + RemoveFirst(t, f)) == multiset{q[0]} + multiset(RemoveFirst(t, f));
      }
    }
  }

  lemma RetireKeepsWaiters(d: Desk, g: nat)
    requires WaitersConserved(d) && g in d.guards
    ensures WaitersConserved(RetireGuard(d, g))
  {
    hide GuardsOf;
    var e, f := RetireGuard(d, g), d.guards[g].flow;
    RemoveFirstCount(d.report, f);
    forall h ensures DepthOf(e, h) == |GuardsOf(e, h)| == multiset(e.report)[h] {
      RetireGuards(d, g, h);
    }
  }

  lemma RetireGuards(d: Desk, g: nat, h: FlowId)
    requires g in d.guards
    ensures |GuardsOf(RetireGuard(d, g), h)| == |GuardsOf(d, h)| - if h == d.guards[g].flow then 1 else 0
  {
    assert GuardsOf(RetireGuard(d, g), h) == GuardsOf(d, h) - {g};
    assert h == d.guards[g].flow <==> g in GuardsOf(d, h);
  }

  lemma ArriveKeepsWaiters(d: Desk, f: FlowId, nextId: nat)
    requires WaitersConserved(d) && d.nextGuard !in d.guards
    ensures WaitersConserved(NextDesk(d, Arrive(f), nextId))
  {
    hide GuardsOf;
    var e := NextDesk(d, Arrive(f), nextId);
    forall h ensures DepthOf(e, h) == |GuardsOf(e, h)| == multiset(e.report)[h] {
      ArriveGuards(d, f, nextId, h);
      assert multiset(e.report)[h] == multiset(d.report)[h] + if h == f then 1 else 0;
    }
  }

  lemma ArriveGuards(d: Desk, f: FlowId, nextId: nat, h: FlowId)
    requires d.nextGuard !in d.guards
    ensures |GuardsOf(NextDesk(d, Arrive(f), nextId), h)| == |GuardsOf(d, h)| + if h == f then 1 else 0
  {
    var e := NextDesk(d, Arrive(f), nextId);
    assert forall g :: g in GuardsOf(e, h) <==> g in GuardsOf(d, h) || (h == f && g == d.nextGuard);
    if h == f {
      assert GuardsOf(e, h) == GuardsOf(d, h) + {d.nextGuard};
    } else {
      assert GuardsOf(e, h) == GuardsOf(d, h);
    }
  }

  lemma WaitersStep(s: Sys, step: Step, weight: FlowId -> int)
    requires WaitersConserved(s.desk) && GuardsDistinct(s.desk, s.sched.nextId) && Enabled(s, step, weight)
    ensures WaitersConserved(NextDesk(s.desk, step, s.sched.nextId))
  {
    var e := NextDesk(s.desk, step, s.sched.nextId);
    match step {
      case Arrive(f) => ArriveKeepsWaiters(s.desk, f, s.sched.nextId);
      case EnqueueRequest(g, _, _) =>
        assert forall h :: GuardsOf(e, h) == GuardsOf(s.desk, h);
      case Receive(g) => RetireKeepsWaiters(s.desk, g);
      case DropGuard(g) => RetireKeepsWaiters(s.desk, g);
      case _ =>
    }
  }

  // ----- Every run -----

  lemma SchedStaysValid(s: Sys, step: Step)
    requires Valid(s.sched)
    ensures Valid(NextSched(s, step))
  {
    match SchedOp(s, step)
    case Some(op) => DoValid(s.sched, op);
    case None =>
  }

  lemma InvStep(s: Sys, step: Step, weight: FlowId -> int)
    requires Inv(s, weight) && Enabled(s, step, weight)
    ensures Inv(Apply(s, step), weight)
  {
    hide Valid, PermitsConserved, WakeupsKept, GuardsDistinct, QueuedOwned, TicketsAccounted, ReceiversAccounted,
      WaitersConserved, NextSched, NextDesk, NextWires, NextSignals, NextPc, Enabled;
    SchedStaysValid(s, step);
    PermitsStep(s, step, weight);
    WakeupsStep(s, step, weight);
    GuardsStep(s, step, weight);
    QueuedOwnedStep(s, step, weight);
    TicketsStep(s, step, weight);
    ReceiversStep(s, step, weight);
    WaitersStep(s, step, weight);
  }

  lemma StartInv(permits: nat, cap: int, weight: FlowId -> int)
    requires cap <= permits
    ensures Inv(Start(permits, cap), weight)
  {
    var d := Start(permits, cap).desk;
    forall f ensures DepthOf(d, f) == |GuardsOf(d, f)| == multiset(d.report)[f] {
      assert GuardsOf(d, f) == {};
    }
  }

  function Run(s: Sys, steps: seq<Step>): Sys
    decreases |steps|
  {
    if steps == [] then s else Run(Apply(s, steps[0]), steps[1..])
  }

  ghost predicate Legal(s: Sys, steps: seq<Step>, weight: FlowId -> int)
    decreases |steps|
  {
    steps != [] ==> Enabled(s, steps[0], weight) && Legal(Apply(s, steps[0]), steps[1..], weight)
  }

  lemma {:induction false} RunInv(s: Sys, steps: seq<Step>, weight: FlowId -> int)
    requires Inv(s, weight) && Legal(s, steps, weight)
    ensures Inv(Run(s, steps), weight)
    decreases |steps|
  {
    hide Inv, Enabled, Apply;
    if steps != [] {
      InvStep(s, steps[0], weight);
      RunInv(Apply(s, steps[0]), steps[1..], weight);
    }
  }

  /** No lost wakeup: on every run, a parked loop that nobody is about to wake leaves no permit idle
      below the cap, unless no waiting flow can earn credit. */
  lemma NoLostWakeup(permits: nat, cap: int, steps: seq<Step>, weight: FlowId -> int)
    requires cap <= permits && Legal(Start(permits, cap), steps, weight)
    ensures var s := Run(Start(permits, cap), steps);
      s.pc == Parked && !s.signals.stored && !s.signals.unseen && s.signals.notifying == 0 && s.signals.stamping == map[]
      ==> Active(s.sched) >= s.signals.cap || forall f :: f in s.sched.waiting ==> weight(f) <= 0
  {
    hide Legal, Run, Valid;
    StartInv(permits, cap, weight);
    RunInv(Start(permits, cap), steps, weight);
  }

  /** With a validated pressure ladder the cap is at least 1, so a system that has come to rest, with no
      ticket out and nobody about to notify, has no waiting flow left that could earn credit. */
  lemma SystemAtRestHasServedEveryone(
      ladder: Ladder, pressure: real, permits: nat, cap: int, steps: seq<Step>, weight: FlowId -> int)
    requires cap <= permits && Legal(Start(permits, cap), steps, weight)
    requires permits >= 1 && forall t :: t in ladder.thresholds ==> t.maxFlows >= 1
    requires var s := Run(Start(permits, cap), steps);
      && s.signals.cap == EffectiveMax(ladder, permits, pressure) && s.wires.tickets == map[]
      && s.pc == Parked && !s.signals.stored && !s.signals.unseen && s.signals.notifying == 0 && s.signals.stamping == map[]
    ensures forall f :: f in Run(Start(permits, cap), steps).sched.waiting ==> weight(f) <= 0
  {
    hide Legal, Run;
    NoLostWakeup(permits, cap, steps, weight);
    PermitsConservedOnRuns(permits, cap, steps, weight);
    ValidatedCapIsPositive(ladder, permits, pressure);
  }

  lemma {:induction false} BudgetIsStatic(s: Sys, steps: seq<Step>, weight: FlowId -> int)
    requires Inv(s, weight) && Legal(s, steps, weight)
    ensures Run(s, steps).sched.maxPermits == s.sched.maxPermits
    decreases |steps|
  {
    hide Valid, NextSched, Enabled, Round;
    if steps != [] {
      InvStep(s, steps[0], weight);
      SchedCounters(s, steps[0]);
      BudgetIsStatic(Apply(s, steps[0]), steps[1..], weight);
    }
  }

  /** Permit conservation on every run: the pool and the live tickets add up to the static budget,
      so the active count is the number of live tickets and never underflows or exceeds it. */
  lemma PermitsConservedOnRuns(permits: nat, cap: int, steps: seq<Step>, weight: FlowId -> int)
    requires cap <= permits && Legal(Start(permits, cap), steps, weight)
    ensures var s := Run(Start(permits, cap), steps);
      && 0 <= s.sched.available <= permits
      && Active(s.sched) == |s.wires.tickets| == permits - s.sched.available
  {
    hide Legal, Run, Valid;
    StartInv(permits, cap, weight);
    RunInv(Start(permits, cap), steps, weight);
    BudgetIsStatic(Start(permits, cap), steps, weight);
  }

  /** An id that was issued, is not queued and has no ticket is spent. */
  ghost predicate Spent(s: Sys, id: nat) {
    id < s.sched.nextId && !Pends(s.sched, id) && id !in s.wires.tickets
  }

  /** A spent id stays spent on every run. So a ticket that has gone, and with it the permit it
      returned, never comes back: each permit granted is returned exactly once. */
  lemma {:induction false} SpentStaysSpent(s: Sys, steps: seq<Step>, weight: FlowId -> int, id: nat)
    requires Inv(s, weight) && Legal(s, steps, weight) && Spent(s, id)
    ensures Spent(Run(s, steps), id)
    decreases |steps|
  {
    hide Valid, Enabled, Inv, Apply;
    if steps != [] {
      InvStep(s, steps[0], weight);
      SpentStep(s, steps[0], weight, id);
      SpentStaysSpent(Apply(s, steps[0]), steps[1..], weight, id);
    }
  }

  lemma SpentStep(s: Sys, step: Step, weight: FlowId -> int, id: nat)
    requires Inv(s, weight) && Enabled(s, step, weight) && Spent(s, id)
    ensures Spent(Apply(s, step), id)
  {
    hide Valid, NextSched, Picked, Pends, NextDesk, NextSignals, NextPc, Round;
    SchedCounters(s, step);
    PendsChange(s, step, id);
    PickedOnlyWhenSelecting(s, step);
    if Picked(s, step).Some? { PickWasQueued(s, step); }
  }

  /** No request is forgotten: on every run, while a receiver is alive its request is queued (and its
      flow is listed by the cursor) or its ticket is in the loop's hand or in its channel. */
  lemma NoRequestForgotten(permits: nat, cap: int, steps: seq<Step>, weight: FlowId -> int, id: nat)
    requires cap <= permits && Legal(Start(permits, cap), steps, weight)
    requires id in Run(Start(permits, cap), steps).wires.listening
    ensures var s := Run(Start(permits, cap), steps);
      (exists f :: Has(s.sched, f, id) && f in s.sched.cursor) || TicketIs(s.wires, id, InHand) || TicketIs(s.wires, id, Sent)
  {
    hide Legal, Run;
    StartInv(permits, cap, weight);
    RunInv(Start(permits, cap), steps, weight);
    var s := Run(Start(permits, cap), steps);
    if Pends(s.sched, id) {
      var f :| Has(s.sched, f, id);
      assert f in s.sched.cursor;
    }
  }

  // ----- Runs of the system are runs of the scheduler -----

  /** The scheduler actions of a run. */
  function Ops(s: Sys, steps: seq<Step>): seq<Op>
    decreases |steps|
  {
    if steps == [] then []
    else
      var rest := Ops(Apply(s, steps[0]), steps[1..]);
      match SchedOp(s, steps[0])
      case Some(op) => [op] + rest
      case None => rest
  }

  /** So bounded waiting, the rate bound and FIFO service hold of every run of the system. */
  lemma {:induction false} RunProjects(s: Sys, steps: seq<Step>)
    ensures Run(s, steps).sched == Exec(s.sched, Ops(s, steps))
    decreases |steps|
  {
    hide NextDesk, NextWires, NextSignals, NextPc, Do, SchedOp;
    if steps != [] {
      var rest := Ops(Apply(s, steps[0]), steps[1..]);
      RunProjects(Apply(s, steps[0]), steps[1..]);
      if SchedOp(s, steps[0]).Some? {
        assert ([SchedOp(s, steps[0]).value] + rest)[1..] == rest;
      }
    }
  }

  lemma SystemServesFifo(permits: nat, cap: int, steps: seq<Step>)
    ensures FifoOrder(Picks(Init(permits), Ops(Start(permits, cap), steps)))
  {
    ServiceIsFifo(Init(permits), Ops(Start(permits, cap), steps));
  }
}
