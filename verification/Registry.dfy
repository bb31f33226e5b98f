/** The flow registry's reaper and its effect on slot assignments. Each operation is one atomic step. */
module Registry {
  import opened Flows
  import Slots

  datatype Flow = Flow(depth: nat, active: nat, lastSeen: nat)

  /** `now.saturating_sub(ttl)`. */
  function Cutoff(now: nat, ttl: nat): nat {
    if now < ttl then 0 else now - ttl
  }

  predicate Idle(flow: Flow, cutoff: nat) {
    flow.depth == 0 && flow.active == 0 && flow.lastSeen < cutoff
  }

  function Survivors(flows: map<FlowId, Flow>, cutoff: nat): map<FlowId, Flow> {
    map id | id in flows && !Idle(flows[id], cutoff) :: flows[id]
  }

  function IdleFlows(flows: map<FlowId, Flow>, cutoff: nat): set<FlowId> {
    set id | id in flows.Keys && Idle(flows[id], cutoff)
  }

  lemma SurvivorsAreTheRest(flows: map<FlowId, Flow>, cutoff: nat)
    ensures Survivors(flows, cutoff) == flows - IdleFlows(flows, cutoff)
    ensures IdleFlows(flows, cutoff) == flows.Keys - Survivors(flows, cutoff).Keys
  {}

  function Touched(flows: map<FlowId, Flow>, id: FlowId, now: nat): map<FlowId, Flow> {
    flows[id := if id in flows then flows[id].(lastSeen := now) else Flow(0, 0, now)]
  }

  class FlowRegistry {
    var flows: map<FlowId, Flow>
    const slots: Slots.SlotAllocator

    constructor ()
      ensures flows == map[] && fresh(slots) && slots.Model() == Slots.Table(map[], map[])
    {
      flows := map[];
      slots := new Slots.SlotAllocator();
    }

    method GetOrCreate(id: FlowId, now: nat)
      modifies this
      ensures flows == Touched(old(flows), id, now)
    {
      if id !in flows { flows := flows[id := Flow(0, 0, now)]; }
      flows := flows[id := flows[id].(lastSeen := now)];
    }

    method AssignSlot(id: FlowId, slotCount: nat) returns (slot: nat)
      requires slotCount >= 1 && Slots.Agree(slots.Model())
      modifies slots
      ensures slots.Model() == Slots.Assigned(old(slots.Model()), id, slotCount) && Slots.Agree(slots.Model())
      ensures id in slots.assignments && slot == slots.assignments[id] < slotCount
    {
      slot := slots.Assign(id, slotCount);
    }

    method RemoveAll(ids: set<FlowId>)
      requires Slots.Agree(slots.Model())
      modifies this, slots
      ensures flows == old(flows) - ids
      ensures slots.assignments == old(slots.assignments) - ids && Slots.Agree(slots.Model())
    {
      hide Slots.Agree, Slots.Drop;
      ghost var before, held, gone := flows, slots.assignments, {};
      var left := ids;
      while left != {}
        invariant Slots.Agree(slots.Model())
        invariant gone + left == ids
        invariant flows == before - gone
        invariant slots.assignments == held - gone
        decreases left
      {
        var id :| id in left;
        flows := flows - {id};
        Slots.DropForgets(slots.Model(), id);
        slots.ReleaseFlow(id);
        MinusBoth(before, gone, id);
        MinusBoth(held, gone, id);
        gone, left := gone + {id}, left - {id};
      }
      assert gone == ids;
    }

    /** Exactly the idle flows go, and exactly the assignments of surviving flows stay, unmoved. */
    method ReapIdle(now: nat, ttl: nat) returns (removed: nat)
      requires Slots.Agree(slots.Model())
      modifies this, slots
      ensures flows == Survivors(old(flows), Cutoff(now, ttl))
      ensures slots.Model() == Slots.Swept(old(slots.Model()), flows.Keys) && Slots.Agree(slots.Model())
      ensures removed == |old(flows).Keys - flows.Keys|
    {
      hide Slots.Agree, Slots.Swept, Survivors, Idle, IdleFlows;
      var toRemove := IdleFlows(flows, Cutoff(now, ttl));
      SurvivorsAreTheRest(flows, Cutoff(now, ttl));
      RemoveAll(toRemove);
      Slots.SweptAfterRelease(old(slots.Model()), slots.Model(), toRemove, flows.Keys);
      var swept := slots.SweepMissing(flows.Keys);
      removed := |toRemove|;
    }
  }

  lemma MinusBoth<T>(m: map<FlowId, T>, gone: set<FlowId>, id: FlowId)
    ensures m - gone - {id} == m - (gone + {id})
  {}

  // ----- Runs -----

  datatype State = State(flows: map<FlowId, Flow>, table: Slots.Table)

  datatype Op =
    | Touch(id: FlowId, now: nat)
    | Load(id: FlowId, depth: nat, active: nat)
    | AssignSlot(id: FlowId, slotCount: nat)
    | Reap(now: nat, ttl: nat)

  /** What the operation does to the registered flows. */
  function NextFlows(flows: map<FlowId, Flow>, op: Op): map<FlowId, Flow> {
    match op
    case Touch(id, now) => Touched(flows, id, now)
    case Load(id, depth, active) =>
      if id in flows then flows[id := flows[id].(depth := depth, active := active)] else flows
    case AssignSlot(_, _) => flows
    case Reap(now, ttl) => Survivors(flows, Cutoff(now, ttl))
  }

  function Step(s: State, op: Op): State {
    var flows := NextFlows(s.flows, op);
    match op
    case AssignSlot(id, n) => State(flows, Slots.Assigned(s.table, id, n))
    case Reap(_, _) => State(flows, Slots.Swept(s.table, flows.Keys))
    case _ => State(flows, s.table)
  }

  function Run(s: State, ops: seq<Op>): State
    decreases |ops|
  {
    if ops == [] then s else Run(Step(s, ops[0]), ops[1..])
  }

  /** The allocator operations behind a registry run. */
  function SlotOps(flows: map<FlowId, Flow>, ops: seq<Op>): seq<Slots.Op>
    decreases |ops|
  {
    if ops == [] then []
    else
      var next := NextFlows(flows, ops[0]);
      (match ops[0]
       case AssignSlot(id, n) => [Slots.Assign(id, n)]
       case Reap(_, _) => [Slots.Sweep(next.Keys)]
       case _ => [])
      + SlotOps(next, ops[1..])
  }

  /** The allocator sees a registry run as its own run, so every theorem about allocator runs applies. */
  lemma {:induction false} RunProjects(s: State, ops: seq<Op>)
    ensures Run(s, ops).table == Slots.Run(s.table, SlotOps(s.flows, ops))
    decreases |ops|
  {
    hide Slots.Assigned, Slots.Swept, Survivors, Touched;
    if ops != [] {
      RunProjects(Step(s, ops[0]), ops[1..]);
      var rest := SlotOps(NextFlows(s.flows, ops[0]), ops[1..]);
      if ops[0].AssignSlot? || ops[0].Reap? {
        var all := SlotOps(s.flows, ops);
        assert all == [all[0]] + rest;
        assert all[1..] == rest;
      } else {
        assert [] + rest == rest;
      }
    }
  }

  /** The flow is there and not idle at every reap of the run, and every assignment of its own still
      finds its slot `slot` in range. */
  predicate StaysLive(flows: map<FlowId, Flow>, ops: seq<Op>, f: FlowId, slot: nat)
    decreases |ops|
  {
    f in flows && (ops == [] || (
      var next := NextFlows(flows, ops[0]);
      f in next && (ops[0].AssignSlot? && ops[0].id == f ==> slot < ops[0].slotCount) && StaysLive(next, ops[1..], f, slot)))
  }

  lemma {:induction false} LiveRunSpares(flows: map<FlowId, Flow>, ops: seq<Op>, f: FlowId, slot: nat)
    requires StaysLive(flows, ops, f, slot)
    ensures forall op :: op in SlotOps(flows, ops) ==> Slots.Spares(op, f, slot)
    decreases |ops|
  {
    hide Survivors, Touched;
    if ops != [] {
      LiveRunSpares(NextFlows(flows, ops[0]), ops[1..], f, slot);
    }
  }

  /** A flow that is never idle at a reap keeps its slot through the whole run. */
  lemma LiveFlowKeepsSlot(s: State, ops: seq<Op>, f: FlowId)
    requires f in s.table.assignments && StaysLive(s.flows, ops, f, s.table.assignments[f])
    ensures var t := Run(s, ops).table; f in t.assignments && t.assignments[f] == s.table.assignments[f]
  {
    RunProjects(s, ops);
    LiveRunSpares(s.flows, ops, f, s.table.assignments[f]);
    Slots.AssignmentIsStable(s.table, f, SlotOps(s.flows, ops));
  }

  /** What a reap spares: a flow survives exactly when it is queued, being served, or was seen within
      the last `ttl` seconds. Survivors keep their slots, the others hold none afterwards. */
  lemma ReapSparesTheLive(s: State, now: nat, ttl: nat, f: FlowId)
    requires f in s.flows
    ensures var u, flow := Step(s, Reap(now, ttl)), s.flows[f];
      && (f in u.flows <==> flow.depth > 0 || flow.active > 0 || flow.lastSeen + ttl >= now)
      && (f in u.flows ==> u.flows[f] == flow)
      && (f in u.table.assignments <==> f in u.flows && f in s.table.assignments)
      && (f in u.table.assignments ==> u.table.assignments[f] == s.table.assignments[f])
  {
  }

  /** A flow that was just seen, whether it was registered before or not, survives every reap within the
      time-to-live of that moment, with what it had queued and active, and keeps its slot. */
  lemma TouchedFlowSurvives(s: State, f: FlowId, seen: nat, now: nat, ttl: nat)
    requires now <= seen + ttl
    ensures var t := Step(Step(s, Touch(f, seen)), Reap(now, ttl));
      && f in t.flows && t.flows[f].lastSeen == seen
      && t.flows[f].depth == (if f in s.flows then s.flows[f].depth else 0)
      && t.flows[f].active == (if f in s.flows then s.flows[f].active else 0)
      && (f in t.table.assignments <==> f in s.table.assignments)
      && (f in s.table.assignments ==> t.table.assignments[f] == s.table.assignments[f])
  {
    ReapSparesTheLive(Step(s, Touch(f, seen)), now, ttl, f);
  }

  /** No slot leaks: right after a reap only registered flows hold slots, whatever ran before. */
  lemma ReapLeaksNothing(s: State, ops: seq<Op>, now: nat, ttl: nat)
    requires Slots.Agree(s.table)
    ensures var u := Step(Run(s, ops), Reap(now, ttl));
      && u.table.assignments.Keys <= u.flows.Keys
      && u.table.assignments == Slots.Kept(Run(s, ops).table.assignments, u.flows.Keys)
      && Slots.Agree(u.table)
  {
    RunProjects(s, ops);
    Slots.RunAgrees(s.table, SlotOps(s.flows, ops));
    Slots.StepAgrees(Run(s, ops).table, Slots.Sweep(Survivors(Run(s, ops).flows, Cutoff(now, ttl)).Keys));
  }
}
