/** The llama.cpp slot allocator: two maps that must agree, changed in place by `assign`,
    `release` and `sweep_missing`. */
module Slots {
  import opened Flows

  // ----- The hash home -----

  /** One step of 64-bit FNV-1a. */
  function HashStep(h: bv64, b: byte): bv64 {
    (h ^ (b as bv64)) * 0x100000001b3
  }

  function Hash(s: seq<byte>): bv64 {
    if s == [] then 0xcbf29ce484222325 else HashStep(Hash(s[..|s| - 1]), s[|s| - 1])
  }

  /** Published test vectors of 64-bit FNV-1a: the empty string, "a" and "fo". */
  lemma HashVectors()
    ensures Hash([]) == 0xcbf29ce484222325
    ensures Hash([97]) == 0xaf63dc4c8601ec8c
    ensures Hash([102, 111]) == 0x8985907b541d342
  {
    HashAppend([], 97);
    HashAppend([], 102);
    HashAppend([102], 111);
    assert [] + [97] == [97] && [] + [102] == [102] && [102] + [111] == [102, 111];
    assert HashStep(0xcbf29ce484222325, 97) == 0xaf63dc4c8601ec8c;
    assert HashStep(0xcbf29ce484222325, 102) == 0xaf63db4c8601ead9;
    assert HashStep(0xaf63db4c8601ead9, 111) == 0x8985907b541d342;
  }

  lemma HashAppend(s: seq<byte>, b: byte)
    ensures Hash(s + [b]) == HashStep(Hash(s), b)
  {
    assert (s + [b])[..|s|] == s;
  }

  /** The deterministic home slot of a flow. */
  function Home(flow: FlowId, slotCount: nat): (slot: nat)
    ensures slotCount > 0 ==> slot < slotCount
    ensures slotCount == 0 ==> slot == 0
    ensures slotCount > 0 ==> Hash(flow) as int == (Hash(flow) as int) / slotCount * slotCount + slot
  {
    if slotCount == 0 then 0
    else
      Euclid(Hash(flow) as int, slotCount);
      (Hash(flow) as int) % slotCount
  }

  lemma Euclid(h: nat, n: nat)
    requires n > 0
    ensures h == h / n * n + h % n
  {}

  method SlotIdForFlow(flow: FlowId, slotCount: nat) returns (slot: nat)
    ensures slot == Home(flow, slotCount)
  {
    if slotCount == 0 { return 0; }
    var h: bv64 := 0xcbf29ce484222325;
    for i := 0 to |flow|
      invariant h == Hash(flow[..i])
    {
      assert flow[..i + 1][..i] == flow[..i];
      h := HashStep(h, flow[i]);
    }
    assert flow[..|flow|] == flow;
    slot := (h as int) % slotCount;
  }

  // ----- The two maps -----

  datatype Table = Table(assignments: map<FlowId, nat>, occupied: map<nat, nat>)

  function Holders(t: Table, slot: nat): set<FlowId> {
    set f | f in t.assignments && t.assignments[f] == slot
  }

  /** `occupied[s]` is exactly the number of flows assigned to `s`, and there are no zero entries. */
  ghost predicate Agree(t: Table) {
    forall s: nat :: (s in t.occupied <==> Holders(t, s) != {}) && (s in t.occupied ==> t.occupied[s] == |Holders(t, s)|)
  }

  predicate IsFree(t: Table, slot: nat) {
    slot in t.occupied ==> t.occupied[slot] == 0
  }

  /** The lowest free slot at or above `i`. */
  function LowestFree(t: Table, i: nat, slotCount: nat): (r: Option<nat>)
    requires i <= slotCount
    ensures r.Some? ==> i <= r.value < slotCount && IsFree(t, r.value)
    ensures r.Some? ==> forall s :: i <= s < r.value ==> !IsFree(t, s)
    ensures r.None? ==> forall s :: i <= s < slotCount ==> !IsFree(t, s)
    decreases slotCount - i
  {
    if i == slotCount then None else if IsFree(t, i) then Some(i) else LowestFree(t, i + 1, slotCount)
  }

  /** The occupancy that a set of assignments determines. */
  function Occupancy(assignments: map<FlowId, nat>): map<nat, nat> {
    map s | s in assignments.Values :: |Holders(Table(assignments, map[]), s)|
  }

  /** Forget the assignment of `f`, if any, and give its slot back. */
  function Drop(t: Table, f: FlowId): Table {
    if f !in t.assignments then t
    else Table(t.assignments - {f}, Vacate(t.occupied, t.assignments[f]))
  }

  function Vacate(occupied: map<nat, nat>, slot: nat): map<nat, nat> {
    if slot !in occupied || occupied[slot] <= 1 then occupied - {slot} else occupied[slot := occupied[slot] - 1]
  }

  function Place(t: Table, f: FlowId, slot: nat): Table {
    Table(t.assignments[f := slot], t.occupied[slot := (if slot in t.occupied then t.occupied[slot] else 0) + 1])
  }

  /** The slot a flow without an assignment gets. */
  function Choose(t: Table, f: FlowId, slotCount: nat): nat {
    var home := Home(f, slotCount);
    if IsFree(t, home) then home
    else
      match LowestFree(t, 0, slotCount)
      case Some(s) => s
      case None => home
  }

  function Assigned(t: Table, f: FlowId, slotCount: nat): Table {
    if f in t.assignments && t.assignments[f] < slotCount then t
    else
      var u := Drop(t, f);
      Place(u, f, Choose(u, f, slotCount))
  }

  function Kept(assignments: map<FlowId, nat>, registered: set<FlowId>): map<FlowId, nat> {
    map f | f in assignments && f in registered :: assignments[f]
  }

  /** Only the assignments of registered flows are left. */
  function Swept(t: Table, registered: set<FlowId>): Table {
    var kept := Kept(t.assignments, registered);
    Table(kept, Occupancy(kept))
  }

  // ----- The allocator -----

  class SlotAllocator {
    var assignments: map<FlowId, nat>
    var occupied: map<nat, nat>

    function Model(): Table
      reads this
    {
      Table(assignments, occupied)
    }

    constructor ()
      ensures Model() == Table(map[], map[])
    {
      assignments, occupied := map[], map[];
    }

    /** `*count -= 1` cannot underflow where it is called: under `Agree` no entry is 0. */
    method Free(slot: nat)
      requires slot in occupied ==> occupied[slot] > 0
      modifies this`occupied
      ensures occupied == Vacate(old(occupied), slot)
    {
      if slot in occupied {
        var count := occupied[slot] - 1;
        occupied := occupied[slot := count];
        if count == 0 { occupied := occupied - {slot}; }
      }
    }

    method FindFree(slotCount: nat) returns (r: Option<nat>)
      ensures r == LowestFree(Model(), 0, slotCount)
    {
      for s := 0 to slotCount
        invariant LowestFree(Model(), 0, slotCount) == LowestFree(Model(), s, slotCount)
      {
        if s !in occupied || occupied[s] == 0 { return Some(s); }
      }
      r := None;
    }

    method Assign(f: FlowId, slotCount: nat) returns (slot: nat)
      requires slotCount >= 1 && Agree(Model())
      modifies this
      ensures Model() == Assigned(old(Model()), f, slotCount)
      ensures f in assignments && slot == assignments[f] < slotCount
      ensures Agree(Model())
    {
      hide Agree, Home;
      AssignAgrees(Model(), f, slotCount);
      ghost var t := Model();
      if f in assignments {
        if assignments[f] < slotCount { return assignments[f]; }
        var stale := assignments[f];
        AgreePositive(Model());
        assignments := assignments - {f};
        Free(stale);
      }
      ghost var u := Drop(t, f);
      assert Model() == u;
      var home := SlotIdForFlow(f, slotCount);
      slot := home;
      if home in occupied && occupied[home] != 0 {
        var free := FindFree(slotCount);
        if free.Some? { slot := free.value; }
      }
      assert slot == Choose(u, f, slotCount);
      assignments := assignments[f := slot];
      occupied := occupied[slot := (if slot in occupied then occupied[slot] else 0) + 1];
      assert Model() == Place(u, f, slot);
    }

    method ReleaseFlow(f: FlowId)
      requires Agree(Model())
      modifies this
      ensures Model() == Drop(old(Model()), f) && Agree(Model())
    {
      hide Agree;
      DropAgrees(Model(), f);
      AgreePositive(Model());
      if f in assignments {
        var slot := assignments[f];
        assignments := assignments - {f};
        Free(slot);
      }
    }

    /** Drop every assignment whose flow is not in `registered`. The orphans are visited in the
        arbitrary order of the hash map. */
    method SweepMissing(registered: set<FlowId>) returns (dropped: nat)
      requires Agree(Model())
      modifies this
      ensures Model() == Swept(old(Model()), registered) && Agree(Model())
      ensures dropped == |old(assignments).Keys - registered|
    {
      hide Agree, Kept, Holders, Vacate, Occupancy;
      ghost var before := assignments;
      var orphans := assignments.Keys - registered;
      dropped := |orphans|;
      var left := orphans;
      KeptAll(before, registered + left);
      while left != {}
        invariant Agree(Model())
        invariant left <= orphans
        invariant assignments == Kept(before, registered + left)
        decreases left
      {
        var f :| f in left;
        assert f in before;
        KeptWithout(before, registered, left, f);
        ReleaseFlow(f);
        left := left - {f};
      }
      assert registered + left == registered;
      AgreeDeterminesOccupancy(Model());
    }
  }

  lemma KeptAll(m: map<FlowId, nat>, flows: set<FlowId>)
    requires m.Keys <= flows
    ensures Kept(m, flows) == m
  {}

  lemma KeptWithout(m: map<FlowId, nat>, registered: set<FlowId>, left: set<FlowId>, f: FlowId)
    requires f in m && f in left && f !in registered
    ensures f in Kept(m, registered + left)
    ensures Kept(m, registered + (left - {f})) == Kept(m, registered + left) - {f}
  {}

  // ----- Agreement -----

  lemma AgreePositive(t: Table)
    requires Agree(t)
    ensures forall s :: s in t.occupied ==> t.occupied[s] > 0
  {
    forall s | s in t.occupied ensures t.occupied[s] > 0 { assert Holders(t, s) != {}; }
  }

  lemma AgreeFree(t: Table, s: nat)
    requires Agree(t)
    ensures IsFree(t, s) <==> Holders(t, s) == {}
  {
    AgreePositive(t);
  }

  /** The two maps agree exactly when `occupied` is the occupancy of `assignments`. */
  lemma AgreeDeterminesOccupancy(t: Table)
    ensures Agree(t) <==> t.occupied == Occupancy(t.assignments)
  {
    forall s: nat ensures s in t.assignments.Values <==> Holders(t, s) != {} {
      if s in t.assignments.Values {
        var f :| f in t.assignments && t.assignments[f] == s;
        assert f in Holders(t, s);
      }
      if Holders(t, s) != {} {
        var f :| f in Holders(t, s);
        assert t.assignments[f] in t.assignments.Values;
      }
    }
    forall s: nat ensures Holders(t, s) == Holders(Table(t.assignments, map[]), s) {}
  }

  lemma DropAgrees(t: Table, f: FlowId)
    requires Agree(t)
    ensures Agree(Drop(t, f))
  {
    if f in t.assignments {
      var u, slot := Drop(t, f), t.assignments[f];
      assert f in Holders(t, slot);
      forall s: nat
        ensures (s in u.occupied <==> Holders(u, s) != {}) && (s in u.occupied ==> u.occupied[s] == |Holders(u, s)|)
      {
        if s == slot {
          assert Holders(u, s) == Holders(t, s) - {f};
          assert Holders(u, s) != {} <==> |Holders(u, s)| > 0;
        } else {
          assert Holders(u, s) == Holders(t, s);
        }
      }
    }
  }

  lemma PlaceAgrees(t: Table, f: FlowId, slot: nat)
    requires Agree(t) && f !in t.assignments
    ensures Agree(Place(t, f, slot))
  {
    var u := Place(t, f, slot);
    forall s: nat
      ensures (s in u.occupied <==> Holders(u, s) != {}) && (s in u.occupied ==> u.occupied[s] == |Holders(u, s)|)
    {
      assert Holders(u, s) == Holders(t, s) + (if s == slot then {f} else {});
      assert f !in Holders(t, s);
    }
  }

  lemma AssignAgrees(t: Table, f: FlowId, slotCount: nat)
    requires Agree(t)
    ensures Agree(Assigned(t, f, slotCount))
  {
    hide Agree;
    DropAgrees(t, f);
    var u := Drop(t, f);
    PlaceAgrees(u, f, Choose(u, f, slotCount));
  }

  lemma DropForgets(t: Table, f: FlowId)
    ensures Drop(t, f).assignments == t.assignments - {f}
  {}

  /** Sweeping gives the same table whether or not some of the unregistered flows were released first. */
  lemma SweptAfterRelease(t: Table, u: Table, gone: set<FlowId>, registered: set<FlowId>)
    requires gone !! registered && u.assignments == t.assignments - gone
    ensures Swept(u, registered) == Swept(t, registered)
  {
    hide Occupancy;
    assert Kept(u.assignments, registered) == Kept(t.assignments, registered);
  }

  // ----- Pigeonhole -----

  /** Some flow holds slot `s`. */
  ghost predicate Taken(assignments: map<FlowId, nat>, s: nat) {
    exists f :: f in assignments && assignments[f] == s
  }

  /** If every slot below `n` is taken, at least `n` flows hold assignments. */
  lemma {:induction false} TakenSlotsNeedFlows(assignments: map<FlowId, nat>, n: nat)
    requires forall s: nat :: s < n ==> Taken(assignments, s)
    ensures |assignments| >= n
  {
    if n > 0 {
      assert Taken(assignments, n - 1);
      var f :| f in assignments && assignments[f] == n - 1;
      var rest := assignments - {f};
      assert rest.Keys == assignments.Keys - {f};
      forall s: nat | s < n - 1 ensures Taken(rest, s) {
        assert Taken(assignments, s);
        var g :| g in assignments && assignments[g] == s;
        assert g in rest && rest[g] == s;
      }
      TakenSlotsNeedFlows(rest, n - 1);
    }
  }

  /** No other flow shares the slot of `f`. */
  predicate Unshared(t: Table, f: FlowId) {
    f in t.assignments && forall g :: g in t.assignments && g != f ==> t.assignments[g] != t.assignments[f]
  }

  ghost predicate Saturated(t: Table, slotCount: nat) {
    forall s: nat :: s < slotCount ==> !IsFree(t, s)
  }

  /** A flow without a valid assignment gets an in-range slot. It is alone there exactly when some slot
      was left; otherwise it shares its hash home. */
  lemma FreshAssignment(t: Table, f: FlowId, slotCount: nat)
    requires Agree(t) && slotCount >= 1
    requires f in t.assignments ==> t.assignments[f] >= slotCount
    ensures var u := Assigned(t, f, slotCount);
      && f in u.assignments && u.assignments[f] < slotCount
      && (Unshared(u, f) <==> !Saturated(Drop(t, f), slotCount))
      && (Saturated(Drop(t, f), slotCount) ==> u.assignments[f] == Home(f, slotCount))
  {
    hide Agree;
    var d := Drop(t, f);
    DropAgrees(t, f);
    var slot := Choose(d, f, slotCount);
    AgreeFree(d, slot);
    assert IsFree(d, slot) <==> !Saturated(d, slotCount);
    if IsFree(d, slot) {
      forall g | g in d.assignments ensures d.assignments[g] != slot {
        assert g !in Holders(d, slot);
      }
    } else {
      var g :| g in Holders(d, slot);
      assert g in Assigned(t, f, slotCount).assignments;
    }
  }

  /** While fewer than `slotCount` other flows hold assignments, some slot is left. */
  lemma CapacityLeavesASlot(t: Table, f: FlowId, slotCount: nat)
    requires Agree(t) && |t.assignments - {f}| < slotCount
    ensures !Saturated(Drop(t, f), slotCount)
  {
    hide Agree;
    var d := Drop(t, f);
    DropAgrees(t, f);
    assert d.assignments == t.assignments - {f};
    if Saturated(d, slotCount) {
      forall s: nat | s < slotCount ensures Taken(d.assignments, s) {
        AgreeFree(d, s);
        var g :| g in Holders(d, s);
      }
      TakenSlotsNeedFlows(d.assignments, slotCount);
    }
  }

  /** Some flow other than `f` holds slot `s`. */
  ghost predicate HeldByOther(t: Table, f: FlowId, s: nat) {
    exists g :: g in t.assignments && g != f && t.assignments[g] == s
  }

  lemma FreeIffNotHeld(t: Table, f: FlowId, s: nat)
    requires Agree(t)
    ensures IsFree(Drop(t, f), s) <==> !HeldByOther(t, f, s)
  {
    hide Agree, IsFree;
    DropAgrees(t, f);
    var d := Drop(t, f);
    AgreeFree(d, s);
    if HeldByOther(t, f, s) {
      var g :| g in t.assignments && g != f && t.assignments[g] == s;
      assert g in Holders(d, s);
    }
    if Holders(d, s) != {} {
      var g :| g in Holders(d, s);
      assert g in t.assignments && g != f && t.assignments[g] == s;
    }
  }

  /** Which slot a flow without a valid one gets: its hash home unless another flow holds it, so that the same flow
      finds the same slot after a restart; else the lowest slot no other flow holds; else its home after all. Every
      other assignment stays. */
  lemma HomeFirstThenLowest(t: Table, f: FlowId, slotCount: nat)
    requires Agree(t) && slotCount >= 1
    requires f in t.assignments ==> t.assignments[f] >= slotCount
    ensures var u, home := Assigned(t, f, slotCount), Home(f, slotCount);
      && f in u.assignments && u.assignments - {f} == t.assignments - {f}
      && var slot := u.assignments[f];
         && (!HeldByOther(t, f, home) ==> slot == home)
         && (HeldByOther(t, f, home) && (exists s: nat :: s < slotCount && !HeldByOther(t, f, s)) ==>
               slot < slotCount && !HeldByOther(t, f, slot) && forall s: nat :: s < slot ==> HeldByOther(t, f, s))
         && ((forall s: nat :: s < slotCount ==> HeldByOther(t, f, s)) ==> slot == home)
  {
    hide Agree, IsFree, HeldByOther, Home;
    forall s: nat ensures IsFree(Drop(t, f), s) <==> !HeldByOther(t, f, s) {
      FreeIffNotHeld(t, f, s);
    }
  }

  // ----- Runs -----

  datatype Op = Assign(flow: FlowId, slotCount: nat) | Release(flow: FlowId) | Sweep(registered: set<FlowId>)

  function Step(t: Table, op: Op): Table {
    match op
    case Assign(f, n) => Assigned(t, f, n)
    case Release(f) => Drop(t, f)
    case Sweep(registered) => Swept(t, registered)
  }

  function Run(t: Table, ops: seq<Op>): Table
    decreases |ops|
  {
    if ops == [] then t else Run(Step(t, ops[0]), ops[1..])
  }

  lemma StepAgrees(t: Table, op: Op)
    requires Agree(t)
    ensures Agree(Step(t, op))
  {
    hide Agree;
    match op
    case Assign(f, n) => AssignAgrees(t, f, n);
    case Release(f) => DropAgrees(t, f);
    case Sweep(registered) => AgreeDeterminesOccupancy(Swept(t, registered));
  }

  /** After any sequence of operations, with any slot counts, occupancy counts the assignments. */
  lemma {:induction false} RunAgrees(t: Table, ops: seq<Op>)
    requires Agree(t)
    ensures Agree(Run(t, ops))
    ensures Run(t, ops).occupied == Occupancy(Run(t, ops).assignments)
    decreases |ops|
  {
    hide Agree;
    AgreeDeterminesOccupancy(Run(t, ops));
    if ops != [] {
      StepAgrees(t, ops[0]);
      RunAgrees(Step(t, ops[0]), ops[1..]);
    }
  }

  ghost predicate Injective(t: Table) {
    forall f :: f in t.assignments ==> Unshared(t, f)
  }

  /** Every assignment of the run is made while fewer other flows hold slots than there are slots. */
  predicate WithinCapacity(t: Table, ops: seq<Op>)
    decreases |ops|
  {
    ops == [] ||
    ((ops[0].Assign? ==> |t.assignments - {ops[0].flow}| < ops[0].slotCount) && WithinCapacity(Step(t, ops[0]), ops[1..]))
  }

  /** A run that never exceeds capacity never makes two flows share a slot, even when the slot count
      changes along the way. */
  lemma {:induction false} RunStaysInjective(t: Table, ops: seq<Op>)
    requires Agree(t) && Injective(t) && WithinCapacity(t, ops)
    ensures Injective(Run(t, ops))
    decreases |ops|
  {
    hide Agree;
    if ops != [] {
      StepAgrees(t, ops[0]);
      StepStaysInjective(t, ops[0]);
      RunStaysInjective(Step(t, ops[0]), ops[1..]);
    }
  }

  lemma StepStaysInjective(t: Table, op: Op)
    requires Agree(t) && Injective(t)
    requires op.Assign? ==> |t.assignments - {op.flow}| < op.slotCount
    ensures Injective(Step(t, op))
  {
    hide Agree, Choose, Saturated, Occupancy;
    var u := Step(t, op);
    if op.Assign? && (op.flow in t.assignments ==> t.assignments[op.flow] >= op.slotCount) {
      CapacityLeavesASlot(t, op.flow, op.slotCount);
      FreshAssignment(t, op.flow, op.slotCount);
    }
    forall f | f in u.assignments ensures Unshared(u, f) {
      assert f in t.assignments ==> Unshared(t, f);
    }
  }

  /** The operation leaves a flow holding slot `s` alone. */
  predicate Spares(op: Op, f: FlowId, s: nat) {
    match op
    case Assign(g, n) => g == f ==> s < n
    case Release(g) => g != f
    case Sweep(registered) => f in registered
  }

  /** An assignment that stays in range never moves until its flow is released or swept. */
  lemma {:induction false} AssignmentIsStable(t: Table, f: FlowId, ops: seq<Op>)
    requires f in t.assignments && forall op :: op in ops ==> Spares(op, f, t.assignments[f])
    ensures f in Run(t, ops).assignments && Run(t, ops).assignments[f] == t.assignments[f]
    decreases |ops|
  {
    if ops != [] {
      assert ops[0] in ops;
      AssignmentIsStable(Step(t, ops[0]), f, ops[1..]);
    }
  }
}
