/** The inner drain loop of `admission_loop`: it terminates whatever the caps, clocks, weights and
    delivery outcomes of its rounds, and with nothing interleaved it has a closed form. */
module Drain {
  import opened Flows
  import opened Priority
  import opened Drr
  import opened DrrScheduler
  import opened Fairness
  import opened BoundedWaiting
  import opened Tickets

  /** What the k-th iteration observes: the cap read, the round's environment and whether the
      selected request's receiver still exists. */
  datatype World = World(cap: nat -> int, env: nat -> Env, delivers: nat -> bool)

  /** A selection and the iteration it happened in. */
  datatype Service = Service(pick: Pick, round: nat)

  datatype Drained = Drained(final: Sched, picks: seq<Service>, rounds: nat)

  // ----- The termination measure -----

  /** The pending ids still queued. */
  ghost function Ids(s: Sched): set<nat> {
    set id: nat | id < s.nextId && Pends(s, id)
  }

  ghost predicate Pends(s: Sched, id: nat) {
    exists f :: Has(s, f, id)
  }

  function Shortfall(s: Sched, f: FlowId): nat {
    if Queued(s, f) && s.waiting[f][0].cost > DeficitOf(s, f) then s.waiting[f][0].cost - DeficitOf(s, f) else 0
  }

  /** Head shortfalls summed along a listing of flows. */
  function SumShort(s: Sched, listing: seq<FlowId>): nat {
    if listing == [] then 0 else Shortfall(s, listing[0]) + SumShort(s, listing[1..])
  }

  lemma {:induction false} SumShortAppend(s: Sched, a: seq<FlowId>, b: seq<FlowId>)
    ensures SumShort(s, a + b) == SumShort(s, a) + SumShort(s, b)
  {
    if a == [] {
      assert a + b == b;
    } else {
      assert (a + b)[1..] == a[1..] + b;
      SumShortAppend(s, a[1..], b);
    }
  }

  lemma {:induction false} SumShortFalls(s: Sched, t: Sched, listing: seq<FlowId>)
    requires forall f :: f in listing ==> Shortfall(t, f) <= Shortfall(s, f)
    ensures SumShort(t, listing) <= SumShort(s, listing)
    ensures (exists f :: f in listing && Shortfall(t, f) < Shortfall(s, f)) ==> SumShort(t, listing) < SumShort(s, listing)
  {
    if listing != [] {
      assert listing == [listing[0]] + listing[1..];
      SumShortFalls(s, t, listing[1..]);
    }
  }

  lemma TakeLosesAnId(s: Sched, f: FlowId)
    requires Valid(s) && Queued(s, f)
    ensures Ids(Take(s, f)) < Ids(s)
  {
    var id := s.waiting[f][0].id;
    TakeHas(s, f);
    assert Has(s, f, id);
    assert id in Ids(s);
  }

  lemma SameQueuesSameIds(s: Sched, t: Sched)
    requires t.waiting == s.waiting && t.nextId == s.nextId
    ensures Ids(t) == Ids(s)
  {
    assert forall f, id :: Has(t, f, id) <==> Has(s, f, id);
  }

  /** A round that picks consumes an id; an empty round that credited someone keeps the ids and
      lowers the total shortfall. */
  lemma RoundShrinks(s: Sched, env: Env, cap: int)
    requires Valid(s)
    ensures var r := Round(s, env, cap);
      && (r.pick.Some? ==> Ids(r.next) < Ids(s))
      && (r.pick.None? && r.progressed ==>
            Ids(r.next) == Ids(s) && SumShort(r.next, r.next.cursor) < SumShort(s, s.cursor))
  {
    var r := Round(s, env, cap);
    if r.pick.Some? {
      var f := r.pick.value.flow;
      if r.pick.value.forced {
        TakeLosesAnId(s, f);
      } else {
        ReadyToServeValid(s, env, f);
        SameQueuesSameIds(s, ReadyToServe(s, env, f));
        TakeLosesAnId(ReadyToServe(s, env, f), f);
      }
    } else if r.progressed {
      SameQueuesSameIds(s, r.next);
      EmptyRoundLowersShortfall(s, env);
    }
  }

  lemma NobodyEligible(s: Sched, env: Env)
    requires Candidates(s, env, |s.cursor|) == []
    ensures forall f :: f in s.cursor ==> !Eligible(s, env, f)
  {
    CandidatesArePositions(s, env, |s.cursor|);
    forall f | f in s.cursor ensures !Eligible(s, env, f) {
      var i := IndexOf(s.cursor, f);
      if Queued(s, f) {
        var c := CandidateAt(s, env, i);
        assert c !in Candidates(s, env, |s.cursor|);
        assert !IsCandidate(s, env, |s.cursor|, c, i);
      }
    }
  }

  lemma EmptyRoundLowersShortfall(s: Sched, env: Env)
    requires Valid(s) && s.cursor != [] && Candidates(s, env, |s.cursor|) == []
    requires AnyCredited(s, env, |s.cursor|)
    ensures SumShort(Rotate(Credited(s, env)), Rotate(s).cursor) < SumShort(s, s.cursor)
  {
    hide Valid, CreditedUpTo, Candidates, Shortfall, Rotate, Eligible, Creditable;
    var c, t := s.cursor, Rotate(Credited(s, env));
    ShortfallsFall(s, env);
    var i :| 0 <= i < |c| && Creditable(s, env, c[i]);
    assert c[i] in c;
    SumShortFalls(s, t, c);
    RotatedSum(s, t);
  }

  lemma ShortfallsFall(s: Sched, env: Env)
    requires Valid(s) && Candidates(s, env, |s.cursor|) == []
    ensures var t := Rotate(Credited(s, env));
      forall f :: f in s.cursor ==>
        Shortfall(t, f) <= Shortfall(s, f) && (Creditable(s, env, f) ==> Shortfall(t, f) < Shortfall(s, f))
  {
    hide Valid, CreditedUpTo, Candidates, Shortfall, Eligible, Creditable;
    CreditedDeficit(s, env);
    NobodyEligible(s, env);
    forall f | f in s.cursor
      ensures var t := Rotate(Credited(s, env));
        Shortfall(t, f) <= Shortfall(s, f) && (Creditable(s, env, f) ==> Shortfall(t, f) < Shortfall(s, f))
    {
      ShortfallFalls(s, env, Rotate(Credited(s, env)), f);
    }
  }

  lemma ShortfallFalls(s: Sched, env: Env, t: Sched, f: FlowId)
    requires t.waiting == s.waiting && DeficitOf(t, f) == DeficitOf(s, f) + (if Creditable(s, env, f) then env.weight(f) else 0)
    requires !Eligible(s, env, f)
    ensures Shortfall(t, f) <= Shortfall(s, f) && (Creditable(s, env, f) ==> Shortfall(t, f) < Shortfall(s, f))
  {}

  lemma RotatedSum(s: Sched, t: Sched)
    requires s.cursor != []
    ensures SumShort(t, Rotate(s).cursor) == SumShort(t, s.cursor)
  {
    var c := s.cursor;
    assert c == [c[0]] + c[1..];
    SumShortAppend(t, [c[0]], c[1..]);
    SumShortAppend(t, c[1..], [c[0]]);
  }

  // ----- The loop -----

  /** The loop's next state after a pick: a failed delivery gives the permit back. */
  function AfterDelivery(s: Sched, delivered: bool): Sched {
    if delivered then s else s.(available := s.available + 1)
  }

  lemma AfterDeliveryValid(s: Sched, delivered: bool)
    requires Valid(s)
    ensures Valid(AfterDelivery(s, delivered)) && Ids(AfterDelivery(s, delivered)) == Ids(s)
  {
    SameQueuesValid(s, AfterDelivery(s, delivered));
    SameQueuesSameIds(s, AfterDelivery(s, delivered));
  }

  ghost function DrainFrom(s: Sched, world: World, k: nat): Drained
    requires Valid(s)
    decreases Ids(s), SumShort(s, s.cursor)
  {
    if Active(s) >= world.cap(k) || s.cursor == [] then Drained(s, [], k)
    else
      var r := Round(s, world.env(k), world.cap(k));
      RoundValid(s, world.env(k), world.cap(k));
      RoundShrinks(s, world.env(k), world.cap(k));
      match r.pick
      case None => if r.progressed then DrainFrom(r.next, world, k + 1) else Drained(r.next, [], k + 1)
      case Some(p) =>
        AfterDeliveryValid(r.next, world.delivers(k));
        var rest := DrainFrom(AfterDelivery(r.next, world.delivers(k)), world, k + 1);
        Drained(rest.final, [Service(p, k)] + rest.picks, rest.rounds)
  }

  /** One unfolding of `DrainFrom`, by outcome of its round. */
  lemma DrainStep(s: Sched, world: World, k: nat)
    requires Valid(s)
    ensures var r := Round(s, world.env(k), world.cap(k));
      if Active(s) >= world.cap(k) || s.cursor == [] then DrainFrom(s, world, k) == Drained(s, [], k)
      else if r.pick.None? && !r.progressed then DrainFrom(s, world, k) == Drained(r.next, [], k + 1)
      else
        && var t := if r.pick.None? then r.next else AfterDelivery(r.next, world.delivers(k));
        && Valid(t)
        && MeasureFalls(s, t)
        && DrainFrom(s, world, k)
           == Extend(if r.pick.None? then [] else [Service(r.pick.value, k)], DrainFrom(t, world, k + 1))
  {
    var r := Round(s, world.env(k), world.cap(k));
    RoundValid(s, world.env(k), world.cap(k));
    RoundShrinks(s, world.env(k), world.cap(k));
    if r.pick.Some? {
      AfterDeliveryValid(r.next, world.delivers(k));
    } else if r.progressed {
      assert [] + DrainFrom(r.next, world, k + 1).picks == DrainFrom(r.next, world, k + 1).picks;
    }
  }

  function Extend(picks: seq<Service>, rest: Drained): Drained {
    Drained(rest.final, picks + rest.picks, rest.rounds)
  }

  lemma ExtendTwice(a: seq<Service>, b: seq<Service>, rest: Drained)
    ensures Extend(a, Extend(b, rest)) == Extend(a + b, rest)
  {
    assert a + (b + rest.picks) == (a + b) + rest.picks;
  }

  /** The loop body; `stop` is its `break`, `looped` tells whether a round was run. */
  method Iterate(d: DrrState, world: World, k: nat) returns (stop: bool, looped: bool, served: seq<Service>)
    requires Valid(d.Model())
    modifies d
    ensures Valid(d.Model())
    ensures stop ==> served == []
    ensures stop ==> DrainFrom(old(d.Model()), world, k) == Drained(d.Model(), [], if looped then k + 1 else k)
    ensures !stop ==> looped && MeasureFalls(old(d.Model()), d.Model())
    ensures !stop ==> DrainFrom(old(d.Model()), world, k) == Extend(served, DrainFrom(d.Model(), world, k + 1))
  {
    hide Round, DrainFrom, SumShort, Ids;
    DrainStep(d.Model(), world, k);
    var cap, env := world.cap(k), world.env(k);
    if d.maxPermits - d.availablePermits >= cap || d.rrCursor == [] {
      return true, false, [];
    }
    var pick, progressed := d.TrySelect(env, cap);
    if pick.None? {
      return !progressed, true, [];
    }
    var ticket := new QueueTicket(pick.value.flow, d);
    Tickets.Deliver(ticket, world.delivers(k));
    return false, true, [Service(pick.value, k)];
  }

  ghost predicate MeasureFalls(s: Sched, t: Sched) {
    Ids(t) < Ids(s) || (Ids(t) == Ids(s) && SumShort(t, t.cursor) < SumShort(s, s.cursor))
  }

  method DrainLoop(d: DrrState, world: World) returns (picks: seq<Service>, rounds: nat)
    requires Valid(d.Model())
    modifies d
    ensures Drained(d.Model(), picks, rounds) == DrainFrom(old(d.Model()), world, 0)
    ensures Valid(d.Model())
  {
    picks, rounds := [], 0;
    ghost var whole := DrainFrom(d.Model(), world, 0);
    assert [] + whole.picks == whole.picks;
    var stop := false;
    while !stop
      invariant Valid(d.Model())
      invariant !stop ==> whole == Extend(picks, DrainFrom(d.Model(), world, rounds))
      invariant stop ==> whole == Drained(d.Model(), picks, rounds)
      decreases !stop, Ids(d.Model()), SumShort(d.Model(), d.Model().cursor)
    {
      var looped, served;
      stop, looped, served := Iterate(d, world, rounds);
      ghost var rest := if stop then Drained(d.Model(), [], 0) else DrainFrom(d.Model(), world, rounds + 1);
      ExtendTwice(picks, served, rest);
      assert stop ==> picks + [] == picks;
      picks, rounds := picks + served, if looped then rounds + 1 else rounds;
    }
  }

  // ----- Permits, and where the loop stops -----

  /** How many of the selections reached a live receiver. */
  function Delivered(picks: seq<Service>, world: World): nat {
    if picks == [] then 0
    else (if world.delivers(picks[0].round) then 1 else 0) + Delivered(picks[1..], world)
  }

  /** Selections happen in ascending iterations from `k` on and before `rounds`. */
  predicate InRounds(picks: seq<Service>, k: nat, rounds: nat) {
    && k <= rounds
    && (forall i :: 0 <= i < |picks| ==> k <= picks[i].round < rounds)
    && forall i, j :: 0 <= i < j < |picks| ==> picks[i].round < picks[j].round
  }

  lemma RoundPermits(s: Sched, env: Env, cap: int)
    ensures var r := Round(s, env, cap);
      Active(r.next) == Active(s) + (if r.pick.Some? then 1 else 0) && r.next.maxPermits == s.maxPermits
  {
    hide Candidates, CreditedUpTo, AnyCredited, Without;
  }

  lemma InRoundsExtends(p: Service, picks: seq<Service>, k: nat, rounds: nat)
    requires InRounds(picks, k + 1, rounds)
    ensures InRounds(picks, k, rounds)
    ensures p.round == k ==> InRounds([p] + picks, k, rounds)
  {}

  /** The permit law of the drain loop, for every world: a permit stays taken for exactly those selections whose
      delivery succeeded; every other is back in the pool. */
  lemma {:induction false} DrainKeepsPermitsOfDeliveries(s: Sched, world: World, k: nat)
    requires Valid(s)
    ensures var d := DrainFrom(s, world, k);
      && Active(d.final) == Active(s) + Delivered(d.picks, world)
      && d.final.maxPermits == s.maxPermits
      && InRounds(d.picks, k, d.rounds)
    decreases Ids(s), SumShort(s, s.cursor)
  {
    hide Valid, Round, Ids, SumShort;
    DrainStep(s, world, k);
    RoundPermits(s, world.env(k), world.cap(k));
    var r := Round(s, world.env(k), world.cap(k));
    if Active(s) < world.cap(k) && s.cursor != [] && (r.pick.Some? || r.progressed) {
      var t := if r.pick.None? then r.next else AfterDelivery(r.next, world.delivers(k));
      DrainKeepsPermitsOfDeliveries(t, world, k + 1);
      var rest := DrainFrom(t, world, k + 1);
      if r.pick.Some? {
        var p := Service(r.pick.value, k);
        assert ([p] + rest.picks)[1..] == rest.picks;
        InRoundsExtends(p, rest.picks, k, rest.rounds);
      } else {
        assert [] + rest.picks == rest.picks;
        InRoundsExtends(Service(Pick([], Pending(0, 0, 0), false), k), rest.picks, k, rest.rounds);
      }
    }
  }

  /** Nothing is left that a round could start on: no waiting flow is starved or earns credit. */
  ghost predicate Exhausted(s: Sched, env: Env) {
    forall f :: f in s.waiting ==> !Starved(s, env, f) && env.weight(f) <= 0
  }

  lemma RoundWithoutProgress(s: Sched, env: Env, cap: int)
    requires Valid(s) && Active(s) < cap && s.cursor != []
    requires Round(s, env, cap).pick.None? && !Round(s, env, cap).progressed
    ensures Exhausted(Round(s, env, cap).next, env)
  {
    hide CreditedUpTo, Candidates, IdsDistinct, Without;
    var t := Round(s, env, cap).next;
    assert t.waiting == s.waiting && t.stamp == s.stamp;
    forall f | f in t.waiting ensures !Starved(t, env, f) && env.weight(f) <= 0 {
      assert f in s.cursor;
      assert s.cursor[IndexOf(s.cursor, f)] == f;
    }
  }

  /** The loop never stops early: it ends at a closed cap gate, with nobody waiting, or after a round that found
      nobody starved and nobody to credit. */
  lemma {:induction false} DrainStopsOnlyWhenIdle(s: Sched, world: World, k: nat)
    requires Valid(s)
    ensures var d := DrainFrom(s, world, k);
      || Active(d.final) >= world.cap(d.rounds) || d.final.waiting == map[]
      || (d.rounds > k && Exhausted(d.final, world.env(d.rounds - 1)))
    decreases Ids(s), SumShort(s, s.cursor)
  {
    hide Valid, Round, Ids, SumShort, Exhausted, DrainFrom, AfterDelivery;
    DrainStep(s, world, k);
    var env, cap := world.env(k), world.cap(k);
    var r := Round(s, env, cap);
    if s.cursor == [] {
      NobodyWaits(s);
    } else if Active(s) < cap {
      if r.pick.None? && !r.progressed {
        RoundWithoutProgress(s, env, cap);
      } else {
        var t := if r.pick.None? then r.next else AfterDelivery(r.next, world.delivers(k));
        DrainKeepsPermitsOfDeliveries(t, world, k + 1);
        DrainStopsOnlyWhenIdle(t, world, k + 1);
      }
    }
  }

  lemma NobodyWaits(s: Sched)
    requires Valid(s) && s.cursor == []
    ensures s.waiting == map[]
  {}

  // ----- The loop as a run of the scheduler -----

  function PicksOf(services: seq<Service>): seq<Pick> {
    if services == [] then [] else [services[0].pick] + PicksOf(services[1..])
  }

  /** The drain is a run of rounds and permit releases that makes the same selections, so what holds of every run,
      service in order within a flow and the rate bound among it, holds of the drain. */
  lemma {:induction false} DrainIsARun(s: Sched, world: World, k: nat) returns (ops: seq<Op>)
    requires Valid(s)
    ensures Exec(s, ops) == DrainFrom(s, world, k).final
    ensures Picks(s, ops) == PicksOf(DrainFrom(s, world, k).picks)
    decreases Ids(s), SumShort(s, s.cursor)
  {
    hide Valid, Round, Ids, SumShort;
    DrainStep(s, world, k);
    var op := Op.Select(world.env(k), world.cap(k));
    var r := Round(s, world.env(k), world.cap(k));
    if Active(s) >= world.cap(k) || s.cursor == [] {
      ops := [];
    } else if r.pick.None? && !r.progressed {
      ops := [op];
      assert [op][1..] == [];
    } else {
      var t := if r.pick.None? then r.next else AfterDelivery(r.next, world.delivers(k));
      var later := DrainIsARun(t, world, k + 1);
      var rest := DrainFrom(t, world, k + 1);
      var tail := if r.pick.Some? && !world.delivers(k) then [Op.Release] + later else later;
      if r.pick.Some? && !world.delivers(k) {
        assert tail[1..] == later;
        ReleaseIsAStep(r.next, later);
      }
      ops := [op] + tail;
      assert ops[1..] == tail;
      if r.pick.Some? {
        var p := Service(r.pick.value, k);
        assert ([p] + rest.picks)[1..] == rest.picks;
      } else {
        assert [] + rest.picks == rest.picks;
      }
    }
  }

  lemma ReleaseIsAStep(s: Sched, later: seq<Op>)
    ensures Exec(s, [Op.Release] + later) == Exec(AfterDelivery(s, false), later)
    ensures Picks(s, [Op.Release] + later) == Picks(AfterDelivery(s, false), later)
  {
    assert ([Op.Release] + later)[1..] == later;
  }

  // ----- Closed form, with nothing interleaved and no starved flow -----

  /** Rounds of its own weight `f` needs before it is eligible. */
  function NeededBy(s: Sched, env: Env, f: FlowId): nat
    requires Creditable(s, env, f)
  {
    Needed(s.waiting[f][0].cost - DeficitOf(s, f), env.weight(f))
  }

  /** `r` is the fewest rounds any creditable flow needs. */
  ghost predicate FewestRounds(s: Sched, env: Env, r: nat) {
    && (exists f :: f in s.cursor && Creditable(s, env, f) && NeededBy(s, env, f) == r)
    && (forall f :: f in s.cursor && Creditable(s, env, f) ==> NeededBy(s, env, f) >= r)
  }

  /** When anyone is credited there is such an `r`, found by scanning the cursor. */
  lemma {:induction false} FewestRoundsExist(s: Sched, env: Env, n: nat) returns (r: nat)
    requires n <= |s.cursor| && AnyCredited(s, env, n)
    ensures r >= 1
    ensures exists f :: f in s.cursor[..n] && Creditable(s, env, f) && NeededBy(s, env, f) == r
    ensures forall f :: f in s.cursor[..n] && Creditable(s, env, f) ==> NeededBy(s, env, f) >= r
    ensures n == |s.cursor| ==> FewestRounds(s, env, r)
  {
    var f := s.cursor[n - 1];
    assert s.cursor[..n] == s.cursor[..n - 1] + [f];
    if AnyCredited(s, env, n - 1) {
      r := FewestRoundsExist(s, env, n - 1);
      if Creditable(s, env, f) && NeededBy(s, env, f) < r { r := NeededBy(s, env, f); }
    } else {
      r := NeededBy(s, env, f);
      forall g | g in s.cursor[..n - 1] ensures !Creditable(s, env, g) {
        var i :| 0 <= i < n - 1 && s.cursor[i] == g;
        assert !Creditable(s, env, s.cursor[i]);
      }
    }
    assert n == |s.cursor| ==> s.cursor[..n] == s.cursor;
  }

  /** The cursor after `k` rotations. */
  function RotateBy(c: seq<FlowId>, k: nat): (r: seq<FlowId>)
    ensures |r| == |c|
  {
    if k == 0 || c == [] then c
    else
      var r := RotateBy(c, k - 1);
      r[1..] + [r[0]]
  }

  /** `k * w`, by addition. */
  function Times(k: nat, w: int): (r: int)
    ensures w >= 0 ==> r >= 0
  {
    if k == 0 then 0 else Times(k - 1, w) + w
  }

  lemma {:induction false} TimesIsProduct(k: nat, w: int)
    ensures Times(k, w) == k * w
  {
    if k > 0 { TimesIsProduct(k - 1, w); }
  }

  lemma NeededWithin(n: int, w: int, k: nat)
    requires w >= 1 && k >= 1
    ensures Needed(n, w) <= k <==> n <= Times(k, w)
  {
    TimesIsProduct(k, w);
    NeededIsCeiling(n, w);
    var d := Needed(n, w);
    assert d <= k ==> k * w == d * w + (k - d) * w;
    assert d > k ==> (d - 1) * w == k * w + (d - 1 - k) * w;
  }

  /** The deficits after `k` rounds in which every creditable flow was credited. */
  function AdvancedDeficit(s: Sched, env: Env, k: nat): map<FlowId, int> {
    var credited := if k == 0 then {} else set f | f in s.waiting && Creditable(s, env, f);
    map f | f in s.deficit.Keys + credited ::
      DeficitOf(s, f) + (if Creditable(s, env, f) then Times(k, env.weight(f)) else 0)
  }

  /** The state after `k` empty rounds: `k` weights added to every creditable deficit, the cursor
      rotated `k` places, everything else untouched. */
  function Advanced(s: Sched, env: Env, k: nat): Sched {
    s.(deficit := AdvancedDeficit(s, env, k), cursor := RotateBy(s.cursor, k))
  }

  lemma {:induction false} RotateByKeepsFlows(c: seq<FlowId>, k: nat)
    requires NoDup(c)
    ensures NoDup(RotateBy(c, k)) && forall f :: f in RotateBy(c, k) <==> f in c
  {
    if k > 0 && c != [] {
      RotateByKeepsFlows(c, k - 1);
      var r := RotateBy(c, k - 1);
      assert r == [r[0]] + r[1..];
    }
  }

  lemma AdvancedValid(s: Sched, env: Env, k: nat)
    requires Valid(s)
    ensures Valid(Advanced(s, env, k))
  {
    var t := Advanced(s, env, k);
    RotateByKeepsFlows(s.cursor, k);
    assert DeficitsNonNegative(t);
    SameQueuesValid(s, t);
  }

  lemma AdvancedDeficitOf(s: Sched, env: Env, k: nat, f: FlowId)
    ensures DeficitOf(Advanced(s, env, k), f)
         == DeficitOf(s, f) + (if Creditable(s, env, f) then Times(k, env.weight(f)) else 0)
  {}

  lemma RotateByStep(c: seq<FlowId>, k: nat)
    requires c != []
    ensures var r := RotateBy(c, k); RotateBy(c, k + 1) == r[1..] + [r[0]]
  {}

  lemma AdvancedStep(s: Sched, env: Env, k: nat)
    requires NoDup(s.cursor) && s.cursor != [] && forall f :: f in s.cursor <==> f in s.waiting
    ensures Rotate(Credited(Advanced(s, env, k), env)) == Advanced(s, env, k + 1)
  {
    hide CreditedUpTo, RotateBy;
    RotateByStep(s.cursor, k);
    var a := Advanced(s, env, k);
    RotateByKeepsFlows(s.cursor, k);
    CreditedAt(a, env, |a.cursor|);
    assert a.cursor[..|a.cursor|] == a.cursor;
    var d, e := Credited(a, env).deficit, AdvancedDeficit(s, env, k + 1);
    forall f ensures (f in d <==> f in e) && (f in d ==> d[f] == e[f]) {
      AdvancedDeficitOf(s, env, k, f);
      assert Creditable(a, env, f) <==> Creditable(s, env, f);
    }
    assert d == e;
  }

  /** After `k` empty rounds a flow is eligible exactly when it needs at most `k + 1` rounds. */
  lemma EligibleAfter(s: Sched, env: Env, k: nat, f: FlowId)
    ensures Eligible(Advanced(s, env, k), env, f) <==> Creditable(s, env, f) && NeededBy(s, env, f) <= k + 1
  {
    AdvancedDeficitOf(s, env, k, f);
    if Creditable(s, env, f) {
      NeededWithin(s.waiting[f][0].cost - DeficitOf(s, f), env.weight(f), k + 1);
    }
  }

  lemma {:induction false} NoneStarvedFrom(s: Sched, env: Env, i: nat)
    requires i <= |s.cursor| && forall f :: f in s.cursor ==> !Starved(s, env, f)
    ensures FirstStarved(s, env, i) == None
    decreases |s.cursor| - i
  {
    if i < |s.cursor| { NoneStarvedFrom(s, env, i + 1); }
  }

  lemma AdvancedNotStarved(s: Sched, env: Env, k: nat)
    requires NoDup(s.cursor) && FirstStarved(s, env, 0).None?
    ensures FirstStarved(Advanced(s, env, k), env, 0).None?
  {
    var a := Advanced(s, env, k);
    RotateByKeepsFlows(s.cursor, k);
    assert forall f :: f in a.cursor ==> !Starved(s, env, f);
    assert forall f :: Starved(a, env, f) <==> Starved(s, env, f);
    NoneStarvedFrom(a, env, 0);
  }

  lemma AdvancedStillCredits(s: Sched, env: Env, k: nat)
    requires NoDup(s.cursor) && AnyCredited(s, env, |s.cursor|)
    ensures |Advanced(s, env, k).cursor| == |s.cursor| && AnyCredited(Advanced(s, env, k), env, |s.cursor|)
  {
    var a := Advanced(s, env, k);
    RotateByKeepsFlows(s.cursor, k);
    var i :| 0 <= i < |s.cursor| && Creditable(s, env, s.cursor[i]);
    assert s.cursor[i] in a.cursor;
    var j :| 0 <= j < |a.cursor| && a.cursor[j] == s.cursor[i];
    assert Creditable(a, env, a.cursor[j]);
  }

  lemma NoCandidateBeforeR(s: Sched, env: Env, k: nat, r: nat)
    requires NoDup(s.cursor) && FewestRounds(s, env, r) && k + 1 < r
    ensures Candidates(Advanced(s, env, k), env, |s.cursor|) == []
  {
    RotateByKeepsFlows(s.cursor, k);
    forall f | f in s.cursor ensures !Eligible(Advanced(s, env, k), env, f) {
      EligibleAfter(s, env, k, f);
    }
    NoEligibleNoCandidates(Advanced(s, env, k), env, |s.cursor|);
  }

  lemma {:induction false} NoEligibleNoCandidates(s: Sched, env: Env, n: nat)
    requires n <= |s.cursor| && forall f :: f in s.cursor ==> !Eligible(s, env, f)
    ensures Candidates(s, env, n) == []
  {
    if n > 0 { NoEligibleNoCandidates(s, env, n - 1); }
  }

  /** The situation the closed form is about: a free permit, nobody starved, somebody to credit. */
  ghost predicate QuietStart(s: Sched, env: Env, r: nat) {
    && NoDup(s.cursor) && (forall f :: f in s.cursor <==> f in s.waiting)
    && FirstStarved(s, env, 0).None? && FewestRounds(s, env, r)
  }

  lemma QuietStartFacts(s: Sched, env: Env, r: nat)
    requires QuietStart(s, env, r)
    ensures NoDup(s.cursor) && FirstStarved(s, env, 0).None?
  {}

  lemma QuietStartCredits(s: Sched, env: Env, r: nat)
    requires QuietStart(s, env, r)
    ensures r >= 1 && s.cursor != [] && AnyCredited(s, env, |s.cursor|)
  {
    var f :| f in s.cursor && Creditable(s, env, f) && NeededBy(s, env, f) == r;
    var i := IndexOf(s.cursor, f);
    assert Creditable(s, env, s.cursor[i]);
  }

  /** Before round R nothing is served: the round only credits and rotates. */
  lemma EmptyRound(s: Sched, env: Env, cap: int, k: nat, r: nat)
    requires QuietStart(s, env, r) && Active(s) < cap && k + 1 < r
    ensures Round(Advanced(s, env, k), env, cap) == RoundResult(None, true, Advanced(s, env, k + 1))
  {
    QuietStartCredits(s, env, r);
    AdvancedNotStarved(s, env, k);
    AdvancedStillCredits(s, env, k);
    NoCandidateBeforeR(s, env, k, r);
    AdvancedStep(s, env, k);
    EmptyRoundResult(Advanced(s, env, k), env, cap);
  }

  lemma EmptyRoundResult(s: Sched, env: Env, cap: int)
    requires Active(s) < cap && s.cursor != [] && FirstStarved(s, env, 0).None?
    requires Candidates(s, env, |s.cursor|) == [] && AnyCredited(s, env, |s.cursor|)
    ensures Round(s, env, cap) == RoundResult(None, true, Rotate(Credited(s, env)))
  {}

  lemma SomeoneEligibleInR(s: Sched, env: Env, r: nat) returns (f: FlowId)
    requires QuietStart(s, env, r) && r >= 1
    ensures f in Advanced(s, env, r - 1).cursor && Eligible(Advanced(s, env, r - 1), env, f)
  {
    hide Eligible, Creditable, NeededBy, AdvancedDeficit, RotateBy, Times;
    f :| f in s.cursor && Creditable(s, env, f) && NeededBy(s, env, f) == r;
    EligibleAfter(s, env, r - 1, f);
    RotateByKeepsFlows(s.cursor, r - 1);
  }

  lemma PickIsEligible(s: Sched, env: Env, cap: int, f: FlowId)
    requires Active(s) < cap && f in s.cursor && Eligible(s, env, f) && FirstStarved(s, env, 0).None?
    ensures var p := Round(s, env, cap).pick;
      p.Some? && !p.value.forced && p.value.flow in s.cursor && Eligible(s, env, p.value.flow)
  {
    if Candidates(s, env, |s.cursor|) == [] { NobodyEligible(s, env); }
    var c := Candidates(s, env, |s.cursor|);
    assert c[KvIndex(c, env.Bias())] in c;
  }

  /** Round R serves, on credit, a flow that needed exactly R rounds. */
  lemma ServingRound(s: Sched, env: Env, cap: int, r: nat)
    requires QuietStart(s, env, r) && r >= 1 && Active(s) < cap
    ensures var p := Round(Advanced(s, env, r - 1), env, cap).pick;
      && p.Some? && !p.value.forced && p.value.flow in s.cursor && Creditable(s, env, p.value.flow)
      && NeededBy(s, env, p.value.flow) == r
  {
    var f := SomeoneEligibleInR(s, env, r);
    var a := Advanced(s, env, r - 1);
    AdvancedNotStarved(s, env, r - 1);
    PickIsEligible(a, env, cap, f);
    EligibleInRNeedsR(s, env, r, Round(a, env, cap).pick.value.flow);
  }

  lemma EligibleInRNeedsR(s: Sched, env: Env, r: nat, g: FlowId)
    requires QuietStart(s, env, r) && r >= 1
    requires g in Advanced(s, env, r - 1).cursor && Eligible(Advanced(s, env, r - 1), env, g)
    ensures g in s.cursor && Creditable(s, env, g) && NeededBy(s, env, g) == r
  {
    hide Eligible, Creditable, NeededBy;
    EligibleAfter(s, env, r - 1, g);
    RotateByKeepsFlows(s.cursor, r - 1);
  }

  ghost predicate SameWeights(env: Env, e: Env) {
    forall f :: e.weight(f) == env.weight(f)
  }

  /** The weights stay those of `env`, no round finds a flow starved, and a permit stays free. Clock
      readings, priorities, footprints and pressure may differ from round to round. */
  ghost predicate Undisturbed(world: World, s: Sched, env: Env, rounds: nat) {
    forall k :: 0 <= k < rounds ==>
      SameWeights(env, world.env(k)) && FirstStarved(s, world.env(k), 0).None? && world.cap(k) > Active(s)
  }

  /** Only the weights decide who is creditable and for how many rounds. */
  lemma OnlyWeightsCount(s: Sched, env: Env, e: Env, f: FlowId)
    requires SameWeights(env, e)
    ensures Creditable(s, e, f) <==> Creditable(s, env, f)
    ensures Creditable(s, env, f) ==> NeededBy(s, e, f) == NeededBy(s, env, f)
  {}

  lemma AdvancedAlike(s: Sched, env: Env, e: Env, k: nat)
    requires SameWeights(env, e)
    ensures Advanced(s, e, k) == Advanced(s, env, k)
  {
    hide Times;
    var a, b := AdvancedDeficit(s, e, k), AdvancedDeficit(s, env, k);
    assert forall f :: Creditable(s, e, f) <==> Creditable(s, env, f);
    assert a.Keys == b.Keys;
    assert a == b;
  }

  lemma QuietAlike(s: Sched, env: Env, e: Env, r: nat)
    requires QuietStart(s, env, r) && SameWeights(env, e) && FirstStarved(s, e, 0).None?
    ensures QuietStart(s, e, r)
  {
    hide Creditable, NeededBy;
    forall f ensures Creditable(s, e, f) <==> Creditable(s, env, f)
      ensures Creditable(s, env, f) ==> NeededBy(s, e, f) == NeededBy(s, env, f)
    {
      OnlyWeightsCount(s, env, e, f);
    }
    var f :| f in s.cursor && Creditable(s, env, f) && NeededBy(s, env, f) == r;
    assert f in s.cursor && Creditable(s, e, f) && NeededBy(s, e, f) == r;
  }

  lemma AdvancedByZero(s: Sched, env: Env)
    ensures Advanced(s, env, 0) == s
  {
    assert AdvancedDeficit(s, env, 0) == s.deficit;
  }

  lemma EmptyRoundPasses(s: Sched, env: Env, world: World, k: nat, r: nat)
    requires QuietStart(s, env, r) && k + 1 < r && Undisturbed(world, s, env, r)
    requires Valid(Advanced(s, env, k)) && Valid(Advanced(s, env, k + 1))
    ensures DrainFrom(Advanced(s, env, k), world, k) == DrainFrom(Advanced(s, env, k + 1), world, k + 1)
  {
    hide Valid, Round, DrainFrom, QuietStart, AdvancedDeficit, RotateBy;
    var e := world.env(k);
    assert s.cursor != [] by { QuietStartCredits(s, env, r); }
    QuietAlike(s, env, e, r);
    AdvancedAlike(s, env, e, k);
    AdvancedAlike(s, env, e, k + 1);
    EmptyRound(s, e, world.cap(k), k, r);
    PassOneRound(Advanced(s, env, k), Advanced(s, env, k + 1), world, k);
  }

  lemma {:induction false} EmptyRoundsPass(s: Sched, env: Env, world: World, k: nat, r: nat)
    requires Valid(s) && QuietStart(s, env, r) && k < r && Undisturbed(world, s, env, r)
    ensures Valid(Advanced(s, env, k))
    ensures DrainFrom(s, world, 0) == DrainFrom(Advanced(s, env, k), world, k)
  {
    hide Valid, DrainFrom, QuietStart;
    AdvancedValid(s, env, k);
    if k == 0 {
      AdvancedByZero(s, env);
    } else {
      EmptyRoundsPass(s, env, world, k - 1, r);
      EmptyRoundPasses(s, env, world, k - 1, r);
    }
  }

  lemma PassOneRound(s: Sched, t: Sched, world: World, k: nat)
    requires Valid(s) && Valid(t) && Active(s) < world.cap(k) && s.cursor != []
    requires Round(s, world.env(k), world.cap(k)) == RoundResult(None, true, t)
    ensures DrainFrom(s, world, k) == DrainFrom(t, world, k + 1)
  {
    DrainStep(s, world, k);
    assert [] + DrainFrom(t, world, k + 1).picks == DrainFrom(t, world, k + 1).picks;
  }

  lemma FirstPick(s: Sched, world: World, k: nat, p: Pick)
    requires Valid(s) && Active(s) < world.cap(k) && s.cursor != []
    requires Round(s, world.env(k), world.cap(k)).pick == Some(p)
    ensures DrainFrom(s, world, k).picks != [] && DrainFrom(s, world, k).picks[0] == Service(p, k)
  {
    DrainStep(s, world, k);
  }

  /** The drain loop runs exactly R - 1 empty rounds and then serves, where R is the fewest rounds
      of its own weight any creditable flow needs; the request it serves belongs to such a flow. */
  lemma DrainServesInRoundR(s: Sched, env: Env, world: World, r: nat)
    requires Valid(s) && QuietStart(s, env, r) && Undisturbed(world, s, env, r)
    ensures r >= 1 && Valid(Advanced(s, env, r - 1))
    ensures DrainFrom(s, world, 0) == DrainFrom(Advanced(s, env, r - 1), world, r - 1)
    ensures DrainFrom(s, world, 0).picks != []
    ensures var first := DrainFrom(s, world, 0).picks[0];
      && first.round == r - 1 && !first.pick.forced
      && Creditable(s, env, first.pick.flow) && NeededBy(s, env, first.pick.flow) == r
  {
    hide Valid, DrainFrom, QuietStart;
    QuietStartCredits(s, env, r);
    EmptyRoundsPass(s, env, world, r - 1, r);
    FirstPickInR(s, env, world, r);
  }

  lemma FirstPickInR(s: Sched, env: Env, world: World, r: nat)
    requires QuietStart(s, env, r) && r >= 1 && Undisturbed(world, s, env, r)
    requires Valid(Advanced(s, env, r - 1))
    ensures var d := DrainFrom(Advanced(s, env, r - 1), world, r - 1);
      && d.picks != []
      && d.picks[0].round == r - 1 && !d.picks[0].pick.forced
      && Creditable(s, env, d.picks[0].pick.flow) && NeededBy(s, env, d.picks[0].pick.flow) == r
  {
    hide Valid, DrainFrom, QuietStart, Round, Creditable, NeededBy, AdvancedDeficit, RotateBy;
    assert s.cursor != [] by { QuietStartCredits(s, env, r); }
    var e, a := world.env(r - 1), Advanced(s, env, r - 1);
    QuietAlike(s, env, e, r);
    AdvancedAlike(s, env, e, r - 1);
    ServingRound(s, e, world.cap(r - 1), r);
    var p := Round(a, e, world.cap(r - 1)).pick.value;
    OnlyWeightsCount(s, env, e, p.flow);
    FirstPick(a, world, r - 1, p);
  }

  /** Without bias the flow served in round R has the highest priority among those that need R
      rounds, and stands first among equals in the cursor as rotated by the empty rounds. */
  lemma DrainServesBestInRoundR(s: Sched, env: Env, cap: int, r: nat, g: FlowId)
    requires Valid(s) && QuietStart(s, env, r) && r >= 1 && Active(s) < cap && env.Bias() <= 0.0
    requires g in s.cursor && Creditable(s, env, g) && NeededBy(s, env, g) == r
    ensures var c := RotateBy(s.cursor, r - 1);
      var p := Round(Advanced(s, env, r - 1), env, cap).pick;
      && p.Some? && p.value.flow in c && g in c
      && env.priority(p.value.flow) >= env.priority(g)
      && (env.priority(p.value.flow) == env.priority(g) ==> IndexOf(c, p.value.flow) <= IndexOf(c, g))
  {
    hide Valid, Round, QuietStart;
    var a := Advanced(s, env, r - 1);
    QuietStartFacts(s, env, r);
    assert g in a.cursor by { RotateByKeepsFlows(s.cursor, r - 1); }
    assert Eligible(a, env, g) by { EligibleAfter(s, env, r - 1, g); }
    assert FirstStarved(a, env, 0).None? by { AdvancedNotStarved(s, env, r - 1); }
    AdvancedValid(s, env, r - 1);
    BestRound(a, env, cap, g);
  }

  lemma BestRound(s: Sched, env: Env, cap: int, g: FlowId)
    requires Valid(s) && Active(s) < cap && FirstStarved(s, env, 0).None? && env.Bias() <= 0.0
    requires g in s.cursor && Eligible(s, env, g)
    ensures var p := Round(s, env, cap).pick;
      && p.Some? && p.value.flow in s.cursor
      && env.priority(p.value.flow) >= env.priority(g)
      && (env.priority(p.value.flow) == env.priority(g) ==> IndexOf(s.cursor, p.value.flow) <= IndexOf(s.cursor, g))
  {
    WinnerIsBestEligible(s, env, g);
  }

  /** When every waiting weight truncates to 0 or less and nobody is starved, the loop stops after
      at most one round, which leaves every deficit and queue as it was. */
  lemma DrainStopsWithoutWeight(s: Sched, world: World, k: nat)
    requires Valid(s) && FirstStarved(s, world.env(k), 0).None?
    requires forall f :: f in s.waiting ==> world.env(k).weight(f) <= 0
    ensures DrainFrom(s, world, k).picks == []
    ensures DrainFrom(s, world, k).final.waiting == s.waiting && DrainFrom(s, world, k).final.deficit == s.deficit
    ensures DrainFrom(s, world, k).rounds <= k + 1
  {
    WeightlessRound(s, world.env(k));
    DrainStep(s, world, k);
  }

  lemma WeightlessRound(s: Sched, env: Env)
    requires NoDup(s.cursor) && forall f :: f in s.waiting ==> env.weight(f) <= 0
    ensures !AnyCredited(s, env, |s.cursor|) && Candidates(s, env, |s.cursor|) == []
    ensures Credited(s, env) == s
  {
    NoEligibleNoCandidates(s, env, |s.cursor|);
    CreditedAt(s, env, |s.cursor|);
    assert Credited(s, env).deficit == s.deficit;
  }
}
