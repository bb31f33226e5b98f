/** The scheduler state that is changed in place under the mutex, with the two per-flow fields
    (`enqueued_at`, `credit`) a round also writes. Every method is proved against `Drr`. */
module DrrScheduler {
  import opened Flows
  import opened Priority
  import opened Drr

  class DrrState {
    var waiting: map<FlowId, seq<Pending>>
    var rrCursor: seq<FlowId>
    var availablePermits: int
    const maxPermits: nat
    var nextPendingId: nat
    var deficit: map<FlowId, int>
    var enqueuedAt: map<FlowId, int>
    var credit: map<FlowId, int>

    function Model(): Sched
      reads this
    {
      Sched(waiting, rrCursor, availablePermits, maxPermits, nextPendingId, deficit, enqueuedAt, credit)
    }

    constructor (maxActiveFlows: nat)
      ensures Model() == Init(maxActiveFlows) && Valid(Model())
    {
      waiting, rrCursor, deficit, enqueuedAt, credit := map[], [], map[], map[], map[];
      availablePermits, maxPermits, nextPendingId := maxActiveFlows, maxActiveFlows, 0;
    }

    /** The locked part of `admit_blocking` and `admit_hybrid`. */
    method Enqueue(f: FlowId, cost: int, at: int) returns (id: nat)
      requires Valid(Model())
      modifies this
      ensures id == old(nextPendingId) && Model() == Push(old(Model()), f, cost, at)
      ensures Valid(Model())
      ensures waiting == old(waiting)[f := (if f in old(waiting) then old(waiting)[f] else []) + [Pending(id, cost, at)]]
      ensures rrCursor == if f in old(waiting) then old(rrCursor) else old(rrCursor) + [f]
      ensures nextPendingId == id + 1 && availablePermits == old(availablePermits)
      ensures deficit == old(deficit) && enqueuedAt == old(enqueuedAt) && credit == old(credit)
    {
      PushValid(Model(), f, cost, at);
      id := nextPendingId;
      PushBack(f, cost, at);
    }

    method PushBack(f: FlowId, cost: int, at: int)
      modifies this
      ensures Model() == Push(old(Model()), f, cost, at)
    {
      var id := nextPendingId;
      nextPendingId := nextPendingId + 1;
      if f !in waiting { waiting := waiting[f := []]; }
      waiting := waiting[f := waiting[f] + [Pending(id, cost, at)]];
      if f !in rrCursor { rrCursor := rrCursor + [f]; }
    }

    /** The write of `enqueued_at` after the lock is released. */
    method StampEnqueued(f: FlowId, at: int)
      modifies this`enqueuedAt
      ensures Model() == old(Model()).(stamp := old(enqueuedAt)[f := at])
    {
      enqueuedAt := enqueuedAt[f := at];
    }

    /** The locked part of `DrrAdmitGuard::drop` on a guard that was not consumed. */
    method DropGuard(f: FlowId, id: Option<nat>)
      requires Valid(Model())
      modifies this
      ensures Model() == Cancel(old(Model()), f, id) && Valid(Model())
      ensures forall g :: g != f ==> (g in waiting <==> g in old(waiting)) && (g in waiting ==> waiting[g] == old(waiting)[g])
      ensures deficit == if f in old(waiting) && f !in waiting then old(deficit) - {f} else old(deficit)
      ensures enqueuedAt == old(enqueuedAt) - {f}
      ensures availablePermits == old(availablePermits) && credit == old(credit)
    {
      CancelValid(Model(), f, id);
      CancelForgetsEmptied(Model(), f, id);
      RemoveEntry(f, id);
    }

    method RemoveEntry(f: FlowId, id: Option<nat>)
      modifies this
      ensures Model() == Cancel(old(Model()), f, id)
    {
      if f in waiting {
        if id.Some? { waiting := waiting[f := WithoutId(waiting[f], id.value)]; }
        if waiting[f] == [] {
          waiting := waiting - {f};
          deficit := deficit - {f};
          rrCursor := Without(rrCursor, f);
        }
      }
      enqueuedAt := enqueuedAt - {f};
    }

    /** `report_accounting`: completion and cancellation both add the restore cost. */
    method ReportAccounting(f: FlowId, report: AccountingReport)
      modifies this`credit
      ensures Model() == Restore(old(Model()), f, report.restoreCost)
    {
      var current := if f in credit then credit[f] else 0;
      match report
      case Completed(_, restoreCost) => credit := credit[f := current + restoreCost];
      case Cancelled(restoreCost) => credit := credit[f := current + restoreCost];
    }

    /** The permit handed back by a dropped ticket, or by the loop after a failed delivery. */
    method ReleasePermit()
      modifies this`availablePermits
      ensures Model() == old(Model()).(available := old(availablePermits) + 1)
    {
      availablePermits := availablePermits + 1;
    }

    /** Pop the head of `f`, debit, rotate, clear the stamp, take the permit: the tail shared by a
        forced and a credit selection. The source's `expect`s are this precondition. */
    method Serve(f: FlowId) returns (pending: Pending)
      requires Queued(Model(), f)
      modifies this
      ensures Model() == Take(old(Model()), f) && pending == old(waiting[f][0])
    {
      pending := waiting[f][0];
      waiting := waiting[f := waiting[f][1..]];
      var current := if f in credit then credit[f] else 0;
      credit := credit[f := current - pending.cost];
      var emptied := waiting[f] == [];
      if emptied { waiting := waiting - {f}; }
      rrCursor := Without(rrCursor, f);
      if !emptied { rrCursor := rrCursor + [f]; }
      enqueuedAt := enqueuedAt - {f};
      availablePermits := availablePermits - 1;
    }

    method TrySelect(env: Env, cap: int) returns (pick: Option<Pick>, progressed: bool)
      requires Valid(Model())
      modifies this
      ensures RoundResult(pick, progressed, Model()) == Round(old(Model()), env, cap)
      ensures Valid(Model())
    {
      RoundValid(Model(), env, cap);
      if maxPermits - availablePermits >= cap || rrCursor == [] {
        return None, false;
      }
      // Phase 1: starved flows first.
      var starved := FindStarved(env);
      if starved.Some? {
        var forced := Serve(starved.value);
        return Some(Pick(starved.value, forced, true)), true;
      }
      pick, progressed := SelectByCredit(env);
    }

    method FindStarved(env: Env) returns (starved: Option<FlowId>)
      ensures starved == FirstStarved(Model(), env, 0)
    {
      for i := 0 to |rrCursor|
        invariant FirstStarved(Model(), env, 0) == FirstStarved(Model(), env, i)
      {
        var f := rrCursor[i];
        if f in waiting && waiting[f] != [] && f in enqueuedAt && env.clock(f) - enqueuedAt[f] > env.timeout {
          return Some(f);
        }
      }
      starved := None;
    }

    /** Phases 2 and 3: credit everyone waiting, then serve the best eligible flow or rotate. */
    method SelectByCredit(env: Env) returns (pick: Option<Pick>, progressed: bool)
      requires NoDup(rrCursor) && rrCursor != [] && forall f :: f in rrCursor ==> Queued(Model(), f)
      modifies this
      ensures RoundResult(pick, progressed, Model()) == CreditRound(old(Model()), env)
    {
      ghost var s := Model();
      var eligible, credited := AccumulateCredit(env);
      if eligible == [] {
        // No queue is empty here, so the source's sweep of empty queues finds nothing.
        rrCursor := rrCursor[1..] + [rrCursor[0]];
        return None, credited;
      }
      var cands := BuildCandidates(env, eligible);
      assert cands == Candidates(s, env, |s.cursor|);
      var best := Select(env.kv, cands, env.pressure);
      assert best.value in cands;
      var f := best.value.flow;
      deficit := deficit - {f};
      assert Model() == ReadyToServe(s, env, f);
      var pending := Serve(f);
      return Some(Pick(f, pending, false)), true;
    }

    method BuildCandidates(env: Env, eligible: seq<nat>) returns (cands: seq<Candidate>)
      requires forall k :: 0 <= k < |eligible| ==> eligible[k] < |rrCursor| && Queued(Model(), rrCursor[eligible[k]])
      ensures |cands| == |eligible|
      ensures forall k :: 0 <= k < |eligible| ==> cands[k] == CandidateAt(Model(), env, eligible[k])
    {
      cands := [];
      for i := 0 to |eligible|
        invariant |cands| == i
        invariant forall k :: 0 <= k < i ==> cands[k] == CandidateAt(Model(), env, eligible[k])
      {
        var f := rrCursor[eligible[i]];
        cands := cands +
          [Candidate(f, env.priority(f), waiting[f][0].enqueuedAt, eligible[i] as real, env.footprint(f))];
      }
    }

    /** Phase 2: the cursor positions that became eligible, in cursor order. */
    method AccumulateCredit(env: Env) returns (eligible: seq<nat>, credited: bool)
      requires NoDup(rrCursor) && forall f :: f in rrCursor ==> Queued(Model(), f)
      modifies this`deficit
      ensures Model() == Credited(old(Model()), env)
      ensures credited == AnyCredited(old(Model()), env, |rrCursor|)
      ensures Positions(old(Model()), env, eligible, |rrCursor|)
    {
      hide Candidates, Positions, CandidateAt;
      ghost var s := Model();
      eligible, credited := [], false;
      NoPositions(s, env);
      for i := 0 to |rrCursor|
        invariant deficit == CreditedUpTo(s, env, i)
        invariant credited == AnyCredited(s, env, i)
        invariant Positions(s, env, eligible, i)
      {
        CreditedAt(s, env, i);
        var f := rrCursor[i];
        assert f in rrCursor && f !in rrCursor[..i];
        PositionsStep(s, env, eligible, i);
        var cost := waiting[f][0].cost;
        if env.weight(f) > 0 {
          var d := (if f in deficit then deficit[f] else 0) + env.weight(f);
          deficit := deficit[f := d];
          credited := true;
          if d >= cost { eligible := eligible + [i]; }
        }
      }
    }
  }

  /** `eligible` are the cursor positions of the candidates among the first `n` entries. */
  predicate Positions(s: Sched, env: Env, eligible: seq<nat>, n: nat)
    requires n <= |s.cursor|
  {
    var c := Candidates(s, env, n);
    |eligible| == |c|
    && forall k :: 0 <= k < |c| ==>
         eligible[k] < |s.cursor| && Queued(s, s.cursor[eligible[k]]) && c[k] == CandidateAt(s, env, eligible[k])
  }

  lemma NoPositions(s: Sched, env: Env)
    ensures Positions(s, env, [], 0)
  {}

  lemma PositionsStep(s: Sched, env: Env, eligible: seq<nat>, i: nat)
    requires i < |s.cursor| && Positions(s, env, eligible, i)
    ensures Positions(s, env, if Eligible(s, env, s.cursor[i]) then eligible + [i] else eligible, i + 1)
  {
    hide CandidateAt;
  }
}
