/** Bounded waiting for a request at any depth of its queue. */
module QueuedWaiting {
  import opened Flows
  import opened Drr
  import opened Fairness
  import opened BoundedWaiting

  /** The bound for one request that starts at the head without a deficit. */
  function Turn(cost: int, w: int, longest: nat): int
    requires w >= 1
  {
    Needed(cost, w) + longest - 1
  }

  /** The turns of the requests of `q` up to and including request `id`. */
  function Turns(q: seq<Pending>, id: nat, w: int, longest: nat): (n: int)
    requires w >= 1 && longest >= 1
    ensures n >= 0
  {
    if q == [] then 0
    else Turn(q[0].cost, w, longest) + if q[0].id == id then 0 else Turns(q[1..], id, w, longest)
  }

  predicate Lists(q: seq<Pending>, id: nat) {
    exists i :: 0 <= i < |q| && q[i].id == id
  }

  predicate Holds(s: Sched, f: FlowId, id: nat) {
    Queued(s, f) && f in s.cursor && Lists(s.waiting[f], id)
  }

  /** The credit rounds left for the head, and the turns of those behind it up to `id`. */
  function Left(s: Sched, f: FlowId, id: nat, w: int, longest: nat): int
    requires w >= 1 && longest >= 1 && Queued(s, f) && f in s.cursor
  {
    RoundsLeft(s, f, w, longest) + if s.waiting[f][0].id == id then 0 else Turns(s.waiting[f][1..], id, w, longest)
  }

  // ----- Turns of a queue that changes -----

  lemma {:induction false} TurnsAppend(q: seq<Pending>, p: Pending, id: nat, w: int, longest: nat)
    requires w >= 1 && longest >= 1 && Lists(q, id)
    ensures Turns(q + [p], id, w, longest) == Turns(q, id, w, longest)
  {
    assert (q + [p])[0] == q[0] && (q + [p])[1..] == q[1..] + [p];
    if q[0].id != id {
      var i :| 0 <= i < |q| && q[i].id == id;
      assert q[1..][i - 1] == q[i];
      TurnsAppend(q[1..], p, id, w, longest);
    }
  }

  /** Requests that are cancelled ahead of `id` only shorten its wait. */
  lemma {:induction false} TurnsWithout(q: seq<Pending>, gone: nat, id: nat, w: int, longest: nat)
    requires w >= 1 && longest >= 1 && gone != id
    ensures Turns(WithoutId(q, gone), id, w, longest) <= Turns(q, id, w, longest)
  {
    if q != [] {
      TurnsWithout(q[1..], gone, id, w, longest);
      if q[0].id != gone {
        assert WithoutId(q, gone)[1..] == WithoutId(q[1..], gone);
      }
    }
  }

  /** More deficit never means more rounds. */
  lemma {:induction false} NeededFalls(n: int, m: int, w: int)
    requires w >= 1 && n <= m
    ensures Needed(n, w) <= Needed(m, w)
    decreases if m > 0 then m else 0
  {
    if n > w { NeededFalls(n - w, m - w, w); }
  }

  /** A head needs at most its turn, whatever deficit it finds. */
  lemma HeadWithinTurn(s: Sched, f: FlowId, w: int, longest: nat)
    requires w >= 1 && Queued(s, f) && f in s.cursor && |s.cursor| <= longest && DeficitsNonNegative(s)
    ensures 1 <= RoundsLeft(s, f, w, longest) <= Turn(s.waiting[f][0].cost, w, longest)
  {
    NeededFalls(s.waiting[f][0].cost - DeficitOf(s, f), s.waiting[f][0].cost, w);
  }

  lemma LeftWithinTurns(s: Sched, f: FlowId, id: nat, w: int, longest: nat)
    requires w >= 1 && longest >= 1 && Queued(s, f) && f in s.cursor && |s.cursor| <= longest && DeficitsNonNegative(s)
    ensures Left(s, f, id, w, longest) <= Turns(s.waiting[f], id, w, longest)
  {
    HeadWithinTurn(s, f, w, longest);
  }

  // ----- What an action does to one queue -----

  /** A queue stays, gains an entry at its end, loses its head, or loses a cancelled entry. */
  predicate Changed(q: seq<Pending>, r: seq<Pending>, op: Op) {
    || r == q
    || (op.Enqueue? && |r| == |q| + 1 && r == q + [r[|q|]])
    || (op.Select? && q != [] && r == q[1..])
    || (op.Drop? && op.id.Some? && r == WithoutId(q, op.id.value))
  }

  lemma QueueAfter(s: Sched, op: Op, f: FlowId)
    requires Valid(s) && Queued(s, f) && Queued(Do(s, op), f)
    ensures Changed(s.waiting[f], Do(s, op).waiting[f], op)
  {
    hide CreditedUpTo, Candidates, AnyCredited, Without, IdsDistinct, CursorExact, Ascending;
  }

  /** With the head in place, what lies between it and `id` never grows. */
  lemma TailShrinks(q: seq<Pending>, r: seq<Pending>, op: Op, id: nat, w: int, longest: nat, bound: nat)
    requires w >= 1 && longest >= 1 && q != [] && r != [] && Changed(q, r, op) && r[0] == q[0]
    requires Ascending(q, bound) && Lists(q, id) && Lists(r, id) && q[0].id != id
    ensures Turns(r[1..], id, w, longest) <= Turns(q[1..], id, w, longest)
  {
    hide Turns;
    var i :| 0 <= i < |q| && q[i].id == id;
    assert q[1..][i - 1].id == id;
    if op.Enqueue? && r != q {
      assert r[1..] == q[1..] + [r[|q|]];
      TurnsAppend(q[1..], r[|q|], id, w, longest);
    } else if op.Drop? && r != q {
      var j :| 0 <= j < |r| && r[j].id == id;
      assert r[j] in r && r[0] in r;
      assert r[1..] == WithoutId(q[1..], op.id.value);
      TurnsWithout(q[1..], op.id.value, id, w, longest);
    } else {
      assert forall k :: 0 < k < |q| ==> q[k].id != q[0].id;
    }
  }

  /** A head that went was not `id`, and the others wait no longer than before. */
  lemma HeadGone(q: seq<Pending>, r: seq<Pending>, op: Op, id: nat, w: int, longest: nat, bound: nat)
    requires w >= 1 && longest >= 1 && q != [] && r != [] && Changed(q, r, op) && r[0] != q[0]
    requires Ascending(q, bound) && Lists(r, id)
    ensures q[0].id != id && Turns(r, id, w, longest) <= Turns(q[1..], id, w, longest)
  {
    hide Turns;
    var j :| 0 <= j < |r| && r[j].id == id;
    assert r[j] in r;
    if op.Drop? && r != q {
      assert r == WithoutId(q[1..], op.id.value);
      TurnsWithout(q[1..], op.id.value, id, w, longest);
    } else {
      assert r == q[1..] && q[j + 1].id == id;
    }
  }

  lemma ValidParts(s: Sched, f: FlowId)
    requires Valid(s) && f in s.waiting
    ensures DeficitsNonNegative(s) && Ascending(s.waiting[f], s.nextId)
  {}

  /** As long as the head stays, its own rounds fall with every credit round; when it goes, the next head
      starts within its own turn. */
  lemma LeftStep(s: Sched, op: Op, f: FlowId, id: nat, w: int, longest: nat)
    requires w >= 1 && longest >= 1 && Valid(s) && PlainRound(s, op, f, w)
    requires Holds(s, f, id) && Holds(Do(s, op), f, id) && |s.cursor| <= longest && |Do(s, op).cursor| <= longest
    ensures Left(Do(s, op), f, id, w, longest) + (if IsCreditRound(s, op) then 1 else 0) <= Left(s, f, id, w, longest)
  {
    hide Valid, Do, RoundsLeft, IsCreditRound, PlainRound, Ascending, Changed, Lists, Turns;
    var t := Do(s, op);
    DoValid(s, op);
    ValidParts(s, f);
    ValidParts(t, f);
    QueueAfter(s, op, f);
    var q, r := s.waiting[f], t.waiting[f];
    if r[0] == q[0] {
      RoundsLeftStep(s, op, f, w, longest, q[0]);
      if q[0].id != id { TailShrinks(q, r, op, id, w, longest, s.nextId); }
    } else {
      HeadWithinTurn(s, f, w, longest);
      LeftWithinTurns(t, f, id, w, longest);
      HeadGone(q, r, op, id, w, longest, s.nextId);
    }
  }

  // ----- The run -----

  /** Through the whole run request `id` stays queued in `f`, rounds are plain and the cursor is never longer
      than `longest`. */
  ghost predicate KeepsQueued(s: Sched, ops: seq<Op>, f: FlowId, id: nat, w: int, longest: nat)
    decreases |ops|
  {
    && Holds(s, f, id) && |s.cursor| <= longest
    && (ops != [] ==> PlainRound(s, ops[0], f, w) && KeepsQueued(Do(s, ops[0]), ops[1..], f, id, w, longest))
  }

  lemma LeftIsPositive(s: Sched, f: FlowId, id: nat, w: int, longest: nat)
    requires w >= 1 && Valid(s) && Holds(s, f, id) && |s.cursor| <= longest
    ensures longest >= 1 && 1 <= Left(s, f, id, w, longest) <= Turns(s.waiting[f], id, w, longest)
  {
    hide RoundsLeft;
    ValidParts(s, f);
    assert s.cursor != [];
    HeadWithinTurn(s, f, w, longest);
    LeftWithinTurns(s, f, id, w, longest);
  }

  lemma {:induction false} LeftRun(s: Sched, ops: seq<Op>, f: FlowId, id: nat, w: int, longest: nat)
    requires w >= 1 && longest >= 1 && Valid(s) && KeepsQueued(s, ops, f, id, w, longest)
    ensures CreditRounds(s, ops) < Left(s, f, id, w, longest)
    decreases |ops|
  {
    hide Valid, Do, Left, IsCreditRound, Holds;
    if ops == [] {
      LeftIsPositive(s, f, id, w, longest);
    } else {
      var t := Do(s, ops[0]);
      DoValid(s, ops[0]);
      LeftStep(s, ops[0], f, id, w, longest);
      LeftRun(t, ops[1..], f, id, w, longest);
    }
  }

  /** Bounded waiting at any depth: a request cannot still be queued after as many credit rounds as the turns
      of the requests ahead of it and its own add up to, a turn being `max(1, ceil(cost / w)) + longest - 1`.
      Requests ahead may be served, forced or cancelled, and others may arrive, in any order. */
  lemma RequestServedWithinBound(s: Sched, ops: seq<Op>, f: FlowId, id: nat, w: int, longest: nat)
    requires w >= 1 && Valid(s) && KeepsQueued(s, ops, f, id, w, longest)
    ensures longest >= 1 && CreditRounds(s, ops) < Turns(s.waiting[f], id, w, longest)
  {
    hide Valid, Left, Turns;
    LeftIsPositive(s, f, id, w, longest);
    LeftRun(s, ops, f, id, w, longest);
  }
}
