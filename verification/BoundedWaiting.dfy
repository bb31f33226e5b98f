/** How many credit rounds a queued head request can be passed over. */
module BoundedWaiting {
  import opened Flows
  import opened Priority
  import opened Drr
  import opened Fairness

  /** Rounds of credit `w` until a shortfall of `n` is covered; at least one round. */
  function Needed(n: int, w: int): (k: nat)
    requires w >= 1
    ensures k >= 1
    decreases if n > 0 then n else 0
  {
    if n <= w then 1 else 1 + Needed(n - w, w)
  }

  /** `Needed(n, w)` is `max(1, ceil(n / w))`: the least positive `k` with `n <= k * w`. */
  lemma {:induction false} NeededIsCeiling(n: int, w: int)
    requires w >= 1
    ensures n <= Needed(n, w) * w
    ensures Needed(n, w) > 1 ==> (Needed(n, w) - 1) * w < n
    decreases if n > 0 then n else 0
  {
    if n > w {
      NeededIsCeiling(n - w, w);
      var k := Needed(n - w, w);
      assert (1 + k) * w == w + k * w;
      assert k > 1 ==> k * w == w + (k - 1) * w;
    }
  }

  // ----- Positions in the cursor -----

  /** Moving another entry to the back, or dropping it, never raises the position of `f`, and
      lowers it by one when that entry stood in front. */
  lemma PositionAfterMove(c: seq<FlowId>, g: FlowId, f: FlowId, tail: seq<FlowId>)
    requires NoDup(c) && f in c && f != g
    ensures f in Without(c, g) + tail
    ensures IndexOf(Without(c, g) + tail, f)
         == IndexOf(c, f) - (if g in c && IndexOf(c, g) < IndexOf(c, f) then 1 else 0)
  {
    hide Without;
    var i, r := IndexOf(c, f), Without(c, g) + tail;
    if g in c {
      var j := IndexOf(c, g);
      WithoutAt(c, j);
      MovedEntry(c, j, i, tail);
      FirstOccurrence(r, f, if j < i then i - 1 else i);
    } else {
      WithoutAbsent(c, g);
      assert r[i] == f;
      FirstOccurrence(r, f, i);
    }
  }

  /** Taking out entry `j` shifts the later ones by one. */
  lemma MovedEntry(c: seq<FlowId>, j: nat, i: nat, tail: seq<FlowId>)
    requires NoDup(c) && j < |c| && i < |c| && i != j
    ensures var r, k := c[..j] + c[j + 1..] + tail, if j < i then i - 1 else i;
      k < |r| && r[k] == c[i] && c[i] !in r[..k]
  {
    var r, k := c[..j] + c[j + 1..] + tail, if j < i then i - 1 else i;
    assert forall m :: 0 <= m < k ==> r[m] == c[if m < j then m else m + 1];
  }

  lemma FirstOccurrence(s: seq<FlowId>, x: FlowId, k: nat)
    requires k < |s| && s[k] == x && x !in s[..k]
    ensures x in s && IndexOf(s, x) == k
  {
    var j := IndexOf(s, x);
    assert forall i :: 0 <= i < k ==> s[i] == s[..k][i];
    assert forall i :: 0 <= i < j ==> s[i] == s[..j][i];
  }

  // ----- The candidate list -----

  predicate IsCandidate(s: Sched, env: Env, n: nat, c: Candidate, i: int)
    requires n <= |s.cursor|
  {
    0 <= i < n && Eligible(s, env, s.cursor[i]) && c == CandidateAt(s, env, i)
  }

  lemma {:induction false} CandidatesArePositions(s: Sched, env: Env, n: nat)
    requires n <= |s.cursor|
    ensures forall c :: c in Candidates(s, env, n) <==> exists i :: IsCandidate(s, env, n, c, i)
  {
    if n > 0 {
      CandidatesArePositions(s, env, n - 1);
      forall c ensures c in Candidates(s, env, n) <==> exists i :: IsCandidate(s, env, n, c, i) {
        if c in Candidates(s, env, n - 1) {
          var i :| IsCandidate(s, env, n - 1, c, i);
          assert IsCandidate(s, env, n, c, i);
        } else if c in Candidates(s, env, n) {
          assert IsCandidate(s, env, n, c, n - 1);
        }
        if i :| IsCandidate(s, env, n, c, i) {
          if i < n - 1 { assert IsCandidate(s, env, n - 1, c, i); }
        }
      }
    }
  }

  lemma CursorBasesAreIntegers(s: Sched, env: Env)
    ensures IntegerBases(Candidates(s, env, |s.cursor|))
  {
    var c := Candidates(s, env, |s.cursor|);
    CandidatesArePositions(s, env, |s.cursor|);
    forall k | 0 <= k < |c| ensures c[k].base == c[k].base.Floor as real {
      assert c[k] in c;
      var m :| IsCandidate(s, env, |s.cursor|, c[k], m);
    }
  }

  /** Without KV bias a credit round serves an eligible flow that no other eligible flow beats:
      none has higher priority, and none of equal priority stands before it in the cursor. */
  lemma WinnerIsBestEligible(s: Sched, env: Env, f: FlowId)
    requires Valid(s) && f in s.cursor && Eligible(s, env, f) && env.Bias() <= 0.0
    ensures var p := CreditRound(s, env).pick;
      && p.Some? && p.value.flow in s.cursor && Eligible(s, env, p.value.flow)
      && env.priority(p.value.flow) >= env.priority(f)
      && (env.priority(p.value.flow) == env.priority(f) ==>
            IndexOf(s.cursor, p.value.flow) <= IndexOf(s.cursor, f))
  {
    var n := |s.cursor|;
    var c := Candidates(s, env, n);
    CandidatesArePositions(s, env, n);
    var i := IndexOf(s.cursor, f);
    assert IsCandidate(s, env, n, CandidateAt(s, env, i), i);
    assert CandidateAt(s, env, i) in c;
    var w := FairIndex(c, |c|);
    assert c[w] in c;
    var j :| IsCandidate(s, env, n, c[w], j);
    IndexOfUnique(s.cursor, j);
    CursorBasesAreIntegers(s, env);
    IntegerBasesUncontested(c);
    UninvertedScanIsLexBest(c, |c|);
    var k :| 0 <= k < |c| && c[k] == CandidateAt(s, env, i);
    assert !LexLess(c[k], c[w]);
  }

  // ----- The potential -----

  /** Upper bound on the credit rounds left before `f`'s head is served: its cursor position once
      it is eligible, else the rounds of credit it lacks plus the longest possible cursor. */
  function RoundsLeft(s: Sched, f: FlowId, w: int, longest: nat): int
    requires w >= 1 && Queued(s, f) && f in s.cursor
  {
    var shortfall := s.waiting[f][0].cost - DeficitOf(s, f);
    if shortfall <= w then IndexOf(s.cursor, f) + 1
    else Needed(shortfall, w) + longest - 1
  }

  /** `head` is queued as the head of `f`. */
  predicate AtHead(s: Sched, f: FlowId, head: Pending) {
    Queued(s, f) && s.waiting[f][0] == head && f in s.cursor
  }

  /** The theorem's side conditions on one action: no bias, the flow's weight is `w`, and nobody
      waiting has higher priority. */
  ghost predicate PlainRound(s: Sched, op: Op, f: FlowId, w: int) {
    op.Select? ==>
      && op.env.Bias() <= 0.0
      && op.env.weight(f) == w
      && forall g :: g in s.waiting ==> op.env.priority(g) <= op.env.priority(f)
  }

  /** Enough of the next state to bound the rounds left. */
  lemma NotMoreRounds(s: Sched, t: Sched, f: FlowId, w: int, longest: nat, head: Pending)
    requires w >= 1 && AtHead(s, f, head) && AtHead(t, f, head)
    requires DeficitOf(t, f) == DeficitOf(s, f) && IndexOf(t.cursor, f) <= IndexOf(s.cursor, f)
    ensures RoundsLeft(t, f, w, longest) <= RoundsLeft(s, f, w, longest)
  {}

  lemma PushKeepsPosition(s: Sched, g: FlowId, cost: int, at: int, f: FlowId)
    requires f in s.cursor
    ensures f in Push(s, g, cost, at).cursor && IndexOf(Push(s, g, cost, at).cursor, f) == IndexOf(s.cursor, f)
  {
    var i, c := IndexOf(s.cursor, f), Push(s, g, cost, at).cursor;
    assert c[i] == f && c[..i] == s.cursor[..i];
    FirstOccurrence(c, f, i);
  }

  lemma CancelKeepsPosition(s: Sched, g: FlowId, id: Option<nat>, f: FlowId)
    requires NoDup(s.cursor) && f in s.cursor && f in Cancel(s, g, id).cursor && Queued(Cancel(s, g, id), f)
    ensures DeficitOf(Cancel(s, g, id), f) == DeficitOf(s, f)
    ensures IndexOf(Cancel(s, g, id).cursor, f) <= IndexOf(s.cursor, f)
  {
    hide IndexOf;
    var t := Cancel(s, g, id);
    if t.cursor != s.cursor {
      assert t.cursor == Without(s.cursor, g) && g !in t.waiting;
      PositionAfterMove(s.cursor, g, f, []);
      assert Without(s.cursor, g) + [] == Without(s.cursor, g);
    }
  }

  lemma NonRoundKeepsPosition(s: Sched, op: Op, f: FlowId, head: Pending)
    requires Valid(s) && !op.Select? && AtHead(s, f, head) && AtHead(Do(s, op), f, head)
    ensures DeficitOf(Do(s, op), f) == DeficitOf(s, f)
    ensures IndexOf(Do(s, op).cursor, f) <= IndexOf(s.cursor, f)
  {
    match op
    case Enqueue(g, cost, at) => PushKeepsPosition(s, g, cost, at, f);
    case Drop(g, id) => CancelKeepsPosition(s, g, id, f);
    case _ =>
  }

  /** A served flow loses its head, so it is not the flow whose head stayed. */
  lemma ServedIsOther(s: Sched, f: FlowId, g: FlowId, head: Pending)
    requires Valid(s) && Queued(s, g) && AtHead(s, f, head) && AtHead(Take(s, g), f, head)
    ensures f != g
  {
    assert |s.waiting[g]| > 1 ==> s.waiting[g][1..][0] == s.waiting[g][1];
  }

  lemma ForcedRoundKeepsPosition(s: Sched, g: FlowId, f: FlowId, head: Pending)
    requires Valid(s) && Queued(s, g) && AtHead(s, f, head) && AtHead(Take(s, g), f, head)
    ensures DeficitOf(Take(s, g), f) == DeficitOf(s, f)
    ensures IndexOf(Take(s, g).cursor, f)
         == IndexOf(s.cursor, f) - (if IndexOf(s.cursor, g) < IndexOf(s.cursor, f) then 1 else 0)
  {
    ServedIsOther(s, f, g, head);
    PositionAfterMove(s.cursor, g, f, if s.waiting[g][1..] == [] then [] else [g]);
  }

  lemma ShortIsEligible(s: Sched, env: Env, f: FlowId, w: int, head: Pending)
    requires w >= 1 && env.weight(f) == w && AtHead(s, f, head)
    ensures Queued(s, f) && f in s.cursor && Creditable(s, env, f)
    ensures head.cost - DeficitOf(s, f) <= w ==> Eligible(s, env, f)
  {}

  /** A credit round that serves `g` takes its head after crediting everybody. */
  lemma CreditRoundTakes(s: Sched, env: Env, f: FlowId, head: Pending)
    requires CreditRound(s, env).pick.Some? && AtHead(s, f, head)
    ensures var r := CreditRound(s, env); var g := r.pick.value.flow;
      && g in s.cursor && Queued(ReadyToServe(s, env, g), g)
      && AtHead(ReadyToServe(s, env, g), f, head)
      && r.next == Take(ReadyToServe(s, env, g), g)
      && ReadyToServe(s, env, g).cursor == s.cursor
      && (f != g ==> DeficitOf(ReadyToServe(s, env, g), f) == DeficitOf(Credited(s, env), f))
  {
    hide Take, KvIndex, CreditedUpTo;
  }

  /** A credit round that serves nobody rotates the cursor. */
  lemma CreditRoundRotates(s: Sched, env: Env, f: FlowId)
    requires CreditRound(s, env).pick.None?
    ensures DeficitOf(CreditRound(s, env).next, f) == DeficitOf(Credited(s, env), f)
  {
    hide Take, KvIndex, CreditedUpTo;
  }

  /** Serving somebody else moves `f` up exactly when that flow stood in front. */
  lemma PassedOverByPick(s: Sched, env: Env, f: FlowId, head: Pending)
    requires Valid(s) && AtHead(s, f, head) && AtHead(CreditRound(s, env).next, f, head) && CreditRound(s, env).pick.Some?
    ensures var r := CreditRound(s, env);
      var g := r.pick.value.flow;
      && f != g && g in s.cursor
      && DeficitOf(r.next, f) == DeficitOf(Credited(s, env), f)
      && IndexOf(r.next.cursor, f) == IndexOf(s.cursor, f) - (if IndexOf(s.cursor, g) < IndexOf(s.cursor, f) then 1 else 0)
  {
    hide Valid, CreditRound, Take, AtHead, DeficitOf, ReadyToServe, Credited, IndexOf;
    var g := CreditRound(s, env).pick.value.flow;
    CreditRoundTakes(s, env, f, head);
    ReadyToServeValid(s, env, g);
    ServedIsOther(ReadyToServe(s, env, g), f, g, head);
    ForcedRoundKeepsPosition(ReadyToServe(s, env, g), g, f, head);
  }

  /** A credit round that passes `f` over adds `w` to its deficit; if `f` was eligible the round
      served someone in front of it, so its position strictly falls. */
  lemma PassedOver(s: Sched, env: Env, f: FlowId, w: int, head: Pending)
    requires w >= 1 && Valid(s) && env.weight(f) == w && env.Bias() <= 0.0
    requires forall g :: g in s.waiting ==> env.priority(g) <= env.priority(f)
    requires AtHead(s, f, head) && AtHead(CreditRound(s, env).next, f, head)
    ensures var t := CreditRound(s, env).next;
      && DeficitOf(t, f) == DeficitOf(s, f) + w
      && (head.cost - DeficitOf(s, f) <= w ==> IndexOf(t.cursor, f) < IndexOf(s.cursor, f))
  {
    hide Valid, CreditRound, Take, AtHead, DeficitOf, Credited, IndexOf, Eligible;
    CreditedDeficit(s, env);
    ShortIsEligible(s, env, f, w, head);
    var r := CreditRound(s, env);
    if r.pick.Some? {
      PassedOverByPick(s, env, f, head);
    } else {
      CreditRoundRotates(s, env, f);
    }
    if head.cost - DeficitOf(s, f) <= w {
      WinnerIsBestEligible(s, env, f);
      WaitingIffListed(s, r.pick.value.flow);
      assert s.cursor[IndexOf(s.cursor, r.pick.value.flow)] != s.cursor[IndexOf(s.cursor, f)];
    }
  }

  lemma WaitingIffListed(s: Sched, g: FlowId)
    requires Valid(s)
    ensures g in s.cursor <==> g in s.waiting
  {}

  lemma RoundsLeftStep(s: Sched, op: Op, f: FlowId, w: int, longest: nat, head: Pending)
    requires w >= 1 && Valid(s) && PlainRound(s, op, f, w)
    requires AtHead(s, f, head) && AtHead(Do(s, op), f, head) && |Do(s, op).cursor| <= longest
    ensures RoundsLeft(Do(s, op), f, w, longest) + (if IsCreditRound(s, op) then 1 else 0)
         <= RoundsLeft(s, f, w, longest)
  {
    var t := Do(s, op);
    if !op.Select? {
      NonRoundKeepsPosition(s, op, f, head);
      NotMoreRounds(s, t, f, w, longest, head);
    } else if IsCreditRound(s, op) {
      PassedOver(s, op.env, f, w, head);
    } else {
      var p := Round(s, op.env, op.cap).pick;
      if p.Some? { ForcedRoundKeepsPosition(s, p.value.flow, f, head); }
      NotMoreRounds(s, t, f, w, longest, head);
    }
  }

  // ----- The run -----

  function CreditRounds(s: Sched, ops: seq<Op>): nat
    decreases |ops|
  {
    if ops == [] then 0
    else (if IsCreditRound(s, ops[0]) then 1 else 0) + CreditRounds(Do(s, ops[0]), ops[1..])
  }

  /** Through the whole run `head` stays queued as the head of `f`, rounds are plain and the cursor
      is never longer than `longest`. */
  ghost predicate KeepsWaiting(s: Sched, ops: seq<Op>, f: FlowId, w: int, longest: nat, head: Pending)
    decreases |ops|
  {
    && AtHead(s, f, head) && |s.cursor| <= longest
    && (ops != [] ==> PlainRound(s, ops[0], f, w) && KeepsWaiting(Do(s, ops[0]), ops[1..], f, w, longest, head))
  }

  lemma {:induction false} RoundsLeftRun(s: Sched, ops: seq<Op>, f: FlowId, w: int, longest: nat, head: Pending)
    requires w >= 1 && Valid(s) && KeepsWaiting(s, ops, f, w, longest, head)
    ensures CreditRounds(s, ops) < RoundsLeft(s, f, w, longest)
    decreases |ops|
  {
    if ops != [] {
      DoValid(s, ops[0]);
      RoundsLeftStep(s, ops[0], f, w, longest, head);
      RoundsLeftRun(Do(s, ops[0]), ops[1..], f, w, longest, head);
    }
  }

  lemma RoundsLeftAtStart(s: Sched, ops: seq<Op>, f: FlowId, w: int, longest: nat, head: Pending)
    requires w >= 1 && KeepsWaiting(s, ops, f, w, longest, head)
    ensures RoundsLeft(s, f, w, longest) <= Needed(head.cost - DeficitOf(s, f), w) + longest - 1
  {
    hide PlainRound, Do;
  }

  /** Bounded waiting: a head request of cost `c`, in a flow of weight `w` and deficit `d`, cannot
      still be queued after `max(1, ceil((c - d) / w)) + longest - 1` credit rounds. */
  lemma HeadServedWithinBound(s: Sched, ops: seq<Op>, f: FlowId, w: int, longest: nat, head: Pending)
    requires w >= 1 && Valid(s) && KeepsWaiting(s, ops, f, w, longest, head)
    ensures CreditRounds(s, ops) < Needed(head.cost - DeficitOf(s, f), w) + longest - 1
  {
    RoundsLeftAtStart(s, ops, f, w, longest, head);
    RoundsLeftRun(s, ops, f, w, longest, head);
  }
}
