/** What the KV bias does to the choice, in terms of footprints: at every weight above 0 a candidate of nearly
    the greatest footprint wins, at the level of the candidate list and of a whole round. */
module BiasedSelection {
  import opened Flows
  import opened Priority
  import opened Drr
  import opened BoundedWaiting

  // ----- The weight -----

  function Floor(cfg: KvBias): real { if cfg.pressureBelow > 0.0 then cfg.pressureBelow else 0.0 }

  function Ceiling(cfg: KvBias): real { if cfg.biasFullAt > Floor(cfg) then cfg.biasFullAt else Floor(cfg) }

  /** The weight is 0 when the bias is off or the pressure is at most the lower end of the ramp, 1 from the upper
      end on, and in between it divides the ramp as the pressure does. */
  lemma BiasRamp(cfg: KvBias, pressure: real)
    ensures var w := BiasInForce(cfg, pressure);
      && (w == 0.0 <==> !cfg.enabled || pressure <= Floor(cfg))
      && (w == 1.0 <==> cfg.enabled && pressure > Floor(cfg) && pressure >= Ceiling(cfg))
      && (cfg.enabled && Floor(cfg) < pressure < Ceiling(cfg) ==>
            0.0 < w < 1.0 && w * (Ceiling(cfg) - Floor(cfg)) == pressure - Floor(cfg))
  {
    if cfg.enabled && Floor(cfg) < pressure < Ceiling(cfg) {
      var w, span := BiasInForce(cfg, pressure), Ceiling(cfg) - Floor(cfg);
      assert w == (pressure - Floor(cfg)) / span;
      Quotient(pressure - Floor(cfg), span);
    }
  }

  lemma Quotient(x: real, y: real)
    requires 0.0 < x < y
    ensures 0.0 < x / y < 1.0 && (x / y) * y == x
  {
    var q := x / y;
    assert q * y == x;
    assert q <= 0.0 ==> q * y <= 0.0;
    assert q >= 1.0 ==> (q - 1.0) * y >= 0.0;
  }

  // ----- The candidate list -----

  /** `top` is the greatest footprint, and positive. */
  predicate IsTop(cands: seq<Candidate>, top: real) {
    && top > 0.0
    && (exists i :: 0 <= i < |cands| && cands[i].footprint == top)
    && forall i :: 0 <= i < |cands| ==> cands[i].footprint <= top
  }

  /** By how much `a` outscores `b` when footprints are normalised by `top`. */
  function Lead(a: Candidate, b: Candidate, weight: real, top: real): real
    requires top > 0.0
  {
    weight * (a.footprint / top) - weight * (b.footprint / top)
  }

  predicate Separated(cands: seq<Candidate>, weight: real, top: real)
    requires top > 0.0
  {
    forall i, j :: 0 <= i < |cands| && 0 <= j < |cands| ==>
      cands[i].footprint == cands[j].footprint || Abs(Lead(cands[i], cands[j], weight, top)) > EPSILON
  }

  /** Greater footprint first, then the fair order. */
  predicate FootprintLess(a: Candidate, b: Candidate) {
    a.footprint > b.footprint || (a.footprint == b.footprint && LexLess(a, b))
  }

  predicate UncontestedTies(cands: seq<Candidate>) {
    forall i, j :: 0 <= i < |cands| && 0 <= j < |cands| && cands[i].footprint == cands[j].footprint ==>
      !Contested(cands[i], cands[j])
  }

  lemma ScoreOrder(a: Candidate, b: Candidate, weight: real, top: real)
    requires weight > 0.0 && top > 0.0
    ensures Score(a, weight, top) > Score(b, weight, top) <==> a.footprint > b.footprint
    ensures Score(a, weight, top) == Score(b, weight, top) <==> a.footprint == b.footprint
  {
    var x, y := a.footprint / top, b.footprint / top;
    assert x * top == a.footprint && y * top == b.footprint;
    assert (x - y) * top == a.footprint - b.footprint;
    assert x > y ==> (x - y) * top > 0.0 && weight * (x - y) > 0.0;
    assert x < y ==> (y - x) * top > 0.0 && weight * (y - x) > 0.0;
    assert weight * x - weight * y == weight * (x - y);
  }

  /** With any weight above 0 and some positive footprint, what `select` returns scores within (n - 1) epsilon of
      every candidate. */
  lemma BiasedWinnerNearGreatestFootprint(cands: seq<Candidate>, weight: real, top: real)
    requires cands != [] && weight > 0.0 && IsTop(cands, top)
    ensures forall j :: 0 <= j < |cands| ==>
      Lead(cands[j], cands[KvIndex(cands, weight)], weight, top) <= (|cands| - 1) as real * EPSILON
  {
    hide Score, Lead, KvScan, FairIndex, MaxFootprint;
    TopIsMaximum(cands, top);
    KvWinnerNearMaximum(cands, |cands|, weight, top);
    forall j | 0 <= j < |cands|
      ensures Lead(cands[j], cands[KvIndex(cands, weight)], weight, top) <= (|cands| - 1) as real * EPSILON
    {
      LeadIsScoreDifference(cands[j], cands[KvIndex(cands, weight)], weight, top);
    }
  }

  lemma TopIsMaximum(cands: seq<Candidate>, top: real)
    requires IsTop(cands, top)
    ensures MaxFootprint(cands, |cands|) == top
  {
    hide MaxFootprint;
  }

  lemma LeadIsScoreDifference(a: Candidate, b: Candidate, weight: real, top: real)
    requires top > 0.0
    ensures Lead(a, b, weight, top) == Score(a, weight, top) - Score(b, weight, top)
  {}

  /** When scores are equal or more than epsilon apart, and candidates of equal footprint are not contested, it is
      the first best by footprint, priority, base, enqueue time. */
  lemma BiasedWinnerIsFirstBest(cands: seq<Candidate>, weight: real, top: real)
    requires cands != [] && weight > 0.0 && IsTop(cands, top)
    requires Separated(cands, weight, top) && UncontestedTies(cands)
    ensures var w := KvIndex(cands, weight);
      && (forall j :: 0 <= j < w ==> FootprintLess(cands[w], cands[j]))
      && (forall j :: w <= j < |cands| ==> !FootprintLess(cands[j], cands[w]))
  {
    hide Score, BiasedLess, FootprintLess, Lead, LexLess, Contested, KvScan, FairIndex, MaxFootprint;
    TopIsMaximum(cands, top);
    forall i, j | 0 <= i < |cands| && 0 <= j < |cands|
      ensures Score(cands[i], weight, top) == Score(cands[j], weight, top) <==> cands[i].footprint == cands[j].footprint
      ensures BiasedLess(cands[i], cands[j], weight, top) <==> FootprintLess(cands[i], cands[j])
      ensures Score(cands[i], weight, top) - Score(cands[j], weight, top) == Lead(cands[i], cands[j], weight, top)
    {
      ScoreOrder(cands[i], cands[j], weight, top);
      LessByFootprint(cands[i], cands[j], weight, top);
      LeadIsScoreDifference(cands[i], cands[j], weight, top);
    }
    KvWinnerIsLexBest(cands, |cands|, weight, top);
  }

  lemma LessByFootprint(a: Candidate, b: Candidate, weight: real, top: real)
    requires weight > 0.0 && top > 0.0
    ensures BiasedLess(a, b, weight, top) <==> FootprintLess(a, b)
  {
    hide Score, LexLess;
    ScoreOrder(a, b, weight, top);
  }

  // ----- A whole round -----

  /** `top` is the greatest footprint among the eligible flows, and positive. */
  ghost predicate IsTopFootprint(s: Sched, env: Env, top: real) {
    && top > 0.0
    && (exists f :: f in s.cursor && Eligible(s, env, f) && env.footprint(f) == top)
    && forall f :: f in s.cursor && Eligible(s, env, f) ==> env.footprint(f) <= top
  }

  /** By how much `f` outscores `g` in the round. */
  function FlowLead(env: Env, f: FlowId, g: FlowId, top: real): real
    requires top > 0.0
  {
    env.Bias() * (env.footprint(f) / top) - env.Bias() * (env.footprint(g) / top)
  }

  lemma LeadOfFlows(env: Env, a: Candidate, b: Candidate, f: FlowId, g: FlowId, top: real)
    requires top > 0.0 && a.footprint == env.footprint(f) && b.footprint == env.footprint(g)
    ensures Lead(a, b, env.Bias(), top) == FlowLead(env, f, g, top)
  {
    hide BiasInForce;
  }

  lemma TopOfRound(s: Sched, env: Env, top: real)
    requires IsTopFootprint(s, env, top)
    ensures Candidates(s, env, |s.cursor|) != [] && IsTop(Candidates(s, env, |s.cursor|), top)
  {
    var c := Candidates(s, env, |s.cursor|);
    CandidatesArePositions(s, env, |s.cursor|);
    var f :| f in s.cursor && Eligible(s, env, f) && env.footprint(f) == top;
    var i := IndexOf(s.cursor, f);
    assert IsCandidate(s, env, |s.cursor|, CandidateAt(s, env, i), i);
    assert CandidateAt(s, env, i) in c;
    forall k | 0 <= k < |c| ensures c[k].footprint <= top {
      assert c[k] in c;
      var m :| IsCandidate(s, env, |s.cursor|, c[k], m);
    }
  }

  lemma {:induction false} AtMostCursor(s: Sched, env: Env, n: nat)
    requires n <= |s.cursor|
    ensures |Candidates(s, env, n)| <= n
  {
    if n > 0 { AtMostCursor(s, env, n - 1); }
  }

  /** A credit round under bias serves an eligible flow whose normalised, weighted footprint is at most
      (|cursor| - 1) epsilon below that of any eligible flow. */
  lemma BiasedRoundServesGreatFootprint(s: Sched, env: Env, top: real, g: FlowId)
    requires Valid(s) && env.Bias() > 0.0 && IsTopFootprint(s, env, top) && g in s.cursor && Eligible(s, env, g)
    ensures var p := CreditRound(s, env).pick;
      && p.Some? && p.value.flow in s.cursor && Eligible(s, env, p.value.flow)
      && FlowLead(env, g, p.value.flow, top) <= (|s.cursor| - 1) as real * EPSILON
  {
    hide BiasInForce, Valid, CreditRound, Candidates, KvIndex, IsTop, IsTopFootprint, Eligible, Lead, FlowLead;
    var c := Candidates(s, env, |s.cursor|);
    TopOfRound(s, env, top);
    BiasedWinnerNearGreatestFootprint(c, env.Bias(), top);
    AtMostCursor(s, env, |s.cursor|);
    FewerEpsilons(|c| - 1, |s.cursor| - 1);
    RoundServesWinner(s, env);
    var w := KvIndex(c, env.Bias());
    var j := CandidateOf(s, env, g);
    assert Lead(c[j], c[w], env.Bias(), top) <= (|c| - 1) as real * EPSILON;
    LeadOfFlows(env, c[j], c[w], g, c[w].flow, top);
  }

  lemma RoundServesWinner(s: Sched, env: Env)
    requires Candidates(s, env, |s.cursor|) != []
    ensures var c := Candidates(s, env, |s.cursor|);
      var p, winner := CreditRound(s, env).pick, c[KvIndex(c, env.Bias())];
      && p.Some? && p.value.flow == winner.flow && winner.flow in s.cursor && Eligible(s, env, winner.flow)
      && winner.footprint == env.footprint(winner.flow)
  {
    hide BiasInForce, KvIndex, Take;
    var c := Candidates(s, env, |s.cursor|);
    CandidatesArePositions(s, env, |s.cursor|);
    var winner := c[KvIndex(c, env.Bias())];
    assert winner in c;
    var m :| IsCandidate(s, env, |s.cursor|, winner, m);
  }

  lemma FewerEpsilons(a: nat, b: nat)
    requires a <= b
    ensures a as real * EPSILON <= b as real * EPSILON
  {
    assert (b - a) as real * EPSILON >= 0.0;
    assert b as real == a as real + (b - a) as real;
  }

  lemma CandidateOf(s: Sched, env: Env, g: FlowId) returns (j: nat)
    requires g in s.cursor && Eligible(s, env, g)
    ensures var c := Candidates(s, env, |s.cursor|);
      j < |c| && c[j] == CandidateAt(s, env, IndexOf(s.cursor, g)) && c[j].flow == g
  {
    var c, i := Candidates(s, env, |s.cursor|), IndexOf(s.cursor, g);
    CandidatesArePositions(s, env, |s.cursor|);
    assert IsCandidate(s, env, |s.cursor|, CandidateAt(s, env, i), i);
    assert CandidateAt(s, env, i) in c;
    j :| 0 <= j < |c| && c[j] == CandidateAt(s, env, i);
  }

  /** The weighted footprints of eligible flows are equal or more than epsilon apart. */
  ghost predicate SeparatedFlows(s: Sched, env: Env, top: real)
    requires top > 0.0
  {
    forall f, g :: f in s.cursor && g in s.cursor && Eligible(s, env, f) && Eligible(s, env, g) ==>
      || env.footprint(f) == env.footprint(g)
      || Abs(FlowLead(env, f, g, top)) > EPSILON
  }

  /** Then the round serves the eligible flow of greatest footprint; among equals the one of highest priority, and
      among those the one that stands first in the cursor. */
  lemma BiasedRoundServesBest(s: Sched, env: Env, top: real, g: FlowId)
    requires Valid(s) && env.Bias() > 0.0 && IsTopFootprint(s, env, top) && SeparatedFlows(s, env, top)
    requires g in s.cursor && Eligible(s, env, g)
    ensures var p := CreditRound(s, env).pick;
      && p.Some? && p.value.flow in s.cursor
      && var f := p.value.flow;
         && env.footprint(f) >= env.footprint(g)
         && (env.footprint(f) == env.footprint(g) ==> env.priority(f) >= env.priority(g))
         && (env.footprint(f) == env.footprint(g) && env.priority(f) == env.priority(g) ==>
               IndexOf(s.cursor, f) <= IndexOf(s.cursor, g))
  {
    hide BiasInForce, Valid, Lead, FlowLead;
    var c := Candidates(s, env, |s.cursor|);
    TopOfRound(s, env, top);
    SeparatedRound(s, env, top);
    BiasedWinnerIsFirstBest(c, env.Bias(), top);
    var w := KvIndex(c, env.Bias());
    var j := CandidateOf(s, env, g);
    CandidatesArePositions(s, env, |s.cursor|);
    assert c[w] in c;
    var m :| IsCandidate(s, env, |s.cursor|, c[w], m);
    CursorListsOnce(s);
    IndexOfUnique(s.cursor, m);
    assert !FootprintLess(c[j], c[w]);
  }

  lemma CursorListsOnce(s: Sched)
    requires Valid(s)
    ensures NoDup(s.cursor)
  {}

  lemma SeparatedRound(s: Sched, env: Env, top: real)
    requires top > 0.0 && SeparatedFlows(s, env, top)
    ensures var c := Candidates(s, env, |s.cursor|);
      Separated(c, env.Bias(), top) && UncontestedTies(c)
  {
    hide BiasInForce, Lead, FlowLead;
    var c := Candidates(s, env, |s.cursor|);
    CursorBasesAreIntegers(s, env);
    IntegerBasesUncontested(c);
    CandidatesArePositions(s, env, |s.cursor|);
    forall i, j | 0 <= i < |c| && 0 <= j < |c|
      ensures c[i].footprint == c[j].footprint || Abs(Lead(c[i], c[j], env.Bias(), top)) > EPSILON
      ensures !Contested(c[i], c[j])
    {
      assert c[i] in c && c[j] in c;
      var m :| IsCandidate(s, env, |s.cursor|, c[i], m);
      var n :| IsCandidate(s, env, |s.cursor|, c[j], n);
      LeadOfFlows(env, c[i], c[j], c[i].flow, c[j].flow, top);
    }
  }
}
