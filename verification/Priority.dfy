/** Choosing one flow among the eligible ones: plain fairness (`priority.rs`) and the
    KV-footprint bias laid over it (`kv_bias.rs`). Floating-point values are reals. */
module Priority {
  import opened Flows

  datatype Candidate = Candidate(
    flow: FlowId, priority: nat, enqueuedAt: int, base: real, footprint: real)

  /** `f64::EPSILON`, that is 2^-52. */
  const EPSILON: real := 1.0 / 4503599627370496.0

  function Abs(x: real): real { if x < 0.0 then -x else x }

  datatype Ordering = Less | Equal | Greater

  function CmpFair(a: Candidate, b: Candidate): Ordering {
    if a.priority != b.priority then (if a.priority > b.priority then Less else Greater)
    else if Abs(a.base - b.base) < EPSILON then
      (if a.enqueuedAt < b.enqueuedAt then Less else if a.enqueuedAt > b.enqueuedAt then Greater else Equal)
    else if a.base < b.base then Less
    else Greater
  }

  /** When `select_best` replaces its current best by the next candidate. */
  predicate Displaces(cand: Candidate, best: Candidate) {
    || cand.priority > best.priority
    || (cand.priority == best.priority
        && (|| cand.base < best.base
            || (Abs(cand.base - best.base) < EPSILON && cand.enqueuedAt < best.enqueuedAt)))
  }

  /** The index `select_best` holds after the first `n` candidates. */
  function FairIndex(cands: seq<Candidate>, n: nat): (i: nat)
    requires 0 < n <= |cands|
    ensures i < n
  {
    if n == 1 then 0
    else
      var b := FairIndex(cands, n - 1);
      if Displaces(cands[n - 1], cands[b]) then n - 1 else b
  }

  method SelectBest(cands: seq<Candidate>) returns (best: Option<Candidate>)
    ensures cands == [] ==> best == None
    ensures cands != [] ==> best == Some(cands[FairIndex(cands, |cands|)])
  {
    best := None;
    for i := 0 to |cands|
      invariant i == 0 ==> best == None
      invariant i > 0 ==> best == Some(cands[FairIndex(cands, i)])
    {
      match best
      case None => best := Some(cands[i]);
      case Some(current) =>
        if cands[i].priority > current.priority {
          best := Some(cands[i]);
        } else if cands[i].priority == current.priority {
          if cands[i].base < current.base {
            best := Some(cands[i]);
          } else if Abs(cands[i].base - current.base) < EPSILON {
            if cands[i].enqueuedAt < current.enqueuedAt {
              best := Some(cands[i]);
            }
          }
        }
    }
  }

  // ----- What "best" means, without epsilon and without scanning -----

  /** Higher priority, then lower base score, then earlier enqueue. */
  predicate LexLess(a: Candidate, b: Candidate) {
    || a.priority > b.priority
    || (a.priority == b.priority && (a.base < b.base || (a.base == b.base && a.enqueuedAt < b.enqueuedAt)))
  }

  /** `a` has the lower base, by less than epsilon, but was not enqueued earlier. Here the code's order
      (lower base first) and `cmp_fair` (equal within epsilon, then arrival) part. */
  predicate Contested(a: Candidate, b: Candidate) {
    a.priority == b.priority && 0.0 < b.base - a.base < EPSILON && a.enqueuedAt >= b.enqueuedAt
  }

  /** Contested, with `b` strictly earlier: here the code lets the later, higher base win back. */
  predicate Inverted(a: Candidate, b: Candidate) {
    Contested(a, b) && a.enqueuedAt > b.enqueuedAt
  }

  /** The comparison of the selection loop is `cmp_fair` exactly for pairs that are not contested. */
  lemma LoopComparesFairlyIff(a: Candidate, b: Candidate)
    ensures (Displaces(a, b) <==> CmpFair(a, b) == Less) <==> !Contested(a, b)
  {}

  /** It is the lexicographic order exactly for pairs that are not inverted. */
  lemma LoopComparesExactlyIff(a: Candidate, b: Candidate)
    ensures (Displaces(a, b) <==> LexLess(a, b)) <==> !Inverted(b, a)
    ensures (CmpFair(a, b) == Less <==> LexLess(a, b)) <==> !Contested(a, b) && !Inverted(b, a)
  {}

  predicate Uncontested(cands: seq<Candidate>) {
    forall a, b :: a in cands && b in cands ==> !Contested(a, b)
  }

  predicate Uninverted(cands: seq<Candidate>) {
    forall a, b :: a in cands && b in cands ==> !Inverted(a, b)
  }

  predicate IntegerBases(cands: seq<Candidate>) {
    forall i :: 0 <= i < |cands| ==> cands[i].base == cands[i].base.Floor as real
  }

  /** Integer bases, as cursor positions are, are never closer than epsilon without being equal. */
  lemma IntegerBasesUncontested(cands: seq<Candidate>)
    requires IntegerBases(cands)
    ensures Uncontested(cands) && Uninverted(cands)
  {
    forall a, b | a in cands && b in cands ensures !Contested(a, b) {
      var d := b.base.Floor - a.base.Floor;
      assert b.base - a.base == d as real;
      assert d <= 0 || d >= 1;
    }
  }

  // ----- The scan under `cmp_fair` -----

  function CmpIndex(cands: seq<Candidate>, n: nat): (i: nat)
    requires 0 < n <= |cands|
    ensures i < n
  {
    if n == 1 then 0
    else
      var b := CmpIndex(cands, n - 1);
      if CmpFair(cands[n - 1], cands[b]) == Less then n - 1 else b
  }

  lemma {:induction false} UncontestedScansAgree(cands: seq<Candidate>, n: nat)
    requires 0 < n <= |cands| && Uncontested(cands)
    ensures FairIndex(cands, n) == CmpIndex(cands, n)
  {
    if n > 1 {
      UncontestedScansAgree(cands, n - 1);
      var b := FairIndex(cands, n - 1);
      assert cands[n - 1] in cands && cands[b] in cands;
      LoopComparesFairlyIff(cands[n - 1], cands[b]);
    }
  }

  /** A listing drawn from `cands`. */
  ghost predicate Lists(s: seq<Candidate>, cands: seq<Candidate>) {
    s != [] && forall c :: c in s ==> c in cands
  }

  /** The loop and the scan under `cmp_fair` choose alike from every listing of the candidates if and only
      if no two of them are contested. */
  lemma ScansAgreeIff(cands: seq<Candidate>)
    ensures Uncontested(cands) <==> forall s :: Lists(s, cands) ==> FairIndex(s, |s|) == CmpIndex(s, |s|)
  {
    if Uncontested(cands) {
      forall s | Lists(s, cands) ensures FairIndex(s, |s|) == CmpIndex(s, |s|) {
        UncontestedScansAgree(s, |s|);
      }
    }
    forall a, b | a in cands && b in cands && Contested(a, b)
      ensures Lists([b, a], cands) && FairIndex([b, a], 2) != CmpIndex([b, a], 2)
    {
      ContestedPairSplitsTheScans(a, b);
    }
  }

  lemma ContestedPairSplitsTheScans(a: Candidate, b: Candidate)
    requires Contested(a, b)
    ensures FairIndex([b, a], 2) == 1 && CmpIndex([b, a], 2) == 0
  {
    assert FairIndex([b, a], 1) == 0 && CmpIndex([b, a], 1) == 0;
  }

  /** A witness: two contested candidates of which the loop always chooses the one listed last. */
  lemma FractionalBasesSplitTheTwoOrders(a: Candidate, b: Candidate)
    requires a.priority == b.priority && a.base == 0.0 && b.base == EPSILON / 2.0
    requires b.enqueuedAt < a.enqueuedAt
    ensures Contested(a, b) && Inverted(a, b)
    ensures CmpFair(b, a) == Less && CmpFair(a, b) == Greater
    ensures [a, b][FairIndex([a, b], 2)] == b && [b, a][FairIndex([b, a], 2)] == a
  {
    assert FairIndex([a, b], 1) == 0 && FairIndex([b, a], 1) == 0;
  }

  // ----- The lexicographic best -----

  /** `w` is the first lexicographic best of the first `n` candidates. */
  ghost predicate FirstLexBest(cands: seq<Candidate>, n: nat, w: nat)
    requires n <= |cands|
  {
    && w < n
    && (forall j :: 0 <= j < w ==> LexLess(cands[w], cands[j]))
    && (forall j :: w <= j < n ==> !LexLess(cands[j], cands[w]))
  }

  lemma {:induction false} UninvertedScanIsLexBest(cands: seq<Candidate>, n: nat)
    requires 0 < n <= |cands| && Uninverted(cands)
    ensures FirstLexBest(cands, n, FairIndex(cands, n))
  {
    if n > 1 {
      var b := FairIndex(cands, n - 1);
      UninvertedScanIsLexBest(cands, n - 1);
      assert cands[n - 1] in cands && cands[b] in cands;
      LoopComparesExactlyIff(cands[n - 1], cands[b]);
    }
  }

  /** The loop returns the first lexicographic best of every listing of the candidates if and only if no
      two of them are inverted. */
  lemma SelectBestIsLexBestIff(cands: seq<Candidate>)
    ensures Uninverted(cands) <==> forall s :: Lists(s, cands) ==> FirstLexBest(s, |s|, FairIndex(s, |s|))
  {
    if Uninverted(cands) {
      forall s | Lists(s, cands) ensures FirstLexBest(s, |s|, FairIndex(s, |s|)) {
        UninvertedScanIsLexBest(s, |s|);
      }
    }
    forall a, b | a in cands && b in cands && Inverted(a, b)
      ensures Lists([a, b], cands) && !FirstLexBest([a, b], 2, FairIndex([a, b], 2))
    {
      assert FairIndex([a, b], 1) == 0 && FairIndex([a, b], 2) == 1;
      assert LexLess([a, b][0], [a, b][1]);
    }
  }

  /** Different candidates never agree on priority, base and enqueue time all at once. */
  predicate Distinguishable(cands: seq<Candidate>) {
    forall a, b :: a in cands && b in cands && a != b ==>
      a.priority != b.priority || a.base != b.base || a.enqueuedAt != b.enqueuedAt
  }

  /** Then the winner does not depend on the order in which the candidates are listed. */
  lemma WinnerIgnoresListingOrder(c1: seq<Candidate>, c2: seq<Candidate>)
    requires c1 != [] && c2 != [] && Uninverted(c1) && Distinguishable(c1)
    requires forall c :: c in c1 <==> c in c2
    ensures c1[FairIndex(c1, |c1|)] == c2[FairIndex(c2, |c2|)]
  {
    var w1, w2 := FairIndex(c1, |c1|), FairIndex(c2, |c2|);
    UninvertedScanIsLexBest(c1, |c1|);
    UninvertedScanIsLexBest(c2, |c2|);
    assert c1[w1] in c2 && c2[w2] in c1;
    var j1 :| 0 <= j1 < |c1| && c1[j1] == c2[w2];
    var j2 :| 0 <= j2 < |c2| && c2[j2] == c1[w1];
    assert !LexLess(c1[j1], c1[w1]) && !LexLess(c2[j2], c2[w2]);
  }

  // ----- KV bias -----

  datatype KvBias = KvBias(enabled: bool, pressureBelow: real, biasFullAt: real)

  function BiasWeight(cfg: KvBias, pressure: real): (w: real)
    ensures 0.0 <= w <= 1.0
    ensures pressure <= cfg.pressureBelow || pressure <= 0.0 ==> w == 0.0
    ensures pressure > 0.0 && pressure > cfg.pressureBelow && pressure >= cfg.biasFullAt ==> w == 1.0
  {
    var lo := if cfg.pressureBelow < 0.0 then 0.0 else cfg.pressureBelow;
    var hi := if cfg.biasFullAt < lo then lo else cfg.biasFullAt;
    if pressure <= lo then 0.0
    else if pressure >= hi then 1.0
    else
      Ratio(pressure - lo, hi - lo);
      (pressure - lo) / (hi - lo)
  }

  lemma Ratio(x: real, y: real)
    requires 0.0 <= x <= y && 0.0 < y
    ensures 0.0 <= x / y <= 1.0
  {
    assert (x / y) * y == x;
    Scale(x / y, y);
  }

  lemma Scale(q: real, y: real)
    requires y > 0.0
    ensures q > 1.0 ==> q * y > y
    ensures q < 0.0 ==> q * y < 0.0
  {
    if q > 1.0 { assert (q - 1.0) * y > 0.0; }
  }

  function MaxFootprint(cands: seq<Candidate>, n: nat): (m: real)
    requires n <= |cands|
    ensures m >= 0.0 && forall i :: 0 <= i < n ==> cands[i].footprint <= m
    ensures m == 0.0 || exists i :: 0 <= i < n && cands[i].footprint == m
  {
    if n == 0 then 0.0
    else
      var m := MaxFootprint(cands, n - 1);
      if cands[n - 1].footprint > m then cands[n - 1].footprint else m
  }

  function Score(c: Candidate, weight: real, top: real): real
    requires top > 0.0
  {
    weight * (c.footprint / top)
  }

  predicate KvDisplaces(cand: Candidate, best: Candidate, weight: real, top: real)
    requires top > 0.0
  {
    var s, b := Score(cand, weight, top), Score(best, weight, top);
    if Abs(s - b) > EPSILON then s > b else CmpFair(cand, best) == Less
  }

  function KvScan(cands: seq<Candidate>, n: nat, weight: real, top: real): (i: nat)
    requires 0 < n <= |cands| && top > 0.0
    ensures i < n
  {
    if n == 1 then 0
    else
      var b := KvScan(cands, n - 1, weight, top);
      if KvDisplaces(cands[n - 1], cands[b], weight, top) then n - 1 else b
  }

  /** The index `select` returns, for the weight in force (0 when the bias is disabled). */
  function KvIndex(cands: seq<Candidate>, weight: real): (i: nat)
    requires cands != []
    ensures i < |cands|
  {
    var top := MaxFootprint(cands, |cands|);
    if weight <= 0.0 || top <= 0.0 then FairIndex(cands, |cands|)
    else KvScan(cands, |cands|, weight, top)
  }

  /** The weight `select` works with: the ramp when the bias is enabled, else 0. */
  function BiasInForce(cfg: KvBias, pressure: real): real {
    if cfg.enabled then BiasWeight(cfg, pressure) else 0.0
  }

  method Select(cfg: KvBias, cands: seq<Candidate>, pressure: real) returns (best: Option<Candidate>)
    ensures cands == [] ==> best == None
    ensures cands != [] ==> best == Some(cands[KvIndex(cands, BiasInForce(cfg, pressure))])
  {
    var weight := if cfg.enabled then BiasWeight(cfg, pressure) else 0.0;
    if weight <= 0.0 || cands == [] {
      best := SelectBest(cands);
      return;
    }
    var top := 0.0;
    for i := 0 to |cands|
      invariant top == MaxFootprint(cands, i)
    {
      if cands[i].footprint > top { top := cands[i].footprint; }
    }
    if top <= 0.0 {
      best := SelectBest(cands);
      return;
    }
    best := ScanBiased(cands, weight, top);
  }

  method ScanBiased(cands: seq<Candidate>, weight: real, top: real) returns (best: Option<Candidate>)
    requires cands != [] && top > 0.0
    ensures best == Some(cands[KvScan(cands, |cands|, weight, top)])
  {
    var leader, leaderScore := cands[0], Score(cands[0], weight, top);
    for i := 1 to |cands|
      invariant leader == cands[KvScan(cands, i, weight, top)]
      invariant leaderScore == Score(leader, weight, top)
    {
      var score := Score(cands[i], weight, top);
      var better := score > leaderScore;
      if Abs(score - leaderScore) <= EPSILON {
        var order := CmpFair(cands[i], leader);
        better := order == Less;
      }
      if better {
        leader, leaderScore := cands[i], score;
      }
    }
    best := Some(leader);
  }

  /** No bias weight or no positive footprint: `select` is `select_best`. With equal footprints it is the
      scan under `cmp_fair`, which is `select_best` when no two candidates are contested. */
  lemma KvSelectRefinesFair(cands: seq<Candidate>, weight: real)
    requires cands != []
    requires || weight <= 0.0
             || (forall c :: c in cands ==> c.footprint <= 0.0)
             || ((forall c, d :: c in cands && d in cands ==> c.footprint == d.footprint) && Uncontested(cands))
    ensures KvIndex(cands, weight) == FairIndex(cands, |cands|)
  {
    var top := MaxFootprint(cands, |cands|);
    if weight > 0.0 && top > 0.0 {
      var i :| 0 <= i < |cands| && cands[i].footprint == top;
      assert cands[i] in cands;
      EqualFootprintsScanFair(cands, |cands|, weight, top);
      UncontestedScansAgree(cands, |cands|);
    }
  }

  lemma {:induction false} EqualFootprintsScanFair(cands: seq<Candidate>, n: nat, weight: real, top: real)
    requires 0 < n <= |cands| && top > 0.0
    requires forall c, d :: c in cands && d in cands ==> c.footprint == d.footprint
    ensures KvScan(cands, n, weight, top) == CmpIndex(cands, n)
  {
    if n > 1 {
      EqualFootprintsScanFair(cands, n - 1, weight, top);
      assert cands[n - 1] in cands && cands[CmpIndex(cands, n - 1)] in cands;
    }
  }

  /** Each tie within epsilon may give up at most epsilon, so the winner of n candidates is
      within (n - 1) epsilon of the highest score. */
  lemma {:induction false} KvWinnerNearMaximum(cands: seq<Candidate>, n: nat, weight: real, top: real)
    requires 0 < n <= |cands| && top > 0.0
    ensures forall j :: 0 <= j < n ==>
      Score(cands[KvScan(cands, n, weight, top)], weight, top)
        >= Score(cands[j], weight, top) - (n - 1) as real * EPSILON
  {
    if n > 1 {
      KvWinnerNearMaximum(cands, n - 1, weight, top);
      assert (n - 1) as real * EPSILON == (n - 2) as real * EPSILON + EPSILON;
      assert (n - 2) as real * EPSILON >= 0.0;
    }
  }

  /** n candidates, each scoring exactly epsilon less than the one before and of higher priority. */
  function Drifting(n: nat): (c: seq<Candidate>)
    ensures |c| == n
  {
    seq(n, i requires 0 <= i < n => Candidate(seq(i, _ => 0), i, 0, 0.0, 1.0 - i as real * EPSILON))
  }

  lemma {:induction false} DriftingScan(n: nat, k: nat)
    requires 0 < k <= n
    ensures MaxFootprint(Drifting(n), k) == 1.0 && KvScan(Drifting(n), k, 1.0, 1.0) == k - 1
  {
    var c := Drifting(n);
    if k == 1 {
      assert MaxFootprint(c, 0) == 0.0 && c[0].footprint == 1.0;
    } else {
      DriftingScan(n, k - 1);
      DriftingStep(n, k);
    }
  }

  lemma DriftingStep(n: nat, k: nat)
    requires 1 < k <= n
    ensures var c := Drifting(n);
      && c[k - 1].footprint <= 1.0
      && Score(c[k - 2], 1.0, 1.0) - Score(c[k - 1], 1.0, 1.0) == EPSILON
  {
    assert (k - 1) as real * EPSILON == (k - 2) as real * EPSILON + EPSILON;
    assert (k - 2) as real * EPSILON >= 0.0;
  }

  /** The bound is attained for every n, so (n - 1) epsilon is the best constant. */
  lemma KvDriftIsAttained(n: nat)
    requires n > 0
    ensures var c := Drifting(n);
      && MaxFootprint(c, n) == 1.0
      && Score(c[KvIndex(c, 1.0)], 1.0, 1.0) == Score(c[0], 1.0, 1.0) - (n - 1) as real * EPSILON
  {
    DriftingScan(n, n);
    assert Drifting(n)[0].footprint == 1.0;
  }

  /** Scores pairwise equal or more than epsilon apart. */
  predicate SeparatedScores(cands: seq<Candidate>, weight: real, top: real)
    requires top > 0.0
  {
    forall i, j :: 0 <= i < |cands| && 0 <= j < |cands| ==>
      Score(cands[i], weight, top) == Score(cands[j], weight, top)
      || Abs(Score(cands[i], weight, top) - Score(cands[j], weight, top)) > EPSILON
  }

  /** No two candidates of equal score are contested. */
  predicate FairTies(cands: seq<Candidate>, weight: real, top: real)
    requires top > 0.0
  {
    forall i, j :: 0 <= i < |cands| && 0 <= j < |cands| && Score(cands[i], weight, top) == Score(cands[j], weight, top) ==>
      !Contested(cands[i], cands[j])
  }

  predicate BiasedLess(a: Candidate, b: Candidate, weight: real, top: real)
    requires top > 0.0
  {
    || Score(a, weight, top) > Score(b, weight, top)
    || (Score(a, weight, top) == Score(b, weight, top) && LexLess(a, b))
  }

  lemma BiasedLessIsTransitive(a: Candidate, b: Candidate, c: Candidate, weight: real, top: real)
    requires top > 0.0
    ensures BiasedLess(a, b, weight, top) && BiasedLess(b, c, weight, top) ==> BiasedLess(a, c, weight, top)
    ensures !BiasedLess(a, b, weight, top) && !BiasedLess(b, c, weight, top) ==> !BiasedLess(a, c, weight, top)
    ensures BiasedLess(a, b, weight, top) && !BiasedLess(c, b, weight, top) ==> BiasedLess(a, c, weight, top)
  {
    hide Score;
  }

  /** Separated scores leave no room for a tie within epsilon that is not exact. */
  lemma SeparatedDisplaces(cands: seq<Candidate>, i: nat, j: nat, weight: real, top: real)
    requires i < |cands| && j < |cands| && top > 0.0 && FairTies(cands, weight, top) && SeparatedScores(cands, weight, top)
    ensures KvDisplaces(cands[i], cands[j], weight, top) <==> BiasedLess(cands[i], cands[j], weight, top)
  {
    hide Score, LexLess;
    LoopComparesExactlyIff(cands[i], cands[j]);
  }

  /** With separated scores and no contested ties the winner is the first best by (score, priority, base, enqueue time). */
  lemma {:induction false} KvWinnerIsLexBest(cands: seq<Candidate>, n: nat, weight: real, top: real)
    requires 0 < n <= |cands| && top > 0.0 && FairTies(cands, weight, top) && SeparatedScores(cands, weight, top)
    ensures var w := KvScan(cands, n, weight, top);
      && (forall j :: 0 <= j < w ==> BiasedLess(cands[w], cands[j], weight, top))
      && (forall j :: w <= j < n ==> !BiasedLess(cands[j], cands[w], weight, top))
  {
    hide KvDisplaces, BiasedLess, SeparatedScores, FairTies;
    BiasedLessIsIrreflexive(cands[n - 1], weight, top);
    if n > 1 {
      KvWinnerIsLexBest(cands, n - 1, weight, top);
      var b, last := KvScan(cands, n - 1, weight, top), n - 1;
      SeparatedDisplaces(cands, last, b, weight, top);
      if BiasedLess(cands[last], cands[b], weight, top) {
        forall j | 0 <= j < last ensures BiasedLess(cands[last], cands[j], weight, top) {
          BiasedLessIsTransitive(cands[last], cands[b], cands[j], weight, top);
        }
      }
    }
  }

  lemma BiasedLessIsIrreflexive(a: Candidate, weight: real, top: real)
    requires top > 0.0
    ensures !BiasedLess(a, a, weight, top)
  {
    hide Score;
  }
}
