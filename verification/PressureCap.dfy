/** The KV-pressure ladder that lowers the concurrency ceiling. */
module PressureCap {
  import opened Flows

  datatype Threshold = Threshold(at: real, maxFlows: nat)

  datatype Ladder = Ladder(enabled: bool, thresholds: seq<Threshold>)

  /** The least `maxFlows` among the thresholds reached at `pressure`. */
  function LeastReached(ts: seq<Threshold>, pressure: real): (m: Option<nat>)
    ensures m.None? <==> forall t :: t in ts ==> pressure < t.at
    ensures m.Some? ==> exists t :: t in ts && pressure >= t.at && t.maxFlows == m.value
    ensures m.Some? ==> forall t :: t in ts && pressure >= t.at ==> m.value <= t.maxFlows
  {
    if ts == [] then None
    else
      var rest := LeastReached(ts[1..], pressure);
      assert forall t :: t in ts <==> t == ts[0] || t in ts[1..];
      if pressure < ts[0].at then rest
      else if rest.Some? && rest.value < ts[0].maxFlows then rest
      else Some(ts[0].maxFlows)
  }

  function EffectiveMax(ladder: Ladder, maxActive: nat, pressure: real): (cap: nat)
    ensures cap <= maxActive
    ensures !ladder.enabled || (forall t :: t in ladder.thresholds ==> pressure < t.at) ==> cap == maxActive
    ensures cap == maxActive || (exists t :: t in ladder.thresholds && pressure >= t.at && t.maxFlows == cap)
    ensures ladder.enabled ==> forall t :: t in ladder.thresholds && pressure >= t.at ==> cap <= t.maxFlows
  {
    if !ladder.enabled then maxActive
    else
      match LeastReached(ladder.thresholds, pressure)
      case Some(m) => if m < maxActive then m else maxActive
      case None => maxActive
  }

  /** More pressure never raises the cap. */
  lemma CapFallsWithPressure(ladder: Ladder, maxActive: nat, low: real, high: real)
    requires low <= high
    ensures EffectiveMax(ladder, maxActive, high) <= EffectiveMax(ladder, maxActive, low)
  {
    var cap := EffectiveMax(ladder, maxActive, low);
    if ladder.enabled && cap < maxActive {
      var t :| t in ladder.thresholds && low >= t.at && t.maxFlows == cap;
      assert high >= t.at;
    }
  }

  /** A validated ladder never closes admission altogether. */
  lemma ValidatedCapIsPositive(ladder: Ladder, maxActive: nat, pressure: real)
    requires maxActive >= 1 && forall t :: t in ladder.thresholds ==> t.maxFlows >= 1
    ensures EffectiveMax(ladder, maxActive, pressure) >= 1
  {}
}
