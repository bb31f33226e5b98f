/** Cadence classification of a flow: an online state machine that keeps one counter, against a reference
    over the whole arrival history. Time is an integer clock. */
module Cadence {
  import opened Flows

  datatype State = Cold | Interactive | AgenticSuspected | AgenticConfirmed

  /** A validated policy: the configuration check demands 1 <= suspected < confirmed. */
  datatype Policy = Policy(idleGap: nat, suspected: nat, confirmed: nat) {
    predicate Valid() { 1 <= suspected < confirmed }
  }

  datatype Arrival = Arrival(time: nat, boundary: bool)

  // ----- Reference: the arrival history -----

  /** `now.duration_since(last)`, which saturates at zero. */
  function Gap(last: nat, now: nat): (gap: nat)
    ensures now >= last ==> last + gap == now
    ensures now <= last <==> gap == 0
  {
    if now < last then 0 else now - last
  }

  /** The i-th arrival is an idle chunk: a turn boundary after a long enough gap. */
  predicate IdleAt(p: Policy, h: seq<Arrival>, i: nat)
    requires i < |h|
  {
    i > 0 && h[i].boundary && Gap(h[i - 1].time, h[i].time) >= p.idleGap
  }

  /** Everything from `k` on came after the last idle chunk; `k` is 0 when there never was one. */
  ghost predicate IsSince(p: Policy, h: seq<Arrival>, k: nat) {
    && k <= |h|
    && (k > 0 ==> IdleAt(p, h, k - 1))
    && forall i: nat :: k <= i < |h| ==> !IdleAt(p, h, i)
  }

  /** `n` consecutive arrivals from `i` on, none of them a turn boundary. */
  predicate Unbounded(h: seq<Arrival>, i: nat, n: nat) {
    i + n <= |h| && forall j :: i <= j < i + n ==> !h[j].boundary
  }

  /** At or after `k` there were `n` consecutive arrivals without a turn boundary. */
  ghost predicate HasRun(h: seq<Arrival>, k: nat, n: nat) {
    exists i: nat :: k <= i && Unbounded(h, i, n)
  }

  // ----- The state machine -----

  datatype Entry = Entry(lastArrival: Option<nat>, count: nat, state: State)

  const NEW_ENTRY := Entry(None, 0, Cold)

  function Advance(p: Policy, e: Entry, a: Arrival): Entry {
    var idle := a.boundary && e.lastArrival.Some? && Gap(e.lastArrival.value, a.time) >= p.idleGap;
    if idle then Entry(Some(a.time), 0, Interactive)
    else if a.boundary then Entry(Some(a.time), 0, e.state)
    else
      var count := e.count + 1;
      var state :=
        match e.state
        case AgenticConfirmed => AgenticConfirmed
        case AgenticSuspected => if count >= p.confirmed then AgenticConfirmed else AgenticSuspected
        case _ => if count >= p.suspected then AgenticSuspected else e.state;
      Entry(Some(a.time), count, state)
  }

  function Observe(p: Policy, h: seq<Arrival>): Entry {
    if h == [] then NEW_ENTRY else Advance(p, Observe(p, h[..|h| - 1]), h[|h| - 1])
  }

  /** The counter is the length of the run that ends the history. */
  ghost predicate IsTrailing(h: seq<Arrival>, n: nat) {
    n <= |h| && Unbounded(h, |h| - n, n) && (n < |h| ==> h[|h| - n - 1].boundary)
  }

  ghost predicate Explains(p: Policy, h: seq<Arrival>, k: nat, s: State) {
    && (s == AgenticConfirmed <==> HasRun(h, k, p.confirmed))
    && (s == AgenticSuspected <==> HasRun(h, k, p.suspected) && !HasRun(h, k, p.confirmed))
    && (s == Interactive <==> !HasRun(h, k, p.suspected) && k > 0)
    && (s == Cold <==> !HasRun(h, k, p.suspected) && k == 0)
  }

  lemma ObserveAppend(p: Policy, h: seq<Arrival>, a: Arrival)
    ensures Observe(p, h + [a]) == Advance(p, Observe(p, h), a)
    ensures Observe(p, h).lastArrival == if h == [] then None else Some(h[|h| - 1].time)
  {
    assert (h + [a])[..|h|] == h;
  }

  lemma ObserveEmpty(p: Policy)
    ensures Observe(p, []) == NEW_ENTRY
  {}

  // ----- One more arrival -----

  /** A run in the longer history is an old one, or the one that now ends the history. */
  lemma HasRunGrows(h: seq<Arrival>, a: Arrival, k: nat, n: nat, trailing: nat)
    requires k <= |h| && n > 0 && IsTrailing(h, trailing) && trailing <= |h| - k
    ensures HasRun(h + [a], k, n) <==> HasRun(h, k, n) || (!a.boundary && trailing + 1 >= n)
  {
    var all := h + [a];
    if HasRun(h, k, n) {
      var i: nat :| k <= i && Unbounded(h, i, n);
      assert Unbounded(all, i, n);
    }
    if !a.boundary && trailing + 1 >= n {
      assert Unbounded(all, |all| - n, n);
    }
    if HasRun(all, k, n) {
      var i: nat :| k <= i && Unbounded(all, i, n);
      assert forall j :: 0 <= j < |h| ==> h[j] == all[j];
      if i + n <= |h| {
        assert Unbounded(h, i, n);
      } else {
        assert all[|h|] == a;
        assert forall j :: i <= j < |h| ==> !h[j].boundary;
      }
    }
  }

  lemma LongerRunsAreRuns(h: seq<Arrival>, k: nat, n: nat, m: nat)
    requires m <= n && HasRun(h, k, n)
    ensures HasRun(h, k, m)
  {
    var i: nat :| k <= i && Unbounded(h, i, n);
    assert Unbounded(h, i, m);
  }

  lemma IdleAtPrefix(p: Policy, h: seq<Arrival>, a: Arrival)
    ensures forall i: nat :: i < |h| ==> (IdleAt(p, h + [a], i) <==> IdleAt(p, h, i))
  {}

  lemma NoRunAtEnd(h: seq<Arrival>, n: nat)
    requires n > 0
    ensures !HasRun(h, |h|, n)
  {}

  /** The state is decided by the runs since the last idle chunk, and the counter by the run that ends the
      history, although a fast turn resets the counter and not the state. */
  lemma {:induction false} StateIsDecidedByRuns(p: Policy, h: seq<Arrival>, k: nat)
    requires p.Valid() && IsSince(p, h, k)
    ensures var e := Observe(p, h);
      && Explains(p, h, k, e.state)
      && IsTrailing(h, e.count) && e.count <= |h| - k
      && e.lastArrival == if h == [] then None else Some(h[|h| - 1].time)
    decreases |h|
  {
    if h == [] {
      NoRunAtEnd(h, p.suspected);
      NoRunAtEnd(h, p.confirmed);
    } else {
      var n := |h| - 1;
      var g, a := h[..n], h[n];
      assert g + [a] == h;
      IdleAtPrefix(p, g, a);
      if IdleAt(p, h, n) {
        var j := LastIdle(p, g);
        StateIsDecidedByRuns(p, g, j);
        assert k == |h|;
        NoRunAtEnd(h, p.suspected);
        NoRunAtEnd(h, p.confirmed);
      } else {
        assert k <= n;
        StateIsDecidedByRuns(p, g, k);
        StepExplains(p, g, a, k);
      }
    }
  }

  lemma StepExplains(p: Policy, g: seq<Arrival>, a: Arrival, k: nat)
    requires p.Valid() && k <= |g|
    requires var e := Observe(p, g); Explains(p, g, k, e.state) && IsTrailing(g, e.count) && e.count <= |g| - k
    requires Observe(p, g).lastArrival == if g == [] then None else Some(g[|g| - 1].time)
    requires !IdleAt(p, g + [a], |g|)
    ensures var e := Advance(p, Observe(p, g), a);
      Explains(p, g + [a], k, e.state) && IsTrailing(g + [a], e.count) && e.count <= |g + [a]| - k
  {
    hide HasRun, Observe;
    var e := Observe(p, g);
    HasRunGrows(g, a, k, p.suspected, e.count);
    HasRunGrows(g, a, k, p.confirmed, e.count);
    if HasRun(g, k, p.confirmed) { LongerRunsAreRuns(g, k, p.confirmed, p.suspected); }
    TrailingRun(g, k, e.count, p.suspected);
    TrailingRun(g, k, e.count, p.confirmed);
  }

  lemma TrailingRun(g: seq<Arrival>, k: nat, count: nat, n: nat)
    requires k <= |g| && IsTrailing(g, count) && count <= |g| - k
    ensures count >= n ==> HasRun(g, k, n)
  {
    if count >= n { assert Unbounded(g, |g| - n, n); }
  }

  /** There is always a last idle chunk to count from, or none at all. */
  lemma {:induction false} LastIdle(p: Policy, h: seq<Arrival>) returns (k: nat)
    ensures IsSince(p, h, k)
    ensures k == 0 <==> forall i: nat :: i < |h| ==> !IdleAt(p, h, i)
  {
    if h == [] {
      k := 0;
    } else {
      var n := |h| - 1;
      assert h[..n] + [h[n]] == h;
      IdleAtPrefix(p, h[..n], h[n]);
      if IdleAt(p, h, n) { k := n + 1; } else { k := LastIdle(p, h[..n]); }
    }
  }

  // ----- The registry -----

  datatype Tracked = Tracked(entry: Entry, lastSeen: nat)

  class CadenceRegistry {
    const policy: Policy
    var inner: map<FlowId, Tracked>
    /** The arrivals of each tracked flow since its entry was created. */
    ghost var history: map<FlowId, seq<Arrival>>

    ghost predicate Valid()
      reads this
    {
      && policy.Valid() && history.Keys == inner.Keys
      && forall f :: f in inner ==> inner[f].entry == Observe(policy, history[f])
    }

    ghost function HistoryOf(f: FlowId): seq<Arrival>
      reads this
    {
      if f in history then history[f] else []
    }

    constructor (policy: Policy)
      requires policy.Valid()
      ensures Valid() && this.policy == policy && history == map[]
    {
      this.policy := policy;
      inner, history := map[], map[];
    }

    /** `entry(..).or_default()` */
    method OrDefault(f: FlowId, unixNow: nat)
      requires Valid()
      modifies this
      ensures Valid() && f in inner && forall g :: HistoryOf(g) == old(HistoryOf(g))
      ensures forall g :: g in old(inner) ==> g in inner && inner[g] == old(inner)[g]
      ensures inner.Keys == old(inner).Keys + {f}
    {
      if f !in inner {
        inner := inner[f := Tracked(NEW_ENTRY, unixNow)];
        history := history[f := []];
      }
    }

    method RecordArrival(f: FlowId, now: nat, boundary: bool, unixNow: nat) returns (prevGap: Option<nat>)
      requires Valid()
      modifies this
      ensures Valid()
      ensures HistoryOf(f) == old(HistoryOf(f)) + [Arrival(now, boundary)]
      ensures forall g :: g != f ==> HistoryOf(g) == old(HistoryOf(g))
      ensures f in inner && inner[f].lastSeen == unixNow
      ensures prevGap == if old(HistoryOf(f)) == [] then None else Some(Gap(old(HistoryOf(f))[|old(HistoryOf(f))| - 1].time, now))
    {
      hide Observe, Advance, Gap;
      ghost var h := HistoryOf(f);
      ObserveAppend(policy, h, Arrival(now, boundary));
      ObserveEmpty(policy);
      OrDefault(f, unixNow);
      var entry := inner[f].entry;
      prevGap := if entry.lastArrival.Some? then Some(Gap(entry.lastArrival.value, now)) else None;
      entry := Transition(entry, now, boundary, prevGap);
      inner := inner[f := Tracked(entry, unixNow)];
      history := history[f := h + [Arrival(now, boundary)]];
    }

    method Transition(entry: Entry, now: nat, boundary: bool, prevGap: Option<nat>) returns (e: Entry)
      requires prevGap == if entry.lastArrival.Some? then Some(Gap(entry.lastArrival.value, now)) else None
      ensures e == Advance(policy, entry, Arrival(now, boundary))
    {
      var idle := boundary && prevGap.Some? && prevGap.value >= policy.idleGap;
      var count, state := entry.count, entry.state;
      if idle {
        state := Interactive;
        count := 0;
      } else if boundary {
        count := 0;
      } else {
        count := count + 1;
        match state
        case Cold | Interactive =>
          if count >= policy.suspected { state := AgenticSuspected; }
        case AgenticSuspected =>
          if count >= policy.confirmed { state := AgenticConfirmed; }
        case AgenticConfirmed =>
      }
      e := Entry(Some(now), count, state);
    }

    /** Reading a state creates the entry of an unknown flow; the answer is what the history says. */
    method StateOf(f: FlowId, unixNow: nat) returns (s: State)
      requires Valid()
      modifies this
      ensures Valid() && forall g :: HistoryOf(g) == old(HistoryOf(g))
      ensures forall k: nat :: IsSince(policy, HistoryOf(f), k) ==> Explains(policy, HistoryOf(f), k, s)
    {
      OrDefault(f, unixNow);
      s := inner[f].entry.state;
      forall k: nat | IsSince(policy, HistoryOf(f), k) ensures Explains(policy, HistoryOf(f), k, s) {
        StateIsDecidedByRuns(policy, HistoryOf(f), k);
      }
    }

    /** Entries not seen within `ttl` are forgotten with their history; the others are untouched. */
    method ReapIdle(unixNow: nat, ttl: nat) returns (removed: nat)
      requires Valid()
      modifies this
      ensures Valid()
      ensures forall f :: f in inner <==> f in old(inner) && old(inner)[f].lastSeen + ttl >= unixNow
      ensures forall f :: f in inner ==> inner[f] == old(inner)[f] && HistoryOf(f) == old(HistoryOf(f))
      ensures removed == |old(inner).Keys - inner.Keys|
    {
      var cutoff := if unixNow < ttl then 0 else unixNow - ttl;
      var toRemove := set f | f in inner.Keys && inner[f].lastSeen < cutoff;
      ghost var before := inner.Keys;
      inner := inner - toRemove;
      history := history - toRemove;
      removed := |toRemove|;
      assert toRemove == before - inner.Keys;
    }
  }
}
