/** The inference-stall watchdog: an incremental monitor against a reference over the whole scrape history.
    Each scrape reads the clock once. */
module Watchdog {

  datatype Counters = Counters(prompt: real, generation: real, cached: real, decodeCalls: real)

  /** A scrape in which the backend's metrics were found. */
  datatype Sample = Sample(time: nat, running: real, waiting: real, counters: Counters)

  const ZERO := Counters(0.0, 0.0, 0.0, 0.0)

  // ----- Reference -----

  /** The counters as they were before the i-th sample. */
  function Before(h: seq<Sample>, i: nat): Counters
    requires i < |h|
  {
    if i == 0 then Counters(0.0, 0.0, 0.0, 0.0) else h[i - 1].counters
  }

  /** The i-th sample shows a backend with work and no progress. */
  predicate Stuck(h: seq<Sample>, i: nat)
    requires i < |h|
  {
    (h[i].running > 0.0 || h[i].waiting > 0.0) && h[i].counters == Before(h, i)
  }

  ghost predicate Monotone(start: nat, h: seq<Sample>) {
    (forall i :: 0 <= i < |h| ==> start <= h[i].time) && forall i, j :: 0 <= i < j < |h| ==> h[i].time <= h[j].time
  }

  /** At least `timeout` has passed since the start and every sample of the last `timeout` was stuck. */
  predicate StalledAt(timeout: nat, start: nat, h: seq<Sample>, i: nat)
    requires i < |h|
  {
    h[i].time - start >= timeout && forall j :: 0 <= j <= i && h[j].time > h[i].time - timeout ==> Stuck(h, j)
  }

  /** How often the reference flag rises. */
  ghost function RisingEdges(timeout: nat, start: nat, h: seq<Sample>, n: nat): nat
    requires n <= |h|
  {
    if n == 0 then 0
    else
      var rises := StalledAt(timeout, start, h, n - 1) && (n == 1 || !StalledAt(timeout, start, h, n - 2));
      RisingEdges(timeout, start, h, n - 1) + if rises then 1 else 0
  }

  // ----- The monitor -----

  predicate Busy(s: Sample) {
    s.running > 0.0 || s.waiting > 0.0
  }

  datatype Monitor = Monitor(last: Counters, lastProgress: nat, stalled: bool, events: nat)

  function Advance(timeout: nat, m: Monitor, s: Sample): Monitor {
    var progress := if !Busy(s) || s.counters != m.last then s.time else m.lastProgress;
    var now := Busy(s) && s.time - progress >= timeout;
    Monitor(s.counters, progress, now, if now && !m.stalled then m.events + 1 else m.events)
  }

  function Observe(timeout: nat, start: nat, h: seq<Sample>): Monitor {
    if h == [] then Monitor(ZERO, start, false, 0)
    else Advance(timeout, Observe(timeout, start, h[..|h| - 1]), h[|h| - 1])
  }

  lemma ObserveAppend(timeout: nat, start: nat, h: seq<Sample>, s: Sample)
    ensures Observe(timeout, start, h + [s]) == Advance(timeout, Observe(timeout, start, h), s)
  {
    assert (h + [s])[..|h|] == h;
  }

  /** `p` is when progress was last seen: the latest sample that was not stuck, or the start. */
  ghost predicate IsLastProgress(start: nat, h: seq<Sample>, p: nat) {
    && (p == start || exists j :: 0 <= j < |h| && !Stuck(h, j) && h[j].time == p)
    && p >= start
    && forall j :: 0 <= j < |h| && !Stuck(h, j) ==> h[j].time <= p
  }

  lemma StuckPrefix(h: seq<Sample>, s: Sample)
    ensures forall i :: 0 <= i < |h| ==> (Stuck(h + [s], i) <==> Stuck(h, i))
  {}

  lemma StalledPrefix(timeout: nat, start: nat, h: seq<Sample>, s: Sample)
    ensures forall i :: 0 <= i < |h| ==> (StalledAt(timeout, start, h + [s], i) <==> StalledAt(timeout, start, h, i))
  {
    hide Stuck;
    StuckPrefix(h, s);
    var all := h + [s];
    assert forall j :: 0 <= j < |h| ==> all[j] == h[j];
    forall i | 0 <= i < |h| ensures StalledAt(timeout, start, all, i) <==> StalledAt(timeout, start, h, i) {
      if StalledAt(timeout, start, all, i) {
        assert forall j :: 0 <= j <= i && h[j].time > h[i].time - timeout ==> Stuck(all, j);
      }
    }
  }

  lemma {:induction false} EdgesPrefix(timeout: nat, start: nat, h: seq<Sample>, s: Sample, n: nat)
    requires n <= |h|
    ensures RisingEdges(timeout, start, h + [s], n) == RisingEdges(timeout, start, h, n)
  {
    hide StalledAt;
    if n > 0 {
      EdgesPrefix(timeout, start, h, s, n - 1);
      StalledPrefix(timeout, start, h, s);
    }
  }

  lemma {:induction false} LastProgressKept(timeout: nat, start: nat, h: seq<Sample>)
    requires Monotone(start, h)
    ensures IsLastProgress(start, h, Observe(timeout, start, h).lastProgress)
    ensures Observe(timeout, start, h).last == if h == [] then ZERO else h[|h| - 1].counters
  {
    hide IsLastProgress, Stuck, Monotone;
    if h == [] {
      NoProgressYet(start);
    } else {
      var g := h[..|h| - 1];
      MonotonePrefix(start, h);
      LastProgressKept(timeout, start, g);
      NextProgress(timeout, start, h);
      ProgressKept(start, h, Observe(timeout, start, g).lastProgress);
    }
  }

  lemma NoProgressYet(start: nat)
    ensures IsLastProgress(start, [], start)
  {}

  lemma NextProgress(timeout: nat, start: nat, h: seq<Sample>)
    requires h != []
    requires var g := h[..|h| - 1]; Observe(timeout, start, g).last == if g == [] then ZERO else g[|g| - 1].counters
    ensures var m := Observe(timeout, start, h);
      && m.lastProgress == (if Stuck(h, |h| - 1) then Observe(timeout, start, h[..|h| - 1]).lastProgress else h[|h| - 1].time)
      && m.last == h[|h| - 1].counters
  {}

  lemma ProgressKept(start: nat, h: seq<Sample>, q: nat)
    requires h != [] && Monotone(start, h) && IsLastProgress(start, h[..|h| - 1], q)
    ensures IsLastProgress(start, h, if Stuck(h, |h| - 1) then q else h[|h| - 1].time)
  {
    hide Stuck;
    var g := h[..|h| - 1];
    assert g + [h[|h| - 1]] == h;
    StuckPrefix(g, h[|h| - 1]);
    assert forall j :: 0 <= j < |g| ==> g[j] == h[j];
    if Stuck(h, |g|) && q != start {
      var j :| 0 <= j < |g| && !Stuck(g, j) && g[j].time == q;
      assert !Stuck(h, j);
    }
  }

  lemma MonotonePrefix(start: nat, h: seq<Sample>)
    requires h != [] && Monotone(start, h)
    ensures Monotone(start, h[..|h| - 1])
  {}

  /** The flag after each sample is the reference flag, and the events are its rising edges. A zero timeout
      switches the watchdog off. */
  lemma {:induction false} MonitorIsExact(timeout: nat, start: nat, h: seq<Sample>)
    requires timeout > 0 && Monotone(start, h)
    ensures var m := Observe(timeout, start, h);
      && (m.stalled <==> h != [] && StalledAt(timeout, start, h, |h| - 1))
      && m.events == RisingEdges(timeout, start, h, |h|)
  {
    hide StalledAt, IsLastProgress, Stuck, Monotone, Observe, RisingEdges;
    if h == [] {
      MonitorStart(timeout, start);
    } else {
      var g, s := h[..|h| - 1], h[|h| - 1];
      assert g + [s] == h;
      MonotonePrefix(start, h);
      MonitorIsExact(timeout, start, g);
      StalledPrefix(timeout, start, g, s);
      EdgesPrefix(timeout, start, g, s, |g|);
      MonitorStep(timeout, start, h);
      LastProgressKept(timeout, start, h);
      FlagIsExact(timeout, start, h, Observe(timeout, start, h).lastProgress);
    }
  }

  lemma MonitorStart(timeout: nat, start: nat)
    ensures Observe(timeout, start, []) == Monitor(ZERO, start, false, 0)
    ensures RisingEdges(timeout, start, [], 0) == 0
  {}

  lemma MonitorStep(timeout: nat, start: nat, h: seq<Sample>)
    requires timeout > 0 && h != []
    ensures var m, was := Observe(timeout, start, h), Observe(timeout, start, h[..|h| - 1]);
      && (m.stalled <==> h[|h| - 1].time - m.lastProgress >= timeout)
      && m.events == was.events + if m.stalled && !was.stalled then 1 else 0
    ensures RisingEdges(timeout, start, h, |h|) == RisingEdges(timeout, start, h, |h| - 1)
      + if StalledAt(timeout, start, h, |h| - 1) && (|h| == 1 || !StalledAt(timeout, start, h, |h| - 2)) then 1 else 0
  {
    hide StalledAt;
  }

  lemma FlagIsExact(timeout: nat, start: nat, h: seq<Sample>, p: nat)
    requires timeout > 0 && h != [] && Monotone(start, h) && IsLastProgress(start, h, p)
    ensures StalledAt(timeout, start, h, |h| - 1) <==> h[|h| - 1].time - p >= timeout
  {
    hide Stuck;
    var n := |h| - 1;
    if StalledAt(timeout, start, h, n) && p != start {
      var j :| 0 <= j < |h| && !Stuck(h, j) && h[j].time == p;
      assert !(h[j].time > h[n].time - timeout);
    }
  }

  class StallWatchdog {
    const timeout: nat
    const start: nat
    var lastCounters: Counters
    var lastProgress: nat
    var stalled: bool
    var events: nat
    /** The samples found so far. */
    ghost var history: seq<Sample>

    ghost predicate Valid()
      reads this
    {
      timeout > 0 ==> Monitor(lastCounters, lastProgress, stalled, events) == Observe(timeout, start, history)
    }

    constructor (timeout: nat, now: nat)
      ensures Valid() && this.timeout == timeout && start == now && history == [] && !stalled && events == 0
    {
      this.timeout, start := timeout, now;
      lastCounters, lastProgress, stalled, events, history := ZERO, now, false, 0, [];
    }

    /** One turn of the poll loop. A scrape that failed or held no known metric is not found and changes nothing. */
    method Poll(found: bool, s: Sample)
      requires Valid()
      modifies this
      ensures Valid()
      ensures history == if found then old(history) + [s] else old(history)
      ensures timeout == 0 || !found ==> stalled == old(stalled) && events == old(events)
      ensures timeout > 0 && history != [] && Monotone(start, history) ==>
        && (stalled <==> StalledAt(timeout, start, history, |history| - 1))
        && events == RisingEdges(timeout, start, history, |history|)
    {
      hide Observe, StalledAt, RisingEdges, Monotone;
      if found {
        ObserveAppend(timeout, start, history, s);
        history := history + [s];
        if timeout > 0 {
          if !Busy(s) { lastProgress := s.time; }
          var progressed := s.counters.prompt != lastCounters.prompt || s.counters.generation != lastCounters.generation
            || s.counters.cached != lastCounters.cached || s.counters.decodeCalls != lastCounters.decodeCalls;
          if progressed { lastProgress := s.time; }
          lastCounters := s.counters;
          var nowStalled := Busy(s) && s.time - lastProgress >= timeout;
          if nowStalled && !stalled {
            events := events + 1;
            stalled := true;
          } else if !nowStalled && stalled {
            stalled := false;
          }
        }
      }
      if timeout > 0 && Monotone(start, history) { MonitorIsExact(timeout, start, history); }
    }
  }
}
