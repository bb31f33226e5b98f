/** What `GET /queue` reports: the queue depth summed over the registry and the snapshot of waiting
    flows, against the waiter bookkeeping of `Admission`. */
module Reporting {
  import opened Flows
  import opened Admission

  // ----- Leaving the reporting queue -----

  /** `remove_from_queue` removes the first entry of the flow and keeps the order of the others. */
  method RemoveFromQueue(queue: seq<FlowId>, f: FlowId) returns (r: seq<FlowId>)
    ensures r == RemoveFirst(queue, f)
  {
    for i := 0 to |queue|
      invariant f !in queue[..i]
    {
      if queue[i] == f {
        RemoveFirstAt(queue, i);
        return queue[..i] + queue[i + 1..];
      }
    }
    assert queue[..|queue|] == queue;
    RemoveFirstAbsent(queue, f);
    r := queue;
  }

  lemma {:induction false} RemoveFirstAt(q: seq<FlowId>, i: nat)
    requires i < |q| && q[i] !in q[..i]
    ensures RemoveFirst(q, q[i]) == q[..i] + q[i + 1..]
  {
    if i > 0 {
      var rest := q[1..];
      assert q[..i] == [q[0]] + rest[..i - 1];
      assert rest[i - 1] == q[i] && rest[i - 1 + 1..] == q[i + 1..];
      RemoveFirstAt(rest, i - 1);
    }
  }

  lemma {:induction false} RemoveFirstAbsent(q: seq<FlowId>, f: FlowId)
    requires f !in q
    ensures RemoveFirst(q, f) == q
  {
    if q != [] { RemoveFirstAbsent(q[1..], f); }
  }

  // ----- Queue depth -----

  /** Depth counters summed along a listing of the registered flows. */
  function SumAlong(d: Desk, listing: seq<FlowId>): int {
    if listing == [] then 0 else DepthOf(d, listing[0]) + SumAlong(d, listing[1..])
  }

  method SumDepths(d: Desk, listing: seq<FlowId>) returns (total: int)
    ensures total == SumAlong(d, listing)
  {
    total := 0;
    for i := 0 to |listing|
      invariant total + SumAlong(d, listing[i..]) == SumAlong(d, listing)
    {
      assert listing[i..][1..] == listing[i + 1..];
      total := total + DepthOf(d, listing[i]);
    }
  }

  lemma {:induction false} WithoutCounts(q: seq<FlowId>, f: FlowId)
    ensures |Without(q, f)| == |q| - multiset(q)[f]
    ensures forall g :: g != f ==> multiset(Without(q, f))[g] == multiset(q)[g]
  {
    if q != [] {
      var t := q[1..];
      assert q == [q[0]] + t;
      assert multiset(q) == multiset{q[0]} + multiset(t);
      WithoutCounts(t, f);
      if q[0] != f {
        assert multiset([q[0]] + Without(t, f)) == multiset{q[0]} + multiset(Without(t, f));
      }
    }
  }

  function CountAlong(q: seq<FlowId>, listing: seq<FlowId>): int {
    if listing == [] then 0 else multiset(q)[listing[0]] + CountAlong(q, listing[1..])
  }

  lemma {:induction false} CountAlongSame(q: seq<FlowId>, r: seq<FlowId>, listing: seq<FlowId>)
    requires forall f :: f in listing ==> multiset(q)[f] == multiset(r)[f]
    ensures CountAlong(q, listing) == CountAlong(r, listing)
  {
    if listing != [] { CountAlongSame(q, r, listing[1..]); }
  }

  /** Along a duplicate-free listing that covers `q`, multiplicities add up to its length. */
  lemma {:induction false} CountsAddUp(q: seq<FlowId>, listing: seq<FlowId>)
    requires NoDup(listing) && forall f :: f in q ==> f in listing
    ensures CountAlong(q, listing) == |q|
    decreases |listing|
  {
    hide Without;
    if listing == [] {
      assert forall i :: 0 <= i < |q| ==> q[i] in q;
    } else {
      var r := Without(q, listing[0]);
      WithoutCounts(q, listing[0]);
      assert listing == [listing[0]] + listing[1..];
      CountsAddUp(r, listing[1..]);
      CountAlongSame(q, r, listing[1..]);
    }
  }

  lemma {:induction false} DepthsAreCounts(d: Desk, listing: seq<FlowId>)
    requires WaitersConserved(d)
    ensures SumAlong(d, listing) == CountAlong(d.report, listing)
  {
    if listing != [] { DepthsAreCounts(d, listing[1..]); }
  }

  /** The sum over the depth counters is the length of the reporting queue, in whatever order the registry
      lists its flows. */
  lemma QueueDepthIsQueueLength(d: Desk, listing: seq<FlowId>)
    requires WaitersConserved(d) && NoDup(listing) && forall f :: f in d.report ==> f in listing
    ensures SumAlong(d, listing) == |d.report|
  {
    DepthsAreCounts(d, listing);
    CountsAddUp(d.report, listing);
  }

  /** `queue_depth`: with the waiter bookkeeping intact, summing the depth counters over the registry, in
      whatever order it lists its flows, gives the length of the reporting queue. */
  method QueueDepth(d: Desk, listing: seq<FlowId>) returns (total: int)
    requires WaitersConserved(d) && NoDup(listing) && forall f :: f in d.report ==> f in listing
    ensures total == |d.report|
  {
    QueueDepthIsQueueLength(d, listing);
    total := SumDepths(d, listing);
  }

  // ----- Snapshot -----

  datatype Entry = Entry(id: FlowId, position: nat)

  /** `flows` lists the waiting flows among the first `n` entries of `order`: each once, in order of
      first occurrence, at positions 1, 2, 3, ... */
  ghost predicate IsSnapshot(d: Desk, order: seq<FlowId>, n: nat, flows: seq<Entry>)
    requires n <= |order|
  {
    && (forall i :: 0 <= i < |flows| ==> flows[i].position == i + 1)
    && (forall i :: 0 <= i < |flows| ==> flows[i].id in order[..n] && DepthOf(d, flows[i].id) > 0)
    && (forall f :: f in order[..n] && DepthOf(d, f) > 0 ==> exists i :: 0 <= i < |flows| && flows[i].id == f)
    && (forall i, j :: 0 <= i < j < |flows| ==> FirstAt(order, flows[i].id) < FirstAt(order, flows[j].id))
  }

  function FirstAt(order: seq<FlowId>, f: FlowId): nat {
    if f in order then IndexOf(order, f) else |order|
  }

  method QueueSnapshot(d: Desk, order: seq<FlowId>) returns (flows: seq<Entry>)
    ensures IsSnapshot(d, order, |order|, flows)
  {
    hide IsSnapshot, Listed;
    var seen: set<FlowId> := {};
    flows := [];
    var position := 1;
    EmptySnapshot(d, order);
    for n := 0 to |order|
      invariant position == |flows| + 1
      invariant forall f :: f in seen <==> Listed(flows, f)
      invariant IsSnapshot(d, order, n, flows)
    {
      var f := order[n];
      SkipEntry(d, order, n, flows);
      if f in seen { continue; }
      if DepthOf(d, f) > 0 {
        seen := seen + {f};
        AppendEntry(d, order, n, flows);
        ListedAppend(flows, Entry(f, position));
        flows := flows + [Entry(f, position)];
        position := position + 1;
      }
    }
  }

  predicate Listed(flows: seq<Entry>, f: FlowId) {
    exists i :: 0 <= i < |flows| && flows[i].id == f
  }

  lemma ListedAppend(flows: seq<Entry>, e: Entry)
    ensures forall f :: Listed(flows + [e], f) <==> Listed(flows, f) || f == e.id
  {
    var all := flows + [e];
    assert all[|flows|] == e;
    assert forall i :: 0 <= i < |flows| ==> all[i] == flows[i];
  }

  lemma EmptySnapshot(d: Desk, order: seq<FlowId>)
    ensures IsSnapshot(d, order, 0, []) && forall f :: !Listed([], f)
  {}

  lemma SkipEntry(d: Desk, order: seq<FlowId>, n: nat, flows: seq<Entry>)
    requires n < |order| && IsSnapshot(d, order, n, flows)
    ensures DepthOf(d, order[n]) <= 0 || Listed(flows, order[n]) ==> IsSnapshot(d, order, n + 1, flows)
  {
    assert order[..n + 1] == order[..n] + [order[n]];
  }

  lemma NewcomerIsLater(order: seq<FlowId>, n: nat, g: FlowId)
    requires n < |order| && order[n] !in order[..n] && g in order[..n]
    ensures FirstAt(order, g) < FirstAt(order, order[n])
  {
    var m :| 0 <= m < n && order[..n][m] == g;
    var j, k := IndexOf(order, g), IndexOf(order, order[n]);
    assert forall i :: 0 <= i < j ==> order[..j][i] == order[i];
    assert forall i :: 0 <= i < n ==> order[..n][i] == order[i];
    assert order[m] == g && order[k] == order[n];
  }

  lemma AppendEntry(d: Desk, order: seq<FlowId>, n: nat, flows: seq<Entry>)
    requires n < |order| && IsSnapshot(d, order, n, flows) && DepthOf(d, order[n]) > 0
    requires !Listed(flows, order[n])
    ensures IsSnapshot(d, order, n + 1, flows + [Entry(order[n], |flows| + 1)])
  {
    var f, all := order[n], flows + [Entry(order[n], |flows| + 1)];
    assert order[..n + 1] == order[..n] + [f];
    assert f !in order[..n];
    forall i, j | 0 <= i < j < |all| ensures FirstAt(order, all[i].id) < FirstAt(order, all[j].id) {
      if j == |flows| { NewcomerIsLater(order, n, flows[i].id); }
    }
    forall g | g in order[..n + 1] && DepthOf(d, g) > 0 ensures exists i :: 0 <= i < |all| && all[i].id == g {
      if g == f {
        assert all[|flows|].id == g;
      } else {
        var i :| 0 <= i < |flows| && flows[i].id == g;
        assert all[i].id == g;
      }
    }
  }

  /** With the waiter bookkeeping intact, the snapshot of the reporting queue lists exactly the flows
      that have a live guard. */
  lemma SnapshotListsWaitingFlows(d: Desk, flows: seq<Entry>, f: FlowId)
    requires WaitersConserved(d) && IsSnapshot(d, d.report, |d.report|, flows)
    ensures (exists i :: 0 <= i < |flows| && flows[i].id == f) <==> GuardsOf(d, f) != {}
  {
    assert d.report[..|d.report|] == d.report;
    assert DepthOf(d, f) > 0 <==> f in d.report;
    assert GuardsOf(d, f) != {} <==> |GuardsOf(d, f)| > 0;
  }
}
