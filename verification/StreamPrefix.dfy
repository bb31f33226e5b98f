/** A client that leaves early sees exactly the beginning of what a client that stays would see. */
module StreamPrefix {
  import opened Flows
  import opened Stream
  import Sse

  /** The same configuration, but the client stays. */
  function Staying(c: Config): Config {
    c.(patience := None)
  }

  /** With patience for `n` items, against the patient client's progress `q`: everything alike, or gone after the
      first `n` items with the next one refused. */
  ghost predicate CutAt(p: Progress, q: Progress, n: nat) {
    n < |q.out| && p.out == q.out[..n] && p.refused == Some(q.out[n])
  }

  ghost predicate Cut(v: Verdict, w: Verdict, n: nat) {
    if v.Gone? then CutAt(v.p, w.p, n) else v == w && |v.p.out| <= n && v.p.refused.None?
  }

  /** Output only grows. */
  predicate Grown(p: Progress, q: Progress) {
    p.out <= q.out
  }

  lemma CutGrows(p: Progress, q: Progress, r: Progress, n: nat)
    requires CutAt(p, q, n) && Grown(q, r)
    ensures CutAt(p, r, n)
  {
    assert r.out[..n] == q.out[..n];
  }

  lemma DeliverCut(c: Config, p: Progress, item: Item)
    requires c.patience.Some? && |p.out| <= c.patience.value && p.refused.None?
    ensures var q, r := Deliver(c, p, item), Deliver(Staying(c), p, item);
      if q.refused.Some? then CutAt(q, r, c.patience.value) && q == r.(out := q.out, refused := q.refused)
      else q == r && |q.out| <= c.patience.value
  {
    assert (p.out + [item])[..|p.out|] == p.out;
  }

  lemma OnFrameCut(c: Config, p: Progress, flags: Flags, frame: seq<byte>)
    requires WithinBudgets(c, p) && c.patience.Some? && |p.out| <= c.patience.value && p.refused.None?
    ensures Cut(OnFrame(c, p, flags, frame), OnFrame(Staying(c), p, flags, frame), c.patience.value)
    ensures Grown(p, OnFrame(Staying(c), p, flags, frame).p)
  {
    hide OnError, OnPremature, CountAndForward, GoIfDelivered, Deliver, CutAt;
    ErrorCut(c, p, frame);
    PrematureCut(c, p);
    CountCut(c, p, flags, frame);
    CountCut(c, p, Seen(flags, c.classify(frame)).(accepted := true), frame);
    ForwardCut(c, p, Seen(flags, c.classify(frame)), Frame(|p.resends|, frame));
  }

  lemma ErrorCut(c: Config, p: Progress, frame: seq<byte>)
    requires c.patience.Some? && |p.out| <= c.patience.value && p.refused.None?
    ensures Cut(OnError(c, p, frame), OnError(Staying(c), p, frame), c.patience.value)
    ensures Grown(p, OnError(Staying(c), p, frame).p)
  {
    DeliverCut(c, ResendOriginal(c, p).0, ErrorFrame(|p.resends|, frame));
  }

  lemma PrematureCut(c: Config, p: Progress)
    requires c.patience.Some? && |p.out| <= c.patience.value && p.refused.None?
    ensures Cut(OnPremature(c, p), OnPremature(Staying(c), p), c.patience.value)
    ensures Grown(p, OnPremature(Staying(c), p).p)
  {
    DeliverCut(c, p.(attempt := p.attempt + 1), Notice(p.attempt + 1));
  }

  lemma CountCut(c: Config, p: Progress, flags: Flags, frame: seq<byte>)
    requires c.patience.Some? && |p.out| <= c.patience.value && p.refused.None?
    ensures Cut(CountAndForward(c, p, flags, frame), CountAndForward(Staying(c), p, flags, frame), c.patience.value)
    ensures Grown(p, CountAndForward(Staying(c), p, flags, frame).p)
  {
    hide Usage;
    UsageAlike(c, frame);
    DeliverCut(c, p.(tokens := p.tokens + Usage(c, frame)), Frame(|p.resends|, frame));
  }

  lemma UsageAlike(c: Config, frame: seq<byte>)
    ensures Usage(Staying(c), frame) == Usage(c, frame)
  {}

  lemma ForwardCut(c: Config, p: Progress, flags: Flags, item: Item)
    requires c.patience.Some? && |p.out| <= c.patience.value && p.refused.None?
    ensures Cut(GoIfDelivered(Deliver(c, p, item), flags), GoIfDelivered(Deliver(Staying(c), p, item), flags), c.patience.value)
    ensures Grown(p, GoIfDelivered(Deliver(Staying(c), p, item), flags).p)
  {
    DeliverCut(c, p, item);
  }

  lemma {:induction false} OnFramesGrows(c: Config, p: Progress, flags: Flags, frames: seq<seq<byte>>)
    requires WithinBudgets(c, p) && c.patience.None? && p.refused.None?
    ensures Grown(p, OnFrames(c, p, flags, frames).p) && OnFrames(c, p, flags, frames).p.refused.None?
    decreases |frames|
  {
    if frames != [] {
      var v := OnFrame(c, p, flags, frames[0]);
      if v.Go? { OnFramesGrows(c, v.p, v.flags, frames[1..]); }
    }
  }

  lemma {:induction false} OnFramesCut(c: Config, p: Progress, flags: Flags, frames: seq<seq<byte>>)
    requires WithinBudgets(c, p) && c.patience.Some? && |p.out| <= c.patience.value && p.refused.None?
    ensures Cut(OnFrames(c, p, flags, frames), OnFrames(Staying(c), p, flags, frames), c.patience.value)
    decreases |frames|
  {
    hide OnFrame, CutAt;
    if frames != [] {
      OnFrameCut(c, p, flags, frames[0]);
      var v, w := OnFrame(c, p, flags, frames[0]), OnFrame(Staying(c), p, flags, frames[0]);
      if v.Go? {
        OnFramesCut(c, v.p, v.flags, frames[1..]);
      } else if v.Gone? && w.Go? {
        StillConnected(c, p, flags, frames[0]);
        OnFramesGrows(Staying(c), w.p, w.flags, frames[1..]);
        CutGrows(v.p, w.p, OnFrames(Staying(c), w.p, w.flags, frames[1..]).p, c.patience.value);
      }
    }
  }

  lemma StillConnected(c: Config, p: Progress, flags: Flags, frame: seq<byte>)
    requires WithinBudgets(c, p) && p.refused.None?
    ensures OnFrame(Staying(c), p, flags, frame).p.refused.None?
  {}

  lemma OnEndCut(c: Config, p: Progress, flags: Flags, rest: seq<byte>, ending: Ending)
    requires WithinBudgets(c, p) && c.patience.Some? && |p.out| <= c.patience.value && p.refused.None?
    ensures Cut(OnEnd(c, p, flags, rest, ending), OnEnd(Staying(c), p, flags, rest, ending), c.patience.value)
  {
    DeliverCut(c, p, Raw(|p.resends|, rest));
  }

  lemma OnEndGrows(c: Config, p: Progress, flags: Flags, rest: seq<byte>, ending: Ending)
    requires WithinBudgets(c, p) && c.patience.None? && p.refused.None?
    ensures Grown(p, OnEnd(c, p, flags, rest, ending).p) && OnEnd(c, p, flags, rest, ending).p.refused.None?
  {}

  lemma OnAttemptCut(c: Config, p: Progress, a: Attempt)
    requires WithinBudgets(c, p) && c.patience.Some? && |p.out| <= c.patience.value && p.refused.None?
    ensures Cut(OnAttempt(c, p, a), OnAttempt(Staying(c), p, a), c.patience.value)
    ensures OnAttempt(Staying(c), p, a).p.refused.None?
  {
    hide OnFrames, OnEnd, CutAt;
    var f := Sse.Split(Sse.Join(a.chunks));
    OnFramesCut(c, p, FRESH, f.events);
    OnFramesGrows(Staying(c), p, FRESH, f.events);
    var v, w := OnFrames(c, p, FRESH, f.events), OnFrames(Staying(c), p, FRESH, f.events);
    if v.Go? {
      OnEndCut(c, v.p, v.flags, f.rest, a.ending);
    }
    if w.Go? {
      OnEndGrows(Staying(c), w.p, w.flags, f.rest, a.ending);
      if v.Gone? { CutGrows(v.p, w.p, OnEnd(Staying(c), w.p, w.flags, f.rest, a.ending).p, c.patience.value); }
    }
  }

  lemma {:induction false} ServeGrows(c: Config, p: Progress, a: Attempt)
    requires WithinBudgets(c, p) && c.patience.None? && p.refused.None?
    ensures Grown(p, Serve(c, p, a).p)
    decreases Left(c, p)
  {
    hide OnFrames, OnEnd;
    var f := Sse.Split(Sse.Join(a.chunks));
    OnFramesGrows(c, p, FRESH, f.events);
    var v := OnFrames(c, p, FRESH, f.events);
    if v.Go? { OnEndGrows(c, v.p, v.flags, f.rest, a.ending); }
    var w := OnAttempt(c, p, a);
    if w.Restart? { ServeGrows(c, w.p, w.next); }
  }

  /** What the impatient client gets. */
  ghost predicate Truncated(o: Outcome, whole: Outcome, n: nat) {
    if |whole.p.out| <= n then o == whole else CutAt(o.p, whole.p, n) && !o.completed
  }

  /** A client with patience for n items gets the whole response if it has at most n items. Otherwise it gets exactly
      the first n, the next one is refused, and the request is not marked completed. */
  lemma {:induction false} ImpatientClientSeesPrefix(c: Config, p: Progress, a: Attempt)
    requires WithinBudgets(c, p) && c.patience.Some? && |p.out| <= c.patience.value && p.refused.None?
    ensures Truncated(Serve(c, p, a), Serve(Staying(c), p, a), c.patience.value)
    decreases Left(c, p)
  {
    hide OnAttempt;
    OnAttemptCut(c, p, a);
    var v, w, n := OnAttempt(c, p, a), OnAttempt(Staying(c), p, a), c.patience.value;
    if v.Gone? {
      if w.Restart? {
        ServeGrows(Staying(c), w.p, w.next);
        CutGrows(v.p, w.p, Serve(Staying(c), w.p, w.next).p, n);
      } else if w.Broken? {
        CutGrows(v.p, w.p, Deliver(Staying(c), w.p, Abort), n);
      }
    } else if v.Restart? {
      ImpatientClientSeesPrefix(c, v.p, v.next);
    } else if v.Broken? {
      DeliverCut(c, v.p, Abort);
    }
  }
}
