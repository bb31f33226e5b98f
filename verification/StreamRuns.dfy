/** Chunk independence, bounded re-sending and verbatim forwarding of the streaming retry machine. */
module StreamRuns {
  import opened Flows
  import opened Stream
  import Sse

  // ----- Chunk independence -----

  /** The same bytes and ending, cut into chunks in any two ways. */
  predicate SameBytes(a: Attempt, b: Attempt) {
    Sse.Join(a.chunks) == Sse.Join(b.chunks) && a.ending == b.ending
  }

  predicate SameReply(a: Option<Attempt>, b: Option<Attempt>) {
    (a.None? <==> b.None?) && (a.Some? && b.Some? ==> SameBytes(a.value, b.value))
  }

  predicate Alike(v: Verdict, w: Verdict) {
    match v
    case Restart(p, next) => w.Restart? && w.p == p && SameBytes(next, w.next)
    case _ => v == w
  }

  ghost predicate SameReplies(c: Config, d: Config) {
    d == c.(replies := d.replies) && forall k: nat :: SameReply(c.replies(k), d.replies(k))
  }

  lemma DeliverAlike(c: Config, d: Config)
    requires SameReplies(c, d)
    ensures forall q, item :: Deliver(c, q, item) == Deliver(d, q, item)
    ensures forall q :: WithinBudgets(c, q) <==> WithinBudgets(d, q)
  {}

  lemma OnErrorAlike(c: Config, d: Config, p: Progress, frame: seq<byte>)
    requires SameReplies(c, d)
    ensures Alike(OnError(c, p, frame), OnError(d, p, frame))
  {
    hide SameBytes;
    assert SameReply(c.replies(|p.resends|), d.replies(|p.resends|));
  }

  lemma OnPrematureAlike(c: Config, d: Config, p: Progress)
    requires SameReplies(c, d)
    ensures Alike(OnPremature(c, p), OnPremature(d, p))
  {
    hide SameBytes;
    var n := p.attempt + 1;
    var q := Deliver(c, p.(attempt := n), Notice(n));
    assert SameReply(c.replies(|q.resends|), d.replies(|q.resends|));
  }

  lemma OnFrameAlike(c: Config, d: Config, p: Progress, flags: Flags, frame: seq<byte>)
    requires SameReplies(c, d) && WithinBudgets(c, p)
    ensures Alike(OnFrame(c, p, flags, frame), OnFrame(d, p, flags, frame))
  {
    hide SameBytes, OnError, OnPremature, Deliver;
    DeliverAlike(c, d);
    OnErrorAlike(c, d, p, frame);
    OnPrematureAlike(c, d, p);
  }

  lemma {:induction false} OnFramesAlike(c: Config, d: Config, p: Progress, flags: Flags, frames: seq<seq<byte>>)
    requires SameReplies(c, d) && WithinBudgets(c, p)
    ensures Alike(OnFrames(c, p, flags, frames), OnFrames(d, p, flags, frames))
    decreases |frames|
  {
    hide OnFrame, SameBytes, SameReplies;
    if frames != [] {
      OnFrameAlike(c, d, p, flags, frames[0]);
      var v := OnFrame(c, p, flags, frames[0]);
      if v.Go? { OnFramesAlike(c, d, v.p, v.flags, frames[1..]); }
    }
  }

  lemma OnEndAlike(c: Config, d: Config, p: Progress, flags: Flags, rest: seq<byte>, ending: Ending)
    requires SameReplies(c, d) && WithinBudgets(c, p)
    ensures Alike(OnEnd(c, p, flags, rest, ending), OnEnd(d, p, flags, rest, ending))
  {
    hide SameBytes;
    assert SameReply(c.replies(|p.resends|), d.replies(|p.resends|));
  }

  lemma OnAttemptAlike(c: Config, d: Config, p: Progress, a: Attempt, b: Attempt)
    requires SameReplies(c, d) && WithinBudgets(c, p) && SameBytes(a, b)
    ensures Alike(OnAttempt(c, p, a), OnAttempt(d, p, b))
  {
    hide OnFrames, OnEnd, SameReplies;
    var framing := Sse.Split(Sse.Join(a.chunks));
    OnFramesAlike(c, d, p, FRESH, framing.events);
    var v := OnFrames(c, p, FRESH, framing.events);
    if v.Go? { OnEndAlike(c, d, v.p, v.flags, framing.rest, a.ending); }
  }

  /** What the client gets, the re-sends and the token count depend on each attempt's bytes and ending
      alone, never on how the network cut those bytes into chunks. */
  lemma {:induction false} ChunksDoNotMatter(c: Config, d: Config, p: Progress, a: Attempt, b: Attempt)
    requires SameReplies(c, d) && WithinBudgets(c, p) && SameBytes(a, b)
    ensures Serve(c, p, a) == Serve(d, p, b)
    decreases Left(c, p)
  {
    hide OnAttempt, SameBytes, SameReplies;
    OnAttemptAlike(c, d, p, a, b);
    DeliverAlike(c, d);
    var v, w := OnAttempt(c, p, a), OnAttempt(d, p, b);
    if v.Restart? { ChunksDoNotMatter(c, d, v.p, v.next, w.next); }
  }

  // ----- Bounded re-sending -----

  function Originals(resends: seq<Resend>): nat {
    if resends == [] then 0
    else Originals(resends[..|resends| - 1]) + if resends[|resends| - 1] == Original then 1 else 0
  }

  /** Each budget pays for its own kind of re-send; bumping needs a parsed body and an enabled policy. */
  ghost predicate Tallied(c: Config, p: Progress) {
    && WithinBudgets(c, p)
    && Originals(p.resends) == p.transient
    && |p.resends| - p.transient <= p.attempt
    && (p.attempt > 0 ==> CanRetry(c))
  }

  lemma OriginalsAppend(resends: seq<Resend>, r: Resend)
    ensures Originals(resends + [r]) == Originals(resends) + if r == Original then 1 else 0
  {
    assert (resends + [r])[..|resends|] == resends;
  }

  lemma OnFrameTallied(c: Config, p: Progress, flags: Flags, frame: seq<byte>)
    requires Tallied(c, p)
    ensures Tallied(c, OnFrame(c, p, flags, frame).p)
  {
    hide Originals;
    OriginalsAppend(p.resends, Original);
    OriginalsAppend(p.resends, Bumped(p.attempt + 1));
  }

  lemma {:induction false} OnFramesTallied(c: Config, p: Progress, flags: Flags, frames: seq<seq<byte>>)
    requires Tallied(c, p)
    ensures Tallied(c, OnFrames(c, p, flags, frames).p)
    decreases |frames|
  {
    hide OnFrame, Originals;
    if frames != [] {
      OnFrameTallied(c, p, flags, frames[0]);
      var v := OnFrame(c, p, flags, frames[0]);
      if v.Go? { OnFramesTallied(c, v.p, v.flags, frames[1..]); }
    }
  }

  lemma OnAttemptTallied(c: Config, p: Progress, a: Attempt)
    requires Tallied(c, p)
    ensures Tallied(c, OnAttempt(c, p, a).p)
  {
    hide OnFrames, Originals;
    var framing := Sse.Split(Sse.Join(a.chunks));
    OnFramesTallied(c, p, FRESH, framing.events);
    OriginalsAppend(OnFrames(c, p, FRESH, framing.events).p.resends, Original);
  }

  /** However the backend behaves, original re-sends stay within the transient budget and temperature bumps
      within the retry budget; with retrying off there are no bumps at all. */
  lemma {:induction false} ResendsAreBounded(c: Config, p: Progress, a: Attempt)
    requires Tallied(c, p)
    ensures var r := Serve(c, p, a).p.resends;
      && Originals(r) <= c.transientMax
      && |r| - Originals(r) <= (if c.parsed && c.enabled then c.maxRetries else 0)
    decreases Left(c, p)
  {
    hide OnAttempt, Originals;
    OnAttemptTallied(c, p, a);
    var v := OnAttempt(c, p, a);
    if v.Restart? { ResendsAreBounded(c, v.p, v.next); }
  }

  // ----- What an accepted attempt forwards -----

  function Whole(n: nat, frames: seq<seq<byte>>): seq<Item> {
    seq(|frames|, i requires 0 <= i < |frames| => Frame(n, frames[i]))
  }

  /** A frame that is held back before acceptance: a `[DONE]` marker or an early usage report. */
  predicate HeldBack(c: Config, frame: seq<byte>) {
    c.classify(frame).done || c.classify(frame).usage
  }

  function Passed(c: Config, frames: seq<seq<byte>>): seq<seq<byte>> {
    if frames == [] then []
    else
      var last := frames[|frames| - 1];
      Passed(c, frames[..|frames| - 1]) + if HeldBack(c, last) then [] else [last]
  }

  /** `frames[t]` is the first frame with a finish reason. */
  ghost predicate FirstTerminal(c: Config, frames: seq<seq<byte>>, t: nat) {
    && t < |frames| && c.classify(frames[t]).finish != NoFinish
    && forall i :: 0 <= i < t ==> c.classify(frames[i]).finish == NoFinish
  }

  lemma {:induction false} AfterAcceptance(c: Config, p: Progress, flags: Flags, frames: seq<seq<byte>>)
    requires WithinBudgets(c, p) && c.patience.None? && p.refused.None? && flags.accepted
    ensures var v := OnFrames(c, p, flags, frames);
      v.Go? && v.flags.accepted && v.p.out == p.out + Whole(|p.resends|, frames) && v.p.resends == p.resends && v.p.refused.None?
    decreases |frames|
  {
    if frames == [] {
      assert p.out + Whole(|p.resends|, frames) == p.out;
    } else {
      var v := OnFrame(c, p, flags, frames[0]);
      AfterAcceptance(c, v.p, v.flags, frames[1..]);
      assert Whole(|p.resends|, frames) == [Frame(|p.resends|, frames[0])] + Whole(|p.resends|, frames[1..]);
    }
  }

  lemma OnOneFrame(c: Config, p: Progress, flags: Flags, frame: seq<byte>)
    requires WithinBudgets(c, p)
    ensures OnFrames(c, p, flags, [frame]) == OnFrame(c, p, flags, frame)
  {
    assert [frame][1..] == [];
  }

  lemma PlainFrameIsPassed(c: Config, p: Progress, flags: Flags, frame: seq<byte>)
    requires WithinBudgets(c, p) && c.patience.None? && p.refused.None? && !flags.accepted
    requires c.classify(frame).finish == NoFinish && OnFrame(c, p, flags, frame).Go?
    ensures var v := OnFrame(c, p, flags, frame);
      && !v.flags.accepted && v.p.resends == p.resends && v.p.refused.None?
      && v.p.out == p.out + (if HeldBack(c, frame) then [] else [Frame(|p.resends|, frame)])
  {
    assert p.out + [] == p.out;
  }

  lemma {:induction false} BeforeAcceptance(c: Config, p: Progress, flags: Flags, frames: seq<seq<byte>>)
    requires WithinBudgets(c, p) && c.patience.None? && p.refused.None? && !flags.accepted
    requires forall i :: 0 <= i < |frames| ==> c.classify(frames[i]).finish == NoFinish
    requires OnFrames(c, p, flags, frames).Go?
    ensures var v := OnFrames(c, p, flags, frames);
      !v.flags.accepted && v.p.out == p.out + Whole(|p.resends|, Passed(c, frames)) && v.p.resends == p.resends && v.p.refused.None?
    decreases |frames|
  {
    hide OnFrame;
    var n := |p.resends|;
    if frames == [] {
      assert p.out + Whole(n, []) == p.out;
    } else {
      var init, last := frames[..|frames| - 1], frames[|frames| - 1];
      assert init + [last] == frames;
      OnFramesAppend(c, p, flags, init, [last]);
      BeforeAcceptance(c, p, flags, init);
      var v := OnFrames(c, p, flags, init);
      OnOneFrame(c, v.p, v.flags, last);
      PlainFrameIsPassed(c, v.p, v.flags, last);
      assert Whole(n, Passed(c, init) + [last]) == Whole(n, Passed(c, init)) + [Frame(n, last)];
    }
  }

  lemma {:induction false} OnFramesNeverDone(c: Config, p: Progress, flags: Flags, frames: seq<seq<byte>>)
    requires WithinBudgets(c, p)
    ensures !OnFrames(c, p, flags, frames).Done?
    decreases |frames|
  {
    if frames != [] {
      var v := OnFrame(c, p, flags, frames[0]);
      if v.Go? { OnFramesNeverDone(c, v.p, v.flags, frames[1..]); }
    }
  }

  lemma {:induction false} FindTerminal(c: Config, frames: seq<seq<byte>>) returns (t: nat)
    requires exists i :: 0 <= i < |frames| && c.classify(frames[i]).finish != NoFinish
    ensures FirstTerminal(c, frames, t)
  {
    if c.classify(frames[0]).finish != NoFinish {
      t := 0;
    } else {
      var i :| 0 <= i < |frames| && c.classify(frames[i]).finish != NoFinish;
      assert frames[1..][i - 1] == frames[i];
      t := FindTerminal(c, frames[1..]);
      assert forall j :: 1 <= j < |frames| ==> frames[j] == frames[1..][j - 1];
      t := t + 1;
    }
  }

  lemma AcceptedAt(c: Config, p: Progress, flags: Flags, frames: seq<seq<byte>>, t: nat)
    requires WithinBudgets(c, p) && c.patience.None? && p.refused.None? && !flags.accepted
    requires OnFrames(c, p, flags, frames).Go? && FirstTerminal(c, frames, t)
    ensures var v, n := OnFrames(c, p, flags, frames), |p.resends|;
      v.p.out == p.out + Whole(n, Passed(c, frames[..t])) + Whole(n, frames[t..]) && v.p.resends == p.resends && v.p.refused.None?
  {
    hide Passed, OnFrames, OnFrame;
    var n, before, after := |p.resends|, frames[..t], frames[t + 1..];
    assert frames == before + ([frames[t]] + after);
    OnFramesAppend(c, p, flags, before, [frames[t]] + after);
    BeforeAcceptance(c, p, flags, before);
    var v := OnFrames(c, p, flags, before);
    OnFramesAppend(c, v.p, v.flags, [frames[t]], after);
    OnOneFrame(c, v.p, v.flags, frames[t]);
    TerminalAccepts(c, v.p, v.flags, frames[t]);
    var w := OnFrame(c, v.p, v.flags, frames[t]);
    AfterAcceptance(c, w.p, w.flags, after);
    assert Whole(n, frames[t..]) == [Frame(n, frames[t])] + Whole(n, after);
  }

  lemma TerminalAccepts(c: Config, p: Progress, flags: Flags, frame: seq<byte>)
    requires WithinBudgets(c, p) && c.patience.None? && p.refused.None? && c.classify(frame).finish != NoFinish
    requires !flags.accepted && OnFrame(c, p, flags, frame).Go?
    ensures var v := OnFrame(c, p, flags, frame);
      v.flags.accepted && v.p.out == p.out + [Frame(|p.resends|, frame)] && v.p.resends == p.resends && v.p.refused.None?
  {}

  /** An attempt that completes is forwarded frame for frame: up to its first terminal frame only `[DONE]`
      markers and early usage reports are held back, and from there on everything is passed on verbatim,
      including the incomplete last frame. */
  lemma CompletedAttemptIsForwarded(c: Config, p: Progress, a: Attempt) returns (t: nat)
    requires WithinBudgets(c, p) && c.patience.None? && p.refused.None?
    requires OnAttempt(c, p, a).Done?
    ensures var f, n := Sse.Split(Sse.Join(a.chunks)), |p.resends|;
      && FirstTerminal(c, f.events, t)
      && OnAttempt(c, p, a).p.out ==
           p.out + Whole(n, Passed(c, f.events[..t])) + Whole(n, f.events[t..]) + (if f.rest == [] then [] else [Raw(n, f.rest)])
  {
    hide OnFrames, Passed, Whole;
    var f := Sse.Split(Sse.Join(a.chunks));
    OnFramesNeverDone(c, p, FRESH, f.events);
    if forall i :: 0 <= i < |f.events| ==> c.classify(f.events[i]).finish == NoFinish {
      BeforeAcceptance(c, p, FRESH, f.events);
    }
    t := FindTerminal(c, f.events);
    AcceptedAt(c, p, FRESH, f.events, t);
  }

  // ----- When an attempt is retried -----

  /** None of the frames carries content or tool calls. */
  predicate BareFrames(c: Config, frames: seq<seq<byte>>) {
    forall i :: 0 <= i < |frames| ==> !c.classify(frames[i]).content && !c.classify(frames[i]).tools
  }

  predicate Degenerate(finish: Finish) {
    finish == Stop || finish == Length
  }

  lemma FrameReadOn(c: Config, p: Progress, flags: Flags, frame: seq<byte>)
    requires WithinBudgets(c, p) && OnFrame(c, p, flags, frame).Go?
    ensures var v, cls := OnFrame(c, p, flags, frame), c.classify(frame);
      && v.p.attempt == p.attempt && v.p.transient == p.transient
      && (!v.flags.accepted ==> (Bare(v.flags) <==> Bare(flags) && !cls.content && !cls.tools))
      && (flags.accepted ==> v.flags.accepted)
  {}

  /** While an attempt is read on, its budgets are untouched, and its flags tell whether it showed
      anything. */
  lemma {:induction false} ReadingOn(c: Config, p: Progress, flags: Flags, frames: seq<seq<byte>>)
    requires WithinBudgets(c, p) && OnFrames(c, p, flags, frames).Go?
    ensures var v := OnFrames(c, p, flags, frames);
      && v.p.attempt == p.attempt && v.p.transient == p.transient
      && (!v.flags.accepted ==> (Bare(v.flags) <==> Bare(flags) && BareFrames(c, frames)))
      && (flags.accepted ==> v.flags.accepted)
    decreases |frames|
  {
    hide OnFrame;
    if frames != [] {
      FrameReadOn(c, p, flags, frames[0]);
      var v := OnFrame(c, p, flags, frames[0]);
      ReadingOn(c, v.p, v.flags, frames[1..]);
      assert forall i :: 1 <= i < |frames| ==> frames[i] == frames[1..][i - 1];
      assert BareFrames(c, frames) <==> !c.classify(frames[0]).content && !c.classify(frames[0]).tools && BareFrames(c, frames[1..]);
    }
  }

  /** Only an attempt that has shown nothing is replaced in mid-stream: every frame up to the one that
      caused it is bare, and that one is an error frame or a degenerate stop. */
  lemma {:induction false} OnlyBareAttemptsAreReplaced(c: Config, p: Progress, flags: Flags, frames: seq<seq<byte>>) returns (k: nat)
    requires WithinBudgets(c, p) && OnFrames(c, p, flags, frames).Restart?
    ensures k < |frames| && BareFrames(c, frames[..k + 1]) && Bare(flags) && !flags.accepted
    ensures c.classify(frames[k]).error || Degenerate(c.classify(frames[k]).finish)
    decreases |frames|
  {
    var v := OnFrame(c, p, flags, frames[0]);
    if v.Go? {
      k := OnlyBareAttemptsAreReplaced(c, v.p, v.flags, frames[1..]);
      assert frames[..k + 2] == [frames[0]] + frames[1..][..k + 1];
      k := k + 1;
    } else {
      k := 0;
    }
  }

  /** A bare attempt that ends in a degenerate stop is accepted only when no retry was left, and one that
      shows an error frame is read on only when no transient attempt was left. */
  lemma BareAttemptIsAcceptedOnlyWhenSpent(c: Config, p: Progress, frames: seq<seq<byte>>, k: nat)
    requires WithinBudgets(c, p) && OnFrames(c, p, FRESH, frames).Go?
    requires k < |frames| && BareFrames(c, frames[..k + 1])
    requires forall i :: 0 <= i < k ==> c.classify(frames[i]).finish == NoFinish
    ensures Degenerate(c.classify(frames[k]).finish) ==> p.attempt == c.maxRetries || !c.parsed || !c.enabled
    ensures c.classify(frames[k]).error ==> p.transient == c.transientMax
  {
    var before := frames[..k];
    assert frames == before + frames[k..];
    OnFramesAppend(c, p, FRESH, before, frames[k..]);
    ReadingOn(c, p, FRESH, before);
    assert forall i :: 0 <= i < k ==> before[i] == frames[..k + 1][i];
    NotAcceptedYet(c, p, FRESH, before);
    assert frames[..k + 1][k] == frames[k];
  }

  lemma {:induction false} NotAcceptedYet(c: Config, p: Progress, flags: Flags, frames: seq<seq<byte>>)
    requires WithinBudgets(c, p) && OnFrames(c, p, flags, frames).Go? && !flags.accepted
    requires forall i :: 0 <= i < |frames| ==> c.classify(frames[i]).finish == NoFinish
    ensures !OnFrames(c, p, flags, frames).flags.accepted
    decreases |frames|
  {
    if frames != [] {
      var v := OnFrame(c, p, flags, frames[0]);
      NotAcceptedYet(c, v.p, v.flags, frames[1..]);
    }
  }

  /** What a replaced attempt leaves in front of the next one, beyond the frames already forwarded: the
      incomplete last frame if and only if the attempt was read to its end and there is one. An attempt
      replaced in mid-stream, by an error frame or a degenerate stop, flushes nothing. */
  lemma ReplacedAttemptFlushesIff(c: Config, p: Progress, a: Attempt)
    requires WithinBudgets(c, p) && c.patience.None? && p.refused.None?
    requires OnAttempt(c, p, a).Restart?
    ensures var f := Sse.Split(Sse.Join(a.chunks));
      var v := OnFrames(c, p, FRESH, f.events);
      && (OnAttempt(c, p, a).p.out != v.p.out <==> v.Go? && f.rest != [])
      && (v.Go? && f.rest != [] ==> OnAttempt(c, p, a).p.out == v.p.out + [Raw(|v.p.resends|, f.rest)])
  {
    hide OnFrames;
    var f := Sse.Split(Sse.Join(a.chunks));
    var v := OnFrames(c, p, FRESH, f.events);
    assert |v.p.out + [Raw(|v.p.resends|, f.rest)]| > |v.p.out|;
  }

  /** Such a flush does happen: any attempt of incomplete bytes alone, cut short while a transient attempt
      is left and the re-send succeeds, stands whole in front of the next attempt. */
  lemma LeftoverPrecedesTheNextAttempt(c: Config, p: Progress, a: Attempt)
    requires WithinBudgets(c, p) && c.patience.None? && p.refused.None?
    requires Sse.Split(Sse.Join(a.chunks)).events == [] && Sse.Join(a.chunks) != [] && a.ending == Eof
    requires p.transient < c.transientMax && c.replies(|p.resends|).Some?
    ensures var v := OnAttempt(c, p, a);
      && v.Restart? && v.next == c.replies(|p.resends|).value
      && v.p.out == p.out + [Raw(|p.resends|, Sse.Join(a.chunks))]
  {
    hide Sse.Split, Sse.Join;
    NoEventsLeaveAll(Sse.Join(a.chunks));
  }

  lemma NoEventsLeaveAll(s: seq<byte>)
    requires Sse.Split(s).events == []
    ensures Sse.Split(s).rest == s
  {
    hide Sse.Split;
    Sse.SplitRoundTrip(s);
    assert [] + Sse.Split(s).rest == Sse.Split(s).rest;
  }
}
