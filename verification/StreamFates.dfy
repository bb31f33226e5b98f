/** The fate of one attempt, read off its frames' classes and its ending: at most one frame decides it, and if
    none does, its end. Stated for a client that stays connected; what an impatient client gets is a prefix. */
module StreamFates {
  import opened Flows
  import opened Stream
  import opened StreamRuns
  import Sse

  predicate Connected(c: Config, p: Progress) {
    WithinBudgets(c, p) && c.patience.None? && p.refused.None?
  }

  // ----- The frame that decides -----

  /** Frame `k` is an error frame, nothing substantial came before or with it, and a transient attempt is left. */
  predicate FailsAt(c: Config, p: Progress, frames: seq<seq<byte>>, k: nat)
    requires k < |frames|
  {
    c.classify(frames[k]).error && BareFrames(c, frames[..k + 1]) && p.transient < c.transientMax
  }

  predicate EndsAt(c: Config, frames: seq<seq<byte>>, k: nat)
    requires k < |frames|
  {
    c.classify(frames[k]).finish != NoFinish
  }

  /** Frame `k` ends in a degenerate stop that may still be retried. */
  predicate DegeneratesAt(c: Config, p: Progress, frames: seq<seq<byte>>, k: nat)
    requires k < |frames|
  {
    && Degenerate(c.classify(frames[k]).finish) && BareFrames(c, frames[..k + 1])
    && p.attempt < c.maxRetries && c.parsed && c.enabled
  }

  /** No frame before `k` decides. */
  ghost predicate UndecidedBefore(c: Config, p: Progress, frames: seq<seq<byte>>, k: nat)
    requires k <= |frames|
  {
    forall i :: 0 <= i < k ==> !FailsAt(c, p, frames, i) && !EndsAt(c, frames, i)
  }

  lemma {:induction false} FirstDecision(c: Config, p: Progress, frames: seq<seq<byte>>, n: nat) returns (k: nat)
    requires n <= |frames|
    ensures k <= n && UndecidedBefore(c, p, frames, k)
    ensures k < n ==> FailsAt(c, p, frames, k) || EndsAt(c, frames, k)
  {
    if n == 0 {
      k := 0;
    } else {
      k := FirstDecision(c, p, frames, n - 1);
      if k == n - 1 && !FailsAt(c, p, frames, k) && !EndsAt(c, frames, k) { k := n; }
    }
  }

  // ----- Up to the decision -----

  /** `p` after the frames were passed on, held-back ones left out. */
  function Forwarded(c: Config, p: Progress, frames: seq<seq<byte>>): Progress {
    p.(out := p.out + Whole(|p.resends|, Passed(c, frames)))
  }

  lemma OneUndecidedFrame(c: Config, p: Progress, flags: Flags, frame: seq<byte>)
    requires Connected(c, p) && !flags.accepted && c.classify(frame).finish == NoFinish
    requires !(c.classify(frame).error && Bare(Seen(flags, c.classify(frame))) && p.transient < c.transientMax)
    ensures OnFrame(c, p, flags, frame)
         == Go(p.(out := p.out + if HeldBack(c, frame) then [] else [Frame(|p.resends|, frame)]), Seen(flags, c.classify(frame)))
  {
    hide OnError, OnPremature, CountAndForward;
    assert p.out + [] == p.out;
  }

  lemma {:induction false} UndecidedFrames(c: Config, p: Progress, frames: seq<seq<byte>>)
    requires Connected(c, p) && UndecidedBefore(c, p, frames, |frames|)
    ensures var v := OnFrames(c, p, FRESH, frames);
      && v.Go? && v.p == Forwarded(c, p, frames)
      && !v.flags.accepted && (Bare(v.flags) <==> BareFrames(c, frames))
    decreases |frames|
  {
    hide OnFrame, Passed;
    if frames == [] {
      PassedNothing(c, p);
    } else {
      var init, last := frames[..|frames| - 1], frames[|frames| - 1];
      assert init + [last] == frames;
      PrefixUndecided(c, p, init, last);
      UndecidedFrames(c, p, init);
      OnFramesAppend(c, p, FRESH, init, [last]);
      var v := OnFrames(c, p, FRESH, init);
      OnOneFrame(c, v.p, v.flags, last);
      BareAppend(c, init, last);
      assert frames[..|frames|] == frames;
      assert !FailsAt(c, p, frames, |frames| - 1) && !EndsAt(c, frames, |frames| - 1);
      OneUndecidedFrame(c, v.p, v.flags, last);
      ForwardedAppend(c, p, init, last);
    }
  }

  lemma PassedNothing(c: Config, p: Progress)
    ensures Forwarded(c, p, []) == p
  {
    assert p.out + Whole(|p.resends|, []) == p.out;
  }

  lemma ForwardedAppend(c: Config, p: Progress, init: seq<seq<byte>>, last: seq<byte>)
    ensures Forwarded(c, p, init + [last]).out
         == Forwarded(c, p, init).out + if HeldBack(c, last) then [] else [Frame(|p.resends|, last)]
  {
    var frames := init + [last];
    assert frames[..|frames| - 1] == init;
    assert Passed(c, init) + [] == Passed(c, init);
    var n := |p.resends|;
    assert Whole(n, Passed(c, init) + [last]) == Whole(n, Passed(c, init)) + [Frame(n, last)];
    assert p.out + (Whole(n, Passed(c, init)) + [Frame(n, last)]) == p.out + Whole(n, Passed(c, init)) + [Frame(n, last)];
    assert Forwarded(c, p, init).out + [] == Forwarded(c, p, init).out;
  }

  lemma PrefixUndecided(c: Config, p: Progress, init: seq<seq<byte>>, last: seq<byte>)
    requires UndecidedBefore(c, p, init + [last], |init|)
    ensures UndecidedBefore(c, p, init, |init|)
  {
    var frames := init + [last];
    forall i | 0 <= i < |init| ensures !FailsAt(c, p, init, i) && !EndsAt(c, init, i) {
      assert frames[..i + 1] == init[..i + 1] && frames[i] == init[i];
      assert !FailsAt(c, p, frames, i) && !EndsAt(c, frames, i);
    }
  }

  lemma BareAppend(c: Config, init: seq<seq<byte>>, last: seq<byte>)
    ensures BareFrames(c, init + [last]) <==> BareFrames(c, init) && !c.classify(last).content && !c.classify(last).tools
  {
    var frames := init + [last];
    assert frames[|init|] == last;
    assert forall i :: 0 <= i < |init| ==> frames[i] == init[i];
  }

  /** Everything up to frame `k` is passed on; what follows is up to frame `k`. */
  lemma DecidedAt(c: Config, p: Progress, frames: seq<seq<byte>>, k: nat) returns (flags: Flags)
    requires Connected(c, p) && k < |frames| && UndecidedBefore(c, p, frames, k)
    ensures !flags.accepted && (Bare(Seen(flags, c.classify(frames[k]))) <==> BareFrames(c, frames[..k + 1]))
    ensures OnFrames(c, p, FRESH, frames) == OnFrames(c, Forwarded(c, p, frames[..k]), flags, frames[k..])
  {
    hide OnFrame;
    var before := frames[..k];
    assert before + frames[k..] == frames;
    assert UndecidedBefore(c, p, before, |before|) by {
      forall i | 0 <= i < k ensures !FailsAt(c, p, before, i) && !EndsAt(c, before, i) {
        assert before[..i + 1] == frames[..i + 1] && before[i] == frames[i];
        assert !FailsAt(c, p, frames, i) && !EndsAt(c, frames, i);
      }
    }
    UndecidedFrames(c, p, before);
    OnFramesAppend(c, p, FRESH, before, frames[k..]);
    flags := OnFrames(c, p, FRESH, before).flags;
    assert frames[..k + 1] == before + [frames[k]];
    BareAppend(c, before, frames[k]);
  }

  lemma FirstFrameStops(c: Config, p: Progress, flags: Flags, frames: seq<seq<byte>>)
    requires WithinBudgets(c, p) && frames != [] && !OnFrame(c, p, flags, frames[0]).Go?
    ensures OnFrames(c, p, flags, frames) == OnFrame(c, p, flags, frames[0])
  {}

  // ----- The four fates -----

  function Resent(p: Progress, body: Resend): Progress {
    p.(resends := p.resends + [body])
  }

  function Flushed(p: Progress, rest: seq<byte>): Progress {
    if rest == [] then p else p.(out := p.out + [Raw(|p.resends|, rest)])
  }

  /** No frame decides: the attempt is read to its end and its incomplete frame flushed. The original is re-sent if
      and only if the stream just ended, showed nothing substantial and a transient attempt is left; after a stall or
      the deadline nothing is sent. */
  lemma UndecidedAttempt(c: Config, p: Progress, a: Attempt)
    requires Connected(c, p)
    requires var events := Sse.Split(Sse.Join(a.chunks)).events; UndecidedBefore(c, p, events, |events|)
    ensures var f := Sse.Split(Sse.Join(a.chunks));
      var q, reply := Flushed(Forwarded(c, p, f.events), f.rest), c.replies(|p.resends|);
      OnAttempt(c, p, a) ==
        if a.ending == Eof && BareFrames(c, f.events) && p.transient < c.transientMax then
          var sent := Resent(q, Original).(transient := p.transient + 1);
          if reply.Some? then Restart(sent, reply.value) else Broken(sent)
        else Broken(q)
  {
    hide OnFrames, BareFrames, Forwarded;
    UndecidedFrames(c, p, Sse.Split(Sse.Join(a.chunks)).events);
    ForwardedKeeps(c, p, Sse.Split(Sse.Join(a.chunks)).events);
  }

  lemma ForwardedKeeps(c: Config, p: Progress, frames: seq<seq<byte>>)
    ensures Forwarded(c, p, frames) == p.(out := Forwarded(c, p, frames).out)
  {}

  /** An error frame decides: the original is re-sent at once. If that fails the error frame itself is forwarded and
      the body aborted. */
  lemma FailedAttempt(c: Config, p: Progress, a: Attempt, k: nat)
    requires Connected(c, p)
    requires var events := Sse.Split(Sse.Join(a.chunks)).events;
      k < |events| && UndecidedBefore(c, p, events, k) && FailsAt(c, p, events, k)
    ensures var events := Sse.Split(Sse.Join(a.chunks)).events;
      var sent, reply := Resent(Forwarded(c, p, events[..k]), Original).(transient := p.transient + 1), c.replies(|p.resends|);
      OnAttempt(c, p, a) ==
        if reply.Some? then Restart(sent, reply.value)
        else Broken(sent.(out := sent.out + [ErrorFrame(|p.resends|, events[k])]))
  {
    hide OnFrames, BareFrames, Forwarded;
    var events := Sse.Split(Sse.Join(a.chunks)).events;
    var flags := DecidedAt(c, p, events, k);
    ForwardedKeeps(c, p, events[..k]);
    assert events[k..][0] == events[k];
    FirstFrameStops(c, Forwarded(c, p, events[..k]), flags, events[k..]);
  }

  /** A degenerate stop decides: it is withheld, the n-th retry is announced and the body with the n-th temperature
      bump is sent, unless it cannot be encoded. */
  lemma DegenerateAttempt(c: Config, p: Progress, a: Attempt, k: nat)
    requires Connected(c, p)
    requires var events := Sse.Split(Sse.Join(a.chunks)).events;
      k < |events| && UndecidedBefore(c, p, events, k) && !FailsAt(c, p, events, k) && DegeneratesAt(c, p, events, k)
    ensures var events, n := Sse.Split(Sse.Join(a.chunks)).events, p.attempt + 1;
      var q := Forwarded(c, p, events[..k]);
      var announced, reply := q.(out := q.out + [Notice(n)], attempt := n), c.replies(|p.resends|);
      OnAttempt(c, p, a) ==
        if !c.encodable(n) then Broken(announced)
        else if reply.Some? then Restart(Resent(announced, Bumped(n)), reply.value)
        else Broken(Resent(announced, Bumped(n)))
  {
    hide OnFrames, BareFrames, Forwarded;
    var events := Sse.Split(Sse.Join(a.chunks)).events;
    var flags := DecidedAt(c, p, events, k);
    ForwardedKeeps(c, p, events[..k]);
    assert events[k..][0] == events[k];
    FirstFrameStops(c, Forwarded(c, p, events[..k]), flags, events[k..]);
  }

  /** The usage the frames report. */
  function Reported(c: Config, frames: seq<seq<byte>>): nat {
    if frames == [] then 0
    else (if c.classify(frames[0]).usage then c.usageTokens(frames[0]) else 0) + Reported(c, frames[1..])
  }

  lemma {:induction false} AcceptedRest(c: Config, p: Progress, flags: Flags, frames: seq<seq<byte>>)
    requires Connected(c, p) && flags.accepted
    ensures OnFrames(c, p, flags, frames)
         == Go(p.(out := p.out + Whole(|p.resends|, frames), tokens := p.tokens + Reported(c, frames)), flags)
    decreases |frames|
  {
    if frames == [] {
      assert p.out + Whole(|p.resends|, frames) == p.out;
    } else {
      var v := OnFrame(c, p, flags, frames[0]);
      AcceptedRest(c, v.p, v.flags, frames[1..]);
      var n := |p.resends|;
      assert Whole(n, frames) == [Frame(n, frames[0])] + Whole(n, frames[1..]);
      assert p.out + [Frame(n, frames[0])] + Whole(n, frames[1..]) == p.out + Whole(n, frames);
    }
  }

  /** Any other finish decides: the attempt is accepted. From that frame on everything is forwarded and its usage
      counted, to the end however it comes, and the body closes cleanly. */
  lemma AcceptedAttempt(c: Config, p: Progress, a: Attempt, k: nat)
    requires Connected(c, p)
    requires var events := Sse.Split(Sse.Join(a.chunks)).events;
      && k < |events| && UndecidedBefore(c, p, events, k)
      && !FailsAt(c, p, events, k) && !DegeneratesAt(c, p, events, k) && EndsAt(c, events, k)
    ensures var f := Sse.Split(Sse.Join(a.chunks));
      var q := Forwarded(c, p, f.events[..k]);
      OnAttempt(c, p, a) == Done(Flushed(
        q.(out := q.out + Whole(|p.resends|, f.events[k..]), tokens := p.tokens + Reported(c, f.events[k..])), f.rest))
  {
    hide OnFrames, BareFrames, Forwarded, Reported;
    var events := Sse.Split(Sse.Join(a.chunks)).events;
    var flags := DecidedAt(c, p, events, k);
    ForwardedKeeps(c, p, events[..k]);
    AcceptingFrame(c, Forwarded(c, p, events[..k]), flags, events[k..]);
  }

  lemma AcceptingFrame(c: Config, q: Progress, flags: Flags, frames: seq<seq<byte>>)
    requires Connected(c, q) && !flags.accepted && frames != [] && c.classify(frames[0]).finish != NoFinish
    requires var seen := Seen(flags, c.classify(frames[0]));
      && !(c.classify(frames[0]).error && Bare(seen) && q.transient < c.transientMax)
      && !Premature(c, q, seen, c.classify(frames[0]))
    ensures var v := OnFrames(c, q, flags, frames);
      && v.Go? && v.flags.accepted
      && v.p == q.(out := q.out + Whole(|q.resends|, frames), tokens := q.tokens + Reported(c, frames))
  {
    var n, v := |q.resends|, OnFrame(c, q, flags, frames[0]);
    AcceptedRest(c, v.p, v.flags, frames[1..]);
    assert Whole(n, frames) == [Frame(n, frames[0])] + Whole(n, frames[1..]);
    assert q.out + [Frame(n, frames[0])] + Whole(n, frames[1..]) == q.out + Whole(n, frames);
  }

  // ----- Re-sending at the end of an attempt -----

  /** No frame gets the attempt replaced in mid-stream: it is read to its end. */
  ghost predicate ReadToEnd(c: Config, p: Progress, frames: seq<seq<byte>>) {
    forall k :: 0 <= k < |frames| && UndecidedBefore(c, p, frames, k) ==>
      !FailsAt(c, p, frames, k) && !DegeneratesAt(c, p, frames, k)
  }

  /** An attempt read to its end is re-sent if and only if the stream just ended, no frame carried content or tool
      calls, none had a finish reason, and a transient attempt is left. A stall or a missed deadline never re-sends. */
  lemma ResentAtItsEndIff(c: Config, p: Progress, a: Attempt)
    requires Connected(c, p) && ReadToEnd(c, p, Sse.Split(Sse.Join(a.chunks)).events)
    ensures var events, v := Sse.Split(Sse.Join(a.chunks)).events, OnAttempt(c, p, a);
      && (v.p.resends == p.resends || v.p.resends == p.resends + [Original])
      && (v.p.resends != p.resends <==>
            && a.ending == Eof && BareFrames(c, events) && p.transient < c.transientMax
            && forall i :: 0 <= i < |events| ==> !EndsAt(c, events, i))
      && (a.ending != Eof ==> v.p.resends == p.resends && !v.Restart?)
  {
    hide OnAttempt, BareFrames, FailsAt, DegeneratesAt;
    var events := Sse.Split(Sse.Join(a.chunks)).events;
    var k := FirstDecision(c, p, events, |events|);
    ForwardedKeeps(c, p, events[..k]);
    assert |p.resends + [Original]| > |p.resends|;
    if k == |events| {
      assert events[..k] == events;
      UndecidedAttempt(c, p, a);
    } else {
      AcceptedAttempt(c, p, a, k);
    }
  }
}
