/** What a client of the streaming retry machine can rely on, for every backend behaviour. */
module StreamSafety {
  import opened Flows
  import opened Stream
  import Sse

  // ----- What is observed -----

  /** A complete frame that carries content or tool calls. */
  predicate Substantial(c: Config, item: Item) {
    item.Frame? && var cls := c.classify(item.frame); cls.content || cls.tools
  }

  /** A frame with a finish reason, forwarded as the one that ends the response. */
  predicate Terminal(c: Config, item: Item) {
    item.Frame? && c.classify(item.frame).finish != NoFinish
  }

  predicate HasTerminal(c: Config, items: seq<Item>) {
    exists i :: 0 <= i < |items| && Terminal(c, items[i])
  }

  predicate From(c: Config, item: Item, n: nat) {
    Substantial(c, item) ==> item.attempt == n
  }

  /** Every substantial frame belongs to the attempt that follows the n-th re-send. */
  predicate OnlyFrom(c: Config, items: seq<Item>, n: nat) {
    forall i :: 0 <= i < |items| ==> From(c, items[i], n)
  }

  /** The tokens a frame reports, if its class says that it reports usage. */
  function ReportedBy(c: Config, frame: seq<byte>): nat {
    if c.classify(frame).usage then c.usageTokens(frame) else 0
  }

  /** The usage reported by the frames at or after the first terminal one. */
  function Counted(c: Config, items: seq<Item>): nat {
    if items == [] then 0
    else
      var last := items[|items| - 1];
      Counted(c, items[..|items| - 1]) + if last.Frame? && HasTerminal(c, items) then ReportedBy(c, last.frame) else 0
  }

  /** Everything the machine tried to send: what the client got, then the item it no longer took. */
  function Offered(p: Progress): seq<Item> {
    if p.refused.Some? then p.out + [p.refused.value] else p.out
  }

  // ----- The invariant -----

  ghost predicate Sound(c: Config, p: Progress) {
    var items := Offered(p);
    OnlyFrom(c, items, |p.resends|) && Abort !in items && p.tokens == Counted(c, items)
  }

  ghost predicate NoSubstance(c: Config, items: seq<Item>) {
    forall i :: 0 <= i < |items| ==> !Substantial(c, items[i])
  }

  /** While an attempt is read: nothing substantial was sent unless this attempt sent it, and a terminal
      frame was sent exactly if the attempt is accepted. */
  ghost predicate Reading(c: Config, p: Progress, flags: Flags) {
    && Sound(c, p) && p.refused.None?
    && (Bare(flags) && !flags.accepted ==> NoSubstance(c, p.out))
    && (HasTerminal(c, p.out) <==> flags.accepted)
  }

  ghost predicate Safe(c: Config, v: Verdict) {
    match v
    case Go(p, flags) => Reading(c, p, flags)
    case Restart(p, _) => Reading(c, p, FRESH)
    case Broken(p) => Sound(c, p) && p.refused.None? && !HasTerminal(c, p.out)
    case Gone(p) => Sound(c, p) && p.refused.Some?
    case Done(p) => Sound(c, p) && p.refused.None? && HasTerminal(c, p.out)
  }

  lemma AppendItem(c: Config, items: seq<Item>, item: Item)
    ensures HasTerminal(c, items + [item]) <==> HasTerminal(c, items) || Terminal(c, item)
    ensures Counted(c, items + [item]) == Counted(c, items) + if item.Frame? && HasTerminal(c, items + [item]) then ReportedBy(c, item.frame) else 0
    ensures forall n: nat :: OnlyFrom(c, items + [item], n) <==> OnlyFrom(c, items, n) && From(c, item, n)
    ensures NoSubstance(c, items + [item]) <==> NoSubstance(c, items) && !Substantial(c, item)
  {
    hide Substantial, Terminal, ReportedBy, From;
    var all := items + [item];
    assert all[..|all| - 1] == items && all[|all| - 1] == item;
    assert forall i :: 0 <= i < |items| ==> all[i] == items[i];
    if HasTerminal(c, items) {
      var i :| 0 <= i < |items| && Terminal(c, items[i]);
      assert Terminal(c, all[i]);
    }
    assert Terminal(c, item) ==> Terminal(c, all[|items|]);
    forall n: nat ensures OnlyFrom(c, all, n) <==> OnlyFrom(c, items, n) && From(c, item, n) {
      if OnlyFrom(c, all, n) {
        assert From(c, all[|items|], n);
        assert forall i :: 0 <= i < |items| ==> From(c, all[i], n);
      }
    }
    if NoSubstance(c, all) {
      assert !Substantial(c, all[|items|]);
      assert forall i :: 0 <= i < |items| ==> !Substantial(c, all[i]);
    }
  }

  lemma {:induction false} NoTerminalNoTokens(c: Config, items: seq<Item>)
    requires !HasTerminal(c, items)
    ensures Counted(c, items) == 0
  {
    if items != [] {
      var init := items[..|items| - 1];
      AppendItem(c, init, items[|items| - 1]);
      assert init + [items[|items| - 1]] == items;
      NoTerminalNoTokens(c, init);
    }
  }

  /** Delivering an item keeps the books when its tokens, if any, are added. */
  lemma DeliverSound(c: Config, p: Progress, item: Item, tokens: nat)
    requires Sound(c, p) && p.refused.None? && item != Abort
    requires From(c, item, |p.resends|)
    requires tokens == if item.Frame? && HasTerminal(c, p.out + [item]) then ReportedBy(c, item.frame) else 0
    ensures var q := Deliver(c, p.(tokens := p.tokens + tokens), item);
      && Sound(c, q) && Offered(q) == p.out + [item] && q.resends == p.resends
      && (q.refused.None? ==> q.out == p.out + [item])
  {
    hide Substantial, From, HasTerminal, ReportedBy, Counted, OnlyFrom;
    AppendItem(c, p.out, item);
  }

  lemma ReadingNoSubstance(c: Config, p: Progress, flags: Flags, n: nat)
    requires Reading(c, p, flags) && Bare(flags) && !flags.accepted
    ensures OnlyFrom(c, p.out, n)
  {}

  lemma OnErrorSafe(c: Config, p: Progress, frame: seq<byte>)
    requires Reading(c, p, FRESH)
    ensures Safe(c, OnError(c, p, frame))
  {
    hide HasTerminal, Counted, OnlyFrom, NoSubstance;
    var sent := ResendOriginal(c, p).0;
    ReadingNoSubstance(c, p, FRESH, |sent.resends|);
    var item := ErrorFrame(|p.resends|, frame);
    AppendItem(c, p.out, item);
    DeliverSound(c, sent, item, 0);
  }

  lemma OnPrematureSafe(c: Config, p: Progress)
    requires Reading(c, p, FRESH)
    ensures Safe(c, OnPremature(c, p))
  {
    hide HasTerminal, Counted, OnlyFrom, NoSubstance;
    var n := p.attempt + 1;
    AppendItem(c, p.out, Notice(n));
    DeliverSound(c, p.(attempt := n), Notice(n), 0);
    ReadingNoSubstance(c, p, FRESH, |p.resends| + 1);
  }

  lemma CountAndForwardSafe(c: Config, p: Progress, flags: Flags, frame: seq<byte>, after: Flags)
    requires Reading(c, p, flags) && after.accepted
    requires flags.accepted || c.classify(frame).finish != NoFinish
    ensures Safe(c, CountAndForward(c, p, after, frame))
  {
    hide HasTerminal, Counted, OnlyFrom, NoSubstance;
    var item := Frame(|p.resends|, frame);
    AppendItem(c, p.out, item);
    DeliverSound(c, p, item, Usage(c, frame));
  }

  lemma ForwardSafe(c: Config, p: Progress, flags: Flags, frame: seq<byte>)
    requires Reading(c, p, flags) && !flags.accepted && c.classify(frame).finish == NoFinish
    ensures Safe(c, GoIfDelivered(Deliver(c, p, Frame(|p.resends|, frame)), Seen(flags, c.classify(frame))))
  {
    hide HasTerminal, Counted, OnlyFrom, NoSubstance, Usage;
    var item := Frame(|p.resends|, frame);
    AppendItem(c, p.out, item);
    DeliverSound(c, p, item, 0);
  }

  lemma OnFrameSafe(c: Config, p: Progress, flags: Flags, frame: seq<byte>)
    requires WithinBudgets(c, p) && Reading(c, p, flags)
    ensures Safe(c, OnFrame(c, p, flags, frame))
  {
    hide Sound, HasTerminal, Counted, OnlyFrom, NoSubstance, Usage, CountAndForward, OnError, OnPremature, GoIfDelivered;
    var cls := c.classify(frame);
    var seen := Seen(flags, cls);
    if flags.accepted {
      CountAndForwardSafe(c, p, flags, frame, flags);
    } else {
      if cls.finish != NoFinish { CountAndForwardSafe(c, p, flags, frame, seen.(accepted := true)); }
      if Bare(seen) {
        OnErrorSafe(c, p, frame);
        OnPrematureSafe(c, p);
      }
      if cls.finish == NoFinish { ForwardSafe(c, p, flags, frame); }
    }
  }

  lemma {:induction false} OnFramesSafe(c: Config, p: Progress, flags: Flags, frames: seq<seq<byte>>)
    requires WithinBudgets(c, p) && Reading(c, p, flags)
    ensures Safe(c, OnFrames(c, p, flags, frames))
    decreases |frames|
  {
    hide Reading, OnFrame;
    if frames != [] {
      OnFrameSafe(c, p, flags, frames[0]);
      var v := OnFrame(c, p, flags, frames[0]);
      if v.Go? { OnFramesSafe(c, v.p, v.flags, frames[1..]); }
    }
  }

  lemma OnEndSafe(c: Config, p: Progress, flags: Flags, rest: seq<byte>, ending: Ending)
    requires WithinBudgets(c, p) && Reading(c, p, flags)
    ensures Safe(c, OnEnd(c, p, flags, rest, ending))
  {
    hide HasTerminal, Counted, OnlyFrom, NoSubstance;
    var item := Raw(|p.resends|, rest);
    AppendItem(c, p.out, item);
    DeliverSound(c, p, item, 0);
    var q := if rest == [] then p else Deliver(c, p, item);
    if q.refused.None? && Bare(flags) && !flags.accepted { ReadingNoSubstance(c, q, flags, |q.resends| + 1); }
  }

  lemma OnAttemptSafe(c: Config, p: Progress, a: Attempt)
    requires WithinBudgets(c, p) && Reading(c, p, FRESH)
    ensures Safe(c, OnAttempt(c, p, a))
  {
    hide Reading, OnFrames, OnEnd;
    var framing := Sse.Split(Sse.Join(a.chunks));
    OnFramesSafe(c, p, FRESH, framing.events);
    var v := OnFrames(c, p, FRESH, framing.events);
    if v.Go? { OnEndSafe(c, v.p, v.flags, framing.rest, a.ending); }
  }

  // ----- The theorem -----

  /** The body the client sees: at most one `Abort`, and only at its end. */
  ghost predicate EndsWithAbort(items: seq<Item>) {
    items != [] && items[|items| - 1] == Abort && Abort !in items[..|items| - 1]
  }

  ghost predicate SafeOutcome(c: Config, o: Outcome) {
    && OnlyFrom(c, Offered(o.p), |o.p.resends|)
    && o.p.tokens == Counted(c, Offered(o.p))
    && (o.completed ==> o.p.refused.None? && HasTerminal(c, o.p.out) && Abort !in o.p.out)
    && (!o.completed && o.p.refused.None? ==> EndsWithAbort(o.p.out) && !HasTerminal(c, o.p.out))
  }

  lemma {:induction false} ServeSafe(c: Config, p: Progress, a: Attempt)
    requires WithinBudgets(c, p) && Reading(c, p, FRESH)
    ensures SafeOutcome(c, Serve(c, p, a))
    decreases Left(c, p)
  {
    hide OnAttempt, HasTerminal, Counted, OnlyFrom, NoSubstance;
    OnAttemptSafe(c, p, a);
    match OnAttempt(c, p, a)
    case Restart(q, next) => ServeSafe(c, q, next);
    case Broken(q) =>
      AppendItem(c, q.out, Abort);
      assert (q.out + [Abort])[..|q.out + [Abort]| - 1] == q.out;
    case Gone(q) =>
    case Done(q) =>
  }

  /** For every backend and every client. Content and tool calls that reach the client come from the last
      attempt only, so no text is ever repeated or mixed. Tokens are counted exactly for the usage frames
      sent at or after the accepting terminal frame. */
  lemma StreamIsSafe(c: Config, first: Attempt)
    ensures var o := Serve(c, START, first);
      && OnlyFrom(c, o.p.out, |o.p.resends|)
      && o.p.tokens == Counted(c, Offered(o.p))
  {
    hide Serve, Counted, HasTerminal;
    StartReading(c);
    ServeSafe(c, START, first);
    var p := Serve(c, START, first).p;
    assert forall i :: 0 <= i < |p.out| ==> p.out[i] == Offered(p)[i];
  }

  lemma StartReading(c: Config)
    ensures Reading(c, START, FRESH)
  {}

  /** Without a patience limit nothing is refused. */
  lemma {:induction false} FramesNotRefused(c: Config, p: Progress, flags: Flags, frames: seq<seq<byte>>)
    requires WithinBudgets(c, p) && c.patience.None? && p.refused.None?
    ensures OnFrames(c, p, flags, frames).p.refused.None?
    decreases |frames|
  {
    if frames != [] {
      var v := OnFrame(c, p, flags, frames[0]);
      if v.Go? { FramesNotRefused(c, v.p, v.flags, frames[1..]); }
    }
  }

  lemma {:induction false} NeverRefused(c: Config, p: Progress, a: Attempt)
    requires WithinBudgets(c, p) && c.patience.None? && p.refused.None?
    ensures Serve(c, p, a).p.refused.None?
    decreases Left(c, p)
  {
    hide OnFrames;
    FramesNotRefused(c, p, FRESH, Sse.Split(Sse.Join(a.chunks)).events);
    var v := OnAttempt(c, p, a);
    if v.Restart? { NeverRefused(c, v.p, v.next); }
  }

  /** While the client stays, the body closes cleanly and the request is marked completed exactly when a
      terminal frame was accepted; otherwise exactly one error item ends it. */
  lemma ConnectedClientSeesOneEnding(c: Config, first: Attempt)
    requires c.patience.None?
    ensures var o := Serve(c, START, first);
      && (o.completed <==> HasTerminal(c, o.p.out))
      && (o.completed <==> Abort !in o.p.out)
      && (!o.completed ==> EndsWithAbort(o.p.out))
      && o.p.tokens == Counted(c, o.p.out)
  {
    hide Serve, Counted, HasTerminal;
    StartReading(c);
    ServeSafe(c, START, first);
    NeverRefused(c, START, first);
  }
}
