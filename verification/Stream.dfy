/** The streaming retry machine: a backend stream is framed, classified and forwarded frame by frame, and is
    swapped for a new one under two independent budgets.

    The backend is arbitrary: every re-send succeeds or fails, and every stream is any finite list of chunks
    with any ending. A frame's classification is an arbitrary function of its bytes. */
module Stream {
  import opened Flows
  import Sse

  datatype Finish = NoFinish | Stop | Length | Other

  /** What `classify_frame` reports about one frame. */
  datatype Class = Class(content: bool, tools: bool, finish: Finish, done: bool, usage: bool, error: bool)

  /** How the read loop of one attempt ends once its chunks are used up. A chunk that arrives after the
      deadline is dropped by the source and is not part of `chunks`. */
  datatype Ending = Eof | Deadline | Stall

  datatype Attempt = Attempt(chunks: seq<seq<byte>>, ending: Ending)

  /** What is sent to the client, tagged with the number of re-sends issued before. `ErrorFrame` is an error
      frame forwarded because re-sending failed; `Raw` is the incomplete frame flushed at the end of an
      attempt; `Abort` is the final error that terminates the body. */
  datatype Item =
    | Frame(attempt: nat, frame: seq<byte>)
    | ErrorFrame(attempt: nat, frame: seq<byte>)
    | Raw(attempt: nat, bytes: seq<byte>)
    | Notice(number: nat)
    | Abort

  /** A re-send carries the original body, or the body with the temperature bumped for the n-th time. */
  datatype Resend = Original | Bumped(n: nat)

  /** `replies(k)` answers the k-th re-send; a client with `patience` n accepts n items and then is gone. */
  datatype Config = Config(
    classify: seq<byte> -> Class,
    usageTokens: seq<byte> -> nat,
    encodable: nat -> bool,
    parsed: bool,
    enabled: bool,
    maxRetries: nat,
    transientMax: nat,
    replies: nat -> Option<Attempt>,
    patience: Option<nat>)

  predicate CanRetry(c: Config) {
    c.parsed && c.enabled && c.maxRetries > 0
  }

  datatype Progress = Progress(
    out: seq<Item>,
    refused: Option<Item>,
    resends: seq<Resend>,
    attempt: nat,
    transient: nat,
    tokens: nat)

  datatype Flags = Flags(content: bool, tools: bool, accepted: bool)

  const FRESH := Flags(false, false, false)
  const START := Progress([], None, [], 0, 0, 0)

  /** Where a step leaves the machine: `Go` reads on, `Restart` swaps the stream, `Broken` aborts the body,
      `Gone` returns because the client left, `Done` closes the body cleanly. */
  datatype Verdict =
    | Go(p: Progress, flags: Flags)
    | Restart(p: Progress, next: Attempt)
    | Broken(p: Progress)
    | Gone(p: Progress)
    | Done(p: Progress)

  /** Re-sends both budgets still allow. */
  function Left(c: Config, p: Progress): int {
    c.maxRetries - p.attempt + c.transientMax - p.transient
  }

  predicate WithinBudgets(c: Config, p: Progress) {
    p.attempt <= c.maxRetries && p.transient <= c.transientMax
  }

  // ----- The specification -----

  function Deliver(c: Config, p: Progress, item: Item): Progress {
    if c.patience.Some? && |p.out| >= c.patience.value then p.(refused := Some(item))
    else p.(out := p.out + [item])
  }

  function GoIfDelivered(p: Progress, flags: Flags): Verdict {
    if p.refused.Some? then Gone(p) else Go(p, flags)
  }

  function Usage(c: Config, frame: seq<byte>): nat {
    if c.classify(frame).usage then c.usageTokens(frame) else 0
  }

  function CountAndForward(c: Config, p: Progress, flags: Flags, frame: seq<byte>): Verdict {
    var counted := p.(tokens := p.tokens + Usage(c, frame));
    GoIfDelivered(Deliver(c, counted, Frame(|p.resends|, frame)), flags)
  }

  function ResendOriginal(c: Config, p: Progress): (Progress, Option<Attempt>) {
    (p.(transient := p.transient + 1, resends := p.resends + [Original]), c.replies(|p.resends|))
  }

  function OnError(c: Config, p: Progress, frame: seq<byte>): Verdict {
    var (sent, reply) := ResendOriginal(c, p);
    if reply.Some? then Restart(sent, reply.value)
    else
      var q := Deliver(c, sent, ErrorFrame(|p.resends|, frame));
      if q.refused.Some? then Gone(q) else Broken(q)
  }

  function OnPremature(c: Config, p: Progress): Verdict {
    var n := p.attempt + 1;
    var q := Deliver(c, p.(attempt := n), Notice(n));
    if q.refused.Some? then Gone(q)
    else if !c.encodable(n) then Broken(q)
    else
      var sent := q.(resends := q.resends + [Bumped(n)]);
      var reply := c.replies(|q.resends|);
      if reply.Some? then Restart(sent, reply.value) else Broken(sent)
  }

  predicate Bare(flags: Flags) {
    !flags.content && !flags.tools
  }

  function Seen(flags: Flags, cls: Class): Flags {
    flags.(content := flags.content || cls.content, tools := flags.tools || cls.tools)
  }

  predicate Premature(c: Config, p: Progress, flags: Flags, cls: Class) {
    (cls.finish == Stop || cls.finish == Length) && Bare(flags) && p.attempt < c.maxRetries && CanRetry(c)
  }

  function OnTerminal(c: Config, p: Progress, seen: Flags, frame: seq<byte>): (v: Verdict)
    requires WithinBudgets(c, p)
    ensures WithinBudgets(c, v.p) && Left(c, v.p) <= Left(c, p)
    ensures v.Restart? ==> Left(c, v.p) < Left(c, p)
  {
    if Premature(c, p, seen, c.classify(frame)) then OnPremature(c, p)
    else CountAndForward(c, p, seen.(accepted := true), frame)
  }

  function OnFrame(c: Config, p: Progress, flags: Flags, frame: seq<byte>): (v: Verdict)
    requires WithinBudgets(c, p)
    ensures WithinBudgets(c, v.p) && Left(c, v.p) <= Left(c, p)
    ensures v.Restart? ==> Left(c, v.p) < Left(c, p)
  {
    var cls := c.classify(frame);
    if flags.accepted then CountAndForward(c, p, flags, frame)
    else
      var seen := Seen(flags, cls);
      if cls.error && Bare(seen) && c.transientMax > 0 && p.transient < c.transientMax then OnError(c, p, frame)
      else if cls.finish != NoFinish then
        OnTerminal(c, p, seen, frame)
      else if cls.done || cls.usage then Go(p, seen)
      else GoIfDelivered(Deliver(c, p, Frame(|p.resends|, frame)), seen)
  }

  function OnFrames(c: Config, p: Progress, flags: Flags, frames: seq<seq<byte>>): (v: Verdict)
    requires WithinBudgets(c, p)
    ensures WithinBudgets(c, v.p) && Left(c, v.p) <= Left(c, p)
    ensures v.Restart? ==> Left(c, v.p) < Left(c, p)
    decreases |frames|
  {
    if frames == [] then Go(p, flags)
    else
      var v := OnFrame(c, p, flags, frames[0]);
      if v.Go? then OnFrames(c, v.p, v.flags, frames[1..]) else v
  }

  /** The end of an attempt: flush the incomplete frame, then close, re-send or abort. */
  function OnEnd(c: Config, p: Progress, flags: Flags, rest: seq<byte>, ending: Ending): (v: Verdict)
    requires WithinBudgets(c, p)
    ensures WithinBudgets(c, v.p) && Left(c, v.p) <= Left(c, p) && !v.Go?
    ensures v.Restart? ==> Left(c, v.p) < Left(c, p)
  {
    var q := if rest == [] then p else Deliver(c, p, Raw(|p.resends|, rest));
    if q.refused.Some? then Gone(q)
    else if flags.accepted then Done(q)
    else if ending == Eof && Bare(flags) && c.transientMax > 0 && q.transient < c.transientMax then
      var (sent, reply) := ResendOriginal(c, q);
      if reply.Some? then Restart(sent, reply.value) else Broken(sent)
    else Broken(q)
  }

  /** One attempt, judged by its bytes: how they were cut into chunks plays no part. */
  function OnAttempt(c: Config, p: Progress, a: Attempt): (v: Verdict)
    requires WithinBudgets(c, p)
    ensures WithinBudgets(c, v.p) && Left(c, v.p) <= Left(c, p) && !v.Go?
    ensures v.Restart? ==> Left(c, v.p) < Left(c, p)
  {
    var framing := Sse.Split(Sse.Join(a.chunks));
    var v := OnFrames(c, p, FRESH, framing.events);
    if v.Go? then OnEnd(c, v.p, v.flags, framing.rest, a.ending) else v
  }

  datatype Outcome = Outcome(p: Progress, completed: bool)

  /** The whole response; it terminates because every new stream costs budget. */
  function Serve(c: Config, p: Progress, a: Attempt): Outcome
    requires WithinBudgets(c, p)
    decreases Left(c, p)
  {
    match OnAttempt(c, p, a)
    case Restart(q, next) => Serve(c, q, next)
    case Broken(q) => Outcome(Deliver(c, q, Abort), false)
    case Gone(q) => Outcome(q, false)
    case Done(q) => Outcome(q, true)
  }

  // ----- The stateful machine -----

  datatype Signal = Next | Reissued(next: Attempt) | Break | Return

  function Reached(s: Signal, p: Progress, flags: Flags): Verdict {
    match s
    case Next => Go(p, flags)
    case Reissued(next) => Restart(p, next)
    case Break => Broken(p)
    case Return => Gone(p)
  }

  class RetryTask {
    const config: Config
    var out: seq<Item>
    var refused: Option<Item>
    var resends: seq<Resend>
    var attempt: nat
    var transientAttempt: nat
    var tokens: nat
    var sawContent: bool
    var sawToolCalls: bool
    var accepted: bool
    var completed: bool

    function Model(): Progress
      reads this
    {
      Progress(out, refused, resends, attempt, transientAttempt, tokens)
    }

    function Flagged(): Flags
      reads this
    {
      Flags(sawContent, sawToolCalls, accepted)
    }

    ghost predicate Valid()
      reads this
    {
      WithinBudgets(config, Model()) && !completed && refused.None?
    }

    constructor (config: Config)
      ensures this.config == config && Model() == START && Valid()
    {
      this.config := config;
      out, refused, resends, attempt, transientAttempt, tokens := [], None, [], 0, 0, 0;
      sawContent, sawToolCalls, accepted, completed := false, false, false, false;
    }

    /** `tx.send`: false once the client is gone. */
    method Send(item: Item) returns (ok: bool)
      requires refused.None?
      modifies this`out, this`refused
      ensures Model() == Deliver(config, old(Model()), item)
      ensures ok <==> refused.None?
    {
      ok := config.patience.None? || |out| < config.patience.value;
      if ok { out := out + [item]; } else { refused := Some(item); }
    }

    method Reissue(body: Resend) returns (reply: Option<Attempt>)
      modifies this`resends
      ensures resends == old(resends) + [body]
      ensures reply == config.replies(|old(resends)|)
    {
      reply := config.replies(|resends|);
      resends := resends + [body];
    }

    /** Spend one transient attempt on the original body. */
    method ReforwardOriginal() returns (reply: Option<Attempt>)
      modifies this`transientAttempt, this`resends
      ensures (Model(), reply) == ResendOriginal(config, old(Model()))
    {
      transientAttempt := transientAttempt + 1;
      reply := Reissue(Original);
    }

    method HandleErrorFrame(frame: seq<byte>) returns (s: Signal)
      requires Valid()
      modifies this`transientAttempt, this`out, this`refused, this`resends
      ensures !s.Next? && Reached(s, Model(), Flagged()) == OnError(config, old(Model()), frame)
      ensures s.Return? <==> refused.Some?
    {
      var tag := |resends|;
      var reply := ReforwardOriginal();
      if reply.Some? { return Reissued(reply.value); }
      var ok := Send(ErrorFrame(tag, frame));
      return if ok then Break else Return;
    }

    method CountAndForwardFrame(frame: seq<byte>, hasUsage: bool) returns (ok: bool)
      requires refused.None? && hasUsage == config.classify(frame).usage
      modifies this`out, this`refused, this`tokens
      ensures ok <==> refused.None?
      ensures Reached(if ok then Next else Return, Model(), Flagged()) == CountAndForward(config, old(Model()), old(Flagged()), frame)
    {
      if hasUsage {
        var t := config.usageTokens(frame);
        if t > 0 { tokens := tokens + t; }
      }
      ok := Send(Frame(|resends|, frame));
    }

    /** Announce the retry, then re-send with the next temperature. */
    method RetryPremature() returns (s: Signal)
      requires Valid()
      modifies this`attempt, this`out, this`refused, this`resends
      ensures !s.Next? && Reached(s, Model(), Flagged()) == OnPremature(config, old(Model()))
      ensures s.Return? <==> refused.Some?
    {
      attempt := attempt + 1;
      var ok := Send(Notice(attempt));
      if !ok { return Return; }
      if !config.encodable(attempt) { return Break; }
      var reply := Reissue(Bumped(attempt));
      return if reply.Some? then Reissued(reply.value) else Break;
    }

    /** A frame with a finish reason: retry a degenerate stop while the budget lasts, else accept. */
    method HandleTerminal(frame: seq<byte>, cls: Class) returns (s: Signal)
      requires Valid() && cls == config.classify(frame)
      modifies this
      ensures Reached(s, Model(), Flagged()) == OnTerminal(config, old(Model()), old(Flagged()), frame)
      ensures WithinBudgets(config, Model()) && !completed && (s.Return? <==> refused.Some?)
    {
      hide OnPremature, CountAndForward;
      var premature := (cls.finish == Stop || cls.finish == Length) && !sawContent && !sawToolCalls && attempt < config.maxRetries && CanRetry(config);
      if premature {
        s := RetryPremature();
        return;
      }
      accepted := true;
      var ok := CountAndForwardFrame(frame, cls.usage);
      return if ok then Next else Return;
    }

    method HandleFrame(frame: seq<byte>) returns (s: Signal)
      requires Valid()
      modifies this
      ensures Reached(s, Model(), Flagged()) == OnFrame(config, old(Model()), old(Flagged()), frame)
      ensures WithinBudgets(config, Model()) && !completed && (s.Return? <==> refused.Some?)
    {
      hide OnTerminal, OnError, CountAndForward, ResendOriginal;
      var cls := config.classify(frame);
      if accepted {
        var ok := CountAndForwardFrame(frame, cls.usage);
        return if ok then Next else Return;
      }
      if cls.content { sawContent := true; }
      if cls.tools { sawToolCalls := true; }
      if cls.error && !sawContent && !sawToolCalls && config.transientMax > 0 && transientAttempt < config.transientMax {
        s := HandleErrorFrame(frame);
        return;
      }
      if cls.finish != NoFinish {
        s := HandleTerminal(frame, cls);
        return;
      }
      if cls.done || cls.usage { return Next; }
      var ok := Send(Frame(|resends|, frame));
      return if ok then Next else Return;
    }

    method HandleFrames(frames: seq<seq<byte>>) returns (s: Signal)
      requires Valid()
      modifies this
      ensures Reached(s, Model(), Flagged()) == OnFrames(config, old(Model()), old(Flagged()), frames)
      ensures WithinBudgets(config, Model()) && !completed && (s.Return? <==> refused.Some?)
    {
      hide OnFrame, WithinBudgets;
      ghost var p, flags := Model(), Flagged();
      for j := 0 to |frames|
        invariant Valid()
        invariant OnFrames(config, p, flags, frames[..j]) == Go(Model(), Flagged())
      {
        OnFramesAppend(config, p, flags, frames[..j], [frames[j]]);
        assert frames[..j] + [frames[j]] == frames[..j + 1];
        s := HandleFrame(frames[j]);
        if !s.Next? {
          OnFramesStops(config, p, flags, frames[..j + 1], frames);
          return;
        }
      }
      assert frames[..|frames|] == frames;
      s := Next;
    }

    /** The read loop of one attempt, chunk by chunk and frame by frame, up to the signal that ends it. */
    method ReadLoop(a: Attempt, parser: Sse.SseFrameParser) returns (s: Signal)
      requires Valid() && Flagged() == FRESH && parser.Valid() && parser.fed == []
      modifies this, parser
      ensures Reached(s, Model(), Flagged()) == OnFrames(config, old(Model()), FRESH, Sse.Split(Sse.Join(a.chunks)).events)
      ensures WithinBudgets(config, Model()) && !completed && (s.Return? <==> refused.Some?)
      ensures s.Next? ==> parser.Valid() && parser.fed == Sse.Join(a.chunks)
    {
      hide OnFrames, WithinBudgets;
      ghost var p := Model();
      OnNoFrames(config, p, FRESH);
      for i := 0 to |a.chunks|
        invariant Valid() && parser.Valid() && parser.fed == Sse.Join(a.chunks[..i])
        invariant OnFrames(config, p, FRESH, Sse.Split(parser.fed).events) == Go(Model(), Flagged())
      {
        ghost var before := Sse.Split(parser.fed).events;
        var frames := parser.Feed(a.chunks[i]);
        Sse.JoinAppend(a.chunks[..i], a.chunks[i]);
        assert a.chunks[..i + 1] == a.chunks[..i] + [a.chunks[i]];
        OnFramesAppend(config, p, FRESH, before, frames);
        s := HandleFrames(frames);
        if !s.Next? {
          Sse.EventsGrow(a.chunks, i + 1);
          OnFramesStops(config, p, FRESH, before + frames, Sse.Split(Sse.Join(a.chunks)).events);
          return;
        }
      }
      assert a.chunks[..|a.chunks|] == a.chunks;
      s := Next;
    }

    method RunAttempt(a: Attempt) returns (s: Signal)
      requires Valid()
      modifies this
      ensures !s.Next? && Closed(s) == OnAttempt(config, old(Model()), a)
      ensures WithinBudgets(config, Model()) && (s.Return? <==> refused.Some?) && (completed ==> s.Break?)
    {
      hide OnFrames, WithinBudgets;
      var parser := new Sse.SseFrameParser();
      sawContent, sawToolCalls, accepted := false, false, false;
      s := ReadLoop(a, parser);
      if s.Next? {
        var leftover := parser.Finish();
        s := FinishAttempt(leftover, a.ending);
      }
    }

    /** Flush the incomplete frame, then close, re-send or abort. */
    method FinishAttempt(leftover: seq<seq<byte>>, ending: Ending) returns (s: Signal)
      requires Valid() && |leftover| <= 1 && (leftover != [] ==> leftover[0] != [])
      modifies this
      ensures Closed(s) == OnEnd(config, old(Model()), old(Flagged()), if leftover == [] then [] else leftover[0], ending)
      ensures !s.Next? && WithinBudgets(config, Model()) && (s.Return? <==> refused.Some?) && (completed ==> s.Break?)
    {
      if leftover != [] {
        var ok := Send(Raw(|resends|, leftover[0]));
        if !ok { return Return; }
      }
      if accepted {
        completed := true;
        return Break;
      }
      if ending == Eof && !sawContent && !sawToolCalls && config.transientMax > 0 && transientAttempt < config.transientMax {
        var reply := ReforwardOriginal();
        if reply.Some? { return Reissued(reply.value); }
      }
      return Break;
    }

    /** The verdict once the read loop has ended: a completed attempt also breaks out of the outer loop. */
    function Closed(s: Signal): Verdict
      reads this
    {
      if completed then Done(Model()) else Reached(s, Model(), Flagged())
    }

    method Run(first: Attempt)
      requires Valid() && Model() == START
      modifies this
      ensures Outcome(Model(), completed) == Serve(config, START, first)
    {
      hide OnAttempt;
      var inner := first;
      var s := RunAttempt(inner);
      while s.Reissued?
        invariant !s.Next? && WithinBudgets(config, Model()) && (s.Return? <==> refused.Some?) && (completed ==> s.Break?)
        invariant Serve(config, START, first) == Concluded(config, Closed(s))
        decreases if s.Reissued? then Left(config, Model()) + 1 else 0
      {
        inner := s.next;
        s := RunAttempt(inner);
      }
      if s.Break? && !completed {
        var _ := Send(Abort);
      }
    }
  }

  function Concluded(c: Config, v: Verdict): Outcome
    requires v.Restart? ==> WithinBudgets(c, v.p)
  {
    match v
    case Restart(q, next) => Serve(c, q, next)
    case Broken(q) => Outcome(Deliver(c, q, Abort), false)
    case Done(q) => Outcome(q, true)
    case _ => Outcome(v.p, false)
  }

  lemma OnNoFrames(c: Config, p: Progress, flags: Flags)
    requires WithinBudgets(c, p)
    ensures OnFrames(c, p, flags, []) == Go(p, flags)
  {}

  lemma {:induction false} OnFramesAppend(c: Config, p: Progress, flags: Flags, a: seq<seq<byte>>, b: seq<seq<byte>>)
    requires WithinBudgets(c, p)
    ensures var v := OnFrames(c, p, flags, a);
      OnFrames(c, p, flags, a + b) == if v.Go? then OnFrames(c, v.p, v.flags, b) else v
    decreases |a|
  {
    hide OnFrame;
    if a == [] {
      assert a + b == b;
    } else {
      assert (a + b)[1..] == a[1..] + b;
      var v := OnFrame(c, p, flags, a[0]);
      if v.Go? { OnFramesAppend(c, v.p, v.flags, a[1..], b); }
    }
  }

  /** Frames after the one that ended the attempt are never looked at. */
  lemma OnFramesStops(c: Config, p: Progress, flags: Flags, a: seq<seq<byte>>, all: seq<seq<byte>>)
    requires WithinBudgets(c, p) && a <= all && !OnFrames(c, p, flags, a).Go?
    ensures OnFrames(c, p, flags, all) == OnFrames(c, p, flags, a)
  {
    OnFramesAppend(c, p, flags, a, all[|a|..]);
    assert a + all[|a|..] == all;
  }
}
