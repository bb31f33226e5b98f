/** Bounded work per client request: the transient re-forward loop, its backoff, the premature-stop loop of
    non-streaming chats, and their composition with the streaming retry machine.

    The backend is arbitrary: `replies(k)` answers the k-th request sent for one client request. */
module ProxyRetry {
  import opened Flows
  import Sse
  import Stream
  import StreamRuns

  // ----- Backoff -----

  /** The largest duration in nanoseconds: 2^64 - 1 seconds and 999999999 nanoseconds. */
  const DURATION_MAX: nat := 0xFFFF_FFFF_FFFF_FFFF * 1_000_000_000 + 999_999_999

  type Duration = d: nat | d <= DURATION_MAX

  function SaturatingDouble(d: Duration): Duration {
    if 2 * d <= DURATION_MAX then 2 * d else DURATION_MAX
  }

  function Min(a: nat, b: nat): nat {
    if a <= b then a else b
  }

  /** `start * 2^k` */
  function Doubled(start: nat, k: nat): nat {
    if k == 0 then start else 2 * Doubled(start, k - 1)
  }

  lemma {:induction false} DoublingGrows(start: nat, j: nat, k: nat)
    requires j <= k
    ensures Doubled(start, j) <= Doubled(start, k)
  {
    if j < k { DoublingGrows(start, j, k - 1); }
  }

  /** The doubling loop, which stops early at the cap, is the closed form. The cap is not applied to the
      first delay, so the documented `min(start * 2^(attempt-1), max)` holds for attempt 1 exactly when
      `start <= max`, which the configuration check demands. */
  method TransientBackoff(attempt: nat, start: Duration, max: Duration) returns (delay: Duration)
    ensures attempt <= 1 ==> delay == start
    ensures attempt >= 2 ==> delay == Min(Doubled(start, attempt - 1), max)
    ensures attempt >= 1 ==> (delay == Min(Doubled(start, attempt - 1), max) <==> attempt >= 2 || start <= max)
  {
    delay := start;
    var rounds := if attempt == 0 then 0 else attempt - 1;
    for i := 0 to rounds
      invariant delay == Doubled(start, i)
      invariant i > 0 ==> delay < max
    {
      delay := SaturatingDouble(delay);
      DoublingGrows(start, i + 1, rounds);
      if delay >= max { return max; }
    }
  }

  // ----- One client request -----

  datatype ErrorClass = Transient | Permanent | NotLlamacpp

  /** What comes back for one send. `readable` tells whether the body can be collected. */
  datatype Reply =
    | Answered(status: nat, sse: bool, stream: Stream.Attempt, readable: bool)
    | TimedOut
    | Network(transient: bool)
    | OtherError

  datatype Config = Config(
    replies: nat -> Reply,
    classifyError: seq<byte> -> ErrorClass,
    prematureStop: seq<byte> -> bool,
    maxAttempts: nat,
    backoffStart: Duration,
    backoffMax: Duration,
    wantsStreaming: bool,
    isChat: bool,
    streaming: Stream.Config)

  predicate IsSuccess(r: Reply) {
    r.Answered? && 200 <= r.status < 300
  }

  predicate IsErrorStatus(r: Reply) {
    r.Answered? && 400 <= r.status < 600
  }

  function Body(r: Reply): seq<byte>
    requires r.Answered?
  {
    Sse.Join(r.stream.chunks)
  }

  /** A failure that is worth another try. */
  predicate Retryable(c: Config, r: Reply) {
    match r
    case Answered(_, _, _, readable) => !IsSuccess(r) && readable && c.classifyError(Body(r)) == Transient
    case Network(transient) => transient
    case _ => false
  }

  datatype Outcome = Success(reply: Reply) | FinalResponse(status: nat, body: seq<byte>) | Failed

  /** The delay before the send with index `i`: the start delay, then doubled each time, up to the cap. */
  function DelayOf(c: Config, i: nat): nat {
    if i == 0 then c.backoffStart else Min(Doubled(c.backoffStart, i), c.backoffMax)
  }

  method NextDelay(c: Config, i: nat) returns (delay: Duration)
    ensures delay == DelayOf(c, i)
  {
    delay := TransientBackoff(i + 1, c.backoffStart, c.backoffMax);
  }

  /** Sends until the first reply that is not worth another try, but at most `maxAttempts` times, each time after a
      delay that doubles up to the cap. A success comes back as it is, any other readable answer is final, and
      everything else failed. */
  method TransientRetry(c: Config, base: nat) returns (sends: nat, outcome: Outcome, delays: seq<Duration>)
    ensures 1 <= sends && (sends <= c.maxAttempts || sends == 1)
    ensures forall i :: base <= i < base + sends - 1 ==> Retryable(c, c.replies(i))
    ensures !Retryable(c, c.replies(base + sends - 1)) || sends >= c.maxAttempts
    ensures sends < c.maxAttempts ==> c.replies(base + sends - 1) != Network(true)
    ensures var last := c.replies(base + sends - 1);
      last.Answered? && !IsSuccess(last) && last.readable && sends < c.maxAttempts ==> c.classifyError(Body(last)) != Transient
    ensures outcome.Success? <==> IsSuccess(c.replies(base + sends - 1))
    ensures outcome.Success? ==> outcome.reply == c.replies(base + sends - 1)
    ensures var last := c.replies(base + sends - 1);
      && (outcome.FinalResponse? <==> last.Answered? && !IsSuccess(last) && last.readable)
      && (outcome.FinalResponse? ==> outcome.status == last.status && outcome.body == Body(last))
    ensures |delays| == sends && forall i :: 0 <= i < sends ==> delays[i] == DelayOf(c, i)
  {
    hide DelayOf, Body;
    sends, delays := 0, [];
    while true
      invariant sends < c.maxAttempts || sends == 0
      invariant forall i :: base <= i < base + sends ==> Retryable(c, c.replies(i))
      invariant |delays| == sends && forall i :: 0 <= i < sends ==> delays[i] == DelayOf(c, i)
      decreases c.maxAttempts - sends
    {
      var delay := NextDelay(c, sends);
      delays := delays + [delay];
      var r := c.replies(base + sends);
      sends := sends + 1;
      match r
      case Answered(status, _, _, readable) =>
        if IsSuccess(r) { return sends, Success(r), delays; }
        if !readable { return sends, Failed, delays; }
        if c.classifyError(Body(r)) == Transient && sends < c.maxAttempts { continue; }
        return sends, FinalResponse(status, Body(r)), delays;
      case TimedOut => return sends, Failed, delays;
      case Network(transient) =>
        if transient && sends < c.maxAttempts { continue; }
        return sends, Failed, delays;
      case OtherError => return sends, Failed, delays;
    }
  }

  // ----- Premature stops of non-streaming chats -----

  predicate Usable(r: Reply) {
    IsSuccess(r) && r.readable
  }

  /** The i-th body was premature, and the i-th retry was answered with the next one. */
  predicate Replaced(c: Config, base: nat, bodies: seq<seq<byte>>, i: nat)
    requires i + 1 < |bodies|
  {
    var r := c.replies(base + i);
    c.prematureStop(bodies[i]) && Usable(r) && bodies[i + 1] == Body(r)
  }

  /** Re-sends while the body is a premature stop and budget is left. Each replaced body was premature; the
      last usable body is kept, so a failed retry never loses a response. The loop ends on a good body, on an
      exhausted budget, or on a retry that could not be encoded, sent or read. */
  method RetryPrematureBody(c: Config, base: nat, first: seq<byte>) returns (body: seq<byte>, sends: nat, retries: nat, ghost bodies: seq<seq<byte>>)
    ensures sends <= retries <= c.streaming.maxRetries
    ensures !c.prematureStop(first) ==> retries == 0 && body == first
    ensures bodies != [] && bodies[0] == first && body == bodies[|bodies| - 1]
    ensures |bodies| - 1 <= sends <= |bodies|
    ensures forall i :: 0 <= i < |bodies| - 1 ==> Replaced(c, base, bodies, i)
    ensures c.prematureStop(body) && retries < c.streaming.maxRetries ==>
      retries > 0 && (!c.streaming.encodable(retries) || (sends > 0 && !Usable(c.replies(base + sends - 1))))
  {
    body, sends, retries, bodies := first, 0, 0, [first];
    while true
      invariant sends == retries == |bodies| - 1 <= c.streaming.maxRetries
      invariant retries > 0 ==> c.prematureStop(first)
      invariant bodies[0] == first && body == bodies[|bodies| - 1]
      invariant forall i :: 0 <= i < |bodies| - 1 ==> Replaced(c, base, bodies, i)
      decreases c.streaming.maxRetries - retries
    {
      if !c.prematureStop(body) || retries >= c.streaming.maxRetries { break; }
      retries := retries + 1;
      if !c.streaming.encodable(retries) { break; }
      var r := c.replies(base + sends);
      sends := sends + 1;
      if !Usable(r) { break; }
      body := Body(r);
      ghost var before := bodies;
      bodies := bodies + [body];
      forall i | 0 <= i < |bodies| - 1 ensures Replaced(c, base, bodies, i) {
        assert i < |before| - 1 ==> Replaced(c, base, before, i);
      }
    }
  }

  // ----- The request as a whole -----

  /** What the client gets: an error, a stream passed through or retried, or a collected body. */
  datatype Answer =
    | Rejected
    | PassedThrough(stream: Stream.Attempt)
    | Retried(outcome: Stream.Outcome)
    | Collected(body: seq<byte>)

  /** The replies as the streaming machine sees them: any reply that is not a success is a failed re-send. */
  function Onward(c: Config, base: nat): (o: Stream.Config)
    ensures o.transientMax == c.maxAttempts && o.maxRetries == c.streaming.maxRetries
    ensures o.parsed == c.streaming.parsed && o.enabled == c.streaming.enabled && o.patience == c.streaming.patience
  {
    c.streaming.(transientMax := c.maxAttempts, replies := From(c, base))
  }

  function From(c: Config, base: nat): nat -> Option<Stream.Attempt> {
    (k: nat) => AsStream(c.replies(base + k))
  }

  function AsStream(r: Reply): Option<Stream.Attempt> {
    if IsSuccess(r) then Some(r.stream) else None
  }

  /** Re-send `k` of the stream is send `base + k` of the request; it is answered exactly by a 2xx status. */
  lemma OnwardReplies(c: Config, base: nat, k: nat)
    ensures var r, answer := c.replies(base + k), Onward(c, base).replies(k);
      && (answer.Some? <==> r.Answered? && r.status / 100 == 2)
      && (answer.Some? ==> answer.value == r.stream)
  {
    assert Onward(c, base).replies == From(c, base);
    assert From(c, base)(k) == AsStream(c.replies(base + k));
  }

  /** The first reply starts the transient loop: a transient network failure before any response, or an
      error status whose body is classified as transient. */
  predicate StartsTransientLoop(c: Config, r: Reply) {
    r == Network(true) || (IsErrorStatus(r) && r.readable && c.classifyError(Body(r)) == Transient)
  }

  predicate RetriesStops(c: Config) {
    c.streaming.enabled && c.streaming.maxRetries > 0 && c.isChat
  }

  /** The sends up to the reply that is dispatched: the first one, or the last of the transient loop, which runs
      exactly when the first reply asks for it and retrying is on. */
  method Connect(c: Config) returns (reply: Option<Reply>, sends: nat, transientRuns: nat)
    ensures transientRuns == if c.maxAttempts > 0 && StartsTransientLoop(c, c.replies(0)) then 1 else 0
    ensures c.maxAttempts > 0 && c.replies(0) == Network(true) ==> transientRuns == 1
    ensures var first := c.replies(0);
      first.Answered? && 400 <= first.status < 600 && first.readable && c.classifyError(Body(first)) == Transient ==>
        transientRuns == 1 || c.maxAttempts == 0
    ensures 1 <= sends <= 1 + c.maxAttempts && (transientRuns == 0 ==> sends == 1)
    ensures var last := c.replies(sends - 1);
      reply == if last.Answered? && !IsErrorStatus(last) && (transientRuns == 1 ==> IsSuccess(last)) then Some(last) else None
  {
    var r := c.replies(0);
    sends, transientRuns := 1, 0;
    if c.maxAttempts > 0 && StartsTransientLoop(c, r) {
      var n, outcome, delays := TransientRetry(c, 1);
      sends, transientRuns := 1 + n, 1;
      reply := if outcome.Success? then Some(outcome.reply) else None;
      return;
    }
    reply := if r.Answered? && !IsErrorStatus(r) then Some(r) else None;
  }

  /** Everything one client request sends to the backend, and what comes of it. */
  method Forward(c: Config) returns (answer: Answer, sends: nat, base: nat, retries: nat)
    ensures 1 <= base <= 1 + c.maxAttempts && base <= sends
    ensures base > 1 ==> c.maxAttempts > 0 && StartsTransientLoop(c, c.replies(0))
    ensures answer.Rejected? || answer.PassedThrough? ==> sends == base
    ensures answer.PassedThrough? ==> c.replies(base - 1).Answered? && answer.stream == c.replies(base - 1).stream && !RetriesStops(c)
    ensures answer.Retried? ==> c.replies(base - 1).Answered? && RetriesStops(c)
    ensures answer.Retried? ==> answer.outcome == Stream.Serve(Onward(c, base), Stream.START, c.replies(base - 1).stream)
    ensures answer.Retried? ==> sends == base + |answer.outcome.p.resends|
    ensures answer.Retried? ==> sends <= 1 + c.maxAttempts + c.streaming.maxRetries + c.maxAttempts
    ensures answer.Collected? ==> c.replies(base - 1).Answered? && sends <= base + retries <= 1 + c.maxAttempts + c.streaming.maxRetries
    ensures answer.Collected? && !(RetriesStops(c) && c.streaming.parsed && c.prematureStop(Body(c.replies(base - 1)))) ==>
      answer.body == Body(c.replies(base - 1)) && sends == base
    ensures answer.Collected? && RetriesStops(c) && c.streaming.parsed && c.prematureStop(answer.body) ==>
      || retries == c.streaming.maxRetries || (retries > 0 && !c.streaming.encodable(retries))
      || (sends > base && !Usable(c.replies(sends - 1)))
  {
    var reply, n, transientRuns := Connect(c);
    sends, base, retries := n, n, 0;
    if reply.None? { return Rejected, sends, base, retries; }
    var r := reply.value;
    if r.sse || c.wantsStreaming {
      if !RetriesStops(c) { return PassedThrough(r.stream), sends, base, retries; }
      var onward := Onward(c, base);
      var machine := new Stream.RetryTask(onward);
      machine.Run(r.stream);
      StreamRuns.ResendsAreBounded(onward, Stream.START, r.stream);
      return Retried(Stream.Outcome(machine.Model(), machine.completed)), base + |machine.resends|, base, retries;
    }
    if !r.readable { return Rejected, sends, base, retries; }
    var body := Body(r);
    if RetriesStops(c) && c.streaming.parsed {
      var more;
      ghost var bodies;
      body, more, retries, bodies := RetryPrematureBody(c, base, body);
      sends := base + more;
    }
    answer := Collected(body);
  }
}
