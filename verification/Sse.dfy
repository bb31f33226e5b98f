/** The incremental splitter of a server-sent event stream. Of the line endings that section 9.2.5 of the
    HTML Living Standard allows, it recognises only LF LF and CR LF CR LF as the blank line that ends an
    event. */
module Sse {
  import opened Flows

  const LF: byte := 10
  const CR: byte := 13

  // ----- Reference: split one byte at a time -----

  /** A blank-line delimiter ends exactly at the end of `s`. */
  predicate EndsBlank(s: seq<byte>) {
    var n := |s|;
    || (n >= 2 && s[n - 2] == LF && s[n - 1] == LF)
    || (n >= 4 && s[n - 4] == CR && s[n - 3] == LF && s[n - 2] == CR && s[n - 1] == LF)
  }

  /** The bytes `blank` stand in `s` at position `i`. */
  predicate StandsAt(s: seq<byte>, i: int, blank: seq<byte>) {
    0 <= i <= |s| - |blank| && s[i..i + |blank|] == blank
  }

  /** A delimiter ends at `e` exactly when LF LF or CR LF CR LF stands right before `e`. */
  lemma EndsBlankIff(s: seq<byte>, e: nat)
    requires e <= |s|
    ensures EndsBlank(s[..e]) <==> StandsAt(s, e - 2, [10, 10]) || StandsAt(s, e - 4, [13, 10, 13, 10])
  {
    if StandsAt(s, e - 2, [10, 10]) {
      assert s[e - 2] == s[e - 2..e][0] && s[e - 1] == s[e - 2..e][1];
    }
    if StandsAt(s, e - 4, [13, 10, 13, 10]) {
      var last := s[e - 4..e];
      assert s[e - 4] == last[0] && s[e - 3] == last[1] && s[e - 2] == last[2] && s[e - 1] == last[3];
    }
  }

  datatype Frames = Frames(events: seq<seq<byte>>, rest: seq<byte>)

  function Absorb(f: Frames, b: byte): Frames {
    var open := f.rest + [b];
    if EndsBlank(open) then Frames(f.events + [open], []) else Frames(f.events, open)
  }

  function Split(input: seq<byte>): Frames {
    if input == [] then Frames([], [])
    else Absorb(Split(input[..|input| - 1]), input[|input| - 1])
  }

  /** The frames `f` that follow `earlier` events. */
  function After(earlier: seq<seq<byte>>, f: Frames): Frames {
    Frames(earlier + f.events, f.rest)
  }

  function Join(parts: seq<seq<byte>>): seq<byte> {
    if parts == [] then [] else parts[0] + Join(parts[1..])
  }

  /** No delimiter ends anywhere in `s`. */
  ghost predicate Unbroken(s: seq<byte>) {
    forall e :: 0 <= e <= |s| ==> !EndsBlank(s[..e])
  }

  /** A delimiter ends at the end of `s` and nowhere before. */
  ghost predicate IsEvent(s: seq<byte>) {
    s != [] && EndsBlank(s) && Unbroken(s[..|s| - 1])
  }

  lemma FirstEndIsEvent(s: seq<byte>, e: nat)
    requires 0 < e <= |s| && EndsBlank(s[..e]) && forall k :: 0 <= k < e ==> !EndsBlank(s[..k])
    ensures IsEvent(s[..e])
  {
    hide EndsBlank;
    var body := s[..e][..e - 1];
    forall k | 0 <= k <= |body| ensures !EndsBlank(body[..k]) {
      assert body[..k] == s[..k];
    }
  }

  // ----- The parser -----

  class SseFrameParser {
    var buffer: seq<byte>
    /** Everything fed so far. */
    ghost var fed: seq<byte>

    ghost predicate Valid()
      reads this
    {
      buffer == Split(fed).rest
    }

    constructor ()
      ensures Valid() && fed == [] && buffer == []
    {
      buffer, fed := [], [];
    }

    /** The events returned so far and the buffer are always the split of everything fed. */
    method Feed(chunk: seq<byte>) returns (events: seq<seq<byte>>)
      requires Valid()
      modifies this
      ensures Valid() && fed == old(fed) + chunk
      ensures Split(fed).events == Split(old(fed)).events + events
    {
      SplitResumes(fed, chunk);
      fed := fed + chunk;
      buffer := buffer + chunk;
      events := ExtractEvents();
    }

    method Finish() returns (leftover: seq<seq<byte>>)
      requires Valid()
      ensures leftover == if Split(fed).rest == [] then [] else [Split(fed).rest]
    {
      leftover := if buffer == [] then [] else [buffer];
    }

    method ExtractEvents() returns (events: seq<seq<byte>>)
      modifies this`buffer
      ensures Frames(events, buffer) == Split(old(buffer))
    {
      events := [];
      assert Split(buffer) == After(events, Split(buffer));
      while true
        invariant Split(old(buffer)) == After(events, Split(buffer))
        decreases |buffer|
      {
        var pos := FindDelimiter(buffer);
        if pos.None? { break; }
        SplitFirst(buffer, pos.value);
        events := events + [buffer[..pos.value]];
        buffer := buffer[pos.value..];
      }
      SplitUnbroken(buffer);
    }
  }

  /** Scans start positions, CR LF CR LF before LF LF; finds the delimiter that ends first. */
  method FindDelimiter(buf: seq<byte>) returns (r: Option<nat>)
    ensures r.Some? ==> 0 < r.value <= |buf| && IsEvent(buf[..r.value])
    ensures r.None? ==> Unbroken(buf)
  {
    if |buf| < 2 { return None; }
    var i := 0;
    while i + 1 < |buf|
      invariant i < |buf|
      invariant forall e :: 0 <= e <= i + 1 ==> !EndsBlank(buf[..e])
      invariant forall j :: 0 <= j < i && j + 3 < |buf| ==> !(buf[j] == CR && buf[j + 1] == LF && buf[j + 2] == CR && buf[j + 3] == LF)
    {
      if buf[i] == CR && buf[i + 1] == LF && i + 3 < |buf| && buf[i + 2] == CR && buf[i + 3] == LF {
        assert !EndsBlank(buf[..i + 2]) && !EndsBlank(buf[..i + 3]);
        FirstEndIsEvent(buf, i + 4);
        return Some(i + 4);
      }
      if buf[i] == LF && buf[i + 1] == LF {
        FirstEndIsEvent(buf, i + 2);
        return Some(i + 2);
      }
      i := i + 1;
    }
    r := None;
  }

  /** Feeds a body that arrives in the given chunks: whatever the chunking, the events and the leftover are
      those of the whole body. */
  method ParseChunks(chunks: seq<seq<byte>>) returns (events: seq<seq<byte>>, leftover: seq<byte>)
    ensures Frames(events, leftover) == Split(Join(chunks))
  {
    var parser := new SseFrameParser();
    events := [];
    for i := 0 to |chunks|
      invariant parser.Valid() && parser.fed == Join(chunks[..i]) && events == Split(parser.fed).events
    {
      var more := parser.Feed(chunks[i]);
      events := events + more;
      JoinAppend(chunks[..i], chunks[i]);
      assert chunks[..i + 1] == chunks[..i] + [chunks[i]];
    }
    assert chunks[..|chunks|] == chunks;
    leftover := parser.buffer;
  }

  // ----- The split resumes anywhere -----

  /** Splitting `a + b` is splitting `a`, then splitting what was left of it together with `b`. */
  lemma {:induction false} SplitResumes(a: seq<byte>, b: seq<byte>)
    ensures Split(a + b) == After(Split(a).events, Split(Split(a).rest + b))
    decreases |b|
  {
    hide EndsBlank, Absorb, After;
    var rest := Split(a).rest;
    if b == [] {
      assert a + b == a && rest + b == rest;
      RestUnbroken(a);
      SplitUnbroken(rest);
      AfterNothing(Split(a));
    } else {
      var b', last := b[..|b| - 1], b[|b| - 1];
      SplitResumes(a, b');
      assert (a + b)[..|a + b| - 1] == a + b';
      assert (rest + b)[..|rest + b| - 1] == rest + b';
      AbsorbAfter(Split(a).events, Split(rest + b'), last);
    }
  }

  /** Later chunks only add events. */
  lemma EventsGrow(chunks: seq<seq<byte>>, i: nat)
    requires i <= |chunks|
    ensures Split(Join(chunks[..i])).events <= Split(Join(chunks)).events
  {
    JoinSplit(chunks, i);
    SplitResumes(Join(chunks[..i]), Join(chunks[i..]));
  }

  lemma {:induction false} JoinSplit(parts: seq<seq<byte>>, i: nat)
    requires i <= |parts|
    ensures Join(parts) == Join(parts[..i]) + Join(parts[i..])
  {
    if i > 0 {
      JoinSplit(parts[1..], i - 1);
      assert parts[..i][1..] == parts[1..][..i - 1] && parts[1..][i - 1..] == parts[i..];
    }
  }

  lemma AbsorbAfter(earlier: seq<seq<byte>>, f: Frames, b: byte)
    ensures Absorb(After(earlier, f), b) == After(earlier, Absorb(f, b))
  {
    var open := f.rest + [b];
    assert earlier + (f.events + [open]) == earlier + f.events + [open];
  }

  lemma AfterNothing(f: Frames)
    ensures f == After(f.events, Frames([], f.rest))
  {}

  lemma {:induction false} SplitUnbroken(s: seq<byte>)
    requires Unbroken(s)
    ensures Split(s) == Frames([], s)
  {
    if s != [] {
      var t := s[..|s| - 1];
      assert forall e :: 0 <= e <= |t| ==> t[..e] == s[..e];
      SplitUnbroken(t);
      assert t + [s[|s| - 1]] == s[..|s|];
    }
  }

  lemma {:induction false} RestUnbroken(s: seq<byte>)
    ensures Unbroken(Split(s).rest)
  {
    if s != [] {
      var f := Split(s[..|s| - 1]);
      RestUnbroken(s[..|s| - 1]);
      var open := f.rest + [s[|s| - 1]];
      assert forall e :: 0 <= e <= |f.rest| ==> open[..e] == f.rest[..e];
      assert open[..|open|] == open;
    }
  }

  lemma SplitEvent(event: seq<byte>)
    requires IsEvent(event)
    ensures Split(event) == Frames([event], [])
  {
    hide EndsBlank;
    var n := |event| - 1;
    SplitUnbroken(event[..n]);
    assert event[..n] + [event[n]] == event;
  }

  /** The first delimiter of the buffer cuts off the first event. */
  lemma SplitFirst(s: seq<byte>, e: nat)
    requires e <= |s| && IsEvent(s[..e])
    ensures Split(s) == After([s[..e]], Split(s[e..]))
  {
    hide EndsBlank, IsEvent, After, Absorb;
    SplitEvent(s[..e]);
    SplitResumes(s[..e], s[e..]);
    assert s[..e] + s[e..] == s;
    assert [] + s[e..] == s[e..];
  }

  // ----- What the split is -----

  lemma {:induction false} JoinAppend(parts: seq<seq<byte>>, part: seq<byte>)
    ensures Join(parts + [part]) == Join(parts) + part
  {
    if parts == [] {
      assert [part][1..] == [];
    } else {
      assert (parts + [part])[1..] == parts[1..] + [part];
      JoinAppend(parts[1..], part);
    }
  }

  ghost predicate IsFraming(events: seq<seq<byte>>, rest: seq<byte>) {
    (forall i :: 0 <= i < |events| ==> IsEvent(events[i])) && Unbroken(rest)
  }

  /** Concatenating the events and the leftover gives back the input; every event holds a delimiter at its
      end and nowhere else, and the leftover holds none. */
  lemma {:induction false} SplitRoundTrip(s: seq<byte>)
    ensures Join(Split(s).events) + Split(s).rest == s
    ensures IsFraming(Split(s).events, Split(s).rest)
  {
    hide EndsBlank, Absorb, IsFraming, Unbroken, Join;
    RestUnbroken(s);
    if s == [] {
      NothingIsFramed();
    } else {
      var t, b := s[..|s| - 1], s[|s| - 1];
      SplitRoundTrip(t);
      AbsorbKeepsFraming(Split(t), b);
      assert t + [b] == s;
    }
  }

  lemma NothingIsFramed()
    ensures Join([]) + [] == [] && IsFraming([], [])
  {}

  lemma AbsorbKeepsFraming(f: Frames, b: byte)
    requires IsFraming(f.events, f.rest)
    ensures var g := Absorb(f, b);
      Join(g.events) + g.rest == Join(f.events) + f.rest + [b] && (Unbroken(g.rest) ==> IsFraming(g.events, g.rest))
  {
    hide EndsBlank, Unbroken;
    var open := f.rest + [b];
    assert open[..|open| - 1] == f.rest;
    JoinAppend(f.events, open);
    assert Join(f.events) + open == Join(f.events) + f.rest + [b];
  }

  /** Conversely any framing of the input is the split: the events are determined by the bytes alone. */
  lemma {:induction false} SplitIsTheOnlyFraming(events: seq<seq<byte>>, rest: seq<byte>)
    requires IsFraming(events, rest)
    ensures Split(Join(events) + rest) == Frames(events, rest)
  {
    if events == [] {
      assert Join(events) + rest == rest;
      SplitUnbroken(rest);
    } else {
      var s := Join(events) + rest;
      var e := |events[0]|;
      assert s[..e] == events[0];
      assert s[e..] == Join(events[1..]) + rest;
      SplitIsTheOnlyFraming(events[1..], rest);
      SplitFirst(s, e);
      assert [events[0]] + events[1..] == events;
    }
  }
}
