/**
The streaming tool-call counter (internal/coordinator/serve.go:390-443): events end at two
line feeds, the subset of section 9.2 of the WHATWG HTML Standard the program handles.
`parse` stands for trimming an event, recognising it and reading its call indexes.
*/
module SseToolCalls {
  import opened Bytes

  const LF: byte := 10

  type Parser = seq<byte> -> set<int>

  /** A delimiter at position i. */
  predicate DelimAt(s: seq<byte>, i: nat) {
    i + 1 < |s| && s[i] == LF && s[i + 1] == LF
  }

  /** bytes.Index(s, "\n\n"). */
  function Index(s: seq<byte>): (i: int)
    ensures -1 <= i
    ensures i >= 0 ==> DelimAt(s, i)
    ensures forall j :: 0 <= j < (if i < 0 then |s| else i) ==> !DelimAt(s, j)
  {
    IndexFrom(s, 0)
  }

  function IndexFrom(s: seq<byte>, from: nat): (i: int)
    ensures -1 <= i
    ensures i >= 0 ==> from <= i && DelimAt(s, i)
    ensures forall j :: from <= j < (if i < 0 then |s| else i) ==> !DelimAt(s, j)
    decreases |s| - from
  {
    if from >= |s| then -1
    else if DelimAt(s, from) then from
    else IndexFrom(s, from + 1)
  }

  datatype Scan = Scan(pending: seq<byte>, seen: set<int>)

  /** The loop of feed: take events off the front until none is complete. */
  function Drain(pending: seq<byte>, seen: set<int>, parse: Parser): Scan
    decreases |pending|
  {
    var i := Index(pending);
    if i < 0 then Scan(pending, seen)
    else Drain(pending[i + 2..], seen + parse(pending[..i]), parse)
  }

  function Feed(s: Scan, chunk: seq<byte>, parse: Parser): Scan {
    Drain(s.pending + chunk, s.seen, parse)
  }

  function FeedAll(s: Scan, chunks: seq<seq<byte>>, parse: Parser): Scan
    decreases |chunks|
  {
    if chunks == [] then s else FeedAll(Feed(s, chunks[0], parse), chunks[1..], parse)
  }

  function Concat(chunks: seq<seq<byte>>): seq<byte> {
    if chunks == [] then [] else chunks[0] + Concat(chunks[1..])
  }

  const START: Scan := Scan([], {})

  // ---------------------------------------------------------------- cutting the stream differently

  /** The first delimiter of a prefix is the first delimiter of the whole. */
  lemma IndexOfPrefix(p: seq<byte>, q: seq<byte>)
    requires Index(p) >= 0
    ensures Index(p + q) == Index(p)
  {
    var i, k := Index(p), Index(p + q);
    assert DelimAt(p + q, i);
    assert forall j :: 0 <= j < i ==> (DelimAt(p + q, j) <==> DelimAt(p, j));
  }

  /** Draining p and then going on with q is draining them together. */
  lemma {:induction false} DrainInTwo(p: seq<byte>, q: seq<byte>, seen: set<int>, parse: Parser)
    ensures var d := Drain(p, seen, parse);
            Drain(p + q, seen, parse) == Drain(d.pending + q, d.seen, parse)
    decreases |p|
  {
    var i := Index(p);
    if i >= 0 {
      IndexOfPrefix(p, q);
      assert (p + q)[..i] == p[..i] && (p + q)[i + 2..] == p[i + 2..] + q;
      DrainInTwo(p[i + 2..], q, seen + parse(p[..i]), parse);
    }
  }

  /** Nothing complete is left pending. */
  lemma {:induction false} PendingHasNoDelimiter(pending: seq<byte>, seen: set<int>, parse: Parser)
    ensures forall j: nat :: !DelimAt(Drain(pending, seen, parse).pending, j)
    ensures var left := Drain(pending, seen, parse).pending;
            forall j :: 0 <= j < |left| - 1 ==> left[j] != 10 || left[j + 1] != 10
    decreases |pending|
  {
    var i := Index(pending);
    if i >= 0 {
      PendingHasNoDelimiter(pending[i + 2..], seen + parse(pending[..i]), parse);
    }
    var left := Drain(pending, seen, parse).pending;
    forall j | 0 <= j < |left| - 1 ensures left[j] != 10 || left[j + 1] != 10 {
      assert !DelimAt(left, j);
    }
  }

  lemma DrainSettled(s: Scan, parse: Parser)
    requires forall j: nat :: !DelimAt(s.pending, j)
    ensures Feed(s, [], parse) == s
  {
    assert s.pending + [] == s.pending;
    assert Index(s.pending) < 0;
  }

  lemma {:induction false} FeedAllIsFeed(s: Scan, chunks: seq<seq<byte>>, parse: Parser)
    requires forall j: nat :: !DelimAt(s.pending, j)
    ensures FeedAll(s, chunks, parse) == Feed(s, Concat(chunks), parse)
    decreases |chunks|
  {
    if chunks == [] {
      DrainSettled(s, parse);
    } else {
      var first, rest := chunks[0], chunks[1..];
      var t := Feed(s, first, parse);
      PendingHasNoDelimiter(s.pending + first, s.seen, parse);
      FeedAllIsFeed(t, rest, parse);
      DrainInTwo(s.pending + first, Concat(rest), s.seen, parse);
      assert s.pending + (first + Concat(rest)) == s.pending + first + Concat(rest);
    }
  }

  /** However the stream is cut into reads, the calls seen and the bytes pending are the same. */
  lemma ChunkingInvariance(chunks: seq<seq<byte>>, parse: Parser)
    ensures FeedAll(START, chunks, parse) == Feed(START, Concat(chunks), parse)
  {
    FeedAllIsFeed(START, chunks, parse);
  }

  // ---------------------------------------------------------------- the stream read as a whole

  /** The complete events of a stream. */
  function Events(stream: seq<byte>): seq<seq<byte>>
    decreases |stream|
  {
    var i := Index(stream);
    if i < 0 then [] else [stream[..i]] + Events(stream[i + 2..])
  }

  function Terminated(events: seq<seq<byte>>): seq<byte> {
    if events == [] then [] else events[0] + [LF, LF] + Terminated(events[1..])
  }

  function IndexesOf(events: seq<seq<byte>>, parse: Parser): set<int> {
    if events == [] then {} else parse(events[0]) + IndexesOf(events[1..], parse)
  }

  /** One event off the front. */
  lemma EventStep(stream: seq<byte>)
    requires Index(stream) >= 0
    ensures var i := Index(stream);
            && stream == stream[..i] + [LF, LF] + stream[i + 2..]
            && Index(stream[..i]) < 0
  {
    var i := Index(stream);
    var event := stream[..i];
    forall j: nat ensures !DelimAt(event, j) {
      assert DelimAt(event, j) ==> DelimAt(stream, j) && j < i;
    }
    assert stream == event + [LF, LF] + stream[i + 2..] by {
      assert stream[i] == LF && stream[i + 1] == LF;
    }
  }

  lemma OneMoreEvent(event: seq<byte>, events: seq<seq<byte>>, tail: seq<byte>, parse: Parser)
    ensures Terminated([event] + events) + tail == event + [LF, LF] + (Terminated(events) + tail)
    ensures IndexesOf([event] + events, parse) == parse(event) + IndexesOf(events, parse)
  {
    assert ([event] + events)[1..] == events;
  }

  /** Events are cut at the first delimiter each time, and nothing of the stream is lost. */
  lemma {:induction false} StreamIsItsEvents(stream: seq<byte>, seen: set<int>, parse: Parser)
    ensures Terminated(Events(stream)) + Drain(stream, seen, parse).pending == stream
    ensures Drain(stream, seen, parse).seen == seen + IndexesOf(Events(stream), parse)
    ensures forall k :: 0 <= k < |Events(stream)| ==> Index(Events(stream)[k]) < 0
    decreases |stream|
  {
    var i := Index(stream);
    if i < 0 {
      assert [] + stream == stream;
    } else {
      var event, rest := stream[..i], stream[i + 2..];
      EventStep(stream);
      StreamIsItsEvents(rest, seen + parse(event), parse);
      OneMoreEvent(event, Events(rest), Drain(stream, seen, parse).pending, parse);
      hide Events, Terminated, IndexesOf, Index;
    }
  }

  /** Fed in any pieces, the counter has seen exactly the indexes of the complete events. */
  lemma CounterMatchesStream(chunks: seq<seq<byte>>, parse: Parser)
    ensures FeedAll(START, chunks, parse).seen == IndexesOf(Events(Concat(chunks)), parse)
    ensures Terminated(Events(Concat(chunks))) + FeedAll(START, chunks, parse).pending == Concat(chunks)
  {
    ChunkingInvariance(chunks, parse);
    StreamIsItsEvents(Concat(chunks), {}, parse);
    assert [] + Concat(chunks) == Concat(chunks);
  }

  // ---------------------------------------------------------------- the object

  class ToolCallCounter {
    var pending: seq<byte>
    var seen: set<int>
    const parse: Parser

    function State(): Scan
      reads this
    {
      Scan(pending, seen)
    }

    constructor (parse: Parser)
      ensures State() == START && this.parse == parse
    {
      this.parse, pending, seen := parse, [], {};
    }

    method FeedChunk(chunk: seq<byte>)
      modifies this
      ensures State() == Feed(old(State()), chunk, parse)
    {
      ghost var want := Feed(State(), chunk, parse);
      pending := pending + chunk;
      while true
        invariant Drain(pending, seen, parse) == want
        decreases |pending|
      {
        var i := FindDelim(pending);
        if i < 0 {
          return;
        }
        var event := pending[..i];
        pending := pending[i + 2..];
        seen := seen + parse(event);
      }
    }
  }

  method FindDelim(s: seq<byte>) returns (i: int)
    ensures i == Index(s)
  {
    i := 0;
    while i + 1 < |s|
      invariant 0 <= i
      invariant forall j :: 0 <= j < i ==> !DelimAt(s, j)
    {
      if s[i] == LF && s[i + 1] == LF {
        assert DelimAt(s, i);
        return;
      }
      i := i + 1;
    }
    return -1;
  }
}
