/** The Bedrock `InvokeModel` stream: the canonical event-stream frames in a byte buffer, each
    carrying one Messages event in Base64. */
module InvokeStream {
  import opened Common
  import opened Json
  import opened Text
  import opened Events
  import Base64
  import Messages
  import Utf8

  datatype InvokeError =
    | FrameNotUtf8 | FrameNotJson | NoBytesString | BytesNotBase64 | PayloadNotJson | NoEventType
    | Protocol(error: Messages.ProtocolError)

  // ----- frame boundaries

  predicate MatchAt(buffer: seq<byte>, pattern: seq<byte>, at: nat) {
    at + |pattern| <= |buffer| && buffer[at..at + |pattern|] == pattern
  }

  /** The first position at or after `from` where `pattern` occurs. */
  function Find(buffer: seq<byte>, pattern: seq<byte>, from: nat): (r: Option<nat>)
    requires from <= |buffer|
    ensures r.None? ==> forall i :: from <= i <= |buffer| ==> !MatchAt(buffer, pattern, i)
    ensures r.Some? ==> from <= r.value && MatchAt(buffer, pattern, r.value)
    ensures r.Some? ==> forall i :: from <= i < r.value ==> !MatchAt(buffer, pattern, i)
    decreases |buffer| - from
  {
    if MatchAt(buffer, pattern, from) then Some(from)
    else if from == |buffer| then None
    else Find(buffer, pattern, from + 1)
  }

  const LF2: seq<byte> := [10, 10]
  const CRLF2: seq<byte> := [13, 10, 13, 10]

  /** `sse_frame_boundary`: where the first frame's payload and the frame itself end. */
  function Boundary(buffer: seq<byte>): (r: Option<(nat, nat)>)
    ensures r.Some? ==> r.value.0 < r.value.1 <= |buffer|
  {
    match (Find(buffer, LF2, 0), Find(buffer, CRLF2, 0))
    case (Some(n), Some(c)) => if n <= c then Some((n, n + 2)) else Some((c, c + 4))
    case (Some(n), None) => Some((n, n + 2))
    case (None, Some(c)) => Some((c, c + 4))
    case (None, None) => None
  }

  lemma MatchAppend(a: seq<byte>, b: seq<byte>, pattern: seq<byte>, at: nat)
    requires at + |pattern| <= |a|
    ensures MatchAt(a + b, pattern, at) <==> MatchAt(a, pattern, at)
  {
    assert (a + b)[at..at + |pattern|] == a[at..at + |pattern|];
  }

  /** A `\r\n\r\n` that `a` does not hold whole cannot start before a `\n\n` that it does. */
  lemma NoOverlap(a: seq<byte>, b: seq<byte>, p: nat, i: nat)
    requires MatchAt(a, LF2, p) && i < p
    ensures MatchAt(a + b, CRLF2, i) ==> MatchAt(a, CRLF2, i)
  {
    if i + 4 <= |a| {
      MatchAppend(a, b, CRLF2, i);
    } else {
      assert a[p + 1] == a[p..p + 2][1] == 10;
      assert i + 2 == p + 1;
      assert i + 4 <= |a + b| ==> (a + b)[i..i + 4][2] == (a + b)[i + 2];
    }
  }

  /** The first boundary found stays the first when bytes are appended. */
  lemma BoundaryStable(a: seq<byte>, b: seq<byte>)
    requires Boundary(a).Some?
    ensures Boundary(a + b) == Boundary(a)
  {
    var (p, e) := Boundary(a).value;
    var all := a + b;
    hide MatchAt;
    if Find(a, LF2, 0) == Some(p) {
      MatchBounds(a, LF2, p);
      MatchAppend(a, b, LF2, p);
      forall i | 0 <= i < p ensures !MatchAt(all, LF2, i) { MatchAppend(a, b, LF2, i); }
      forall i | 0 <= i < p ensures !MatchAt(all, CRLF2, i) { NoOverlap(a, b, p, i); }
      assert Find(all, LF2, 0) == Some(p);
    } else {
      MatchBounds(a, CRLF2, p);
      MatchAppend(a, b, CRLF2, p);
      forall i | 0 <= i < p ensures !MatchAt(all, CRLF2, i) { MatchAppend(a, b, CRLF2, i); }
      forall i | 0 <= i <= p ensures !MatchAt(all, LF2, i) { MatchAppend(a, b, LF2, i); }
      assert Find(all, CRLF2, 0) == Some(p);
    }
  }

  lemma MatchBounds(a: seq<byte>, pattern: seq<byte>, at: nat)
    requires MatchAt(a, pattern, at)
    ensures at + |pattern| <= |a|
  {
  }

  // ----- one frame

  function Fields(lines: seq<string>): (Option<string>, Option<string>) {
    if lines == [] then (None, None)
    else
      var (event, data) := Fields(lines[..|lines| - 1]);
      var line := lines[|lines| - 1];
      match (StripPrefix(line, "event:"), StripPrefix(line, "data:"))
      case (Some(value), _) => (Some(Trim(value)), data)
      case (None, Some(value)) => (event, Some(Trim(value)))
      case (None, None) => (event, data)
  }

  method FrameFields(frame: string) returns (event: Option<string>, data: Option<string>)
    ensures (event, data) == Fields(Lines(frame))
  {
    event, data := None, None;
    var lines := Lines(frame);
    for i := 0 to |lines|
      invariant (event, data) == Fields(lines[..i])
    {
      assert lines[..i + 1][..i] == lines[..i];
      var line := lines[i];
      var value := StripPrefix(line, "event:");
      if value.Some? {
        event := Some(Trim(value.value));
      } else {
        value := StripPrefix(line, "data:");
        if value.Some? {
          data := Some(Trim(value.value));
        }
      }
    }
    assert lines[..|lines|] == lines;
  }

  /** The code of a Bedrock exception name, its first letter in either case. */
  function ExceptionCode(name: string): Option<ErrorCode> {
    if name == "" then None
    else
      var upper := if 'a' <= name[0] <= 'z' then (name[0] as int - 32) as char else name[0];
      var n := [upper] + name[1..];
      if n == "ThrottlingException" then Some(RateLimit)
      else if n == "ModelTimeoutException" then Some(Timeout)
      else if n == "ServiceUnavailableException" || n == "ModelNotReadyException" then Some(UpstreamUnavailable)
      else if n == "ModelErrorException" || n == "InternalServerException" then Some(Capacity)
      else if n == "ModelStreamErrorException" then Some(TransportTruncated)
      else if n == "AccessDeniedException" || n == "UnrecognizedClientException" then Some(Auth)
      else if n == "ValidationException" || n == "ResourceNotFoundException" then Some(InvalidRequest)
      else None
  }

  /** The Messages event inside one `chunk` envelope. */
  function ChunkInput(codec: Codec, envelope: Value): Result<Messages.Input, InvokeError> {
    match AsStr(At(envelope, "bytes"))
    case None => Err(NoBytesString)
    case Some(encoded) =>
      match Base64.Decoded(Utf8.Encode(encoded), Base64.Standard, Base64.Canonical)
      case None => Err(BytesNotBase64)
      case Some(bytes) =>
        match Utf8.Decode(bytes)
        case None => Err(PayloadNotJson)
        case Some(text) =>
          match codec.parse(text)
          case None => Err(PayloadNotJson)
          case Some(event) =>
            match AsStr(At(event, "type"))
            case None => Err(NoEventType)
            case Some(kind) => Ok(Messages.Event(kind, event))
  }

  /** What one frame feeds the Messages machine, if anything. */
  function FrameInput(codec: Codec, payload: seq<byte>): Result<Option<Messages.Input>, InvokeError> {
    match Utf8.Decode(payload)
    case None => Err(FrameNotUtf8)
    case Some(frame) =>
      match Fields(Lines(frame))
      case (Some(event), Some(data)) =>
        (match codec.parse(data)
         case None => Err(FrameNotJson)
         case Some(parsed) =>
           var message := AsStr(At(parsed, "message"));
           if event == "chunk" then
             match ChunkInput(codec, parsed)
             case Err(e) => Err(e)
             case Ok(input) => Ok(Some(input))
           else if "exception:" <= event then
             var code := ExceptionCode(event[|"exception:"|..]);
             Ok(Some(Messages.Failure(if code.None? then Internal else code.value, message)))
           else if "error:" <= event then
             Ok(Some(Messages.Failure(UpstreamUnavailable, message)))
           else Ok(None))
      case _ => Ok(None)
  }

  /** One frame. Nothing follows a failure the upstream reported, not even a bad frame. */
  function OneFrame(codec: Codec, s: Messages.State, payload: seq<byte>)
    : Result<(Messages.State, seq<StreamEvent>), InvokeError>
  {
    if s.closed then Ok((s, []))
    else match FrameInput(codec, payload)
      case Err(e) => Err(e)
      case Ok(None) => Ok((s, []))
      case Ok(Some(input)) =>
        match Messages.Feed(s, input)
        case Step(_, Err(e)) => Err(Protocol(e))
        case Step(s', Ok(events)) => Ok((s', events))
  }

  // ----- the buffer

  datatype Drained = Drained(state: Messages.State, tail: seq<byte>, events: seq<StreamEvent>)

  /** `r` with `events` before its own. */
  function After(events: seq<StreamEvent>, r: Result<Drained, InvokeError>): Result<Drained, InvokeError> {
    match r
    case Err(e) => Err(e)
    case Ok(d) => Ok(d.(events := events + d.events))
  }

  lemma AfterAfter(a: seq<StreamEvent>, b: seq<StreamEvent>, r: Result<Drained, InvokeError>)
    ensures After(a, After(b, r)) == After(a + b, r)
    ensures After([], r) == r
  {
    if r.Ok? {
      assert a + (b + r.value.events) == (a + b) + r.value.events;
      assert [] + r.value.events == r.value.events;
    }
  }

  /** Every whole frame of the buffer, in order. */
  function Drain(codec: Codec, s: Messages.State, tail: seq<byte>): Result<Drained, InvokeError>
    decreases |tail|
  {
    match Boundary(tail)
    case None => Ok(Drained(s, tail, []))
    case Some((payload, end)) =>
      match OneFrame(codec, s, tail[..payload])
      case Err(e) => Err(e)
      case Ok((s', events)) => After(events, Drain(codec, s', tail[end..]))
  }

  /** The bytes `more` read after a drain. */
  function Continue(codec: Codec, r: Result<Drained, InvokeError>, more: seq<byte>): Result<Drained, InvokeError> {
    match r
    case Err(e) => Err(e)
    case Ok(d) => After(d.events, Drain(codec, d.state, d.tail + more))
  }

  /** Draining more bytes continues where the first drain stopped. */
  lemma {:induction false} DrainAppend(codec: Codec, s: Messages.State, a: seq<byte>, b: seq<byte>)
    ensures Drain(codec, s, a + b) == Continue(codec, Drain(codec, s, a), b)
    decreases |a|
  {
    hide OneFrame, Boundary;
    match Boundary(a)
    case None =>
      AfterAfter([], [], Drain(codec, s, a + b));
    case Some((payload, end)) =>
      BoundaryStable(a, b);
      BoundaryInside(a);
      assert (a + b)[..payload] == a[..payload];
      assert (a + b)[end..] == a[end..] + b;
      match OneFrame(codec, s, a[..payload])
      case Err(_) =>
      case Ok((s', events)) =>
        DrainAppend(codec, s', a[end..], b);
        ContinueAfter(codec, events, Drain(codec, s', a[end..]), b);
  }

  lemma ContinueAfter(codec: Codec, events: seq<StreamEvent>, r: Result<Drained, InvokeError>, b: seq<byte>)
    ensures Continue(codec, After(events, r), b) == After(events, Continue(codec, r, b))
  {
    if r.Ok? {
      AfterAfter(events, r.value.events, Drain(codec, r.value.state, r.value.tail + b));
    }
  }

  lemma BoundaryInside(a: seq<byte>)
    requires Boundary(a).Some?
    ensures Boundary(a).value.0 < Boundary(a).value.1 <= |a|
  {
  }

  /** The state of a parser fed `chunks`: what is drained so far, or the first error. A chunk is
      what a read returned, so none is empty: an empty one spells the end of the transport. */
  function Feed(codec: Codec, chunks: seq<seq<byte>>): Result<Drained, InvokeError> {
    if chunks == [] then Ok(Drained(Messages.INITIAL, [], []))
    else Continue(codec, Feed(codec, chunks[..|chunks| - 1]), chunks[|chunks| - 1])
  }

  /** A whole stream cut into chunks, then the end of the transport: all events, or the first
      error. */
  function Stream(codec: Codec, chunks: seq<seq<byte>>): Result<seq<StreamEvent>, InvokeError> {
    match Feed(codec, chunks)
    case Err(e) => Err(e)
    case Ok(d) => Ok(d.events + Messages.EndOfStream(d.state).1)
  }

  /** Feeding chunks is draining their concatenation. */
  lemma {:induction false} FeedIsDrain(codec: Codec, chunks: seq<seq<byte>>)
    ensures Feed(codec, chunks) == Drain(codec, Messages.INITIAL, Flatten(chunks))
  {
    hide OneFrame, Boundary, Continue;
    if chunks == [] {
      EmptyDrain(codec, Messages.INITIAL);
    } else {
      var init, last := chunks[..|chunks| - 1], chunks[|chunks| - 1];
      FeedIsDrain(codec, init);
      DrainAppend(codec, Messages.INITIAL, Flatten(init), last);
      assert chunks == init + [last];
      FlattenSnoc(init, last);
    }
  }

  /** For every stream and every cut of it into chunks, the outcome is the same. */
  lemma ChunkingIrrelevant(codec: Codec, a: seq<seq<byte>>, b: seq<seq<byte>>)
    requires Flatten(a) == Flatten(b)
    ensures Stream(codec, a) == Stream(codec, b)
  {
    FeedIsDrain(codec, a);
    FeedIsDrain(codec, b);
  }

  /** The inputs the whole frames of a buffer carry, in order. */
  function BufferInputs(codec: Codec, bytes: seq<byte>): seq<Messages.Input>
    decreases |bytes|
  {
    match Boundary(bytes)
    case None => []
    case Some((payload, end)) =>
      (match FrameInput(codec, bytes[..payload]) case Ok(Some(input)) => [input] case _ => [])
      + BufferInputs(codec, bytes[end..])
  }

  lemma RunSnoc(inputs: seq<Messages.Input>, input: Messages.Input)
    requires Messages.Run(inputs).Ok?
    ensures var (s, events) := Messages.Run(inputs).value;
            Messages.Run(inputs + [input])
            == if s.closed then Ok((s, events))
               else match Messages.Feed(s, input)
                 case Step(_, Err(e)) => Err(e)
                 case Step(s', Ok(more)) => Ok((s', events + more))
  {
    hide Messages.Feed;
    assert (inputs + [input])[..|inputs + [input]| - 1] == inputs;
  }

  /** Draining frames runs the Messages machine on the inputs the frames carry. */
  lemma {:induction false} DrainRuns(codec: Codec, s: Messages.State, bytes: seq<byte>,
                                     inputs: seq<Messages.Input>, events: seq<StreamEvent>)
    requires Messages.Run(inputs) == Ok((s, events)) && Drain(codec, s, bytes).Ok?
    ensures var d := Drain(codec, s, bytes).value;
            Messages.Run(inputs + BufferInputs(codec, bytes)) == Ok((d.state, events + d.events))
    decreases |bytes|
  {
    hide Boundary, FrameInput, Messages.Feed, Messages.Run;
    match Boundary(bytes)
    case None =>
      assert inputs + [] == inputs && events + [] == events;
    case Some((payload, end)) =>
      BoundaryInside(bytes);
      var (s', more) := OneFrame(codec, s, bytes[..payload]).value;
      var d, rest := Drain(codec, s', bytes[end..]).value, BufferInputs(codec, bytes[end..]);
      assert events + (more + d.events) == (events + more) + d.events;
      match FrameInput(codec, bytes[..payload]) {
        case Ok(Some(input)) =>
          RunSnoc(inputs, input);
          assert s.closed ==> events + more == events;
          DrainRuns(codec, s', bytes[end..], inputs + [input], events + more);
          assert inputs + [input] + rest == inputs + ([input] + rest);
        case _ =>
          assert events + more == events;
          DrainRuns(codec, s, bytes[end..], inputs, events);
          assert [] + rest == rest;
      }
  }

  /** Every error-free stream is a whole run on the inputs its frames carry, so it settles its
      terminals and ends at a reported failure. */
  lemma StreamSettles(codec: Codec, chunks: seq<seq<byte>>)
    requires Stream(codec, chunks).Ok?
    ensures Messages.WholeRun(BufferInputs(codec, Flatten(chunks))) == Ok(Stream(codec, chunks).value)
    ensures FinishesSettle(Stream(codec, chunks).value)
    ensures DonesClose(Stream(codec, chunks).value)
    ensures ErrorIsLast(Stream(codec, chunks).value)
  {
    hide Drain, Feed, BufferInputs, Messages.Run, Messages.EndOfStream;
    FeedIsDrain(codec, chunks);
    assert Messages.Run([]) == Ok((Messages.INITIAL, [])) by {
      EmptyRun();
    }
    DrainRuns(codec, Messages.INITIAL, Flatten(chunks), [], []);
    var d, inputs := Feed(codec, chunks).value, BufferInputs(codec, Flatten(chunks));
    assert [] + d.events == d.events && [] + inputs == inputs;
    Messages.WholeRunSettles(inputs);
  }

  lemma EmptyRun()
    ensures Messages.Run([]) == Ok((Messages.INITIAL, []))
  {
  }

  lemma EmptyDrain(codec: Codec, s: Messages.State)
    ensures Drain(codec, s, []) == Ok(Drained(s, [], []))
  {
  }

  // ----- the parser object

  class InvokeStreamParser {
    var tail: seq<byte>
    const messages: Messages.AnthropicSseParser
    const codec: Codec

    constructor (codec: Codec)
      ensures this.codec == codec && fresh(messages)
      ensures tail == [] && messages.Now() == Messages.INITIAL
    {
      tail := [];
      messages := new Messages.AnthropicSseParser();
      this.codec := codec;
    }

    method ChunkEvents(envelope: Value) returns (r: Result<seq<StreamEvent>, InvokeError>)
      modifies messages
      ensures match ChunkInput(codec, envelope)
              case Err(e) => r == Err(e) && messages.Now() == old(messages.Now())
              case Ok(input) =>
                var step := Messages.Feed(old(messages.Now()), input);
                && messages.Now() == step.state
                && r == (match step.outcome case Err(e) => Err(Protocol(e)) case Ok(v) => Ok(v))
    {
      var encoded := AsStr(At(envelope, "bytes"));
      if encoded.None? {
        return Err(NoBytesString);
      }
      var decoded := Base64.Decode(Utf8.Encode(encoded.value), Base64.Standard, Base64.Canonical);
      if decoded.None? {
        return Err(BytesNotBase64);
      }
      var text := Utf8.Decode(decoded.value);
      var event := if text.None? then None else codec.parse(text.value);
      if event.None? {
        return Err(PayloadNotJson);
      }
      var kind := AsStr(At(event.value, "type"));
      if kind.None? {
        return Err(NoEventType);
      }
      var outcome := messages.Dispatch(kind.value, event.value);
      return match outcome case Err(e) => Err(Protocol(e)) case Ok(v) => Ok(v);
    }

    /** The events of one frame. */
    method Frame(payload: seq<byte>) returns (r: Result<seq<StreamEvent>, InvokeError>)
      modifies messages
      ensures match OneFrame(codec, old(messages.Now()), payload)
              case Err(e) => r == Err(e)
              case Ok((s, events)) => r == Ok(events) && messages.Now() == s
    {
      if messages.closed {
        return Ok([]);
      }
      var text := Utf8.Decode(payload);
      if text.None? {
        return Err(FrameNotUtf8);
      }
      var event, data := FrameFields(text.value);
      if event.None? || data.None? {
        return Ok([]);
      }
      var parsed := codec.parse(data.value);
      if parsed.None? {
        return Err(FrameNotJson);
      }
      var message := AsStr(At(parsed.value, "message"));
      if event.value == "chunk" {
        r := ChunkEvents(parsed.value);
      } else if "exception:" <= event.value {
        var code := ExceptionCode(event.value[|"exception:"|..]);
        var events := messages.Fail(if code.None? then Internal else code.value, message);
        return Ok(events);
      } else if "error:" <= event.value {
        var events := messages.Fail(UpstreamUnavailable, message);
        return Ok(events);
      } else {
        return Ok([]);
      }
    }

    method ParseChunk(chunk: seq<byte>) returns (r: Result<seq<StreamEvent>, InvokeError>)
      modifies this, messages
      ensures chunk == [] ==>
                && tail == old(tail) && messages.Now() == Messages.EndOfStream(old(messages.Now())).0
                && r == Ok(Messages.EndOfStream(old(messages.Now())).1)
      ensures chunk != [] ==>
                match Drain(codec, old(messages.Now()), old(tail) + chunk)
                case Err(e) => r == Err(e)
                case Ok(d) => r == Ok(d.events) && tail == d.tail && messages.Now() == d.state
    {
      if chunk == [] {
        var last := messages.Settle();
        return Ok(last);
      }
      hide OneFrame, Boundary;
      tail := tail + chunk;
      var events := [];
      var boundary := Boundary(tail);
      ghost var goal := Drain(codec, messages.Now(), tail);
      AfterAfter([], [], goal);
      while boundary.Some?
        invariant boundary == Boundary(tail)
        invariant goal == After(events, Drain(codec, messages.Now(), tail))
        decreases |tail|
      {
        BoundaryInside(tail);
        var (payload, end) := boundary.value;
        var frame := tail[..end];
        assert frame[..payload] == tail[..payload];
        tail := tail[end..];
        var more := Frame(frame[..payload]);
        if more.Err? {
          return Err(more.error);
        }
        AfterAfter(events, more.value, Drain(codec, messages.Now(), tail));
        events := events + more.value;
        boundary := Boundary(tail);
      }
      assert events + [] == events;
      return Ok(events);
    }
  }
}
