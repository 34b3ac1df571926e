/** A stream parser over the event-stream splitter: the shape the Messages, Gemini and OpenAI
    parsers share. Events completed before a refusal are judged before it is reported. */
module SseParser {
  import opened Common
  import opened SseSplit

  /** What a wire makes of a frame, and of the clean end of the transport. */
  datatype Wire<!S, E, X> = Wire(frame: (S, Frame) -> Result<(S, seq<E>), X>, eof: S -> seq<E>)

  datatype ParseError<X> = Refused(error: X) | Split(reason: SplitError)

  datatype Progress<S, E> = Progress(splitter: State, wire: S, events: seq<E>)

  /** The wire's account of a list of frames, up to its first error. */
  function Judge<S, E, X>(w: Wire<S, E, X>, s: S, frames: seq<Frame>): Result<(S, seq<E>), X> {
    if frames == [] then Ok((s, []))
    else match Judge(w, s, frames[..|frames| - 1])
      case Err(x) => Err(x)
      case Ok((t, events)) =>
        match w.frame(t, frames[|frames| - 1])
        case Err(x) => Err(x)
        case Ok((u, more)) => Ok((u, events + more))
  }

  /** `parse_chunk` on a non-empty chunk. */
  function ParseChunk<S, E, X>(w: Wire<S, E, X>, p: Progress<S, E>, chunk: seq<byte>)
    : Result<Progress<S, E>, ParseError<X>>
  {
    var push := Push(p.splitter, chunk);
    match Judge(w, p.wire, push.frames)
    case Err(x) => Err(Refused(x))
    case Ok((s, events)) =>
      if push.error.Some? then Err(Split(push.error.value))
      else Ok(Progress(push.state, s, p.events + events))
  }

  /** The chunks read so far, none of which is empty: an empty one spells the end of the transport. */
  function Parse<S, E, X>(w: Wire<S, E, X>, s: S, chunks: seq<seq<byte>>): Result<Progress<S, E>, ParseError<X>> {
    if chunks == [] then Ok(Progress(INITIAL, s, []))
    else match Parse(w, s, chunks[..|chunks| - 1])
      case Err(x) => Err(x)
      case Ok(p) => ParseChunk(w, p, chunks[|chunks| - 1])
  }

  /** `parse_chunk` on the empty chunk that spells the end of the transport. */
  function AtEnd<S, E, X>(w: Wire<S, E, X>, p: Progress<S, E>): Result<seq<E>, ParseError<X>> {
    match Finish(p.splitter)
    case Err(e) => Err(Split(e))
    case Ok(None) => Ok(p.events + w.eof(p.wire))
    case Ok(Some(frame)) =>
      match w.frame(p.wire, frame)
      case Err(x) => Err(Refused(x))
      case Ok((s, more)) => Ok(p.events + more + w.eof(s))
  }

  /** A whole stream: every event, or the first error. */
  function Stream<S, E, X>(w: Wire<S, E, X>, s: S, chunks: seq<seq<byte>>): Result<seq<E>, ParseError<X>> {
    match Parse(w, s, chunks)
    case Err(x) => Err(x)
    case Ok(p) => AtEnd(w, p)
  }

  lemma {:induction false} JudgeAppend<S, E, X>(w: Wire<S, E, X>, s: S, a: seq<Frame>, b: seq<Frame>)
    ensures Judge(w, s, a + b)
         == match Judge(w, s, a)
            case Err(x) => Err(x)
            case Ok((t, events)) =>
              match Judge(w, t, b)
              case Err(x) => Err(x)
              case Ok((u, more)) => Ok((u, events + more))
  {
    if b == [] {
      assert a + b == a;
      if Judge(w, s, a).Ok? {
        assert Judge(w, s, a).value.1 + [] == Judge(w, s, a).value.1;
      }
    } else {
      assert (a + b)[..|a + b| - 1] == a + b[..|b| - 1];
      JudgeAppend(w, s, a, b[..|b| - 1]);
      match Judge(w, s, a)
      case Err(_) =>
      case Ok((t, events)) =>
        match Judge(w, t, b[..|b| - 1])
        case Err(_) =>
        case Ok((u, more)) =>
          match w.frame(u, b[|b| - 1])
          case Err(_) =>
          case Ok((_, last)) => assert events + (more + last) == (events + more) + last;
    }
  }

  /** What a caller reports of the splitter's whole output. */
  function Report<S, E, X>(w: Wire<S, E, X>, s: S, o: Out): Result<Progress<S, E>, ParseError<X>> {
    match Judge(w, s, o.frames)
    case Err(x) => Err(Refused(x))
    case Ok((t, events)) =>
      if o.error.Some? then Err(Split(o.error.value)) else Ok(Progress(o.state, t, events))
  }

  /** Judging chunk by chunk reports the first error in byte order. */
  lemma {:induction false} ParseReports<S, E, X>(w: Wire<S, E, X>, s: S, chunks: seq<seq<byte>>)
    ensures Parse(w, s, chunks) == Report(w, s, Pushes(chunks))
  {
    hide Push;
    if chunks != [] {
      var init, c := chunks[..|chunks| - 1], chunks[|chunks| - 1];
      ParseReports(w, s, init);
      var before := Pushes(init);
      if before.error.None? {
        var push := Push(before.state, c);
        JudgeAppend(w, s, before.frames, push.frames);
      }
    }
  }

  /** However a stream is cut into chunks, its parser gives the same events or the same first error,
      when no line over the bound slips through whole. */
  lemma ChunkingIrrelevant<S, E, X>(w: Wire<S, E, X>, s: S, a: seq<seq<byte>>, b: seq<seq<byte>>)
    requires Flatten(a) == Flatten(b) && !HidesLongLine(Flatten(a))
    ensures Stream(w, s, a) == Stream(w, s, b)
  {
    ParseReports(w, s, a);
    ParseReports(w, s, b);
    PushesAreBytes(a);
    PushesAreBytes(b);
  }

  /** A stream the parser accepts is the wire's account of every frame the splitter saw, the one it
      still held at the end included, and then of the end itself. */
  lemma StreamJudges<S, E, X>(w: Wire<S, E, X>, s: S, chunks: seq<seq<byte>>)
    requires Stream(w, s, chunks).Ok?
    ensures var seen := Ended(Pushes(chunks));
            && seen.error.None? && Judge(w, s, seen.frames).Ok?
            && var (t, events) := Judge(w, s, seen.frames).value; Stream(w, s, chunks).value == events + w.eof(t)
  {
    hide Finish, Pushes;
    ParseReports(w, s, chunks);
    var o := Pushes(chunks);
    if Finish(o.state).value.Some? {
      var frame := Finish(o.state).value.value;
      assert (o.frames + [frame])[..|o.frames|] == o.frames;
    }
  }

  /** The loop of `parse_chunk` over the frames a push completed. */
  method JudgeFrames<S, E, X>(w: Wire<S, E, X>, s: S, frames: seq<Frame>) returns (r: Result<(S, seq<E>), X>)
    ensures r == Judge(w, s, frames)
  {
    var state, events := s, [];
    for i := 0 to |frames|
      invariant Judge(w, s, frames[..i]) == Ok((state, events))
    {
      assert frames[..i + 1][..i] == frames[..i];
      var step := w.frame(state, frames[i]);
      if step.Err? {
        JudgeAppend(w, s, frames[..i + 1], frames[i + 1..]);
        assert frames[..i + 1] + frames[i + 1..] == frames;
        return Err(step.error);
      }
      state, events := step.value.0, events + step.value.1;
    }
    assert frames[..|frames|] == frames;
    return Ok((state, events));
  }
}
