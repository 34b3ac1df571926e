/** The three event-stream wires over the splitter: from raw bytes, however chunked, to events. */
module Wires {
  import opened Common
  import opened Json
  import opened Events
  import opened SseParser
  import SseSplit
  import SseLines
  import Utf8
  import Messages
  import Gemini
  import OpenAi
  import InvokeEnvelope

  /** The text of a frame's field. */
  function TextOf(bytes: seq<byte>): string {
    match Utf8.Decode(bytes) case None => "" case Some(s) => s
  }

  /** Every frame a stream dispatches has a text for each field, and the text has the field's bytes. */
  lemma FrameTexts(chunks: seq<seq<byte>>, f: SseSplit.Frame)
    requires f in SseSplit.Ended(SseSplit.Pushes(chunks)).frames
    ensures Utf8.Decode(f.event) == Some(TextOf(f.event)) && Utf8.Decode(f.data) == Some(TextOf(f.data))
    ensures Utf8.Encode(TextOf(f.event)) == f.event && Utf8.Encode(TextOf(f.data)) == f.data
  {
    hide Utf8.Decode, Utf8.Encode, SseSplit.Ended, SseSplit.Pushes;
    SseLines.FramesAreText(chunks, f);
    Utf8.EncodeDecoded(f.event);
    Utf8.EncodeDecoded(f.data);
  }

  datatype FrameError<X> = InvalidJson | Protocol(error: X)

  // ----- Messages

  function MessagesFrame(codec: Codec, s: Messages.State, frame: SseSplit.Frame)
    : Result<(Messages.State, seq<StreamEvent>), FrameError<Messages.ProtocolError>>
  {
    var event := TextOf(frame.event);
    if event == "message" then Ok((s, []))
    else match codec.parse(TextOf(frame.data))
      case None => Err(InvalidJson)
      case Some(data) =>
        match Messages.EventsOf(s, event, data)
        case Step(_, Err(e)) => Err(Protocol(e))
        case Step(s', Ok(events)) => Ok((s', events))
  }

  function MessagesWire(codec: Codec): Wire<Messages.State, StreamEvent, FrameError<Messages.ProtocolError>> {
    Wire((s, frame) => MessagesFrame(codec, s, frame), (s: Messages.State) => Messages.EndOfStream(s).1)
  }

  /** The inputs the frames give the Messages machine. */
  function MessagesInputs(codec: Codec, frames: seq<SseSplit.Frame>): seq<Messages.Input> {
    if frames == [] then []
    else
      var frame := frames[|frames| - 1];
      MessagesInputs(codec, frames[..|frames| - 1])
      + if TextOf(frame.event) == "message" then []
        else match codec.parse(TextOf(frame.data))
          case None => []
          case Some(data) => [Messages.Event(TextOf(frame.event), data)]
  }

  lemma RunSnoc(inputs: seq<Messages.Input>, input: Messages.Input)
    requires Messages.Run(inputs).Ok? && input.Event?
    ensures Messages.Run(inputs + [input])
         == var (s, events) := Messages.Run(inputs).value;
            match Messages.EventsOf(s, input.name, input.data)
            case Step(_, Err(e)) => Err(e)
            case Step(s', Ok(more)) => Ok((s', events + more))
  {
    assert (inputs + [input])[..|inputs + [input]| - 1] == inputs;
    var (s, events) := Messages.Run(inputs).value;
    if s.closed {
      assert Messages.EventsOf(s, input.name, input.data) == Messages.Step(s, Ok([]));
      assert events + [] == events;
    }
  }

  lemma {:induction false} MessagesJudged(codec: Codec, frames: seq<SseSplit.Frame>)
    requires Judge(MessagesWire(codec), Messages.INITIAL, frames).Ok?
    ensures Messages.Run(MessagesInputs(codec, frames)).Ok?
    ensures Messages.Run(MessagesInputs(codec, frames)).value
         == Judge(MessagesWire(codec), Messages.INITIAL, frames).value
  {
    if frames != [] {
      var init, frame := frames[..|frames| - 1], frames[|frames| - 1];
      MessagesJudged(codec, init);
      hide Messages.Run, Messages.EventsOf;
      var inputs := MessagesInputs(codec, init);
      var (s, events) := Messages.Run(inputs).value;
      if TextOf(frame.event) == "message" {
        assert inputs + [] == inputs && events + [] == events;
      } else {
        RunSnoc(inputs, Messages.Event(TextOf(frame.event), codec.parse(TextOf(frame.data)).value));
      }
    }
  }

  /** An accepted Messages byte stream is a whole run of the machine, so every finish settles, every
      `Done` closes one, and nothing follows an error. */
  lemma MessagesStream(codec: Codec, chunks: seq<seq<byte>>)
    requires Stream(MessagesWire(codec), Messages.INITIAL, chunks).Ok?
    ensures var events := Stream(MessagesWire(codec), Messages.INITIAL, chunks).value;
            && Messages.WholeRun(MessagesInputs(codec, SseSplit.Ended(SseSplit.Pushes(chunks)).frames)) == Ok(events)
            && FinishesSettle(events) && DonesClose(events) && ErrorIsLast(events)
  {
    hide Judge, Stream, MessagesInputs, Messages.Run, SseSplit.Ended, SseSplit.Pushes, Messages.EndOfStream;
    var frames := SseSplit.Ended(SseSplit.Pushes(chunks)).frames;
    StreamJudges(MessagesWire(codec), Messages.INITIAL, chunks);
    MessagesJudged(codec, frames);
    Messages.WholeRunSettles(MessagesInputs(codec, frames));
  }

  // ----- Gemini

  type GeminiState = s: Gemini.State | |s.counts| == |Gemini.KEYS| witness Gemini.INITIAL

  function GeminiFrame(codec: Codec, s: GeminiState, frame: SseSplit.Frame)
    : Result<(GeminiState, seq<StreamEvent>), FrameError<Gemini.GeminiError>>
  {
    match codec.parse(TextOf(frame.data))
    case None => Err(InvalidJson)
    case Some(data) =>
      match Gemini.EventsOf(codec, s, data)
      case Err(e) => Err(Protocol(e))
      case Ok((s', events)) => Ok((s', events))
  }

  function GeminiWire(codec: Codec): Wire<GeminiState, StreamEvent, FrameError<Gemini.GeminiError>> {
    Wire((s, frame) => GeminiFrame(codec, s, frame), s => [])
  }

  function Documents(codec: Codec, frames: seq<SseSplit.Frame>): seq<Value> {
    if frames == [] then []
    else
      Documents(codec, frames[..|frames| - 1])
      + match codec.parse(TextOf(frames[|frames| - 1].data)) case None => [] case Some(data) => [data]
  }

  lemma {:induction false} GeminiJudged(codec: Codec, frames: seq<SseSplit.Frame>)
    requires Judge(GeminiWire(codec), Gemini.INITIAL, frames).Ok?
    ensures Gemini.Run(codec, Documents(codec, frames)).Ok?
    ensures Gemini.Run(codec, Documents(codec, frames)).value == Judge(GeminiWire(codec), Gemini.INITIAL, frames).value
  {
    hide Gemini.EventsOf;
    if frames != [] {
      var init, frame := frames[..|frames| - 1], frames[|frames| - 1];
      GeminiJudged(codec, init);
      var before, data := Documents(codec, init), codec.parse(TextOf(frame.data)).value;
      assert (before + [data])[..|before|] == before;
    }
  }

  /** An accepted Gemini byte stream is a run of the machine: content, then nothing or a terminal. */
  lemma GeminiStream(codec: Codec, chunks: seq<seq<byte>>)
    requires Stream(GeminiWire(codec), Gemini.INITIAL, chunks).Ok?
    ensures var events := Stream(GeminiWire(codec), Gemini.INITIAL, chunks).value;
            var documents := Documents(codec, SseSplit.Ended(SseSplit.Pushes(chunks)).frames);
            && Gemini.Run(codec, documents).Ok? && Gemini.Run(codec, documents).value.1 == events
            && var ended := Gemini.Run(codec, documents).value.0.terminated;
               exists n :: Gemini.ContentThenTerminal(events, documents, ended, n)
  {
    hide Judge, Stream, Documents, Gemini.Run, SseSplit.Ended, SseSplit.Pushes, Gemini.ContentThenTerminal;
    var frames := SseSplit.Ended(SseSplit.Pushes(chunks)).frames;
    StreamJudges(GeminiWire(codec), Gemini.INITIAL, chunks);
    GeminiJudged(codec, frames);
    Gemini.RunGrammar(codec, Documents(codec, frames));
    var events := Judge(GeminiWire(codec), Gemini.INITIAL, frames).value.1;
    assert events + [] == events;
  }

  // ----- OpenAI

  function OpenAiFrame(frame: SseSplit.Frame): OpenAi.Frame {
    OpenAi.Frame(TextOf(frame.event), TextOf(frame.data))
  }

  function OpenAiWire(codec: Codec): Wire<OpenAi.Pending, StreamEvent, OpenAi.WireError> {
    Wire((p, frame) => OpenAi.FrameEvents(codec, p, OpenAiFrame(frame)), p => OpenAi.Flushed(p).1)
  }

  function OpenAiFrames(frames: seq<SseSplit.Frame>): seq<OpenAi.Frame> {
    if frames == [] then [] else OpenAiFrames(frames[..|frames| - 1]) + [OpenAiFrame(frames[|frames| - 1])]
  }

  lemma {:induction false} OpenAiJudged(codec: Codec, frames: seq<SseSplit.Frame>)
    ensures OpenAi.Run(codec, OpenAiFrames(frames)) == Judge(OpenAiWire(codec), OpenAi.INITIAL, frames)
  {
    hide OpenAi.FrameEvents, OpenAiFrame;
    if frames != [] {
      var init, frame := frames[..|frames| - 1], frames[|frames| - 1];
      OpenAiJudged(codec, init);
      assert OpenAiFrames(frames)[..|OpenAiFrames(init)|] == OpenAiFrames(init);
    }
  }

  /** An accepted OpenAI byte stream is a whole run: its finishes settle, every `Done` closes one
      exactly when no marker stands alone, and the finishes are exactly those of the frames whose
      finish no later one took the place of. */
  lemma OpenAiStream(codec: Codec, chunks: seq<seq<byte>>)
    requires Stream(OpenAiWire(codec), OpenAi.INITIAL, chunks).Ok?
    ensures var events := Stream(OpenAiWire(codec), OpenAi.INITIAL, chunks).value;
            var frames := OpenAiFrames(SseSplit.Ended(SseSplit.Pushes(chunks)).frames);
            && OpenAi.WholeRun(codec, frames).Ok? && OpenAi.WholeRun(codec, frames).value.1 == events
            && FinishesSettle(events)
            && (DonesClose(events) <==> OpenAi.LoneMarkers(codec, frames) == 0)
            && OpenAi.Reasons(events) == OpenAi.LiveReasons(codec, frames, |frames|)
  {
    hide Judge, Stream, OpenAiFrames, OpenAi.Run, SseSplit.Ended, SseSplit.Pushes, OpenAi.Flushed, OpenAi.Live,
      OpenAi.LiveReasons, FinishesSettle, OpenAi.Reasons, DonesClose, OpenAi.LoneMarkers;
    var frames := SseSplit.Ended(SseSplit.Pushes(chunks)).frames;
    StreamJudges(OpenAiWire(codec), OpenAi.INITIAL, chunks);
    OpenAiJudged(codec, frames);
    OpenAi.WholeRunExact(codec, OpenAiFrames(frames));
    OpenAi.WholeRunReasons(codec, OpenAiFrames(frames));
    OpenAi.LoneMarkersExact(codec, OpenAiFrames(frames));
  }

  /** The field names of the event-stream format, the name of an unnamed event and the mark a stream
      may begin with are the bytes the splitter looks for. */
  lemma NamesSpelled()
    ensures Utf8.Encode("event") == SseSplit.EVENT && Utf8.Encode("data") == SseSplit.DATA
    ensures Utf8.Encode("message") == SseSplit.MESSAGE && Utf8.Encode("\U{FEFF}") == SseSplit.BOM
  {
    InvokeEnvelope.EncodeAscii("event");
    InvokeEnvelope.EncodeAscii("data");
    InvokeEnvelope.EncodeAscii("message");
    hide Utf8.Encode;
    MarkSpelled();
  }

  lemma MarkSpelled()
    ensures Utf8.Encode("\U{FEFF}") == SseSplit.BOM
  {
    assert "\U{FEFF}"[1..] == "";
  }
}
