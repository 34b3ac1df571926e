/** What the content events of an OpenAI chat stream carry, read off its frames. */
module OpenAiContent {
  import opened Common
  import opened Json
  import opened Events
  import opened OpenAi

  // ----- texts by channel

  /** One text a stream sends in pieces: the answer or the reasoning of a choice. */
  datatype Channel = Answer(choice: nat) | Reasoning(choice: nat)

  function Sent(e: StreamEvent, c: Channel): string {
    match c
    case Answer(i) => if e.Delta? && e.index == i then e.content else ""
    case Reasoning(i) => if e.ThinkingDelta? && e.index == i && e.blockIndex == 0 then e.thinking else ""
  }

  function AllSent(events: seq<StreamEvent>, c: Channel): string {
    if events == [] then "" else AllSent(events[..|events| - 1], c) + Sent(events[|events| - 1], c)
  }

  function Member(v: Value, name: string): string {
    if At(v, name).Str? then At(v, name).s else ""
  }

  /** The position a document names: a number within 32 bits, and otherwise zero. */
  function Position(v: Value): nat {
    var at := At(v, "index");
    if at.Int? && 0 <= at.i <= 0xFFFF_FFFF then at.i else 0
  }

  /** The piece a choice brings: its content, or its reasoning under either of its two names. */
  function Brought(choice: Value, c: Channel): string {
    var delta := At(choice, "delta");
    if Position(choice) != c.choice then ""
    else match c
      case Answer(_) => Member(delta, "content")
      case Reasoning(_) =>
        if At(delta, "reasoning_content").Str? then Member(delta, "reasoning_content") else Member(delta, "reasoning")
  }

  function AllBrought(choices: seq<Value>, c: Channel): string {
    if choices == [] then "" else AllBrought(choices[..|choices| - 1], c) + Brought(choices[|choices| - 1], c)
  }

  /** The choices of a frame that carries a document. */
  function ChoicesOf(codec: Codec, frame: Frame): seq<Value> {
    if frame.event == "error" || frame.data == "[DONE]" then []
    else match codec.parse(frame.data)
      case None => []
      case Some(raw) => if At(raw, "choices").Arr? then At(raw, "choices").elems else []
  }

  function AllChoices(codec: Codec, frames: seq<Frame>): seq<Value> {
    if frames == [] then []
    else AllChoices(codec, frames[..|frames| - 1]) + ChoicesOf(codec, frames[|frames| - 1])
  }

  lemma {:induction false} AllSentAppend(a: seq<StreamEvent>, b: seq<StreamEvent>, c: Channel)
    ensures AllSent(a + b, c) == AllSent(a, c) + AllSent(b, c)
  {
    hide Sent;
    if b == [] {
      assert a + b == a;
    } else {
      assert (a + b)[..|a + b| - 1] == a + b[..|b| - 1];
      AllSentAppend(a, b[..|b| - 1], c);
    }
  }

  lemma {:induction false} AllBroughtAppend(a: seq<Value>, b: seq<Value>, c: Channel)
    ensures AllBrought(a + b, c) == AllBrought(a, c) + AllBrought(b, c)
  {
    hide Brought;
    if b == [] {
      assert a + b == a;
    } else {
      assert (a + b)[..|a + b| - 1] == a + b[..|b| - 1];
      AllBroughtAppend(a, b[..|b| - 1], c);
    }
  }

  lemma {:induction false} NothingSent(events: seq<StreamEvent>, c: Channel)
    requires forall i :: 0 <= i < |events| ==> Sent(events[i], c) == ""
    ensures AllSent(events, c) == ""
  {
    hide Sent;
    if events != [] {
      NothingSent(events[..|events| - 1], c);
    }
  }

  lemma OneSent(e: StreamEvent, c: Channel)
    ensures AllSent([e], c) == Sent(e, c)
  {
    assert [e][..0] == [];
  }

  lemma {:induction false} CallsSendNothing(calls: seq<Value>, c: Channel)
    ensures AllSent(CallEvents(calls), c) == ""
  {
    if calls != [] {
      CallsSendNothing(calls[..|calls| - 1], c);
      assert CallEvents(calls)[..|CallEvents(calls)| - 1] == CallEvents(calls[..|calls| - 1]);
    }
  }

  lemma TextSends(v: Value, event: StreamEvent, c: Channel)
    ensures AllSent(TextEvent(v, event), c) == if v.Str? && v.s != "" then Sent(event, c) else ""
  {
    OneSent(event, c);
  }

  lemma PositionIs(v: Value)
    ensures IndexOf(At(v, "index")) == Position(v)
  {
  }

  /** A choice sends what it brings. */
  lemma ChoiceSends(choice: Value, c: Channel)
    ensures AllSent(ChoiceEvents(choice), c) == Brought(choice, c)
  {
    hide AllSent, CallEvents, TextEvent;
    PositionIs(choice);
    hide IndexOf, Position;
    var index, delta := IndexOf(At(choice, "index")), At(choice, "delta");
    var spelled, content := At(delta, "reasoning_content"), At(delta, "content");
    var thinking := if spelled.Str? then spelled else At(delta, "reasoning");
    var first := TextEvent(thinking, ThinkingDelta(index, 0, StrOr(thinking, "")));
    var second := TextEvent(content, Delta(index, StrOr(content, "")));
    var calls := Elements(At(delta, "tool_calls"));
    AllSentAppend(first + second, CallEvents(calls), c);
    AllSentAppend(first, second, c);
    CallsSendNothing(calls, c);
    TextSends(thinking, ThinkingDelta(index, 0, StrOr(thinking, "")), c);
    TextSends(content, Delta(index, StrOr(content, "")), c);
  }

  lemma {:induction false} ChoicesSend(p: Pending, choices: seq<Value>, c: Channel)
    ensures AllSent(Choices(p, choices).1, c) == AllBrought(choices, c)
  {
    hide ChoiceEvents, Brought, Sent, ChoiceReason;
    if choices != [] {
      var init, choice := choices[..|choices| - 1], choices[|choices| - 1];
      ChoicesSend(p, init, c);
      ChoiceSends(choice, c);
      AllSentAppend(Choices(p, init).1, ChoiceEvents(choice), c);
    }
  }

  /** An accepted frame sends what its choices bring. */
  lemma FrameSends(codec: Codec, p: Pending, frame: Frame, c: Channel)
    requires FrameEvents(codec, p, frame).Ok?
    ensures AllSent(FrameEvents(codec, p, frame).value.1, c) == AllBrought(ChoicesOf(codec, frame), c)
  {
    hide AllSent, AllBrought, Choices, UsageOf, Marked;
    if frame.event == "error" {
      NothingSent([Error(ProviderProtocolError, None)], c);
      NothingBrought(c);
    } else if frame.data == "[DONE]" {
      MarkedIs(p);
      NothingSent(Marked(p).1, c);
      NothingBrought(c);
    } else {
      var raw := codec.parse(frame.data).value;
      var choices := ChoicesOf(codec, frame);
      ChoicesSend(p, choices, c);
      var (q, events) := Choices(p, choices);
      if At(raw, "usage").Obj? {
        var more := Settled(q, UsageOf(At(raw, "usage")).value).1;
        NothingSent(more, c);
        AllSentAppend(events, more, c);
      }
    }
  }

  lemma NothingBrought(c: Channel)
    ensures AllBrought([], c) == ""
  {
  }

  /** On every channel, the pieces of an accepted stream are those its choices bring, in order. */
  lemma {:induction false} RunSends(codec: Codec, frames: seq<Frame>, c: Channel)
    requires Run(codec, frames).Ok?
    ensures AllSent(Run(codec, frames).value.1, c) == AllBrought(AllChoices(codec, frames), c)
  {
    hide FrameEvents, Sent, Brought, ChoicesOf;
    if frames != [] {
      var init, frame := frames[..|frames| - 1], frames[|frames| - 1];
      RunSends(codec, init, c);
      var (p, events) := Run(codec, init).value;
      FrameSends(codec, p, frame, c);
      AllSentAppend(events, FrameEvents(codec, p, frame).value.1, c);
      AllBroughtAppend(AllChoices(codec, init), ChoicesOf(codec, frame), c);
    }
  }

  // ----- call deltas

  datatype CallPiece = CallPiece(position: nat, id: Option<string>, name: Option<string>, arguments: string)

  function PieceOf(e: StreamEvent): seq<CallPiece> {
    if e.ToolCallDelta? then [CallPiece(e.callIndex, e.id, e.name, e.arguments)] else []
  }

  function Pieces(events: seq<StreamEvent>): seq<CallPiece> {
    if events == [] then [] else Pieces(events[..|events| - 1]) + PieceOf(events[|events| - 1])
  }

  /** The piece of a call a `tool_calls` element brings. */
  function CallBrought(call: Value): CallPiece {
    CallPiece(Position(call), AsStr(At(call, "id")), AsStr(At(At(call, "function"), "name")),
              Member(At(call, "function"), "arguments"))
  }

  function CallsBrought(calls: seq<Value>): seq<CallPiece> {
    if calls == [] then [] else CallsBrought(calls[..|calls| - 1]) + [CallBrought(calls[|calls| - 1])]
  }

  function ChoiceCalls(choice: Value): seq<Value> {
    var calls := At(At(choice, "delta"), "tool_calls");
    if calls.Arr? then calls.elems else []
  }

  /** The call pieces the choices bring, in order. */
  function AllCalls(choices: seq<Value>): seq<CallPiece> {
    if choices == [] then []
    else AllCalls(choices[..|choices| - 1]) + CallsBrought(ChoiceCalls(choices[|choices| - 1]))
  }

  lemma {:induction false} PiecesAppend(a: seq<StreamEvent>, b: seq<StreamEvent>)
    ensures Pieces(a + b) == Pieces(a) + Pieces(b)
  {
    hide PieceOf;
    if b == [] {
      assert a + b == a;
    } else {
      assert (a + b)[..|a + b| - 1] == a + b[..|b| - 1];
      PiecesAppend(a, b[..|b| - 1]);
    }
  }

  lemma {:induction false} NoPieces(events: seq<StreamEvent>)
    requires forall i :: 0 <= i < |events| ==> !events[i].ToolCallDelta?
    ensures Pieces(events) == []
  {
    if events != [] {
      NoPieces(events[..|events| - 1]);
    }
  }

  lemma {:induction false} AllCallsAppend(a: seq<Value>, b: seq<Value>)
    ensures AllCalls(a + b) == AllCalls(a) + AllCalls(b)
  {
    hide CallsBrought, ChoiceCalls;
    if b == [] {
      assert a + b == a;
    } else {
      assert (a + b)[..|a + b| - 1] == a + b[..|b| - 1];
      AllCallsAppend(a, b[..|b| - 1]);
    }
  }

  lemma CallEventIs(call: Value)
    ensures PieceOf(CallEvent(call)) == [CallBrought(call)]
  {
    PositionIs(call);
  }

  lemma {:induction false} CallEventsSay(calls: seq<Value>)
    ensures Pieces(CallEvents(calls)) == CallsBrought(calls)
  {
    hide CallEvent, PieceOf, CallBrought;
    if calls != [] {
      CallEventsSay(calls[..|calls| - 1]);
      CallEventIs(calls[|calls| - 1]);
      assert CallEvents(calls)[..|CallEvents(calls)| - 1] == CallEvents(calls[..|calls| - 1]);
    }
  }

  lemma ChoiceCallsSay(choice: Value)
    ensures Pieces(ChoiceEvents(choice)) == CallsBrought(ChoiceCalls(choice))
  {
    hide CallEvents, Pieces, IndexOf;
    var index, delta := IndexOf(At(choice, "index")), At(choice, "delta");
    var spelled, content := At(delta, "reasoning_content"), At(delta, "content");
    var thinking := if spelled.Str? then spelled else At(delta, "reasoning");
    var first := TextEvent(thinking, ThinkingDelta(index, 0, StrOr(thinking, "")));
    var second := TextEvent(content, Delta(index, StrOr(content, "")));
    PiecesAppend(first + second, CallEvents(ChoiceCalls(choice)));
    NoPieces(first + second);
    CallEventsSay(ChoiceCalls(choice));
    assert [] + CallsBrought(ChoiceCalls(choice)) == CallsBrought(ChoiceCalls(choice));
  }

  lemma {:induction false} ChoicesSay(p: Pending, choices: seq<Value>)
    ensures Pieces(Choices(p, choices).1) == AllCalls(choices)
  {
    hide ChoiceEvents, PieceOf, ChoiceReason, ChoiceCalls, CallsBrought;
    if choices != [] {
      var init, choice := choices[..|choices| - 1], choices[|choices| - 1];
      ChoicesSay(p, init);
      ChoiceCallsSay(choice);
      PiecesAppend(Choices(p, init).1, ChoiceEvents(choice));
    }
  }

  lemma FrameSays(codec: Codec, p: Pending, frame: Frame)
    requires FrameEvents(codec, p, frame).Ok?
    ensures Pieces(FrameEvents(codec, p, frame).value.1) == AllCalls(ChoicesOf(codec, frame))
  {
    hide Pieces, AllCalls, Choices, UsageOf, Marked;
    assert AllCalls([]) == [] by {
      NoCalls();
    }
    if frame.event == "error" {
      NoPieces([Error(ProviderProtocolError, None)]);
    } else if frame.data == "[DONE]" {
      MarkedIs(p);
      NoPieces(Marked(p).1);
    } else {
      var raw := codec.parse(frame.data).value;
      var choices := ChoicesOf(codec, frame);
      ChoicesSay(p, choices);
      var (q, events) := Choices(p, choices);
      if At(raw, "usage").Obj? {
        var more := Settled(q, UsageOf(At(raw, "usage")).value).1;
        NoPieces(more);
        PiecesAppend(events, more);
      }
    }
  }

  lemma NoCalls()
    ensures AllCalls([]) == []
  {
  }

  /** The call deltas of an accepted stream are those its choices bring, in order. */
  lemma {:induction false} RunSays(codec: Codec, frames: seq<Frame>)
    requires Run(codec, frames).Ok?
    ensures Pieces(Run(codec, frames).value.1) == AllCalls(AllChoices(codec, frames))
  {
    hide FrameEvents, PieceOf, ChoicesOf;
    if frames != [] {
      var init, frame := frames[..|frames| - 1], frames[|frames| - 1];
      RunSays(codec, init);
      var (p, events) := Run(codec, init).value;
      FrameSays(codec, p, frame);
      PiecesAppend(events, FrameEvents(codec, p, frame).value.1);
      AllCallsAppend(AllChoices(codec, init), ChoicesOf(codec, frame));
    }
  }

  // ----- the words of a finish

  /** The wire's word for a finish reason. */
  function Spelling(r: FinishReason): string {
    match r
    case Stop => "stop"
    case Length => "length"
    case ToolCalls => "tool_calls"
    case StopSequence => ""
    case ContentFilter => "content_filter"
    case Other(raw) => raw
  }

  /** The reason of a finish says the wire's word, and in its own name when there is one. */
  lemma ReasonSpells(raw: string)
    ensures Spelling(FinishReasonOf(raw)) == raw
    ensures FinishReasonOf(raw).Other? <==> raw !in {"stop", "length", "tool_calls", "content_filter"}
  {
  }

  /** The end of input sends nothing more. */
  lemma WholeRunSends(codec: Codec, frames: seq<Frame>, c: Channel)
    requires WholeRun(codec, frames).Ok?
    ensures AllSent(WholeRun(codec, frames).value.1, c) == AllBrought(AllChoices(codec, frames), c)
    ensures Pieces(WholeRun(codec, frames).value.1) == AllCalls(AllChoices(codec, frames))
  {
    RunSends(codec, frames, c);
    RunSays(codec, frames);
    hide Run, AllChoices, AllBrought, AllSent, Pieces, AllCalls;
    var (p, events) := Run(codec, frames).value;
    FlushSends(p, c);
    hide Flushed;
    var last := Flushed(p).1;
    AllSentAppend(events, last, c);
    PiecesAppend(events, last);
  }

  lemma FlushSends(p: Pending, c: Channel)
    ensures AllSent(Flushed(p).1, c) == "" && Pieces(Flushed(p).1) == []
  {
    MarkedIs(p);
    NothingSent(Flushed(p).1, c);
    NoPieces(Flushed(p).1);
  }

  // ----- written usage

  /** The prompt details of a written usage object, in the marked cache mode or not. */
  function WritePrompt(c: Counts): Value {
    if c.marked then
      Obj(map["cached_tokens" := Int(c.cached), "cache_creation_input_tokens" := Int(c.written),
              "orchestration_input_tokens" := Int(c.extraInput),
              "orchestration_input_cached_tokens" := Int(c.extraCached)])
    else
      Obj(map["cached_tokens" := Int(c.cached), "cache_write_tokens" := Int(c.written),
              "orchestration_input_tokens" := Int(c.extraInput),
              "orchestration_input_cached_tokens" := Int(c.extraCached)])
  }

  function WriteCompletion(c: Counts): Value {
    Obj(map["reasoning_tokens" := Int(c.reasoning), "orchestration_output_tokens" := Int(c.extraOutput)])
  }

  /** A usage object as the wire writes it. */
  function WriteUsage(c: Counts): Value {
    Obj(map["prompt_tokens" := Int(c.prompt), "completion_tokens" := Int(c.completion),
            "total_tokens" := Int(c.total), "prompt_tokens_details" := WritePrompt(c),
            "completion_tokens_details" := WriteCompletion(c)])
  }

  predicate InRange(c: Counts) {
    && c.prompt <= U64_MAX && c.completion <= U64_MAX && c.total <= U64_MAX && c.extraInput <= U64_MAX
    && c.extraCached <= U64_MAX && c.extraOutput <= U64_MAX && c.cached <= U64_MAX && c.written <= U64_MAX
    && c.reasoning <= U64_MAX
  }

  lemma PromptReads(c: Counts, raw: Value)
    requires InRange(c)
    ensures var p := WritePrompt(c);
            && OptionalCount(p, "orchestration_input_tokens") == Ok(c.extraInput)
            && OptionalCount(p, "orchestration_input_cached_tokens") == Ok(c.extraCached)
            && CachedOf(raw, p) == Ok(c.cached) && WrittenOf(p) == Ok(c.written)
            && (Get(p, "cache_creation_input_tokens").Some? <==> c.marked) && p.Obj?
  {
  }

  lemma CompletionReads(c: Counts)
    requires InRange(c)
    ensures OptionalCount(WriteCompletion(c), "orchestration_output_tokens") == Ok(c.extraOutput)
    ensures OptionalCount(WriteCompletion(c), "reasoning_tokens") == Ok(c.reasoning) && WriteCompletion(c).Obj?
  {
  }

  lemma TopReads(c: Counts)
    requires InRange(c)
    ensures var raw := WriteUsage(c);
            && raw.Obj? && Required(raw, "prompt_tokens") == Ok(c.prompt)
            && Required(raw, "completion_tokens") == Ok(c.completion) && Required(raw, "total_tokens") == Ok(c.total)
            && At(raw, "prompt_tokens_details") == WritePrompt(c)
            && At(raw, "completion_tokens_details") == WriteCompletion(c)
  {
    hide WritePrompt, WriteCompletion;
  }

  /** Written counts are read back. */
  lemma CountsRead(c: Counts)
    requires InRange(c)
    ensures ReadCounts(WriteUsage(c)) == Some(c)
  {
    TopReads(c);
    PromptReads(c, WriteUsage(c));
    CompletionReads(c);
    hide WriteUsage, WritePrompt, WriteCompletion, Required, OptionalCount, CachedOf, WrittenOf, Get, At;
  }

  /** A written usage object is accepted exactly when its counts add up, and then reads as: both
      orchestration counts folded in, the cached and the written part, and in the marked mode every
      cached token an explicit read. */
  lemma UsageWritten(c: Counts)
    requires InRange(c)
    ensures UsageOf(WriteUsage(c)).Ok? <==> Adds(c)
    ensures Adds(c) ==>
              UsageOf(WriteUsage(c)).value
              == Usage(c.prompt + c.extraInput, c.completion + c.extraOutput, c.cached + c.extraCached, c.written,
                       0, 0, c.reasoning, if c.marked then c.cached + c.extraCached else 0)
  {
    CountsRead(c);
    UsageExact(WriteUsage(c));
    if Adds(c) {
      UsageMeans(WriteUsage(c));
      NoTiers(WriteUsage(c));
    }
    hide UsageOf, ReadCounts, WriteUsage;
  }

  /** This wire has no cache tiers. */
  lemma NoTiers(raw: Value)
    requires UsageOf(raw).Ok?
    ensures UsageOf(raw).value.cacheWrite5m == 0 && UsageOf(raw).value.cacheWrite1h == 0
  {
    hide CachedOf, WrittenOf, OptionalCount, Required, Details;
  }

  /** A prompt without details has its cached part in `prompt_cache_hit_tokens`. */
  lemma HitsRead(prompt: nat, completion: nat, hits: nat)
    requires prompt + completion <= U64_MAX && hits <= prompt
    ensures var raw := Obj(map["prompt_tokens" := Int(prompt), "completion_tokens" := Int(completion),
                               "total_tokens" := Int(prompt + completion), "prompt_cache_hit_tokens" := Int(hits)]);
            UsageOf(raw) == Ok(Usage(prompt, completion, hits, 0, 0, 0, 0, 0))
  {
    var raw := Obj(map["prompt_tokens" := Int(prompt), "completion_tokens" := Int(completion),
                       "total_tokens" := Int(prompt + completion), "prompt_cache_hit_tokens" := Int(hits)]);
    assert Required(raw, "prompt_tokens") == Ok(prompt) && Required(raw, "completion_tokens") == Ok(completion);
    assert Required(raw, "total_tokens") == Ok(prompt + completion);
    assert Details(raw, "prompt_tokens_details") == Ok(Null) && Details(raw, "completion_tokens_details") == Ok(Null);
    assert OptionalCount(raw, "prompt_cache_hit_tokens") == Ok(hits);
    hide Required, Details;
    assert CachePart(raw, Null, Null, prompt, completion, 0) == Ok(Usage(prompt, completion, hits, 0, 0, 0, 0, 0));
    hide CachePart;
    assert TotalPart(raw, Null, Null, prompt, completion, prompt + completion)
        == Ok(Usage(prompt, completion, hits, 0, 0, 0, 0, 0));
  }

  // ----- which streams are accepted

  /** A document the stream takes: no error member, a usage object that can be read or none, and a
      list of choices, which may be left out beside usage. */
  predicate Takes(raw: Value) {
    var usage, choices := At(raw, "usage"), Get(raw, "choices");
    && At(raw, "error").Null?
    && (usage.Null? || (usage.Obj? && ReadCounts(usage).Some? && Adds(ReadCounts(usage).value)))
    && if choices.Some? then choices.value.Arr? else usage.Obj?
  }

  predicate TakesFrame(codec: Codec, frame: Frame) {
    || frame.event == "error" || frame.data == "[DONE]"
    || (codec.parse(frame.data).Some? && Takes(codec.parse(frame.data).value))
  }

  lemma FrameTaken(codec: Codec, p: Pending, frame: Frame)
    ensures FrameEvents(codec, p, frame).Ok? <==> TakesFrame(codec, frame)
  {
    hide Choices, UsageOf, ReadCounts, Adds;
    if frame.event != "error" && frame.data != "[DONE]" && codec.parse(frame.data).Some? {
      UsageExact(At(codec.parse(frame.data).value, "usage"));
    }
  }

  /** A stream is accepted exactly when each of its frames is, whatever came before it. */
  lemma {:induction false} RunTaken(codec: Codec, frames: seq<Frame>)
    ensures Run(codec, frames).Ok? <==> forall i :: 0 <= i < |frames| ==> TakesFrame(codec, frames[i])
  {
    hide FrameEvents, TakesFrame;
    if frames != [] {
      var init, frame := frames[..|frames| - 1], frames[|frames| - 1];
      RunTaken(codec, init);
      assert forall i :: 0 <= i < |init| ==> init[i] == frames[i];
      if Run(codec, init).Ok? {
        FrameTaken(codec, Run(codec, init).value.0, frame);
      }
    }
  }

  // ----- errors

  /** The error events, and what an error frame leaves: one error of the protocol each. */
  function Errors(events: seq<StreamEvent>): seq<StreamEvent> {
    if events == [] then []
    else
      var last := events[|events| - 1];
      Errors(events[..|events| - 1]) + (if last.Error? then [last] else [])
  }

  function ErrorFrames(frames: seq<Frame>): seq<StreamEvent> {
    if frames == [] then []
    else
      ErrorFrames(frames[..|frames| - 1])
      + (if frames[|frames| - 1].event == "error" then [Error(ProviderProtocolError, None)] else [])
  }

  lemma {:induction false} ErrorsAppend(a: seq<StreamEvent>, b: seq<StreamEvent>)
    ensures Errors(a + b) == Errors(a) + Errors(b)
  {
    if b == [] {
      assert a + b == a;
    } else {
      assert (a + b)[..|a + b| - 1] == a + b[..|b| - 1];
      ErrorsAppend(a, b[..|b| - 1]);
    }
  }

  lemma {:induction false} NoErrors(events: seq<StreamEvent>)
    requires NoError(events)
    ensures Errors(events) == []
  {
    if events != [] {
      NoErrors(events[..|events| - 1]);
    }
  }

  lemma {:induction false} ChoicesQuiet(p: Pending, choices: seq<Value>)
    ensures NoError(Choices(p, choices).1)
  {
    hide ChoiceEvents;
    if choices != [] {
      ChoicesQuiet(p, choices[..|choices| - 1]);
      ChoiceContent(choices[|choices| - 1]);
    }
  }

  lemma FrameErrors(codec: Codec, p: Pending, frame: Frame)
    requires FrameEvents(codec, p, frame).Ok?
    ensures Errors(FrameEvents(codec, p, frame).value.1)
         == if frame.event == "error" then [Error(ProviderProtocolError, None)] else []
  {
    hide Errors, Choices, UsageOf;
    var events := FrameEvents(codec, p, frame).value.1;
    if frame.event == "error" {
      OneError(events[0]);
    } else if frame.data == "[DONE]" {
      NoErrors(events);
    } else {
      var raw := codec.parse(frame.data).value;
      ChoicesQuiet(p, Elements(At(raw, "choices")));
      NoErrors(events);
    }
  }

  lemma OneError(e: StreamEvent)
    requires e.Error?
    ensures Errors([e]) == [e]
  {
    assert [e][..0] == [];
  }

  /** The errors of an accepted stream are those of its error frames. */
  lemma {:induction false} RunErrors(codec: Codec, frames: seq<Frame>)
    requires Run(codec, frames).Ok?
    ensures Errors(Run(codec, frames).value.1) == ErrorFrames(frames)
  {
    hide FrameEvents;
    if frames != [] {
      var init, frame := frames[..|frames| - 1], frames[|frames| - 1];
      RunErrors(codec, init);
      var (p, events) := Run(codec, init).value;
      FrameErrors(codec, p, frame);
      ErrorsAppend(events, FrameEvents(codec, p, frame).value.1);
    }
  }
}
