/** The OpenAI chat stream: usage evidence and the bookkeeping of a held finish. */
module OpenAi {
  import opened Common
  import opened Json
  import opened Events

  datatype WireError =
    | NoUsageObject | InvalidCount | InvalidDetails | OrchestrationExceeds | CountsOverflow | TotalMismatch
    | CacheExceedsPrompt | ReasoningExceeds | InvalidJson | EmbeddedError | InvalidUsage | InvalidChoices

  // ----- usage

  function Required(raw: Value, key: string): Result<nat, WireError> {
    match AsU64(At(raw, key)) case Some(n) => Ok(n) case None => Err(InvalidCount)
  }

  function OptionalCount(raw: Value, key: string): Result<nat, WireError> {
    if Missing(raw, key) then Ok(0)
    else match AsU64(At(raw, key)) case Some(n) => Ok(n) case None => Err(InvalidCount)
  }

  /** A details object, or null when there is none. */
  function Details(raw: Value, key: string): Result<Value, WireError> {
    if Missing(raw, key) then Ok(Null)
    else if At(raw, key).Obj? then Ok(At(raw, key))
    else Err(InvalidDetails)
  }

  function Sum(a: nat, b: nat): Result<nat, WireError> {
    if a + b <= U64_MAX then Ok(a + b) else Err(CountsOverflow)
  }

  /** The counts a usage object carries, once each is readable. */
  datatype Counts = Counts(
    prompt: nat, completion: nat, total: nat, extraInput: nat, extraCached: nat, extraOutput: nat,
    cached: nat, written: nat, reasoning: nat, marked: bool)

  /** The cached subset, under either of its spellings. */
  function CachedOf(raw: Value, prompt: Value): Result<nat, WireError> {
    if Get(prompt, "cached_tokens").Some? then OptionalCount(prompt, "cached_tokens")
    else OptionalCount(raw, "prompt_cache_hit_tokens")
  }

  function WrittenOf(prompt: Value): Result<nat, WireError> {
    if Get(prompt, "cache_creation_input_tokens").Some? then OptionalCount(prompt, "cache_creation_input_tokens")
    else OptionalCount(prompt, "cache_write_tokens")
  }

  /** The end of `usage_of`, from the cached subset on. */
  function CachePart(raw: Value, promptDetails: Value, completionDetails: Value,
                     input: nat, output: nat, extraCached: nat): Result<Usage, WireError> {
    match CachedOf(raw, promptDetails)
    case Err(e) => Err(e)
    case Ok(cached) =>
      match Sum(cached, extraCached)
      case Err(e) => Err(e)
      case Ok(read) =>
        match WrittenOf(promptDetails)
        case Err(e) => Err(e)
        case Ok(written) =>
          match Sum(read, written)
          case Err(e) => Err(e)
          case Ok(touched) =>
            if touched > input then Err(CacheExceedsPrompt)
            else match OptionalCount(completionDetails, "reasoning_tokens")
              case Err(e) => Err(e)
              case Ok(reasoning) =>
                if reasoning > output then Err(ReasoningExceeds)
                else
                  var marked := Get(promptDetails, "cache_creation_input_tokens").Some?;
                  Ok(Usage(input, output, read, written, 0, 0, reasoning, if marked then read else 0))
  }

  /** The middle of `usage_of`: the orchestration counts and the total. */
  function TotalPart(raw: Value, promptDetails: Value, completionDetails: Value,
                     prompt: nat, completion: nat, total: nat): Result<Usage, WireError> {
    match OptionalCount(promptDetails, "orchestration_input_tokens")
    case Err(e) => Err(e)
    case Ok(extraInput) =>
      match OptionalCount(promptDetails, "orchestration_input_cached_tokens")
      case Err(e) => Err(e)
      case Ok(extraCached) =>
        if extraCached > extraInput then Err(OrchestrationExceeds)
        else match OptionalCount(completionDetails, "orchestration_output_tokens")
          case Err(e) => Err(e)
          case Ok(extraOutput) =>
            match Sum(prompt, completion)
            case Err(e) => Err(e)
            case Ok(plain) =>
              if total != plain && Sum(plain, extraInput).Err? then Err(CountsOverflow)
              else if total != plain && total != plain + extraInput then Err(TotalMismatch)
              else match Sum(prompt, extraInput)
                case Err(e) => Err(e)
                case Ok(input) =>
                  match Sum(completion, extraOutput)
                  case Err(e) => Err(e)
                  case Ok(output) => CachePart(raw, promptDetails, completionDetails, input, output, extraCached)
  }

  /** `usage_of`. */
  function UsageOf(raw: Value): Result<Usage, WireError> {
    if !raw.Obj? then Err(NoUsageObject)
    else match Required(raw, "prompt_tokens")
      case Err(e) => Err(e)
      case Ok(prompt) =>
        match Required(raw, "completion_tokens")
        case Err(e) => Err(e)
        case Ok(completion) =>
          match Required(raw, "total_tokens")
          case Err(e) => Err(e)
          case Ok(total) =>
            match Details(raw, "prompt_tokens_details")
            case Err(e) => Err(e)
            case Ok(promptDetails) =>
              match Details(raw, "completion_tokens_details")
              case Err(e) => Err(e)
              case Ok(completionDetails) =>
                TotalPart(raw, promptDetails, completionDetails, prompt, completion, total)
  }

  /** The counts of a usage object, when every one of them is readable. */
  function ReadCounts(raw: Value): Option<Counts> {
    var prompt, completion := At(raw, "prompt_tokens_details"), At(raw, "completion_tokens_details");
    if && raw.Obj? && Required(raw, "prompt_tokens").Ok? && Required(raw, "completion_tokens").Ok?
       && Required(raw, "total_tokens").Ok?
       && (prompt.Null? || prompt.Obj?) && (completion.Null? || completion.Obj?)
       && OptionalCount(prompt, "orchestration_input_tokens").Ok?
       && OptionalCount(prompt, "orchestration_input_cached_tokens").Ok?
       && OptionalCount(completion, "orchestration_output_tokens").Ok?
       && CachedOf(raw, prompt).Ok? && WrittenOf(prompt).Ok? && OptionalCount(completion, "reasoning_tokens").Ok?
    then Some(Counts(
      Required(raw, "prompt_tokens").value, Required(raw, "completion_tokens").value,
      Required(raw, "total_tokens").value,
      OptionalCount(prompt, "orchestration_input_tokens").value,
      OptionalCount(prompt, "orchestration_input_cached_tokens").value,
      OptionalCount(completion, "orchestration_output_tokens").value,
      CachedOf(raw, prompt).value, WrittenOf(prompt).value, OptionalCount(completion, "reasoning_tokens").value,
      Get(prompt, "cache_creation_input_tokens").Some?))
    else None
  }

  /** The total closes with or without the orchestration input, every subset is within its whole,
      and no bucket overflows. */
  predicate Adds(c: Counts) {
    && (c.total == c.prompt + c.completion || c.total == c.prompt + c.completion + c.extraInput)
    && c.prompt + c.completion <= U64_MAX && c.prompt + c.extraInput <= U64_MAX
    && c.completion + c.extraOutput <= U64_MAX
    && c.extraCached <= c.extraInput
    && c.cached + c.extraCached + c.written <= c.prompt + c.extraInput
    && c.reasoning <= c.completion + c.extraOutput
  }

  lemma CachePartExact(raw: Value, p: Value, q: Value, input: nat, output: nat, extraCached: nat)
    requires input <= U64_MAX
    ensures CachePart(raw, p, q, input, output, extraCached).Ok?
       <==> && CachedOf(raw, p).Ok? && WrittenOf(p).Ok? && OptionalCount(q, "reasoning_tokens").Ok?
            && CachedOf(raw, p).value + extraCached + WrittenOf(p).value <= input
            && OptionalCount(q, "reasoning_tokens").value <= output
  {
    hide CachedOf, WrittenOf, OptionalCount;
  }

  lemma TotalPartExact(raw: Value, p: Value, q: Value, prompt: nat, completion: nat, total: nat)
    requires total <= U64_MAX
    ensures TotalPart(raw, p, q, prompt, completion, total).Ok?
       <==> && OptionalCount(p, "orchestration_input_tokens").Ok?
            && OptionalCount(p, "orchestration_input_cached_tokens").Ok?
            && OptionalCount(q, "orchestration_output_tokens").Ok?
            && CachedOf(raw, p).Ok? && WrittenOf(p).Ok? && OptionalCount(q, "reasoning_tokens").Ok?
            && Adds(Counts(prompt, completion, total,
                           OptionalCount(p, "orchestration_input_tokens").value,
                           OptionalCount(p, "orchestration_input_cached_tokens").value,
                           OptionalCount(q, "orchestration_output_tokens").value,
                           CachedOf(raw, p).value, WrittenOf(p).value,
                           OptionalCount(q, "reasoning_tokens").value, false))
  {
    hide CachedOf, WrittenOf, OptionalCount, CachePart;
    var input := OptionalCount(p, "orchestration_input_tokens");
    var cached := OptionalCount(p, "orchestration_input_cached_tokens");
    var output := OptionalCount(q, "orchestration_output_tokens");
    if input.Ok? && cached.Ok? && output.Ok? && prompt + input.value <= U64_MAX {
      CachePartExact(raw, p, q, prompt + input.value, completion + output.value, cached.value);
    }
  }

  /** Usage is read exactly when its counts are readable and add up. */
  lemma UsageExact(raw: Value)
    ensures UsageOf(raw).Ok? <==> ReadCounts(raw).Some? && Adds(ReadCounts(raw).value)
  {
    hide CachedOf, WrittenOf, OptionalCount, TotalPart;
    var p, q := At(raw, "prompt_tokens_details"), At(raw, "completion_tokens_details");
    if Required(raw, "prompt_tokens").Ok? && Required(raw, "completion_tokens").Ok?
       && Required(raw, "total_tokens").Ok? {
      TotalPartExact(raw, p, q, Required(raw, "prompt_tokens").value, Required(raw, "completion_tokens").value,
                     Required(raw, "total_tokens").value);
    }
  }

  /** What it reads: orchestration folds into both buckets, the cached and written parts are within
      the prompt, and in the marked mode every cached token is an explicit read. */
  lemma UsageMeans(raw: Value)
    requires UsageOf(raw).Ok? && ReadCounts(raw).Some?
    ensures var u, c := UsageOf(raw).value, ReadCounts(raw).value;
            && u.input == c.prompt + c.extraInput && u.output == c.completion + c.extraOutput
            && u.cacheRead == c.cached + c.extraCached && u.cacheWrite == c.written
            && u.cacheRead + u.cacheWrite <= u.input && u.reasoning == c.reasoning <= u.output
            && u.explicitCacheRead == (if c.marked then u.cacheRead else 0)
  {
    hide CachedOf, WrittenOf, OptionalCount;
  }

  // ----- the held finish

  function FinishReasonOf(raw: string): FinishReason {
    if raw == "stop" then Stop
    else if raw == "length" then Length
    else if raw == "tool_calls" then ToolCalls
    else if raw == "content_filter" then ContentFilter
    else Other(raw)
  }

  /** Whether a finish is held and its reason, and whether the last `Done` came before its marker. */
  datatype Pending = Pending(seen: bool, reason: Option<FinishReason>, doneEmitted: bool)

  const INITIAL := Pending(false, None, false)

  function Recorded(p: Pending, raw: string): Pending {
    Pending(true, Some(FinishReasonOf(raw)), false)
  }

  /** `take_finish`. */
  function Taken(p: Pending): (Pending, seq<StreamEvent>) {
    if p.seen then (Pending(false, None, p.doneEmitted), [Finish(p.reason, None)]) else (p, [])
  }

  /** `finish_marker`. */
  function Marked(p: Pending): (Pending, seq<StreamEvent>) {
    if p.doneEmitted then (p.(doneEmitted := false), [])
    else (Pending(false, None, true), Taken(p).1 + [Done])
  }

  /** `flush_pending_finish`. */
  function Flushed(p: Pending): (Pending, seq<StreamEvent>) {
    if p.seen then Marked(p) else (p, [])
  }

  // ----- one frame

  datatype Frame = Frame(event: string, data: string)

  function IndexOf(v: Value): nat {
    match AsU64(v) case Some(n) => if n <= U32_MAX then n else 0 case None => 0
  }

  /** An empty text carries nothing. */
  function TextEvent(v: Value, event: StreamEvent): seq<StreamEvent> {
    if v.Str? && v.s != "" then [event] else []
  }

  function CallEvent(call: Value): StreamEvent {
    ToolCallDelta(IndexOf(At(call, "index")), AsStr(At(call, "id")), AsStr(At(At(call, "function"), "name")),
                  StrOr(At(At(call, "function"), "arguments"), ""), None)
  }

  function CallEvents(calls: seq<Value>): seq<StreamEvent> {
    if calls == [] then [] else CallEvents(calls[..|calls| - 1]) + [CallEvent(calls[|calls| - 1])]
  }

  function Elements(v: Value): seq<Value> {
    if v.Arr? then v.elems else []
  }

  /** What one choice says. */
  function ChoiceEvents(choice: Value): seq<StreamEvent> {
    var index, delta := IndexOf(At(choice, "index")), At(choice, "delta");
    var spelled := At(delta, "reasoning_content");
    var thinking := if spelled.Str? then spelled else At(delta, "reasoning");
    TextEvent(thinking, ThinkingDelta(index, 0, StrOr(thinking, "")))
    + TextEvent(At(delta, "content"), Delta(index, StrOr(At(delta, "content"), "")))
    + CallEvents(Elements(At(delta, "tool_calls")))
  }

  function ChoiceReason(p: Pending, choice: Value): Pending {
    var reason := At(choice, "finish_reason");
    if reason.Str? then Recorded(p, reason.s) else p
  }

  function Choices(p: Pending, choices: seq<Value>): (Pending, seq<StreamEvent>) {
    if choices == [] then (p, [])
    else
      var (q, events) := Choices(p, choices[..|choices| - 1]);
      var choice := choices[|choices| - 1];
      (ChoiceReason(q, choice), events + ChoiceEvents(choice))
  }

  /** The usage report of a frame, with the finish it settles. */
  function Settled(p: Pending, usage: Usage): (Pending, seq<StreamEvent>) {
    if p.seen then (Pending(false, None, true), [Finish(p.reason, None), UsageReport(usage), Done])
    else (p, [UsageReport(usage)])
  }

  /** `events_of_frame` on a decoded payload. */
  function ChunkEvents(p: Pending, raw: Value): Result<(Pending, seq<StreamEvent>), WireError> {
    var usage, choices := At(raw, "usage"), Get(raw, "choices");
    if !Missing(raw, "error") then Err(EmbeddedError)
    else if !usage.Null? && !usage.Obj? then Err(InvalidUsage)
    else if !(choices.Some? && choices.value.Arr?) && !(choices.None? && usage.Obj?) then Err(InvalidChoices)
    else
      var (q, events) := Choices(p, if choices.Some? then Elements(choices.value) else []);
      if usage.Null? then Ok((q, events))
      else match UsageOf(usage)
        case Err(e) => Err(e)
        case Ok(u) => var (r, more) := Settled(q, u); Ok((r, events + more))
  }

  /** `frame`. */
  function FrameEvents(codec: Codec, p: Pending, frame: Frame): Result<(Pending, seq<StreamEvent>), WireError> {
    if frame.event == "error" then Ok((p, [Error(ProviderProtocolError, None)]))
    else if frame.data == "[DONE]" then Ok(Marked(p))
    else match codec.parse(frame.data)
      case None => Err(InvalidJson)
      case Some(raw) => ChunkEvents(p, raw)
  }

  function Run(codec: Codec, frames: seq<Frame>): Result<(Pending, seq<StreamEvent>), WireError> {
    if frames == [] then Ok((INITIAL, []))
    else match Run(codec, frames[..|frames| - 1])
      case Err(e) => Err(e)
      case Ok((p, events)) =>
        match FrameEvents(codec, p, frames[|frames| - 1])
        case Err(e) => Err(e)
        case Ok((q, more)) => Ok((q, events + more))
  }

  /** A whole stream: every frame and then the end of input. */
  function WholeRun(codec: Codec, frames: seq<Frame>): Result<(Pending, seq<StreamEvent>), WireError> {
    match Run(codec, frames)
    case Err(e) => Err(e)
    case Ok((p, events)) => var (q, more) := Flushed(p); Ok((q, events + more))
  }

  // ----- what a frame is, apart from any state

  predicate IsMarker(frame: Frame) {
    frame.event != "error" && frame.data == "[DONE]"
  }

  /** The decoded payload of a frame that carries one. */
  function Payload(codec: Codec, frame: Frame): Value {
    if frame.event == "error" || frame.data == "[DONE]" then Null
    else match codec.parse(frame.data) case None => Null case Some(raw) => raw
  }

  predicate Finishes(choices: seq<Value>) {
    exists i :: 0 <= i < |choices| && At(choices[i], "finish_reason").Str?
  }

  /** The reason the last finishing choice gives. */
  function LastReason(choices: seq<Value>): Option<FinishReason> {
    if choices == [] then None
    else
      var reason := At(choices[|choices| - 1], "finish_reason");
      if reason.Str? then Some(FinishReasonOf(reason.s)) else LastReason(choices[..|choices| - 1])
  }

  /** Some choice of the frame carries a finish reason. */
  predicate Bears(codec: Codec, frame: Frame) {
    Finishes(Elements(At(Payload(codec, frame), "choices")))
  }

  function ReasonOf(codec: Codec, frame: Frame): Option<FinishReason> {
    LastReason(Elements(At(Payload(codec, frame), "choices")))
  }

  predicate Reports(codec: Codec, frame: Frame) {
    At(Payload(codec, frame), "usage").Obj?
  }

  /** A held finish leaves with a frame that reports usage and with the `[DONE]` marker. */
  predicate Settles(codec: Codec, frame: Frame) {
    Reports(codec, frame) || IsMarker(frame)
  }

  predicate AllContent(es: seq<StreamEvent>) {
    forall i :: 0 <= i < |es| ==> IsContent(es[i])
  }

  // ----- a frame's effect

  /** The reasons of the finishes, in order. */
  function Reasons(es: seq<StreamEvent>): seq<Option<FinishReason>> {
    if es == [] then []
    else (if es[0].Finish? then [es[0].reason] else []) + Reasons(es[1..])
  }

  lemma {:induction false} ReasonsAppend(a: seq<StreamEvent>, b: seq<StreamEvent>)
    ensures Reasons(a + b) == Reasons(a) + Reasons(b)
  {
    if a == [] {
      assert a + b == b;
    } else {
      assert (a + b)[0] == a[0] && (a + b)[1..] == a[1..] + b;
      ReasonsAppend(a[1..], b);
      var first := if a[0].Finish? then [a[0].reason] else [];
      assert Reasons(a + b) == first + Reasons(a[1..] + b);
      assert first + (Reasons(a[1..]) + Reasons(b)) == first + Reasons(a[1..]) + Reasons(b);
    }
  }

  lemma {:induction false} ReasonsCount(es: seq<StreamEvent>)
    ensures |Reasons(es)| == CountFinish(es)
  {
    if es != [] {
      ReasonsCount(es[1..]);
    }
  }

  lemma {:induction false} CallEventsContent(calls: seq<Value>)
    ensures AllContent(CallEvents(calls))
  {
    hide CallEvent;
    if calls != [] {
      CallEventsContent(calls[..|calls| - 1]);
      assert IsContent(CallEvent(calls[|calls| - 1])) by {
        CallIsContent(calls[|calls| - 1]);
      }
    }
  }

  lemma CallIsContent(call: Value)
    ensures IsContent(CallEvent(call))
  {
  }

  lemma ChoiceContent(choice: Value)
    ensures AllContent(ChoiceEvents(choice))
  {
    CallEventsContent(Elements(At(At(choice, "delta"), "tool_calls")));
    hide CallEvents, At, IndexOf;
  }

  lemma {:induction false} ChoicesEffect(p: Pending, choices: seq<Value>)
    ensures AllContent(Choices(p, choices).1)
    ensures if Finishes(choices) then Choices(p, choices).0 == Pending(true, LastReason(choices), false)
            else Choices(p, choices).0 == p
  {
    hide ChoiceEvents, FinishReasonOf;
    if choices != [] {
      var init, choice := choices[..|choices| - 1], choices[|choices| - 1];
      ChoicesEffect(p, init);
      ChoiceContent(choice);
      if Finishes(choices) && !At(choice, "finish_reason").Str? {
        var i :| 0 <= i < |choices| && At(choices[i], "finish_reason").Str?;
        assert init[i] == choices[i];
      }
    }
  }

  lemma {:induction false} ContentCounts(es: seq<StreamEvent>)
    requires AllContent(es)
    ensures CountFinish(es) == 0 && CountDone(es) == 0 && Reasons(es) == []
  {
    if es != [] {
      ContentCounts(es[1..]);
    }
  }

  lemma ContentSettles(es: seq<StreamEvent>)
    requires AllContent(es)
    ensures FinishesSettle(es) && DonesClose(es)
  {
    forall i | 0 <= i < |es|
      ensures SettlesAt(es, i) && ClosesAt(es, i)
    {
      assert IsContent(es[i]);
    }
  }

  predicate Exclusive(p: Pending) {
    !(p.seen && p.doneEmitted)
  }

  /** The reason held once a frame's choices are read. */
  function HeldReason(codec: Codec, p: Pending, frame: Frame): Option<FinishReason> {
    if Bears(codec, frame) then ReasonOf(codec, frame) else p.reason
  }

  /** What a frame's kind makes of the state, and how many terminals it emits. */
  ghost predicate Effect(codec: Codec, frame: Frame, p: Pending, q: Pending, es: seq<StreamEvent>) {
    var held := p.seen || Bears(codec, frame);
    && FinishesSettle(es)
    && q.seen == (held && !Settles(codec, frame))
    && (q.seen ==> q.reason == HeldReason(codec, p, frame))
    && Reasons(es) == (if held && Settles(codec, frame) then [HeldReason(codec, p, frame)] else [])
    && CountFinish(es) == (if held && Settles(codec, frame) then 1 else 0)
    && (if IsMarker(frame) then CountDone(es) == (if p.doneEmitted then 0 else 1) && q.doneEmitted == !p.doneEmitted
        else CountDone(es) == CountFinish(es)
             && (q.doneEmitted <==> CountFinish(es) == 1 || (p.doneEmitted && !Bears(codec, frame))))
    && (DonesClose(es) <==> CountDone(es) == CountFinish(es))
  }

  lemma MarkerEffect(codec: Codec, frame: Frame, p: Pending)
    requires IsMarker(frame) && Exclusive(p)
    ensures Exclusive(Marked(p).0) && Effect(codec, frame, p, Marked(p).0, Marked(p).1)
  {
    hide Marked;
    assert !Bears(codec, frame);
    if p.doneEmitted {
      assert Marked(p) == (p.(doneEmitted := false), []) by {
        MarkedIs(p);
      }
    } else if p.seen {
      MarkedIs(p);
      var finish := Finish(p.reason, None);
      CountTwo(finish, Done);
      assert Marked(p).1 == [finish, Done];
    } else {
      MarkedIs(p);
      assert Marked(p).1 == [Done];
      assert [Done][1..] == [];
      assert !ClosesAt([Done], 0);
    }
  }

  lemma MarkedIs(p: Pending)
    ensures Marked(p) == (if p.doneEmitted then (p.(doneEmitted := false), [])
                          else if p.seen then (Pending(false, None, true), [Finish(p.reason, None), Done])
                          else (Pending(false, None, true), [Done]))
  {
    var none: seq<StreamEvent> := [];
    assert none + [Done] == [Done];
    assert [Finish(p.reason, None)] + [Done] == [Finish(p.reason, None), Done];
  }

  lemma CountTwo(a: StreamEvent, b: StreamEvent)
    ensures CountFinish([a, b]) == (if a.Finish? then 1 else 0) + (if b.Finish? then 1 else 0)
    ensures CountDone([a, b]) == (if a.Done? then 1 else 0) + (if b.Done? then 1 else 0)
    ensures Reasons([a, b]) == (if a.Finish? then [a.reason] else []) + (if b.Finish? then [b.reason] else [])
  {
    assert [a, b] == [a] + [b];
    CountsAppend([a], [b]);
    ReasonsAppend([a], [b]);
    assert [a][1..] == [] && [b][1..] == [];
  }

  lemma SettledEffect(p: Pending, usage: Usage)
    requires Exclusive(p)
    ensures var (q, es) := Settled(p, usage);
            && Exclusive(q) && !q.seen && FinishesSettle(es) && DonesClose(es)
            && CountFinish(es) == CountDone(es) == (if p.seen then 1 else 0)
            && Reasons(es) == (if p.seen then [p.reason] else [])
            && q.doneEmitted == (p.seen || p.doneEmitted)
  {
    if p.seen {
      var es := [Finish(p.reason, None), UsageReport(usage), Done];
      assert es == [Finish(p.reason, None), UsageReport(usage)] + [Done];
      CountsAppend([Finish(p.reason, None), UsageReport(usage)], [Done]);
      ReasonsAppend([Finish(p.reason, None), UsageReport(usage)], [Done]);
      CountTwo(Finish(p.reason, None), UsageReport(usage));
      assert [Done][1..] == [];
    } else {
      assert [UsageReport(usage)][1..] == [];
    }
  }

  lemma ChunkEffect(codec: Codec, frame: Frame, p: Pending)
    requires Exclusive(p) && !IsMarker(frame) && frame.event != "error" && codec.parse(frame.data).Some?
    requires ChunkEvents(p, codec.parse(frame.data).value).Ok?
    ensures var (q, es) := ChunkEvents(p, codec.parse(frame.data).value).value;
            Exclusive(q) && Effect(codec, frame, p, q, es)
  {
    hide UsageOf, Choices, Settled, Finishes, FinishesSettle, DonesClose;
    var raw := codec.parse(frame.data).value;
    var choices := Elements(At(raw, "choices"));
    ChoicesEffect(p, choices);
    var (q, events) := Choices(p, choices);
    ContentCounts(events);
    ContentSettles(events);
    if At(raw, "usage").Obj? {
      var u := UsageOf(At(raw, "usage")).value;
      SettledEffect(q, u);
      CountsAppend(events, Settled(q, u).1);
      ReasonsAppend(events, Settled(q, u).1);
      FinishesSettleAppend(events, Settled(q, u).1);
      DonesCloseAppend(events, Settled(q, u).1);
    }
  }

  /** Every accepted frame keeps a held finish and an emitted `Done` apart, and does what its kind
      says. */
  lemma FrameEffect(codec: Codec, p: Pending, frame: Frame)
    requires Exclusive(p) && FrameEvents(codec, p, frame).Ok?
    ensures var (q, es) := FrameEvents(codec, p, frame).value;
            Exclusive(q) && Effect(codec, frame, p, q, es)
  {
    hide ChunkEvents, Marked;
    if frame.event == "error" {
      assert !Bears(codec, frame);
      assert [Error(ProviderProtocolError, None)][1..] == [];
    } else if frame.data == "[DONE]" {
      MarkerEffect(codec, frame, p);
    } else {
      ChunkEffect(codec, frame, p);
    }
  }

  // ----- whole runs

  /** No frame from `i` on lets a held finish leave. */
  predicate Open(codec: Codec, frames: seq<Frame>, i: nat) {
    forall k :: i <= k < |frames| ==> !Settles(codec, frames[k])
  }

  /** A later finish takes the place of the one at `i` before it could leave. */
  predicate Superseded(codec: Codec, frames: seq<Frame>, i: nat) {
    exists j :: i < j < |frames| && Bears(codec, frames[j]) && Open(codec, frames[..j], i)
  }

  /** The finish-bearing frames whose finish is not superseded. */
  ghost function Live(codec: Codec, frames: seq<Frame>): set<nat> {
    set i: nat | i < |frames| && Bears(codec, frames[i]) && !Superseded(codec, frames, i)
  }

  ghost predicate Held(codec: Codec, frames: seq<Frame>, i: nat) {
    i < |frames| && Bears(codec, frames[i]) && Open(codec, frames, i)
  }

  lemma SupersededGrows(codec: Codec, frames: seq<Frame>, x: Frame, i: nat)
    requires i < |frames|
    ensures Superseded(codec, frames + [x], i)
       <==> Superseded(codec, frames, i) || (Bears(codec, x) && Open(codec, frames, i))
  {
    hide Bears, Settles;
    var grown := frames + [x];
    forall j | i < j < |frames|
      ensures grown[j] == frames[j] && grown[..j] == frames[..j]
    {
    }
    assert grown[..|frames|] == frames && grown[|frames|] == x;
    if j :| i < j < |grown| && Bears(codec, grown[j]) && Open(codec, grown[..j], i) {
      assert j < |frames| || j == |frames|;
    }
    if j :| i < j < |frames| && Bears(codec, frames[j]) && Open(codec, frames[..j], i) {
      assert Open(codec, grown[..j], i);
    }
  }

  lemma OpenGrows(codec: Codec, frames: seq<Frame>, x: Frame, i: nat)
    requires i <= |frames|
    ensures Open(codec, frames + [x], i) <==> Open(codec, frames, i) && !Settles(codec, x)
  {
    hide Settles;
    var grown := frames + [x];
    assert grown[|frames|] == x;
    assert forall k :: 0 <= k < |frames| ==> grown[k] == frames[k];
  }

  lemma HeldSupersedes(codec: Codec, frames: seq<Frame>, i: nat, j: nat)
    requires Held(codec, frames, i) && i < j < |frames| && Bears(codec, frames[j])
    ensures Superseded(codec, frames, i)
  {
    hide Bears, Settles;
    assert forall k :: 0 <= k < j ==> frames[..j][k] == frames[k];
    assert Open(codec, frames[..j], i);
  }

  /** At most one unsuperseded frame is still held. */
  lemma HeldUnique(codec: Codec, frames: seq<Frame>, i: nat, j: nat)
    requires Held(codec, frames, i) && Held(codec, frames, j)
    requires !Superseded(codec, frames, i) && !Superseded(codec, frames, j)
    ensures i == j
  {
    hide Bears, Settles, Superseded, Open;
    if i < j {
      HeldSupersedes(codec, frames, i, j);
    } else if j < i {
      HeldSupersedes(codec, frames, j, i);
    }
  }

  /** Some unsuperseded frame is held. */
  ghost predicate SomeHeld(codec: Codec, frames: seq<Frame>) {
    exists i: nat :: i in Live(codec, frames) && Held(codec, frames, i)
  }

  lemma LiveGrows(codec: Codec, frames: seq<Frame>, x: Frame)
    ensures var grown := frames + [x];
            && |Live(codec, grown)|
               == |Live(codec, frames)|
                  + (if Bears(codec, x) then (if SomeHeld(codec, frames) then 0 else 1) else 0)
            && (SomeHeld(codec, grown) <==> (SomeHeld(codec, frames) || Bears(codec, x)) && !Settles(codec, x))
  {
    HeldGrows(codec, frames, x);
    LiveMembers(codec, frames, x);
    var n, live, now := |frames|, Live(codec, frames), Live(codec, frames + [x]);
    if Bears(codec, x) && SomeHeld(codec, frames) {
      var h: nat :| h in live && Held(codec, frames, h);
      forall i: nat | i in live && Held(codec, frames, i)
        ensures i == h
      {
        HeldUnique(codec, frames, i, h);
      }
      hide *;
      Replaced(live, now, h, n);
    } else if Bears(codec, x) {
      hide Live, Held, Bears, Settles, Superseded, Open;
      assert now == live + {n};
    } else {
      hide Live, Held, Bears, Settles, Superseded, Open;
      assert now == live;
    }
  }

  lemma Replaced(live: set<nat>, now: set<nat>, h: nat, n: nat)
    requires h in live && n !in live && n in now
    requires (forall i :: i in now ==> i <= n) && (forall i :: i in live ==> i < n)
    requires forall i: nat :: i < n ==> (i in now <==> i in live && i != h)
    ensures |now| == |live|
  {
    assert now == live - {h} + {n};
  }

  lemma LiveMembers(codec: Codec, frames: seq<Frame>, x: Frame)
    ensures var live, now, n := Live(codec, frames), Live(codec, frames + [x]), |frames|;
            && n !in live && (n in now <==> Bears(codec, x))
            && (forall i :: i in now ==> i <= n) && (forall i :: i in live ==> i < n)
            && forall i: nat :: i < n ==> (i in now <==> i in live && !(Bears(codec, x) && Held(codec, frames, i)))
  {
    hide Bears, Settles, Superseded;
    var grown, n := frames + [x], |frames|;
    assert grown[n] == x;
    assert !Superseded(codec, grown, n) by {
      LastIsLive(codec, grown, n);
    }
    forall i: nat | i < n
      ensures i in Live(codec, grown) <==> i in Live(codec, frames) && !(Bears(codec, x) && Held(codec, frames, i))
    {
      assert grown[i] == frames[i];
      SupersededGrows(codec, frames, x, i);
    }
  }

  lemma LastIsLive(codec: Codec, frames: seq<Frame>, i: nat)
    requires i + 1 >= |frames|
    ensures !Superseded(codec, frames, i)
  {
  }

  lemma HeldGrows(codec: Codec, frames: seq<Frame>, x: Frame)
    ensures SomeHeld(codec, frames + [x]) <==> (SomeHeld(codec, frames) || Bears(codec, x)) && !Settles(codec, x)
  {
    hide Live, Bears, Settles, Superseded;
    var grown, n := frames + [x], |frames|;
    LiveMembers(codec, frames, x);
    assert grown[n] == x;
    forall i: nat | i <= n
      ensures i < n ==> (Held(codec, grown, i) <==> Held(codec, frames, i) && !Settles(codec, x))
      ensures i == n ==> (Held(codec, grown, i) <==> Bears(codec, x) && !Settles(codec, x))
    {
      OpenGrows(codec, frames, x, i);
    }
    if SomeHeld(codec, grown) {
      var i: nat :| i in Live(codec, grown) && Held(codec, grown, i);
      assert i < n ==> i in Live(codec, frames) && Held(codec, frames, i);
    }
    if SomeHeld(codec, frames) && !Bears(codec, x) && !Settles(codec, x) {
      var i: nat :| i in Live(codec, frames) && Held(codec, frames, i);
      assert i in Live(codec, grown) && Held(codec, grown, i);
    }
    if Bears(codec, x) && !Settles(codec, x) {
      assert n in Live(codec, grown) && Held(codec, grown, n);
    }
  }

  /** In every run a held finish and an emitted `Done` never coexist; a finish is held exactly when
      some frame's is; and each unsuperseded finish has left exactly once or is the one held. */
  lemma {:induction false} RunExact(codec: Codec, frames: seq<Frame>)
    requires Run(codec, frames).Ok?
    ensures var (p, es) := Run(codec, frames).value;
            && Exclusive(p) && FinishesSettle(es)
            && (p.seen <==> SomeHeld(codec, frames))
            && |Live(codec, frames)| == CountFinish(es) + (if p.seen then 1 else 0)
  {
    hide FrameEvents, Live, SomeHeld, Bears, Settles, FinishesSettle, DonesClose, IsMarker;
    if frames == [] {
      EmptyRun(codec, frames);
    } else {
      var init, x := frames[..|frames| - 1], frames[|frames| - 1];
      RunExact(codec, init);
      assert init + [x] == frames;
      LiveGrows(codec, init, x);
      var (p, es) := Run(codec, init).value;
      FrameEffect(codec, p, x);
      var more := FrameEvents(codec, p, x).value.1;
      CountsAppend(es, more);
      FinishesSettleAppend(es, more);
    }
  }

  lemma EmptyRun(codec: Codec, frames: seq<Frame>)
    requires frames == []
    ensures Live(codec, frames) == {} && !SomeHeld(codec, frames) && FinishesSettle([])
  {
  }

  lemma FlushEffect(p: Pending)
    requires Exclusive(p)
    ensures var (q, es) := Flushed(p);
            && !q.seen && Exclusive(q) && FinishesSettle(es) && DonesClose(es)
            && CountFinish(es) == CountDone(es) == (if p.seen then 1 else 0)
            && Reasons(es) == (if p.seen then [p.reason] else [])
  {
    MarkedIs(p);
    CountTwo(Finish(p.reason, None), Done);
  }

  /** After the end of input nothing is held; every finish is settled by at most one usage report
      and a `Done`; and there are exactly as many finishes as unsuperseded finish-bearing frames. */
  lemma WholeRunExact(codec: Codec, frames: seq<Frame>)
    requires WholeRun(codec, frames).Ok?
    ensures var (q, es) := WholeRun(codec, frames).value;
            !q.seen && FinishesSettle(es) && CountFinish(es) == |Live(codec, frames)|
  {
    hide Run, Live, Flushed, FinishesSettle;
    RunExact(codec, frames);
    var (p, es) := Run(codec, frames).value;
    FlushEffect(p);
    CountsAppend(es, Flushed(p).1);
    FinishesSettleAppend(es, Flushed(p).1);
  }

  // ----- the reasons that leave

  /** The reasons of the unsuperseded frames before `n`, in order. */
  ghost function LiveReasons(codec: Codec, frames: seq<Frame>, n: nat): seq<Option<FinishReason>>
    requires n <= |frames|
  {
    if n == 0 then []
    else
      LiveReasons(codec, frames, n - 1)
      + (if n - 1 in Live(codec, frames) then [ReasonOf(codec, frames[n - 1])] else [])
  }

  /** Lists whose frames and live positions agree up to `n` have the same reasons there. */
  lemma {:induction false} SameReasons(codec: Codec, a: seq<Frame>, b: seq<Frame>, n: nat)
    requires n <= |a| && n <= |b|
    requires forall i :: 0 <= i < n ==> a[i] == b[i] && (i in Live(codec, a) <==> i in Live(codec, b))
    ensures LiveReasons(codec, a, n) == LiveReasons(codec, b, n)
  {
    hide Live, ReasonOf;
    if n > 0 {
      SameReasons(codec, a, b, n - 1);
    }
  }

  lemma {:induction false} NoneLive(codec: Codec, frames: seq<Frame>, m: nat, n: nat)
    requires m <= n <= |frames| && forall i :: m <= i < n ==> i !in Live(codec, frames)
    ensures LiveReasons(codec, frames, n) == LiveReasons(codec, frames, m)
  {
    hide Live, ReasonOf;
    if m < n {
      NoneLive(codec, frames, m, n - 1);
    }
  }

  /** After a held frame nothing is live. */
  lemma HeldIsLast(codec: Codec, frames: seq<Frame>, h: nat, i: nat)
    requires h in Live(codec, frames) && Held(codec, frames, h) && h < i < |frames|
    ensures i !in Live(codec, frames)
  {
    hide Bears, Settles, Superseded, Open;
    if Bears(codec, frames[i]) {
      HeldSupersedes(codec, frames, h, i);
    }
  }

  /** Where a new finish takes the place of the held one at `h`: nothing else changes. */
  lemma HeldReplaced(codec: Codec, frames: seq<Frame>, x: Frame, h: nat)
    requires h in Live(codec, frames) && Held(codec, frames, h) && Bears(codec, x)
    ensures var live, now := Live(codec, frames), Live(codec, frames + [x]);
            && h < |frames| && h !in now && |frames| in now
            && (forall i: nat :: i < h ==> (i in now <==> i in live))
            && (forall i: nat :: h < i < |frames| ==> i !in live && i !in now)
  {
    LiveMembers(codec, frames, x);
    hide Live, Superseded, Open, Bears;
    forall i: nat | h < i < |frames|
      ensures i !in Live(codec, frames)
    {
      HeldIsLast(codec, frames, h, i);
    }
    forall i: nat | i < h && i in Live(codec, frames)
      ensures !Held(codec, frames, i)
    {
      if Held(codec, frames, i) {
        HeldIsLast(codec, frames, i, h);
      }
    }
  }

  /** A held frame is the last live one; a new finish takes its place at the end. */
  lemma ReasonsReplace(codec: Codec, frames: seq<Frame>, x: Frame, h: nat)
    requires h in Live(codec, frames) && Held(codec, frames, h) && Bears(codec, x)
    ensures LiveReasons(codec, frames, |frames|) == LiveReasons(codec, frames, h) + [ReasonOf(codec, frames[h])]
    ensures LiveReasons(codec, frames + [x], |frames| + 1) == LiveReasons(codec, frames, h) + [ReasonOf(codec, x)]
  {
    hide Live, ReasonOf, Held, Bears;
    var grown, n := frames + [x], |frames|;
    HeldReplaced(codec, frames, x, h);
    assert grown[n] == x;
    NoneLive(codec, frames, h + 1, n);
    NoneLive(codec, grown, h, n);
    SameReasons(codec, frames, grown, h);
  }

  /** Otherwise the live frames stay, and a new finish joins them. */
  lemma ReasonsGrow(codec: Codec, frames: seq<Frame>, x: Frame)
    requires !Bears(codec, x) || !SomeHeld(codec, frames)
    ensures LiveReasons(codec, frames + [x], |frames| + 1)
         == LiveReasons(codec, frames, |frames|) + (if Bears(codec, x) then [ReasonOf(codec, x)] else [])
  {
    var grown := frames + [x];
    LiveMembers(codec, frames, x);
    forall i: nat | i < |frames|
      ensures grown[i] == frames[i] && (i in Live(codec, grown) <==> i in Live(codec, frames))
    {
    }
    hide Live, ReasonOf, Bears, Held;
    SameReasons(codec, frames, grown, |frames|);
    assert grown[|frames|] == x;
  }

  /** What a frame adds to the reasons that left or are held, from any state. */
  lemma ReasonsStep(codec: Codec, init: seq<Frame>, x: Frame, p: Pending, q: Pending,
                    left: seq<Option<FinishReason>>, more: seq<StreamEvent>)
    requires p.seen <==> SomeHeld(codec, init)
    requires LiveReasons(codec, init, |init|) == left + (if p.seen then [p.reason] else [])
    requires Effect(codec, x, p, q, more)
    ensures LiveReasons(codec, init + [x], |init| + 1) == left + Reasons(more) + (if q.seen then [q.reason] else [])
  {
    hide Live, ReasonOf, Bears, Open, Settles, Reasons, FinishesSettle, DonesClose, CountFinish, CountDone,
      IsMarker, LiveReasons;
    if Bears(codec, x) && SomeHeld(codec, init) {
      var h: nat :| h in Live(codec, init) && Held(codec, init, h);
      ReasonsReplace(codec, init, x, h);
      LastOf(LiveReasons(codec, init, h), ReasonOf(codec, init[h]), left, p.reason);
    } else {
      ReasonsGrow(codec, init, x);
    }
  }

  lemma LastOf<T>(a: seq<T>, x: T, b: seq<T>, y: T)
    requires a + [x] == b + [y]
    ensures a == b && x == y
  {
    assert (a + [x])[..|a|] == a && (b + [y])[..|b|] == b;
    assert (a + [x])[|a|] == x;
  }

  lemma {:induction false} RunReasons(codec: Codec, frames: seq<Frame>)
    requires Run(codec, frames).Ok?
    ensures var (p, es) := Run(codec, frames).value;
            LiveReasons(codec, frames, |frames|) == Reasons(es) + (if p.seen then [p.reason] else [])
  {
    hide FrameEvents, Live, SomeHeld, Effect, Exclusive;
    if frames != [] {
      var init, x := frames[..|frames| - 1], frames[|frames| - 1];
      RunReasons(codec, init);
      RunExact(codec, init);
      assert init + [x] == frames;
      var (p, es) := Run(codec, init).value;
      FrameEffect(codec, p, x);
      var (q, more) := FrameEvents(codec, p, x).value;
      ReasonsAppend(es, more);
      hide LiveReasons, Reasons;
      ReasonsStep(codec, init, x, p, q, Reasons(es), more);
    }
  }

  /** The finishes of a whole stream carry, in order, the reasons of the unsuperseded frames. */
  lemma WholeRunReasons(codec: Codec, frames: seq<Frame>)
    requires WholeRun(codec, frames).Ok?
    ensures Reasons(WholeRun(codec, frames).value.1) == LiveReasons(codec, frames, |frames|)
  {
    hide Run, Live, Flushed, FinishesSettle, Reasons, LiveReasons, SomeHeld;
    RunExact(codec, frames);
    RunReasons(codec, frames);
    var (p, es) := Run(codec, frames).value;
    FlushEffect(p);
    ReasonsAppend(es, Flushed(p).1);
  }

  // ----- the markers that stand alone

  predicate AnyBears(codec: Codec, frames: seq<Frame>) {
    exists i :: 0 <= i < |frames| && Bears(codec, frames[i])
  }

  lemma AnyBearsGrows(codec: Codec, frames: seq<Frame>, x: Frame)
    ensures AnyBears(codec, frames + [x]) <==> AnyBears(codec, frames) || Bears(codec, x)
  {
    hide Bears;
    var grown := frames + [x];
    assert grown[|frames|] == x;
    assert forall i :: 0 <= i < |frames| ==> grown[i] == frames[i];
    if AnyBears(codec, grown) {
      var i :| 0 <= i < |grown| && Bears(codec, grown[i]);
      assert i < |frames| || i == |frames|;
    }
    if AnyBears(codec, frames) {
      var i :| 0 <= i < |frames| && Bears(codec, frames[i]);
      assert Bears(codec, grown[i]);
    }
  }

  /** How many markers came since the last finish-bearing frame, or at all when there is none. */
  function MarkersSince(codec: Codec, frames: seq<Frame>): nat {
    if frames == [] || Bears(codec, frames[|frames| - 1]) then 0
    else MarkersSince(codec, frames[..|frames| - 1]) + (if IsMarker(frames[|frames| - 1]) then 1 else 0)
  }

  /** Usage came with the last finish-bearing frame, or after it and before any marker. */
  predicate UsageCame(codec: Codec, frames: seq<Frame>) {
    if frames == [] then false
    else
      var init, x := frames[..|frames| - 1], frames[|frames| - 1];
      if Bears(codec, x) then Reports(codec, x)
      else UsageCame(codec, init)
           || (Reports(codec, x) && AnyBears(codec, init) && MarkersSince(codec, init) == 0)
  }

  /** A marker after these frames emits a `Done` that closes no finish. The marker of a finish
      that usage settled is swallowed, and from there on every second marker is. */
  predicate StandsAlone(codec: Codec, before: seq<Frame>) {
    var n := MarkersSince(codec, before);
    if !AnyBears(codec, before) then n % 2 == 0
    else if UsageCame(codec, before) then n % 2 == 1
    else n > 0 && n % 2 == 0
  }

  function LoneMarkers(codec: Codec, frames: seq<Frame>): nat {
    if frames == [] then 0
    else
      var init := frames[..|frames| - 1];
      LoneMarkers(codec, init) + (if IsMarker(frames[|frames| - 1]) && StandsAlone(codec, init) then 1 else 0)
  }

  lemma HistorySnoc(codec: Codec, frames: seq<Frame>, x: Frame)
    ensures var grown := frames + [x];
            && MarkersSince(codec, grown)
               == (if Bears(codec, x) then 0 else MarkersSince(codec, frames) + (if IsMarker(x) then 1 else 0))
            && UsageCame(codec, grown)
               == (if Bears(codec, x) then Reports(codec, x)
                   else UsageCame(codec, frames)
                        || (Reports(codec, x) && AnyBears(codec, frames) && MarkersSince(codec, frames) == 0))
            && LoneMarkers(codec, grown)
               == LoneMarkers(codec, frames) + (if IsMarker(x) && StandsAlone(codec, frames) then 1 else 0)
  {
    hide Bears, Reports, IsMarker, AnyBears, StandsAlone;
    assert (frames + [x])[..|frames + [x]| - 1] == frames;
  }

  lemma MarkerIsBare(codec: Codec, x: Frame)
    requires IsMarker(x)
    ensures !Bears(codec, x) && !Reports(codec, x)
  {
  }

  /** The state is what the history of finishes, usage and markers says. */
  ghost predicate Tells(codec: Codec, frames: seq<Frame>, p: Pending) {
    var n := MarkersSince(codec, frames);
    && p.seen == (AnyBears(codec, frames) && !UsageCame(codec, frames) && n == 0)
    && p.doneEmitted == (if AnyBears(codec, frames) && UsageCame(codec, frames) then n % 2 == 0 else n % 2 == 1)
  }

  lemma TellsStep(codec: Codec, frames: seq<Frame>, x: Frame, p: Pending, q: Pending, es: seq<StreamEvent>)
    requires Tells(codec, frames, p) && Exclusive(p) && Effect(codec, x, p, q, es)
    ensures Tells(codec, frames + [x], q)
    ensures CountDone(es) == CountFinish(es) + (if IsMarker(x) && StandsAlone(codec, frames) then 1 else 0)
  {
    hide Bears, Reports, AnyBears, MarkersSince, UsageCame, LoneMarkers, Reasons, FinishesSettle, DonesClose,
      CountDone, CountFinish;
    HistorySnoc(codec, frames, x);
    AnyBearsGrows(codec, frames, x);
    if IsMarker(x) {
      MarkerIsBare(codec, x);
    }
  }

  lemma {:induction false} RunDones(codec: Codec, frames: seq<Frame>)
    requires Run(codec, frames).Ok?
    ensures var (p, es) := Run(codec, frames).value;
            && Exclusive(p) && Tells(codec, frames, p)
            && CountDone(es) == CountFinish(es) + LoneMarkers(codec, frames)
            && (DonesClose(es) <==> LoneMarkers(codec, frames) == 0)
  {
    if frames != [] {
      hide FrameEvents, Effect, Tells, DonesClose, FinishesSettle, StandsAlone, IsMarker, LoneMarkers, Live, SomeHeld;
      var init, x := frames[..|frames| - 1], frames[|frames| - 1];
      assert init + [x] == frames;
      RunDones(codec, init);
      RunExact(codec, init);
      var (p, es) := Run(codec, init).value;
      FrameEffect(codec, p, x);
      var (q, more) := FrameEvents(codec, p, x).value;
      EffectCloses(codec, x, p, q, more);
      TellsStep(codec, init, x, p, q, more);
      HistorySnoc(codec, init, x);
      CountsAppend(es, more);
      DonesCloseAfter(es, more);
    }
  }

  lemma EffectCloses(codec: Codec, x: Frame, p: Pending, q: Pending, es: seq<StreamEvent>)
    requires Effect(codec, x, p, q, es)
    ensures DonesClose(es) <==> CountDone(es) == CountFinish(es)
  {
  }

  /** In every accepted stream each finish has its own `Done`, the other ones are those of the
      markers that stand alone, and every `Done` closes a finish exactly when there are none. */
  lemma LoneMarkersExact(codec: Codec, frames: seq<Frame>)
    requires WholeRun(codec, frames).Ok?
    ensures var es := WholeRun(codec, frames).value.1;
            && CountDone(es) == CountFinish(es) + LoneMarkers(codec, frames)
            && (DonesClose(es) <==> LoneMarkers(codec, frames) == 0)
  {
    hide Run, Flushed, Live, SomeHeld, Reasons, FinishesSettle, DonesClose, LoneMarkers, Tells;
    RunExact(codec, frames);
    RunDones(codec, frames);
    var (p, es) := Run(codec, frames).value;
    FlushEffect(p);
    CountsAppend(es, Flushed(p).1);
    DonesCloseAfter(es, Flushed(p).1);
  }

  // ----- streams with a `Done` of its own

  const MARKER := Frame("message", "[DONE]")

  lemma RunSnoc(codec: Codec, frames: seq<Frame>, x: Frame,
                p: Pending, es: seq<StreamEvent>, q: Pending, more: seq<StreamEvent>)
    requires Run(codec, frames) == Ok((p, es)) && FrameEvents(codec, p, x) == Ok((q, more))
    ensures Run(codec, frames + [x]) == Ok((q, es + more))
  {
    hide FrameEvents;
    assert (frames + [x])[..|frames + [x]| - 1] == frames;
  }

  lemma MarkerFrame(codec: Codec, p: Pending)
    ensures FrameEvents(codec, p, MARKER) == Ok(Marked(p))
  {
  }

  /** What a whole stream is once its frames are run and nothing is held. */
  lemma NothingHeld(codec: Codec, frames: seq<Frame>, p: Pending, es: seq<StreamEvent>)
    requires Run(codec, frames) == Ok((p, es)) && !p.seen
    ensures WholeRun(codec, frames) == Ok((p, es))
  {
    hide Run;
    assert es + [] == es;
  }

  lemma EmptyStream(codec: Codec)
    ensures Run(codec, []) == Ok((INITIAL, []))
  {
  }

  /** A marker alone. */
  lemma BareMarker(codec: Codec)
    ensures WholeRun(codec, [MARKER]) == Ok((Pending(false, None, true), [Done]))
  {
    hide Run, WholeRun, FrameEvents, Marked, MARKER;
    EmptyStream(codec);
    MarkerFrame(codec, INITIAL);
    MarkedIs(INITIAL);
    var quiet: seq<StreamEvent> := [];
    RunSnoc(codec, [], MARKER, INITIAL, quiet, Pending(false, None, true), [Done]);
    assert [] + [MARKER] == [MARKER] && quiet + [Done] == [Done];
    NothingHeld(codec, [MARKER], Pending(false, None, true), [Done]);
  }

  const NO_TOKENS := Obj(map["prompt_tokens" := Int(0), "completion_tokens" := Int(0), "total_tokens" := Int(0)])
  const STOPPED := Obj(map["finish_reason" := Str("stop")])
  const FINISHED := Obj(map["choices" := Arr([STOPPED]), "usage" := NO_TOKENS])
  const NOTHING := Usage(0, 0, 0, 0, 0, 0, 0, 0)

  lemma StoppedChoices()
    ensures Choices(INITIAL, [STOPPED]) == (Pending(true, Some(Stop), false), [])
  {
    hide CallEvents;
    assert At(At(STOPPED, "delta"), "tool_calls") == Null;
    var calls: seq<Value> := [];
    assert CallEvents(calls) == [] by {
      CallEventsNone();
    }
    assert ChoiceEvents(STOPPED) == [];
    assert At(STOPPED, "finish_reason") == Str("stop");
    hide ChoiceEvents, At;
    var none: seq<Value> := [];
    assert [STOPPED][..0] == none && Choices(INITIAL, none) == (INITIAL, []);
  }

  lemma CallEventsNone()
    ensures CallEvents([]) == []
  {
  }

  lemma CountsOfNothing()
    ensures Required(NO_TOKENS, "prompt_tokens") == Ok(0) && Required(NO_TOKENS, "completion_tokens") == Ok(0)
    ensures Required(NO_TOKENS, "total_tokens") == Ok(0)
    ensures Details(NO_TOKENS, "prompt_tokens_details") == Ok(Null)
    ensures Details(NO_TOKENS, "completion_tokens_details") == Ok(Null)
    ensures OptionalCount(NO_TOKENS, "prompt_cache_hit_tokens") == Ok(0)
  {
  }

  lemma CacheOfNothing()
    ensures CachePart(NO_TOKENS, Null, Null, 0, 0, 0) == Ok(NOTHING)
  {
    CountsOfNothing();
    hide NO_TOKENS;
  }

  lemma TotalOfNothing()
    ensures TotalPart(NO_TOKENS, Null, Null, 0, 0, 0) == Ok(NOTHING)
  {
    CacheOfNothing();
    hide NO_TOKENS, CachePart;
  }

  lemma NoTokens()
    ensures UsageOf(NO_TOKENS) == Ok(NOTHING) && NO_TOKENS.Obj?
  {
    CountsOfNothing();
    TotalOfNothing();
    hide Required, Details, TotalPart, OptionalCount;
  }

  lemma FinishedFields()
    ensures Missing(FINISHED, "error") && At(FINISHED, "usage") == NO_TOKENS
    ensures Get(FINISHED, "choices") == Some(Arr([STOPPED])) && At(FINISHED, "choices") == Arr([STOPPED])
  {
    hide NO_TOKENS, STOPPED;
  }

  lemma FinishedEvents()
    ensures ChunkEvents(INITIAL, FINISHED)
         == Ok((Pending(false, None, true), [Finish(Some(Stop), None), UsageReport(NOTHING), Done]))
  {
    StoppedChoices();
    NoTokens();
    FinishedFields();
    hide UsageOf, Choices, FINISHED, NO_TOKENS, STOPPED, At, Get, Missing;
    var none: seq<StreamEvent> := [];
    var es := [Finish(Some(Stop), None), UsageReport(NOTHING), Done];
    assert none + es == es;
  }

  /** Two markers after a frame that settled a finish: the second one emits a `Done`. */
  lemma TwoMarkers(codec: Codec, x: Frame, es: seq<StreamEvent>)
    requires FrameEvents(codec, INITIAL, x) == Ok((Pending(false, None, true), es))
    ensures WholeRun(codec, [x, MARKER, MARKER]) == Ok((Pending(false, None, true), es + [Done]))
  {
    hide Run, WholeRun, FrameEvents, Marked, MARKER;
    var quiet: seq<StreamEvent> := [];
    var done, idle := Pending(false, None, true), Pending(false, None, false);
    EmptyStream(codec);
    RunSnoc(codec, [], x, INITIAL, quiet, done, es);
    assert [] + [x] == [x] && quiet + es == es && es + quiet == es;
    MarkerFrame(codec, done);
    MarkerFrame(codec, idle);
    MarkedIs(done);
    MarkedIs(idle);
    RunSnoc(codec, [x], MARKER, done, es, idle, quiet);
    RunSnoc(codec, [x] + [MARKER], MARKER, idle, es, done, [Done]);
    assert [x] + [MARKER] + [MARKER] == [x, MARKER, MARKER];
    NothingHeld(codec, [x, MARKER, MARKER], done, es + [Done]);
  }

  /** A finish with its usage and two markers: the first marker is swallowed, the second is not. */
  lemma SecondMarker(codec: Codec, x: Frame)
    requires x.event == "message" && x.data != "[DONE]" && codec.parse(x.data) == Some(FINISHED)
    ensures WholeRun(codec, [x, MARKER, MARKER])
         == Ok((Pending(false, None, true), [Finish(Some(Stop), None), UsageReport(NOTHING), Done] + [Done]))
    ensures AnyBears(codec, [x, MARKER, MARKER])
  {
    FinishedFrame(codec, x);
    hide WholeRun, FrameEvents, MARKER, FINISHED, Bears, NOTHING;
    TwoMarkers(codec, x, [Finish(Some(Stop), None), UsageReport(NOTHING), Done]);
    assert Bears(codec, [x, MARKER, MARKER][0]);
  }

  lemma FinishedFrame(codec: Codec, x: Frame)
    requires x.event == "message" && x.data != "[DONE]" && codec.parse(x.data) == Some(FINISHED)
    ensures Bears(codec, x)
    ensures FrameEvents(codec, INITIAL, x)
         == Ok((Pending(false, None, true), [Finish(Some(Stop), None), UsageReport(NOTHING), Done]))
  {
    FinishedEvents();
    FinishedBears(codec, x);
    hide ChunkEvents, FINISHED, Bears;
  }

  lemma FinishedBears(codec: Codec, x: Frame)
    requires x.event == "message" && x.data != "[DONE]" && codec.parse(x.data) == Some(FINISHED)
    ensures Bears(codec, x)
  {
    var choices := Elements(At(FINISHED, "choices"));
    assert choices == [STOPPED];
    assert At(choices[0], "finish_reason") == Str("stop");
  }

  // ----- the marker last

  /** No frame before the last is the `[DONE]` marker. */
  predicate MarkerLast(frames: seq<Frame>) {
    forall i :: 0 <= i < |frames| - 1 ==> !IsMarker(frames[i])
  }

  lemma {:induction false} NoMarkers(codec: Codec, frames: seq<Frame>)
    requires forall i :: 0 <= i < |frames| ==> !IsMarker(frames[i])
    ensures MarkersSince(codec, frames) == 0 && LoneMarkers(codec, frames) == 0
  {
    hide Bears, IsMarker, StandsAlone;
    if frames != [] {
      NoMarkers(codec, frames[..|frames| - 1]);
    }
  }

  /** With the marker at most once and last, every finish has its own `Done`, and a `Done` stands
      alone exactly when the marker closes a stream no frame of which bears a finish. */
  lemma DoneExact(codec: Codec, frames: seq<Frame>)
    requires WholeRun(codec, frames).Ok? && MarkerLast(frames)
    ensures var es := WholeRun(codec, frames).value.1;
            CountDone(es) == CountFinish(es)
                             + (if frames != [] && IsMarker(frames[|frames| - 1]) && !AnyBears(codec, frames)
                                then 1 else 0)
  {
    hide WholeRun, AnyBears, MarkersSince, UsageCame, IsMarker;
    LoneMarkersExact(codec, frames);
    if frames != [] {
      var init, x := frames[..|frames| - 1], frames[|frames| - 1];
      NoMarkers(codec, init);
      AnyBearsGrows(codec, init, x);
      assert init + [x] == frames;
      if IsMarker(x) {
        MarkerIsBare(codec, x);
      }
    }
  }

  /** One finish-bearing frame and at most one marker, placed last: exactly one finish and exactly
      one `Done`, wherever the usage reports stand. */
  lemma OneFinishOneDone(codec: Codec, frames: seq<Frame>, at: nat)
    requires WholeRun(codec, frames).Ok? && MarkerLast(frames)
    requires at < |frames| && forall i :: 0 <= i < |frames| ==> (Bears(codec, frames[i]) <==> i == at)
    ensures CountFinish(WholeRun(codec, frames).value.1) == 1
    ensures CountDone(WholeRun(codec, frames).value.1) == 1
    ensures Reasons(WholeRun(codec, frames).value.1) == [ReasonOf(codec, frames[at])]
  {
    hide WholeRun, Bears, Settles, CountFinish, CountDone, ReasonOf, Reasons;
    WholeRunReasons(codec, frames);
    WholeRunExact(codec, frames);
    DoneExact(codec, frames);
    assert Bears(codec, frames[at]) && AnyBears(codec, frames);
    assert Live(codec, frames) == {at};
    NoneLive(codec, frames, 0, at);
    NoneLive(codec, frames, at + 1, |frames|);
  }

  // ----- the mutable parser

  lemma ChoicesStep(p: Pending, choices: seq<Value>, i: nat)
    requires i < |choices|
    ensures Choices(p, choices[..i + 1])
         == (ChoiceReason(Choices(p, choices[..i]).0, choices[i]),
             Choices(p, choices[..i]).1 + ChoiceEvents(choices[i]))
  {
    assert choices[..i + 1][..i] == choices[..i];
  }

  /** `PendingFinish`. */
  class PendingFinish {
    var seen: bool
    var reason: Option<FinishReason>
    var doneEmitted: bool

    function Now(): Pending
      reads this
    {
      Pending(seen, reason, doneEmitted)
    }

    constructor ()
      ensures Now() == INITIAL
    {
      seen, reason, doneEmitted := false, None, false;
    }

    method Record(raw: string)
      modifies this
      ensures Now() == Recorded(old(Now()), raw)
    {
      seen, reason, doneEmitted := true, Some(FinishReasonOf(raw)), false;
    }

    method TakeFinish() returns (es: seq<StreamEvent>)
      modifies this
      ensures (Now(), es) == Taken(old(Now()))
    {
      if !seen {
        return [];
      }
      es := [Finish(reason, None)];
      seen, reason := false, None;
    }

    method FinishMarker() returns (es: seq<StreamEvent>)
      modifies this
      ensures (Now(), es) == Marked(old(Now()))
    {
      if doneEmitted {
        doneEmitted := false;
        return [];
      }
      es := TakeFinish();
      es := es + [Done];
      seen, reason, doneEmitted := false, None, true;
    }

    method FlushPendingFinish() returns (es: seq<StreamEvent>)
      modifies this
      ensures (Now(), es) == Flushed(old(Now()))
    {
      es := [];
      if seen {
        es := FinishMarker();
      }
    }

    /** The loop over a frame's choices. */
    method ReadChoices(choices: seq<Value>) returns (es: seq<StreamEvent>)
      modifies this
      ensures (Now(), es) == Choices(old(Now()), choices)
    {
      es := [];
      hide ChoiceEvents, FinishReasonOf;
      for i := 0 to |choices|
        invariant (Now(), es) == Choices(old(Now()), choices[..i])
      {
        ChoicesStep(old(Now()), choices, i);
        es := es + ChoiceEvents(choices[i]);
        var raw := At(choices[i], "finish_reason");
        if raw.Str? {
          Record(raw.s);
        }
      }
      assert choices[..|choices|] == choices;
    }

    /** `events_of_frame`: the choices, and then the usage report with the finish it lets go. */
    method EventsOfFrame(raw: Value) returns (r: Result<seq<StreamEvent>, WireError>)
      requires Exclusive(Now())
      modifies this
      ensures match ChunkEvents(old(Now()), raw)
              case Err(e) => r == Err(e)
              case Ok((p, es)) => Now() == p && r == Ok(es)
    {
      hide Choices, UsageOf;
      if !Missing(raw, "error") {
        return Err(EmbeddedError);
      }
      var usage, choices := At(raw, "usage"), Get(raw, "choices");
      if !usage.Null? && !usage.Obj? {
        return Err(InvalidUsage);
      }
      if !(choices.Some? && choices.value.Arr?) && !(choices.None? && usage.Obj?) {
        return Err(InvalidChoices);
      }
      var listed := if choices.Some? then Elements(choices.value) else [];
      ChoicesEffect(Now(), listed);
      var es := ReadChoices(listed);
      if usage.Null? {
        return Ok(es);
      }
      var finish := TakeFinish();
      var counted := UsageOf(usage);
      if counted.Err? {
        return Err(counted.error);
      }
      var report := [UsageReport(counted.value)];
      if finish != [] {
        doneEmitted := true;
        assert finish + report + [Done] == [finish[0], UsageReport(counted.value), Done];
        return Ok(es + (finish + report + [Done]));
      }
      return Ok(es + report);
    }

    /** One dispatched frame. */
    method ReadFrame(codec: Codec, frame: Frame) returns (r: Result<seq<StreamEvent>, WireError>)
      requires Exclusive(Now())
      modifies this
      ensures match FrameEvents(codec, old(Now()), frame)
              case Err(e) => r == Err(e)
              case Ok((p, es)) => Now() == p && r == Ok(es) && Exclusive(Now())
    {
      hide ChunkEvents;
      if FrameEvents(codec, Now(), frame).Ok? {
        FrameEffect(codec, Now(), frame);
      }
      if frame.event == "error" {
        return Ok([Error(ProviderProtocolError, None)]);
      }
      if frame.data == "[DONE]" {
        var es := FinishMarker();
        return Ok(es);
      }
      var raw := codec.parse(frame.data);
      if raw.None? {
        return Err(InvalidJson);
      }
      r := EventsOfFrame(raw.value);
    }
  }
}
