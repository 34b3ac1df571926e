/** The Messages stream state machine: content blocks, the pending finish and the usage fold. */
module Messages {
  import opened Common
  import opened Json
  import opened Events
  import opened WireUsage

  datatype ProtocolError =
    | InvalidBlockIndex | BlockOpenedTwice | DeltaOutsideBlock | StopOutsideBlock | BlocksStillOpen
    | BadUsage(error: UsageError)

  datatype State = State(
    closed: bool, sawFinish: bool, reason: Option<FinishReason>, stopSequence: Option<string>,
    doneEmitted: bool, open: set<nat>, seen: set<nat>, usage: WireUsage)

  const INITIAL := State(false, false, None, None, false, {}, {}, ZERO)

  /** What one call leaves: the state, and the events or the error. */
  datatype Step = Step(state: State, outcome: Result<seq<StreamEvent>, ProtocolError>)

  function StopReason(raw: string): FinishReason {
    if raw == "end_turn" then Stop
    else if raw == "max_tokens" then Length
    else if raw == "tool_use" then ToolCalls
    else if raw == "stop_sequence" then StopSequence
    else Other(raw)
  }

  function ErrorTypeCode(errorType: string): Option<ErrorCode> {
    if errorType == "overloaded_error" then Some(Capacity)
    else if errorType == "rate_limit_error" then Some(RateLimit)
    else if errorType == "authentication_error" || errorType == "permission_error" then Some(Auth)
    else if errorType == "invalid_request_error" || errorType == "not_found_error" then Some(InvalidRequest)
    else None
  }

  /** The index of a content block, a `u32`. */
  function BlockIndex(data: Value): Option<nat> {
    match AsU64(At(data, "index"))
    case Some(i) => if i <= U32_MAX then Some(i) else None
    case None => None
  }

  /** An empty text carries nothing. */
  function TextEvent(raw: Value, event: StreamEvent): seq<StreamEvent> {
    if raw.Str? && raw.s != "" then [event] else []
  }

  function DeltaEvents(data: Value, index: nat): seq<StreamEvent> {
    var delta := At(data, "delta");
    match AsStr(At(delta, "type"))
    case Some("text_delta") =>
      TextEvent(At(delta, "text"), Delta(0, StrOr(At(delta, "text"), "")))
    case Some("thinking_delta") =>
      TextEvent(At(delta, "thinking"), ThinkingDelta(0, index, StrOr(At(delta, "thinking"), "")))
    case Some("signature_delta") =>
      TextEvent(At(delta, "signature"),
                ThinkingSignatureDelta(0, index, StrOr(At(delta, "signature"), "")))
    case Some("input_json_delta") =>
      [ToolCallDelta(index, None, None, StrOr(At(delta, "partial_json"), ""), None)]
    case _ => []
  }

  function StartEvents(data: Value, index: nat): seq<StreamEvent> {
    var block := At(data, "content_block");
    match AsStr(At(block, "type"))
    case Some("redacted_thinking") =>
      (match AsStr(At(block, "data")) case None => [] case Some(d) => [RedactedThinking(0, index, d)])
    case Some("thinking") => [ThinkingDelta(0, index, "")]
    case Some("tool_use") =>
      [ToolCallDelta(index, AsStr(At(block, "id")), AsStr(At(block, "name")), "", None)]
    case _ => []
  }

  /** The usage report of one frame, folded into the whole so far. */
  function Report(s: State, raw: Value, kind: Kind): (State, Result<StreamEvent, ProtocolError>) {
    match Of(raw, kind)
    case Err(e) => (s, Err(BadUsage(e)))
    case Ok(later) =>
      match Absorb(s.usage, later)
      case None => (s, Err(BadUsage(CountShrank)))
      case Some(u) => (s.(usage := u), Ok(UsageReport(ToIr(u))))
  }

  function OnStart(s: State, data: Value): Step {
    var usage := At(At(data, "message"), "usage");
    if !usage.Obj? then Step(s, Ok([]))
    else match Report(s, usage, StreamStart)
      case (s', Err(e)) => Step(s', Err(e))
      case (s', Ok(event)) => Step(s', Ok([event]))
  }

  function OnBlockStart(s: State, data: Value): Step {
    match BlockIndex(data)
    case None => Step(s, Err(InvalidBlockIndex))
    case Some(i) =>
      if i in s.seen then Step(s, Err(BlockOpenedTwice))
      else if i in s.open then Step(s.(seen := s.seen + {i}), Err(BlockOpenedTwice))
      else Step(s.(seen := s.seen + {i}, open := s.open + {i}), Ok(StartEvents(data, i)))
  }

  function OnBlockDelta(s: State, data: Value): Step {
    match BlockIndex(data)
    case None => Step(s, Err(InvalidBlockIndex))
    case Some(i) =>
      if i in s.open then Step(s, Ok(DeltaEvents(data, i))) else Step(s, Err(DeltaOutsideBlock))
  }

  function OnBlockStop(s: State, data: Value): Step {
    match BlockIndex(data)
    case None => Step(s, Err(InvalidBlockIndex))
    case Some(i) =>
      if i in s.open then Step(s.(open := s.open - {i}), Ok([])) else Step(s, Err(StopOutsideBlock))
  }

  function OnMessageDelta(s: State, data: Value): Step {
    if s.open != {} then Step(s, Err(BlocksStillOpen))
    else match AsStr(At(At(data, "delta"), "stop_reason"))
      case None => Step(s, Ok([]))
      case Some(raw) =>
        var reason, sequence := Some(StopReason(raw)), AsStr(At(At(data, "delta"), "stop_sequence"));
        if !At(data, "usage").Obj? then
          Step(s.(sawFinish := true, doneEmitted := false, reason := reason, stopSequence := sequence),
               Ok([]))
        else
          var taken := s.(sawFinish := false, doneEmitted := false, reason := None, stopSequence := None);
          match Report(taken, At(data, "usage"), StreamDelta)
          case (s', Err(e)) => Step(s', Err(e))
          case (s', Ok(event)) =>
            Step(s'.(doneEmitted := true), Ok([Finish(reason, sequence), event, Done]))
  }

  function FailStep(s: State, code: ErrorCode, message: Option<string>): Step {
    var kept := if message.Some? && |message.value| <= 256 then message else None;
    Step(s.(closed := true), Ok([Error(code, kept)]))
  }

  function OnError(s: State, data: Value): Step {
    var error := At(data, "error");
    var code := match AsStr(At(error, "type"))
      case None => UpstreamUnavailable
      case Some(t) => match ErrorTypeCode(t) case None => UpstreamUnavailable case Some(c) => c;
    FailStep(s, code, AsStr(At(error, "message")))
  }

  /** One Messages stream event. */
  function EventsOf(s: State, event: string, data: Value): Step {
    if s.closed then Step(s, Ok([]))
    else if event == "message_start" then OnStart(s, data)
    else if event == "content_block_start" then OnBlockStart(s, data)
    else if event == "content_block_delta" then OnBlockDelta(s, data)
    else if event == "content_block_stop" then OnBlockStop(s, data)
    else if event == "message_delta" then OnMessageDelta(s, data)
    else if event == "error" && !s.doneEmitted then OnError(s, data)
    else Step(s, Ok([]))
  }

  /** The clean end of the transport. */
  function EndOfStream(s: State): (State, seq<StreamEvent>) {
    if s.closed then (s, [])
    else if s.doneEmitted then (s.(doneEmitted := false), [])
    else if !s.sawFinish then (s, [])
    else (s.(sawFinish := false, reason := None, stopSequence := None, doneEmitted := true),
          [Finish(s.reason, s.stopSequence), Done])
  }

  // ----- runs

  /** What drives the machine: a stream event, or a failure the framing reports. */
  datatype Input = Event(name: string, data: Value) | Failure(code: ErrorCode, message: Option<string>)

  function Feed(s: State, input: Input): Step {
    match input
    case Event(name, data) => EventsOf(s, name, data)
    case Failure(code, message) => FailStep(s, code, message)
  }

  /** A run before the end of the stream: its state and every event so far, or its first error.
      A failure the framing reports is only fed while the machine is open. */
  function Run(inputs: seq<Input>): Result<(State, seq<StreamEvent>), ProtocolError> {
    if inputs == [] then Ok((INITIAL, []))
    else match Run(inputs[..|inputs| - 1])
      case Err(e) => Err(e)
      case Ok((s, events)) =>
        var input := inputs[|inputs| - 1];
        if s.closed then Ok((s, events))
        else match Feed(s, input)
          case Step(_, Err(e)) => Err(e)
          case Step(s', Ok(more)) => Ok((s', events + more))
  }

  /** A whole run: the events up to and including the end of the stream. */
  function WholeRun(inputs: seq<Input>): Result<seq<StreamEvent>, ProtocolError> {
    match Run(inputs)
    case Err(e) => Err(e)
    case Ok((s, events)) => Ok(events + EndOfStream(s).1)
  }

  // ----- when a stream closes

  /** A `message_delta` that stops the message. */
  predicate IsStop(input: Input) {
    input.Event? && input.name == "message_delta" && At(At(input.data, "delta"), "stop_reason").Str?
  }

  /** The last `message_delta` that stops the message carries a usage object. */
  predicate StopCarriesUsage(history: seq<Input>) {
    if history == [] then false
    else
      var last := history[|history| - 1];
      if IsStop(last) then At(last.data, "usage").Obj? else StopCarriesUsage(history[..|history| - 1])
  }

  /** The next input closes the stream: a framing failure, or an `error` event unless the last stop
      carried usage. */
  predicate Closes(history: seq<Input>, input: Input) {
    input.Failure? || (input.name == "error" && !StopCarriesUsage(history))
  }

  predicate Closed(history: seq<Input>) {
    history != [] && (Closed(history[..|history| - 1]) || Closes(history[..|history| - 1], history[|history| - 1]))
  }

  lemma FeedCloses(s: State, input: Input)
    requires !s.closed && Feed(s, input).outcome.Ok?
    ensures Feed(s, input).state.closed <==> input.Failure? || (input.name == "error" && !s.doneEmitted)
    ensures !Feed(s, input).state.closed ==>
              Feed(s, input).state.doneEmitted
              == if IsStop(input) then At(input.data, "usage").Obj? else s.doneEmitted
  {
    hide Of, Absorb, ToIr, BlockIndex, FailStep, OnError, StopReason, StartEvents, DeltaEvents;
    if input.Failure? {
      FailCloses(s, input.code, input.message);
    } else if input.name == "error" {
      OnErrorCloses(s, input.data);
    }
  }

  /** An accepted history has closed the stream exactly when one of its inputs does so. */
  lemma {:induction false} ClosedExact(history: seq<Input>)
    requires Run(history).Ok?
    ensures Run(history).value.0.closed <==> Closed(history)
    ensures !Closed(history) ==> Run(history).value.0.doneEmitted == StopCarriesUsage(history)
  {
    hide Feed, IsStop;
    if history != [] {
      var init := history[..|history| - 1];
      ClosedExact(init);
      var s := Run(init).value.0;
      if !s.closed {
        FeedCloses(s, history[|history| - 1]);
      }
    }
  }

  // ----- the discipline of content blocks

  datatype BlockMark = Start | Delta_ | Stop_

  /** What an input does to block `i`. */
  function MarkOf(input: Input, i: nat): Option<BlockMark> {
    if input.Failure? || BlockIndex(input.data) != Some(i) then None
    else if input.name == "content_block_start" then Some(Start)
    else if input.name == "content_block_delta" then Some(Delta_)
    else if input.name == "content_block_stop" then Some(Stop_)
    else None
  }

  /** The marks of block `i`, in order, over the inputs up to the one that closes the stream. */
  function Marks(inputs: seq<Input>, i: nat): seq<BlockMark> {
    if inputs == [] then []
    else
      var before := inputs[..|inputs| - 1];
      match MarkOf(inputs[|inputs| - 1], i)
      case Some(mark) => if Closed(before) then Marks(before, i) else Marks(before, i) + [mark]
      case None => Marks(before, i)
  }

  predicate AllDeltas(marks: seq<BlockMark>) {
    forall k :: 0 <= k < |marks| ==> marks[k] == Delta_
  }

  predicate IsOpenTrace(marks: seq<BlockMark>) {
    marks != [] && marks[0] == Start && AllDeltas(marks[1..])
  }

  predicate IsClosedTrace(marks: seq<BlockMark>) {
    |marks| >= 2 && IsOpenTrace(marks[..|marks| - 1]) && marks[|marks| - 1] == Stop_
  }

  /** Where block `i` stands: its trace is empty, open or closed, as the sets say. */
  predicate BlockStands(s: State, marks: seq<BlockMark>, i: nat) {
    if i in s.open then i in s.seen && IsOpenTrace(marks)
    else if i in s.seen then IsClosedTrace(marks)
    else marks == []
  }

  /** An accepted input moves block `i` only by its mark, and only as the sets allow. */
  lemma FeedSets(s: State, input: Input, i: nat)
    requires !s.closed && Feed(s, input).outcome.Ok?
    ensures var s' := Feed(s, input).state;
            match MarkOf(input, i)
            case None => (i in s'.open <==> i in s.open) && (i in s'.seen <==> i in s.seen)
            case Some(Start) => i !in s.seen && i in s'.open && i in s'.seen
            case Some(Delta_) => i in s.open && i in s'.open && (i in s'.seen <==> i in s.seen)
            case Some(Stop_) => i in s.open && i !in s'.open && (i in s'.seen <==> i in s.seen)
  {
    hide Of, Absorb, ToIr, StartEvents, DeltaEvents, BlockIndex, FailStep, OnError, StopReason;
    if input.Event? && input.name == "error" {
      assert OnError(s, input.data).state == s.(closed := true) by {
        OnErrorCloses(s, input.data);
      }
    } else if input.Failure? {
      FailCloses(s, input.code, input.message);
    }
  }

  lemma FailCloses(s: State, code: ErrorCode, message: Option<string>)
    ensures FailStep(s, code, message).state == s.(closed := true)
    ensures FailStep(s, code, message).outcome.Ok?
    ensures |FailStep(s, code, message).outcome.value| == 1
         && FailStep(s, code, message).outcome.value[0].Error?
  {
  }

  lemma OnErrorCloses(s: State, data: Value)
    ensures OnError(s, data).state == s.(closed := true)
    ensures OnError(s, data).outcome.Ok?
    ensures |OnError(s, data).outcome.value| == 1 && OnError(s, data).outcome.value[0].Error?
  {
    hide ErrorTypeCode;
  }

  lemma FeedBlocks(s: State, input: Input, marks: seq<BlockMark>, i: nat)
    requires !s.closed && BlockStands(s, marks, i) && Feed(s, input).outcome.Ok?
    ensures BlockStands(Feed(s, input).state,
                        match MarkOf(input, i) case None => marks case Some(m) => marks + [m], i)
  {
    FeedSets(s, input, i);
    hide Feed, MarkOf;
    match MarkOf(input, i)
    case None =>
    case Some(m) =>
      var after := marks + [m];
      assert after[..|after| - 1] == marks;
      if marks != [] {
        assert after[1..] == marks[1..] + [m];
      } else {
        assert after[1..] == [];
      }
  }

  /** In every error-free run each block traces a prefix of one start, deltas and one stop. */
  lemma {:induction false} BlocksTrace(inputs: seq<Input>, i: nat)
    requires Run(inputs).Ok?
    ensures BlockStands(Run(inputs).value.0, Marks(inputs, i), i)
  {
    if inputs != [] {
      var before := inputs[..|inputs| - 1];
      BlocksTrace(before, i);
      ClosedExact(before);
      var s := Run(before).value.0;
      if !s.closed {
        FeedBlocks(s, inputs[|inputs| - 1], Marks(before, i), i);
      }
    }
  }

  // ----- the events of a run

  /** What the events so far and the state say together. */
  ghost predicate EventsStand(s: State, events: seq<StreamEvent>) {
    && FinishesSettle(events) && DonesClose(events) && ErrorIsLast(events)
    && (s.closed <==> !NoError(events))
  }

  lemma BlockEventsAreContent(data: Value, i: nat)
    ensures forall k :: 0 <= k < |StartEvents(data, i)| ==> IsContent(StartEvents(data, i)[k])
    ensures forall k :: 0 <= k < |DeltaEvents(data, i)| ==> IsContent(DeltaEvents(data, i)[k])
  {
  }

  /** The events of one input: no terminal, one settled terminal, or a failure that closes. */
  lemma FeedEvents(s: State, input: Input)
    requires !s.closed && Feed(s, input).outcome.Ok?
    ensures EventsStand(Feed(s, input).state, Feed(s, input).outcome.value)
    ensures (exists e :: e in Feed(s, input).outcome.value && e.Finish?)
       ==> s.open == {} && input.Event? && input.name == "message_delta"
  {
    hide Of, Absorb, ToIr, BlockIndex, FailStep, OnError, StopReason, StartEvents, DeltaEvents;
    if input.Failure? {
      FailCloses(s, input.code, input.message);
    } else if input.name == "content_block_start" || input.name == "content_block_delta" {
      if BlockIndex(input.data).Some? {
        BlockEventsAreContent(input.data, BlockIndex(input.data).value);
      }
    } else if input.name == "error" {
      OnErrorCloses(s, input.data);
    }
    var s', events := Feed(s, input).state, Feed(s, input).outcome.value;
    if s'.closed {
      assert events[0].Error?;
    }
  }

  lemma EventsAppend(s: State, a: seq<StreamEvent>, s': State, b: seq<StreamEvent>)
    requires !s.closed && EventsStand(s, a) && EventsStand(s', b)
    ensures EventsStand(s', a + b)
  {
    FinishesSettleAppend(a, b);
    DonesCloseAppend(a, b);
    if s'.closed {
      var i :| 0 <= i < |b| && b[i].Error?;
      assert (a + b)[|a| + i].Error?;
    }
  }

  lemma {:induction false} RunEvents(inputs: seq<Input>)
    requires Run(inputs).Ok?
    ensures EventsStand(Run(inputs).value.0, Run(inputs).value.1)
  {
    if inputs != [] {
      var before := inputs[..|inputs| - 1];
      RunEvents(before);
      var (s, events) := Run(before).value;
      if !s.closed {
        var input := inputs[|inputs| - 1];
        FeedEvents(s, input);
        EventsAppend(s, events, Feed(s, input).state, Feed(s, input).outcome.value);
      }
    }
  }

  /** Every whole error-free run settles each `Finish` with at most one usage report and `Done`,
      has no other `Done`, and ends at an in-band failure. */
  lemma WholeRunSettles(inputs: seq<Input>)
    requires WholeRun(inputs).Ok?
    ensures FinishesSettle(WholeRun(inputs).value)
    ensures DonesClose(WholeRun(inputs).value)
    ensures ErrorIsLast(WholeRun(inputs).value)
  {
    RunEvents(inputs);
    var (s, events) := Run(inputs).value;
    var (s', last) := EndOfStream(s);
    if s.closed {
      assert events + last == events;
    } else {
      EventsAppend(s, events, s', last);
    }
  }

  // ----- the usage of a run

  /** The usage reports, in order, of the inputs up to the one that closes the stream. */
  function Reports(inputs: seq<Input>): seq<WireUsage> {
    if inputs == [] then []
    else
      var before := Reports(inputs[..|inputs| - 1]);
      var input := inputs[|inputs| - 1];
      if Closed(inputs[..|inputs| - 1]) then before
      else match ReportOf(input)
        case None => before
        case Some(u) => before + [u]
  }

  /** The usage an input reports: on `message_start`, or on a `message_delta` that stops. */
  function ReportOf(input: Input): Option<WireUsage> {
    if input.Failure? then None
    else if input.name == "message_start" && At(At(input.data, "message"), "usage").Obj? then
      match Of(At(At(input.data, "message"), "usage"), StreamStart)
      case Ok(u) => Some(u)
      case Err(_) => None
    else if input.name == "message_delta" && AsStr(At(At(input.data, "delta"), "stop_reason")).Some?
            && At(input.data, "usage").Obj? then
      match Of(At(input.data, "usage"), StreamDelta)
      case Ok(u) => Some(u)
      case Err(_) => None
    else None
  }

  function UsagesOf(events: seq<StreamEvent>): seq<Usage> {
    if events == [] then []
    else
      var before := UsagesOf(events[..|events| - 1]);
      if events[|events| - 1].UsageReport? then before + [events[|events| - 1].usage] else before
  }

  lemma {:induction false} UsagesAppend(a: seq<StreamEvent>, b: seq<StreamEvent>)
    ensures UsagesOf(a + b) == UsagesOf(a) + UsagesOf(b)
  {
    if b == [] {
      assert a + b == a;
    } else {
      assert (a + b)[..|a + b| - 1] == a + b[..|b| - 1];
      UsagesAppend(a, b[..|b| - 1]);
    }
  }

  lemma FeedUsage(s: State, input: Input)
    requires !s.closed && Feed(s, input).outcome.Ok?
    ensures var events := Feed(s, input).outcome.value;
            match ReportOf(input)
            case None => Feed(s, input).state.usage == s.usage
                         && forall e :: e in events ==> !e.UsageReport?
            case Some(u) =>
              && Absorb(s.usage, u) == Some(Feed(s, input).state.usage)
              && (events == [UsageReport(ToIr(Feed(s, input).state.usage))]
                  || (|events| == 3 && events[0].Finish? && events[2].Done?
                      && events[1] == UsageReport(ToIr(Feed(s, input).state.usage))))
  {
    hide Of, Absorb, ToIr;
  }

  lemma {:induction false} NoUsages(events: seq<StreamEvent>)
    requires forall e :: e in events ==> !e.UsageReport?
    ensures UsagesOf(events) == []
  {
    if events != [] {
      NoUsages(events[..|events| - 1]);
    }
  }

  /** Every emitted usage report is the whole usage so far: the fold of the wire reports. */
  lemma {:induction false} RunUsage(inputs: seq<Input>)
    requires Run(inputs).Ok?
    ensures Fold(Reports(inputs)) == Some(Run(inputs).value.0.usage)
    ensures UsagesOf(Run(inputs).value.1) == Running(Reports(inputs))
  {
    if inputs != [] {
      var before, input := inputs[..|inputs| - 1], inputs[|inputs| - 1];
      RunUsage(before);
      ClosedExact(before);
      var (s, events) := Run(before).value;
      if !s.closed {
        FeedUsage(s, input);
        var more := Feed(s, input).outcome.value;
        UsagesAppend(events, more);
        match ReportOf(input)
        case None =>
          NoUsages(more);
        case Some(u) =>
          assert Reports(inputs) == Reports(before) + [u];
          assert Reports(inputs)[..|Reports(inputs)| - 1] == Reports(before);
          UsagesOfReport(more, ToIr(Run(inputs).value.0.usage));
      }
    }
  }

  lemma UsagesOfReport(events: seq<StreamEvent>, u: Usage)
    requires || events == [UsageReport(u)]
             || (|events| == 3 && events[0].Finish? && events[1] == UsageReport(u) && events[2].Done?)
    ensures UsagesOf(events) == [u]
  {
    if |events| == 3 {
      assert events[..2][..1] == events[..1] && events[..1][..0] == [];
      assert UsagesOf(events[..1]) == [];
    } else {
      assert events[..0] == [];
    }
  }

  /** A consumer that keeps the last non-zero value of each count ends with the stream's four counts,
      its tiers follow their law, and the cache-write group kept as one is the stream's. */
  lemma {:induction false} ConsumerKeepsUsage(inputs: seq<Input>)
    requires Run(inputs).Ok? && Reports(inputs) != []
    ensures var usages, whole := UsagesOf(Run(inputs).value.1), Run(inputs).value.0.usage;
            && Keeps(usages, ToIr(whole))
            && TiersFollow(Reports(inputs), usages, whole)
            && LastGroup(usages) == (whole.cacheWrite, whole.cacheWrite5m, whole.cacheWrite1h)
  {
    RunUsage(inputs);
    ReportsAreReports(inputs);
    hide Run, Reports, Keeps, TiersFollow, Fold, Running, UsagesOf, IsReport, LastGroup;
    ConsumerAgrees(Reports(inputs));
    GroupAgrees(Reports(inputs));
  }

  // ----- a stream whose single tier goes stale

  const WROTE := Obj(map["input_tokens" := Int(1), "cache_creation_input_tokens" := Int(10), "cache_creation" := SPLIT])
  const SPLIT := Obj(map["ephemeral_5m_input_tokens" := Int(10), "ephemeral_1h_input_tokens" := Int(0)])
  const WROTE_MORE := Obj(map["output_tokens" := Int(1), "cache_creation_input_tokens" := Int(20)])
  const STARTED := Obj(map["message" := Obj(map["usage" := WROTE])])
  const STOPPED := Obj(map["delta" := Obj(map["stop_reason" := Str("end_turn")]), "usage" := WROTE_MORE])

  const EARLY := WireUsage(1, 0, 0, 10, 10, 0)
  const LATE := WireUsage(0, 1, 0, 20, 0, 0)
  const WHOLE := WireUsage(1, 1, 0, 20, 0, 0)

  lemma SplitCounts()
    ensures WireCount(SPLIT, "ephemeral_5m_input_tokens", true) == Ok(10)
    ensures WireCount(SPLIT, "ephemeral_1h_input_tokens", true) == Ok(0) && SPLIT.Obj?
  {
  }

  lemma WroteFields()
    ensures WROTE.Obj? && WireCount(WROTE, "input_tokens", true) == Ok(1)
    ensures WireCount(WROTE, "output_tokens", false) == Ok(0)
    ensures WireCount(WROTE, "cache_read_input_tokens", false) == Ok(0)
    ensures WireCount(WROTE, "cache_creation_input_tokens", false) == Ok(10)
    ensures !Missing(WROTE, "cache_creation") && At(WROTE, "cache_creation") == SPLIT
    ensures !Missing(WROTE, "cache_creation_input_tokens")
  {
    SplitCounts();
    hide SPLIT;
  }

  lemma WroteOf()
    ensures Of(WROTE, StreamStart) == Ok(EARLY)
  {
    SplitCounts();
    WroteFields();
    hide WROTE, SPLIT, WireCount, Missing, At;
    assert Tiers(WROTE, 10) == Ok((10, 0));
  }

  lemma WroteMoreFields()
    ensures WROTE_MORE.Obj? && WireCount(WROTE_MORE, "input_tokens", false) == Ok(0)
    ensures WireCount(WROTE_MORE, "output_tokens", true) == Ok(1)
    ensures WireCount(WROTE_MORE, "cache_read_input_tokens", false) == Ok(0)
    ensures WireCount(WROTE_MORE, "cache_creation_input_tokens", false) == Ok(20)
    ensures Missing(WROTE_MORE, "cache_creation")
  {
  }

  lemma WroteMoreOf()
    ensures Of(WROTE_MORE, StreamDelta) == Ok(LATE)
  {
    WroteMoreFields();
    hide WROTE_MORE, WireCount, Missing, At;
    assert Tiers(WROTE_MORE, 20) == Ok((0, 0));
  }

  lemma EventFields()
    ensures At(At(STARTED, "message"), "usage") == WROTE && WROTE.Obj?
    ensures At(At(STOPPED, "delta"), "stop_reason") == Str("end_turn")
    ensures At(STOPPED, "usage") == WROTE_MORE && WROTE_MORE.Obj?
  {
  }

  lemma FoldEarlyLate()
    ensures Fold([EARLY]) == Some(EARLY) && Fold([EARLY, LATE]) == Some(WHOLE)
    ensures Running([EARLY, LATE]) == [ToIr(EARLY), ToIr(WHOLE)]
  {
    var none: seq<WireUsage>, two := [], [EARLY, LATE];
    assert [EARLY][..0] == none && two[..|two| - 1] == [EARLY] && two[|two| - 1] == LATE;
    assert Absorb(ZERO, EARLY) == Some(EARLY) && Absorb(EARLY, LATE) == Some(WHOLE);
    hide Absorb, ToIr, EARLY, LATE, WHOLE;
    assert Fold(none) == Some(ZERO) && Running(none) == [];
    assert Fold(two) == Some(WHOLE);
    assert Running([EARLY]) == [ToIr(EARLY)];
    assert Running(two) == [ToIr(EARLY)] + [ToIr(WHOLE)];
  }

  lemma FirstInput()
    ensures Run([Event("message_start", STARTED)]) == Ok((INITIAL.(usage := EARLY), [UsageReport(ToIr(EARLY))]))
    ensures Reports([Event("message_start", STARTED)]) == [EARLY]
  {
    var none: seq<Input>, quiet: seq<StreamEvent>, first := [], [], Event("message_start", STARTED);
    EventFields();
    WroteOf();
    assert Absorb(ZERO, EARLY) == Some(EARLY);
    hide STARTED, WROTE, Of, ToIr, At;
    assert ReportOf(first) == Some(EARLY);
    assert Feed(INITIAL, first) == Step(INITIAL.(usage := EARLY), Ok([UsageReport(ToIr(EARLY))]));
    hide Feed, ReportOf;
    assert [first][..0] == none && Run(none) == Ok((INITIAL, quiet));
    assert quiet + [UsageReport(ToIr(EARLY))] == [UsageReport(ToIr(EARLY))];
  }

  lemma SecondInput()
    ensures var s := INITIAL.(usage := EARLY);
            && ReportOf(Event("message_delta", STOPPED)) == Some(LATE)
            && Feed(s, Event("message_delta", STOPPED)).outcome.Ok?
            && Feed(s, Event("message_delta", STOPPED)).state.usage == WHOLE
  {
    EventFields();
    WroteMoreOf();
    assert Absorb(EARLY, LATE) == Some(WHOLE);
    hide STOPPED, WROTE_MORE, Of, ToIr, At, StopReason;
  }

  /** Two events after which a consumer of the single 5-minute tier is left with the old one: the
      larger total came without a split. */
  lemma TiersGoStale()
    ensures var inputs := [Event("message_start", STARTED), Event("message_delta", STOPPED)];
            && Run(inputs).Ok? && Run(inputs).value.0.usage == WHOLE
            && LastNonZero(TierColumn(UsagesOf(Run(inputs).value.1), FiveMinutes)) == 10
  {
    var first, second := Event("message_start", STARTED), Event("message_delta", STOPPED);
    var both := [first, second];
    FirstInput();
    SecondInput();
    FoldEarlyLate();
    assert both[..|both| - 1] == [first];
    assert !Closed([first]) by {
      ClosedExact([first]);
    }
    hide STARTED, STOPPED, Feed, ReportOf, Closed;
    assert Run(both).Ok? && Reports(both) == [EARLY] + [LATE];
    RunUsage(both);
    hide Run, Reports, UsagesOf, Fold, Running, LastNonZero, TierColumn, EARLY, LATE, WHOLE;
    assert [EARLY] + [LATE] == [EARLY, LATE];
    StaleColumn();
  }

  lemma StaleColumn()
    ensures LastNonZero(TierColumn([ToIr(EARLY), ToIr(WHOLE)], FiveMinutes)) == 10
  {
    var c := TierColumn([ToIr(EARLY), ToIr(WHOLE)], FiveMinutes);
    assert c == [10, 0] && c[..1] == [10];
  }

  // ----- when a run is error free

  /** A usage report the stream accepts: readable, and no bucket shrinks. */
  ghost predicate UsageLegal(reports: seq<WireUsage>, raw: Value, kind: Kind) {
    Of(raw, kind).Ok? && Monotone(reports + [Of(raw, kind).value])
  }

  /** Whether the next event is legal after a history, by the history alone. */
  ghost predicate Legal(history: seq<Input>, input: Input) {
    if input.Failure? then true
    else if input.name == "content_block_start" then
      BlockIndex(input.data).Some? && Marks(history, BlockIndex(input.data).value) == []
    else if input.name == "content_block_delta" || input.name == "content_block_stop" then
      BlockIndex(input.data).Some? && IsOpenTrace(Marks(history, BlockIndex(input.data).value))
    else if input.name == "message_start" then
      var usage := At(At(input.data, "message"), "usage");
      usage.Obj? ==> UsageLegal(Reports(history), usage, StreamStart)
    else if input.name == "message_delta" then
      && (forall i: nat :: !IsOpenTrace(Marks(history, i)))
      && (AsStr(At(At(input.data, "delta"), "stop_reason")).Some? && At(input.data, "usage").Obj? ==>
            UsageLegal(Reports(history), At(input.data, "usage"), StreamDelta))
    else true
  }

  lemma {:induction false} ReportsAreReports(inputs: seq<Input>)
    ensures forall k :: 0 <= k < |Reports(inputs)| ==> IsReport(Reports(inputs)[k])
  {
    if inputs != [] {
      ReportsAreReports(inputs[..|inputs| - 1]);
      var input := inputs[|inputs| - 1];
      if input.Event? {
        OfIsReport(At(At(input.data, "message"), "usage"), StreamStart);
        OfIsReport(At(input.data, "usage"), StreamDelta);
      }
    }
  }

  lemma UsageLegalExact(history: seq<Input>, raw: Value, kind: Kind)
    requires Run(history).Ok?
    ensures UsageLegal(Reports(history), raw, kind)
       <==> Of(raw, kind).Ok? && Absorb(Run(history).value.0.usage, Of(raw, kind).value).Some?
  {
    hide Of, Absorb, Monotone, Run, Reports, IsReport;
    if Of(raw, kind).Ok? {
      var reports, u := Reports(history), Of(raw, kind).value;
      RunUsage(history);
      ReportsAreReports(history);
      OfIsReport(raw, kind);
      assert (reports + [u])[..|reports + [u]| - 1] == reports;
      FoldExact(reports + [u]);
    }
  }

  lemma OpenIffTrace(history: seq<Input>, i: nat)
    requires Run(history).Ok?
    ensures i in Run(history).value.0.open <==> IsOpenTrace(Marks(history, i))
    ensures i in Run(history).value.0.seen <==> Marks(history, i) != []
    ensures i in Run(history).value.0.open ==> i in Run(history).value.0.seen
  {
    BlocksTrace(history, i);
    var marks := Marks(history, i);
    if IsClosedTrace(marks) && |marks| >= 2 {
      assert marks[1..][|marks| - 2] == Stop_;
    }
  }

  /** A live machine accepts an input exactly when the history makes it legal. */
  lemma FeedExact(history: seq<Input>, input: Input)
    requires Run(history).Ok? && !Closed(history)
    ensures Feed(Run(history).value.0, input).outcome.Ok? <==> Legal(history, input)
  {
    var s := Run(history).value.0;
    ClosedExact(history);
    hide Run, Closed, Marks, Reports, IsOpenTrace, Of, Absorb, ToIr, UsageLegal, StartEvents, DeltaEvents,
         BlockIndex, StopReason, FailStep, OnError;
    if input.Failure? {
      FailCloses(s, input.code, input.message);
    } else if input.name == "content_block_start" || input.name == "content_block_delta"
              || input.name == "content_block_stop" {
      if BlockIndex(input.data).Some? {
        OpenIffTrace(history, BlockIndex(input.data).value);
      }
    } else if input.name == "message_start" {
      UsageLegalExact(history, At(At(input.data, "message"), "usage"), StreamStart);
    } else if input.name == "message_delta" {
      forall i: nat
        ensures i in s.open <==> IsOpenTrace(Marks(history, i))
      {
        OpenIffTrace(history, i);
      }
      UsageLegalExact(history, At(input.data, "usage"), StreamDelta);
    } else if input.name == "error" {
      OnErrorCloses(s, input.data);
    }
  }

  /** A run is error free exactly when every input up to the one that closes the stream is legal
      after the ones before it. */
  lemma {:induction false} RunExact(inputs: seq<Input>)
    ensures Run(inputs).Ok?
       <==> forall k :: 0 <= k < |inputs| && !Closed(inputs[..k]) ==> Legal(inputs[..k], inputs[k])
  {
    hide Legal, Feed, Closed;
    if inputs != [] {
      var n := |inputs| - 1;
      var before := inputs[..n];
      RunExact(before);
      assert forall k :: 0 <= k < n ==> before[..k] == inputs[..k];
      if Run(before).Ok? {
        ClosedExact(before);
        if !Closed(before) {
          FeedExact(before, inputs[n]);
        }
      }
    }
  }

  // ----- the parser object

  class AnthropicSseParser {
    var closed: bool
    var sawFinish: bool
    var pendingReason: Option<FinishReason>
    var pendingStopSequence: Option<string>
    var doneEmitted: bool
    var openBlocks: set<nat>
    var seenBlocks: set<nat>
    var usage: WireUsage

    function Now(): State
      reads this
    {
      State(closed, sawFinish, pendingReason, pendingStopSequence, doneEmitted, openBlocks, seenBlocks,
            usage)
    }

    constructor ()
      ensures Now() == INITIAL
    {
      closed, sawFinish, pendingReason, pendingStopSequence := false, false, None, None;
      doneEmitted, openBlocks, seenBlocks, usage := false, {}, {}, ZERO;
    }

    method OpenBlock(index: nat) returns (ok: bool)
      modifies this
      ensures ok <==> index !in old(seenBlocks) && index !in old(openBlocks)
      ensures Now() == old(Now()).(
                seen := old(seenBlocks) + {index},
                open := if index in old(seenBlocks) then old(openBlocks) else old(openBlocks) + {index})
    {
      if index in seenBlocks {
        assert seenBlocks + {index} == seenBlocks;
        return false;
      }
      seenBlocks := seenBlocks + {index};
      ok := index !in openBlocks;
      openBlocks := openBlocks + {index};
    }

    method CloseBlock(index: nat) returns (ok: bool)
      modifies this
      ensures ok <==> index in old(openBlocks)
      ensures Now() == old(Now()).(open := old(openBlocks) - {index})
    {
      ok := index in openBlocks;
      openBlocks := openBlocks - {index};
    }

    method TakePendingFinish() returns (finish: Option<StreamEvent>)
      modifies this
      ensures finish == if old(sawFinish) then Some(Finish(old(pendingReason), old(pendingStopSequence)))
                        else None
      ensures Now() == if old(sawFinish)
                       then old(Now()).(sawFinish := false, reason := None, stopSequence := None)
                       else old(Now())
    {
      if !sawFinish {
        return None;
      }
      finish := Some(Finish(pendingReason, pendingStopSequence));
      sawFinish, pendingReason, pendingStopSequence := false, None, None;
    }

    method ReportUsage(raw: Value, kind: Kind) returns (r: Result<StreamEvent, ProtocolError>)
      modifies this
      ensures Now() == Report(old(Now()), raw, kind).0 && r == Report(old(Now()), raw, kind).1
    {
      var report := Of(raw, kind);
      if report.Err? {
        return Err(BadUsage(report.error));
      }
      var folded := Absorb(usage, report.value);
      if folded.None? {
        return Err(BadUsage(CountShrank));
      }
      usage := folded.value;
      return Ok(UsageReport(ToIr(usage)));
    }

    method Fail(code: ErrorCode, message: Option<string>) returns (events: seq<StreamEvent>)
      modifies this
      ensures FailStep(old(Now()), code, message) == Step(Now(), Ok(events))
    {
      closed := true;
      events := [Error(code, if message.Some? && |message.value| <= 256 then message else None)];
    }

    method MessageDelta(data: Value) returns (r: Result<seq<StreamEvent>, ProtocolError>)
      modifies this
      ensures OnMessageDelta(old(Now()), data) == Step(Now(), r)
    {
      if openBlocks != {} {
        return Err(BlocksStillOpen);
      }
      var delta := At(data, "delta");
      var reason := AsStr(At(delta, "stop_reason"));
      if reason.None? {
        return Ok([]);
      }
      sawFinish, doneEmitted := true, false;
      pendingReason := Some(StopReason(reason.value));
      pendingStopSequence := AsStr(At(delta, "stop_sequence"));
      if !At(data, "usage").Obj? {
        return Ok([]);
      }
      var finish := TakePendingFinish();
      var events := if finish.Some? then [finish.value] else [];
      var report := ReportUsage(At(data, "usage"), StreamDelta);
      if report.Err? {
        return Err(report.error);
      }
      events := events + [report.value];
      events := events + [Done];
      assert events == [finish.value, report.value, Done];
      doneEmitted := true;
      return Ok(events);
    }

    method Dispatch(event: string, data: Value) returns (r: Result<seq<StreamEvent>, ProtocolError>)
      modifies this
      ensures EventsOf(old(Now()), event, data) == Step(Now(), r)
    {
      if closed {
        return Ok([]);
      }
      if event == "message_start" {
        var raw := At(At(data, "message"), "usage");
        if raw.Obj? {
          var report := ReportUsage(raw, StreamStart);
          return if report.Err? then Err(report.error) else Ok([report.value]);
        }
        return Ok([]);
      } else if event == "content_block_start" {
        var index := BlockIndex(data);
        if index.None? {
          return Err(InvalidBlockIndex);
        }
        var ok := OpenBlock(index.value);
        if !ok {
          assert seenBlocks == old(seenBlocks) + {index.value};
          assert index.value in old(openBlocks) ==> old(openBlocks) + {index.value} == old(openBlocks);
          assert index.value in old(seenBlocks) ==> old(seenBlocks) + {index.value} == old(seenBlocks);
          return Err(BlockOpenedTwice);
        }
        return Ok(StartEvents(data, index.value));
      } else if event == "content_block_delta" {
        var index := BlockIndex(data);
        if index.None? {
          return Err(InvalidBlockIndex);
        }
        if index.value !in openBlocks {
          return Err(DeltaOutsideBlock);
        }
        return Ok(DeltaEvents(data, index.value));
      } else if event == "content_block_stop" {
        var index := BlockIndex(data);
        if index.None? {
          return Err(InvalidBlockIndex);
        }
        var ok := CloseBlock(index.value);
        if !ok {
          assert old(openBlocks) - {index.value} == old(openBlocks);
          return Err(StopOutsideBlock);
        }
        return Ok([]);
      } else if event == "message_delta" {
        r := MessageDelta(data);
      } else if event == "error" && !doneEmitted {
        var error := At(data, "error");
        var kind := AsStr(At(error, "type"));
        var code := if kind.None? then None else ErrorTypeCode(kind.value);
        var events := Fail(if code.None? then UpstreamUnavailable else code.value,
                           AsStr(At(error, "message")));
        return Ok(events);
      } else {
        return Ok([]);
      }
    }

    method Settle() returns (events: seq<StreamEvent>)
      modifies this
      ensures EndOfStream(old(Now())) == (Now(), events)
    {
      if closed {
        return [];
      }
      if doneEmitted {
        doneEmitted := false;
        return [];
      }
      var finish := TakePendingFinish();
      if finish.None? {
        return [];
      }
      doneEmitted := true;
      return [finish.value, Done];
    }
  }
}
