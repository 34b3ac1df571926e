/** The Gemini text wire: usage evidence, the stream machine and the buffered answer. */
module Gemini {
  import opened Common
  import opened Json
  import opened Events
  import Text
  import Chat

  datatype GeminiError =
    | FrameAfterTerminal | BadSignature | BadFinishReason | MetadataNotAnObject | InvalidCount
    | CountsDecrease | NoUsageMetadata | NoPromptOrTotal | CachedExceedsPrompt | CountsOverflow
    | NoCandidatesCount | TotalMismatch | EmbeddedError | NoCandidates

  // ----- usage

  const KEYS: seq<string> := [
    "promptTokenCount", "candidatesTokenCount", "thoughtsTokenCount", "toolUsePromptTokenCount",
    "cachedContentTokenCount", "totalTokenCount"]

  function MetaCount(meta: Value, key: string): Result<nat, GeminiError> {
    if Missing(meta, key) then Ok(0)
    else match AsU64(At(meta, key))
      case None => Err(InvalidCount)
      case Some(n) => Ok(n)
  }

  /** What a count reads as: zero when it is absent. */
  function Count(meta: Value, key: string): nat {
    match MetaCount(meta, key) case Ok(n) => n case Err(_) => 0
  }

  function MetaSum(a: nat, b: nat): Result<nat, GeminiError> {
    if a + b <= U64_MAX then Ok(a + b) else Err(CountsOverflow)
  }

  /** `usage_of`. */
  function UsageOf(meta: Value): Result<Usage, GeminiError> {
    if !meta.Obj? then Err(NoUsageMetadata)
    else match (AsU64(At(meta, "promptTokenCount")), AsU64(At(meta, "totalTokenCount")))
      case (Some(prompt), Some(total)) =>
        (match MetaCount(meta, "cachedContentTokenCount")
         case Err(e) => Err(e)
         case Ok(cached) =>
           if cached > prompt then Err(CachedExceedsPrompt) else UsageRest(meta, prompt, total, cached))
      case _ => Err(NoPromptOrTotal)
  }

  function UsageRest(meta: Value, prompt: nat, total: nat, cached: nat): Result<Usage, GeminiError> {
    match MetaCount(meta, "toolUsePromptTokenCount")
    case Err(e) => Err(e)
    case Ok(tool) =>
      match MetaSum(prompt, tool)
      case Err(e) => Err(e)
      case Ok(input) =>
        match MetaCount(meta, "thoughtsTokenCount")
        case Err(e) => Err(e)
        case Ok(thoughts) =>
          match MetaSum(input, thoughts)
          case Err(e) => Err(e)
          case Ok(known) =>
            if Get(meta, "candidatesTokenCount").None? && known < total then Err(NoCandidatesCount)
            else match MetaCount(meta, "candidatesTokenCount")
              case Err(e) => Err(e)
              case Ok(candidates) =>
                match MetaSum(candidates, thoughts)
                case Err(e) => Err(e)
                case Ok(output) =>
                  match MetaSum(input, output)
                  case Err(e) => Err(e)
                  case Ok(sum) =>
                    if sum != total then Err(TotalMismatch)
                    else Ok(Usage(input, output, cached, 0, 0, 0, thoughts, 0))
  }

  /** Every count is readable, the cached part is within the prompt, and the total closes. */
  predicate Closes(meta: Value) {
    && meta.Obj?
    && AsU64(At(meta, "promptTokenCount")).Some? && AsU64(At(meta, "totalTokenCount")).Some?
    && (forall k :: 0 <= k < |KEYS| ==> MetaCount(meta, KEYS[k]).Ok?)
    && Count(meta, "cachedContentTokenCount") <= Count(meta, "promptTokenCount")
    && Count(meta, "totalTokenCount")
       == Count(meta, "promptTokenCount") + Count(meta, "toolUsePromptTokenCount")
          + Count(meta, "candidatesTokenCount") + Count(meta, "thoughtsTokenCount")
  }

  lemma KeyNames()
    ensures |KEYS| == 6 && KEYS[0] == "promptTokenCount" && KEYS[1] == "candidatesTokenCount"
    ensures KEYS[2] == "thoughtsTokenCount" && KEYS[3] == "toolUsePromptTokenCount"
    ensures KEYS[4] == "cachedContentTokenCount" && KEYS[5] == "totalTokenCount"
  {
  }

  /** Usage is read exactly when the counts close; then prompt and completion add up to the total,
      and the cached and reasoning parts are within their wholes. */
  lemma UsageExact(meta: Value)
    ensures UsageOf(meta).Ok? <==> Closes(meta)
    ensures UsageOf(meta).Ok? ==>
              var u := UsageOf(meta).value;
              && u.input + u.output == Count(meta, "totalTokenCount")
              && u.cacheRead <= u.input && u.reasoning <= u.output
              && u.cacheRead == Count(meta, "cachedContentTokenCount")
              && u.reasoning == Count(meta, "thoughtsTokenCount")
              && u.input == Count(meta, "promptTokenCount") + Count(meta, "toolUsePromptTokenCount")
  {
    KeyNames();
    hide KEYS;
    if Closes(meta) {
      assert MetaCount(meta, KEYS[0]).Ok? && MetaCount(meta, KEYS[1]).Ok? && MetaCount(meta, KEYS[2]).Ok?;
      assert MetaCount(meta, KEYS[3]).Ok? && MetaCount(meta, KEYS[4]).Ok? && MetaCount(meta, KEYS[5]).Ok?;
    }
  }

  // ----- parts

  function FinishReasonOf(raw: string, producedCalls: bool): FinishReason {
    if producedCalls then ToolCalls
    else if raw == "STOP" then Stop
    else if raw == "MAX_TOKENS" then Length
    else if raw == "SAFETY" || raw == "PROHIBITED_CONTENT" || raw == "BLOCKLIST" then ContentFilter
    else Other(raw)
  }

  function SyntheticCallId(position: nat, name: string): string {
    "call_" + Text.Decimal(position) + "_" + name
  }

  function CallSignature(part: Value): Result<Option<string>, GeminiError> {
    if Missing(part, "thoughtSignature") then Ok(None)
    else match AsStr(At(part, "thoughtSignature"))
      case Some(s) => if s != "" then Ok(Some(s)) else Err(BadSignature)
      case None => Err(BadSignature)
  }

  /** The call a `functionCall` part makes, as the `position`-th call of the answer. */
  function CallOf(codec: Codec, position: nat, part: Value): Result<Chat.ToolCall, GeminiError> {
    var call := At(part, "functionCall");
    var name := StrOr(At(call, "name"), "");
    match CallSignature(part)
    case Err(e) => Err(e)
    case Ok(signature) =>
      var arguments := match Get(call, "args") case None => "{}" case Some(v) => codec.render(v);
      Ok(Chat.ToolCall(SyntheticCallId(position, name), name, arguments, signature))
  }

  predicate IsCall(part: Value) {
    Get(part, "functionCall").Some?
  }

  predicate IsThought(part: Value) {
    At(part, "thought") == Bool(true)
  }

  function CallEvent(position: nat, call: Chat.ToolCall): StreamEvent {
    ToolCallDelta(if position <= U32_MAX then position else U32_MAX,
                  Some(call.id), Some(call.name), call.arguments, call.signature)
  }

  /** What the stream makes of parts, after `seen` calls: the calls seen and the events. */
  function StreamParts(codec: Codec, seen: nat, parts: seq<Value>): Result<(nat, seq<StreamEvent>), GeminiError> {
    if parts == [] then Ok((seen, []))
    else match StreamParts(codec, seen, parts[..|parts| - 1])
      case Err(e) => Err(e)
      case Ok((n, events)) =>
        var part := parts[|parts| - 1];
        if IsCall(part) then
          match CallOf(codec, n, part)
          case Err(e) => Err(e)
          case Ok(call) => Ok((n + 1, events + [CallEvent(n, call)]))
        else
          match AsStr(At(part, "text"))
          case None => Ok((n, events))
          case Some(text) =>
            if text == "" then Ok((n, events))
            else if IsThought(part) then Ok((n, events + [ThinkingDelta(0, 0, text)]))
            else Ok((n, events + [Delta(0, text)]))
  }

  /** What the buffered reader collects from parts. */
  datatype Buffer = Buffer(texts: seq<string>, thinking: seq<(string, Option<string>)>, calls: seq<Chat.ToolCall>)

  function BufferParts(codec: Codec, parts: seq<Value>): Result<Buffer, GeminiError> {
    if parts == [] then Ok(Buffer([], [], []))
    else match BufferParts(codec, parts[..|parts| - 1])
      case Err(e) => Err(e)
      case Ok(b) =>
        var part := parts[|parts| - 1];
        if IsCall(part) then
          match CallOf(codec, |b.calls|, part)
          case Err(e) => Err(e)
          case Ok(call) => Ok(b.(calls := b.calls + [call]))
        else
          match AsStr(At(part, "text"))
          case None => Ok(b)
          case Some(text) =>
            if IsThought(part) then
              Ok(b.(thinking := b.thinking + [(text, AsStr(At(part, "thoughtSignature")))]))
            else Ok(b.(texts := b.texts + [text]))
  }

  lemma {:induction false} StreamPartsAppend(codec: Codec, seen: nat, a: seq<Value>, b: seq<Value>)
    ensures StreamParts(codec, seen, a + b)
         == match StreamParts(codec, seen, a)
            case Err(e) => Err(e)
            case Ok((n, events)) =>
              match StreamParts(codec, n, b)
              case Err(e) => Err(e)
              case Ok((m, more)) => Ok((m, events + more))
  {
    hide CallOf, IsCall, IsThought;
    if b == [] {
      assert a + b == a;
      if StreamParts(codec, seen, a).Ok? {
        assert StreamParts(codec, seen, a).value.1 + [] == StreamParts(codec, seen, a).value.1;
      }
    } else {
      assert (a + b)[..|a + b| - 1] == a + b[..|b| - 1];
      StreamPartsAppend(codec, seen, a, b[..|b| - 1]);
      if StreamParts(codec, seen, a).Ok? {
        var (n, events) := StreamParts(codec, seen, a).value;
        if StreamParts(codec, n, b[..|b| - 1]).Ok? {
          var more := StreamParts(codec, n, b[..|b| - 1]).value.1;
          assert forall e :: events + (more + [e]) == (events + more) + [e];
        }
      }
    }
  }

  lemma {:induction false} StreamPartsContent(codec: Codec, seen: nat, parts: seq<Value>)
    requires StreamParts(codec, seen, parts).Ok?
    ensures forall i :: 0 <= i < |StreamParts(codec, seen, parts).value.1| ==>
              IsContent(StreamParts(codec, seen, parts).value.1[i])
    ensures seen <= StreamParts(codec, seen, parts).value.0
  {
    hide CallOf, IsCall, IsThought;
    if parts != [] {
      StreamPartsContent(codec, seen, parts[..|parts| - 1]);
    }
  }

  // ----- one frame

  function Candidate(frame: Value): Value {
    Item(At(frame, "candidates"), 0)
  }

  function PartsOf(frame: Value): seq<Value> {
    var parts := At(At(Candidate(frame), "content"), "parts");
    if parts.Arr? then parts.elems else []
  }

  /** The first finish reason any candidate carries. */
  function FirstReason(candidates: seq<Value>): Result<Option<string>, GeminiError> {
    if candidates == [] then Ok(None)
    else
      var reason := At(candidates[0], "finishReason");
      if reason.Null? then FirstReason(candidates[1..])
      else if reason.Str? then Ok(Some(reason.s))
      else Err(BadFinishReason)
  }

  function StreamFinishReason(frame: Value): Result<Option<string>, GeminiError> {
    var candidates := At(frame, "candidates");
    if candidates.Arr? then FirstReason(candidates.elems) else Ok(None)
  }

  datatype State = State(calls: nat, counts: seq<nat>, terminated: bool)

  const INITIAL := State(0, [0, 0, 0, 0, 0, 0], false)

  /** Whether a chunk is judged on a count: a terminal one on all, another on those it carries. */
  predicate Judged(meta: Value, key: string, terminal: bool) {
    terminal || !Missing(meta, key)
  }

  /** The first `n` counts held to the cross-chunk rule. */
  function Observe(counts: seq<nat>, meta: Value, terminal: bool, n: nat): (r: Result<seq<nat>, GeminiError>)
    requires n <= |KEYS| == |counts|
    ensures r.Ok? ==> |r.value| == |counts|
  {
    if n == 0 then Ok(counts)
    else match Observe(counts, meta, terminal, n - 1)
      case Err(e) => Err(e)
      case Ok(c) =>
        if !Judged(meta, KEYS[n - 1], terminal) then Ok(c)
        else match MetaCount(meta, KEYS[n - 1])
          case Err(e) => Err(e)
          case Ok(v) => if v < c[n - 1] then Err(CountsDecrease) else Ok(c[n - 1 := v])
  }

  function ObserveCounts(counts: seq<nat>, meta: Value, terminal: bool): (r: Result<seq<nat>, GeminiError>)
    requires |counts| == |KEYS|
    ensures r.Ok? ==> |r.value| == |counts|
  {
    if !meta.Obj? then Err(MetadataNotAnObject) else Observe(counts, meta, terminal, |KEYS|)
  }

  /** The end of a frame, once its parts have been read. */
  function Tail(s: State, frame: Value): (r: Result<(State, seq<StreamEvent>), GeminiError>)
    requires |s.counts| == |KEYS|
    ensures r.Ok? ==> |r.value.0.counts| == |KEYS|
  {
    var meta := Get(frame, "usageMetadata");
    match StreamFinishReason(frame)
    case Err(e) => Err(e)
    case Ok(None) =>
      if meta.None? then Ok((s, []))
      else (match ObserveCounts(s.counts, meta.value, false)
            case Err(e) => Err(e)
            case Ok(counts) => Ok((s.(counts := counts), [])))
    case Ok(Some(raw)) =>
      var finish := Finish(Some(FinishReasonOf(raw, s.calls > 0)), None);
      if meta.None? then Ok((s.(terminated := true), [finish, Done]))
      else match UsageOf(meta.value)
        case Err(e) => Err(e)
        case Ok(usage) =>
          match ObserveCounts(s.counts, meta.value, true)
          case Err(e) => Err(e)
          case Ok(counts) =>
            Ok((s.(terminated := true, counts := counts), [finish, UsageReport(usage), Done]))
  }

  function EventsOf(codec: Codec, s: State, frame: Value): (r: Result<(State, seq<StreamEvent>), GeminiError>)
    requires |s.counts| == |KEYS|
    ensures r.Ok? ==> |r.value.0.counts| == |KEYS|
  {
    if s.terminated then Err(FrameAfterTerminal)
    else match StreamParts(codec, s.calls, PartsOf(frame))
      case Err(e) => Err(e)
      case Ok((n, events)) =>
        match Tail(s.(calls := n), frame)
        case Err(e) => Err(e)
        case Ok((s', more)) => Ok((s', events + more))
  }

  function Run(codec: Codec, frames: seq<Value>): (r: Result<(State, seq<StreamEvent>), GeminiError>)
    ensures r.Ok? ==> |r.value.0.counts| == |KEYS|
  {
    if frames == [] then Ok((INITIAL, []))
    else match Run(codec, frames[..|frames| - 1])
      case Err(e) => Err(e)
      case Ok((s, events)) =>
        match EventsOf(codec, s, frames[|frames| - 1])
        case Err(e) => Err(e)
        case Ok((s', more)) => Ok((s', events + more))
  }

  // ----- the grammar of a run

  /** The terminal a frame leaves: a finish, the frame's usage when it carries one, and `Done`. */
  ghost predicate IsTerminal(tail: seq<StreamEvent>, frame: Value) {
    if Get(frame, "usageMetadata").None? then |tail| == 2 && tail[0].Finish? && tail[1].Done?
    else |tail| == 3 && tail[0].Finish? && tail[2].Done? && tail[1].UsageReport?
         && UsageOf(At(frame, "usageMetadata")) == Ok(tail[1].usage)
  }

  /** The first `n` events are content, and nothing or the last frame's terminal follows them. */
  ghost predicate ContentThenTerminal(events: seq<StreamEvent>, frames: seq<Value>, terminated: bool, n: nat) {
    && n <= |events|
    && (forall i :: 0 <= i < n ==> IsContent(events[i]))
    && (if terminated then frames != [] && IsTerminal(events[n..], frames[|frames| - 1]) else n == |events|)
  }

  lemma TailShape(s: State, frame: Value)
    requires |s.counts| == |KEYS| && !s.terminated && Tail(s, frame).Ok?
    ensures var (s', more) := Tail(s, frame).value;
            && (if s'.terminated then IsTerminal(more, frame) else more == [])
            && s'.calls == s.calls
            && (s'.terminated <==> StreamFinishReason(frame).value.Some?)
  {
    hide UsageOf, ObserveCounts;
  }

  /** Every error-free run emits content and then nothing, or the terminal of its last frame. */
  lemma {:induction false} RunGrammar(codec: Codec, frames: seq<Value>)
    requires Run(codec, frames).Ok?
    ensures var (s, events) := Run(codec, frames).value;
            exists n :: ContentThenTerminal(events, frames, s.terminated, n)
  {
    hide Tail, StreamParts, IsTerminal;
    if frames == [] {
      assert ContentThenTerminal([], frames, false, 0);
    } else {
      var init, frame := frames[..|frames| - 1], frames[|frames| - 1];
      RunGrammar(codec, init);
      var (s, events) := Run(codec, init).value;
      var (n, more) := StreamParts(codec, s.calls, PartsOf(frame)).value;
      StreamPartsContent(codec, s.calls, PartsOf(frame));
      TailShape(s.(calls := n), frame);
      var (s', last) := Tail(s.(calls := n), frame).value;
      var all := events + (more + last);
      assert Run(codec, frames).value == (s', all);
      var k := |events + more|;
      assert all[k..] == last;
      assert forall i :: 0 <= i < k ==> all[i] == (events + more)[i];
      assert ContentThenTerminal(all, frames, s'.terminated, k);
    }
  }

  // ----- the counts of a run

  /** Frame `f` reports `v` for a count. */
  predicate Reports(frame: Value, key: string, v: nat) {
    Get(frame, "usageMetadata").Some? && AsU64(At(At(frame, "usageMetadata"), key)) == Some(v)
  }

  lemma {:induction false} ObserveGrows(counts: seq<nat>, meta: Value, terminal: bool, n: nat, k: nat)
    requires n <= |KEYS| == |counts| && k < |KEYS| && Observe(counts, meta, terminal, n).Ok?
    ensures var c := Observe(counts, meta, terminal, n).value;
            && counts[k] <= c[k]
            && (k >= n ==> c[k] == counts[k])
            && (k < n && Judged(meta, KEYS[k], terminal) ==> MetaCount(meta, KEYS[k]) == Ok(c[k]))
  {
    hide KEYS, MetaCount, Judged;
    if n > 0 {
      ObserveGrows(counts, meta, terminal, n - 1, k);
    }
  }

  /** Every reported count is at most the highest seen, which the terminal frame must equal. */
  lemma {:induction false} RunCounts(codec: Codec, frames: seq<Value>, i: nat, k: nat, v: nat)
    requires Run(codec, frames).Ok? && i < |frames| && k < |KEYS|
    requires Reports(frames[i], KEYS[k], v)
    ensures v <= Run(codec, frames).value.0.counts[k]
  {
    hide KEYS, StreamParts, UsageOf;
    var init, frame := frames[..|frames| - 1], frames[|frames| - 1];
    var s := Run(codec, init).value.0;
    var n := StreamParts(codec, s.calls, PartsOf(frame)).value.0;
    TailCounts(s.(calls := n), frame, k, v);
    hide Tail;
    if i < |init| {
      RunCounts(codec, init, i, k, v);
    }
  }

  lemma TailCounts(s: State, frame: Value, k: nat, v: nat)
    requires |s.counts| == |KEYS| && Tail(s, frame).Ok? && k < |KEYS|
    ensures s.counts[k] <= Tail(s, frame).value.0.counts[k]
    ensures Reports(frame, KEYS[k], v) ==> v <= Tail(s, frame).value.0.counts[k]
    ensures StreamFinishReason(frame).value.Some? && Get(frame, "usageMetadata").Some? ==>
              Tail(s, frame).value.0.counts[k] == Count(At(frame, "usageMetadata"), KEYS[k])
  {
    hide KEYS, UsageOf, StreamFinishReason;
    var meta := At(frame, "usageMetadata");
    if Get(frame, "usageMetadata").Some? {
      var terminal := StreamFinishReason(frame).value.Some?;
      ObserveGrows(s.counts, meta, terminal, |KEYS|, k);
    }
    hide Observe;
  }

  /** The terminal frame's six counts are at least every value reported before it. */
  lemma TerminalCountsDominate(codec: Codec, frames: seq<Value>, i: nat, k: nat, v: nat)
    requires Run(codec, frames).Ok? && i < |frames| && k < |KEYS| && Reports(frames[i], KEYS[k], v)
    requires Run(codec, frames).value.0.terminated
    requires Get(frames[|frames| - 1], "usageMetadata").Some?
    ensures v <= Count(At(frames[|frames| - 1], "usageMetadata"), KEYS[k])
  {
    hide KEYS, StreamParts;
    RunCounts(codec, frames, i, k, v);
    var s := Run(codec, frames[..|frames| - 1]).value.0;
    var n := StreamParts(codec, s.calls, PartsOf(frames[|frames| - 1])).value.0;
    TailShape(s.(calls := n), frames[|frames| - 1]);
    TailCounts(s.(calls := n), frames[|frames| - 1], k, v);
    hide Tail;
  }

  // ----- the buffered answer

  datatype Answer = Answer(buffer: Buffer, finish: Option<FinishReason>, usage: Usage)

  /** `parse_response` on a decoded body. */
  function ParseResponse(codec: Codec, raw: Value): Result<Answer, GeminiError> {
    var candidates := At(raw, "candidates");
    if !Missing(raw, "error") then Err(EmbeddedError)
    else if !candidates.Arr? || candidates.elems == [] then Err(NoCandidates)
    else match BufferParts(codec, PartsOf(raw))
      case Err(e) => Err(e)
      case Ok(b) =>
        match UsageOf(At(raw, "usageMetadata"))
        case Err(e) => Err(e)
        case Ok(usage) =>
          Ok(Answer(b, match AsStr(At(Candidate(raw), "finishReason"))
                       case None => None
                       case Some(reason) => Some(FinishReasonOf(reason, b.calls != [])), usage))
  }

  function Concat(texts: seq<string>): string {
    if texts == [] then "" else Concat(texts[..|texts| - 1]) + texts[|texts| - 1]
  }

  function Thoughts(thinking: seq<(string, Option<string>)>): string {
    if thinking == [] then "" else Thoughts(thinking[..|thinking| - 1]) + thinking[|thinking| - 1].0
  }

  /** What a consumer folds out of content events. */
  datatype Folded = Folded(text: string, thinking: string, calls: seq<StreamEvent>)

  function Fold(events: seq<StreamEvent>): Folded {
    if events == [] then Folded("", "", [])
    else
      var f := Fold(events[..|events| - 1]);
      match events[|events| - 1]
      case Delta(_, content) => f.(text := f.text + content)
      case ThinkingDelta(_, _, thinking) => f.(thinking := f.thinking + thinking)
      case ToolCallDelta(_, _, _, _, _) => f.(calls := f.calls + [events[|events| - 1]])
      case _ => f
  }

  function CallEvents(calls: seq<Chat.ToolCall>): seq<StreamEvent> {
    if calls == [] then []
    else CallEvents(calls[..|calls| - 1]) + [CallEvent(|calls| - 1, calls[|calls| - 1])]
  }

  /** The events of a list of parts fold to what the buffered reader collects from it. */
  ghost predicate SameContent(events: seq<StreamEvent>, b: Buffer) {
    Fold(events) == Folded(Concat(b.texts), Thoughts(b.thinking), CallEvents(b.calls))
  }

  lemma FoldSnoc(events: seq<StreamEvent>, e: StreamEvent)
    ensures var f := Fold(events);
            Fold(events + [e])
            == match e
               case Delta(_, content) => f.(text := f.text + content)
               case ThinkingDelta(_, _, thinking) => f.(thinking := f.thinking + thinking)
               case ToolCallDelta(_, _, _, _, _) => f.(calls := f.calls + [e])
               case _ => f
  {
    assert (events + [e])[..|events + [e]| - 1] == events;
  }

  lemma {:induction false} PartsAgree(codec: Codec, parts: seq<Value>)
    ensures StreamParts(codec, 0, parts).Ok? <==> BufferParts(codec, parts).Ok?
    ensures StreamParts(codec, 0, parts).Err? ==>
              StreamParts(codec, 0, parts).error == BufferParts(codec, parts).error
    ensures StreamParts(codec, 0, parts).Ok? ==>
              && StreamParts(codec, 0, parts).value.0 == |BufferParts(codec, parts).value.calls|
              && SameContent(StreamParts(codec, 0, parts).value.1, BufferParts(codec, parts).value)
  {
    hide CallOf, IsCall, IsThought;
    if parts != [] {
      var init, part := parts[..|parts| - 1], parts[|parts| - 1];
      PartsAgree(codec, init);
      if StreamParts(codec, 0, init).Ok? {
        var (n, events) := StreamParts(codec, 0, init).value;
        var b := BufferParts(codec, init).value;
        if IsCall(part) {
          if CallOf(codec, n, part).Ok? {
            var call := CallOf(codec, n, part).value;
            FoldSnoc(events, CallEvent(n, call));
            assert (b.calls + [call])[..|b.calls|] == b.calls;
          }
        } else if At(part, "text").Str? {
          TextAgrees(events, b, At(part, "text").s, IsThought(part), AsStr(At(part, "thoughtSignature")));
        }
      }
    }
  }

  lemma TextAgrees(events: seq<StreamEvent>, b: Buffer, text: string, thought: bool, signature: Option<string>)
    requires SameContent(events, b)
    ensures SameContent(
              if text == "" then events
              else events + [if thought then ThinkingDelta(0, 0, text) else Delta(0, text)],
              if thought then b.(thinking := b.thinking + [(text, signature)])
              else b.(texts := b.texts + [text]))
  {
    FoldSnoc(events, ThinkingDelta(0, 0, text));
    FoldSnoc(events, Delta(0, text));
    assert (b.thinking + [(text, signature)])[..|b.thinking|] == b.thinking;
    assert (b.texts + [text])[..|b.texts|] == b.texts;
    assert Concat(b.texts) + "" == Concat(b.texts) && Thoughts(b.thinking) + "" == Thoughts(b.thinking);
  }

  // ----- what is read of parts

  predicate HasCall(part: Value) {
    part.Obj? && "functionCall" in part.fields
  }

  /** The texts of the parts without a call whose `thought` is `true`, or of the others. */
  function TextsIn(parts: seq<Value>, thought: bool): seq<string> {
    if parts == [] then []
    else
      var part := parts[|parts| - 1];
      var said := At(part, "text");
      TextsIn(parts[..|parts| - 1], thought)
      + (if !HasCall(part) && said.Str? && (At(part, "thought") == Bool(true)) == thought then [said.s] else [])
  }

  /** The signatures of the same parts, for those whose `thought` is `true`. */
  function ThoughtSignatures(parts: seq<Value>): seq<Option<string>> {
    if parts == [] then []
    else
      var part := parts[|parts| - 1];
      ThoughtSignatures(parts[..|parts| - 1])
      + (if !HasCall(part) && At(part, "text").Str? && At(part, "thought") == Bool(true)
         then [AsStr(At(part, "thoughtSignature"))] else [])
  }

  /** The parts with a call. */
  function CallsIn(parts: seq<Value>): seq<Value> {
    if parts == [] then []
    else
      var part := parts[|parts| - 1];
      CallsIn(parts[..|parts| - 1]) + (if HasCall(part) then [part] else [])
  }

  /** The signature of a call part is absent, null, or a text that is not empty. */
  predicate SignedWell(part: Value) {
    var signature := At(part, "thoughtSignature");
    signature == Null || (signature.Str? && signature.s != "")
  }

  /** `call` is what a part calls, as the `k`-th call of the answer. */
  predicate Calls(codec: Codec, part: Value, k: nat, call: Chat.ToolCall) {
    var called := At(part, "functionCall");
    && call.name == (if At(called, "name").Str? then At(called, "name").s else "")
    && call.id == "call_" + Text.Decimal(k) + "_" + call.name
    && call.arguments == (if called.Obj? && "args" in called.fields then codec.render(called.fields["args"]) else "{}")
    && call.signature == (if At(part, "thoughtSignature").Str? then Some(At(part, "thoughtSignature").s) else None)
  }

  lemma CallExact(codec: Codec, k: nat, part: Value)
    ensures IsCall(part) <==> HasCall(part)
    ensures CallOf(codec, k, part).Ok? <==> SignedWell(part)
    ensures CallOf(codec, k, part).Ok? ==> Calls(codec, part, k, CallOf(codec, k, part).value)
  {
    hide Text.Decimal;
  }

  function Firsts(thinking: seq<(string, Option<string>)>): seq<string> {
    if thinking == [] then [] else Firsts(thinking[..|thinking| - 1]) + [thinking[|thinking| - 1].0]
  }

  function Seconds(thinking: seq<(string, Option<string>)>): seq<Option<string>> {
    if thinking == [] then [] else Seconds(thinking[..|thinking| - 1]) + [thinking[|thinking| - 1].1]
  }

  /** The buffer holds the texts, the thoughts with their signatures and the calls of the parts, each
      in order. */
  ghost predicate ReadsParts(codec: Codec, parts: seq<Value>, b: Buffer) {
    && b.texts == TextsIn(parts, false)
    && Firsts(b.thinking) == TextsIn(parts, true) && Seconds(b.thinking) == ThoughtSignatures(parts)
    && |b.calls| == |CallsIn(parts)|
    && forall k :: 0 <= k < |b.calls| ==> Calls(codec, CallsIn(parts)[k], k, b.calls[k])
  }

  lemma PairSnoc(thinking: seq<(string, Option<string>)>, text: string, signature: Option<string>)
    ensures Firsts(thinking + [(text, signature)]) == Firsts(thinking) + [text]
    ensures Seconds(thinking + [(text, signature)]) == Seconds(thinking) + [signature]
  {
    assert (thinking + [(text, signature)])[..|thinking|] == thinking;
  }

  /** Every call part is signed well. */
  predicate AllSigned(parts: seq<Value>) {
    forall k :: 0 <= k < |parts| && HasCall(parts[k]) ==> SignedWell(parts[k])
  }

  lemma SignedSnoc(parts: seq<Value>, part: Value)
    ensures AllSigned(parts + [part]) <==> AllSigned(parts) && (HasCall(part) ==> SignedWell(part))
  {
    hide HasCall, SignedWell;
    var all := parts + [part];
    assert all[|parts|] == part;
    assert forall k :: 0 <= k < |parts| ==> all[k] == parts[k];
  }

  lemma InSnoc(parts: seq<Value>, part: Value)
    ensures var said := At(part, "text");
            var spoken := !HasCall(part) && said.Str?;
            var thought := At(part, "thought") == Bool(true);
            && TextsIn(parts + [part], true) == TextsIn(parts, true) + (if spoken && thought then [said.s] else [])
            && TextsIn(parts + [part], false) == TextsIn(parts, false) + (if spoken && !thought then [said.s] else [])
            && ThoughtSignatures(parts + [part])
               == ThoughtSignatures(parts) + (if spoken && thought then [AsStr(At(part, "thoughtSignature"))] else [])
            && CallsIn(parts + [part]) == CallsIn(parts) + (if HasCall(part) then [part] else [])
  {
    hide HasCall;
    assert (parts + [part])[..|parts + [part]| - 1] == parts;
  }

  /** A part that says nothing of a kind leaves that kind as it was. */
  lemma Unchanged<T>(s: seq<T>)
    ensures s + [] == s
  {
  }

  lemma CallStep(codec: Codec, parts: seq<Value>, part: Value, b: Buffer, call: Chat.ToolCall)
    requires ReadsParts(codec, parts, b) && HasCall(part) && Calls(codec, part, |b.calls|, call)
    ensures ReadsParts(codec, parts + [part], b.(calls := b.calls + [call]))
  {
    InSnoc(parts, part);
    hide TextsIn, ThoughtSignatures, CallsIn, Calls, HasCall, Firsts, Seconds;
  }

  lemma TextStep(codec: Codec, parts: seq<Value>, part: Value, b: Buffer)
    requires ReadsParts(codec, parts, b) && !HasCall(part) && At(part, "text").Str?
    ensures ReadsParts(codec, parts + [part],
                       if At(part, "thought") == Bool(true)
                       then b.(thinking := b.thinking + [(At(part, "text").s, AsStr(At(part, "thoughtSignature")))])
                       else b.(texts := b.texts + [At(part, "text").s]))
  {
    InSnoc(parts, part);
    PairSnoc(b.thinking, At(part, "text").s, AsStr(At(part, "thoughtSignature")));
    hide TextsIn, ThoughtSignatures, CallsIn, Calls, HasCall, Firsts, Seconds;
  }

  lemma SkipStep(codec: Codec, parts: seq<Value>, part: Value, b: Buffer)
    requires ReadsParts(codec, parts, b) && !HasCall(part) && !At(part, "text").Str?
    ensures ReadsParts(codec, parts + [part], b)
  {
    InSnoc(parts, part);
    hide TextsIn, ThoughtSignatures, CallsIn, Calls, HasCall, Firsts, Seconds;
  }

  /** The buffered reader accepts parts exactly when every call part is signed well, and then it
      holds what they say. */
  lemma {:induction false} BufferReads(codec: Codec, parts: seq<Value>)
    ensures BufferParts(codec, parts).Ok? <==> AllSigned(parts)
    ensures BufferParts(codec, parts).Ok? ==> ReadsParts(codec, parts, BufferParts(codec, parts).value)
  {
    if parts != [] {
      var init, part := parts[..|parts| - 1], parts[|parts| - 1];
      BufferReads(codec, init);
      assert init + [part] == parts;
      SignedSnoc(init, part);
      hide AllSigned, ReadsParts;
      if BufferParts(codec, init).Ok? {
        var b := BufferParts(codec, init).value;
        CallExact(codec, |b.calls|, part);
        hide CallOf, IsCall, HasCall, SignedWell, Calls;
        if IsCall(part) {
          if SignedWell(part) {
            CallStep(codec, init, part, b, CallOf(codec, |b.calls|, part).value);
          }
        } else if At(part, "text").Str? {
          TextStep(codec, init, part, b);
        } else {
          SkipStep(codec, init, part, b);
        }
      }
    }
  }

  /** A call event says a call at its position, the position saturating. */
  predicate SaysCall(codec: Codec, part: Value, k: nat, e: StreamEvent) {
    && e.ToolCallDelta? && e.id.Some? && e.name.Some?
    && e.callIndex == (if k <= U32_MAX then k else U32_MAX)
    && Calls(codec, part, k, Chat.ToolCall(e.id.value, e.name.value, e.arguments, e.callSignature))
  }

  /** The events say the texts, the thoughts and the calls of the parts, each in order. */
  ghost predicate SaysParts(codec: Codec, seen: nat, parts: seq<Value>, events: seq<StreamEvent>) {
    var f := Fold(events);
    && f.text == Concat(TextsIn(parts, false)) && f.thinking == Concat(TextsIn(parts, true))
    && SaysCalls(codec, seen, CallsIn(parts), f.calls)
  }

  lemma ConcatSnoc(texts: seq<string>, text: string)
    ensures Concat(texts + [text]) == Concat(texts) + text
  {
    assert (texts + [text])[..|texts|] == texts;
  }

  lemma CallPartIn(parts: seq<Value>, part: Value)
    requires HasCall(part)
    ensures TextsIn(parts + [part], true) == TextsIn(parts, true)
    ensures TextsIn(parts + [part], false) == TextsIn(parts, false)
    ensures CallsIn(parts + [part]) == CallsIn(parts) + [part]
  {
    InSnoc(parts, part);
    hide TextsIn, CallsIn, ThoughtSignatures, HasCall;
  }

  lemma CallFolds(events: seq<StreamEvent>, e: StreamEvent)
    requires e.ToolCallDelta?
    ensures Fold(events + [e]) == Fold(events).(calls := Fold(events).calls + [e])
  {
    FoldSnoc(events, e);
    hide Fold;
  }

  /** The same in step with the events: a call event, a text event, or no event. */
  lemma SaysCallStep(codec: Codec, seen: nat, parts: seq<Value>, part: Value, events: seq<StreamEvent>, e: StreamEvent)
    requires SaysParts(codec, seen, parts, events) && HasCall(part)
    requires SaysCall(codec, part, seen + |CallsIn(parts)|, e)
    ensures SaysParts(codec, seen, parts + [part], events + [e])
  {
    hide TextsIn, CallsIn, Calls, HasCall, Fold, Concat, SaysCall, SaysCalls;
    SaysCallIsCall(codec, part, seen + |CallsIn(parts)|, e);
    CallPartIn(parts, part);
    CallFolds(events, e);
    CallsSaid(codec, seen, CallsIn(parts), Fold(events).calls, part, e);
  }

  /** The call events say the calls of the parts, from position `seen` on. */
  ghost predicate SaysCalls(codec: Codec, seen: nat, calls: seq<Value>, events: seq<StreamEvent>) {
    |events| == |calls| && forall k :: 0 <= k < |events| ==> SaysCall(codec, calls[k], seen + k, events[k])
  }

  lemma CallsSaid(codec: Codec, seen: nat, calls: seq<Value>, events: seq<StreamEvent>, part: Value, e: StreamEvent)
    requires SaysCalls(codec, seen, calls, events) && SaysCall(codec, part, seen + |calls|, e)
    ensures SaysCalls(codec, seen, calls + [part], events + [e])
  {
    hide SaysCall;
    var all, said := calls + [part], events + [e];
    forall k | 0 <= k < |said|
      ensures SaysCall(codec, all[k], seen + k, said[k])
    {
      if k < |events| {
        assert all[k] == calls[k] && said[k] == events[k];
      }
    }
  }

  lemma SaysCallIsCall(codec: Codec, part: Value, k: nat, e: StreamEvent)
    requires SaysCall(codec, part, k, e)
    ensures e.ToolCallDelta?
  {
  }

  lemma SaysTextStep(codec: Codec, seen: nat, parts: seq<Value>, part: Value, events: seq<StreamEvent>)
    requires SaysParts(codec, seen, parts, events) && !HasCall(part) && At(part, "text").Str?
    ensures var text, thought := At(part, "text").s, At(part, "thought") == Bool(true);
            SaysParts(codec, seen, parts + [part],
                      if text == "" then events
                      else events + [if thought then ThinkingDelta(0, 0, text) else Delta(0, text)])
  {
    InSnoc(parts, part);
    TextSays(events, At(part, "text").s, At(part, "thought") == Bool(true));
    ConcatSnoc(TextsIn(parts, true), At(part, "text").s);
    ConcatSnoc(TextsIn(parts, false), At(part, "text").s);
    Unchanged(TextsIn(parts, true));
    Unchanged(TextsIn(parts, false));
    Unchanged(CallsIn(parts));
    hide TextsIn, CallsIn, SaysCalls, HasCall, Fold, Concat;
  }

  lemma SaysSkipStep(codec: Codec, seen: nat, parts: seq<Value>, part: Value, events: seq<StreamEvent>)
    requires SaysParts(codec, seen, parts, events) && !HasCall(part) && !At(part, "text").Str?
    ensures SaysParts(codec, seen, parts + [part], events)
  {
    InSnoc(parts, part);
    Unchanged(TextsIn(parts, true));
    Unchanged(TextsIn(parts, false));
    Unchanged(CallsIn(parts));
    hide TextsIn, CallsIn, SaysCalls, HasCall, Fold, Concat;
  }

  lemma CallEventSays(codec: Codec, part: Value, k: nat, call: Chat.ToolCall)
    requires Calls(codec, part, k, call)
    ensures SaysCall(codec, part, k, CallEvent(k, call))
  {
    hide Text.Decimal;
  }

  /** The stream accepts the same parts, and its events say what they say. */
  lemma {:induction false} StreamReads(codec: Codec, seen: nat, parts: seq<Value>)
    ensures StreamParts(codec, seen, parts).Ok? <==> AllSigned(parts)
    ensures StreamParts(codec, seen, parts).Ok? ==>
              && StreamParts(codec, seen, parts).value.0 == seen + |CallsIn(parts)|
              && SaysParts(codec, seen, parts, StreamParts(codec, seen, parts).value.1)
  {
    if parts != [] {
      var init, part := parts[..|parts| - 1], parts[|parts| - 1];
      StreamReads(codec, seen, init);
      assert init + [part] == parts;
      SignedSnoc(init, part);
      InSnoc(init, part);
      hide AllSigned, SaysParts, TextsIn, CallsIn, ThoughtSignatures;
      if StreamParts(codec, seen, init).Ok? {
        var (n, events) := StreamParts(codec, seen, init).value;
        CallExact(codec, n, part);
        hide CallOf, IsCall, HasCall, SignedWell, Calls, SaysCall;
        if IsCall(part) {
          if SignedWell(part) {
            CallEventSays(codec, part, n, CallOf(codec, n, part).value);
            SaysCallStep(codec, seen, init, part, events, CallEvent(n, CallOf(codec, n, part).value));
          }
        } else if At(part, "text").Str? {
          SaysTextStep(codec, seen, init, part, events);
        } else {
          SaysSkipStep(codec, seen, init, part, events);
        }
      }
    }
  }

  lemma TextSays(events: seq<StreamEvent>, text: string, thought: bool)
    ensures var f := Fold(events);
            var e := if thought then ThinkingDelta(0, 0, text) else Delta(0, text);
            Fold(if text == "" then events else events + [e])
            == if thought then f.(thinking := f.thinking + text) else f.(text := f.text + text)
  {
    FoldSnoc(events, ThinkingDelta(0, 0, text));
    FoldSnoc(events, Delta(0, text));
    assert Fold(events).text + "" == Fold(events).text && Fold(events).thinking + "" == Fold(events).thinking;
  }

  // ----- a candidate cut into frames

  function AllParts(frames: seq<Value>): seq<Value> {
    if frames == [] then [] else AllParts(frames[..|frames| - 1]) + PartsOf(frames[|frames| - 1])
  }

  predicate IsSingle(frame: Value) {
    At(frame, "candidates").Arr? && |At(frame, "candidates").elems| == 1
  }

  /** `frames` is one candidate in single-candidate frames, the last carrying its finish reason and
      its usage, and `raw` is the buffered answer with the same candidate. */
  ghost predicate Cuts(frames: seq<Value>, raw: Value) {
    && frames != [] && (forall i :: 0 <= i < |frames| ==> IsSingle(frames[i]))
    && (forall i :: 0 <= i < |frames| - 1 ==> At(Candidate(frames[i]), "finishReason").Null?)
    && At(Candidate(frames[|frames| - 1]), "finishReason").Str?
    && Get(frames[|frames| - 1], "usageMetadata").Some?
    && Missing(raw, "error") && At(raw, "candidates").Arr? && At(raw, "candidates").elems != []
    && PartsOf(raw) == AllParts(frames)
    && At(Candidate(raw), "finishReason") == At(Candidate(frames[|frames| - 1]), "finishReason")
    && At(raw, "usageMetadata") == At(frames[|frames| - 1], "usageMetadata")
  }

  lemma SingleReason(frame: Value)
    requires IsSingle(frame)
    ensures var reason := At(Candidate(frame), "finishReason");
            StreamFinishReason(frame)
            == if reason.Null? then Ok(None) else if reason.Str? then Ok(Some(reason.s)) else Err(BadFinishReason)
  {
    var candidates := At(frame, "candidates").elems;
    assert candidates[1..] == [];
    assert FirstReason(candidates[1..]) == Ok(None);
  }

  /** Reading frames without a finish reason is reading their parts, and their counts beside them. */
  lemma {:induction false} OpenRun(codec: Codec, frames: seq<Value>)
    requires forall i :: 0 <= i < |frames| ==> IsSingle(frames[i]) && At(Candidate(frames[i]), "finishReason").Null?
    ensures Run(codec, frames).Ok? ==>
              && StreamParts(codec, 0, AllParts(frames)).Ok?
              && Run(codec, frames).value.1 == StreamParts(codec, 0, AllParts(frames)).value.1
              && Run(codec, frames).value.0.calls == StreamParts(codec, 0, AllParts(frames)).value.0
              && !Run(codec, frames).value.0.terminated
  {
    hide StreamParts, ObserveCounts;
    if frames == [] {
      EmptyParts(codec);
    } else {
      var init, frame := frames[..|frames| - 1], frames[|frames| - 1];
      OpenRun(codec, init);
      SingleReason(frame);
      StreamPartsAppend(codec, 0, AllParts(init), PartsOf(frame));
      hide StreamFinishReason, PartsOf;
      if Run(codec, frames).Ok? {
        var more := StreamParts(codec, Run(codec, init).value.0.calls, PartsOf(frame)).value.1;
        assert more + [] == more;
      }
    }
  }

  lemma EmptyParts(codec: Codec)
    ensures StreamParts(codec, 0, []) == Ok((0, []))
  {
  }

  /** The stream says what the buffered answer says. */
  ghost predicate Agrees(s: State, events: seq<StreamEvent>, a: Answer) {
    && SameContent(events, a.buffer) && s.calls == |a.buffer.calls|
    && |events| >= 3
    && events[|events| - 3] == Finish(a.finish, None)
    && events[|events| - 2] == UsageReport(a.usage)
    && events[|events| - 1] == Done
  }

  lemma TerminalFolds(events: seq<StreamEvent>, finish: StreamEvent, usage: StreamEvent)
    requires finish.Finish? && usage.UsageReport?
    ensures Fold(events + [finish, usage, Done]) == Fold(events)
  {
    FoldSnoc(events, finish);
    FoldSnoc(events + [finish], usage);
    FoldSnoc(events + [finish] + [usage], Done);
    assert events + [finish] + [usage] + [Done] == events + [finish, usage, Done];
  }

  lemma TerminalTail(s: State, frame: Value, reason: string)
    requires |s.counts| == |KEYS| && Tail(s, frame).Ok?
    requires StreamFinishReason(frame) == Ok(Some(reason)) && Get(frame, "usageMetadata").Some?
    ensures UsageOf(At(frame, "usageMetadata")).Ok?
    ensures var (s', more) := Tail(s, frame).value;
            && s'.calls == s.calls
            && more == [Finish(Some(FinishReasonOf(reason, s.calls > 0)), None),
                        UsageReport(UsageOf(At(frame, "usageMetadata")).value), Done]
  {
    hide UsageOf, ObserveCounts, StreamFinishReason, FinishReasonOf;
  }

  /** The last frame of a run: its parts after the events so far, then its terminal. */
  lemma LastFrame(codec: Codec, frames: seq<Value>, reason: string)
    requires frames != [] && Run(codec, frames).Ok?
    requires StreamFinishReason(frames[|frames| - 1]) == Ok(Some(reason))
    requires Get(frames[|frames| - 1], "usageMetadata").Some?
    ensures Run(codec, frames[..|frames| - 1]).Ok?
    ensures var (s, events) := Run(codec, frames[..|frames| - 1]).value;
            var parts := StreamParts(codec, s.calls, PartsOf(frames[|frames| - 1]));
            var usage := UsageOf(At(frames[|frames| - 1], "usageMetadata"));
            && parts.Ok? && usage.Ok?
            && Run(codec, frames).value.0.calls == parts.value.0
            && Run(codec, frames).value.1
               == (events + parts.value.1)
                  + [Finish(Some(FinishReasonOf(reason, parts.value.0 > 0)), None), UsageReport(usage.value), Done]
  {
    var frame := frames[|frames| - 1];
    var (s, events) := Run(codec, frames[..|frames| - 1]).value;
    var (n, more) := StreamParts(codec, s.calls, PartsOf(frame)).value;
    TerminalTail(s.(calls := n), frame, reason);
    hide StreamParts, Tail, UsageOf, StreamFinishReason, PartsOf, FinishReasonOf;
    var last := Tail(s.(calls := n), frame).value.1;
    assert events + (more + last) == (events + more) + last;
  }

  /** The buffered parse of a cut candidate. */
  lemma CutParse(codec: Codec, frames: seq<Value>, raw: Value)
    requires Cuts(frames, raw) && BufferParts(codec, AllParts(frames)).Ok?
    requires UsageOf(At(frames[|frames| - 1], "usageMetadata")).Ok?
    ensures var b := BufferParts(codec, AllParts(frames)).value;
            ParseResponse(codec, raw)
            == Ok(Answer(b, Some(FinishReasonOf(At(Candidate(frames[|frames| - 1]), "finishReason").s, |b.calls| > 0)),
                         UsageOf(At(frames[|frames| - 1], "usageMetadata")).value))
  {
    hide BufferParts, UsageOf, PartsOf, FinishReasonOf;
  }

  /** The events of a cut candidate: its parts' events, then the terminal. */
  lemma CutRun(codec: Codec, frames: seq<Value>, raw: Value)
    requires Cuts(frames, raw) && Run(codec, frames).Ok?
    ensures var parts := StreamParts(codec, 0, AllParts(frames));
            var usage := UsageOf(At(frames[|frames| - 1], "usageMetadata"));
            && parts.Ok? && usage.Ok? && Run(codec, frames).value.0.calls == parts.value.0
            && Run(codec, frames).value.1
               == parts.value.1
                  + [Finish(Some(FinishReasonOf(At(Candidate(frames[|frames| - 1]), "finishReason").s,
                                                parts.value.0 > 0)), None),
                     UsageReport(usage.value), Done]
  {
    var init, frame := frames[..|frames| - 1], frames[|frames| - 1];
    SingleReason(frame);
    assert forall i :: 0 <= i < |init| ==> init[i] == frames[i];
    hide Run, StreamParts, StreamFinishReason, PartsOf, UsageOf, FinishReasonOf;
    LastFrame(codec, frames, At(Candidate(frame), "finishReason").s);
    OpenRun(codec, init);
    StreamPartsAppend(codec, 0, AllParts(init), PartsOf(frame));
    assert AllParts(frames) == AllParts(init) + PartsOf(frame);
  }

  /** An error-free stream of one candidate folds to the buffered parse of that candidate. */
  lemma StreamAgrees(codec: Codec, frames: seq<Value>, raw: Value)
    requires Cuts(frames, raw) && frames != [] && Run(codec, frames).Ok?
    ensures ParseResponse(codec, raw).Ok?
    ensures Agrees(Run(codec, frames).value.0, Run(codec, frames).value.1, ParseResponse(codec, raw).value)
  {
    hide Run, Cuts, AllParts, StreamParts, BufferParts, UsageOf, Fold, FinishReasonOf, ParseResponse;
    CutRun(codec, frames, raw);
    PartsAgree(codec, AllParts(frames));
    CutParse(codec, frames, raw);
    var content := StreamParts(codec, 0, AllParts(frames)).value.1;
    var a := ParseResponse(codec, raw).value;
    TerminalFolds(content, Finish(a.finish, None), UsageReport(a.usage));
  }

  // ----- when the stream accepts what the buffered reader accepts

  predicate Carries(frame: Value, key: string) {
    Get(frame, "usageMetadata").Some? && !Missing(At(frame, "usageMetadata"), key)
  }

  /** The value of a count in the last frame that carries it, zero when none does. */
  function LastCount(frames: seq<Value>, key: string): nat {
    if frames == [] then 0
    else if Carries(frames[|frames| - 1], key) then Count(At(frames[|frames| - 1], "usageMetadata"), key)
    else LastCount(frames[..|frames| - 1], key)
  }

  /** The frame's metadata, if any, is an object, and each count it carries is readable and no lower
      than the same count in the last earlier frame that carries it. */
  predicate CountsFollow(before: seq<Value>, frame: Value) {
    Get(frame, "usageMetadata").Some? ==>
      && At(frame, "usageMetadata").Obj?
      && forall k :: 0 <= k < |KEYS| && Carries(frame, KEYS[k]) ==>
           && MetaCount(At(frame, "usageMetadata"), KEYS[k]).Ok?
           && LastCount(before, KEYS[k]) <= Count(At(frame, "usageMetadata"), KEYS[k])
  }

  predicate CountsHold(frames: seq<Value>) {
    forall i :: 0 <= i < |frames| ==> CountsFollow(frames[..i], frames[i])
  }

  /** A count is held to the rule exactly when it is judged, readable and not lower. */
  predicate CountFits(counts: seq<nat>, meta: Value, terminal: bool, k: nat)
    requires k < |KEYS| == |counts|
  {
    Judged(meta, KEYS[k], terminal) ==> MetaCount(meta, KEYS[k]).Ok? && counts[k] <= Count(meta, KEYS[k])
  }

  lemma {:induction false} ObserveExact(counts: seq<nat>, meta: Value, terminal: bool, n: nat)
    requires n <= |KEYS| == |counts|
    ensures Observe(counts, meta, terminal, n).Ok? <==> forall k :: 0 <= k < n ==> CountFits(counts, meta, terminal, k)
    ensures Observe(counts, meta, terminal, n).Ok? ==>
              forall k :: 0 <= k < |KEYS| ==>
                Observe(counts, meta, terminal, n).value[k]
                == if k < n && Judged(meta, KEYS[k], terminal) then Count(meta, KEYS[k]) else counts[k]
  {
    hide KEYS, MetaCount, Judged;
    if n > 0 {
      ObserveExact(counts, meta, terminal, n - 1);
      assert Observe(counts, meta, terminal, n).Ok?
        <==> Observe(counts, meta, terminal, n - 1).Ok? && CountFits(counts, meta, terminal, n - 1);
    }
  }

  /** The highest counts seen are the last ones carried. */
  ghost predicate CountsAre(counts: seq<nat>, frames: seq<Value>) {
    |counts| == |KEYS| && forall k :: 0 <= k < |KEYS| ==> counts[k] == LastCount(frames, KEYS[k])
  }

  /** The counts of a frame without a finish reason. */
  lemma OpenCounts(s: State, before: seq<Value>, frame: Value)
    requires CountsAre(s.counts, before) && StreamFinishReason(frame) == Ok(None)
    ensures Tail(s, frame).Ok? <==> CountsFollow(before, frame)
    ensures Tail(s, frame).Ok? ==> CountsAre(Tail(s, frame).value.0.counts, before + [frame])
  {
    hide KEYS, MetaCount, StreamFinishReason;
    assert (before + [frame])[..|before + [frame]| - 1] == before;
    var meta := At(frame, "usageMetadata");
    if Get(frame, "usageMetadata").Some? && meta.Obj? {
      ObserveExact(s.counts, meta, false, |KEYS|);
      forall k | 0 <= k < |KEYS|
        ensures Judged(meta, KEYS[k], false) <==> Carries(frame, KEYS[k])
        ensures CountFits(s.counts, meta, false, k)
           <==> (Carries(frame, KEYS[k]) ==>
                   MetaCount(meta, KEYS[k]).Ok? && LastCount(before, KEYS[k]) <= Count(meta, KEYS[k]))
      {
      }
    }
    hide Observe;
  }

  /** Frames without a finish reason are accepted exactly when their parts are readable and their
      counts hold. */
  lemma {:induction false} OpenRunExact(codec: Codec, frames: seq<Value>)
    requires forall i :: 0 <= i < |frames| ==> IsSingle(frames[i]) && At(Candidate(frames[i]), "finishReason").Null?
    ensures Run(codec, frames).Ok? <==> StreamParts(codec, 0, AllParts(frames)).Ok? && CountsHold(frames)
    ensures Run(codec, frames).Ok? ==> CountsAre(Run(codec, frames).value.0.counts, frames)
  {
    hide StreamParts, KEYS, Tail, CountsFollow;
    OpenRun(codec, frames);
    if frames == [] {
      EmptyParts(codec);
      KeyCount();
    } else {
      var init, frame := frames[..|frames| - 1], frames[|frames| - 1];
      OpenRunExact(codec, init);
      OpenRun(codec, init);
      SingleReason(frame);
      StreamPartsAppend(codec, 0, AllParts(init), PartsOf(frame));
      HoldsSnoc(frames);
      hide StreamFinishReason, PartsOf, CountsHold, CountsAre;
      if Run(codec, init).Ok? {
        var s := Run(codec, init).value.0;
        if StreamParts(codec, s.calls, PartsOf(frame)).Ok? {
          var n := StreamParts(codec, s.calls, PartsOf(frame)).value.0;
          CountsOnly(s, n, init);
          OpenCounts(s.(calls := n), init, frame);
          assert init + [frame] == frames;
        }
      }
    }
  }

  lemma KeyCount()
    ensures CountsAre(INITIAL.counts, [])
  {
    KeyNames();
  }

  lemma CountsOnly(s: State, n: nat, frames: seq<Value>)
    requires CountsAre(s.counts, frames)
    ensures CountsAre(s.(calls := n).counts, frames)
  {
  }

  lemma HoldsSnoc(frames: seq<Value>)
    requires frames != []
    ensures CountsHold(frames)
       <==> && CountsHold(frames[..|frames| - 1])
            && CountsFollow(frames[..|frames| - 1], frames[|frames| - 1])
  {
    hide CountsFollow;
    var init := frames[..|frames| - 1];
    assert forall i :: 0 <= i < |init| ==> init[..i] == frames[..i] && init[i] == frames[i];
  }

  /** The terminal frame's counts, the omitted ones read as zero, are no lower than those before. */
  predicate TerminalFollows(before: seq<Value>, meta: Value) {
    forall k :: 0 <= k < |KEYS| ==> LastCount(before, KEYS[k]) <= Count(meta, KEYS[k])
  }

  lemma TerminalCounts(s: State, before: seq<Value>, frame: Value, reason: string)
    requires CountsAre(s.counts, before) && StreamFinishReason(frame) == Ok(Some(reason))
    requires Get(frame, "usageMetadata").Some?
    ensures var meta := At(frame, "usageMetadata");
            Tail(s, frame).Ok? <==> UsageOf(meta).Ok? && TerminalFollows(before, meta)
  {
    hide KEYS, MetaCount, StreamFinishReason, UsageOf, FinishReasonOf;
    var meta := At(frame, "usageMetadata");
    UsageExact(meta);
    ObserveExact(s.counts, meta, true, |KEYS|);
    assert Tail(s, frame).Ok? <==> UsageOf(meta).Ok? && ObserveCounts(s.counts, meta, true).Ok?;
    hide Observe, LastCount;
    if Closes(meta) {
      forall k | 0 <= k < |KEYS|
        ensures CountFits(s.counts, meta, true, k) <==> LastCount(before, KEYS[k]) <= Count(meta, KEYS[k])
      {
      }
    }
  }

  /** One candidate in frames is accepted exactly when the buffered reader accepts it whole and no
      count decreases on the way. */
  lemma StreamExact(codec: Codec, frames: seq<Value>, raw: Value)
    requires Cuts(frames, raw)
    ensures Run(codec, frames).Ok?
       <==> && ParseResponse(codec, raw).Ok? && CountsHold(frames[..|frames| - 1])
            && TerminalFollows(frames[..|frames| - 1], At(frames[|frames| - 1], "usageMetadata"))
  {
    var init, frame := frames[..|frames| - 1], frames[|frames| - 1];
    assert forall i :: 0 <= i < |init| ==> init[i] == frames[i];
    PartsAgree(codec, AllParts(frames));
    StreamPartsAppend(codec, 0, AllParts(init), PartsOf(frame));
    SingleReason(frame);
    OpenRun(codec, init);
    OpenRunExact(codec, init);
    assert AllParts(frames) == AllParts(init) + PartsOf(frame);
    ParseNeeds(codec, frames, raw);
    if Run(codec, init).Ok? {
      var s := Run(codec, init).value.0;
      hide StreamParts, Tail, BufferParts, StreamFinishReason, PartsOf, UsageOf, CountsHold, CountsAre,
        TerminalFollows, AllParts, ParseResponse;
      if StreamParts(codec, s.calls, PartsOf(frame)).Ok? {
        var n := StreamParts(codec, s.calls, PartsOf(frame)).value.0;
        CountsOnly(s, n, init);
        TerminalCounts(s.(calls := n), init, frame, At(Candidate(frame), "finishReason").s);
      }
    }
  }

  lemma ParseNeeds(codec: Codec, frames: seq<Value>, raw: Value)
    requires Cuts(frames, raw)
    ensures ParseResponse(codec, raw).Ok?
       <==> BufferParts(codec, AllParts(frames)).Ok? && UsageOf(At(frames[|frames| - 1], "usageMetadata")).Ok?
  {
    hide BufferParts, UsageOf, PartsOf, FinishReasonOf;
  }

  // ----- the mutable parser

  lemma StreamPartsStep(codec: Codec, seen: nat, parts: seq<Value>, i: nat)
    requires i < |parts|
    ensures StreamParts(codec, seen, parts[..i + 1])
         == match StreamParts(codec, seen, parts[..i])
            case Err(e) => Err(e)
            case Ok((n, events)) =>
              if IsCall(parts[i]) then
                match CallOf(codec, n, parts[i])
                case Err(e) => Err(e)
                case Ok(call) => Ok((n + 1, events + [CallEvent(n, call)]))
              else
                match AsStr(At(parts[i], "text"))
                case None => Ok((n, events))
                case Some(text) =>
                  if text == "" then Ok((n, events))
                  else if IsThought(parts[i]) then Ok((n, events + [ThinkingDelta(0, 0, text)]))
                  else Ok((n, events + [Delta(0, text)]))
  {
    assert parts[..i + 1][..i] == parts[..i];
  }

  lemma {:induction false} StreamPartsFails(codec: Codec, seen: nat, parts: seq<Value>, i: nat)
    requires i <= |parts| && StreamParts(codec, seen, parts[..i]).Err?
    ensures StreamParts(codec, seen, parts) == StreamParts(codec, seen, parts[..i])
  {
    StreamPartsAppend(codec, seen, parts[..i], parts[i..]);
    assert parts[..i] + parts[i..] == parts;
  }

  lemma {:induction false} BufferPartsFails(codec: Codec, parts: seq<Value>, i: nat)
    requires i <= |parts| && BufferParts(codec, parts[..i]).Err?
    ensures BufferParts(codec, parts) == BufferParts(codec, parts[..i])
    decreases |parts| - i
  {
    if i < |parts| {
      assert parts[..i + 1][..i] == parts[..i];
      BufferPartsFails(codec, parts, i + 1);
    } else {
      assert parts[..i] == parts;
    }
  }

  lemma {:induction false} ObserveFails(counts: seq<nat>, meta: Value, terminal: bool, n: nat)
    requires n <= |KEYS| == |counts| && Observe(counts, meta, terminal, n).Err?
    ensures Observe(counts, meta, terminal, |KEYS|) == Observe(counts, meta, terminal, n)
    decreases |KEYS| - n
  {
    if n < |KEYS| {
      ObserveFails(counts, meta, terminal, n + 1);
    }
  }

  /** One stream, mid-parse. */
  class GeminiSseParser {
    var toolCallsSeen: nat
    const countsSeen: array<nat>
    var terminated: bool

    ghost predicate Valid() {
      countsSeen.Length == |KEYS|
    }

    ghost function Now(): State
      reads this, countsSeen
    {
      State(toolCallsSeen, countsSeen[..], terminated)
    }

    constructor ()
      ensures Valid() && Now() == INITIAL && fresh(countsSeen)
    {
      toolCallsSeen, terminated := 0, false;
      countsSeen := new nat[6](_ => 0);
      new;
      assert countsSeen[..] == INITIAL.counts;
    }

    method HoldCounts(meta: Value, terminal: bool) returns (refused: Option<GeminiError>)
      requires Valid()
      modifies countsSeen
      ensures match ObserveCounts(old(countsSeen[..]), meta, terminal)
              case Err(e) => refused == Some(e)
              case Ok(counts) => refused.None? && countsSeen[..] == counts
    {
      if !meta.Obj? {
        return Some(MetadataNotAnObject);
      }
      ghost var before := countsSeen[..];
      hide MetaCount;
      for n := 0 to |KEYS|
        invariant Observe(before, meta, terminal, n) == Ok(countsSeen[..])
      {
        var key := KEYS[n];
        hide KEYS;
        if terminal || !Missing(meta, key) {
          var value := MetaCount(meta, key);
          if value.Err? {
            ObserveFails(before, meta, terminal, n + 1);
            return Some(value.error);
          }
          if value.value < countsSeen[n] {
            ObserveFails(before, meta, terminal, n + 1);
            return Some(CountsDecrease);
          }
          countsSeen[n] := value.value;
        }
      }
      return None;
    }

    /** The loop over the parts of a frame's candidate. */
    method ReadParts(codec: Codec, parts: seq<Value>) returns (read: Result<seq<StreamEvent>, GeminiError>)
      modifies this`toolCallsSeen
      ensures match StreamParts(codec, old(toolCallsSeen), parts)
              case Err(e) => read == Err(e)
              case Ok((n, events)) => read == Ok(events) && toolCallsSeen == n
      ensures read.Ok? ==> SaysParts(codec, old(toolCallsSeen), parts, read.value)
    {
      StreamReads(codec, toolCallsSeen, parts);
      hide SaysParts;
      var events: seq<StreamEvent> := [];
      hide CallOf, IsCall, IsThought;
      for i := 0 to |parts|
        invariant StreamParts(codec, old(toolCallsSeen), parts[..i]) == Ok((toolCallsSeen, events))
      {
        StreamPartsStep(codec, old(toolCallsSeen), parts, i);
        hide StreamParts;
        var part := parts[i];
        if IsCall(part) {
          var call := CallOf(codec, toolCallsSeen, part);
          if call.Err? {
            StreamPartsFails(codec, old(toolCallsSeen), parts, i + 1);
            return Err(call.error);
          }
          events := events + [CallEvent(toolCallsSeen, call.value)];
          toolCallsSeen := toolCallsSeen + 1;
        } else {
          var text := StrOr(At(part, "text"), "");
          if text != "" {
            if IsThought(part) {
              events := events + [ThinkingDelta(0, 0, text)];
            } else {
              events := events + [Delta(0, text)];
            }
          }
        }
      }
      assert parts[..|parts|] == parts;
      return Ok(events);
    }

    method ReadFrame(codec: Codec, frame: Value) returns (read: Result<seq<StreamEvent>, GeminiError>)
      requires Valid()
      modifies this, countsSeen
      ensures match EventsOf(codec, old(Now()), frame)
              case Err(e) => read == Err(e)
              case Ok((s, events)) => Now() == s && read == Ok(events)
    {
      if terminated {
        return Err(FrameAfterTerminal);
      }
      hide StreamParts, StreamFinishReason, UsageOf, FinishReasonOf, ObserveCounts, PartsOf;
      var content := ReadParts(codec, PartsOf(frame));
      if content.Err? {
        return content;
      }
      var meta := Get(frame, "usageMetadata");
      var reason := StreamFinishReason(frame);
      if reason.Err? {
        return Err(reason.error);
      }
      if reason.value.None? {
        if meta.Some? {
          var refused := HoldCounts(meta.value, false);
          if refused.Some? {
            return Err(refused.value);
          }
        }
        assert content.value + [] == content.value;
        return content;
      }
      terminated := true;
      var finish := Finish(Some(FinishReasonOf(reason.value.value, toolCallsSeen > 0)), None);
      if meta.None? {
        return Ok(content.value + [finish, Done]);
      }
      var usage := UsageOf(meta.value);
      if usage.Err? {
        return Err(usage.error);
      }
      var refused := HoldCounts(meta.value, true);
      if refused.Some? {
        return Err(refused.value);
      }
      return Ok(content.value + [finish, UsageReport(usage.value), Done]);
    }
  }

  /** The buffered reader's loop over the parts of the first candidate. */
  method ReadBuffer(codec: Codec, parts: seq<Value>) returns (read: Result<Buffer, GeminiError>)
    ensures read == BufferParts(codec, parts)
    ensures read.Ok? ==> ReadsParts(codec, parts, read.value)
  {
    BufferReads(codec, parts);
    hide ReadsParts;
    var b := Buffer([], [], []);
    hide CallOf, IsCall, IsThought;
    for i := 0 to |parts|
      invariant BufferParts(codec, parts[..i]) == Ok(b)
    {
      assert parts[..i + 1][..i] == parts[..i];
      var part := parts[i];
      if IsCall(part) {
        var call := CallOf(codec, |b.calls|, part);
        if call.Err? {
          BufferPartsFails(codec, parts, i + 1);
          return Err(call.error);
        }
        b := b.(calls := b.calls + [call.value]);
      } else {
        var text := AsStr(At(part, "text"));
        if text.Some? {
          if IsThought(part) {
            b := b.(thinking := b.thinking + [(text.value, AsStr(At(part, "thoughtSignature")))]);
          } else {
            b := b.(texts := b.texts + [text.value]);
          }
        }
      }
    }
    assert parts[..|parts|] == parts;
    return Ok(b);
  }
}
