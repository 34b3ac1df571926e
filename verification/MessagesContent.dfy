/** What the content events of a Messages stream carry, read off its inputs. */
module MessagesContent {
  import opened Common
  import opened Json
  import opened Events
  import opened Messages

  // ----- texts by channel

  /** One text a stream sends in pieces: the answer, or the thinking, the signature or the call
      arguments of a block. */
  datatype Channel = Answer | Thought(block: nat) | Signature(block: nat) | Arguments(block: nat)

  /** The piece an event sends on a channel. */
  function Sent(e: StreamEvent, c: Channel): string {
    match c
    case Answer => if e.Delta? then e.content else ""
    case Thought(i) => if e.ThinkingDelta? && e.blockIndex == i then e.thinking else ""
    case Signature(i) => if e.ThinkingSignatureDelta? && e.blockIndex == i then e.signature else ""
    case Arguments(i) => if e.ToolCallDelta? && e.callIndex == i then e.arguments else ""
  }

  function AllSent(events: seq<StreamEvent>, c: Channel): string {
    if events == [] then "" else AllSent(events[..|events| - 1], c) + Sent(events[|events| - 1], c)
  }

  /** The string member of a block's delta of the given type, and nothing for another input. */
  function DeltaText(input: Input, kind: string, member: string): string {
    if input.Event? && input.name == "content_block_delta" && At(At(input.data, "delta"), "type") == Str(kind)
    then StrOr(At(At(input.data, "delta"), member), "") else ""
  }

  predicate IsOf(input: Input, block: nat) {
    input.Event? && At(input.data, "index") == Int(block)
  }

  /** The piece an input brings on a channel. */
  function Brought(input: Input, c: Channel): string {
    match c
    case Answer => DeltaText(input, "text_delta", "text")
    case Thought(i) => if IsOf(input, i) then DeltaText(input, "thinking_delta", "thinking") else ""
    case Signature(i) => if IsOf(input, i) then DeltaText(input, "signature_delta", "signature") else ""
    case Arguments(i) => if IsOf(input, i) then DeltaText(input, "input_json_delta", "partial_json") else ""
  }

  /** Everything the inputs bring on a channel, up to the one that closes the stream. */
  function AllBrought(inputs: seq<Input>, c: Channel): string {
    if inputs == [] then ""
    else
      var init := inputs[..|inputs| - 1];
      if Closed(init) then AllBrought(init, c) else AllBrought(init, c) + Brought(inputs[|inputs| - 1], c)
  }

  lemma {:induction false} AllSentAppend(a: seq<StreamEvent>, b: seq<StreamEvent>, c: Channel)
    ensures AllSent(a + b, c) == AllSent(a, c) + AllSent(b, c)
  {
    hide Sent;
    if b == [] {
      assert a + b == a;
    } else {
      assert (a + b)[..|a + b| - 1] == a + b[..|b| - 1];
      AllSentAppend(a, b[..|b| - 1], c);
    }
  }

  lemma OneSent(e: StreamEvent, c: Channel)
    ensures AllSent([e], c) == Sent(e, c)
  {
    assert [e][..0] == [];
  }

  /** A list whose events send nothing sends nothing. */
  lemma {:induction false} NothingSent(events: seq<StreamEvent>, c: Channel)
    requires forall i :: 0 <= i < |events| ==> Sent(events[i], c) == ""
    ensures AllSent(events, c) == ""
  {
    hide Sent;
    if events != [] {
      NothingSent(events[..|events| - 1], c);
    }
  }

  lemma BlockIndexIs(data: Value)
    ensures BlockIndex(data).Some? ==> At(data, "index") == Int(BlockIndex(data).value)
  {
  }

  lemma DeltaSends(data: Value, i: nat, c: Channel)
    requires At(data, "index") == Int(i)
    ensures AllSent(DeltaEvents(data, i), c) == Brought(Event("content_block_delta", data), c)
  {
    hide AllSent;
    var events := DeltaEvents(data, i);
    if events == [] {
      NothingSent(events, c);
    } else {
      assert events == [events[0]];
      OneSent(events[0], c);
    }
  }

  lemma StartSends(data: Value, i: nat, c: Channel)
    ensures AllSent(StartEvents(data, i), c) == ""
  {
    NothingSent(StartEvents(data, i), c);
  }

  /** An accepted input sends what it brings. */
  lemma FeedSends(s: State, input: Input, c: Channel)
    requires !s.closed && Feed(s, input).outcome.Ok?
    ensures AllSent(Feed(s, input).outcome.value, c) == Brought(input, c)
  {
    hide AllSent, DeltaEvents, StartEvents, WireUsage.Of, WireUsage.Absorb, WireUsage.ToIr, BlockIndex, FailStep,
      OnError, StopReason;
    var events := Feed(s, input).outcome.value;
    if input.Failure? {
      FailCloses(s, input.code, input.message);
      NothingSent(events, c);
    } else if input.name == "content_block_delta" {
      BlockIndexIs(input.data);
      DeltaSends(input.data, BlockIndex(input.data).value, c);
    } else if input.name == "content_block_start" {
      StartSends(input.data, BlockIndex(input.data).value, c);
    } else {
      if input.name == "error" {
        OnErrorCloses(s, input.data);
      }
      NothingSent(events, c);
    }
  }

  /** On every channel, the pieces of an error-free run are those its inputs bring, in order. */
  lemma {:induction false} RunSends(inputs: seq<Input>, c: Channel)
    requires Run(inputs).Ok?
    ensures AllSent(Run(inputs).value.1, c) == AllBrought(inputs, c)
  {
    hide Feed, Sent, Brought, Closed;
    if inputs != [] {
      var init, input := inputs[..|inputs| - 1], inputs[|inputs| - 1];
      RunSends(init, c);
      ClosedExact(init);
      var (s, events) := Run(init).value;
      if !s.closed {
        FeedSends(s, input, c);
        AllSentAppend(events, Feed(s, input).outcome.value, c);
      }
    }
  }

  /** The end of the transport sends nothing more. */
  lemma WholeRunSends(inputs: seq<Input>, c: Channel)
    requires WholeRun(inputs).Ok?
    ensures AllSent(WholeRun(inputs).value, c) == AllBrought(inputs, c)
  {
    RunSends(inputs, c);
    hide Run, AllBrought;
    var (s, events) := Run(inputs).value;
    var last := EndOfStream(s).1;
    NothingSent(last, c);
    AllSentAppend(events, last, c);
  }

  /** An event of the one choice this wire has. */
  predicate OfOnlyChoice(e: StreamEvent) {
    match e
    case Delta(index, _) => index == 0
    case ThinkingDelta(index, _, _) => index == 0
    case ThinkingSignatureDelta(index, _, _) => index == 0
    case RedactedThinking(index, _, _) => index == 0
    case _ => true
  }

  lemma FeedChoice(s: State, input: Input)
    requires !s.closed && Feed(s, input).outcome.Ok?
    ensures forall e :: e in Feed(s, input).outcome.value ==> OfOnlyChoice(e)
  {
    hide WireUsage.Of, WireUsage.Absorb, WireUsage.ToIr, BlockIndex, FailStep, OnError, StopReason;
    if input.Failure? {
      FailCloses(s, input.code, input.message);
    } else if input.name == "error" {
      OnErrorCloses(s, input.data);
    }
  }

  /** Every content event belongs to the first choice. */
  lemma {:induction false} RunChoice(inputs: seq<Input>)
    requires Run(inputs).Ok?
    ensures forall e :: e in Run(inputs).value.1 ==> OfOnlyChoice(e)
  {
    hide Feed, OfOnlyChoice;
    if inputs != [] {
      var init := inputs[..|inputs| - 1];
      RunChoice(init);
      var s := Run(init).value.0;
      if !s.closed {
        FeedChoice(s, inputs[|inputs| - 1]);
      }
    }
  }

  // ----- opened calls and redacted blocks

  /** What an event says once for a block: the id and name of a call delta, or redacted data. */
  datatype Tag = Call(block: nat, id: Option<string>, name: Option<string>) | Redacted(block: nat, data: string)

  function TagOf(e: StreamEvent): seq<Tag> {
    match e
    case ToolCallDelta(i, id, name, _, _) => [Call(i, id, name)]
    case RedactedThinking(_, i, data) => [Redacted(i, data)]
    case _ => []
  }

  function Tags(events: seq<StreamEvent>): seq<Tag> {
    if events == [] then [] else Tags(events[..|events| - 1]) + TagOf(events[|events| - 1])
  }

  /** The string members of the block an input starts. */
  function Member(input: Input, name: string): Option<string>
    requires input.Event?
  {
    AsStr(At(At(input.data, "content_block"), name))
  }

  predicate Starts(input: Input, kind: string) {
    input.Event? && input.name == "content_block_start" && At(At(input.data, "content_block"), "type") == Str(kind)
  }

  predicate SendsArguments(input: Input) {
    && input.Event? && input.name == "content_block_delta"
    && At(At(input.data, "delta"), "type") == Str("input_json_delta")
  }

  function TagBrought(input: Input): seq<Tag> {
    if input.Failure? || !At(input.data, "index").Int? || At(input.data, "index").i < 0 then []
    else
      var i := At(input.data, "index").i;
      if Starts(input, "tool_use") then [Call(i, Member(input, "id"), Member(input, "name"))]
      else if Starts(input, "redacted_thinking") && Member(input, "data").Some?
      then [Redacted(i, Member(input, "data").value)]
      else if SendsArguments(input) then [Call(i, None, None)]
      else []
  }

  function TagsBrought(inputs: seq<Input>): seq<Tag> {
    if inputs == [] then []
    else
      var init := inputs[..|inputs| - 1];
      if Closed(init) then TagsBrought(init) else TagsBrought(init) + TagBrought(inputs[|inputs| - 1])
  }

  lemma {:induction false} TagsAppend(a: seq<StreamEvent>, b: seq<StreamEvent>)
    ensures Tags(a + b) == Tags(a) + Tags(b)
  {
    hide TagOf;
    if b == [] {
      assert a + b == a;
    } else {
      assert (a + b)[..|a + b| - 1] == a + b[..|b| - 1];
      TagsAppend(a, b[..|b| - 1]);
    }
  }

  lemma {:induction false} NoTags(events: seq<StreamEvent>)
    requires forall i :: 0 <= i < |events| ==> TagOf(events[i]) == []
    ensures Tags(events) == []
  {
    hide TagOf;
    if events != [] {
      NoTags(events[..|events| - 1]);
    }
  }

  lemma OneTag(e: StreamEvent)
    ensures Tags([e]) == TagOf(e)
  {
    assert [e][..0] == [];
  }

  lemma DeltaTags(data: Value, i: nat)
    requires At(data, "index") == Int(i)
    ensures Tags(DeltaEvents(data, i)) == TagBrought(Event("content_block_delta", data))
  {
    hide Tags, StrOr;
    var delta := DeltaEvents(data, i);
    if At(At(data, "delta"), "type") == Str("input_json_delta") {
      OneTag(delta[0]);
    } else {
      NoTags(delta);
    }
  }

  lemma StartTags(data: Value, i: nat)
    requires At(data, "index") == Int(i)
    ensures Tags(StartEvents(data, i)) == TagBrought(Event("content_block_start", data))
  {
    var start := StartEvents(data, i);
    assert |start| <= 1;
    if start != [] {
      assert start == [start[0]];
      OneTag(start[0]);
    }
  }

  lemma FeedTags(s: State, input: Input)
    requires !s.closed && Feed(s, input).outcome.Ok?
    ensures Tags(Feed(s, input).outcome.value) == TagBrought(input)
  {
    hide Tags, DeltaEvents, StartEvents, WireUsage.Of, WireUsage.Absorb, WireUsage.ToIr, BlockIndex, FailStep,
      OnError, StopReason;
    var events := Feed(s, input).outcome.value;
    if input.Failure? {
      FailCloses(s, input.code, input.message);
      NoTags(events);
    } else if input.name == "content_block_delta" {
      BlockIndexIs(input.data);
      DeltaTags(input.data, BlockIndex(input.data).value);
    } else if input.name == "content_block_start" {
      BlockIndexIs(input.data);
      StartTags(input.data, BlockIndex(input.data).value);
    } else {
      if input.name == "error" {
        OnErrorCloses(s, input.data);
      }
      NoTags(events);
    }
  }

  /** The call deltas and redacted blocks of an error-free run are those of its inputs, in order:
      a call delta has the id and name of the block start it comes from, and none otherwise. */
  lemma {:induction false} RunTags(inputs: seq<Input>)
    requires Run(inputs).Ok?
    ensures Tags(Run(inputs).value.1) == TagsBrought(inputs)
  {
    hide Feed, TagOf, TagBrought, Closed;
    if inputs != [] {
      var init, input := inputs[..|inputs| - 1], inputs[|inputs| - 1];
      RunTags(init);
      ClosedExact(init);
      var (s, events) := Run(init).value;
      if !s.closed {
        FeedTags(s, input);
        TagsAppend(events, Feed(s, input).outcome.value);
      }
    }
  }

  // ----- the first call delta of a block

  function CallsOf(tags: seq<Tag>, i: nat): seq<Tag> {
    if tags == [] then []
    else
      var last := tags[|tags| - 1];
      CallsOf(tags[..|tags| - 1], i) + (if last.Call? && last.block == i then [last] else [])
  }

  lemma {:induction false} CallsOfAppend(a: seq<Tag>, b: seq<Tag>, i: nat)
    ensures CallsOf(a + b, i) == CallsOf(a, i) + CallsOf(b, i)
  {
    if b == [] {
      assert a + b == a;
    } else {
      assert (a + b)[..|a + b| - 1] == a + b[..|b| - 1];
      CallsOfAppend(a, b[..|b| - 1], i);
    }
  }

  lemma TagIsMark(input: Input, i: nat)
    requires i <= U32_MAX && MarkOf(input, i).None?
    ensures CallsOf(TagBrought(input), i) == []
  {
    var tags := TagBrought(input);
    if tags != [] {
      assert tags == [tags[0]] && tags[..0] == [];
    }
  }

  lemma {:induction false} NoMarksNoCalls(inputs: seq<Input>, i: nat)
    requires i <= U32_MAX && Marks(inputs, i) == []
    ensures CallsOf(TagsBrought(inputs), i) == []
  {
    hide TagBrought, MarkOf, Closed;
    if inputs != [] {
      var init, input := inputs[..|inputs| - 1], inputs[|inputs| - 1];
      NoMarksNoCalls(init, i);
      if !Closed(init) {
        TagIsMark(input, i);
        CallsOfAppend(TagsBrought(init), TagBrought(input), i);
      }
    }
  }

  lemma {:induction false} CallsGrow(inputs: seq<Input>, k: nat, i: nat)
    requires k <= |inputs|
    ensures CallsOf(TagsBrought(inputs[..k]), i) <= CallsOf(TagsBrought(inputs), i)
    decreases |inputs| - k
  {
    hide TagBrought, Closed, CallsOf;
    if k == |inputs| {
      assert inputs[..k] == inputs;
    } else {
      assert inputs[..k + 1][..k] == inputs[..k];
      CallsOfAppend(TagsBrought(inputs[..k]), TagBrought(inputs[k]), i);
      CallsGrow(inputs, k + 1, i);
    }
  }

  lemma StartIsFirst(before: seq<Input>, input: Input, i: nat)
    requires Legal(before, input) && Starts(input, "tool_use") && IsOf(input, i)
    ensures i <= U32_MAX && Marks(before, i) == []
  {
  }

  lemma OneCall(input: Input, i: nat)
    requires Starts(input, "tool_use") && IsOf(input, i)
    ensures CallsOf(TagBrought(input), i) == [Call(i, Member(input, "id"), Member(input, "name"))]
  {
    var tag := Call(i, Member(input, "id"), Member(input, "name"));
    assert TagBrought(input) == [tag];
    assert [tag][..0] == [];
  }

  /** The first call delta of a block started as a tool use has that start's id and name. */
  lemma CallOpens(inputs: seq<Input>, k: nat, i: nat)
    requires Run(inputs).Ok? && k < |inputs| && !Closed(inputs[..k])
    requires Starts(inputs[k], "tool_use") && IsOf(inputs[k], i)
    ensures var calls := CallsOf(Tags(Run(inputs).value.1), i);
            && calls != []
            && calls[0] == Call(i, Member(inputs[k], "id"), Member(inputs[k], "name"))
  {
    hide Run, Closed, Tags, CallsOf, Legal, Marks;
    RunTags(inputs);
    RunExact(inputs);
    var before, input := inputs[..k], inputs[k];
    assert Legal(before, input);
    StartIsFirst(before, input, i);
    NoMarksNoCalls(before, i);
    assert inputs[..k + 1][..k] == before;
    CallsOfAppend(TagsBrought(before), TagBrought(input), i);
    OneCall(input, i);
    CallsGrow(inputs, k + 1, i);
  }

  // ----- what a finish says

  /** The wire's word for a finish reason. */
  function Spelling(r: FinishReason): string {
    match r
    case Stop => "end_turn"
    case Length => "max_tokens"
    case ToolCalls => "tool_use"
    case StopSequence => "stop_sequence"
    case ContentFilter => ""
    case Other(raw) => raw
  }

  /** The reason of a stop says the wire's word, and in its own name when there is one. */
  lemma ReasonSpells(raw: string)
    ensures Spelling(StopReason(raw)) == raw
    ensures StopReason(raw).Other? <==> raw !in {"end_turn", "max_tokens", "tool_use", "stop_sequence"}
  {
  }

  /** A stop: the wire's word, and the stop sequence if there is one. */
  datatype Ending = Ending(word: string, sequence: Option<string>)

  function EndingOf(e: StreamEvent): seq<Ending> {
    if e.Finish? && e.reason.Some? then [Ending(Spelling(e.reason.value), e.stopSequence)] else []
  }

  function Endings(events: seq<StreamEvent>): seq<Ending> {
    if events == [] then [] else Endings(events[..|events| - 1]) + EndingOf(events[|events| - 1])
  }

  function StopEnding(input: Input): Ending
    requires IsStop(input)
  {
    Ending(At(At(input.data, "delta"), "stop_reason").s, AsStr(At(At(input.data, "delta"), "stop_sequence")))
  }

  /** The stops that carry usage, up to the input that closes the stream. */
  function Settled(inputs: seq<Input>): seq<Ending> {
    if inputs == [] then []
    else
      var init, input := inputs[..|inputs| - 1], inputs[|inputs| - 1];
      if !Closed(init) && IsStop(input) && At(input.data, "usage").Obj? then Settled(init) + [StopEnding(input)]
      else Settled(init)
  }

  /** The last stop, when it carries no usage. */
  function Unsettled(inputs: seq<Input>): seq<Ending> {
    if inputs == [] then []
    else
      var input := inputs[|inputs| - 1];
      if !IsStop(input) then Unsettled(inputs[..|inputs| - 1])
      else if At(input.data, "usage").Obj? then []
      else [StopEnding(input)]
  }

  lemma {:induction false} EndingsAppend(a: seq<StreamEvent>, b: seq<StreamEvent>)
    ensures Endings(a + b) == Endings(a) + Endings(b)
  {
    hide EndingOf;
    if b == [] {
      assert a + b == a;
    } else {
      assert (a + b)[..|a + b| - 1] == a + b[..|b| - 1];
      EndingsAppend(a, b[..|b| - 1]);
    }
  }

  lemma {:induction false} NoEndings(events: seq<StreamEvent>)
    requires forall i :: 0 <= i < |events| ==> !events[i].Finish?
    ensures Endings(events) == []
  {
    if events != [] {
      NoEndings(events[..|events| - 1]);
    }
  }

  lemma {:induction false} FirstEnding(finish: StreamEvent, rest: seq<StreamEvent>)
    requires forall i :: 0 <= i < |rest| ==> !rest[i].Finish?
    ensures Endings([finish] + rest) == EndingOf(finish)
  {
    EndingsAppend([finish], rest);
    NoEndings(rest);
    assert [finish][..0] == [];
  }

  /** What the state holds of a stop that has not left. */
  ghost predicate Holds(s: State, pending: seq<Ending>) {
    && s.sawFinish == (pending != [])
    && (s.sawFinish ==> s.reason.Some? && pending == [Ending(Spelling(s.reason.value), s.stopSequence)])
  }

  /** A stop that carries usage leaves at once, and another is held. */
  lemma StopFeeds(s: State, input: Input)
    requires !s.closed && IsStop(input) && Feed(s, input).outcome.Ok?
    ensures var step, carried := Feed(s, input), At(input.data, "usage").Obj?;
            && Endings(step.outcome.value) == (if carried then [StopEnding(input)] else [])
            && Holds(step.state, if carried then [] else [StopEnding(input)])
  {
    ReasonSpells(At(At(input.data, "delta"), "stop_reason").s);
    hide WireUsage.Of, WireUsage.Absorb, WireUsage.ToIr, StopReason, Spelling;
    var events := Feed(s, input).outcome.value;
    if At(input.data, "usage").Obj? {
      assert events == [events[0]] + events[1..];
      FirstEnding(events[0], events[1..]);
    }
  }

  /** Another input neither finishes nor changes what is held. */
  lemma OtherFeeds(s: State, input: Input)
    requires !s.closed && !IsStop(input) && Feed(s, input).outcome.Ok?
    ensures Endings(Feed(s, input).outcome.value) == []
    ensures var s' := Feed(s, input).state;
            s'.sawFinish == s.sawFinish && s'.reason == s.reason && s'.stopSequence == s.stopSequence
  {
    hide WireUsage.Of, WireUsage.Absorb, WireUsage.ToIr, BlockIndex, FailStep, OnError, StartEvents, DeltaEvents,
      Endings;
    var events := Feed(s, input).outcome.value;
    if input.Failure? {
      FailCloses(s, input.code, input.message);
    } else if input.name == "error" {
      OnErrorCloses(s, input.data);
    } else if input.name == "content_block_start" || input.name == "content_block_delta" {
      BlockEventsAreContent(input.data, BlockIndex(input.data).value);
    }
    NoEndings(events);
  }

  lemma {:induction false} RunEndings(inputs: seq<Input>)
    requires Run(inputs).Ok?
    ensures Endings(Run(inputs).value.1) == Settled(inputs)
    ensures !Closed(inputs) ==> Holds(Run(inputs).value.0, Unsettled(inputs))
  {
    if inputs != [] {
      hide Feed, Closes, IsStop, StopEnding, EndingOf, Spelling;
      var init, input := inputs[..|inputs| - 1], inputs[|inputs| - 1];
      RunEndings(init);
      ClosedExact(init);
      var (s, events) := Run(init).value;
      if !s.closed {
        EndingsAppend(events, Feed(s, input).outcome.value);
        if IsStop(input) {
          StopFeeds(s, input);
        } else {
          OtherFeeds(s, input);
        }
      }
    }
  }

  /** The finishes of a whole error-free run say, in order, the words and sequences of the stops
      that carry usage, and then of the last stop when it carries none and the stream stayed open. */
  lemma WholeRunEndings(inputs: seq<Input>)
    requires WholeRun(inputs).Ok?
    ensures Endings(WholeRun(inputs).value) == Settled(inputs) + (if Closed(inputs) then [] else Unsettled(inputs))
  {
    RunEndings(inputs);
    ClosedExact(inputs);
    UnsettledMeans(inputs);
    hide Run, Settled, Unsettled, Closed, StopCarriesUsage, Spelling;
    var (s, events) := Run(inputs).value;
    var last := EndOfStream(s).1;
    EndingsAppend(events, last);
    if last != [] {
      assert last == [last[0]] + [Done];
      FirstEnding(last[0], [Done]);
    }
  }

  lemma {:induction false} UnsettledMeans(inputs: seq<Input>)
    ensures Unsettled(inputs) != [] ==> !StopCarriesUsage(inputs)
  {
    if inputs != [] {
      UnsettledMeans(inputs[..|inputs| - 1]);
    }
  }
}
