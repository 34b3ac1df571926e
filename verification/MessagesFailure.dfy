/** What the error of a Messages stream says, read off the input that closes it. */
module MessagesFailure {
  import opened Common
  import opened Json
  import opened Events
  import opened Messages

  datatype Reported = Reported(code: ErrorCode, message: Option<string>)

  function ErrorOf(e: StreamEvent): seq<Reported> {
    if e.Error? then [Reported(e.code, e.providerMessage)] else []
  }

  function Errors(events: seq<StreamEvent>): seq<Reported> {
    if events == [] then [] else Errors(events[..|events| - 1]) + ErrorOf(events[|events| - 1])
  }

  /** The codes of the error types a Messages upstream names. */
  const CODES: map<string, ErrorCode> := map[
    "overloaded_error" := Capacity, "rate_limit_error" := RateLimit, "authentication_error" := Auth,
    "permission_error" := Auth, "invalid_request_error" := InvalidRequest, "not_found_error" := InvalidRequest]

  /** A provider's message is passed on unless it is long. */
  function Short(message: Option<string>): Option<string> {
    if message.Some? && |message.value| > 256 then None else message
  }

  /** The failure an input reports. */
  function FailureIn(input: Input): Reported {
    match input
    case Failure(code, message) => Reported(code, Short(message))
    case Event(_, data) =>
      var kind, message := At(At(data, "error"), "type"), At(At(data, "error"), "message");
      Reported(if kind.Str? && kind.s in CODES then CODES[kind.s] else UpstreamUnavailable, Short(AsStr(message)))
  }

  /** The failure of the input that closes the stream, if one does. */
  function FailuresIn(inputs: seq<Input>): seq<Reported> {
    if inputs == [] then []
    else
      var init, input := inputs[..|inputs| - 1], inputs[|inputs| - 1];
      if !Closed(init) && Closes(init, input) then FailuresIn(init) + [FailureIn(input)] else FailuresIn(init)
  }

  lemma {:induction false} ErrorsAppend(a: seq<StreamEvent>, b: seq<StreamEvent>)
    ensures Errors(a + b) == Errors(a) + Errors(b)
  {
    hide ErrorOf;
    if b == [] {
      assert a + b == a;
    } else {
      assert (a + b)[..|a + b| - 1] == a + b[..|b| - 1];
      ErrorsAppend(a, b[..|b| - 1]);
    }
  }

  lemma {:induction false} NoErrors(events: seq<StreamEvent>)
    requires NoError(events)
    ensures Errors(events) == []
  {
    if events != [] {
      NoErrors(events[..|events| - 1]);
    }
  }

  lemma OneError(code: ErrorCode, message: Option<string>)
    ensures Errors([Error(code, message)]) == [Reported(code, message)]
  {
    assert [Error(code, message)][..0] == [];
  }

  /** The code of a named error, and of one without a known name. */
  lemma CodesListed(kind: string)
    ensures ErrorTypeCode(kind) == if kind in CODES then Some(CODES[kind]) else None
  {
  }

  lemma FailSays(s: State, code: ErrorCode, message: Option<string>)
    ensures FailStep(s, code, message).outcome == Ok([Error(code, Short(message))])
  {
  }

  lemma ErrorSays(s: State, data: Value)
    ensures var f := FailureIn(Event("error", data));
            OnError(s, data).outcome == Ok([Error(f.code, f.message)])
  {
    hide FailStep, ErrorTypeCode, CODES, Short;
    var kind := At(At(data, "error"), "type");
    if kind.Str? {
      CodesListed(kind.s);
    }
    FailSays(s, OnErrorCode(data), AsStr(At(At(data, "error"), "message")));
  }

  function OnErrorCode(data: Value): ErrorCode {
    match AsStr(At(At(data, "error"), "type"))
    case None => UpstreamUnavailable
    case Some(t) => match ErrorTypeCode(t) case None => UpstreamUnavailable case Some(c) => c
  }

  /** An open machine reports a failure exactly on an input that closes it. */
  lemma FeedFails(s: State, input: Input)
    requires !s.closed && Feed(s, input).outcome.Ok?
    ensures Errors(Feed(s, input).outcome.value)
         == if input.Failure? || (input.name == "error" && !s.doneEmitted) then [FailureIn(input)] else []
  {
    hide Errors, StartEvents, DeltaEvents, WireUsage.Of, WireUsage.Absorb, WireUsage.ToIr, BlockIndex, FailStep,
      OnError, StopReason;
    if input.Failure? {
      FailSays(s, input.code, input.message);
      OneError(input.code, Short(input.message));
    } else if input.name == "error" && !s.doneEmitted {
      ErrorSays(s, input.data);
      var f := FailureIn(input);
      OneError(f.code, f.message);
    } else {
      FeedQuiet(s, input);
      NoErrors(Feed(s, input).outcome.value);
    }
  }

  lemma FeedQuiet(s: State, input: Input)
    requires !s.closed && Feed(s, input).outcome.Ok? && input.Event? && (input.name == "error" ==> s.doneEmitted)
    ensures NoError(Feed(s, input).outcome.value)
  {
    hide WireUsage.Of, WireUsage.Absorb, WireUsage.ToIr, BlockIndex, FailStep, OnError, StopReason;
  }

  /** The errors of an error-free run: the failure of the input that closes it, and no other. */
  lemma {:induction false} RunFailures(inputs: seq<Input>)
    requires Run(inputs).Ok?
    ensures Errors(Run(inputs).value.1) == FailuresIn(inputs)
  {
    hide Feed, FailureIn, ErrorOf, Closed, StopCarriesUsage;
    if inputs != [] {
      var init, input := inputs[..|inputs| - 1], inputs[|inputs| - 1];
      RunFailures(init);
      ClosedExact(init);
      var (s, events) := Run(init).value;
      if !s.closed {
        FeedFails(s, input);
        ErrorsAppend(events, Feed(s, input).outcome.value);
      }
    }
  }

  /** A stream reports one failure when it is closed and none otherwise. */
  lemma {:induction false} FailsOnce(inputs: seq<Input>)
    ensures |FailuresIn(inputs)| == if Closed(inputs) then 1 else 0
  {
    hide Closes, FailureIn;
    if inputs != [] {
      FailsOnce(inputs[..|inputs| - 1]);
    }
  }

  /** The end of the transport adds no failure. */
  lemma WholeRunFailures(inputs: seq<Input>)
    requires WholeRun(inputs).Ok?
    ensures Errors(WholeRun(inputs).value) == FailuresIn(inputs)
  {
    RunFailures(inputs);
    hide Run, FailuresIn;
    var (s, events) := Run(inputs).value;
    var last := EndOfStream(s).1;
    NoErrors(last);
    ErrorsAppend(events, last);
  }
}
