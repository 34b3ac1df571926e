/** The failures an `InvokeModel` stream reports in frames of their own. */
module InvokeFailure {
  import opened Common
  import opened Json
  import opened Text
  import opened Events
  import opened InvokeStream
  import InvokeEnvelope
  import Messages
  import MessagesFailure
  import Utf8

  /** The codes of the exceptions Bedrock names. */
  const EXCEPTIONS: map<string, ErrorCode> := map[
    "ThrottlingException" := RateLimit, "ModelTimeoutException" := Timeout,
    "ServiceUnavailableException" := UpstreamUnavailable, "ModelNotReadyException" := UpstreamUnavailable,
    "ModelErrorException" := Capacity, "InternalServerException" := Capacity,
    "ModelStreamErrorException" := TransportTruncated, "AccessDeniedException" := Auth,
    "UnrecognizedClientException" := Auth, "ValidationException" := InvalidRequest,
    "ResourceNotFoundException" := InvalidRequest]

  /** The same name but for the case of its first letter. */
  predicate SameName(name: string, listed: string) {
    |name| == |listed| > 0 && Lower(name[0]) == Lower(listed[0]) && name[1..] == listed[1..]
  }

  predicate NamesCode(name: string, code: ErrorCode) {
    exists listed :: listed in EXCEPTIONS && SameName(name, listed) && EXCEPTIONS[listed] == code
  }

  lemma {:induction false} CapitalIsName(name: string, listed: string)
    requires name != "" && listed != "" && 'A' <= listed[0] <= 'Z'
    ensures var upper := if 'a' <= name[0] <= 'z' then (name[0] as int - 32) as char else name[0];
            [upper] + name[1..] == listed <==> SameName(name, listed)
  {
    var upper := if 'a' <= name[0] <= 'z' then (name[0] as int - 32) as char else name[0];
    var n := [upper] + name[1..];
    assert n[0] == upper && n[1..] == name[1..];
    assert listed == [listed[0]] + listed[1..];
  }

  lemma ListedCapital(listed: string)
    requires listed in EXCEPTIONS
    ensures listed != "" && 'A' <= listed[0] <= 'Z'
  {
  }

  /** The code of a name in its listed spelling. */
  function CodeOf(n: string): Option<ErrorCode> {
    if n in EXCEPTIONS then Some(EXCEPTIONS[n]) else None
  }

  lemma CodeIs(name: string)
    requires name != "" && !('a' <= name[0] <= 'z')
    ensures ExceptionCode(name) == CodeOf(name)
  {
    assert [name[0]] + name[1..] == name;
  }

  lemma Listed(listed: string)
    requires listed in EXCEPTIONS
    ensures listed != "" && 'A' <= listed[0] <= 'Z' && ExceptionCode(listed) == Some(EXCEPTIONS[listed])
  {
    hide EXCEPTIONS, ExceptionCode;
    ListedCapital(listed);
    CodeIs(listed);
  }

  lemma FirstLetter(name: string)
    requires name != "" && 'a' <= name[0] <= 'z'
    ensures ExceptionCode(name) == ExceptionCode([(name[0] as int - 32) as char] + name[1..])
  {
    var n := [(name[0] as int - 32) as char] + name[1..];
    assert n[1..] == name[1..];
  }

  lemma OnlyListed(name: string)
    requires name != "" && ExceptionCode(name).Some? && !('a' <= name[0] <= 'z')
    ensures name in EXCEPTIONS && EXCEPTIONS[name] == ExceptionCode(name).value
  {
    hide EXCEPTIONS, ExceptionCode;
    CodeIs(name);
  }

  /** A name has a code exactly when it is listed, its first letter in either case. */
  lemma ExceptionExact(name: string, code: ErrorCode)
    ensures ExceptionCode(name) == Some(code) <==> NamesCode(name, code)
  {
    hide ExceptionCode, EXCEPTIONS;
    if name != "" {
      var n := if 'a' <= name[0] <= 'z' then [(name[0] as int - 32) as char] + name[1..] else name;
      assert n == [n[0]] + name[1..];
      if 'a' <= name[0] <= 'z' {
        FirstLetter(name);
      }
      assert ExceptionCode(name) == ExceptionCode(n);
      if ExceptionCode(name) == Some(code) {
        OnlyListed(n);
        Listed(n);
        CapitalIsName(name, n);
      }
      if NamesCode(name, code) {
        var listed :| listed in EXCEPTIONS && SameName(name, listed) && EXCEPTIONS[listed] == code;
        Listed(listed);
        CapitalIsName(name, listed);
      }
    } else {
      NoName(code);
    }
  }

  lemma NoName(code: ErrorCode)
    ensures ExceptionCode("").None? && !NamesCode("", code)
  {
  }

  // ----- frames

  /** A field value that trimming and the line reader leave as it is. */
  predicate IsValue(s: string) {
    s != "" && !IsWhite(s[0]) && !IsWhite(s[|s| - 1]) && '\n' !in s
  }

  function FrameOf(event: string, data: string): string {
    ("event: " + event) + ['\n'] + ("data: " + data)
  }

  lemma EventLine(event: string)
    requires IsValue(event)
    ensures '\n' !in "event: " + event && !EndsWith("event: " + event, "\r")
  {
    var line := "event: " + event;
    assert line[|line| - 1..] == [event[|event| - 1]];
    assert "\r"[0] == '\r';
  }

  lemma DataLine(data: string)
    requires IsValue(data)
    ensures '\n' !in "data: " + data && data != ""
  {
  }

  /** The fields of an event line and a data line. */
  lemma LineFields(event: string, data: string)
    requires IsValue(event) && IsValue(data)
    ensures Fields(["event: " + event, "data: " + data]) == (Some(event), Some(data))
  {
    hide Trim, Fields, IsWhite;
    TrimSpaced(event);
    TrimSpaced(data);
    InvokeEnvelope.TwoFields(" " + event, " " + data);
    assert "event:" + (" " + event) == "event: " + event;
    assert "data:" + (" " + data) == "data: " + data;
  }

  lemma FieldsOf(event: string, data: string)
    requires IsValue(event) && IsValue(data)
    ensures Fields(Lines(FrameOf(event, data))) == (Some(event), Some(data))
  {
    EventLine(event);
    DataLine(data);
    LineFields(event, data);
    hide Fields, Lines, EndsWith, IsValue;
    InvokeEnvelope.TwoLines("event: " + event, "data: " + data);
  }

  /** A carriage return before the line feed belongs to the line's end. */
  lemma CrlfLines(first: string, data: string)
    requires '\n' !in first && '\n' !in data && data != ""
    ensures Lines(first + "\r" + ['\n'] + data) == [first, data]
  {
    var line := first + "\r";
    SplitOnceFirst(line, '\n', data);
    assert SplitOnce(data, '\n').None? && Lines(data) == [data];
    assert line[|line| - 1..] == "\r" && line[..|line| - 1] == first;
    assert [first] + [data] == [first, data];
  }

  /** A frame of CRLF lines carries the same fields. */
  lemma CrlfFields(event: string, data: string)
    requires IsValue(event) && IsValue(data)
    ensures Fields(Lines(("event: " + event) + "\r" + ['\n'] + ("data: " + data))) == (Some(event), Some(data))
  {
    EventLine(event);
    DataLine(data);
    LineFields(event, data);
    hide Fields, Lines, EndsWith, IsValue;
    CrlfLines("event: " + event, "data: " + data);
  }

  /** The code of an exception frame: that of its name, or an internal one. */
  ghost predicate ExceptionMeans(name: string, code: ErrorCode) {
    NamesCode(name, code) || (code == Internal && forall c :: !NamesCode(name, c))
  }

  lemma ExceptionMeansIs(name: string)
    ensures ExceptionMeans(name, if ExceptionCode(name).None? then Internal else ExceptionCode(name).value)
  {
    hide ExceptionCode, NamesCode;
    forall c
      ensures ExceptionCode(name) == Some(c) <==> NamesCode(name, c)
    {
      ExceptionExact(name, c);
    }
  }

  /** An exception frame is the failure its name and message say. */
  lemma ExceptionReads(codec: Codec, name: string, data: string)
    requires IsValue("exception:" + name) && IsValue(data) && codec.parse(data).Some?
    ensures var input := FrameInput(codec, Utf8.Encode(FrameOf("exception:" + name, data)));
            && input.Ok? && input.value.Some? && input.value.value.Failure?
            && ExceptionMeans(name, input.value.value.code)
            && input.value.value.message == AsStr(At(codec.parse(data).value, "message"))
  {
    var event := "exception:" + name;
    hide Utf8.Encode, Utf8.Decode, Lines, Fields, FrameOf, ExceptionCode, ExceptionMeans, IsValue;
    Utf8.DecodeEncoded(FrameOf(event, data));
    FieldsOf(event, data);
    ExceptionMeansIs(name);
    assert event[|"exception:"|..] == name;
    assert event[0] == 'e' && event[1] == 'x' && "chunk"[0] == 'c';
  }

  /** An error frame is a failure of the upstream with its message. */
  lemma ErrorReads(codec: Codec, name: string, data: string)
    requires IsValue("error:" + name) && IsValue(data) && codec.parse(data).Some?
    ensures FrameInput(codec, Utf8.Encode(FrameOf("error:" + name, data)))
         == Ok(Some(Messages.Failure(UpstreamUnavailable, AsStr(At(codec.parse(data).value, "message")))))
  {
    var event := "error:" + name;
    hide Utf8.Encode, Utf8.Decode, Lines, Fields, FrameOf, IsValue;
    Utf8.DecodeEncoded(FrameOf(event, data));
    FieldsOf(event, data);
    assert event[0] == 'e' && event[1] == 'r' && "chunk"[0] == 'c' && "exception:"[1] == 'x';
    assert !("exception:" <= event);
  }

  /** A frame of another event is passed over, whatever its data says. */
  lemma OtherReads(codec: Codec, event: string, data: string)
    requires IsValue(event) && IsValue(data) && codec.parse(data).Some?
    requires event != "chunk" && !("exception:" <= event) && !("error:" <= event)
    ensures FrameInput(codec, Utf8.Encode(FrameOf(event, data))) == Ok(None)
  {
    hide Utf8.Encode, Utf8.Decode, Lines, Fields, FrameOf, IsValue;
    Utf8.DecodeEncoded(FrameOf(event, data));
    FieldsOf(event, data);
  }

  /** A failure frame ends an open stream with the one error it reports. */
  lemma FailureEnds(codec: Codec, s: Messages.State, payload: seq<byte>)
    requires !s.closed && FrameInput(codec, payload).Ok? && FrameInput(codec, payload).value.Some?
    requires FrameInput(codec, payload).value.value.Failure?
    ensures var f := FrameInput(codec, payload).value.value;
            OneFrame(codec, s, payload)
            == Ok((s.(closed := true), [Error(f.code, MessagesFailure.Short(f.message))]))
  {
    hide FrameInput, Messages.FailStep;
    var f := FrameInput(codec, payload).value.value;
    MessagesFailure.FailSays(s, f.code, f.message);
    Messages.FailCloses(s, f.code, f.message);
  }
}
