/** The `InvokeModel` envelope is transparent: a stream of wrapped Messages events gives what the
    Messages machine gives on the events themselves. */
module InvokeEnvelope {
  import opened Common
  import opened Json
  import opened Text
  import opened InvokeStream
  import Base64
  import Messages
  import Utf8

  predicate IsAscii(s: string) {
    forall i :: 0 <= i < |s| ==> s[i] as int < 0x80
  }

  lemma {:induction false} EncodeAscii(s: string)
    requires IsAscii(s)
    ensures |Utf8.Encode(s)| == |s|
    ensures forall i :: 0 <= i < |s| ==> Utf8.Encode(s)[i] == s[i] as int
  {
    if s != "" {
      EncodeAscii(s[1..]);
      assert Utf8.EncodeChar(s[0]) == [s[0] as int];
    }
  }

  /** Bytes below 0x80 as text. */
  function AsText(bytes: seq<byte>): (s: string)
    requires forall i :: 0 <= i < |bytes| ==> bytes[i] < 0x80
    ensures |s| == |bytes| && forall i :: 0 <= i < |s| ==> s[i] as int == bytes[i]
  {
    seq(|bytes|, i requires 0 <= i < |bytes| => bytes[i] as char)
  }

  predicate IsPlain(t: seq<byte>) {
    forall i :: 0 <= i < |t| ==> 32 < t[i] < 0x80
  }

  /** A Base64 text holds neither line breaks nor anything outside ASCII. */
  lemma {:induction false} SymbolsPlain(s: seq<Base64.sextet>)
    ensures IsPlain(Base64.Symbols(Base64.Standard, s))
  {
    if s != [] {
      SymbolsPlain(s[1..]);
    }
  }

  lemma {:induction false} PadsPlain(n: nat)
    ensures IsPlain(Base64.Pads(n))
  {
    if n > 0 {
      PadsPlain(n - 1);
    }
  }

  function Encoded(payload: seq<byte>): (t: seq<byte>)
    ensures IsPlain(t)
  {
    SymbolsPlain(Base64.Sextets(payload));
    PadsPlain(Base64.PadLen(|Base64.Sextets(payload)|));
    Base64.Encoded(payload, Base64.Standard, true)
  }

  function Envelope(payload: seq<byte>): string {
    "{\"bytes\":\"" + AsText(Encoded(payload)) + "\"}"
  }

  /** The frame of one wrapped event, without its blank line. */
  function FrameText(payload: seq<byte>): string {
    "event: chunk" + ['\n'] + ("data: " + Envelope(payload))
  }

  function Wrap(payload: seq<byte>): seq<byte> {
    Utf8.Encode(FrameText(payload)) + LF2
  }

  function WrapAll(payloads: seq<seq<byte>>): seq<byte> {
    if payloads == [] then [] else Wrap(payloads[0]) + WrapAll(payloads[1..])
  }

  /** The JSON reader reads the envelope as the object it spells. */
  ghost predicate ReadsEnvelope(codec: Codec, payload: seq<byte>) {
    codec.parse(Envelope(payload)) == Some(Obj(map["bytes" := Str(AsText(Encoded(payload)))]))
  }

  /** The payload is a JSON event with a type. */
  ghost predicate IsEvent(codec: Codec, payload: seq<byte>) {
    && Utf8.Decode(payload).Some? && codec.parse(Utf8.Decode(payload).value).Some?
    && At(codec.parse(Utf8.Decode(payload).value).value, "type").Str?
  }

  ghost function EventOf(codec: Codec, payload: seq<byte>): Messages.Input
    requires IsEvent(codec, payload)
  {
    var event := codec.parse(Utf8.Decode(payload).value).value;
    Messages.Event(At(event, "type").s, event)
  }

  lemma FrameTextPlain(payload: seq<byte>)
    ensures var f := FrameText(payload);
            && IsAscii(f) && |f| > 13 && f[|f| - 1] == '}' && f[12] == '\n'
            && forall i :: 0 <= i < |f| && i != 12 ==> f[i] != '\n' && f[i] != '\r'
  {
    var e := "data: " + Envelope(payload);
    assert forall i :: 0 <= i < |e| ==> ' ' <= e[i] && e[i] as int < 0x80;
    var f := FrameText(payload);
    assert f == "event: chunk\n" + e;
    assert forall i :: 13 <= i < |f| ==> f[i] == e[i - 13];
  }

  lemma MatchBytes(all: seq<byte>, i: nat)
    ensures MatchAt(all, LF2, i) ==> all[i] == 10 && all[i + 1] == 10
    ensures MatchAt(all, CRLF2, i) ==> all[i] == 13
  {
    if MatchAt(all, LF2, i) {
      assert all[i..i + 2][0] == all[i] && all[i..i + 2][1] == all[i + 1];
    }
    if MatchAt(all, CRLF2, i) {
      assert all[i..i + 4][0] == all[i];
    }
  }

  lemma WrapBoundary(payload: seq<byte>, rest: seq<byte>)
    ensures var n := |Utf8.Encode(FrameText(payload))|;
            Boundary(Wrap(payload) + rest) == Some((n, n + 2))
  {
    var f := FrameText(payload);
    FrameTextPlain(payload);
    EncodeAscii(f);
    var head := Utf8.Encode(f);
    var n := |head|;
    hide FrameText, Utf8.Encode;
    var all := Wrap(payload) + rest;
    assert all[n..n + 2] == LF2;
    assert MatchAt(all, LF2, n);
    assert forall i :: 0 <= i < n ==> all[i] == head[i];
    assert all[13] != 10;
    forall i | 0 <= i < n
      ensures !MatchAt(all, LF2, i) && !MatchAt(all, CRLF2, i)
    {
      MatchBytes(all, i);
    }
  }

  /** The two lines of a frame whose data is one line. */
  lemma TwoLines(first: string, data: string)
    requires '\n' !in first && '\n' !in data && data != ""
    requires !EndsWith(first, "\r")
    ensures Lines(first + ['\n'] + data) == [first, data]
  {
    SplitOnceFirst(first, '\n', data);
    assert SplitOnce(data, '\n').None? && Lines(data) == [data];
    assert [first] + [data] == [first, data];
  }

  lemma StripOf(prefix: string, rest: string)
    ensures StripPrefix(prefix + rest, prefix) == Some(rest)
  {
    assert (prefix + rest)[|prefix|..] == rest;
  }

  /** An event line and a data line. */
  lemma TwoFields(x: string, y: string)
    ensures Fields(["event:" + x, "data:" + y]) == (Some(Trim(x)), Some(Trim(y)))
  {
    hide Trim;
    var first, second := "event:" + x, "data:" + y;
    var lines := [first, second];
    StripOf("event:", x);
    StripOf("data:", y);
    assert second[0] == 'd' && "event:"[0] == 'e';
    assert !("event:" <= second);
    var none: seq<string> := [];
    assert lines[..1] == [first] && [first][..0] == none;
    assert Fields(none) == (None, None);
    assert Fields([first]) == (Some(Trim(x)), None);
  }

  lemma EnvelopeShape(payload: seq<byte>)
    ensures var e := Envelope(payload);
            && e != "" && !IsWhite(e[0]) && !IsWhite(e[|e| - 1]) && '\n' !in "data: " + e
  {
    var e := Envelope(payload);
    assert e[0] == '{' && e[|e| - 1] == '}';
    FrameTextPlain(payload);
    assert forall i :: 0 <= i < |"data: " + e| ==> ("data: " + e)[i] == FrameText(payload)[i + 13];
  }

  lemma ChunkLine()
    ensures !EndsWith("event: chunk", "\r") && !IsWhite("chunk"[0]) && !IsWhite("chunk"[4])
  {
  }

  lemma FrameFieldsOf(payload: seq<byte>)
    ensures Fields(Lines(FrameText(payload))) == (Some("chunk"), Some(Envelope(payload)))
  {
    hide Envelope, Trim, Fields, Lines, IsWhite, EndsWith;
    var e := Envelope(payload);
    var data := "data: " + e;
    EnvelopeShape(payload);
    ChunkLine();
    TrimSpaced(e);
    TrimSpaced("chunk");
    TwoFields(" chunk", " " + e);
    TwoLines("event: chunk", data);
    assert "event:" + " chunk" == "event: chunk" && " " + "chunk" == " chunk";
    assert "data:" + (" " + e) == data;
  }

  lemma EncodedDecodes(payload: seq<byte>)
    ensures Base64.Decoded(Encoded(payload), Base64.Standard, Base64.Canonical) == Some(payload)
  {
    Base64.CanonicalExact(Encoded(payload), Base64.Standard, payload);
  }

  /** A wrapped event feeds the machine that event. */
  lemma WrapInput(codec: Codec, payload: seq<byte>)
    requires ReadsEnvelope(codec, payload) && IsEvent(codec, payload)
    ensures FrameInput(codec, Utf8.Encode(FrameText(payload))) == Ok(Some(EventOf(codec, payload)))
  {
    hide Utf8.Encode, Utf8.Decode, Lines, Fields, FrameText, Envelope, Encoded, Base64.Decoded;
    Utf8.DecodeEncoded(FrameText(payload));
    FrameFieldsOf(payload);
    var b := AsText(Encoded(payload));
    EncodeAscii(b);
    assert Utf8.Encode(b) == Encoded(payload);
    EncodedDecodes(payload);
  }

  /** What the machine makes of the events themselves, from a state on. */
  ghost function Direct(codec: Codec, s: Messages.State, payloads: seq<seq<byte>>): Result<Drained, InvokeError>
    requires forall k :: 0 <= k < |payloads| ==> IsEvent(codec, payloads[k])
    decreases |payloads|
  {
    if payloads == [] then Ok(Drained(s, [], []))
    else if s.closed then Direct(codec, s, payloads[1..])
    else match Messages.Feed(s, EventOf(codec, payloads[0]))
      case Step(_, Err(e)) => Err(Protocol(e))
      case Step(s', Ok(events)) => After(events, Direct(codec, s', payloads[1..]))
  }

  /** An event's own step, and then the frames of the rest. */
  ghost function EventThen(codec: Codec, s: Messages.State, event: Messages.Input, rest: seq<byte>)
    : Result<Drained, InvokeError>
  {
    if s.closed then Drain(codec, s, rest)
    else match Messages.Feed(s, event)
      case Step(_, Err(e)) => Err(Protocol(e))
      case Step(s', Ok(events)) => After(events, Drain(codec, s', rest))
  }

  /** What a wrapped event in front of a buffer gives. */
  lemma WrapDrain(codec: Codec, s: Messages.State, payload: seq<byte>, rest: seq<byte>)
    requires ReadsEnvelope(codec, payload) && IsEvent(codec, payload)
    ensures Drain(codec, s, Wrap(payload) + rest) == EventThen(codec, s, EventOf(codec, payload), rest)
  {
    hide Boundary, FrameInput, Messages.Feed, FrameText, Utf8.Encode, ReadsEnvelope, IsEvent;
    var head := Utf8.Encode(FrameText(payload));
    var all, n := Wrap(payload) + rest, |head|;
    WrapBoundary(payload, rest);
    WrapInput(codec, payload);
    WrapSplit(payload, rest);
    AfterAfter([], [], Drain(codec, s, rest));
  }

  lemma WrapSplit(payload: seq<byte>, rest: seq<byte>)
    ensures var head := Utf8.Encode(FrameText(payload));
            && |Wrap(payload) + rest| >= |head| + 2
            && (Wrap(payload) + rest)[..|head|] == head && (Wrap(payload) + rest)[|head| + 2..] == rest
  {
    hide FrameText, Utf8.Encode;
  }

  /** A buffer of wrapped events drains to what the events give directly. */
  lemma {:induction false} EnvelopeTransparent(codec: Codec, s: Messages.State, payloads: seq<seq<byte>>)
    requires forall k :: 0 <= k < |payloads| ==> ReadsEnvelope(codec, payloads[k]) && IsEvent(codec, payloads[k])
    ensures Drain(codec, s, WrapAll(payloads)) == Direct(codec, s, payloads)
    decreases |payloads|
  {
    hide Drain, Messages.Feed, ReadsEnvelope, IsEvent, After, Wrap;
    if payloads == [] {
      EmptyDrain(codec, s);
    } else {
      var payload, rest := payloads[0], payloads[1..];
      assert forall k :: 0 <= k < |rest| ==> rest[k] == payloads[k + 1];
      WrapDrain(codec, s, payload, WrapAll(rest));
      if s.closed {
        EnvelopeTransparent(codec, s, rest);
      } else {
        match Messages.Feed(s, EventOf(codec, payload))
        case Step(_, Err(_)) =>
        case Step(s', Ok(_)) => EnvelopeTransparent(codec, s', rest);
      }
    }
  }

  /** However a stream of wrapped events is cut into chunks, it gives what the events give. */
  lemma WrappedStream(codec: Codec, payloads: seq<seq<byte>>, chunks: seq<seq<byte>>)
    requires forall k :: 0 <= k < |payloads| ==> ReadsEnvelope(codec, payloads[k]) && IsEvent(codec, payloads[k])
    requires Flatten(chunks) == WrapAll(payloads)
    ensures Feed(codec, chunks) == Direct(codec, Messages.INITIAL, payloads)
  {
    FeedIsDrain(codec, chunks);
    EnvelopeTransparent(codec, Messages.INITIAL, payloads);
  }
}
