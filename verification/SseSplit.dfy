/** The incremental event-stream splitter, and what its callers may rely on whatever the chunking. */
module SseSplit {
  import opened Common
  import Utf8

  const MAX_SSE_SPLIT_BYTES: nat := 16 * 1024 * 1024

  const BOM: seq<byte> := [0xEF, 0xBB, 0xBF]
  const CR: byte := 13
  const LF: byte := 10

  /** One dispatched event; texts are kept as their UTF-8 bytes. */
  datatype Frame = Frame(event: seq<byte>, data: seq<byte>)

  datatype SplitError = NotUtf8 | TooLarge

  datatype State = State(tail: seq<byte>, bomSettled: bool, afterCr: bool,
                         event: seq<byte>, data: seq<byte>, hasData: bool)

  const INITIAL := State([], false, false, [], [], false)

  predicate IsEnd(b: byte) {
    b == CR || b == LF
  }

  predicate NoEnds(x: seq<byte>) {
    forall i :: 0 <= i < |x| ==> !IsEnd(x[i])
  }

  // ----- one line

  const MESSAGE: seq<byte> := [109, 101, 115, 115, 97, 103, 101]
  const EVENT: seq<byte> := [101, 118, 101, 110, 116]
  const DATA: seq<byte> := [100, 97, 116, 97]
  const COLON: byte := 58
  const SPACE: byte := 32

  /** The bytes before the first colon, and those after it; the whole line when there is none. */
  function SplitColon(line: seq<byte>): (seq<byte>, seq<byte>) {
    if line == [] then ([], [])
    else if line[0] == COLON then ([], line[1..])
    else var (field, value) := SplitColon(line[1..]); ([line[0]] + field, value)
  }

  function StripSpace(value: seq<byte>): seq<byte> {
    if value != [] && value[0] == SPACE then value[1..] else value
  }

  /** What a step produced: the state, the event it dispatched, or a refusal. */
  datatype LineStep = LineStep(state: State, frame: Option<Frame>, error: Option<SplitError>)

  /** One line without its terminator. */
  function Line(s: State, line: seq<byte>): LineStep {
    if line == [] then
      if !s.hasData then LineStep(s.(event := []), None, None)
      else LineStep(s.(event := [], data := [], hasData := false),
                    Some(Frame(if s.event == [] then MESSAGE else s.event, s.data)), None)
    else if line[0] == COLON then LineStep(s, None, None)
    else
      var (field, raw) := SplitColon(line);
      var value := StripSpace(raw);
      if field == EVENT then LineStep(s.(event := value), None, None)
      else if field == DATA then
        var data := (if s.hasData then s.data + [LF] else s.data) + value;
        LineStep(s.(data := data, hasData := true), None,
                 if |data| > MAX_SSE_SPLIT_BYTES then Some(TooLarge) else None)
      else LineStep(s, None, None)
  }

  function CheckedLine(s: State, line: seq<byte>): LineStep {
    if Utf8.Decode(line).None? then LineStep(s, None, Some(NotUtf8)) else Line(s, line)
  }

  // ----- the splitter as a machine of bytes

  /** A proper prefix of the byte-order mark, which the splitter waits on. */
  predicate BomSoFar(tail: seq<byte>) {
    |tail| < |BOM| && tail <= BOM
  }

  /** The first bytes of a stream without its byte-order mark. */
  function WithoutBom(tail: seq<byte>): seq<byte> {
    if BOM <= tail then tail[|BOM|..] else tail
  }

  /** One byte: held, swallowed as the second half of a CRLF, or the end of a line. */
  function Byte(s: State, b: byte): LineStep {
    if s.afterCr && b == LF then LineStep(s.(afterCr := false), None, None)
    else
      var tail := s.tail + [b];
      var t := s.(afterCr := false);
      if !s.bomSettled && BomSoFar(tail) then LineStep(t.(tail := tail), None, None)
      else
        var rest := if s.bomSettled then tail else WithoutBom(tail);
        var u := t.(bomSettled := true, tail := rest);
        if rest == [] || !IsEnd(b) then LineStep(u, None, None)
        else CheckedLine(u.(tail := [], afterCr := b == CR), rest[..|rest| - 1])
  }

  /** What a stretch of bytes produced: every event completed before the first refusal. */
  datatype Out = Out(state: State, frames: seq<Frame>, error: Option<SplitError>)

  function OneMore(o: Out, b: byte): Out {
    if o.error.Some? then o
    else
      var step := Byte(o.state, b);
      Out(step.state, if step.frame.Some? then o.frames + [step.frame.value] else o.frames, step.error)
  }

  function Bytes(o: Out, bytes: seq<byte>): Out {
    if bytes == [] then o
    else OneMore(Bytes(o, bytes[..|bytes| - 1]), bytes[|bytes| - 1])
  }

  lemma {:induction false} BytesAppend(o: Out, a: seq<byte>, b: seq<byte>)
    ensures Bytes(o, a + b) == Bytes(Bytes(o, a), b)
  {
    if b == [] {
      assert a + b == a;
    } else {
      assert (a + b)[..|a + b| - 1] == a + b[..|b| - 1];
      BytesAppend(o, a, b[..|b| - 1]);
    }
  }

  lemma {:induction false} BytesError(o: Out, bytes: seq<byte>)
    requires o.error.Some?
    ensures Bytes(o, bytes) == o
  {
    if bytes != [] {
      BytesError(o, bytes[..|bytes| - 1]);
    }
  }

  /** The frames already completed stay in front. */
  lemma {:induction false} BytesFrames(s: State, frames: seq<Frame>, bytes: seq<byte>)
    ensures var o := Bytes(Out(s, [], None), bytes);
            Bytes(Out(s, frames, None), bytes) == Out(o.state, frames + o.frames, o.error)
  {
    if bytes != [] {
      BytesFrames(s, frames, bytes[..|bytes| - 1]);
    }
  }

  const START := Out(INITIAL, [], None)

  /** The size bound on the unread line, which is only checked when a push ends. */
  function Bound(o: Out): Out {
    if o.error.None? && |o.state.tail| > MAX_SSE_SPLIT_BYTES then o.(error := Some(TooLarge)) else o
  }

  /** `SseSplitterV1::push`. */
  function Push(s: State, chunk: seq<byte>): Out {
    Bound(Bytes(Out(s, [], None), chunk))
  }

  /** Pushing chunks one after the other, up to the first refusal. */
  function Pushes(chunks: seq<seq<byte>>): Out {
    if chunks == [] then START
    else
      var before := Pushes(chunks[..|chunks| - 1]);
      if before.error.Some? then before
      else
        var out := Push(before.state, chunks[|chunks| - 1]);
        Out(out.state, before.frames + out.frames, out.error)
  }

  /** `SseSplitterV1::finish`: an unterminated last line is read, then the pending event leaves. */
  function Finish(s: State): Result<Option<Frame>, SplitError> {
    var t := s.(bomSettled := true, afterCr := false, tail := []);
    if s.tail == [] then Ok(Line(t, []).frame)
    else
      var step := CheckedLine(t, s.tail);
      if step.error.Some? then Err(step.error.value) else Ok(Line(step.state, []).frame)
  }

  /** Everything a caller sees of a stream: the events in order and the refusal, if any. */
  datatype Seen = Seen(frames: seq<Frame>, error: Option<SplitError>)

  function Ended(o: Out): Seen {
    if o.error.Some? then Seen(o.frames, o.error)
    else match Finish(o.state)
      case Err(e) => Seen(o.frames, Some(e))
      case Ok(None) => Seen(o.frames, None)
      case Ok(Some(frame)) => Seen(o.frames + [frame], None)
  }

  // ----- what chunking can change

  /** A line that ends at `j` is over the bound, was reached without a refusal, and is not itself
      refused as too large. */
  ghost predicate HidesAt(s: seq<byte>, j: nat)
    requires j < |s|
  {
    && IsEnd(s[j]) && Bytes(START, s[..j]).error.None?
    && |Bytes(START, s[..j]).state.tail| > MAX_SSE_SPLIT_BYTES
    && Bytes(START, s[..j + 1]).error != Some(TooLarge)
  }

  ghost predicate HidesLongLine(s: seq<byte>) {
    exists j :: 0 <= j < |s| && HidesAt(s, j)
  }

  lemma HidesPrefix(s: seq<byte>, n: nat)
    requires n <= |s| && HidesLongLine(s[..n])
    ensures HidesLongLine(s)
  {
    var j :| 0 <= j < n && HidesAt(s[..n], j);
    assert s[..n][..j] == s[..j] && s[..n][..j + 1] == s[..j + 1];
    assert HidesAt(s, j);
  }

  /** Once the settled unread line is over the bound, it only grows or is refused. */
  lemma {:induction false} Stuck(p: seq<byte>, c: seq<byte>)
    requires !HidesLongLine(p + c)
    requires Bytes(START, p).error.None? && |Bytes(START, p).state.tail| > MAX_SSE_SPLIT_BYTES
    ensures var o := Bytes(START, p + c);
            && o.frames == Bytes(START, p).frames
            && (o.error == Some(TooLarge)
                || (o.error.None? && |o.state.tail| > MAX_SSE_SPLIT_BYTES))
  {
    hide Byte;
    if c == [] {
      assert p + c == p;
    } else {
      var s, n := p + c, |p + c| - 1;
      var d := c[..|c| - 1];
      assert s[..n] == p + d && s[..n + 1] == s;
      if HidesLongLine(p + d) {
        HidesPrefix(s, n);
      }
      Stuck(p, d);
      assert !HidesAt(s, n);
      BytesValid(p + d);
      ByteValid(Bytes(START, p + d).state, s[n]);
    }
  }

  /** What every state a stream reaches satisfies. */
  ghost predicate Valid(s: State) {
    && NoEnds(s.tail)
    && (!s.bomSettled ==> !s.afterCr && BomSoFar(s.tail))
    && (s.afterCr ==> s.tail == [])
    && (!s.hasData ==> s.data == [])
  }

  lemma LineValid(s: State, line: seq<byte>)
    requires Valid(s)
    ensures Valid(CheckedLine(s, line).state)
    ensures CheckedLine(s, line).state.tail == s.tail
    ensures CheckedLine(s, line).state.bomSettled == s.bomSettled
    ensures CheckedLine(s, line).state.afterCr == s.afterCr
    ensures CheckedLine(s, line).error.Some? ==> CheckedLine(s, line).frame.None?
  {
    hide Utf8.Decode, SplitColon;
  }

  lemma SettledByte(s: State, b: byte)
    requires Valid(s) && s.bomSettled
    ensures Valid(Byte(s, b).state)
    ensures Byte(s, b).error.Some? ==> Byte(s, b).frame.None?
    ensures !IsEnd(b) ==>
              Byte(s, b) == LineStep(s.(tail := s.tail + [b], afterCr := false), None, None)
  {
    hide CheckedLine;
    var tail := s.tail + [b];
    if IsEnd(b) && !(s.afterCr && b == LF) {
      LineValid(s.(tail := [], afterCr := b == CR), tail[..|tail| - 1]);
    }
  }

  /** A byte that does not continue the mark either completes it or shows there is none. */
  lemma BomCases(t: seq<byte>, b: byte, more: seq<byte>)
    requires BomSoFar(t)
    ensures NoEnds(t)
    ensures IsEnd(b) ==> !BomSoFar(t + [b])
    ensures !BomSoFar(t + [b]) ==>
              && !BomSoFar(t + [b] + more)
              && if t + [b] == BOM then !IsEnd(b) && WithoutBom(t + [b] + more) == more
                 else WithoutBom(t + [b] + more) == t + [b] + more
  {
    var u := t + [b];
    var all := u + more;
    assert BOM[0] == 0xEF && BOM[1] == 0xBB && BOM[2] == 0xBF;
    assert forall i :: 0 <= i < |t| ==> t[i] == BOM[i];
    assert u[|t|] == b && all[|t|] == b;
    if b == BOM[|t|] {
      assert u == BOM[..|u|];
      assert u == BOM ==> all[|BOM|..] == more;
    }
  }

  lemma UnsettledByte(s: State, b: byte)
    requires Valid(s) && !s.bomSettled
    ensures Valid(Byte(s, b).state)
    ensures Byte(s, b).error.Some? ==> Byte(s, b).frame.None?
  {
    var tail := s.tail + [b];
    BomCases(s.tail, b, []);
    assert tail + [] == tail;
    hide CheckedLine, BomSoFar, WithoutBom;
    if IsEnd(b) {
      LineValid(s.(bomSettled := true, tail := [], afterCr := b == CR), tail[..|tail| - 1]);
    } else if !BomSoFar(tail) {
      assert forall i :: 0 <= i < |tail| ==> !IsEnd(tail[i]);
    }
  }

  lemma ByteValid(s: State, b: byte)
    requires Valid(s)
    ensures Valid(Byte(s, b).state)
    ensures Byte(s, b).error.Some? ==> Byte(s, b).frame.None?
    ensures s.bomSettled && !IsEnd(b) ==>
              Byte(s, b) == LineStep(s.(tail := s.tail + [b], afterCr := false), None, None)
  {
    hide Byte;
    if s.bomSettled {
      SettledByte(s, b);
    } else {
      UnsettledByte(s, b);
    }
  }

  lemma {:induction false} BytesValid(bytes: seq<byte>)
    ensures Valid(Bytes(START, bytes).state)
  {
    hide Byte;
    if bytes != [] {
      BytesValid(bytes[..|bytes| - 1]);
      var o := Bytes(START, bytes[..|bytes| - 1]);
      if o.error.None? {
        ByteValid(o.state, bytes[|bytes| - 1]);
      }
    }
  }

  /** With no long line hidden, pushing chunks is reading their concatenation under one bound. */
  lemma {:induction false} PushesAreBytes(chunks: seq<seq<byte>>)
    requires !HidesLongLine(Flatten(chunks))
    ensures var o := Bound(Bytes(START, Flatten(chunks)));
            && Pushes(chunks).frames == o.frames && Pushes(chunks).error == o.error
            && (o.error.None? ==> Pushes(chunks).state == o.state)
  {
    hide Byte;
    if chunks != [] {
      var init, c := chunks[..|chunks| - 1], chunks[|chunks| - 1];
      var p := Flatten(init);
      assert chunks == init + [c];
      FlattenSnoc(init, c);
      var s := p + c;
      assert s[..|p|] == p;
      if HidesLongLine(p) {
        HidesPrefix(s, |p|);
      }
      PushesAreBytes(init);
      var o := Bytes(START, p);
      BytesAppend(START, p, c);
      if o.error.Some? {
        BytesError(o, c);
      } else if |o.state.tail| > MAX_SSE_SPLIT_BYTES {
        Stuck(p, c);
      } else {
        BytesFrames(o.state, o.frames, c);
      }
    }
  }

  lemma PushesSnoc(init: seq<seq<byte>>, c: seq<byte>)
    ensures var before := Pushes(init);
            Pushes(init + [c])
            == if before.error.Some? then before
               else var out := Push(before.state, c);
                    Out(out.state, before.frames + out.frames, out.error)
  {
    assert (init + [c])[..|init + [c]| - 1] == init;
  }

  lemma PushesOne(c: seq<byte>)
    ensures Pushes([c]) == Push(INITIAL, c) && Flatten([c]) == c
  {
    hide Push;
    var none: seq<seq<byte>> := [];
    assert Pushes(none) == START;
    PushesSnoc(none, c);
    assert none + [c] == [c] && [c][1..] == none;
    assert [] + Push(INITIAL, c).frames == Push(INITIAL, c).frames;
  }

  /** A chunk boundary inside a hidden long line changes what the caller sees. */
  lemma HiddenLineShows(s: seq<byte>, j: nat)
    requires j < |s| && HidesAt(s, j)
    ensures var p := s[..j + 1];
            Ended(Pushes([p])).error != Ended(Pushes([s[..j], s[j..j + 1]])).error
  {
    var p, before, last := s[..j + 1], s[..j], s[j..j + 1];
    PushesOne(before);
    PushesOne(p);
    PushesSnoc([before], last);
    assert [before] + [last] == [before, last];
    assert Pushes([before, last]).error == Some(TooLarge);
    assert p[..|p| - 1] == before && p[|p| - 1] == s[j];
    BytesValid(before);
    EndClears(Bytes(START, before).state, s[j]);
    hide Byte;
    assert Bytes(START, p) == OneMore(Bytes(START, before), s[j]);
    FinishEmpty(Pushes([p]).state);
  }

  /** The byte that ends a line leaves nothing unread. */
  lemma EndClears(s: State, b: byte)
    requires Valid(s) && s.bomSettled && IsEnd(b)
    ensures Byte(s, b).state.tail == []
  {
    if !(s.afterCr && b == LF) {
      var tail := s.tail + [b];
      LineValid(s.(tail := [], afterCr := b == CR), tail[..|tail| - 1]);
    }
    hide CheckedLine;
  }

  lemma FinishEmpty(s: State)
    requires s.tail == []
    ensures Finish(s).Ok?
  {
  }

  /** What a stream may be cut into: any chunks that spell it. */
  ghost predicate Cuts(s: seq<byte>, chunks: seq<seq<byte>>) {
    Flatten(chunks) == s
  }

  /** Wherever the stream is cut off, every chunking of what was read shows the same. */
  ghost predicate ChunkIndependent(s: seq<byte>) {
    forall n, a, b :: 0 <= n <= |s| && Cuts(s[..n], a) && Cuts(s[..n], b)
                      ==> Ended(Pushes(a)) == Ended(Pushes(b))
  }

  /** The events and the first refusal do not depend on the chunking exactly when no line over the
      bound slips through whole. */
  lemma ChunkIndependentExact(s: seq<byte>)
    ensures ChunkIndependent(s) <==> !HidesLongLine(s)
  {
    if HidesLongLine(s) {
      var j :| 0 <= j < |s| && HidesAt(s, j);
      HiddenLineShows(s, j);
      var p := s[..j + 1];
      var a, b := [p], [s[..j], s[j..j + 1]];
      PushesOne(p);
      PushesOne(s[j..j + 1]);
      assert b[1..] == [s[j..j + 1]];
      assert Flatten(b) == s[..j] + s[j..j + 1] == p;
      assert Cuts(s[..j + 1], a) && Cuts(s[..j + 1], b);
    } else {
      forall n, a, b | 0 <= n <= |s| && Cuts(s[..n], a) && Cuts(s[..n], b)
        ensures Ended(Pushes(a)) == Ended(Pushes(b))
      {
        if HidesLongLine(s[..n]) {
          HidesPrefix(s, n);
        }
        PushesAreBytes(a);
        PushesAreBytes(b);
      }
    }
  }

  /** No stretch without a line end is longer than the bound. */
  ghost predicate ShortLines(s: seq<byte>) {
    forall i, j :: 0 <= i <= j <= |s| && NoEnds(s[i..j]) ==> j - i <= MAX_SSE_SPLIT_BYTES
  }

  /** The unread bytes are the last ones of the stream. */
  ghost predicate IsTail(bytes: seq<byte>, tail: seq<byte>) {
    |tail| <= |bytes| && tail == bytes[|bytes| - |tail|..]
  }

  lemma ByteTail(s: State, b: byte)
    requires Valid(s)
    ensures Byte(s, b).state.tail == [] || Byte(s, b).state.tail == s.tail + [b]
  {
    var tail := s.tail + [b];
    if s.bomSettled {
      SettledByte(s, b);
      if IsEnd(b) {
        EndClears(s, b);
      }
    } else {
      BomCases(s.tail, b, []);
      assert tail + [] == tail;
      if IsEnd(b) {
        LineValid(s.(bomSettled := true, tail := [], afterCr := b == CR), tail[..|tail| - 1]);
      }
      hide CheckedLine, BomSoFar, WithoutBom;
    }
  }

  lemma TailSnoc(bytes: seq<byte>, tail: seq<byte>, b: byte)
    requires IsTail(bytes, tail)
    ensures IsTail(bytes + [b], tail + [b]) && IsTail(bytes + [b], [])
  {
  }

  lemma {:induction false} BytesTail(bytes: seq<byte>)
    requires Bytes(START, bytes).error.None?
    ensures IsTail(bytes, Bytes(START, bytes).state.tail)
  {
    hide Byte, Valid, IsTail;
    if bytes == [] {
      EmptyTail();
    } else {
      var init, b := bytes[..|bytes| - 1], bytes[|bytes| - 1];
      assert bytes == init + [b];
      BytesTail(init);
      BytesValid(init);
      var s := Bytes(START, init).state;
      ByteTail(s, b);
      TailSnoc(init, s.tail, b);
    }
  }

  lemma EmptyTail()
    ensures IsTail([], START.state.tail)
  {
  }

  /** What a caller can see from the bytes alone: without a line over the bound nothing depends on
      the chunking. */
  lemma ShortLinesSuffice(s: seq<byte>)
    requires ShortLines(s)
    ensures !HidesLongLine(s) && ChunkIndependent(s)
  {
    hide Bytes, Ended, Pushes;
    forall j | 0 <= j < |s|
      ensures !HidesAt(s, j)
    {
      if Bytes(START, s[..j]).error.None? {
        BytesTail(s[..j]);
        BytesValid(s[..j]);
        var tail := Bytes(START, s[..j]).state.tail;
        assert s[j - |tail|..j] == tail;
      }
    }
    ChunkIndependentExact(s);
  }

  // ----- a stream whose chunking shows

  function Colons(n: nat): seq<byte> {
    if n == 0 then [] else Colons(n - 1) + [COLON]
  }

  lemma FirstColon()
    ensures Byte(INITIAL, COLON) == LineStep(INITIAL.(tail := [COLON], bomSettled := true), None, None)
  {
    BomCases([], COLON, []);
    assert [] + [COLON] == [COLON] && [COLON][0] != BOM[0];
  }

  lemma {:induction false} ColonsHeld(n: nat)
    ensures |Colons(n)| == n
    ensures Bytes(START, Colons(n))
         == Out(INITIAL.(tail := Colons(n), bomSettled := n > 0), [], None)
  {
    hide Byte;
    if n > 0 {
      ColonsHeld(n - 1);
      assert Colons(n)[..n - 1] == Colons(n - 1);
      BytesValid(Colons(n - 1));
      if n > 1 {
        SettledByte(INITIAL.(tail := Colons(n - 1), bomSettled := true), COLON);
      } else {
        FirstColon();
      }
    }
  }

  lemma {:induction false} ColonFirst(n: nat)
    requires n > 0
    ensures Colons(n) == [COLON] + Colons(n - 1)
  {
    if n > 1 {
      ColonFirst(n - 1);
    }
  }

  lemma {:induction false} ColonsAreText(n: nat)
    ensures Utf8.Decode(Colons(n)).Some?
  {
    if n > 0 {
      ColonFirst(n);
      assert Colons(n)[1..] == Colons(n - 1);
      ColonsAreText(n - 1);
    }
  }

  /** A comment line one byte over the bound: read in one chunk, refused when it is cut. */
  lemma LongCommentHides()
    ensures HidesLongLine(Colons(MAX_SSE_SPLIT_BYTES + 1) + [LF])
  {
    var n := MAX_SSE_SPLIT_BYTES + 1;
    var s := Colons(n) + [LF];
    ColonsHeld(n);
    ColonsAreText(n);
    ColonFirst(n);
    assert s[..n] == Colons(n) && s[..n + 1] == s && s[..|s| - 1] == Colons(n);
    hide Utf8.Decode, Colons;
    assert (Colons(n) + [LF])[..n] == Colons(n);
    assert HidesAt(s, n);
  }

  // ----- the buffered reading of a push

  lemma BytesCons(o: Out, bytes: seq<byte>)
    requires bytes != []
    ensures Bytes(o, bytes) == Bytes(OneMore(o, bytes[0]), bytes[1..])
  {
    assert bytes == [bytes[0]] + bytes[1..];
    BytesAppend(o, [bytes[0]], bytes[1..]);
    assert [bytes[0]][..0] == [];
    assert Bytes(o, [bytes[0]]) == OneMore(Bytes(o, []), bytes[0]);
  }

  /** Bytes without a line end are only held. */
  lemma {:induction false} Held(s: State, frames: seq<Frame>, x: seq<byte>)
    requires Valid(s) && s.bomSettled && NoEnds(x)
    ensures Bytes(Out(s, frames, None), x)
         == Out(if x == [] then s else s.(tail := s.tail + x, afterCr := false), frames, None)
  {
    hide Byte;
    if x != [] {
      var init, b := x[..|x| - 1], x[|x| - 1];
      Held(s, frames, init);
      assert s.tail + x == (s.tail + init) + [b];
      assert s.tail + [] == s.tail;
      SettledByte(if init == [] then s else s.(tail := s.tail + init, afterCr := false), b);
    }
  }

  /** Reading a line touches neither the buffer nor the pending line end. */
  lemma LineFrame(s: State, cr: bool, tail: seq<byte>, line: seq<byte>)
    ensures var step := CheckedLine(s, line);
            CheckedLine(s.(afterCr := cr, tail := tail), line)
            == LineStep(step.state.(afterCr := cr, tail := tail), step.frame, step.error)
  {
    hide Utf8.Decode, SplitColon;
  }

  function WithFrame(frames: seq<Frame>, frame: Option<Frame>): seq<Frame> {
    if frame.Some? then frames + [frame.value] else frames
  }

  lemma EndByte(s: State, frames: seq<Frame>, b: byte)
    requires Valid(s) && s.bomSettled && !s.afterCr && IsEnd(b)
    ensures var step := CheckedLine(s, s.tail);
            OneMore(Out(s, frames, None), b)
            == Out(step.state.(afterCr := b == CR, tail := []), WithFrame(frames, step.frame), step.error)
  {
    hide CheckedLine;
    assert (s.tail + [b])[..|s.tail + [b]| - 1] == s.tail;
    LineFrame(s, b == CR, [], s.tail);
  }

  /** A line and its terminator, then the rest of the buffer. */
  lemma LineRead(s: State, frames: seq<Frame>, x: seq<byte>, b: byte, y: seq<byte>)
    requires Valid(s) && s.bomSettled && !s.afterCr && s.tail == [] && NoEnds(x) && IsEnd(b)
    ensures var step := CheckedLine(s, x);
            Bytes(Out(s, frames, None), x + [b] + y)
            == Bytes(Out(step.state.(afterCr := b == CR), WithFrame(frames, step.frame), step.error), y)
  {
    hide CheckedLine, Bytes, OneMore;
    Held(s, frames, x);
    BytesAppend(Out(s, frames, None), x, [b] + y);
    assert x + ([b] + y) == x + [b] + y;
    assert [] + x == x;
    var held := s.(tail := x);
    BytesCons(Out(held, frames, None), [b] + y);
    assert ([b] + y)[0] == b && ([b] + y)[1..] == y;
    EndByte(held, frames, b);
    LineFrame(s, false, x, x);
    LineValid(s, x);
  }

  /** The buffer read one line further: where reading goes on, and with what. */
  lemma LineStepAt(s: State, frames: seq<Frame>, tail: seq<byte>, start: nat, end: nat, next: nat, cr: bool)
    requires Valid(s) && s.bomSettled && !s.afterCr && s.tail == []
    requires start <= end < |tail| && NoEnds(tail[start..end]) && IsEnd(tail[end])
    requires cr == (tail[end] == CR && end + 1 == |tail|)
    requires next == if tail[end] == CR && end + 1 < |tail| && tail[end + 1] == LF then end + 2 else end + 1
    ensures var step := CheckedLine(s, tail[start..end]);
            && Valid(step.state.(afterCr := cr)) && step.state.bomSettled && step.state.tail == []
            && Bytes(Out(s, frames, None), tail[start..])
               == if step.error.Some? then Out(step.state.(afterCr := tail[end] == CR), frames, step.error)
                  else Bytes(Out(step.state.(afterCr := cr), WithFrame(frames, step.frame), None), tail[next..])
  {
    hide CheckedLine, Bytes;
    var line, y := tail[start..end], tail[end + 1..];
    var step := CheckedLine(s, line);
    assert tail[start..] == line + [tail[end]] + y;
    LineRead(s, frames, line, tail[end], y);
    LineValid(s, line);
    if step.error.Some? {
      BytesError(Out(step.state.(afterCr := tail[end] == CR), frames, step.error), y);
    } else if tail[end] == CR && end + 1 < |tail| {
      AfterCr(step.state.(afterCr := true), WithFrame(frames, step.frame), y);
      assert y[1..] == tail[end + 2..];
      assert step.state.(afterCr := true).(afterCr := false) == step.state.(afterCr := false);
    }
  }

  /** After a carriage return, a line feed is part of the same line end. */
  lemma AfterCr(s: State, frames: seq<Frame>, y: seq<byte>)
    requires s.afterCr && y != []
    ensures Bytes(Out(s, frames, None), y)
         == Bytes(Out(s.(afterCr := false), frames, None), if y[0] == LF then y[1..] else y)
  {
    BytesCons(Out(s, frames, None), y);
    if y[0] != LF {
      BytesCons(Out(s.(afterCr := false), frames, None), y);
    }
    hide CheckedLine;
  }

  /** Before the byte-order mark is settled: the stretch is still a prefix of it, or the stream is
      read from its first byte after the mark. */
  lemma {:induction false} BomPhase(s: State, rest: seq<byte>)
    requires Valid(s) && !s.bomSettled
    ensures var all := s.tail + rest;
            Bytes(Out(s, [], None), rest)
            == if BomSoFar(all) then Out(s.(tail := all), [], None)
               else Bytes(Out(s.(bomSettled := true, tail := []), [], None), WithoutBom(all))
    decreases |rest|
  {
    if rest == [] {
      assert s.tail + rest == s.tail;
    } else {
      var b, more := rest[0], rest[1..];
      var t := s.tail + [b];
      assert s.tail + rest == t + more;
      BytesCons(Out(s, [], None), rest);
      if BomSoFar(t) {
        BomNoEnds(t);
        BomPhase(s.(tail := t), more);
      } else {
        BomSettles(s, b, more);
      }
    }
  }

  lemma BomNoEnds(t: seq<byte>)
    requires BomSoFar(t)
    ensures NoEnds(t)
  {
    BomCases(t, 0, []);
  }

  /** Without a mark, the byte that settles the question reads as it would after one. */
  lemma SettlingByte(s: State, b: byte)
    requires Valid(s) && !s.bomSettled && !BomSoFar(s.tail + [b])
    ensures Byte(s, b)
         == if s.tail + [b] == BOM then LineStep(s.(bomSettled := true, tail := []), None, None)
            else Byte(s.(bomSettled := true), b)
  {
    hide CheckedLine, BomSoFar, WithoutBom;
    BomCases(s.tail, b, []);
    assert s.tail + [b] + [] == s.tail + [b];
  }

  lemma BomSettles(s: State, b: byte, more: seq<byte>)
    requires Valid(s) && !s.bomSettled && !BomSoFar(s.tail + [b])
    ensures !BomSoFar(s.tail + [b] + more)
    ensures Bytes(OneMore(Out(s, [], None), b), more)
         == Bytes(Out(s.(bomSettled := true, tail := []), [], None), WithoutBom(s.tail + [b] + more))
  {
    hide Byte, Bytes, BomSoFar, WithoutBom;
    var u := s.(bomSettled := true, tail := []);
    BomCases(s.tail, b, more);
    SettlingByte(s, b);
    if s.tail + [b] != BOM {
      Held(u, [], s.tail);
      assert [] + s.tail == s.tail;
      var held := u.(tail := s.tail);
      assert Bytes(Out(u, [], None), s.tail) == Out(held, [], None);
      assert s.tail + ([b] + more) == s.tail + [b] + more;
      BytesAppend(Out(u, [], None), s.tail, [b] + more);
      BytesCons(Out(held, [], None), [b] + more);
      assert ([b] + more)[1..] == more;
    }
  }

  /** The first line end at or after `from`. */
  function NextEnd(tail: seq<byte>, from: nat): (e: nat)
    requires from <= |tail|
    ensures from <= e <= |tail| && NoEnds(tail[from..e])
    ensures e < |tail| ==> IsEnd(tail[e])
    decreases |tail| - from
  {
    if from == |tail| || IsEnd(tail[from]) then from
    else
      var e := NextEnd(tail, from + 1);
      assert tail[from..e] == [tail[from]] + tail[from + 1..e];
      e
  }

  // ----- the splitter object

  class SseSplitter {
    var tail: seq<byte>
    var bomSettled: bool
    var afterCr: bool
    var event: seq<byte>
    var data: seq<byte>
    var hasData: bool

    function Now(): State
      reads this
    {
      State(tail, bomSettled, afterCr, event, data, hasData)
    }

    constructor ()
      ensures Now() == INITIAL
    {
      tail, bomSettled, afterCr, event, data, hasData := [], false, false, [], [], false;
    }

    method ReadLine(line: seq<byte>) returns (frame: Option<Frame>, error: Option<SplitError>)
      modifies this
      ensures LineStep(Now(), frame, error) == Line(old(Now()), line)
    {
      frame, error := None, None;
      if line == [] {
        var taken := event;
        event := [];
        if hasData {
          hasData := false;
          frame := Some(Frame(if taken == [] then MESSAGE else taken, data));
          data := [];
        }
      } else if line[0] != COLON {
        var (field, raw) := SplitColon(line);
        var value := StripSpace(raw);
        if field == EVENT {
          event := value;
        } else if field == DATA {
          if hasData {
            data := data + [LF];
          }
          data := data + value;
          hasData := true;
          if |data| > MAX_SSE_SPLIT_BYTES {
            error := Some(TooLarge);
          }
        }
      }
    }

    /** The start of a push: the chunk in the buffer, a split CRLF joined, the mark dropped. */
    method Extend(chunk: seq<byte>) returns (waiting: bool)
      requires Valid(Now())
      modifies this
      ensures waiting ==> Valid(Now()) && !bomSettled
                          && Bytes(Out(old(Now()), [], None), chunk) == Out(Now(), [], None)
      ensures !waiting ==>
                && bomSettled && Valid(Now().(tail := []))
                && (afterCr ==> tail == [])
                && Bytes(Out(old(Now()), [], None), chunk)
                   == Bytes(Out(Now().(tail := []), [], None), tail)
    {
      hide Byte;
      var rest := chunk;
      if afterCr && chunk != [] {
        AfterCr(Now(), [], chunk);
        afterCr := false;
        if chunk[0] == LF {
          rest := chunk[1..];
        }
      }
      ghost var s := Now();
      assert Bytes(Out(old(Now()), [], None), chunk) == Bytes(Out(s, [], None), rest);
      tail := tail + rest;
      if !bomSettled {
        BomPhase(s, rest);
        if BomSoFar(tail) {
          BomNoEnds(tail);
          return true;
        }
        tail := WithoutBom(tail);
        bomSettled := true;
      } else {
        Held(s.(tail := []), [], s.tail);
        assert [] + s.tail == s.tail;
        BytesAppend(Out(s.(tail := []), [], None), s.tail, rest);
      }
      return false;
    }

    /** One line of the buffer and its terminator, where a CRLF counts once. */
    method ReadOne(start: nat, end: nat)
      returns (next: nat, frame: Option<Frame>, refused: Option<SplitError>)
      requires bomSettled && !afterCr && Valid(Now().(tail := []))
      requires start <= end < |tail| && NoEnds(tail[start..end]) && IsEnd(tail[end])
      modifies this
      ensures tail == old(tail) && end < next <= |tail|
      ensures var s := old(Now()).(tail := []);
              var step := CheckedLine(s, tail[start..end]);
              && frame == step.frame && refused == step.error
              && (refused.None? ==>
                    && Valid(Now().(tail := [])) && bomSettled && (afterCr ==> next == |tail|)
                    && forall frames :: Bytes(Out(s, frames, None), tail[start..])
                         == Bytes(Out(Now().(tail := []), WithFrame(frames, frame), None), tail[next..]))
              && (refused.Some? ==> forall frames ::
                    var o := Bytes(Out(s, frames, None), tail[start..]);
                    o.frames == frames && o.error == refused)
    {
      hide Bytes, CheckedLine, Line, Utf8.Decode, Valid;
      var line, terminator := tail[start..end], tail[end];
      ghost var s := Now().(tail := []);
      next := end + 1;
      var cr := false;
      if terminator == CR {
        if next == |tail| {
          cr := true;
        } else if tail[next] == LF {
          next := next + 1;
        }
      }
      forall frames
        ensures var step := CheckedLine(s, line);
                && Valid(step.state.(afterCr := cr)) && step.state.bomSettled && step.state.tail == []
                && Bytes(Out(s, frames, None), tail[start..])
                   == if step.error.Some? then Out(step.state.(afterCr := tail[end] == CR), frames, step.error)
                      else Bytes(Out(step.state.(afterCr := cr), WithFrame(frames, step.frame), None), tail[next..])
      {
        LineStepAt(s, frames, tail, start, end, next, cr);
      }
      LineStepAt(s, [], tail, start, end, next, cr);
      CheckedIs(s, line);
      if Utf8.Decode(line).None? {
        frame, refused := None, Some(NotUtf8);
        return;
      }
      afterCr := cr;
      LineFrame(s, cr, tail, line);
      CheckedIs(Now(), line);
      frame, refused := ReadLine(line);
    }

    /** The whole lines of the buffer, up to the first refusal. */
    method ReadLines() returns (frames: seq<Frame>, error: Option<SplitError>)
      requires bomSettled && Valid(Now().(tail := [])) && (afterCr ==> tail == [])
      modifies this
      ensures var o := Bytes(Out(old(Now()).(tail := []), [], None), old(tail));
              frames == o.frames && error == o.error && (error.None? ==> Now() == o.state && Valid(Now()))
    {
      hide Bytes, CheckedLine;
      frames, error := [], None;
      ghost var goal := Bytes(Out(Now().(tail := []), [], None), tail);
      var start := 0;
      assert tail[0..] == tail;
      var end := NextEnd(tail, start);
      while end < |tail|
        invariant 0 <= start <= |tail| && end == NextEnd(tail, start)
        invariant bomSettled && Valid(Now().(tail := [])) && (afterCr ==> start == |tail|)
        invariant goal == Bytes(Out(Now().(tail := []), frames, None), tail[start..])
        decreases |tail| - start
      {
        var next, frame, refused := ReadOne(start, end);
        if refused.Some? {
          return frames, refused;
        }
        frames := WithFrame(frames, frame);
        start := next;
        end := NextEnd(tail, start);
      }
      assert tail[start..end] == tail[start..];
      Held(Now().(tail := []), frames, tail[start..]);
      assert [] + tail[start..] == tail[start..];
      tail := tail[start..];
    }

    /** Appends a chunk to the buffer and reads the whole lines in it. */
    method PushInto(chunk: seq<byte>) returns (frames: seq<Frame>, error: Option<SplitError>)
      requires Valid(Now())
      modifies this
      ensures var out := Push(old(Now()), chunk);
              && frames == out.frames && error == out.error
              && (error.None? ==> Now() == out.state && Valid(Now()))
    {
      hide Bytes;
      frames, error := [], None;
      var waiting := Extend(chunk);
      if waiting {
        assert |tail| <= 2;
        return;
      }
      frames, error := ReadLines();
      if error.None? && |tail| > MAX_SSE_SPLIT_BYTES {
        error := Some(TooLarge);
      }
    }

    /** The end of input. */
    method EndInput() returns (r: Result<Option<Frame>, SplitError>)
      modifies this
      ensures r == Finish(old(Now()))
    {
      bomSettled, afterCr := true, false;
      if tail != [] {
        var last := tail;
        tail := [];
        if Utf8.Decode(last).None? {
          return Err(NotUtf8);
        }
        var _, refused := ReadLine(last);
        if refused.Some? {
          return Err(refused.value);
        }
      }
      var frame, _ := ReadLine([]);
      return Ok(frame);
    }
  }

  lemma CheckedIs(s: State, line: seq<byte>)
    ensures CheckedLine(s, line)
         == if Utf8.Decode(line).None? then LineStep(s, None, Some(NotUtf8)) else Line(s, line)
  {
  }
}
