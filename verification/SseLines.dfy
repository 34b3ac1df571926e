/** The event stream read line by line: what a stream spells, and that what it dispatches is text. */
module SseLines {
  import opened Common
  import opened SseSplit
  import Utf8

  // ----- lines

  datatype End = Lf | Cr | CrLf

  function EndBytes(e: End): seq<byte> {
    match e case Lf => [LF] case Cr => [CR] case CrLf => [CR, LF]
  }

  /** A line and the end it is written with. */
  datatype Written = Written(line: seq<byte>, end: End)

  function Spell(items: seq<Written>): seq<byte> {
    if items == [] then [] else items[0].line + EndBytes(items[0].end) + Spell(items[1..])
  }

  function LinesOf(items: seq<Written>): seq<seq<byte>> {
    if items == [] then [] else [items[0].line] + LinesOf(items[1..])
  }

  /** An empty line that ends with a line feed, which after a carriage return would be taken for the
      second half of one line end. */
  predicate BareLf(items: seq<Written>) {
    items != [] && items[0].line == [] && items[0].end.Lf?
  }

  /** No line holds a line end, and no end can be taken for part of the one before it. */
  predicate Apart(items: seq<Written>) {
    items != [] ==>
      && NoEnds(items[0].line)
      && (items[0].end.Cr? ==> !BareLf(items[1..]))
      && Apart(items[1..])
  }

  /** What a list of lines produces from a state on. */
  function ReadLines(o: Out, lines: seq<seq<byte>>): Out
    decreases |lines|
  {
    if lines == [] || o.error.Some? then o
    else
      var step := CheckedLine(o.state, lines[0]);
      ReadLines(Out(step.state, WithFrame(o.frames, step.frame), step.error), lines[1..])
  }

  /** The same, but for a carriage return that waits for a line feed. */
  predicate Alike(a: Out, b: Out) {
    a.frames == b.frames && a.error == b.error && a.state.(afterCr := false) == b.state.(afterCr := false)
  }

  predicate Between(s: State) {
    s.bomSettled && s.tail == []
  }

  lemma SpellFirst(items: seq<Written>)
    requires Apart(items) && items != []
    ensures Spell(items) != [] && (Spell(items)[0] == LF <==> BareLf(items))
  {
    var line, end := items[0].line, EndBytes(items[0].end);
    assert Spell(items) == line + end + Spell(items[1..]);
    if line != [] {
      assert Spell(items)[0] == line[0] && !IsEnd(line[0]);
    } else {
      assert Spell(items)[0] == end[0];
    }
  }

  /** One written line: where reading goes on. */
  lemma OneLine(s: State, frames: seq<Frame>, item: Written, rest: seq<byte>)
    requires Valid(s) && Between(s) && !s.afterCr && NoEnds(item.line)
    ensures var step := CheckedLine(s, item.line);
            && Valid(step.state) && Between(step.state)
            && Bytes(Out(s, frames, None), item.line + EndBytes(item.end) + rest)
               == if step.error.Some?
                  then Out(step.state.(afterCr := !item.end.Lf?), WithFrame(frames, step.frame), step.error)
                  else Bytes(Out(step.state.(afterCr := item.end.Cr?), WithFrame(frames, step.frame), None), rest)
  {
    hide CheckedLine, Bytes;
    var read := CheckedLine(s, item.line);
    LineValid(s, item.line);
    var b, y := if item.end.Lf? then LF else CR, if item.end.CrLf? then [LF] + rest else rest;
    assert item.line + EndBytes(item.end) + rest == item.line + [b] + y;
    LineRead(s, frames, item.line, b, y);
    var after := Out(read.state.(afterCr := b == CR), WithFrame(frames, read.frame), read.error);
    if read.error.Some? {
      BytesError(after, y);
    } else if item.end.CrLf? {
      AfterCr(after.state, after.frames, y);
      assert y[1..] == rest && read.state.(afterCr := true).(afterCr := false) == read.state.(afterCr := false);
    }
  }

  /** Written lines are read as those lines, whatever their ends. */
  lemma {:induction false} SpelledReads(s: State, frames: seq<Frame>, items: seq<Written>)
    requires Valid(s) && Between(s) && Apart(items) && (s.afterCr ==> !BareLf(items))
    ensures Alike(Bytes(Out(s, frames, None), Spell(items)),
                  ReadLines(Out(s.(afterCr := false), frames, None), LinesOf(items)))
    decreases |items|
  {
    hide CheckedLine, Bytes;
    var t := s.(afterCr := false);
    if items == [] {
      assert Bytes(Out(s, frames, None), []) == Out(s, frames, None) by {
        NoBytes(Out(s, frames, None));
      }
    } else {
      var item, rest := items[0], items[1..];
      if s.afterCr {
        SpellFirst(items);
        AfterCr(s, frames, Spell(items));
      }
      OneLine(t, frames, item, Spell(rest));
      var step := CheckedLine(t, item.line);
      LineFrame(t, false, [], item.line);
      assert LinesOf(items)[0] == item.line && LinesOf(items)[1..] == LinesOf(rest);
      if step.error.None? {
        SpelledReads(step.state.(afterCr := item.end.Cr?), WithFrame(frames, step.frame), rest);
      }
    }
  }

  lemma NoBytes(o: Out)
    ensures Bytes(o, []) == o
  {
  }

  const SETTLED := INITIAL.(bomSettled := true)

  /** A whole stream, with or without the byte-order mark: it is read as its lines. */
  lemma StreamReads(mark: bool, items: seq<Written>)
    requires Apart(items) && (!mark ==> !BomSoFar(Spell(items)) && !(BOM <= Spell(items)))
    ensures Alike(Bytes(START, (if mark then BOM else []) + Spell(items)),
                  ReadLines(Out(SETTLED, [], None), LinesOf(items)))
  {
    hide Bytes, ReadLines;
    var text := Spell(items);
    var all := (if mark then BOM else []) + text;
    assert [] + all == all && [] + text == text;
    assert mark ==> all[..|BOM|] == BOM && all[|BOM|..] == text;
    BomPhase(INITIAL, all);
    SpelledReads(SETTLED, [], items);
  }

  // ----- events as lines

  function EventLine(event: seq<byte>): seq<byte> {
    EVENT + [COLON] + ([SPACE] + event)
  }

  function DataLine(data: seq<byte>): seq<byte> {
    DATA + [COLON] + ([SPACE] + data)
  }

  function FirstLf(data: seq<byte>): (n: nat)
    ensures n <= |data| && LF !in data[..n] && (n < |data| ==> data[n] == LF)
  {
    if data == [] || data[0] == LF then 0
    else
      var n := 1 + FirstLf(data[1..]);
      assert data[..n] == [data[0]] + data[1..][..n - 1];
      n
  }

  /** One line for each stretch of the data between line feeds. */
  function DataLines(data: seq<byte>): seq<seq<byte>>
    decreases |data|
  {
    var n := FirstLf(data);
    if n == |data| then [DataLine(data)] else [DataLine(data[..n])] + DataLines(data[n + 1..])
  }

  /** The lines that write an event, with the blank line that dispatches it. */
  function FrameLines(f: Frame): seq<seq<byte>> {
    [EventLine(f.event)] + DataLines(f.data) + [[]]
  }

  function CommentLines(comments: seq<seq<byte>>): seq<seq<byte>> {
    if comments == [] then [] else [[COLON] + comments[0]] + CommentLines(comments[1..])
  }

  /** An event and the comments written before it. */
  datatype Noted = Noted(comments: seq<seq<byte>>, frame: Frame)

  function ScriptLines(script: seq<Noted>): seq<seq<byte>> {
    if script == [] then []
    else CommentLines(script[0].comments) + FrameLines(script[0].frame) + ScriptLines(script[1..])
  }

  function FramesOf(script: seq<Noted>): seq<Frame> {
    if script == [] then [] else [script[0].frame] + FramesOf(script[1..])
  }

  predicate IsText(b: seq<byte>) {
    Utf8.Decode(b).Some?
  }

  /** An event that can be written: texts, a type, and data within the bound. */
  predicate Writable(n: Noted) {
    && n.frame.event != [] && IsText(n.frame.event) && IsText(n.frame.data)
    && |n.frame.data| <= MAX_SSE_SPLIT_BYTES
    && forall i :: 0 <= i < |n.comments| ==> IsText(n.comments[i])
  }

  // ----- reading them back

  lemma {:induction false} ReadAppend(o: Out, a: seq<seq<byte>>, b: seq<seq<byte>>)
    ensures ReadLines(o, a + b) == ReadLines(ReadLines(o, a), b)
    decreases |a|
  {
    hide CheckedLine;
    if a == [] {
      assert a + b == b;
    } else if o.error.None? {
      assert (a + b)[0] == a[0] && (a + b)[1..] == a[1..] + b;
      var step := CheckedLine(o.state, a[0]);
      ReadAppend(Out(step.state, WithFrame(o.frames, step.frame), step.error), a[1..], b);
    }
  }

  lemma ReadOneLine(s: State, frames: seq<Frame>, line: seq<byte>)
    ensures var step := CheckedLine(s, line);
            ReadLines(Out(s, frames, None), [line]) == Out(step.state, WithFrame(frames, step.frame), step.error)
  {
    hide CheckedLine;
    assert [line][1..] == [];
  }

  lemma {:induction false} SplitColonAt(field: seq<byte>, value: seq<byte>)
    requires COLON !in field
    ensures SplitColon(field + [COLON] + value) == (field, value)
  {
    var line := field + [COLON] + value;
    if field == [] {
      assert line[1..] == value;
    } else {
      assert field[0] in field && line[0] == field[0] && line[1..] == field[1..] + [COLON] + value;
      SplitColonAt(field[1..], value);
      assert [field[0]] + field[1..] == field;
    }
  }

  /** ASCII bytes before a text leave a text. */
  lemma {:induction false} AsciiText(head: seq<byte>, text: seq<byte>)
    requires (forall i :: 0 <= i < |head| ==> head[i] < 0x80) && IsText(text)
    ensures IsText(head + text)
  {
    if head == [] {
      assert head + text == text;
    } else {
      assert (head + text)[1..] == head[1..] + text;
      AsciiText(head[1..], text);
    }
  }

  lemma EventLineReads(s: State, frames: seq<Frame>, event: seq<byte>)
    requires IsText(event)
    ensures ReadLines(Out(s, frames, None), [EventLine(event)]) == Out(s.(event := event), frames, None)
  {
    var head, line := EVENT + [COLON] + [SPACE], EventLine(event);
    assert line == head + event;
    AsciiText(head, event);
    SplitColonAt(EVENT, [SPACE] + event);
    assert line != [] && line[0] == EVENT[0] && ([SPACE] + event)[1..] == event;
    hide SplitColon, Utf8.Decode;
    ReadOneLine(s, frames, line);
  }

  lemma DataLineReads(s: State, frames: seq<Frame>, data: seq<byte>)
    requires IsText(data)
    ensures var whole := (if s.hasData then s.data + [LF] else s.data) + data;
            |whole| <= MAX_SSE_SPLIT_BYTES ==>
              ReadLines(Out(s, frames, None), [DataLine(data)]) == Out(s.(data := whole, hasData := true), frames, None)
  {
    var head, line := DATA + [COLON] + [SPACE], DataLine(data);
    assert line == head + data;
    AsciiText(head, data);
    SplitColonAt(DATA, [SPACE] + data);
    assert line != [] && line[0] == DATA[0] && ([SPACE] + data)[1..] == data && DATA != EVENT;
    hide SplitColon, Utf8.Decode;
    ReadOneLine(s, frames, line);
  }

  lemma Regrouped(base: seq<byte>, first: seq<byte>, rest: seq<byte>)
    ensures base + first + [LF] + rest == base + (first + [LF] + rest)
  {
  }

  lemma {:induction false} DataLinesRead(s: State, frames: seq<Frame>, data: seq<byte>)
    requires IsText(data)
    ensures var whole := (if s.hasData then s.data + [LF] else s.data) + data;
            |whole| <= MAX_SSE_SPLIT_BYTES ==>
              ReadLines(Out(s, frames, None), DataLines(data)) == Out(s.(data := whole, hasData := true), frames, None)
    decreases |data|
  {
    hide ReadLines, Utf8.Decode;
    var base := if s.hasData then s.data + [LF] else s.data;
    var n := FirstLf(data);
    if n == |data| {
      DataLineReads(s, frames, data);
    } else {
      var first, rest := data[..n], data[n + 1..];
      assert data == first + [LF] + rest;
      Utf8.SplitAtAscii(first, LF, rest);
      DataLineReads(s, frames, first);
      var t := s.(data := base + first, hasData := true);
      Regrouped(base, first, rest);
      hide DataLine;
      ReadAppend(Out(s, frames, None), [DataLine(first)], DataLines(rest));
      DataLinesRead(t, frames, rest);
    }
  }

  /** No event is pending. */
  predicate Idle(s: State) {
    s.event == [] && s.data == [] && !s.hasData
  }

  lemma BlankReads(s: State, frames: seq<Frame>)
    requires s.hasData && s.event != []
    ensures ReadLines(Out(s, frames, None), [[]])
         == Out(s.(event := [], data := [], hasData := false), frames + [Frame(s.event, s.data)], None)
  {
    ReadOneLine(s, frames, []);
  }

  /** The lines of an event dispatch that event and leave nothing pending. */
  lemma FrameReads(s: State, frames: seq<Frame>, n: Noted)
    requires Idle(s) && Writable(n)
    ensures ReadLines(Out(s, frames, None), FrameLines(n.frame)) == Out(s, frames + [n.frame], None)
  {
    hide ReadLines, Utf8.Decode, DataLines;
    var f := n.frame;
    var named := s.(event := f.event);
    EventLineReads(s, frames, f.event);
    assert [] + f.data == f.data;
    DataLinesRead(named, frames, f.data);
    BlankReads(named.(data := f.data, hasData := true), frames);
    ReadAppend(Out(s, frames, None), [EventLine(f.event)] + DataLines(f.data), [[]]);
    ReadAppend(Out(s, frames, None), [EventLine(f.event)], DataLines(f.data));
  }

  lemma UnnamedBlank(s: State, frames: seq<Frame>)
    requires s.hasData && s.event == []
    ensures ReadLines(Out(s, frames, None), [[]])
         == Out(s.(event := [], data := [], hasData := false), frames + [Frame(MESSAGE, s.data)], None)
  {
    ReadOneLine(s, frames, []);
  }

  /** Data without an event line dispatches an event of the default name. */
  lemma UnnamedReads(s: State, frames: seq<Frame>, data: seq<byte>)
    requires Idle(s) && IsText(data) && |data| <= MAX_SSE_SPLIT_BYTES
    ensures ReadLines(Out(s, frames, None), DataLines(data) + [[]]) == Out(s, frames + [Frame(MESSAGE, data)], None)
  {
    hide ReadLines, Utf8.Decode, DataLines, MESSAGE;
    assert [] + data == data;
    DataLinesRead(s, frames, data);
    UnnamedBlank(s.(data := data, hasData := true), frames);
    ReadAppend(Out(s, frames, None), DataLines(data), [[]]);
  }

  lemma EmptyBlank(s: State, frames: seq<Frame>)
    requires !s.hasData
    ensures ReadLines(Out(s, frames, None), [[]]) == Out(s.(event := []), frames, None)
  {
    ReadOneLine(s, frames, []);
  }

  /** An event line without data dispatches nothing, and its name is forgotten. */
  lemma NameForgotten(s: State, frames: seq<Frame>, event: seq<byte>)
    requires Idle(s) && IsText(event)
    ensures ReadLines(Out(s, frames, None), [EventLine(event)] + [[]]) == Out(s, frames, None)
  {
    hide ReadLines, Utf8.Decode;
    EventLineReads(s, frames, event);
    EmptyBlank(s.(event := event), frames);
    ReadAppend(Out(s, frames, None), [EventLine(event)], [[]]);
  }

  lemma {:induction false} CommentsRead(s: State, frames: seq<Frame>, comments: seq<seq<byte>>)
    requires forall i :: 0 <= i < |comments| ==> IsText(comments[i])
    ensures ReadLines(Out(s, frames, None), CommentLines(comments)) == Out(s, frames, None)
    decreases |comments|
  {
    if comments != [] {
      AsciiText([COLON], comments[0]);
      hide Utf8.Decode;
      assert CommentLines(comments)[0] == [COLON] + comments[0];
      assert CommentLines(comments)[1..] == CommentLines(comments[1..]);
      CommentsRead(s, frames, comments[1..]);
    }
  }

  lemma {:induction false} ScriptReads(s: State, frames: seq<Frame>, script: seq<Noted>)
    requires Idle(s) && forall i :: 0 <= i < |script| ==> Writable(script[i])
    ensures ReadLines(Out(s, frames, None), ScriptLines(script)) == Out(s, frames + FramesOf(script), None)
    decreases |script|
  {
    hide FrameLines, CommentLines, Utf8.Decode;
    if script == [] {
      assert frames + [] == frames;
    } else {
      var n, rest, o := script[0], script[1..], Out(s, frames, None);
      assert Writable(n);
      CommentsRead(s, frames, n.comments);
      FrameReads(s, frames, n);
      ScriptReads(s, frames + [n.frame], rest);
      hide ReadLines;
      ReadAppend(o, CommentLines(n.comments) + FrameLines(n.frame), ScriptLines(rest));
      ReadAppend(o, CommentLines(n.comments), FrameLines(n.frame));
      assert frames + [n.frame] + FramesOf(rest) == frames + ([n.frame] + FramesOf(rest));
    }
  }

  // ----- a written stream

  /** The bytes of a written stream, with or without the byte-order mark. */
  function StreamBytes(mark: bool, items: seq<Written>): seq<byte> {
    (if mark then BOM else []) + Spell(items)
  }

  /** `items` writes the events and comments of the script, line by line, with ends of its own. */
  ghost predicate Writes(items: seq<Written>, script: seq<Noted>) {
    && (forall i :: 0 <= i < |script| ==> Writable(script[i]))
    && Apart(items) && LinesOf(items) == ScriptLines(script)
  }

  /** A script does not start with the byte-order mark. */
  lemma NoMark(items: seq<Written>, script: seq<Noted>)
    requires LinesOf(items) == ScriptLines(script) && script != []
    ensures items != [] && !BomSoFar(Spell(items)) && !(BOM <= Spell(items))
  {
    hide DataLines;
    var first := ScriptLines(script)[0];
    if script[0].comments != [] {
      assert first == [COLON] + script[0].comments[0];
    } else {
      assert CommentLines(script[0].comments) == [];
      assert first == EventLine(script[0].frame.event);
    }
    assert items != [] && items[0].line == first;
    assert Spell(items)[0] == first[0] && first[0] != BOM[0];
  }

  /** A written stream dispatches its events, in order, and leaves nothing behind. */
  lemma WrittenReads(mark: bool, items: seq<Written>, script: seq<Noted>)
    requires Writes(items, script)
    ensures var o := Bytes(START, StreamBytes(mark, items));
            && o.frames == FramesOf(script) && o.error.None?
            && o.state.tail == [] && Idle(o.state)
  {
    hide Bytes, ReadLines, Apart;
    ScriptReads(SETTLED, [], script);
    assert [] + FramesOf(script) == FramesOf(script);
    if !mark && script == [] {
      assert items == [] && StreamBytes(mark, items) == [];
      NoBytes(START);
    } else {
      if !mark {
        NoMark(items, script);
      }
      StreamReads(mark, items);
    }
  }

  lemma FinishIdle(s: State)
    requires s.tail == [] && Idle(s)
    ensures Finish(s) == Ok(None)
  {
  }

  /** However a written stream without overlong lines is cut into chunks, a caller sees its events. */
  lemma WrittenStream(mark: bool, items: seq<Written>, script: seq<Noted>, chunks: seq<seq<byte>>)
    requires Writes(items, script) && Flatten(chunks) == StreamBytes(mark, items)
    requires ShortLines(StreamBytes(mark, items))
    ensures Ended(Pushes(chunks)) == Seen(FramesOf(script), None)
  {
    WrittenReads(mark, items, script);
    hide Bytes, Writes, ShortLines, StreamBytes, Finish, Idle, HidesLongLine, ChunkIndependent;
    ShortLinesSuffice(StreamBytes(mark, items));
    PushesAreBytes(chunks);
    FinishIdle(Bytes(START, StreamBytes(mark, items)).state);
  }

  // ----- what is dispatched is text

  predicate TextFrame(f: Frame) {
    IsText(f.event) && IsText(f.data)
  }

  predicate TextState(s: State) {
    IsText(s.event) && IsText(s.data)
  }

  lemma {:induction false} SplitColonIs(line: seq<byte>)
    ensures var (field, value) := SplitColon(line);
            line == field + [COLON] + value || (line == field && value == [])
  {
    if line != [] && line[0] != COLON {
      SplitColonIs(line[1..]);
      assert line == [line[0]] + line[1..];
    } else if line != [] {
      assert line == [] + [COLON] + line[1..];
    }
  }

  lemma ValueText(line: seq<byte>)
    requires IsText(line)
    ensures IsText(StripSpace(SplitColon(line).1))
  {
    hide SplitColon;
    SplitColonIs(line);
    var (field, value) := SplitColon(line);
    if value != [] {
      Utf8.SplitAtAscii(field, COLON, value);
      if value[0] == SPACE {
        assert value == [] + [SPACE] + value[1..];
        Utf8.SplitAtAscii([], SPACE, value[1..]);
      }
    }
  }

  lemma MessageText()
    ensures IsText(MESSAGE)
  {
    AsciiText(MESSAGE, []);
    assert MESSAGE + [] == MESSAGE;
  }

  lemma JoinText(a: seq<byte>, b: seq<byte>)
    requires IsText(a) && IsText(b)
    ensures IsText(a + b) && IsText(a + [LF] + b)
  {
    AsciiText([LF], b);
    Utf8.DecodeAppend(a, b);
    Utf8.DecodeAppend(a, [LF] + b);
    assert a + ([LF] + b) == a + [LF] + b;
  }

  lemma PlainLineText(s: State, line: seq<byte>)
    requires TextState(s) && IsText(line)
    ensures var step := Line(s, line);
            TextState(step.state) && (step.frame.Some? ==> TextFrame(step.frame.value))
  {
    hide IsText, SplitColon, StripSpace, MESSAGE;
    MessageText();
    EmptyText();
    ValueText(line);
    JoinText(s.data, StripSpace(SplitColon(line).1));
  }

  lemma LineText(s: State, line: seq<byte>)
    requires TextState(s)
    ensures var step := CheckedLine(s, line);
            TextState(step.state) && (step.frame.Some? ==> TextFrame(step.frame.value))
  {
    hide Line, Utf8.Decode;
    if IsText(line) {
      PlainLineText(s, line);
    }
  }

  lemma ByteText(s: State, b: byte)
    requires TextState(s)
    ensures var step := Byte(s, b);
            TextState(step.state) && (step.frame.Some? ==> TextFrame(step.frame.value))
  {
    hide CheckedLine, IsText;
    var tail := s.tail + [b];
    var rest := if s.bomSettled then tail else WithoutBom(tail);
    if rest != [] {
      LineText(s.(bomSettled := true, tail := [], afterCr := b == CR), rest[..|rest| - 1]);
    }
  }

  ghost predicate TextOut(o: Out) {
    TextState(o.state) && forall f :: f in o.frames ==> TextFrame(f)
  }

  lemma {:induction false} BytesText(o: Out, bytes: seq<byte>)
    requires TextOut(o)
    ensures TextOut(Bytes(o, bytes))
  {
    hide Byte, IsText;
    if bytes != [] {
      var before := Bytes(o, bytes[..|bytes| - 1]);
      BytesText(o, bytes[..|bytes| - 1]);
      if before.error.None? {
        ByteText(before.state, bytes[|bytes| - 1]);
      }
    }
  }

  lemma {:induction false} PushesText(chunks: seq<seq<byte>>)
    ensures TextOut(Pushes(chunks))
  {
    hide Bytes, IsText;
    if chunks == [] {
      assert IsText([]) by {
        EmptyText();
      }
    } else {
      var init, c := chunks[..|chunks| - 1], chunks[|chunks| - 1];
      PushesText(init);
      BytesText(Out(Pushes(init).state, [], None), c);
    }
  }

  lemma EmptyText()
    ensures IsText([])
  {
  }

  /** Every event a caller sees is text, however the stream was cut and wherever it was refused. */
  lemma FramesAreText(chunks: seq<seq<byte>>, f: Frame)
    requires f in Ended(Pushes(chunks)).frames
    ensures TextFrame(f)
  {
    hide Pushes, IsText, CheckedLine, Line;
    PushesText(chunks);
    var s := Pushes(chunks).state;
    var t := s.(bomSettled := true, afterCr := false, tail := []);
    EmptyLineText(t);
    if s.tail != [] {
      LineText(t, s.tail);
      EmptyLineText(CheckedLine(t, s.tail).state);
    }
  }

  lemma EmptyLineText(s: State)
    requires TextState(s)
    ensures Line(s, []).frame.Some? ==> TextFrame(Line(s, []).frame.value)
  {
    EmptyText();
    LineText(s, []);
    hide IsText;
  }
}
