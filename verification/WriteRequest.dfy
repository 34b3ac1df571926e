/** A written HTTP/1.1 request and what the write observer reports of it. */
module WriteRequest {
  import opened Common
  import opened Text
  import opened WriteTracker
  import Utf8

  const CRLF := "\r\n"
  const BLANK := "\r\n\r\n"

  // ----- lines

  predicate NoCrlf(line: string) {
    forall i :: 0 <= i < |line| - 1 ==> !(line[i] == '\r' && line[i + 1] == '\n')
  }

  /** The lines, each ended by CRLF, and the blank line after them. */
  function HeaderText(lines: seq<string>): string
    requires lines != []
  {
    if |lines| == 1 then lines[0] + BLANK else lines[0] + CRLF + HeaderText(lines[1..])
  }

  lemma {:induction false} SplitFirst(line: string, rest: string)
    requires NoCrlf(line)
    ensures SplitCrlf(line + CRLF + rest) == [line] + SplitCrlf(rest)
  {
    var s := line + CRLF + rest;
    if line == "" {
      assert s[2..] == rest;
    } else {
      assert s[0] == line[0] && s[1..] == line[1..] + CRLF + rest;
      assert s[1] == (line + CRLF)[1];
      assert !(s[0] == '\r' && s[1] == '\n');
      SplitFirst(line[1..], rest);
      assert [line[0]] + line[1..] == line;
    }
  }

  /** Lines without CRLF, each written with one, are split into those lines and two empty ones. */
  lemma {:induction false} SplitInverts(lines: seq<string>)
    requires lines != [] && forall i :: 0 <= i < |lines| ==> NoCrlf(lines[i])
    ensures SplitCrlf(HeaderText(lines)) == lines + ["", ""]
  {
    if |lines| == 1 {
      assert lines[0] + BLANK == lines[0] + CRLF + CRLF;
      SplitFirst(lines[0], CRLF);
      SplitFirst("", "");
      assert "" + CRLF + "" == CRLF && SplitCrlf("") == [""];
      assert [lines[0]] + (["", ""]) == lines + ["", ""];
    } else {
      SplitInverts(lines[1..]);
      SplitFirst(lines[0], HeaderText(lines[1..]));
      assert [lines[0]] + (lines[1..] + ["", ""]) == lines + ["", ""];
    }
  }

  predicate IsBlankAt(text: string, q: nat) {
    q + 4 <= |text| && text[q..q + 4] == BLANK
  }

  lemma BlankChars(text: string, q: nat)
    requires IsBlankAt(text, q)
    ensures text[q] == '\r' && text[q + 1] == '\n' && text[q + 2] == '\r' && text[q + 3] == '\n'
  {
    var four := text[q..q + 4];
    assert four[0] == text[q] && four[1] == text[q + 1] && four[2] == text[q + 2] && four[3] == text[q + 3];
  }

  /** No blank line starts inside the first line. */
  lemma BlankAfterFirst(lines: seq<string>, q: nat)
    requires lines != [] && NoCrlf(lines[0]) && IsBlankAt(HeaderText(lines), q)
    ensures q == |lines[0]| || q >= |lines[0]| + 2
  {
    var text, x := HeaderText(lines), lines[0];
    BlankChars(text, q);
    assert text[|x|] == '\r' && text[|x| + 1] == '\n';
    assert forall i :: 0 <= i < |x| ==> text[i] == x[i];
  }

  /** The blank line of a header text is at its end, and nowhere before. */
  lemma {:induction false} BlankIsLast(lines: seq<string>, q: nat)
    requires lines != [] && forall i :: 0 <= i < |lines| ==> lines[i] != "" && NoCrlf(lines[i])
    requires IsBlankAt(HeaderText(lines), q)
    ensures q == |HeaderText(lines)| - 4
  {
    var text, x := HeaderText(lines), lines[0];
    BlankAfterFirst(lines, q);
    hide NoCrlf;
    if |lines| > 1 {
      var rest := HeaderText(lines[1..]);
      assert text == x + CRLF + rest;
      if q == |x| {
        NotCrlfFirst(lines[1..]);
        BlankChars(text, q);
      } else {
        assert rest[q - |x| - 2..q - |x| + 2] == text[q..q + 4];
        BlankIsLast(lines[1..], q - |x| - 2);
      }
    }
  }

  lemma NotCrlfFirst(lines: seq<string>)
    requires lines != [] && lines[0] != "" && NoCrlf(lines[0])
    ensures var text := HeaderText(lines); |text| >= 2 && !(text[0] == '\r' && text[1] == '\n')
  {
    var x := lines[0];
    if |x| == 1 {
      assert HeaderText(lines)[1] == '\r';
    } else {
      assert HeaderText(lines)[0] == x[0] && HeaderText(lines)[1] == x[1];
    }
  }

  // ----- texts and their bytes

  lemma {:induction false} EncodeAppend(a: string, b: string)
    ensures Utf8.Encode(a + b) == Utf8.Encode(a) + Utf8.Encode(b)
  {
    hide Utf8.EncodeChar;
    if a == "" {
      assert a + b == b;
    } else {
      assert (a + b)[0] == a[0] && (a + b)[1..] == a[1..] + b;
      EncodeAppend(a[1..], b);
    }
  }

  /** An ASCII byte at the head of a text is its first character. */
  lemma HeadByte(t: string)
    requires Utf8.Encode(t) != [] && Utf8.Encode(t)[0] < 0x80
    ensures t != "" && t[0] as int == Utf8.Encode(t)[0] && Utf8.Encode(t)[1..] == Utf8.Encode(t[1..])
  {
    Utf8.LaterBytes(t[0]);
    var c := Utf8.EncodeChar(t[0]);
    assert Utf8.Encode(t) == c + Utf8.Encode(t[1..]);
    assert c[0] == Utf8.Encode(t)[0];
    assert |c| == 1;
  }

  /** An ASCII byte of a text stands where one of its characters stands. */
  lemma {:induction false} AsciiByte(s: string, p: nat) returns (q: nat)
    requires p < |Utf8.Encode(s)| && Utf8.Encode(s)[p] < 0x80
    ensures q < |s| && Utf8.Encode(s[..q]) == Utf8.Encode(s)[..p]
  {
    hide Utf8.EncodeChar;
    var c, rest := Utf8.EncodeChar(s[0]), Utf8.Encode(s[1..]);
    assert Utf8.Encode(s) == c + rest;
    Utf8.LaterBytes(s[0]);
    if p < |c| {
      assert p == 0;
      q := 0;
      assert s[..0] == "";
    } else {
      assert rest[p - |c|] == Utf8.Encode(s)[p];
      var r := AsciiByte(s[1..], p - |c|);
      q := r + 1;
      assert s[..q][0] == s[0] && s[..q][1..] == s[1..][..r];
    }
  }

  /** ASCII bytes at the head of a text are its first characters. */
  lemma {:induction false} HeadBytes(p: seq<byte>, b: seq<byte>, t: string)
    requires Utf8.Encode(t) == p + b && forall i :: 0 <= i < |p| ==> p[i] < 0x80
    ensures |t| >= |p| && forall i :: 0 <= i < |p| ==> t[i] as int == p[i]
    ensures Utf8.Encode(t[|p|..]) == b
  {
    hide Utf8.Encode;
    if p == [] {
      assert p + b == b && t[0..] == t;
    } else {
      HeadByte(t);
      assert (p + b)[1..] == p[1..] + b;
      HeadBytes(p[1..], b, t[1..]);
      assert t[1..][|p| - 1..] == t[|p|..];
      assert forall i :: 1 <= i < |p| ==> t[i] == t[1..][i - 1] && p[i] == p[1..][i - 1];
    }
  }

  lemma FourBytes(b: seq<byte>, t: string)
    requires Utf8.Encode(t) == [13, 10, 13, 10] + b
    ensures |t| >= 4 && t[..4] == BLANK && Utf8.Encode(t[4..]) == b
  {
    hide Utf8.Encode;
    HeadBytes([13, 10, 13, 10], b, t);
    assert t[0] == '\r' && t[1] == '\n' && t[2] == '\r' && t[3] == '\n';
  }

  /** A blank line in the bytes of a text is one in the text. */
  lemma BlankBytes(text: string, h: nat) returns (q: nat)
    requires h <= |Utf8.Encode(text)| && Terminated(Utf8.Encode(text)[..h])
    ensures IsBlankAt(text, q) && |Utf8.Encode(text[..q])| + 4 == h
  {
    hide Utf8.Encode;
    var all := Utf8.Encode(text);
    assert all[h - 4..h] == [13, 10, 13, 10] by {
      assert all[..h][h - 4..] == all[h - 4..h];
    }
    assert all[h - 4] == all[h - 4..h][0];
    q := AsciiByte(text, h - 4);
    assert text == text[..q] + text[q..];
    EncodeAppend(text[..q], text[q..]);
    assert Utf8.Encode(text[q..]) == all[h - 4..] == [13, 10, 13, 10] + all[h..];
    FourBytes(all[h..], text[q..]);
    assert text[q..][..4] == text[q..q + 4];
  }

  lemma {:induction false} EncodeShorter(a: string, b: string)
    requires b != ""
    ensures |Utf8.Encode(a)| < |Utf8.Encode(a + b)|
  {
    EncodeAppend(a, b);
    Utf8.LaterBytes(b[0]);
  }

  /** The bytes of a header text end its header at their end. */
  lemma HeaderBytesEnd(lines: seq<string>, body: seq<byte>)
    requires lines != [] && forall i :: 0 <= i < |lines| ==> lines[i] != "" && NoCrlf(lines[i])
    ensures HeaderEnds(Utf8.Encode(HeaderText(lines)) + body, |Utf8.Encode(HeaderText(lines))|)
  {
    hide Utf8.Encode, HeaderText, NoCrlf;
    var text := HeaderText(lines);
    var head := Utf8.Encode(text);
    var all, n := head + body, |head|;
    assert all[..n] == head;
    var stem := TextEnds(lines);
    EncodeAppend(stem, BLANK);
    EncodeBlank();
    assert Terminated(head);
    forall k | 0 <= k < n
      ensures !Terminated(all[..k])
    {
      assert all[..k] == head[..k];
      if Terminated(head[..k]) {
        var q := BlankBytes(text, k);
        BlankIsLast(lines, q);
      }
    }
  }

  lemma EncodeBlank()
    ensures Utf8.Encode(BLANK) == [13, 10, 13, 10]
  {
    assert BLANK[1..] == "\n\r\n" && BLANK[1..][1..] == "\r\n" && BLANK[1..][1..][1..] == "\n";
    assert BLANK[1..][1..][1..][1..] == "";
  }

  lemma {:induction false} TextEnds(lines: seq<string>) returns (stem: string)
    requires lines != []
    ensures HeaderText(lines) == stem + BLANK
  {
    if |lines| == 1 {
      stem := lines[0];
    } else {
      var rest := TextEnds(lines[1..]);
      stem := lines[0] + CRLF + rest;
    }
  }

  // ----- requests

  datatype Field = Field(name: string, value: string)

  function FieldLine(f: Field): string {
    f.name + [':'] + f.value
  }

  function RequestLine(target: string): string {
    "POST " + target + " HTTP/1.1"
  }

  /** The lines of a request's header. */
  function RequestLines(target: string, fields: seq<Field>): (lines: seq<string>)
    ensures |lines| == |fields| + 1 && lines[0] == RequestLine(target)
    ensures forall i :: 0 <= i < |fields| ==> lines[i + 1] == FieldLine(fields[i])
  {
    if fields == [] then [RequestLine(target)]
    else RequestLines(target, fields[..|fields| - 1]) + [FieldLine(fields[|fields| - 1])]
  }

  /** The text of a request's header. */
  function RequestText(target: string, fields: seq<Field>): string {
    HeaderText(RequestLines(target, fields))
  }

  /** A correlation id: one to 128 letters, digits, underscores and hyphens. */
  predicate ValidId(id: string) {
    && 1 <= |id| <= 128
    && forall i :: 0 <= i < |id| ==>
         'a' <= id[i] <= 'z' || 'A' <= id[i] <= 'Z' || '0' <= id[i] <= '9' || id[i] == '_' || id[i] == '-'
  }

  /** The one field with the name, whatever its case, is at `at`. */
  predicate Only(fields: seq<Field>, name: string, at: nat) {
    && at < |fields|
    && forall i :: 0 <= i < |fields| ==> (EqIgnoreAsciiCase(fields[i].name, name) <==> i == at)
  }

  /** The value is a decimal number, white space around it aside. */
  predicate SaysLength(value: string, n: nat) {
    var digits := Trim(value);
    digits != "" && (forall i :: 0 <= i < |digits| ==> '0' <= digits[i] <= '9') && DecimalValue(digits) == n
  }

  /** Nothing in the request breaks a line or a field name. */
  predicate Plain(target: string, fields: seq<Field>) {
    && NoCrlf(RequestLine(target))
    && forall i :: 0 <= i < |fields| ==> ':' !in fields[i].name && NoCrlf(FieldLine(fields[i]))
  }

  /** The fields the observer asks for: the one id after one space, the one length, and no transfer
      coding. */
  predicate Correlated(fields: seq<Field>, a: nat, b: nat, id: string, n: nat) {
    && ValidId(id) && n <= U64_MAX
    && (forall i :: 0 <= i < |fields| ==> !EqIgnoreAsciiCase(fields[i].name, "transfer-encoding"))
    && Only(fields, "x-request-id", a) && fields[a].value == " " + id
    && Only(fields, "content-length", b) && SaysLength(fields[b].value, n)
  }

  lemma {:induction false} PlainLength(n: nat)
    ensures SaysLength(" " + Decimal(n), n)
  {
    var d := Decimal(n);
    assert forall i :: 0 <= i < |d| ==> IsDigit(d[i]);
    hide Decimal, DecimalValue;
    TrimSpaced(d);
  }

  lemma FieldSplits(f: Field)
    requires ':' !in f.name
    ensures SplitOnce(FieldLine(f), ':') == Some((f.name, f.value)) && FieldLine(f) != ""
    ensures forall name :: Named(FieldLine(f), name) <==> EqIgnoreAsciiCase(f.name, name)
  {
    SplitOnceFirst(f.name, ':', f.value);
    hide SplitOnce, EqIgnoreAsciiCase;
  }

  /** The id a field line carries: a valid one after one space. */
  lemma IdReads(f: Field, id: string)
    requires ':' !in f.name
    ensures IdOf(FieldLine(f)) == Some(id) <==> ValidId(id) && f.value == " " + id
  {
    FieldSplits(f);
    hide SplitOnce;
    assert (" " + id)[1..] == id;
    if " " <= f.value {
      assert f.value == " " + f.value[1..];
    }
  }

  lemma LengthReads(f: Field, n: nat)
    requires ':' !in f.name
    ensures LengthOf(FieldLine(f)) == Some(n) <==> SaysLength(f.value, n) && n <= U64_MAX
  {
    FieldSplits(f);
    hide SplitOnce, DecimalValue, Trim;
  }

  /** What a field line is to the reader. */
  lemma FieldIs(f: Field)
    requires ':' !in f.name
    ensures IsId(FieldLine(f)) <==> EqIgnoreAsciiCase(f.name, "x-request-id")
    ensures IsLength(FieldLine(f)) <==> EqIgnoreAsciiCase(f.name, "content-length")
    ensures Readable(FieldLine(f))
       <==> && !EqIgnoreAsciiCase(f.name, "transfer-encoding")
            && (IsId(FieldLine(f)) ==> IdOf(FieldLine(f)).Some?)
            && (IsLength(FieldLine(f)) ==> LengthOf(FieldLine(f)).Some?)
  {
    FieldSplits(f);
    hide SplitOnce, EqIgnoreAsciiCase, IdOf, LengthOf, Named;
  }

  lemma FieldReadable(fields: seq<Field>, a: nat, b: nat, id: string, n: nat, i: nat)
    requires Correlated(fields, a, b, id, n) && i < |fields| && ':' !in fields[i].name
    ensures Readable(FieldLine(fields[i]))
    ensures IsId(FieldLine(fields[i])) <==> i == a
    ensures IsLength(FieldLine(fields[i])) <==> i == b
  {
    hide EqIgnoreAsciiCase, IdOf, LengthOf, SaysLength, ValidId, IsId, IsLength, Readable, FieldLine;
    FieldIs(fields[i]);
    IdReads(fields[i], id);
    LengthReads(fields[i], n);
  }

  lemma EmptyReadable()
    ensures Readable("")
  {
  }

  lemma RequestLineIs(target: string)
    ensures IsRequestLine(RequestLine(target)) && RequestLine(target) != ""
  {
    var line := RequestLine(target);
    assert line[..5] == "POST ";
    assert line[|line| - 9..] == " HTTP/1.1";
  }

  /** Each line of a written request can be read, and which of them name the id and the length. */
  lemma LineAt(target: string, fields: seq<Field>, a: nat, b: nat, id: string, n: nat, i: nat)
    requires Plain(target, fields) && Correlated(fields, a, b, id, n) && 1 <= i < |fields| + 3
    ensures var line := (RequestLines(target, fields) + ["", ""])[i];
            Readable(line) && (IsId(line) <==> i == a + 1) && (IsLength(line) <==> i == b + 1)
  {
    hide IsId, IsLength, Readable, FieldLine, RequestLine, RequestLines, NoCrlf, ValidId, SaysLength, EqIgnoreAsciiCase;
    if i <= |fields| {
      FieldReadable(fields, a, b, id, n, i - 1);
      assert RequestLines(target, fields)[i - 1 + 1] == FieldLine(fields[i - 1]);
    } else {
      EmptyLineIsNeither();
      EmptyReadable();
    }
  }

  /** What the lines of a written request say. */
  lemma RequestSays(target: string, fields: seq<Field>, a: nat, b: nat, id: string, n: nat)
    requires Plain(target, fields) && Correlated(fields, a, b, id, n)
    ensures Says(RequestLines(target, fields) + ["", ""], Report(id, n))
  {
    hide IsId, IsLength, IdOf, LengthOf, FieldLine, RequestLine, RequestLines, ValidId, IsRequestLine, Readable, NoCrlf,
      SaysLength, EqIgnoreAsciiCase;
    RequestLineIs(target);
    IdReads(fields[a], id);
    LengthReads(fields[b], n);
    var lines := RequestLines(target, fields) + ["", ""];
    forall i | 1 <= i < |lines|
      ensures Readable(lines[i]) && (IsId(lines[i]) <==> i == a + 1) && (IsLength(lines[i]) <==> i == b + 1)
    {
      LineAt(target, fields, a, b, id, n, i);
    }
    assert lines[a + 1] == FieldLine(fields[a]) && lines[b + 1] == FieldLine(fields[b]);
    assert OnlyAt(lines, IsId, a + 1) && OnlyAt(lines, IsLength, b + 1);
  }

  /** Which fields a written request must have when its lines say a report. */
  lemma SaysCorrelated(target: string, fields: seq<Field>, r: Report) returns (a: nat, b: nat)
    requires Plain(target, fields) && Says(RequestLines(target, fields) + ["", ""], r)
    ensures Correlated(fields, a, b, r.id, r.length)
  {
    hide IsId, IsLength, IdOf, LengthOf, FieldLine, RequestLine, RequestLines, ValidId, IsRequestLine, Readable, NoCrlf,
      SaysLength, EqIgnoreAsciiCase;
    EmptyLineIsNeither();
    var lines := RequestLines(target, fields) + ["", ""];
    var idAt: nat :| OnlyAt(lines, IsId, idAt) && IdOf(lines[idAt]) == Some(r.id);
    var lengthAt: nat :| OnlyAt(lines, IsLength, lengthAt) && LengthOf(lines[lengthAt]) == Some(r.length);
    a, b := idAt - 1, lengthAt - 1;
    forall i | 0 <= i < |fields|
      ensures !EqIgnoreAsciiCase(fields[i].name, "transfer-encoding")
      ensures (EqIgnoreAsciiCase(fields[i].name, "x-request-id") <==> i == a)
      ensures (EqIgnoreAsciiCase(fields[i].name, "content-length") <==> i == b)
    {
      assert lines[i + 1] == FieldLine(fields[i]) && Readable(lines[i + 1]);
      FieldIs(fields[i]);
    }
    assert lines[a + 1] == FieldLine(fields[a]) && lines[b + 1] == FieldLine(fields[b]);
    IdReads(fields[a], r.id);
    LengthReads(fields[b], r.length);
  }

  /** No line of a written request is empty or holds a CRLF. */
  lemma LinesPlain(target: string, fields: seq<Field>, i: nat)
    requires Plain(target, fields) && i <= |fields|
    ensures RequestLines(target, fields)[i] != "" && NoCrlf(RequestLines(target, fields)[i])
  {
    hide RequestLines, NoCrlf, RequestLine;
    if i == 0 {
      RequestLineIs(target);
    } else {
      assert RequestLines(target, fields)[i - 1 + 1] == FieldLine(fields[i - 1]);
      assert FieldLine(fields[i - 1]) != "";
    }
  }

  /** A written header is read as a report exactly when its fields correlate it. */
  lemma RequestParses(target: string, fields: seq<Field>, r: Report)
    requires Plain(target, fields)
    ensures ParseHeader(Utf8.Encode(RequestText(target, fields))) == Some(r)
       <==> exists a, b :: Correlated(fields, a, b, r.id, r.length)
  {
    hide NoCrlf, Says, HeaderText, Utf8.Encode, Utf8.Decode, ParseHeader, SplitCrlf, RequestLines, Correlated, Plain;
    var lines, text := RequestLines(target, fields), RequestText(target, fields);
    forall i | 0 <= i < |lines|
      ensures NoCrlf(lines[i])
    {
      LinesPlain(target, fields, i);
    }
    SplitInverts(lines);
    Utf8.DecodeEncoded(text);
    ParseHeaderExact(Utf8.Encode(text), r);
    if Says(lines + ["", ""], r) {
      var a, b := SaysCorrelated(target, fields, r);
    }
    if a, b :| Correlated(fields, a, b, r.id, r.length) {
      RequestSays(target, fields, a, b, r.id, r.length);
    }
  }

  /** The bytes of a written request and its body. */
  function RequestBytes(target: string, fields: seq<Field>, body: seq<byte>): seq<byte> {
    Utf8.Encode(RequestText(target, fields)) + body
  }

  /** The bytes of a written request are one whole request with a report exactly when its header is
      within the bound, its fields correlate it, and its body has the length. */
  lemma WrittenIsRequest(target: string, fields: seq<Field>, body: seq<byte>, r: Report)
    requires Plain(target, fields)
    ensures IsRequest(RequestBytes(target, fields, body), r)
       <==> && |Utf8.Encode(RequestText(target, fields))| <= 65536 && |body| == r.length
            && exists a, b :: Correlated(fields, a, b, r.id, r.length)
  {
    hide NoCrlf, HeaderText, Utf8.Encode, ParseHeader, Correlated, RequestLines, Terminated;
    var lines, head := RequestLines(target, fields), Utf8.Encode(RequestText(target, fields));
    RequestParses(target, fields, r);
    forall i | 0 <= i < |lines|
      ensures lines[i] != "" && NoCrlf(lines[i])
    {
      LinesPlain(target, fields, i);
    }
    HeaderBytesEnd(lines, body);
    var all := head + body;
    assert all[..|head|] == head;
    if IsRequest(all, r) {
      var h :| 0 <= h <= MAX_HEADER_BYTES && HeaderEnds(all, h) && ParseHeader(all[..h]) == Some(r)
               && |all| == h + r.length;
      assert h == |head|;
    }
  }

  function Accepts(chunks: seq<seq<byte>>): seq<Op> {
    if chunks == [] then [] else Accepts(chunks[..|chunks| - 1]) + [Accept(chunks[|chunks| - 1])]
  }

  lemma {:induction false} AcceptsRun(chunks: seq<seq<byte>>)
    ensures RunOps(Accepts(chunks)) == Run(Steps(INITIAL, Flatten(chunks)), [])
  {
    hide Steps;
    if chunks == [] {
      assert Steps(INITIAL, []) == INITIAL by {
        NoSteps();
      }
    } else {
      var init, last := chunks[..|chunks| - 1], chunks[|chunks| - 1];
      AcceptsRun(init);
      assert chunks == init + [last];
      FlattenSnoc(init, last);
      StepsAppend(INITIAL, Flatten(init), last);
      assert Accepts(chunks)[..|Accepts(chunks)| - 1] == Accepts(init);
    }
  }

  lemma NoSteps()
    ensures Steps(INITIAL, []) == INITIAL
  {
  }

  /** However such a request is cut into writes, a flush after it reports it, and no other. */
  lemma WrittenIsReported(target: string, fields: seq<Field>, body: seq<byte>, chunks: seq<seq<byte>>, r: Report)
    requires Plain(target, fields) && Flatten(chunks) == RequestBytes(target, fields, body)
    ensures RunOps(Accepts(chunks) + [Flush]).flushes == [Some(r)]
       <==> && |Utf8.Encode(RequestText(target, fields))| <= 65536 && |body| == r.length
            && exists a, b :: Correlated(fields, a, b, r.id, r.length)
  {
    hide Correlated, Plain, RequestBytes, RequestText, IsRequest, Steps, Accepts, Utf8.Encode;
    WrittenIsRequest(target, fields, body, r);
    AcceptsRun(chunks);
    CompleteExact(Flatten(chunks), r);
    var ops := Accepts(chunks) + [Flush];
    assert ops[..|ops| - 1] == Accepts(chunks) && ops[|ops| - 1] == Flush;
    var complete := Steps(INITIAL, Flatten(chunks)).complete;
    assert RunOps(ops).flushes == [] + [complete] == [complete];
    assert [complete] == [Some(r)] <==> complete == Some(r);
  }

  // ----- one request

  const FIELDS := [Field("Host", " a"), Field("X-Request-Id", " a"), Field("Content-Length", " 0")]

  lemma OneNames()
    ensures Only(FIELDS, "x-request-id", 1) && Only(FIELDS, "content-length", 2)
    ensures forall i :: 0 <= i < 3 ==> !EqIgnoreAsciiCase(FIELDS[i].name, "transfer-encoding")
  {
    assert !EqIgnoreAsciiCase("Host", "x-request-id") && !EqIgnoreAsciiCase("Host", "content-length");
    assert EqIgnoreAsciiCase("X-Request-Id", "x-request-id");
    assert EqIgnoreAsciiCase("Content-Length", "content-length");
  }

  lemma ZeroSays()
    ensures SaysLength(" 0", 0)
  {
    assert Decimal(0) == "0" && " " + "0" == " 0";
    PlainLength(0);
  }

  lemma NoCr(line: string)
    requires forall i :: 0 <= i < |line| ==> line[i] != '\r'
    ensures NoCrlf(line)
  {
  }

  lemma OneIsPlain()
    ensures Plain("/v1", FIELDS)
  {
    var first := RequestLine("/v1");
    assert first == "POST /v1 HTTP/1.1";
    NoCr(first);
    hide NoCrlf, RequestLine;
    forall i | 0 <= i < |FIELDS|
      ensures ':' !in FIELDS[i].name && NoCrlf(FieldLine(FIELDS[i]))
    {
      assert i == 0 || i == 1 || i == 2;
      NoCr(FieldLine(FIELDS[i]));
    }
  }

  /** A concrete request: its names are in any case, and its report is the id `a` and length zero. */
  lemma OneRequest()
    ensures Plain("/v1", FIELDS) && Correlated(FIELDS, 1, 2, "a", 0)
  {
    OneIsPlain();
    OneNames();
    ZeroSays();
    hide EqIgnoreAsciiCase, SaysLength, Only, Plain;
    assert " " + "a" == " a";
  }

  /** A first line is a request's exactly when it is spelled as one, the two spaces of an empty
      target being one space. */
  lemma RequestLineExact(line: string)
    ensures IsRequestLine(line) <==> line == "POST HTTP/1.1" || exists target :: line == "POST " + target + " HTTP/1.1"
  {
    if IsRequestLine(line) {
      assert |line| >= 9 && line[|line| - 9] == ' ' && line[|line| - 8] == 'H';
      if |line| >= 14 {
        var target := line[5..|line| - 9];
        assert line == "POST " + target + " HTTP/1.1";
      } else {
        OverlapOnce(line);
      }
    }
    if exists target :: line == "POST " + target + " HTTP/1.1" {
      var target :| line == "POST " + target + " HTTP/1.1";
      assert line[|line| - 9..] == " HTTP/1.1";
    }
    if line == "POST HTTP/1.1" {
      assert line[4..] == " HTTP/1.1";
    }
  }

  lemma OverlapOnce(line: string)
    requires IsRequestLine(line) && |line| < 14
    ensures line == "POST HTTP/1.1"
  {
    var n := |line|;
    assert forall i :: 0 <= i < 5 && i < n ==> line[i] == "POST "[i];
    assert forall i :: 0 <= i < 9 ==> line[n - 9 + i] == " HTTP/1.1"[i];
    assert n == 13 by {
      assert line[n - 9] == ' ' && line[n - 8] == 'H';
    }
    assert line == line[..4] + line[4..];
    assert line[..4] == "POST" && line[4..] == " HTTP/1.1";
  }
}
