/** The header of a hunk, as the expression that reads it spells it. */
module PatchHeader {
  import opened Common
  import opened Patch
  import Text

  predicate IsNumber(s: string) {
    s != "" && forall i :: 0 <= i < |s| ==> Text.IsDigit(s[i])
  }

  /** A start, and a count that may be left out. */
  datatype Range = Range(start: string, count: Option<string>)

  predicate IsRange(r: Range) {
    IsNumber(r.start) && (r.count.Some? ==> IsNumber(r.count.value))
  }

  function Spelled(r: Range): string {
    match r.count case None => r.start case Some(count) => r.start + ("," + count)
  }

  function CountOf(r: Range): nat
    requires IsRange(r)
  {
    match r.count case None => 1 case Some(count) => Text.DecimalValue(count)
  }

  /** The rest of a line: a line feed may only end it. */
  predicate IsRest(tail: string) {
    forall i :: 0 <= i < |tail| - 1 ==> tail[i] != '\n'
  }

  function Header(from: Range, into: Range, tail: string): string {
    "@@ -" + (Spelled(from) + (" +" + (Spelled(into) + (" @@" + tail))))
  }

  ghost predicate IsHeader(line: string, from: Range, into: Range, tail: string) {
    IsRange(from) && IsRange(into) && IsRest(tail) && line == Header(from, into, tail)
  }

  predicate Says(h: Hunk, from: Range, into: Range)
    requires IsRange(from) && IsRange(into)
  {
    h == Hunk(Text.DecimalValue(from.start), CountOf(from), Text.DecimalValue(into.start), CountOf(into), [])
  }

  lemma StartSpelled(start: string, rest: string)
    requires IsNumber(start) && rest != "" && rest[0] == ' '
    ensures ReadRange(start + rest) == Some((Text.DecimalValue(start), 1, rest))
  {
    hide Text.DecimalValue, DigitRun;
    var s := start + rest;
    DigitRunOf(start, rest);
    assert s[..|start|] == start && s[|start|..] == rest;
  }

  lemma CountSpelled(start: string, count: string, rest: string)
    requires IsNumber(start) && IsNumber(count) && rest != "" && rest[0] == ' '
    ensures ReadRange(start + ("," + count) + rest)
         == Some((Text.DecimalValue(start), Text.DecimalValue(count), rest))
  {
    hide Text.DecimalValue, DigitRun;
    var s, more := start + ("," + count) + rest, "," + (count + rest);
    assert s == start + more;
    DigitRunOf(start, more);
    assert s[..|start|] == start && s[|start|..] == more && more[1..] == count + rest;
    DigitRunOf(count, rest);
    assert more[1..1 + |count|] == count && more[1 + |count|..] == rest;
  }

  lemma RangeSpelled(r: Range, rest: string)
    requires IsRange(r) && rest != "" && rest[0] == ' '
    ensures ReadRange(Spelled(r) + rest) == Some((Text.DecimalValue(r.start), CountOf(r), rest))
  {
    hide Text.DecimalValue, ReadRange, IsNumber;
    if r.count.None? {
      StartSpelled(r.start, rest);
    } else {
      CountSpelled(r.start, r.count.value, rest);
    }
  }

  lemma RangeFound(s: string) returns (r: Range)
    requires ReadRange(s).Some?
    ensures IsRange(r)
    ensures s == Spelled(r) + ReadRange(s).value.2
    ensures ReadRange(s).value.0 == Text.DecimalValue(r.start) && ReadRange(s).value.1 == CountOf(r)
  {
    hide Text.DecimalValue;
    var n := DigitRun(s);
    var start, rest := s[..n], s[n..];
    var m := if rest != "" && rest[0] == ',' then DigitRun(rest[1..]) else 0;
    if m == 0 {
      r := Range(start, None);
      assert s == start + rest;
    } else {
      var count := rest[1..1 + m];
      assert count == rest[1..][..m];
      r := Range(start, Some(count));
      assert rest == "," + count + rest[1 + m..];
      assert s == (start + ("," + count)) + rest[1 + m..];
    }
  }

  lemma HeaderSpelled(from: Range, into: Range, tail: string)
    requires IsRange(from) && IsRange(into) && IsRest(tail)
    ensures ReadHeader(Header(from, into, tail)).Some? && Says(ReadHeader(Header(from, into, tail)).value, from, into)
  {
    hide ReadRange, Spelled, Text.DecimalValue, IsRange, CountOf;
    var line, last := Header(from, into, tail), " @@" + tail;
    var second := Spelled(into) + last;
    assert line[4..] == Spelled(from) + (" +" + second);
    RangeSpelled(from, " +" + second);
    assert (" +" + second)[2..] == second;
    RangeSpelled(into, last);
    assert forall i :: 3 <= i < |last| - 1 ==> last[i] == tail[i - 3];
  }

  lemma HeaderFound(line: string) returns (from: Range, into: Range, tail: string)
    requires ReadHeader(line).Some?
    ensures IsHeader(line, from, into, tail) && Says(ReadHeader(line).value, from, into)
  {
    hide ReadRange, Spelled, Text.DecimalValue, IsRange, CountOf;
    from := RangeFound(line[4..]);
    var rest := ReadRange(line[4..]).value.2;
    into := RangeFound(rest[2..]);
    var last := ReadRange(rest[2..]).value.2;
    tail := last[3..];
    assert forall i :: 0 <= i < |tail| ==> tail[i] == last[i + 3];
    assert last == " @@" + tail;
    assert rest == " +" + rest[2..];
    assert line == "@@ -" + line[4..];
  }

  /** A line is a hunk's header exactly when it is spelled as one, a count left out being one; its
      numbers are those spelled. */
  lemma HeaderExact(line: string, h: Hunk)
    ensures ReadHeader(line) == Some(h)
       <==> exists from, into, tail :: IsHeader(line, from, into, tail) && Says(h, from, into)
  {
    hide ReadHeader, Says, IsRange, IsRest, Header;
    if ReadHeader(line) == Some(h) {
      var from, into, tail := HeaderFound(line);
    }
    if from, into, tail :| IsHeader(line, from, into, tail) && Says(h, from, into) {
      HeaderSpelled(from, into, tail);
      SaysOnce(h, ReadHeader(line).value, from, into);
    }
  }

  lemma SaysOnce(h: Hunk, other: Hunk, from: Range, into: Range)
    requires IsRange(from) && IsRange(into) && Says(h, from, into) && Says(other, from, into)
    ensures h == other
  {
  }
}
