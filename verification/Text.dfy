/** The standard string operations the translators use. */
module Text {
  import opened Common

  /** The Unicode `White_Space` property, which `str::trim` reads. */
  predicate IsWhite(c: char) {
    var n := c as int;
    || 0x09 <= n <= 0x0D || n == 0x20 || n == 0x85 || n == 0xA0 || n == 0x1680
    || 0x2000 <= n <= 0x200A || n == 0x2028 || n == 0x2029 || n == 0x202F || n == 0x205F
    || n == 0x3000
  }

  function TrimStart(s: string): string {
    if s != "" && IsWhite(s[0]) then TrimStart(s[1..]) else s
  }

  function TrimEnd(s: string): string {
    if s != "" && IsWhite(s[|s| - 1]) then TrimEnd(s[..|s| - 1]) else s
  }

  function Trim(s: string): string {
    TrimEnd(TrimStart(s))
  }

  /** Trimming drops one leading space and keeps a text that is not padded. */
  lemma TrimSpaced(e: string)
    requires e != "" && !IsWhite(e[0]) && !IsWhite(e[|e| - 1])
    ensures Trim(" " + e) == e
  {
    assert (" " + e)[1..] == e;
    assert TrimStart(e) == e;
  }

  function StripPrefix(s: string, prefix: string): Option<string> {
    if prefix <= s then Some(s[|prefix|..]) else None
  }

  predicate EndsWith(s: string, suffix: string) {
    |suffix| <= |s| && s[|s| - |suffix|..] == suffix
  }

  /** `str::split_once` with a one-character separator. */
  function SplitOnce(s: string, separator: char): (r: Option<(string, string)>)
    ensures r.None? ==> separator !in s
    ensures r.Some? ==> s == r.value.0 + [separator] + r.value.1 && separator !in r.value.0
  {
    if s == "" then None
    else if s[0] == separator then Some(("", s[1..]))
    else match SplitOnce(s[1..], separator)
      case None => None
      case Some(pair) => Some(([s[0]] + pair.0, pair.1))
  }

  /** A text is split at the first separator in it. */
  lemma SplitOnceFirst(before: string, separator: char, after: string)
    requires separator !in before
    ensures SplitOnce(before + [separator] + after, separator) == Some((before, after))
  {
    var s := before + [separator] + after;
    assert s[|before|] == separator && separator in s;
    hide SplitOnce;
    var (a, b) := SplitOnce(s, separator).value;
    assert s[|a|] == separator;
    assert forall i :: 0 <= i < |before| ==> s[i] == before[i];
    assert forall i :: 0 <= i < |a| ==> s[i] == a[i];
    assert |a| == |before|;
    assert s[..|a|] == a && s[..|before|] == before;
    assert s[|a| + 1..] == b && s[|before| + 1..] == after;
  }

  /** `str::split_once` with a text separator. */
  function SplitOnceAt(s: string, separator: string): Option<(string, string)> {
    if separator <= s then Some(("", s[|separator|..]))
    else if s == "" then None
    else match SplitOnceAt(s[1..], separator)
      case None => None
      case Some(pair) => Some(([s[0]] + pair.0, pair.1))
  }

  lemma {:induction false} SplitOnceAtWhole(s: string, separator: string)
    ensures SplitOnceAt(s, separator).Some? ==>
              s == SplitOnceAt(s, separator).value.0 + separator + SplitOnceAt(s, separator).value.1
  {
    if separator <= s {
      assert s == separator + s[|separator|..] == "" + separator + s[|separator|..];
    } else if s != "" {
      SplitOnceAtWhole(s[1..], separator);
      var rest := SplitOnceAt(s[1..], separator);
      if rest.Some? {
        var (a, b) := rest.value;
        assert s == [s[0]] + (a + separator + b) == ([s[0]] + a) + separator + b;
      }
    }
  }

  lemma {:induction false} SplitOnceAtFinds(before: string, separator: string, after: string)
    ensures SplitOnceAt(before + separator + after, separator).Some?
  {
    var s := before + separator + after;
    if before == "" {
      assert s == separator + after;
    } else {
      assert s[1..] == before[1..] + separator + after;
      SplitOnceAtFinds(before[1..], separator, after);
    }
  }

  /** A URL that carries its data in Base64. */
  function Base64Url(media: string, body: string): string {
    "data:" + media + ";base64," + body
  }

  /** The media type and the body of such a URL. */
  function DataUrl(url: string): Option<(string, string)> {
    match StripPrefix(url, "data:")
    case None => None
    case Some(rest) => SplitOnceAt(rest, ";base64,")
  }

  lemma Base64UrlExact(url: string)
    ensures DataUrl(url).Some? <==> exists media, body :: url == Base64Url(media, body)
    ensures DataUrl(url).Some? ==> url == Base64Url(DataUrl(url).value.0, DataUrl(url).value.1)
  {
    hide SplitOnceAt;
    var rest := StripPrefix(url, "data:");
    if rest.Some? {
      assert url == "data:" + rest.value;
      SplitOnceAtWhole(rest.value, ";base64,");
      var cut := SplitOnceAt(rest.value, ";base64,");
      if cut.Some? {
        assert url == Base64Url(cut.value.0, cut.value.1);
      }
    }
    if exists media, body :: url == Base64Url(media, body) {
      var media, body :| url == Base64Url(media, body);
      assert url[5..] == media + ";base64," + body;
      SplitOnceAtFinds(media, ";base64,", body);
    }
  }

  /** `str::lines`: line feeds end lines, and a carriage return before one belongs to it. */
  function Lines(s: string): seq<string>
    decreases |s|
  {
    match SplitOnce(s, '\n')
    case None => if s == "" then [] else [s]
    case Some((line, rest)) =>
      [if EndsWith(line, "\r") then line[..|line| - 1] else line] + Lines(rest)
  }

  predicate IsDigit(c: char) {
    '0' <= c <= '9'
  }

  predicate IsAlphanumeric(c: char) {
    IsDigit(c) || 'a' <= c <= 'z' || 'A' <= c <= 'Z'
  }

  function Lower(c: char): char {
    if 'A' <= c <= 'Z' then (c as int + 32) as char else c
  }

  /** `str::eq_ignore_ascii_case`. */
  predicate EqIgnoreAsciiCase(a: string, b: string) {
    |a| == |b| && forall i :: 0 <= i < |a| ==> Lower(a[i]) == Lower(b[i])
  }

  function DigitValue(c: char): nat
    requires IsDigit(c)
  {
    c as int - '0' as int
  }

  /** The number a string of decimal digits spells. */
  function DecimalValue(s: string): nat
    requires forall i :: 0 <= i < |s| ==> IsDigit(s[i])
  {
    if s == "" then 0
    else DecimalValue(s[..|s| - 1]) * 10 + DigitValue(s[|s| - 1])
  }

  /** The decimal spelling of a number, without leading zeros. */
  function Decimal(n: nat): (s: string)
    ensures s != "" && forall i :: 0 <= i < |s| ==> IsDigit(s[i])
    ensures DecimalValue(s) == n
  {
    var last := [(n % 10 + '0' as int) as char];
    if n < 10 then last else
    var s := Decimal(n / 10) + last;
    assert s[..|s| - 1] == Decimal(n / 10);
    s
  }
}
