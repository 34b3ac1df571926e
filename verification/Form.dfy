/** `application/x-www-form-urlencoded` as a recipe writes it, and a reader that inverts it. */
module Form {
  import opened Common
  import Text
  import Utf8

  const HEX := "0123456789ABCDEF"

  // ----- writing

  /** How one byte is written. */
  function Escape(b: byte): string {
    if b == 0x20 then "+"
    else
      var c := b as char;
      if c == '*' || c == '-' || c == '.' || c == '_' || Text.IsAlphanumeric(c) then [c]
      else ['%', HEX[b / 16], HEX[b % 16]]
  }

  function EscapeAll(bytes: seq<byte>): string {
    if bytes == [] then "" else EscapeAll(bytes[..|bytes| - 1]) + Escape(bytes[|bytes| - 1])
  }

  function Encode(s: string): string {
    EscapeAll(Utf8.Encode(s))
  }

  function Pair(entry: (string, string)): string {
    Encode(entry.0) + "=" + Encode(entry.1)
  }

  /** The entries joined by `&`. */
  function Joined(entries: seq<(string, string)>): string {
    if entries == [] then ""
    else if |entries| == 1 then Pair(entries[0])
    else Joined(entries[..|entries| - 1]) + "&" + Pair(entries[|entries| - 1])
  }

  // ----- reading

  function HexValue(c: char): Option<nat> {
    if '0' <= c <= '9' then Some(c as int - '0' as int)
    else if 'A' <= c <= 'F' then Some(c as int - 'A' as int + 10)
    else None
  }

  /** The bytes a text of escapes stands for. */
  function Unescape(s: string): Option<seq<byte>> {
    if s == "" then Some([])
    else if s[0] == '%' then
      if |s| < 3 then None
      else match (HexValue(s[1]), HexValue(s[2]), Unescape(s[3..]))
        case (Some(high), Some(low), Some(rest)) =>
          var b: int := high * 16 + low;
          if b < 256 then Some([b] + rest) else None
        case _ => None
    else match Unescape(s[1..])
      case None => None
      case Some(rest) =>
        if s[0] == '+' then Some([0x20] + rest)
        else if s[0] as int < 128 then Some([s[0] as int] + rest)
        else None
  }

  function Decode(s: string): Option<string> {
    match Unescape(s) case None => None case Some(bytes) => Utf8.Decode(bytes)
  }

  function ReadPair(s: string): Option<(string, string)> {
    match Text.SplitOnce(s, '=')
    case None => None
    case Some((name, value)) =>
      match (Decode(name), Decode(value))
      case (Some(n), Some(v)) => Some((n, v))
      case _ => None
  }

  function ReadPairs(s: string): Option<seq<(string, string)>>
    decreases |s|
  {
    match Text.SplitOnce(s, '&')
    case None => (match ReadPair(s) case None => None case Some(p) => Some([p]))
    case Some((first, rest)) =>
      match (ReadPair(first), ReadPairs(rest))
      case (Some(p), Some(ps)) => Some([p] + ps)
      case _ => None
  }

  function Read(s: string): Option<seq<(string, string)>> {
    if s == "" then Some([]) else ReadPairs(s)
  }

  // ----- the round trip

  predicate Plain(s: string) {
    '&' !in s && '=' !in s
  }

  lemma EscapeReads(b: byte, rest: string)
    ensures Plain(Escape(b))
    ensures Unescape(Escape(b) + rest)
         == match Unescape(rest) case None => None case Some(bytes) => Some([b] + bytes)
  {
    var s := Escape(b) + rest;
    if |Escape(b)| == 1 {
      assert s[1..] == rest;
    } else {
      assert s[3..] == rest;
      HexReads(b / 16);
      HexReads(b % 16);
    }
  }

  /** A byte that stands for itself in a form text. */
  predicate StandsAlone(b: byte) {
    || 0x30 <= b <= 0x39 || 0x41 <= b <= 0x5A || 0x61 <= b <= 0x7A
    || b == 0x2A || b == 0x2D || b == 0x2E || b == 0x5F
  }

  /** Letters, digits and `*-._` stay, a space becomes `+`, and every other byte an escape of its two
      hexadecimal digits. */
  lemma EscapeExact(b: byte)
    ensures Escape(b) == [b as char] <==> StandsAlone(b)
    ensures Escape(b) == "+" <==> b == 0x20
    ensures !StandsAlone(b) && b != 0x20 ==>
              && |Escape(b)| == 3 && Escape(b)[0] == '%'
              && HexValue(Escape(b)[1]) == Some(b / 16) && HexValue(Escape(b)[2]) == Some(b % 16)
  {
    HexReads(b / 16);
    HexReads(b % 16);
    hide HEX, HexValue;
  }

  lemma HexReads(n: nat)
    requires n < 16
    ensures HexValue(HEX[n]) == Some(n) && HEX[n] != '&' && HEX[n] != '='
  {
    if n < 10 {
      assert HEX[n] == "0123456789"[n];
    } else {
      assert HEX[n] == "ABCDEF"[n - 10];
    }
  }

  /** No escaped text holds a separator, and reading it gives back the bytes. */
  lemma {:induction false} EscapesRead(bytes: seq<byte>, rest: string)
    ensures Plain(EscapeAll(bytes))
    ensures Unescape(EscapeAll(bytes) + rest)
         == match Unescape(rest) case None => None case Some(more) => Some(bytes + more)
    decreases |bytes|
  {
    hide Escape, Unescape;
    if bytes == [] {
      assert EscapeAll(bytes) + rest == rest;
      if Unescape(rest).Some? {
        assert bytes + Unescape(rest).value == Unescape(rest).value;
      }
    } else {
      var init, last := bytes[..|bytes| - 1], bytes[|bytes| - 1];
      EscapesRead(init, Escape(last) + rest);
      EscapeReads(last, rest);
      assert EscapeAll(bytes) + rest == EscapeAll(init) + (Escape(last) + rest);
      if Unescape(rest).Some? {
        assert init + ([last] + Unescape(rest).value) == bytes + Unescape(rest).value;
      }
    }
  }

  lemma EncodeReads(s: string)
    ensures Plain(Encode(s)) && Decode(Encode(s)) == Some(s)
  {
    var bytes, none := Utf8.Encode(s), "";
    EscapesRead(bytes, none);
    assert EscapeAll(bytes) + none == EscapeAll(bytes);
    assert bytes + [] == bytes;
    hide Utf8.Encode, Utf8.Decode, EscapeAll;
    Utf8.DecodeEncoded(s);
  }

  lemma PairReads(entry: (string, string))
    ensures '&' !in Pair(entry) && ReadPair(Pair(entry)) == Some(entry)
  {
    hide Encode, Decode, Text.SplitOnce;
    EncodeReads(entry.0);
    EncodeReads(entry.1);
    Text.SplitOnceFirst(Encode(entry.0), '=', Encode(entry.1));
  }

  lemma {:induction false} JoinedFirst(entries: seq<(string, string)>)
    requires |entries| >= 2
    ensures Joined(entries) == Pair(entries[0]) + ['&'] + Joined(entries[1..])
  {
    hide Pair;
    var init, last := entries[..|entries| - 1], entries[|entries| - 1];
    if |entries| == 2 {
      assert init == [entries[0]] && entries[1..] == [last];
    } else {
      JoinedFirst(init);
      assert init[1..] == entries[1..][..|entries| - 2];
      assert Joined(entries[1..]) == Joined(init[1..]) + "&" + Pair(last);
    }
  }

  /** A non-empty list of entries reads back from its text. */
  lemma {:induction false} PairsRead(entries: seq<(string, string)>)
    requires entries != []
    ensures ReadPairs(Joined(entries)) == Some(entries)
  {
    hide Pair, ReadPair, Text.SplitOnce;
    PairReads(entries[0]);
    if |entries| == 1 {
      assert Joined(entries) == Pair(entries[0]);
      assert entries == [entries[0]];
    } else {
      JoinedFirst(entries);
      Text.SplitOnceFirst(Pair(entries[0]), '&', Joined(entries[1..]));
      PairsRead(entries[1..]);
      assert [entries[0]] + entries[1..] == entries;
    }
  }

  /** Every list of parameters is read back from its form text. */
  lemma FormReads(entries: seq<(string, string)>)
    ensures Read(Joined(entries)) == Some(entries)
  {
    hide Encode, ReadPairs;
    if entries != [] {
      PairsRead(entries);
      if |entries| > 1 {
        JoinedFirst(entries);
      }
    }
  }

  /** Equal form texts come from equal parameters. */
  lemma FormUnambiguous(a: seq<(string, string)>, b: seq<(string, string)>)
    requires Joined(a) == Joined(b)
    ensures a == b
  {
    FormReads(a);
    FormReads(b);
  }

  // ----- the loops

  method EncodeText(value: string) returns (encoded: string)
    ensures encoded == Encode(value)
  {
    encoded := "";
    var bytes := Utf8.Encode(value);
    hide Escape;
    for i := 0 to |bytes|
      invariant encoded == EscapeAll(bytes[..i])
    {
      assert bytes[..i + 1][..i] == bytes[..i];
      encoded := encoded + Escape(bytes[i]);
    }
    assert bytes[..|bytes|] == bytes;
  }

  /** `form` over the parameters in key order. */
  method FormText(entries: seq<(string, string)>) returns (text: string)
    ensures text == Joined(entries) && Read(text) == Some(entries)
  {
    text := "";
    hide Encode, Read;
    for i := 0 to |entries|
      invariant text == Joined(entries[..i])
    {
      var name := EncodeText(entries[i].0);
      var value := EncodeText(entries[i].1);
      assert entries[..i + 1][..i] == entries[..i];
      text := text + (if i > 0 then "&" else "") + (name + "=" + value);
    }
    assert entries[..|entries|] == entries;
    FormReads(entries);
  }
}
