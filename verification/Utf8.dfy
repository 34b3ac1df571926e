/** UTF-8 (RFC 3629): what `str::as_bytes` writes and `str::from_utf8` accepts. */
module Utf8 {
  import opened Common

  function EncodeChar(c: char): seq<byte> {
    var n := c as int;
    if n < 0x80 then [n]
    else if n < 0x800 then [0xC0 + n / 64, 0x80 + n % 64]
    else if n < 0x10000 then [0xE0 + n / 4096, 0x80 + n / 64 % 64, 0x80 + n % 64]
    else [0xF0 + n / 262144, 0x80 + n / 4096 % 64, 0x80 + n / 64 % 64, 0x80 + n % 64]
  }

  function Encode(s: string): seq<byte> {
    if s == "" then [] else EncodeChar(s[0]) + Encode(s[1..])
  }

  predicate IsContinuation(b: byte) {
    0x80 <= b < 0xC0
  }

  /** The payload bits of a byte whose marker is `marker`. */
  function Bits(b: byte, marker: byte): int {
    b - marker
  }

  /** The first scalar value and the rest, refusing overlong forms and surrogates. */
  function DecodeFirst(b: seq<byte>): (r: Option<(char, seq<byte>)>)
    requires b != []
    ensures r.Some? ==> |r.value.1| < |b|
  {
    if b[0] < 0x80 then Some((b[0] as char, b[1..]))
    else if 0xC0 <= b[0] < 0xE0 && |b| >= 2 && IsContinuation(b[1]) then
      var n: int := Bits(b[0], 0xC0) * 64 + Bits(b[1], 0x80);
      if 0x80 <= n then Some((n as char, b[2..])) else None
    else if 0xE0 <= b[0] < 0xF0 && |b| >= 3 && IsContinuation(b[1]) && IsContinuation(b[2]) then
      var n: int := Bits(b[0], 0xE0) * 4096 + Bits(b[1], 0x80) * 64 + Bits(b[2], 0x80);
      if 0x800 <= n && !(0xD800 <= n < 0xE000) then Some((n as char, b[3..])) else None
    else if 0xF0 <= b[0] < 0xF8 && |b| >= 4
            && IsContinuation(b[1]) && IsContinuation(b[2]) && IsContinuation(b[3]) then
      var n: int := Bits(b[0], 0xF0) * 262144 + Bits(b[1], 0x80) * 4096 + Bits(b[2], 0x80) * 64 + Bits(b[3], 0x80);
      if 0x10000 <= n < 0x110000 then Some((n as char, b[4..])) else None
    else None
  }

  function Decode(b: seq<byte>): Option<string> {
    if b == [] then Some("")
    else match DecodeFirst(b)
      case None => None
      case Some(first) =>
        match Decode(first.1)
        case None => None
        case Some(rest) => Some([first.0] + rest)
  }

  lemma SextetsOf(n: nat)
    ensures n == n / 4096 * 4096 + n / 64 % 64 * 64 + n % 64
    ensures n == n / 262144 * 262144 + n / 4096 % 64 * 4096 + n / 64 % 64 * 64 + n % 64
  {
    assert n / 64 / 64 == n / 4096;
    assert n / 4096 / 64 == n / 262144;
  }

  lemma DecodeFirstEncoded(c: char, rest: seq<byte>)
    ensures DecodeFirst(EncodeChar(c) + rest) == Some((c, rest))
  {
    var n := c as int;
    var b := EncodeChar(c) + rest;
    assert b[|EncodeChar(c)|..] == rest;
    if n < 0x80 {
    } else if n < 0x800 {
      assert b[0] == 0xC0 + n / 64 && b[1] == 0x80 + n % 64;
    } else if n < 0x10000 {
      assert b[0] == 0xE0 + n / 4096 && b[1] == 0x80 + n / 64 % 64 && b[2] == 0x80 + n % 64;
      SextetsOf(n);
    } else {
      assert b[0] == 0xF0 + n / 262144 && b[1] == 0x80 + n / 4096 % 64;
      assert b[2] == 0x80 + n / 64 % 64 && b[3] == 0x80 + n % 64;
      SextetsOf(n);
    }
  }

  lemma {:induction false} DecodeEncoded(s: string)
    ensures Decode(Encode(s)) == Some(s)
  {
    if s != "" {
      DecodeFirstEncoded(s[0], Encode(s[1..]));
      DecodeEncoded(s[1..]);
      assert [s[0]] + s[1..] == s;
    }
  }

  lemma TwoBytes(a: byte, b: byte)
    requires 0xC0 <= a < 0xE0 && IsContinuation(b)
    ensures var n: int := Bits(a, 0xC0) * 64 + Bits(b, 0x80);
            0xC0 + n / 64 == a && 0x80 + n % 64 == b && n < 0x800
  {
    Peel(a - 0xC0, b - 0x80);
  }

  lemma ThreeBytes(a: byte, b: byte, c: byte)
    requires 0xE0 <= a < 0xF0 && IsContinuation(b) && IsContinuation(c)
    ensures var n: int := Bits(a, 0xE0) * 4096 + Bits(b, 0x80) * 64 + Bits(c, 0x80);
            0xE0 + n / 4096 == a && 0x80 + n / 64 % 64 == b && 0x80 + n % 64 == c && n < 0x10000
  {
    var p: int, q: int, r: int := a - 0xE0, b - 0x80, c - 0x80;
    Peel(p, q);
    Peel(p * 64 + q, r);
    var n := (p * 64 + q) * 64 + r;
    assert n / 4096 == n / 64 / 64;
  }

  lemma FourBytes(a: byte, b: byte, c: byte, d: byte)
    requires 0xF0 <= a < 0xF8 && IsContinuation(b) && IsContinuation(c) && IsContinuation(d)
    ensures var n: int := Bits(a, 0xF0) * 262144 + Bits(b, 0x80) * 4096 + Bits(c, 0x80) * 64 + Bits(d, 0x80);
            0xF0 + n / 262144 == a && 0x80 + n / 4096 % 64 == b && 0x80 + n / 64 % 64 == c && 0x80 + n % 64 == d
  {
    var p: int, q: int, r: int, t: int := a - 0xF0, b - 0x80, c - 0x80, d - 0x80;
    Peel(p, q);
    Peel(p * 64 + q, r);
    Peel((p * 64 + q) * 64 + r, t);
    var n := ((p * 64 + q) * 64 + r) * 64 + t;
    assert n / 4096 == n / 64 / 64 && n / 262144 == n / 4096 / 64;
  }

  lemma Peel(high: int, low: int)
    requires 0 <= low < 64
    ensures (high * 64 + low) / 64 == high && (high * 64 + low) % 64 == low
  {
  }

  /** A scalar value is written with the bytes it was read from. */
  lemma EncodeFirst(b: seq<byte>)
    requires b != [] && DecodeFirst(b).Some?
    ensures EncodeChar(DecodeFirst(b).value.0) + DecodeFirst(b).value.1 == b
  {
    hide Bits, IsContinuation;
    if b[0] < 0x80 {
      assert b == [b[0]] + b[1..];
    } else if b[0] < 0xE0 {
      TwoBytes(b[0], b[1]);
      assert b == [b[0], b[1]] + b[2..];
    } else if b[0] < 0xF0 {
      ThreeBytes(b[0], b[1], b[2]);
      assert b == [b[0], b[1], b[2]] + b[3..];
    } else {
      FourBytes(b[0], b[1], b[2], b[3]);
      assert b == [b[0], b[1], b[2], b[3]] + b[4..];
    }
  }

  /** Encoding undoes decoding: the decoder takes no second spelling. */
  lemma {:induction false} EncodeDecoded(b: seq<byte>)
    requires Decode(b).Some?
    ensures Encode(Decode(b).value) == b
    decreases |b|
  {
    hide DecodeFirst, EncodeChar;
    if b != [] {
      EncodeFirst(b);
      var (c, rest) := DecodeFirst(b).value;
      EncodeDecoded(rest);
      var s := [c] + Decode(rest).value;
      assert s[0] == c && s[1..] == Decode(rest).value;
    }
  }

  /** A scalar value is read from its own bytes, whatever follows. */
  lemma DecodeFirstAppend(a: seq<byte>, b: seq<byte>)
    requires a != [] && DecodeFirst(a).Some?
    ensures DecodeFirst(a + b) == Some((DecodeFirst(a).value.0, DecodeFirst(a).value.1 + b))
  {
    hide EncodeChar, DecodeFirst;
    EncodeFirst(a);
    var (c, rest) := DecodeFirst(a).value;
    DecodeFirstEncoded(c, rest + b);
    assert a + b == EncodeChar(c) + (rest + b);
  }

  lemma {:induction false} DecodeAppend(a: seq<byte>, b: seq<byte>)
    requires Decode(a).Some?
    ensures Decode(a + b).Some? <==> Decode(b).Some?
    decreases |a|
  {
    hide DecodeFirst;
    if a == [] {
      assert a + b == b;
    } else {
      DecodeFirstAppend(a, b);
      DecodeAppend(DecodeFirst(a).value.1, b);
    }
  }

  lemma LaterBytes(c: char)
    ensures |EncodeChar(c)| >= 1
    ensures |EncodeChar(c)| > 1 ==> forall i :: 0 <= i < |EncodeChar(c)| ==> EncodeChar(c)[i] >= 0x80
  {
  }

  /** A byte below 0x80 is never inside a longer form, so a text may be cut there. */
  lemma {:induction false} SplitAtAscii(a: seq<byte>, c: byte, b: seq<byte>)
    requires c < 0x80 && Decode(a + [c] + b).Some?
    ensures Decode(a).Some? && Decode(b).Some?
    decreases |a|
  {
    hide DecodeFirst, EncodeChar;
    var all := a + [c] + b;
    EncodeFirst(all);
    var (first, rest) := DecodeFirst(all).value;
    var n := |EncodeChar(first)|;
    LaterBytes(first);
    assert all[|a|] == c && all[..n] == EncodeChar(first) && all[n..] == rest;
    if a == [] {
      assert all[0] == EncodeChar(first)[0];
      assert rest == b;
    } else {
      assert n <= |a|;
      assert a == EncodeChar(first) + a[n..];
      assert rest == a[n..] + [c] + b;
      SplitAtAscii(a[n..], c, b);
      DecodeFirstEncoded(first, a[n..]);
    }
  }
}
