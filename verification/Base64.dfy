/** Strict Base64 (sections 4, 5 and 3.5 of RFC 4648). */
module Base64 {
  import opened Common

  datatype Alphabet = Standard | UrlSafe

  datatype Padding = Canonical | Indifferent

  type sextet = x: int | 0 <= x < 64

  const PAD: byte := 61

  /** The symbol for a six-bit value. */
  function Symbol(alphabet: Alphabet, v: sextet): byte {
    if v < 26 then 65 + v
    else if v < 52 then 71 + v
    else if v < 62 then v - 4
    else if v == 62 then (if alphabet.Standard? then 43 else 45)
    else (if alphabet.Standard? then 47 else 95)
  }

  /** The position of a symbol in the alphabet. */
  function Sextet(alphabet: Alphabet, symbol: byte): Option<sextet> {
    if 65 <= symbol < 91 then Some(symbol - 65)
    else if 97 <= symbol < 123 then Some(symbol - 71)
    else if 48 <= symbol < 58 then Some(symbol + 4)
    else if symbol == Symbol(alphabet, 62) then Some(62)
    else if symbol == Symbol(alphabet, 63) then Some(63)
    else None
  }

  lemma SymbolInverts(alphabet: Alphabet, v: sextet)
    ensures Sextet(alphabet, Symbol(alphabet, v)) == Some(v)
    ensures Symbol(alphabet, v) != PAD
  {
  }

  lemma SextetInverts(alphabet: Alphabet, symbol: byte)
    requires Sextet(alphabet, symbol).Some?
    ensures Symbol(alphabet, Sextet(alphabet, symbol).value) == symbol
  {
  }

  // The four six-bit values of three bytes, and the three bytes of four six-bit values.

  function First(a: byte): sextet { a / 4 }
  function Second(a: byte, b: byte): sextet { a % 4 * 16 + b / 16 }
  function Third(b: byte, c: byte): sextet { b % 16 * 4 + c / 64 }
  function Fourth(c: byte): sextet { c % 64 }

  function High(p: sextet, q: sextet): byte { p * 4 + q / 16 }
  function Middle(q: sextet, r: sextet): byte { q % 16 * 16 + r / 4 }
  function Low(r: sextet, s: sextet): byte { r % 4 * 64 + s }

  /** A quotient and a remainder below the divisor are the quotient and the remainder. */
  lemma DivUnique(n: nat, d: nat, q: nat, r: nat)
    requires d > 0 && n == q * d + r && r < d
    ensures n / d == q && n % d == r
  {
    var k := q - n / d;
    assert k * d == n % d - r;
  }

  lemma GroupInverts(a: byte, b: byte, c: byte)
    ensures High(First(a), Second(a, b)) == a
    ensures Middle(Second(a, b), Third(b, c)) == b
    ensures Low(Third(b, c), Fourth(c)) == c
    ensures Second(a, 0) % 16 == 0 && Third(b, 0) % 4 == 0
  {
  }

  lemma QuadInverts(p: sextet, q: sextet, r: sextet, s: sextet)
    ensures First(High(p, q)) == p
    ensures Second(High(p, q), Middle(q, r)) == q
    ensures Third(Middle(q, r), Low(r, s)) == r
    ensures Fourth(Low(r, s)) == s
    ensures q % 16 == 0 ==> Second(High(p, q), 0) == q
    ensures r % 4 == 0 ==> Third(Middle(q, r), 0) == r
  {
  }

  /** The six-bit values of a byte string, groups of three at a time, zero bits filling the last. */
  function Sextets(bytes: seq<byte>): seq<sextet> {
    if |bytes| == 0 then []
    else if |bytes| == 1 then [First(bytes[0]), Second(bytes[0], 0)]
    else if |bytes| == 2 then
      [First(bytes[0]), Second(bytes[0], bytes[1]), Third(bytes[1], 0)]
    else
      [First(bytes[0]), Second(bytes[0], bytes[1]), Third(bytes[1], bytes[2]), Fourth(bytes[2])]
      + Sextets(bytes[3..])
  }

  /** The bytes a list of six-bit values spells, if an encoder wrote it. */
  function FromSextets(s: seq<sextet>): Option<seq<byte>> {
    if |s| == 0 then Some([])
    else if |s| == 1 then None
    else if |s| == 2 then
      if s[1] % 16 == 0 then Some([High(s[0], s[1])]) else None
    else if |s| == 3 then
      if s[2] % 4 == 0 then Some([High(s[0], s[1]), Middle(s[1], s[2])]) else None
    else match FromSextets(s[4..])
      case None => None
      case Some(rest) => Some([High(s[0], s[1]), Middle(s[1], s[2]), Low(s[2], s[3])] + rest)
  }

  lemma {:induction false} FromSextetsInverts(bytes: seq<byte>)
    ensures FromSextets(Sextets(bytes)) == Some(bytes)
  {
    hide First, Second, Third, Fourth, High, Middle, Low;
    if |bytes| == 0 {
    } else if |bytes| == 1 {
      GroupInverts(bytes[0], 0, 0);
      assert bytes == [bytes[0]];
    } else if |bytes| == 2 {
      GroupInverts(bytes[0], bytes[1], 0);
      assert bytes == [bytes[0], bytes[1]];
    } else {
      assert Sextets(bytes)[4..] == Sextets(bytes[3..]);
      FromSextetsInverts(bytes[3..]);
      GroupInverts(bytes[0], bytes[1], bytes[2]);
      assert bytes == [bytes[0], bytes[1], bytes[2]] + bytes[3..];
    }
  }

  lemma {:induction false} SextetsInverts(s: seq<sextet>)
    requires FromSextets(s).Some?
    ensures Sextets(FromSextets(s).value) == s
  {
    hide First, Second, Third, Fourth, High, Middle, Low;
    if |s| == 0 {
    } else if |s| == 2 {
      QuadInverts(s[0], s[1], 0, 0);
      assert s == [s[0], s[1]];
    } else if |s| == 3 {
      QuadInverts(s[0], s[1], s[2], 0);
      assert s == [s[0], s[1], s[2]];
    } else {
      SextetsInverts(s[4..]);
      QuadInverts(s[0], s[1], s[2], s[3]);
      assert FromSextets(s).value[3..] == FromSextets(s[4..]).value;
      assert s == [s[0], s[1], s[2], s[3]] + s[4..];
    }
  }

  function Symbols(alphabet: Alphabet, s: seq<sextet>): seq<byte> {
    if s == [] then [] else [Symbol(alphabet, s[0])] + Symbols(alphabet, s[1..])
  }

  lemma {:induction false} SymbolsAppend(alphabet: Alphabet, s: seq<sextet>, t: seq<sextet>)
    ensures Symbols(alphabet, s + t) == Symbols(alphabet, s) + Symbols(alphabet, t)
  {
    if s == [] {
      assert s + t == t;
    } else {
      assert (s + t)[1..] == s[1..] + t;
      SymbolsAppend(alphabet, s[1..], t);
    }
  }

  /** Every symbol of `t` read back; `None` when one is outside the alphabet. */
  function SextetsOf(alphabet: Alphabet, t: seq<byte>): Option<seq<sextet>> {
    if t == [] then Some([])
    else match (SextetsOf(alphabet, t[..|t| - 1]), Sextet(alphabet, t[|t| - 1]))
      case (Some(before), Some(v)) => Some(before + [v])
      case _ => None
  }

  lemma {:induction false} SymbolsInvert(alphabet: Alphabet, s: seq<sextet>)
    ensures SextetsOf(alphabet, Symbols(alphabet, s)) == Some(s)
    ensures |Symbols(alphabet, s)| == |s|
    ensures s != [] ==> Symbols(alphabet, s)[|s| - 1] != PAD
  {
    if s != [] {
      var init, last := s[..|s| - 1], s[|s| - 1];
      assert s == init + [last];
      SymbolsAppend(alphabet, init, [last]);
      assert Symbols(alphabet, [last]) == [Symbol(alphabet, last)];
      SymbolsInvert(alphabet, init);
      SymbolInverts(alphabet, last);
      assert Symbols(alphabet, s)[..|s| - 1] == Symbols(alphabet, init);
    }
  }

  lemma {:induction false} SextetsOfInvert(alphabet: Alphabet, t: seq<byte>)
    requires SextetsOf(alphabet, t).Some?
    ensures Symbols(alphabet, SextetsOf(alphabet, t).value) == t
    ensures |SextetsOf(alphabet, t).value| == |t|
  {
    if t != [] {
      var init, last := t[..|t| - 1], t[|t| - 1];
      SextetsOfInvert(alphabet, init);
      SextetInverts(alphabet, last);
      var v := Sextet(alphabet, last).value;
      SymbolsAppend(alphabet, SextetsOf(alphabet, init).value, [v]);
      assert Symbols(alphabet, [v]) == [last];
    }
  }

  /** How many padding symbols complete the last group of four. */
  function PadLen(symbols: nat): nat {
    if symbols % 4 == 0 then 0 else 4 - symbols % 4
  }

  function Pads(n: nat): seq<byte> {
    if n == 0 then [] else Pads(n - 1) + [PAD]
  }

  /** The encoding of `bytes`, with canonical padding when `pad`. */
  function Encoded(bytes: seq<byte>, alphabet: Alphabet, pad: bool): seq<byte> {
    var s := Sextets(bytes);
    Symbols(alphabet, s) + Pads(if pad then PadLen(|s|) else 0)
  }

  /** The length of `text` without its trailing padding. */
  function BodyLen(text: seq<byte>): (n: nat)
    ensures n <= |text|
  {
    if text == [] then 0
    else if text[|text| - 1] != PAD then |text|
    else BodyLen(text[..|text| - 1])
  }

  predicate PadAllowed(padding: Padding, body: nat, pad: nat) {
    if padding.Canonical? then pad == PadLen(body) else pad <= PadLen(body)
  }

  /** The bytes `text` spells, `None` on anything an encoder in this mode would not write. */
  function Decoded(text: seq<byte>, alphabet: Alphabet, padding: Padding): Option<seq<byte>> {
    var n := BodyLen(text);
    if n % 4 == 1 || !PadAllowed(padding, n, |text| - n) then None
    else match SextetsOf(alphabet, text[..n])
      case None => None
      case Some(s) => FromSextets(s)
  }

  // ----- the inverse laws

  lemma {:induction false} BodyAndPads(text: seq<byte>)
    ensures text == text[..BodyLen(text)] + Pads(|text| - BodyLen(text))
  {
    if text != [] && text[|text| - 1] == PAD {
      var init := text[..|text| - 1];
      BodyAndPads(init);
      assert text == init + [PAD];
      assert text[..BodyLen(text)] == init[..BodyLen(init)];
    }
  }

  lemma {:induction false} BodyOfPadded(body: seq<byte>, pad: nat)
    requires body != [] ==> body[|body| - 1] != PAD
    ensures BodyLen(body + Pads(pad)) == |body|
    ensures |Pads(pad)| == pad
  {
    if pad > 0 {
      BodyOfPadded(body, pad - 1);
      assert (body + Pads(pad))[..|body + Pads(pad)| - 1] == body + Pads(pad - 1);
    } else {
      assert body + Pads(0) == body;
    }
  }

  lemma {:induction false} SextetsLength(bytes: seq<byte>)
    ensures |Sextets(bytes)| % 4 == if |bytes| % 3 == 0 then 0 else |bytes| % 3 + 1
  {
    hide First, Second, Third, Fourth;
    if |bytes| >= 3 {
      SextetsLength(bytes[3..]);
    }
  }

  /** Decoding undoes encoding with any admitted amount of padding. */
  lemma DecodeInvertsEncode(bytes: seq<byte>, alphabet: Alphabet, padding: Padding, pad: nat)
    requires PadAllowed(padding, |Sextets(bytes)|, pad)
    ensures Decoded(Encoded(bytes, alphabet, false) + Pads(pad), alphabet, padding) == Some(bytes)
  {
    hide Sextets, Symbols, FromSextets, SextetsOf;
    var body := Symbols(alphabet, Sextets(bytes));
    assert Pads(0) == [];
    assert Encoded(bytes, alphabet, false) == body;
    SymbolsInvert(alphabet, Sextets(bytes));
    BodyOfPadded(body, pad);
    assert (body + Pads(pad))[..|body|] == body;
    SextetsLength(bytes);
    FromSextetsInverts(bytes);
  }

  /** Only the encoding of its result, with an admitted amount of padding, decodes. */
  lemma EncodeInvertsDecode(text: seq<byte>, alphabet: Alphabet, padding: Padding)
    requires Decoded(text, alphabet, padding).Some?
    ensures var bytes := Decoded(text, alphabet, padding).value;
            var pad := |text| - BodyLen(text);
            && PadAllowed(padding, |Sextets(bytes)|, pad)
            && text == Encoded(bytes, alphabet, false) + Pads(pad)
  {
    var body := text[..BodyLen(text)];
    SextetsOfInvert(alphabet, body);
    SextetsInverts(SextetsOf(alphabet, body).value);
    assert Encoded(Decoded(text, alphabet, padding).value, alphabet, false) == body;
    BodyAndPads(text);
  }

  /** In canonical mode the decoder accepts exactly the padded encoding of its result. */
  lemma CanonicalExact(text: seq<byte>, alphabet: Alphabet, bytes: seq<byte>)
    ensures Decoded(text, alphabet, Canonical) == Some(bytes)
       <==> text == Encoded(bytes, alphabet, true)
  {
    var pad := PadLen(|Sextets(bytes)|);
    assert Encoded(bytes, alphabet, false) == Symbols(alphabet, Sextets(bytes));
    DecodeInvertsEncode(bytes, alphabet, Canonical, pad);
    if Decoded(text, alphabet, Canonical) == Some(bytes) {
      EncodeInvertsDecode(text, alphabet, Canonical);
    }
  }

  /** In indifferent mode it accepts exactly that encoding with some of its padding dropped. */
  lemma IndifferentExact(text: seq<byte>, alphabet: Alphabet, bytes: seq<byte>)
    ensures Decoded(text, alphabet, Indifferent) == Some(bytes)
       <==> exists pad: nat :: pad <= PadLen(|Sextets(bytes)|)
                               && text == Encoded(bytes, alphabet, false) + Pads(pad)
  {
    forall pad: nat | pad <= PadLen(|Sextets(bytes)|)
                      && text == Encoded(bytes, alphabet, false) + Pads(pad)
      ensures Decoded(text, alphabet, Indifferent) == Some(bytes)
    {
      DecodeInvertsEncode(bytes, alphabet, Indifferent, pad);
    }
    if Decoded(text, alphabet, Indifferent) == Some(bytes) {
      EncodeInvertsDecode(text, alphabet, Indifferent);
    }
  }

  // ----- the encoder's loops

  /** `1 << bits`, for the shifts the codec makes. */
  function Shl(bits: nat): (w: nat)
    requires bits in {0, 2, 4, 6, 8, 12, 16, 18}
    ensures w > 0
  {
    if bits == 0 then 1 else if bits == 2 then 4 else if bits == 4 then 16
    else if bits == 6 then 64 else if bits == 8 then 256 else if bits == 12 then 4096
    else if bits == 16 then 65536 else 262144
  }

  /** The 24-bit group of up to three bytes. */
  function Group(a: byte, b: byte, c: byte): nat {
    var wide: int := a;
    var mid: int := b;
    wide * 65536 + mid * 256 + c
  }

  lemma GroupSextets(a: byte, b: byte, c: byte)
    ensures Group(a, b, c) / Shl(18) % 64 == First(a)
    ensures Group(a, b, c) / Shl(12) % 64 == Second(a, b)
    ensures Group(a, b, c) / Shl(6) % 64 == Third(b, c)
    ensures Group(a, b, c) / Shl(0) % 64 == Fourth(c)
  {
    var g := Group(a, b, c);
    var p: int, q: int, r: int, s: int := First(a), Second(a, b), Third(b, c), Fourth(c);
    assert g == p * 262144 + q * 4096 + r * 64 + s;
    hide First, Second, Third, Fourth, Group;
    DivUnique(g, 262144, p, q * 4096 + r * 64 + s);
    DivUnique(g, 4096, p * 64 + q, r * 64 + s);
    DivUnique(p * 64 + q, 64, p, q);
    DivUnique(g, 64, p * 4096 + q * 64 + r, s);
    DivUnique(p * 4096 + q * 64 + r, 64, p * 64 + q, r);
  }

  /** The byte of `chunk` at `i`, zero past its end. */
  function Byte(chunk: seq<byte>, i: nat): byte {
    if i < |chunk| then chunk[i] else 0
  }

  /** Each of a chunk's symbols is a six-bit window of the group its bytes are shifted into. */
  lemma ChunkSextets(chunk: seq<byte>, group: nat)
    requires 1 <= |chunk| <= 3
    requires group == Group(Byte(chunk, 0), Byte(chunk, 1), Byte(chunk, 2))
    ensures |Sextets(chunk)| == |chunk| + 1
    ensures forall i :: 0 <= i <= |chunk| ==>
              Sextets(chunk)[i] == group / Shl(18 - 6 * i) % 64
  {
    GroupSextets(Byte(chunk, 0), Byte(chunk, 1), Byte(chunk, 2));
    if |chunk| == 3 {
      assert chunk[3..] == [];
    }
  }

  lemma {:induction false} SextetsAppend(head: seq<byte>, chunk: seq<byte>)
    requires |head| % 3 == 0
    ensures Sextets(head + chunk) == Sextets(head) + Sextets(chunk)
  {
    hide First, Second, Third, Fourth;
    if head == [] {
      assert head + chunk == chunk;
    } else {
      assert (head + chunk)[3..] == head[3..] + chunk;
      SextetsAppend(head[3..], chunk);
    }
  }

  lemma EmptyGroup()
    ensures Group(0, 0, 0) == 0
  {
  }

  /** The group of the first `index` bytes, one byte further. */
  lemma GroupSnoc(chunk: seq<byte>, index: nat)
    requires index < |chunk| <= 3
    ensures var before, after := chunk[..index], chunk[..index + 1];
            Group(Byte(after, 0), Byte(after, 1), Byte(after, 2))
            == Group(Byte(before, 0), Byte(before, 1), Byte(before, 2))
               + chunk[index] as int * Shl(16 - 8 * index)
  {
  }

  method EncodeChunk(chunk: seq<byte>, alphabet: Alphabet) returns (encoded: seq<byte>)
    requires 1 <= |chunk| <= 3
    ensures encoded == Symbols(alphabet, Sextets(chunk))
  {
    hide Sextets, Group, Symbol;
    var group: nat := 0;
    EmptyGroup();
    for index := 0 to |chunk|
      invariant group == Group(Byte(chunk[..index], 0), Byte(chunk[..index], 1), Byte(chunk[..index], 2))
    {
      GroupSnoc(chunk, index);
      group := group + chunk[index] as int * Shl(16 - 8 * index);
    }
    assert chunk[..|chunk|] == chunk;
    ChunkSextets(chunk, group);
    ghost var s := Sextets(chunk);
    encoded := [];
    for index := 0 to |chunk| + 1
      invariant encoded == Symbols(alphabet, s[..index])
    {
      encoded := encoded + [Symbol(alphabet, group / Shl(18 - 6 * index) % 64)];
      assert s[..index + 1] == s[..index] + [s[index]];
      SymbolsAppend(alphabet, s[..index], [s[index]]);
      assert Symbols(alphabet, [s[index]]) == [Symbol(alphabet, s[index])];
    }
    assert s[..|s|] == s;
  }

  /** One more chunk of the encoding. */
  lemma EncodedSnoc(head: seq<byte>, chunk: seq<byte>, alphabet: Alphabet, pad: bool)
    requires |head| % 3 == 0 && 1 <= |chunk| <= 3
    ensures Encoded(head + chunk, alphabet, pad)
         == Encoded(head, alphabet, pad) + Symbols(alphabet, Sextets(chunk))
            + Pads(if pad then 3 - |chunk| else 0)
  {
    hide Sextets, Symbols;
    SextetsAppend(head, chunk);
    SymbolsAppend(alphabet, Sextets(head), Sextets(chunk));
    SextetsLength(head);
    SextetsLength(head + chunk);
    assert PadLen(|Sextets(head)|) == 0;
    assert PadLen(|Sextets(head + chunk)|) == 3 - |chunk|;
  }

  lemma EncodedEmpty(alphabet: Alphabet, pad: bool)
    ensures Encoded([], alphabet, pad) == []
  {
  }

  method Encode(bytes: seq<byte>, alphabet: Alphabet, pad: bool) returns (encoded: seq<byte>)
    ensures encoded == Encoded(bytes, alphabet, pad)
  {
    hide Encoded, Sextets, Symbols;
    EncodedEmpty(alphabet, pad);
    encoded := [];
    var at := 0;
    while at < |bytes|
      invariant at <= |bytes| && (at % 3 == 0 || at == |bytes|)
      invariant encoded == Encoded(bytes[..at], alphabet, pad)
    {
      var end := if at + 3 <= |bytes| then at + 3 else |bytes|;
      var chunk := bytes[at..end];
      var symbols := EncodeChunk(chunk, alphabet);
      EncodedSnoc(bytes[..at], chunk, alphabet, pad);
      assert bytes[..at] + chunk == bytes[..end];
      encoded := encoded + symbols;
      if pad {
        ghost var body := encoded;
        for index := |chunk| to 3
          invariant encoded == body + Pads(index - |chunk|)
        {
          encoded := encoded + [PAD];
        }
      }
      at := end;
    }
    assert bytes[..at] == bytes;
  }

  // ----- the decoder's sliding accumulator

  /** What the decoder holds after some symbols: whole bytes, pending bit count, pending bits. */
  datatype Window = Window(decoded: seq<byte>, bits: nat, pending: nat) {
    predicate Valid() {
      bits in {0, 2, 4, 6} && pending < Shl(bits)
    }
  }

  /** One symbol shifted into the window. */
  function Shift(w: Window, v: sextet): (r: Window)
    requires w.Valid()
    ensures r.Valid()
  {
    var sum := w.pending * 64 + v;
    if w.bits == 0 then Window(w.decoded, 6, sum)
    else if w.bits == 6 then Window(w.decoded + [sum / 16], 4, sum % 16)
    else if w.bits == 4 then Window(w.decoded + [sum / 4], 2, sum % 4)
    else Window(w.decoded + [sum], 0, 0)
  }

  function Slide(s: seq<sextet>): (w: Window)
    ensures w.Valid()
  {
    if s == [] then Window([], 0, 0) else Shift(Slide(s[..|s| - 1]), s[|s| - 1])
  }

  lemma HighIs(p: sextet, q: sextet)
    ensures (p * 64 + q) / 16 == High(p, q) && (p * 64 + q) % 16 == q % 16
  {
    DivUnique(p * 64 + q, 16, p * 4 + q / 16, q % 16);
  }

  lemma MiddleIs(q: sextet, r: sextet)
    ensures (q % 16 * 64 + r) / 4 == Middle(q, r) && (q % 16 * 64 + r) % 4 == r % 4
  {
    DivUnique(q % 16 * 64 + r, 4, q % 16 * 16 + r / 4, r % 4);
  }

  lemma ShiftSecond(d: seq<byte>, p: sextet, q: sextet)
    ensures Shift(Window(d, 6, p), q) == Window(d + [High(p, q)], 4, q % 16)
  {
    hide High;
    HighIs(p, q);
  }

  lemma ShiftThird(d: seq<byte>, q: sextet, r: sextet)
    ensures Shift(Window(d, 4, q % 16), r) == Window(d + [Middle(q, r)], 2, r % 4)
  {
    hide Middle;
    MiddleIs(q, r);
  }

  lemma ShiftFourth(d: seq<byte>, r: sextet, s: sextet)
    ensures Shift(Window(d, 2, r % 4), s) == Window(d + [Low(r, s)], 0, 0)
  {
  }

  /** The window after one, two, three and four symbols. */
  lemma SlideFirst(p: sextet, q: sextet, r: sextet, s: sextet)
    ensures Slide([p]) == Window([], 6, p)
    ensures Slide([p, q]) == Window([High(p, q)], 4, q % 16)
    ensures Slide([p, q, r]) == Window([High(p, q), Middle(q, r)], 2, r % 4)
    ensures Slide([p, q, r, s]) == Window([High(p, q), Middle(q, r), Low(r, s)], 0, 0)
  {
    hide High, Middle, Low;
    var none: seq<sextet> := [];
    assert Slide(none) == Window([], 0, 0);
    assert [p][..0] == none && [p, q][..1] == [p];
    assert [p, q, r][..2] == [p, q] && [p, q, r, s][..3] == [p, q, r];
    assert Slide([p]) == Shift(Slide(none), p) == Window([], 6, p);
    ShiftSecond([], p, q);
    ShiftThird([High(p, q)], q, r);
    ShiftFourth([High(p, q), Middle(q, r)], r, s);
  }

  lemma ShiftKeepsDecoded(d: seq<byte>, w: Window, v: sextet)
    requires w.Valid()
    ensures Shift(Window(d + w.decoded, w.bits, w.pending), v)
         == Window(d + Shift(w, v).decoded, Shift(w, v).bits, Shift(w, v).pending)
  {
  }

  /** A first group of four leaves nothing pending. */
  lemma {:induction false} SlideQuad(p: sextet, q: sextet, r: sextet, s: sextet, rest: seq<sextet>)
    ensures Slide([p, q, r, s] + rest)
         == Window([High(p, q), Middle(q, r), Low(r, s)] + Slide(rest).decoded,
                   Slide(rest).bits, Slide(rest).pending)
  {
    hide High, Middle, Low, Shift;
    if rest == [] {
      assert [p, q, r, s] + rest == [p, q, r, s];
      SlideFirst(p, q, r, s);
    } else {
      var init := rest[..|rest| - 1];
      var all := [p, q, r, s] + rest;
      assert all[..|all| - 1] == [p, q, r, s] + init;
      SlideQuad(p, q, r, s, init);
      ShiftKeepsDecoded([High(p, q), Middle(q, r), Low(r, s)], Slide(init), rest[|rest| - 1]);
    }
  }

  /** The sliding window computes the grouped meaning. */
  lemma {:induction false} SlideMeaning(s: seq<sextet>)
    ensures |s| % 4 != 1 ==>
      FromSextets(s) == if Slide(s).pending == 0 then Some(Slide(s).decoded) else None
  {
    hide High, Middle, Low, Shift;
    if |s| >= 4 {
      assert s == [s[0], s[1], s[2], s[3]] + s[4..];
      SlideQuad(s[0], s[1], s[2], s[3], s[4..]);
      SlideMeaning(s[4..]);
    } else if |s| == 3 {
      assert s == [s[0], s[1], s[2]];
      SlideFirst(s[0], s[1], s[2], 0);
    } else if |s| == 2 {
      assert s == [s[0], s[1]];
      SlideFirst(s[0], s[1], 0, 0);
    }
  }

  /** A 16-bit register keeps the value below each of its lower bit positions. */
  lemma RegisterLow(wide: nat, high: nat, unit: nat, sum: nat)
    requires unit in {256, 1024, 4096} && wide == high * unit + sum && sum < unit
    ensures wide % 65536 % unit == sum
  {
    var k := wide / 65536;
    if unit == 256 {
      DivUnique(wide % 65536, 256, high - k * 256, sum);
    } else if unit == 1024 {
      DivUnique(wide % 65536, 1024, high - k * 64, sum);
    } else {
      DivUnique(wide % 65536, 4096, high - k * 16, sum);
    }
  }

  /** The low byte above `low` bits of a register that ends in `sum`. */
  lemma RegisterByte(register: nat, low: nat, sum: nat)
    requires low in {1, 4, 16} && register % (256 * low) == sum
    ensures register / low % 256 == sum / low && register % low == sum % low
  {
    var k := register / (256 * low);
    if low == 4 {
      DivUnique(register, 4, k * 256 + sum / 4, sum % 4);
      DivUnique(k * 256 + sum / 4, 256, k, sum / 4);
    } else if low == 16 {
      DivUnique(register, 16, k * 256 + sum / 16, sum % 16);
      DivUnique(k * 256 + sum / 16, 256, k, sum / 16);
    }
  }

  /** The 16-bit register after six more bits. */
  function Register(group: nat, v: sextet): nat {
    (group * 64 + v) % 65536
  }

  /** Shifting six bits in and taking eight out, `unit` being the weight of the pending bits. */
  lemma RegisterStep(group: nat, unit: nat, pending: nat, v: sextet)
    requires unit in {4, 16, 64} && group % unit == pending
    ensures var next := Register(group, v);
            var low := unit / 4;
            && next / low % 256 == (pending * 64 + v) / low
            && next % low == (pending * 64 + v) % low
  {
    var sum := pending * 64 + v;
    var high := group / unit;
    assert group == high * unit + pending;
    if unit == 64 {
      assert group * 64 == high * 4096 + pending * 64;
    } else if unit == 16 {
      assert group * 64 == high * 1024 + pending * 64;
    } else {
      assert group * 64 == high * 256 + pending * 64;
    }
    RegisterLow(group * 64 + v, high, 64 * unit, sum);
    RegisterByte((group * 64 + v) % 65536, unit / 4, sum);
  }

  lemma RegisterFirst(group: nat, v: sextet)
    ensures Register(group, v) % 64 == v
  {
    var wide := group * 64 + v;
    var q := wide / 65536;
    DivUnique(wide % 65536, 64, group - q * 1024, v);
  }

  /** The 16-bit register holds the pending bits at its low end. */
  lemma RegisterShift(group: nat, w: Window, v: sextet)
    requires w.Valid() && group % Shl(w.bits) == w.pending
    ensures var next := Register(group, v);
            var r := Shift(w, v);
            && r.bits == (if w.bits + 6 >= 8 then w.bits - 2 else w.bits + 6)
            && next % Shl(r.bits) == r.pending
            && r.decoded == if w.bits + 6 >= 8 then w.decoded + [next / Shl(r.bits) % 256] else w.decoded
  {
    hide Register;
    if w.bits == 0 {
      RegisterFirst(group, v);
    } else if w.bits == 2 {
      RegisterStep(group, 4, w.pending, v);
    } else if w.bits == 4 {
      RegisterStep(group, 16, w.pending, v);
    } else {
      RegisterStep(group, 64, w.pending, v);
    }
  }

  lemma SextetsOfNone(alphabet: Alphabet, t: seq<byte>, at: nat)
    requires at < |t| && Sextet(alphabet, t[at]).None?
    ensures SextetsOf(alphabet, t).None?
  {
    if at < |t| - 1 {
      SextetsOfNone(alphabet, t[..|t| - 1], at);
    }
  }

  lemma EmptySlide(alphabet: Alphabet)
    ensures Slide([]) == Window([], 0, 0) && SextetsOf(alphabet, []) == Some([])
  {
  }

  lemma SlideSnoc(s: seq<sextet>, v: sextet)
    ensures Slide(s + [v]) == Shift(Slide(s), v)
  {
    hide Shift;
    assert (s + [v])[..|s + [v]| - 1] == s;
  }

  lemma SextetsOfStep(alphabet: Alphabet, t: seq<byte>, at: nat, s: seq<sextet>, v: sextet)
    requires at < |t| && SextetsOf(alphabet, t[..at]) == Some(s) && Sextet(alphabet, t[at]) == Some(v)
    ensures SextetsOf(alphabet, t[..at + 1]) == Some(s + [v])
  {
    hide Sextet;
    assert t[..at + 1][..at] == t[..at];
  }

  method Decode(text: seq<byte>, alphabet: Alphabet, padding: Padding)
    returns (r: Option<seq<byte>>)
    ensures r == Decoded(text, alphabet, padding)
  {
    hide Shift, FromSextets, Sextet, Register;
    var bodyLen := BodyLen(text);
    var body := text[..bodyLen];
    var remainder := bodyLen % 4;
    if remainder == 1 {
      return None;
    }
    var canonical := if remainder == 0 then 0 else 4 - remainder;
    var pad := |text| - bodyLen;
    var padAllowed := if padding.Canonical? then pad == canonical else pad <= canonical;
    if !padAllowed {
      return None;
    }
    var decoded: seq<byte>, group: nat, bits: nat := [], 0, 0;
    ghost var s: seq<sextet> := [];
    EmptySlide(alphabet);
    hide Slide, SextetsOf;
    for at := 0 to |body|
      invariant |s| == at && SextetsOf(alphabet, body[..at]) == Some(s)
      invariant bits in {0, 2, 4, 6}
      invariant decoded == Slide(s).decoded && bits == Slide(s).bits
      invariant group % Shl(bits) == Slide(s).pending
    {
      var value := Sextet(alphabet, body[at]);
      if value.None? {
        SextetsOfNone(alphabet, body, at);
        return None;
      }
      RegisterShift(group, Slide(s), value.value);
      group := Register(group, value.value);
      bits := bits + 6;
      if bits >= 8 {
        bits := bits - 8;
        decoded := decoded + [group / Shl(bits) % 256];
      }
      SlideSnoc(s, value.value);
      SextetsOfStep(alphabet, body, at, s, value.value);
      s := s + [value.value];
    }
    assert body[..|body|] == body;
    SlideMeaning(s);
    if group % Shl(bits) != 0 {
      return None;
    }
    return Some(decoded);
  }
}
