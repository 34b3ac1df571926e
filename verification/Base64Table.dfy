/** The alphabets of Base64 as RFC 4648 lists them. */
module Base64Table {
  import opened Common
  import opened Base64

  const UPPER := "ABCDEFGHIJKLMNOPQRSTUVWXYZ"
  const LOWER := "abcdefghijklmnopqrstuvwxyz"
  const DIGITS := "0123456789"

  /** The two tables of RFC 4648, sections 4 and 5. */
  function Table(alphabet: Alphabet): string {
    UPPER + LOWER + DIGITS + (if alphabet.Standard? then "+/" else "-_")
  }

  predicate CountsFrom(s: string, first: char) {
    forall i :: 0 <= i < |s| ==> s[i] as int == first as int + i
  }

  lemma LettersCount()
    ensures |UPPER| == 26 && CountsFrom(UPPER, 'A')
    ensures |LOWER| == 26 && CountsFrom(LOWER, 'a')
    ensures |DIGITS| == 10 && CountsFrom(DIGITS, '0')
  {
  }

  /** The symbol of a value is the one its table lists there. */
  lemma SymbolIsListed(alphabet: Alphabet, v: sextet)
    ensures |Table(alphabet)| == 64 && Table(alphabet)[v] as int == Symbol(alphabet, v)
  {
    LettersCount();
    var u, l, d, last := UPPER, LOWER, DIGITS, if alphabet.Standard? then "+/" else "-_";
    assert |u| == 26 && |l| == 26 && |d| == 10;
    ghost var t := u + l + d + last;
    assert Table(alphabet) == t;
    if v < 26 {
      assert t[v] == u[v];
    } else if v < 52 {
      assert t[v] == l[v - 26];
    } else if v < 62 {
      assert t[v] == d[v - 52];
    } else {
      assert t[v] == last[v - 62];
    }
  }

  /** Three bytes and their four values are one number of 24 bits, highest first. */
  lemma GroupIsNumber(a: byte, b: byte, c: byte)
    ensures ((First(a) * 64 + Second(a, b)) * 64 + Third(b, c)) * 64 + Fourth(c) == (a * 256 + b) * 256 + c
  {
    assert First(a) * 64 + Second(a, b) == a * 16 + b / 16;
    assert (a * 16 + b / 16) * 64 + Third(b, c) == (a * 256 + b) * 4 + c / 64;
  }
}
