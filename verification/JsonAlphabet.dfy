/** What the constants, digits, escapes and orders of the grammar are, in the characters of RFC 8259 (sections 2, 6,
7). */
module JsonAlphabet {
  import opened Options
  import opened Utf8
  import opened JsonValue
  import opened JsonGrammar
  import opened JsonParser
  import opened JsonWriter

  const DECIMAL := "0123456789"
  const LOWER := "0123456789abcdef"
  const UPPER := "0123456789ABCDEF"
  const BLANKS := " \t\n\r"

  /** The characters that may stand behind a backslash, and what each of them stands for. */
  const ESCAPED := "\"\\/bfnrt"
  const MEANT := "\"\\/\U{8}\U{C}\n\r\t"

  predicate Is(b: byte, c: char) {
    b == c as int
  }

  predicate Spells(s: Bytes, text: string) {
    |s| == |text| && forall i :: 0 <= i < |s| ==> Is(s[i], text[i])
  }

  lemma TokensMean()
    ensures Spells(NULL, "null") && Spells(TRUE, "true") && Spells(FALSE, "false")
    ensures Spells([OPEN_BRACE, CLOSE_BRACE, OPEN_BRACKET, CLOSE_BRACKET, COLON, COMMA], "{}[]:,")
    ensures Spells([QUOTE, BACKSLASH, SLASH, LETTER_U, MINUS, PLUS, DOT, ZERO], "\"\\/u-+.0")
    ensures forall mark :: ExponentOk(Exponent(mark, [], [ZERO])) <==> Is(mark, 'e') || Is(mark, 'E')
  {
  }

  lemma BlanksMean(b: byte)
    ensures Space(b) <==> exists i :: 0 <= i < |BLANKS| && Is(b, BLANKS[i])
  {
    assert Is(0x20, BLANKS[0]) && Is(0x09, BLANKS[1]) && Is(0x0A, BLANKS[2]) && Is(0x0D, BLANKS[3]);
  }

  /** A digit is a character of the list and counts its place there; so is a hex digit, in either list. */
  lemma DigitsMean(b: byte, v: int)
    requires 0 <= v < 16
    ensures v < 10 ==> (Digits([b]) && DigitsValue([b]) == v <==> Is(b, DECIMAL[v]))
    ensures HexDigit(b) && HexDigitValue(b) == v <==> Is(b, LOWER[v]) || Is(b, UPPER[v])
  {
    assert DigitsValue([]) == 0;
    assert [b][..0] == [];
  }

  /** A short escape is one of the eight, and stands for its character. */
  lemma EscapesMean(b: byte)
    ensures ShortEscape(b) <==> exists i :: 0 <= i < |ESCAPED| && Is(b, ESCAPED[i])
    ensures forall i :: 0 <= i < |ESCAPED| && Is(b, ESCAPED[i]) ==> Is(Unescape(b), MEANT[i])
  {
    assert Is(QUOTE, ESCAPED[0]) && Is(BACKSLASH, ESCAPED[1]) && Is(SLASH, ESCAPED[2]) && Is(0x62, ESCAPED[3]);
    assert Is(0x66, ESCAPED[4]) && Is(0x6E, ESCAPED[5]) && Is(0x72, ESCAPED[6]) && Is(0x74, ESCAPED[7]);
  }

  /** A byte stands for itself where the grammar lets it; else it has a short escape if there is one, and four
  hex digits in lower case if there is none. */
  lemma WritesShortestPiece(b: byte)
    ensures PieceOk(Plain(b)) <==> WriteByte(b) == [b]
    ensures forall e: byte ::
              ShortEscape(e) && Unescape(e) == b && !PieceOk(Plain(b)) ==> WriteByte(b) == [BACKSLASH, e]
    ensures WriteByte(b) == [b] || |WriteByte(b)| == 2 || (
              && |WriteByte(b)| == 6 && Spells(WriteByte(b)[..4], "\\u00")
              && Is(WriteByte(b)[4], LOWER[b / 16]) && Is(WriteByte(b)[5], LOWER[b % 16]))
  {
  }

  /** The code points up to 0x10FFFF are the scalars and the two kinds of surrogates, 1024 of each. */
  lemma SurrogatesMean(code: int)
    ensures HighSurrogate(code) <==> 0xD800 <= code < 0xD800 + 1024
    ensures LowSurrogate(code) <==> HighSurrogate(code - 1024)
    ensures 0 <= code <= 0x10FFFF <==> Scalar(code) || HighSurrogate(code) || LowSurrogate(code)
    ensures Scalar(code) ==> !HighSurrogate(code) && !LowSurrogate(code)
  {
  }

  /** A double is finite unless its eleven exponent bits are all set. */
  lemma FiniteMeans(bits: bv64)
    ensures Finite(bits) <==> (bits >> 52) & 0x7FF != 0x7FF
  {
  }

  lemma LimitsMean()
    ensures LIMIT == 128 && MAX_INTEGER == 9223372036854775807 && MIN_INTEGER == -9223372036854775808
  {
  }

  /** Where they part, or where the shorter ends, the smaller byte decides. */
  predicate PartsBelow(a: Bytes, b: Bytes, k: nat) {
    && k <= |a| && k < |b| && a[..k] == b[..k]
    && (k == |a| || a[k] < b[k])
  }

  /** Keys are in lexicographic order. */
  lemma {:induction false} LessMeans(a: Bytes, b: Bytes)
    ensures Less(a, b) <==> exists k :: PartsBelow(a, b, k)
    decreases |b|
  {
    if b == [] {
    } else if a == [] {
      assert PartsBelow(a, b, 0);
    } else {
      LessMeans(a[1..], b[1..]);
      if a[0] < b[0] {
        assert PartsBelow(a, b, 0);
      } else if a[0] == b[0] {
        forall k: nat | PartsBelow(a[1..], b[1..], k) ensures PartsBelow(a, b, k + 1) {
          PartsLater(a, b, k);
        }
        forall k: nat | k > 0 && PartsBelow(a, b, k) ensures PartsBelow(a[1..], b[1..], k - 1) {
          PartsLater(a, b, k - 1);
        }
      } else {
        forall k: nat ensures !PartsBelow(a, b, k) {
          FirstDecides(a, b, k);
        }
      }
    }
  }

  lemma FirstDecides(a: Bytes, b: Bytes, k: nat)
    requires a != [] && b != [] && a[0] > b[0]
    ensures !PartsBelow(a, b, k)
  {
    if 0 < k <= |a| && k < |b| {
      assert a[..k][0] == a[0] && b[..k][0] == b[0];
    }
  }

  lemma PartsLater(a: Bytes, b: Bytes, k: nat)
    requires a != [] && b != [] && a[0] == b[0]
    ensures PartsBelow(a[1..], b[1..], k) <==> PartsBelow(a, b, k + 1)
  {
    if k + 1 <= |a| && k + 1 <= |b| {
      assert a[..k + 1] == [a[0]] + a[1..][..k] && b[..k + 1] == [b[0]] + b[1..][..k];
      assert a[1..][..k] == a[..k + 1][1..] && b[1..][..k] == b[..k + 1][1..];
    }
  }
}
