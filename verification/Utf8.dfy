/** Bytes of a text, and what makes them valid UTF-8 (section 4 of RFC 3629). */
module Utf8 {
  type byte = x: int | 0 <= x < 256
  type Bytes = seq<byte>

  predicate Continuation(b: byte) {
    0x80 <= b <= 0xBF
  }

  /** Length of the character at the front, or 0 if none is well-formed there. */
  function FrontLength(s: Bytes): (n: nat)
    ensures n <= 4 && n <= |s|
  {
    if |s| >= 1 && s[0] <= 0x7F then 1
    else if |s| >= 2 && 0xC2 <= s[0] <= 0xDF && Continuation(s[1]) then 2
    else if |s| >= 3 && ThreeByteFront(s[0], s[1]) && Continuation(s[2]) then 3
    else if |s| >= 4 && FourByteFront(s[0], s[1]) && Continuation(s[2]) && Continuation(s[3]) then 4
    else 0
  }

  /** The second byte rules out overlong forms and surrogates. */
  predicate ThreeByteFront(a: byte, b: byte) {
    || (a == 0xE0 && 0xA0 <= b <= 0xBF)
    || (0xE1 <= a <= 0xEC && Continuation(b))
    || (a == 0xED && 0x80 <= b <= 0x9F)
    || (0xEE <= a <= 0xEF && Continuation(b))
  }

  predicate FourByteFront(a: byte, b: byte) {
    || (a == 0xF0 && 0x90 <= b <= 0xBF)
    || (0xF1 <= a <= 0xF3 && Continuation(b))
    || (a == 0xF4 && 0x80 <= b <= 0x8F)
  }

  predicate Valid(s: Bytes) {
    s == [] || (FrontLength(s) > 0 && Valid(s[FrontLength(s)..]))
  }

  /** A code point that is not a surrogate. */
  predicate Scalar(code: int) {
    0 <= code <= 0x10FFFF && !(0xD800 <= code <= 0xDFFF)
  }

  function Encode(code: int): (s: Bytes)
    requires Scalar(code)
    ensures 1 <= |s| <= 4
  {
    if code < 0x80 then [code]
    else if code < 0x800 then [0xC0 + code / 0x40, 0x80 + code % 0x40]
    else if code < 0x10000 then [0xE0 + code / 0x1000, 0x80 + code / 0x40 % 0x40, 0x80 + code % 0x40]
    else [0xF0 + code / 0x40000, 0x80 + code / 0x1000 % 0x40, 0x80 + code / 0x40 % 0x40, 0x80 + code % 0x40]
  }

  /** The code point of the character at the front, or -1. */
  function Decode(s: Bytes): int {
    match FrontLength(s)
    case 1 => s[0]
    case 2 => TwoBytes(s[0], s[1])
    case 3 => ThreeBytes(s[0], s[1], s[2])
    case 4 => FourBytes(s[0], s[1], s[2], s[3])
    case _ => -1
  }

  function TwoBytes(a: int, b: int): int {
    (a - 0xC0) * 0x40 + (b - 0x80)
  }

  function ThreeBytes(a: int, b: int, c: int): int {
    (a - 0xE0) * 0x1000 + (b - 0x80) * 0x40 + (c - 0x80)
  }

  function FourBytes(a: int, b: int, c: int, d: int): int {
    (a - 0xF0) * 0x40000 + (b - 0x80) * 0x1000 + (c - 0x80) * 0x40 + (d - 0x80)
  }

  lemma TwoDecode(code: int)
    requires 0x80 <= code < 0x800
    ensures FrontLength(Encode(code)) == 2 && Decode(Encode(code)) == code
  {
  }

  lemma ThreeDecode(code: int)
    requires Scalar(code) && 0x800 <= code < 0x10000
    ensures FrontLength(Encode(code)) == 3 && Decode(Encode(code)) == code
  {
    var high, rest := code / 0x1000, code % 0x1000;
    assert code / 0x40 == high * 0x40 + rest / 0x40;
    assert code % 0x40 == rest % 0x40;
    assert code / 0x40 % 0x40 == rest / 0x40;
  }

  lemma FourDecode(code: int)
    requires 0x10000 <= code <= 0x10FFFF
    ensures FrontLength(Encode(code)) == 4 && Decode(Encode(code)) == code
  {
    FourParts(code);
    var s := Encode(code);
    assert FrontLength(s) == 4;
  }

  /** The leading bits of a code point and its three groups of six bits. */
  lemma FourParts(code: int)
    requires 0x10000 <= code <= 0x10FFFF
    ensures var a, b, c, d := code / 0x40000, code / 0x1000 % 0x40, code / 0x40 % 0x40, code % 0x40;
            && code == a * 0x40000 + b * 0x1000 + c * 0x40 + d
            && a <= 4 && (a == 0 ==> b >= 0x10) && (a == 4 ==> b < 0x10)
  {
    assert code == (code / 0x40) * 0x40 + code % 0x40;
    assert code / 0x40 == (code / 0x1000) * 0x40 + code / 0x40 % 0x40;
    assert code / 0x1000 == (code / 0x40000) * 0x40 + code / 0x1000 % 0x40;
  }

  lemma EncodeDecodes(code: int)
    requires Scalar(code)
    ensures FrontLength(Encode(code)) == |Encode(code)| && Decode(Encode(code)) == code
    ensures Valid(Encode(code))
  {
    if 0x80 <= code < 0x800 {
      TwoDecode(code);
    } else if 0x800 <= code < 0x10000 {
      ThreeDecode(code);
    } else if 0x10000 <= code {
      FourDecode(code);
    }
    var s := Encode(code);
    assert s[|s|..] == [];
  }

  /** As the program tests it: a boundary is not in front of a continuation byte. */
  predicate IsCharBoundary(s: Bytes, i: int) {
    0 <= i <= |s| && (i == |s| || !Continuation(s[i]))
  }

  lemma FrontLengthLocal(s: Bytes, t: Bytes)
    requires FrontLength(s) > 0
    ensures FrontLength(s + t) == FrontLength(s)
    ensures (s + t)[FrontLength(s)..] == s[FrontLength(s)..] + t
  {
    assert forall i :: 0 <= i < |s| ==> (s + t)[i] == s[i];
  }

  lemma {:induction false} ConcatValid(s: Bytes, t: Bytes)
    requires Valid(s) && Valid(t)
    ensures Valid(s + t)
    decreases |s|
  {
    if s == [] {
      assert s + t == t;
    } else {
      FrontLengthLocal(s, t);
      ConcatValid(s[FrontLength(s)..], t);
    }
  }

  /** Cutting valid text at a boundary leaves two valid texts. */
  lemma {:induction false} CutValid(s: Bytes, i: nat)
    requires Valid(s) && IsCharBoundary(s, i)
    ensures Valid(s[..i]) && Valid(s[i..])
    decreases |s|
  {
    if i == 0 {
      assert s[0..] == s && s[..0] == [];
    } else {
      var n := FrontLength(s);
      assert i >= n;
      var rest := s[n..];
      assert rest[i - n..] == s[i..];
      CutValid(rest, i - n);
      assert s[..i] == s[..n] + rest[..i - n];
      FrontValid(s);
      ConcatValid(s[..n], rest[..i - n]);
    }
  }

  lemma FrontValid(s: Bytes)
    requires FrontLength(s) > 0
    ensures Valid(s[..FrontLength(s)])
  {
    var front := s[..FrontLength(s)];
    assert FrontLength(front) == |front|;
    assert front[|front|..] == [];
  }

  lemma SliceValid(s: Bytes, start: nat, end: nat)
    requires Valid(s) && start <= end && IsCharBoundary(s, start) && IsCharBoundary(s, end)
    ensures Valid(s[start..end])
  {
    CutValid(s, end);
    var front := s[..end];
    assert front[start..] == s[start..end];
    CutValid(front, start);
  }

  /** Behind an ASCII byte there is a boundary. */
  lemma {:induction false} AfterAscii(s: Bytes, i: nat)
    requires Valid(s) && 0 < i <= |s| && s[i - 1] < 0x80
    ensures IsCharBoundary(s, i)
    decreases |s|
  {
    var n := FrontLength(s);
    if i > n {
      assert s[n..][i - n - 1] == s[i - 1];
      AfterAscii(s[n..], i - n);
    } else if i < |s| {
      assert i == n == 1;
      assert FrontLength(s[1..]) > 0;
    }
  }
}
