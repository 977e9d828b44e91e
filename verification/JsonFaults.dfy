/** What an error of the reader says: at its position the text does not go on as the message expects. */
module JsonFaults {
  import opened Options
  import opened Utf8
  import opened JsonValue
  import opened JsonGrammar
  import opened JsonParser
  import opened JsonTokens

  predicate SeesSpace(text: Bytes, pos: nat) {
    pos < |text| && Space(text[pos])
  }

  predicate SeesDigit(text: Bytes, pos: nat) {
    pos < |text| && Digit(text[pos])
  }

  predicate SeesHexDigit(text: Bytes, pos: nat) {
    pos < |text| && HexDigit(text[pos])
  }

  /** What a value can begin with. */
  predicate SeesValue(text: Bytes, pos: nat) {
    || Sees(text, pos, OPEN_BRACE) || Sees(text, pos, OPEN_BRACKET) || Sees(text, pos, QUOTE)
    || Sees(text, pos, MINUS) || SeesDigit(text, pos)
    || At(text, pos, TRUE) || At(text, pos, FALSE) || At(text, pos, NULL)
  }

  /** Whitespace has been skipped, and neither of these bytes follows. */
  predicate Misses(text: Bytes, pos: nat, b: byte, c: byte) {
    !SeesSpace(text, pos) && !Sees(text, pos, b) && !Sees(text, pos, c)
  }

  /** Four hex digits end here, with a value of this kind. */
  predicate BehindQuad(text: Bytes, pos: nat, low: bool) {
    && 4 <= pos <= |text| && HexQuad(text[pos - 4..pos])
    && LowSurrogate(HexValue(text[pos - 4..pos])) == low
  }

  /** A token that ends here, begins like a number and is no finite double. */
  ghost predicate BehindNumber(text: Bytes, pos: nat, floats: Floats, isDouble: bool) {
    exists start: nat :: Unconverted(text, start, pos, floats, isDouble)
  }

  predicate Unconverted(text: Bytes, start: nat, pos: nat, floats: Floats, isDouble: bool) {
    && start < pos <= |text| && (Sees(text, start, MINUS) || SeesDigit(text, start))
    && var bits := floats.parse(text[start..pos]);
    if isDouble then bits.Some? && !Finite(bits.value) else bits.None?
  }

  ghost predicate Explained(text: Bytes, fault: Fault, at: nat, floats: Floats) {
    && at <= |text|
    && match fault
       case NestingLimit => Sees(text, at, OPEN_BRACE) || Sees(text, at, OPEN_BRACKET)
       case ExpectedValue => !SeesSpace(text, at) && !SeesValue(text, at)
       case ExpectedKey => Misses(text, at, QUOTE, QUOTE)
       case ExpectedColon => Misses(text, at, COLON, COLON)
       case ExpectedCommaOrBrace => Misses(text, at, COMMA, CLOSE_BRACE)
       case ExpectedCommaOrBracket => Misses(text, at, COMMA, CLOSE_BRACKET)
       case ExpectedLowSurrogate =>
         !Sees(text, at, BACKSLASH) || (at > 0 && Sees(text, at - 1, BACKSLASH) && !Sees(text, at, LETTER_U))
       case InvalidLowSurrogate => BehindQuad(text, at, false)
       case InvalidUnicodeEscape => !SeesHexDigit(text, at) || BehindQuad(text, at, true)
       case InvalidStringEscape => !Sees(text, at, LETTER_U) && (at < |text| ==> !ShortEscape(text[at]))
       case ControlCharacter => at < |text| && text[at] < 0x20
       case UnterminatedString => at == |text|
       case ExpectedDigit => !SeesDigit(text, at)
       case ExpectedFractionDigit => !SeesDigit(text, at) && at > 0 && Sees(text, at - 1, DOT)
       case ExpectedExponentDigit => !SeesDigit(text, at)
       case InvalidNumber => BehindNumber(text, at, floats, false)
       case NumberOutOfRange => BehindNumber(text, at, floats, true)
       case TrailingData => at < |text| && !SeesSpace(text, at)
  }

  /** An error behind this position is explained by what stands there. */
  ghost predicate Fine<T>(text: Bytes, pos: nat, r: Parsed<T>, floats: Floats) {
    r.Error? ==> r.at >= pos && Explained(text, r.fault, r.at, floats)
  }

  // ----- strings -----

  lemma {:induction false} QuadFault(text: Bytes, pos: nat, count: nat, value: nat, floats: Floats)
    requires pos <= |text|
    ensures Fine(text, pos, Quad(text, pos, count, value), floats)
    decreases count
  {
    if count > 0 && SeesHexDigit(text, pos) {
      QuadFault(text, pos + 1, count - 1, value * 16 + HexDigitValue(text[pos]), floats);
    }
  }

  lemma UnicodeFault(text: Bytes, pos: nat, floats: Floats)
    requires pos <= |text|
    ensures Fine(text, pos, UnicodeEscape(text, pos), floats)
  {
    QuadFault(text, pos, 4, 0, floats);
    var first := Quad(text, pos, 4, 0);
    if first.Ok? {
      QuadSound(text, pos);
      if HighSurrogate(first.value) {
        LowFault(text, first.next, first.value, floats);
      }
    }
  }

  lemma LowFault(text: Bytes, pos: nat, first: nat, floats: Floats)
    requires pos <= |text| && HighSurrogate(first)
    ensures Fine(text, pos, LowEscape(text, pos, first), floats)
  {
    if Sees(text, pos, BACKSLASH) && Sees(text, pos + 1, LETTER_U) {
      QuadFault(text, pos + 2, 4, 0, floats);
      if Quad(text, pos + 2, 4, 0).Ok? {
        QuadSound(text, pos + 2);
      }
    }
  }

  lemma EscapeFault(text: Bytes, pos: nat, floats: Floats)
    requires pos <= |text|
    ensures Fine(text, pos, Escape(text, pos), floats)
  {
    if !(pos < |text| && ShortEscape(text[pos])) && Sees(text, pos, LETTER_U) {
      UnicodeFault(text, pos + 1, floats);
    }
  }

  lemma {:induction false} CharsFault(text: Bytes, pos: nat, value: Bytes, floats: Floats)
    requires pos <= |text|
    ensures Fine(text, pos, Chars(text, pos, value), floats)
    decreases |text| - pos
  {
    if pos < |text| && text[pos] != QUOTE {
      if text[pos] == BACKSLASH {
        EscapeFault(text, pos + 1, floats);
        var r := Escape(text, pos + 1);
        if r.Ok? {
          CharsFault(text, r.next, value + r.value, floats);
        }
      } else if text[pos] >= 0x20 {
        CharsFault(text, pos + 1, value + [text[pos]], floats);
      }
    }
  }

  // ----- numbers -----

  lemma {:induction false} SkipDigitsStops(text: Bytes, pos: nat)
    requires pos <= |text|
    ensures !SeesDigit(text, SkipDigits(text, pos))
    decreases |text| - pos
  {
    if SeesDigit(text, pos) {
      SkipDigitsStops(text, pos + 1);
    }
  }

  lemma NumberFault(text: Bytes, pos: nat, floats: Floats)
    requires pos < |text| && (text[pos] == MINUS || Digit(text[pos]))
    ensures Fine(text, pos, NumberAt(text, pos, floats), floats)
  {
    var whole := Whole(text, pos);
    if whole.Ok? {
      SkipDigitsStops(text, if whole.next < |text| then whole.next + 1 else whole.next);
      var fraction := Fraction(text, whole.next);
      if fraction.Ok? {
        PowerFault(text, fraction.next, floats);
        var power := Power(text, fraction.next);
        if power.Ok? {
          ConvertFault(text, pos, power.next, fraction.value || power.value, floats);
        }
      }
    }
  }

  lemma PowerFault(text: Bytes, pos: nat, floats: Floats)
    requires pos <= |text|
    ensures Fine(text, pos, Power(text, pos), floats)
  {
    if Sees(text, pos, 0x65) || Sees(text, pos, 0x45) {
      SkipDigitsStops(text, SkipSign(text, pos + 1));
    }
  }

  lemma ConvertFault(text: Bytes, start: nat, end: nat, float: bool, floats: Floats)
    requires start < end <= |text| && (text[start] == MINUS || Digit(text[start]))
    ensures Fine(text, start, Convert(text[start..end], float, end, floats), floats)
  {
    assert Unconverted(text, start, end, floats, false) || Unconverted(text, start, end, floats, true)
           || Convert(text[start..end], float, end, floats).Ok?;
  }

  // ----- values -----

  lemma {:induction false} SkipSpaceStops(text: Bytes, pos: nat)
    requires pos <= |text|
    ensures !SeesSpace(text, SkipSpace(text, pos))
    decreases |text| - pos
  {
    if SeesSpace(text, pos) {
      SkipSpaceStops(text, pos + 1);
    }
  }

  lemma {:induction false} ValueFault(text: Bytes, pos: nat, depth: nat, floats: Floats)
    requires pos <= |text|
    ensures Fine(text, pos, Value(text, pos, depth, floats), floats)
    decreases |text| - pos, 1
  {
    SkipSpaceStops(text, pos);
    ValueAtFault(text, SkipSpace(text, pos), depth, floats);
  }

  lemma {:induction false} ValueAtFault(text: Bytes, pos: nat, depth: nat, floats: Floats)
    requires pos <= |text| && !SeesSpace(text, pos)
    ensures Fine(text, pos, ValueAt(text, pos, depth, floats), floats)
    decreases |text| - pos, 0
  {
    if Sees(text, pos, OPEN_BRACE) {
      if depth < LIMIT { ObjectFault(text, pos + 1, depth + 1, floats); }
    } else if Sees(text, pos, OPEN_BRACKET) {
      if depth < LIMIT { ArrayFault(text, pos + 1, depth + 1, floats); }
    } else if Sees(text, pos, QUOTE) {
      CharsFault(text, pos + 1, [], floats);
    } else if Sees(text, pos, MINUS) || SeesDigit(text, pos) {
      NumberFault(text, pos, floats);
    }
  }

  lemma {:induction false} ArrayFault(text: Bytes, pos: nat, depth: nat, floats: Floats)
    requires pos <= |text|
    ensures Fine(text, pos, ArrayAt(text, pos, depth, floats), floats)
    decreases |text| - pos, 4
  {
    ElementsFault(text, pos, depth, [], floats);
  }

  lemma {:induction false} ElementsFault(text: Bytes, pos: nat, depth: nat, values: seq<Json>, floats: Floats)
    requires pos <= |text|
    ensures Fine(text, pos, Elements(text, pos, depth, values, floats), floats)
    decreases |text| - pos, 2
  {
    ValueFault(text, pos, depth, floats);
    var r := Value(text, pos, depth, floats);
    if r.Ok? {
      var end := SkipSpace(text, r.next);
      SkipSpaceStops(text, r.next);
      if !Sees(text, end, CLOSE_BRACKET) && Sees(text, end, COMMA) {
        ElementsFault(text, end + 1, depth, values + [r.value], floats);
      }
    }
  }

  lemma {:induction false} ObjectFault(text: Bytes, pos: nat, depth: nat, floats: Floats)
    requires pos <= |text|
    ensures Fine(text, pos, ObjectAt(text, pos, depth, floats), floats)
    decreases |text| - pos, 4
  {
    PairsFault(text, pos, depth, [], floats);
  }

  lemma KeyFault(text: Bytes, pos: nat, floats: Floats)
    requires pos <= |text|
    ensures Fine(text, pos, KeyAt(text, pos), floats)
  {
    var start := SkipSpace(text, pos);
    SkipSpaceStops(text, pos);
    if Sees(text, start, QUOTE) {
      CharsFault(text, start + 1, [], floats);
      var key := Chars(text, start + 1, []);
      if key.Ok? {
        SkipSpaceStops(text, key.next);
      }
    }
  }

  lemma {:induction false} PairsFault(text: Bytes, pos: nat, depth: nat, entries: seq<Entry>, floats: Floats)
    requires pos <= |text|
    ensures Fine(text, pos, Pairs(text, pos, depth, entries, floats), floats)
    decreases |text| - pos, 3
  {
    KeyFault(text, pos, floats);
    var key := KeyAt(text, pos);
    if key.Ok? {
      ValueFault(text, key.next, depth, floats);
      var r := MemberAt(text, pos, depth, floats);
      if r.Ok? {
        var end := SkipSpace(text, r.next);
        SkipSpaceStops(text, r.next);
        if !Sees(text, end, CLOSE_BRACE) && Sees(text, end, COMMA) {
          PairsFault(text, end + 1, depth, entries + [r.value], floats);
        }
      }
    }
  }

  /** Every error is explained by what stands at its position. */
  lemma FaultsExplained(text: Bytes, floats: Floats)
    ensures Fine(text, 0, Parse(text, floats), floats)
  {
    ValueFault(text, 0, 0, floats);
    var r := Value(text, 0, 0, floats);
    if r.Ok? {
      SkipSpaceStops(text, r.next);
    }
  }
}
