/** The reader recognises exactly the numbers of the grammar, and gives them their meaning. */
module JsonNumbers {
  import opened Options
  import opened Utf8
  import opened JsonValue
  import opened JsonGrammar
  import opened JsonParser
  import opened JsonTokens

  function Sign(negative: bool): Bytes {
    if negative then [MINUS] else []
  }

  lemma WholeSound(text: Bytes, pos: nat) returns (negative: bool, whole: Bytes)
    requires pos < |text| && Whole(text, pos).Ok?
    ensures WholeOk(whole) && text[pos..Whole(text, pos).next] == Sign(negative) + whole
  {
    negative := text[pos] == MINUS;
    var start := if negative then pos + 1 else pos;
    var next := Whole(text, pos).next;
    whole := text[start..next];
    assert text[pos..start] == Sign(negative);
    Joint(text, pos, start, next);
    WholeDigits(text, start, next);
  }

  lemma WholeDigits(text: Bytes, start: nat, next: nat)
    requires start < |text|
    requires if text[start] == ZERO then next == start + 1
             else Digit(text[start]) && next == SkipDigits(text, start + 1)
    ensures start < next <= |text| && WholeOk(text[start..next])
  {
    if text[start] != ZERO {
      SkipDigitsSound(text, start + 1);
    }
    assert text[start..next] == [text[start]] + text[start + 1..next];
  }

  lemma FractionSound(text: Bytes, pos: nat) returns (fraction: Option<Bytes>)
    requires pos <= |text| && Fraction(text, pos).Ok?
    ensures fraction.Some? ==> fraction.value != [] && Digits(fraction.value)
    ensures fraction.Some? == Fraction(text, pos).value
    ensures text[pos..Fraction(text, pos).next] == PrintFraction(fraction)
  {
    var next := Fraction(text, pos).next;
    if Sees(text, pos, DOT) {
      SkipDigitsSound(text, pos + 1);
      fraction := Some(text[pos + 1..next]);
    } else {
      fraction := None;
    }
  }

  lemma PowerSound(text: Bytes, pos: nat) returns (exponent: Option<Exponent>)
    requires pos <= |text| && Power(text, pos).Ok?
    ensures exponent.Some? ==> ExponentOk(exponent.value)
    ensures exponent.Some? == Power(text, pos).value
    ensures text[pos..Power(text, pos).next] == PrintExponent(exponent)
  {
    var next := Power(text, pos).next;
    if Power(text, pos).value {
      var start := SkipSign(text, pos + 1);
      SkipDigitsSound(text, start);
      var e := Exponent(text[pos], text[pos + 1..start], text[start..next]);
      exponent := Some(e);
      Joint(text, pos, pos + 1, next);
      Joint(text, pos + 1, start, next);
      Regroup([e.mark], e.sign, e.digits);
    } else {
      exponent := None;
    }
  }

  lemma ParseSigned(negative: bool, whole: Bytes)
    requires WholeOk(whole)
    ensures ParseInteger(Sign(negative) + whole) == (
      var magnitude: int := DigitsValue(whole);
      var value := if negative then -magnitude else magnitude;
      if MIN_INTEGER <= value <= MAX_INTEGER then Some(value) else None)
    ensures Sign(negative) + whole == [MINUS, ZERO] <==> negative && whole == [ZERO]
  {
    var token := Sign(negative) + whole;
    if negative {
      assert token[1..] == whole;
    } else {
      assert token == whole && token[0] != MINUS;
    }
  }

  /** The conversion of a token is the meaning of the number it writes. */
  lemma ConvertIsMeaning(n: Number, next: nat, floats: Floats)
    requires NumberOk(n)
    ensures var r := Convert(PrintNumber(n), n.fraction.Some? || n.exponent.Some?, next, floats);
            && (r.Ok? <==> NumberMeaning(n, floats).Some?)
            && (r.Ok? ==> r.value == NumberMeaning(n, floats).value)
  {
    if n.fraction.None? && n.exponent.None? {
      ParseSigned(n.negative, n.whole);
      assert PrintNumber(n) == Sign(n.negative) + n.whole;
    }
  }

  lemma NumberSound(text: Bytes, pos: nat, floats: Floats) returns (n: Number)
    requires pos < |text| && NumberAt(text, pos, floats).Ok?
    ensures NumberOk(n) && text[pos..NumberAt(text, pos, floats).next] == PrintNumber(n)
    ensures NumberMeaning(n, floats) == Some(NumberAt(text, pos, floats).value)
  {
    var negative, whole := WholeSound(text, pos);
    var wholeEnd := Whole(text, pos).next;
    var fraction := FractionSound(text, wholeEnd);
    var fractionEnd := Fraction(text, wholeEnd).next;
    var exponent := PowerSound(text, fractionEnd);
    var end := Power(text, fractionEnd).next;
    n := Number(negative, whole, fraction, exponent);
    Joint(text, pos, wholeEnd, fractionEnd);
    Joint(text, pos, fractionEnd, end);
    assert text[pos..end] == PrintNumber(n);
    ConvertIsMeaning(n, end, floats);
  }

  /** A number does not go on here: in the grammar, what follows a value is whitespace or one of `,`, `]`, `}`. */
  predicate Delimited(text: Bytes, pos: nat) {
    pos >= |text| || Space(text[pos]) || text[pos] in {COMMA, CLOSE_BRACKET, CLOSE_BRACE}
  }

  lemma WholeComplete(text: Bytes, pos: nat, negative: bool, whole: Bytes)
    requires WholeOk(whole) && At(text, pos, Sign(negative) + whole)
    requires EndsDigits(text, pos + |Sign(negative) + whole|)
    ensures pos < |text| && Whole(text, pos) == Ok(true, pos + |Sign(negative) + whole|)
    ensures text[pos] == MINUS || Digit(text[pos])
  {
    AtConcat(text, pos, Sign(negative), whole);
    var start := pos + |Sign(negative)|;
    AtFirst(text, start, whole);
    AtFirst(text, pos, Sign(negative) + whole);
    assert [whole[0]] + whole[1..] == whole;
    AtConcat(text, start, [whole[0]], whole[1..]);
    if whole != [ZERO] {
      SkipDigitsComplete(text, start + 1, whole[1..]);
    }
  }

  lemma FractionComplete(text: Bytes, pos: nat, fraction: Option<Bytes>)
    requires fraction.Some? ==> fraction.value != [] && Digits(fraction.value)
    requires At(text, pos, PrintFraction(fraction)) && EndsDigits(text, pos + |PrintFraction(fraction)|)
    requires !Sees(text, pos + |PrintFraction(fraction)|, DOT)
    ensures Fraction(text, pos) == Ok(fraction.Some?, pos + |PrintFraction(fraction)|)
    ensures fraction.Some? ==> Sees(text, pos, DOT)
  {
    match fraction
    case None =>
    case Some(digits) =>
      AtConcat(text, pos, [DOT], digits);
      AtByte(text, pos, DOT);
      SkipDigitsComplete(text, pos + 1, digits);
  }

  lemma ExponentComplete(text: Bytes, pos: nat, e: Exponent)
    requires ExponentOk(e) && At(text, pos, [e.mark] + e.sign + e.digits)
    requires EndsDigits(text, pos + 1 + |e.sign| + |e.digits|)
    ensures Sees(text, pos, e.mark)
    ensures SkipSign(text, pos + 1) == pos + 1 + |e.sign|
    ensures SkipDigits(text, pos + 1 + |e.sign|) == pos + 1 + |e.sign| + |e.digits|
  {
    AtConcat(text, pos, [e.mark] + e.sign, e.digits);
    AtConcat(text, pos, [e.mark], e.sign);
    AtByte(text, pos, e.mark);
    AtFirst(text, pos + 1 + |e.sign|, e.digits);
    if e.sign != [] {
      AtFirst(text, pos + 1, e.sign);
    }
    SkipDigitsComplete(text, pos + 1 + |e.sign|, e.digits);
  }

  lemma PowerComplete(text: Bytes, pos: nat, exponent: Option<Exponent>)
    requires exponent.Some? ==> ExponentOk(exponent.value)
    requires At(text, pos, PrintExponent(exponent)) && Delimited(text, pos + |PrintExponent(exponent)|)
    ensures Power(text, pos) == Ok(exponent.Some?, pos + |PrintExponent(exponent)|)
  {
    if exponent.Some? {
      ExponentComplete(text, pos, exponent.value);
    }
  }

  lemma NumberParts(text: Bytes, pos: nat, n: Number)
    requires At(text, pos, PrintNumber(n))
    ensures var whole, fraction := Sign(n.negative) + n.whole, PrintFraction(n.fraction);
            && At(text, pos, whole) && At(text, pos + |whole|, fraction)
            && At(text, pos + |whole| + |fraction|, PrintExponent(n.exponent))
            && |PrintNumber(n)| == |whole| + |fraction| + |PrintExponent(n.exponent)|
  {
    var whole, fraction, power := Sign(n.negative) + n.whole, PrintFraction(n.fraction), PrintExponent(n.exponent);
    assert PrintNumber(n) == whole + fraction + power;
    AtConcat(text, pos, whole + fraction, power);
    AtConcat(text, pos, whole, fraction);
  }

  /** Behind the integer of a number, and behind its fraction. */
  lemma NumberJoints(text: Bytes, pos: nat, fraction: Option<Bytes>, exponent: Option<Exponent>)
    requires At(text, pos, PrintFraction(fraction))
    requires At(text, pos + |PrintFraction(fraction)|, PrintExponent(exponent))
    requires exponent.Some? ==> ExponentOk(exponent.value)
    requires Delimited(text, pos + |PrintFraction(fraction)| + |PrintExponent(exponent)|)
    ensures EndsDigits(text, pos + |PrintFraction(fraction)|) && !Sees(text, pos + |PrintFraction(fraction)|, DOT)
    ensures EndsDigits(text, pos)
  {
    if exponent.Some? {
      AtFirst(text, pos + |PrintFraction(fraction)|, PrintExponent(exponent));
    }
    if fraction.Some? {
      AtFirst(text, pos, PrintFraction(fraction));
    }
  }

  lemma NumberSteps(text: Bytes, pos: nat, wholeEnd: nat, fraction: bool, fractionEnd: nat, power: bool, end: nat,
                    floats: Floats)
    requires pos < |text| && Whole(text, pos) == Ok(true, wholeEnd)
    requires Fraction(text, wholeEnd) == Ok(fraction, fractionEnd)
    requires Power(text, fractionEnd) == Ok(power, end)
    ensures NumberAt(text, pos, floats) == Convert(text[pos..end], fraction || power, end, floats)
  {
  }

  lemma NumberReads(text: Bytes, pos: nat, n: Number, wholeEnd: nat, fractionEnd: nat, end: nat)
    requires NumberOk(n) && At(text, pos, Sign(n.negative) + n.whole) && Delimited(text, end)
    requires wholeEnd == pos + |Sign(n.negative) + n.whole|
    requires fractionEnd == wholeEnd + |PrintFraction(n.fraction)|
    requires end == fractionEnd + |PrintExponent(n.exponent)|
    requires At(text, wholeEnd, PrintFraction(n.fraction)) && At(text, fractionEnd, PrintExponent(n.exponent))
    ensures pos < |text| && Whole(text, pos) == Ok(true, wholeEnd)
    ensures Fraction(text, wholeEnd) == Ok(n.fraction.Some?, fractionEnd)
    ensures Power(text, fractionEnd) == Ok(n.exponent.Some?, end)
    ensures text[pos] == MINUS || Digit(text[pos])
  {
    NumberJoints(text, wholeEnd, n.fraction, n.exponent);
    PowerComplete(text, fractionEnd, n.exponent);
    FractionComplete(text, wholeEnd, n.fraction);
    WholeComplete(text, pos, n.negative, n.whole);
  }

  lemma NumberComplete(text: Bytes, pos: nat, n: Number, floats: Floats)
    requires NumberOk(n) && At(text, pos, PrintNumber(n)) && Delimited(text, pos + |PrintNumber(n)|)
    requires NumberMeaning(n, floats).Some?
    ensures pos < |text| && (text[pos] == MINUS || Digit(text[pos]))
    ensures NumberAt(text, pos, floats) == Ok(NumberMeaning(n, floats).value, pos + |PrintNumber(n)|)
  {
    var wholeEnd := pos + |Sign(n.negative) + n.whole|;
    var fractionEnd := wholeEnd + |PrintFraction(n.fraction)|;
    var end := fractionEnd + |PrintExponent(n.exponent)|;
    NumberParts(text, pos, n);
    NumberReads(text, pos, n, wholeEnd, fractionEnd, end);
    NumberSteps(text, pos, wholeEnd, n.fraction.Some?, fractionEnd, n.exponent.Some?, end, floats);
    ConvertIsMeaning(n, end, floats);
  }
}
