/** What is assumed of the conversions between doubles and texts can be met: here by writing the bit pattern in
decimal. */
module JsonFloats {
  import opened Modular
  import opened Options
  import opened Utf8
  import opened JsonValue
  import opened JsonGrammar
  import opened JsonWriter

  const MARK: Bytes := [0x65, 0x30]

  function Code(bits: bv64): (n: nat)
    ensures n < WORD
  {
    bits as nat
  }

  function Pattern(n: nat): bv64
    requires n < WORD
  {
    n as bv64
  }

  lemma PatternOfCode(bits: bv64)
    ensures Pattern(Code(bits)) == bits
  {
  }

  /** A number with the exponent `e0`. */
  function NumberOf(n: nat): Number {
    Number(false, DecimalDigits(n), None, Some(Exponent(0x65, [], [ZERO])))
  }

  function WriteNumber(n: nat): Bytes {
    DecimalDigits(n) + MARK
  }

  function ReadNumber(token: Bytes): Option<nat> {
    var n := |token| - 2;
    if n > 0 && token[n..] == MARK && Digits(token[..n]) then Some(DigitsValue(token[..n])) else None
  }

  lemma NumberIsPrinted(n: nat)
    ensures NumberOk(NumberOf(n)) && PrintNumber(NumberOf(n)) == WriteNumber(n)
  {
    DecimalRoundTrip(n);
    assert [0x65] + [] + [ZERO] == MARK;
    NothingAround(DecimalDigits(n), MARK);
  }

  lemma NothingAround(digits: Bytes, mark: Bytes)
    ensures [] + digits + [] + mark == digits + mark
  {
  }

  lemma NumberIsRead(n: nat)
    ensures ReadNumber(WriteNumber(n)) == Some(n)
  {
    DecimalRoundTrip(n);
    SplitMark(DecimalDigits(n));
  }

  lemma SplitMark(digits: Bytes)
    ensures var token := digits + MARK; token[..|token| - 2] == digits && token[|token| - 2..] == MARK
  {
  }

  function Format(bits: bv64): Bytes {
    WriteNumber(Code(bits))
  }

  function Parse(token: Bytes): Option<bv64> {
    match ReadNumber(token)
    case None => None
    case Some(n) => if n < WORD then Some(Pattern(n)) else None
  }

  function Decimal(): Floats {
    Floats(Parse, Format)
  }

  lemma DecimalParses(bits: bv64)
    ensures Parse(Format(bits)) == Some(bits)
  {
    NumberIsRead(Code(bits));
    PatternOfCode(bits);
  }

  lemma DecimalIsNumber(bits: bv64)
    ensures FloatText(NumberOf(Code(bits)), bits, Decimal())
  {
    NumberIsPrinted(Code(bits));
  }

  lemma FloatsCanBeOk()
    ensures FloatsOk(Decimal())
  {
    forall bits | Finite(bits)
      ensures Decimal().parse(Decimal().format(bits)) == Some(bits) && exists n :: FloatText(n, bits, Decimal())
    {
      DecimalParses(bits);
      DecimalIsNumber(bits);
    }
  }
}
