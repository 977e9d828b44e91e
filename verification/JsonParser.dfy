/** Recursive descent over the bytes of a text, one function for each method of the program's reader. */
module JsonParser {
  import opened Options
  import opened Utf8
  import opened JsonValue
  import opened JsonGrammar

  const LIMIT := 128

  datatype Fault =
    | NestingLimit
    | ExpectedValue
    | ExpectedKey
    | ExpectedColon
    | ExpectedCommaOrBrace
    | ExpectedCommaOrBracket
    | ExpectedLowSurrogate
    | InvalidLowSurrogate
    | InvalidUnicodeEscape
    | InvalidStringEscape
    | ControlCharacter
    | UnterminatedString
    | ExpectedDigit
    | ExpectedFractionDigit
    | ExpectedExponentDigit
    | InvalidNumber
    | NumberOutOfRange
    | TrailingData

  /** A result and the position behind it, or what is wrong and where. */
  datatype Parsed<+T> = Ok(value: T, next: nat) | Error(fault: Fault, at: nat)

  /** The byte at a position is `b`. */
  predicate Sees(text: Bytes, pos: nat, b: byte) {
    pos < |text| && text[pos] == b
  }

  predicate At(text: Bytes, pos: nat, s: Bytes) {
    pos + |s| <= |text| && text[pos..pos + |s|] == s
  }

  function SkipSpace(text: Bytes, pos: nat): (next: nat)
    requires pos <= |text|
    ensures pos <= next <= |text|
    decreases |text| - pos
  {
    if pos < |text| && Space(text[pos]) then SkipSpace(text, pos + 1) else pos
  }

  function SkipDigits(text: Bytes, pos: nat): (next: nat)
    requires pos <= |text|
    ensures pos <= next <= |text|
    decreases |text| - pos
  {
    if pos < |text| && Digit(text[pos]) then SkipDigits(text, pos + 1) else pos
  }

  // ----- strings -----

  function Quad(text: Bytes, pos: nat, count: nat, value: nat): (r: Parsed<nat>)
    requires pos <= |text|
    ensures r.Ok? ==> r.next == pos + count && r.next <= |text|
    decreases count
  {
    if count == 0 then Ok(value, pos)
    else if pos < |text| && HexDigit(text[pos]) then
      Quad(text, pos + 1, count - 1, value * 16 + HexDigitValue(text[pos]))
    else Error(InvalidUnicodeEscape, pos)
  }

  /** Behind the `u` of an escape. */
  function UnicodeEscape(text: Bytes, pos: nat): (r: Parsed<Bytes>)
    requires pos <= |text|
    ensures r.Ok? ==> pos < r.next <= |text|
  {
    match Quad(text, pos, 4, 0)
    case Error(fault, at) => Error(fault, at)
    case Ok(first, next) =>
      if HighSurrogate(first) then LowEscape(text, next, first)
      else if Scalar(first) then Ok(Encode(first), next)
      else Error(InvalidUnicodeEscape, next)
  }

  /** The second half of a surrogate pair. */
  function LowEscape(text: Bytes, pos: nat, first: nat): (r: Parsed<Bytes>)
    requires pos <= |text| && HighSurrogate(first)
    ensures r.Ok? ==> pos < r.next <= |text|
  {
    if !Sees(text, pos, BACKSLASH) then Error(ExpectedLowSurrogate, pos)
    else if !Sees(text, pos + 1, LETTER_U) then Error(ExpectedLowSurrogate, pos + 1)
    else
      match Quad(text, pos + 2, 4, 0)
      case Error(fault, at) => Error(fault, at)
      case Ok(second, next) =>
        if LowSurrogate(second) then Ok(Encode(Joined(first, second)), next) else Error(InvalidLowSurrogate, next)
  }

  /** Behind a backslash. */
  function Escape(text: Bytes, pos: nat): (r: Parsed<Bytes>)
    requires pos <= |text|
    ensures r.Ok? ==> pos < r.next <= |text|
  {
    if pos < |text| && ShortEscape(text[pos]) then Ok([Unescape(text[pos])], pos + 1)
    else if Sees(text, pos, LETTER_U) then UnicodeEscape(text, pos + 1)
    else Error(InvalidStringEscape, pos)
  }

  /** The rest of a string; `value` is what has been read of it. */
  function Chars(text: Bytes, pos: nat, value: Bytes): (r: Parsed<Bytes>)
    requires pos <= |text|
    ensures r.Ok? ==> pos < r.next <= |text|
    decreases |text| - pos
  {
    if pos == |text| then Error(UnterminatedString, pos)
    else if text[pos] == QUOTE then Ok(value, pos + 1)
    else if text[pos] == BACKSLASH then
      match Escape(text, pos + 1)
      case Error(fault, at) => Error(fault, at)
      case Ok(more, next) => Chars(text, next, value + more)
    else if text[pos] < 0x20 then Error(ControlCharacter, pos)
    else Chars(text, pos + 1, value + [text[pos]])
  }

  // ----- numbers -----

  /** The sign and the digits of the integer. */
  function Whole(text: Bytes, pos: nat): (r: Parsed<bool>)
    requires pos < |text|
    ensures r.Ok? ==> pos < r.next <= |text|
  {
    var start := if text[pos] == MINUS then pos + 1 else pos;
    if Sees(text, start, ZERO) then Ok(true, start + 1)
    else if start < |text| && Digit(text[start]) then Ok(true, SkipDigits(text, start + 1))
    else Error(ExpectedDigit, start)
  }

  /** Whether there is a fraction, and where it ends. */
  function Fraction(text: Bytes, pos: nat): (r: Parsed<bool>)
    requires pos <= |text|
    ensures r.Ok? ==> pos <= r.next <= |text|
  {
    if !Sees(text, pos, DOT) then Ok(false, pos)
    else
      var end := SkipDigits(text, pos + 1);
      if end == pos + 1 then Error(ExpectedFractionDigit, end) else Ok(true, end)
  }

  function SkipSign(text: Bytes, pos: nat): (next: nat)
    requires pos <= |text|
    ensures pos <= next <= |text|
  {
    if Sees(text, pos, PLUS) || Sees(text, pos, MINUS) then pos + 1 else pos
  }

  function Power(text: Bytes, pos: nat): (r: Parsed<bool>)
    requires pos <= |text|
    ensures r.Ok? ==> pos <= r.next <= |text|
  {
    if !Sees(text, pos, 0x65) && !Sees(text, pos, 0x45) then Ok(false, pos)
    else
      var start := SkipSign(text, pos + 1);
      var end := SkipDigits(text, start);
      if end == start then Error(ExpectedExponentDigit, end) else Ok(true, end)
  }

  /** What `str::parse::<i64>` makes of digits behind an optional minus. */
  function ParseInteger(token: Bytes): Option<int> {
    var negative := token != [] && token[0] == MINUS;
    var digits := if negative then token[1..] else token;
    if digits == [] || !Digits(digits) then None
    else
      var magnitude: int := DigitsValue(digits);
      var value := if negative then -magnitude else magnitude;
      if MIN_INTEGER <= value <= MAX_INTEGER then Some(value) else None
  }

  /** The value of a number token that ends at `next`. */
  function Convert(token: Bytes, float: bool, next: nat, floats: Floats): (r: Parsed<Json>)
    ensures r.Ok? ==> r.next == next
  {
    if !float && token != [MINUS, ZERO] && ParseInteger(token).Some? then
      Ok(Integer(ParseInteger(token).value), next)
    else
      match floats.parse(token)
      case None => Error(InvalidNumber, next)
      case Some(bits) => if Finite(bits) then Ok(Float(bits), next) else Error(NumberOutOfRange, next)
  }

  function NumberAt(text: Bytes, pos: nat, floats: Floats): (r: Parsed<Json>)
    requires pos < |text|
    ensures r.Ok? ==> pos < r.next <= |text|
  {
    match Whole(text, pos)
    case Error(fault, at) => Error(fault, at)
    case Ok(_, wholeEnd) =>
      match Fraction(text, wholeEnd)
      case Error(fault, at) => Error(fault, at)
      case Ok(hasFraction, fractionEnd) =>
        match Power(text, fractionEnd)
        case Error(fault, at) => Error(fault, at)
        case Ok(hasPower, end) => Convert(text[pos..end], hasFraction || hasPower, end, floats)
  }

  // ----- values -----

  function Value(text: Bytes, pos: nat, depth: nat, floats: Floats): (r: Parsed<Json>)
    requires pos <= |text|
    ensures r.Ok? ==> pos < r.next <= |text|
    decreases |text| - pos, 1
  {
    ValueAt(text, SkipSpace(text, pos), depth, floats)
  }

  function ValueAt(text: Bytes, pos: nat, depth: nat, floats: Floats): (r: Parsed<Json>)
    requires pos <= |text|
    ensures r.Ok? ==> pos < r.next <= |text|
    decreases |text| - pos, 0
  {
    if pos == |text| then Error(ExpectedValue, pos)
    else if text[pos] == OPEN_BRACE || text[pos] == OPEN_BRACKET then
      if depth >= LIMIT then Error(NestingLimit, pos)
      else if text[pos] == OPEN_BRACE then ObjectAt(text, pos + 1, depth + 1, floats)
      else ArrayAt(text, pos + 1, depth + 1, floats)
    else if text[pos] == QUOTE then
      match Chars(text, pos + 1, [])
      case Error(fault, at) => Error(fault, at)
      case Ok(value, next) => Ok(Text(value), next)
    else if text[pos] == MINUS || Digit(text[pos]) then NumberAt(text, pos, floats)
    else if At(text, pos, TRUE) then Ok(Bool(true), pos + 4)
    else if At(text, pos, FALSE) then Ok(Bool(false), pos + 5)
    else if At(text, pos, NULL) then Ok(Null, pos + 4)
    else Error(ExpectedValue, pos)
  }

  /** Behind an opening bracket. */
  function ArrayAt(text: Bytes, pos: nat, depth: nat, floats: Floats): (r: Parsed<Json>)
    requires pos <= |text|
    ensures r.Ok? ==> pos < r.next <= |text|
    decreases |text| - pos, 4
  {
    var start := SkipSpace(text, pos);
    if Sees(text, start, CLOSE_BRACKET) then Ok(Array([]), start + 1)
    else
      match Elements(text, pos, depth, [], floats)
      case Error(fault, at) => Error(fault, at)
      case Ok(values, next) => Ok(Array(values), next)
  }

  /** The rest of an array; `values` are the elements read so far. */
  function Elements(text: Bytes, pos: nat, depth: nat, values: seq<Json>, floats: Floats): (r: Parsed<seq<Json>>)
    requires pos <= |text|
    ensures r.Ok? ==> pos < r.next <= |text|
    decreases |text| - pos, 2
  {
    match Value(text, pos, depth, floats)
    case Error(fault, at) => Error(fault, at)
    case Ok(value, next) =>
      var end := SkipSpace(text, next);
      if Sees(text, end, CLOSE_BRACKET) then Ok(values + [value], end + 1)
      else if Sees(text, end, COMMA) then Elements(text, end + 1, depth, values + [value], floats)
      else Error(ExpectedCommaOrBracket, end)
  }

  /** Behind an opening brace; the members are inserted one after the other. */
  function ObjectAt(text: Bytes, pos: nat, depth: nat, floats: Floats): (r: Parsed<Json>)
    requires pos <= |text|
    ensures r.Ok? ==> pos < r.next <= |text|
    decreases |text| - pos, 4
  {
    var start := SkipSpace(text, pos);
    if Sees(text, start, CLOSE_BRACE) then Ok(Object([]), start + 1)
    else
      match Pairs(text, pos, depth, [], floats)
      case Error(fault, at) => Error(fault, at)
      case Ok(entries, next) => Ok(Object(InsertAll([], entries)), next)
  }

  /** A key and the colon behind it. */
  function KeyAt(text: Bytes, pos: nat): (r: Parsed<Bytes>)
    requires pos <= |text|
    ensures r.Ok? ==> pos < r.next <= |text|
  {
    var start := SkipSpace(text, pos);
    if !Sees(text, start, QUOTE) then Error(ExpectedKey, start)
    else
      match Chars(text, start + 1, [])
      case Error(fault, at) => Error(fault, at)
      case Ok(key, keyEnd) =>
        var colon := SkipSpace(text, keyEnd);
        if Sees(text, colon, COLON) then Ok(key, colon + 1) else Error(ExpectedColon, colon)
  }

  /** A member, up to the end of its value. */
  function MemberAt(text: Bytes, pos: nat, depth: nat, floats: Floats): (r: Parsed<Entry>)
    requires pos <= |text|
    ensures r.Ok? ==> pos < r.next <= |text|
    decreases |text| - pos, 2
  {
    match KeyAt(text, pos)
    case Error(fault, at) => Error(fault, at)
    case Ok(key, valueStart) =>
      match Value(text, valueStart, depth, floats)
      case Error(fault, at) => Error(fault, at)
      case Ok(value, next) => Ok(Entry(key, value), next)
  }

  /** The rest of an object; `entries` are the members read so far. */
  function Pairs(text: Bytes, pos: nat, depth: nat, entries: seq<Entry>, floats: Floats): (r: Parsed<seq<Entry>>)
    requires pos <= |text|
    ensures r.Ok? ==> pos < r.next <= |text|
    decreases |text| - pos, 3
  {
    match MemberAt(text, pos, depth, floats)
    case Error(fault, at) => Error(fault, at)
    case Ok(entry, next) =>
      var end := SkipSpace(text, next);
      if Sees(text, end, CLOSE_BRACE) then Ok(entries + [entry], end + 1)
      else if Sees(text, end, COMMA) then Pairs(text, end + 1, depth, entries + [entry], floats)
      else Error(ExpectedCommaOrBrace, end)
  }

  function Parse(text: Bytes, floats: Floats): (r: Parsed<Json>)
    ensures r.Ok? ==> r.next == |text|
  {
    match Value(text, 0, 0, floats)
    case Error(fault, at) => Error(fault, at)
    case Ok(value, next) =>
      var end := SkipSpace(text, next);
      if end == |text| then Ok(value, end) else Error(TrailingData, end)
  }
}
