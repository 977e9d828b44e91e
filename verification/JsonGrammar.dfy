/** The grammar of RFC 8259 (sections 2 to 7) as syntax trees: each tree has one text and one meaning. */
module JsonGrammar {
  import opened Options
  import opened Utf8
  import opened JsonValue

  const OPEN_BRACE: byte := 0x7B
  const CLOSE_BRACE: byte := 0x7D
  const OPEN_BRACKET: byte := 0x5B
  const CLOSE_BRACKET: byte := 0x5D
  const COLON: byte := 0x3A
  const COMMA: byte := 0x2C
  const QUOTE: byte := 0x22
  const BACKSLASH: byte := 0x5C
  const SLASH: byte := 0x2F
  const MINUS: byte := 0x2D
  const PLUS: byte := 0x2B
  const DOT: byte := 0x2E
  const ZERO: byte := 0x30
  const LETTER_U: byte := 0x75
  const NULL: Bytes := [0x6E, 0x75, 0x6C, 0x6C]
  const TRUE: Bytes := [0x74, 0x72, 0x75, 0x65]
  const FALSE: Bytes := [0x66, 0x61, 0x6C, 0x73, 0x65]

  // ----- syntax -----

  /** A piece of a string: a byte as it is, a short escape, an escaped code unit, or two of them. */
  datatype Piece = Plain(b: byte) | Short(b: byte) | Code(hex: Bytes) | Pair(high: Bytes, low: Bytes)

  datatype Exponent = Exponent(mark: byte, sign: Bytes, digits: Bytes)

  datatype Number = Number(negative: bool, whole: Bytes, fraction: Option<Bytes>, exponent: Option<Exponent>)

  /** `space` is the whitespace between the brackets when there is nothing else there. */
  datatype Tree =
    | NullTree
    | TrueTree
    | FalseTree
    | NumberTree(number: Number)
    | StringTree(pieces: seq<Piece>)
    | ArrayTree(space: Bytes, items: seq<Item>)
    | ObjectTree(space: Bytes, members: seq<Member>)

  datatype Item = Item(before: Bytes, value: Tree, after: Bytes)

  datatype Member =
    Member(before: Bytes, key: seq<Piece>, afterKey: Bytes, beforeValue: Bytes, value: Tree, after: Bytes)

  datatype Document = Document(before: Bytes, value: Tree, after: Bytes)

  predicate Space(b: byte) {
    b == 0x20 || b == 0x09 || b == 0x0A || b == 0x0D
  }

  predicate Spaces(s: Bytes) {
    forall i :: 0 <= i < |s| ==> Space(s[i])
  }

  predicate Digit(b: byte) {
    0x30 <= b <= 0x39
  }

  predicate Digits(s: Bytes) {
    forall i :: 0 <= i < |s| ==> Digit(s[i])
  }

  predicate HexDigit(b: byte) {
    Digit(b) || 0x61 <= b <= 0x66 || 0x41 <= b <= 0x46
  }

  predicate HexQuad(s: Bytes) {
    |s| == 4 && forall i :: 0 <= i < |s| ==> HexDigit(s[i])
  }

  predicate HighSurrogate(code: int) {
    0xD800 <= code <= 0xDBFF
  }

  predicate LowSurrogate(code: int) {
    0xDC00 <= code <= 0xDFFF
  }

  predicate ShortEscape(b: byte) {
    b in {QUOTE, BACKSLASH, SLASH, 0x62, 0x66, 0x6E, 0x72, 0x74}
  }

  predicate PieceOk(p: Piece) {
    match p
    case Plain(b) => b >= 0x20 && b != QUOTE && b != BACKSLASH
    case Short(b) => ShortEscape(b)
    case Code(hex) => HexQuad(hex) && Scalar(HexValue(hex))
    case Pair(high, low) =>
      HexQuad(high) && HexQuad(low) && HighSurrogate(HexValue(high)) && LowSurrogate(HexValue(low))
  }

  predicate PiecesOk(pieces: seq<Piece>) {
    forall i :: 0 <= i < |pieces| ==> PieceOk(pieces[i])
  }

  /** No leading zero. */
  predicate WholeOk(s: Bytes) {
    s == [ZERO] || (s != [] && Digits(s) && s[0] != ZERO)
  }

  predicate ExponentOk(e: Exponent) {
    && (e.mark == 0x65 || e.mark == 0x45)
    && (e.sign == [] || e.sign == [PLUS] || e.sign == [MINUS])
    && e.digits != [] && Digits(e.digits)
  }

  predicate NumberOk(n: Number) {
    && WholeOk(n.whole)
    && (n.fraction.Some? ==> n.fraction.value != [] && Digits(n.fraction.value))
    && (n.exponent.Some? ==> ExponentOk(n.exponent.value))
  }

  predicate TreeOk(t: Tree) {
    match t
    case NumberTree(n) => NumberOk(n)
    case StringTree(pieces) => PiecesOk(pieces)
    case ArrayTree(space, items) =>
      Spaces(space) && (items != [] ==> space == []) && forall i :: 0 <= i < |items| ==> ItemOk(items[i])
    case ObjectTree(space, members) =>
      Spaces(space) && (members != [] ==> space == []) && forall i :: 0 <= i < |members| ==> MemberOk(members[i])
    case _ => true
  }

  predicate ItemOk(m: Item) {
    Spaces(m.before) && TreeOk(m.value) && Spaces(m.after)
  }

  predicate MemberOk(m: Member) {
    && Spaces(m.before) && PiecesOk(m.key) && Spaces(m.afterKey)
    && Spaces(m.beforeValue) && TreeOk(m.value) && Spaces(m.after)
  }

  predicate DocumentOk(d: Document) {
    Spaces(d.before) && TreeOk(d.value) && Spaces(d.after)
  }

  // ----- texts -----

  function PrintPiece(p: Piece): Bytes {
    match p
    case Plain(b) => [b]
    case Short(b) => [BACKSLASH, b]
    case Code(hex) => [BACKSLASH, LETTER_U] + hex
    case Pair(high, low) => [BACKSLASH, LETTER_U] + high + [BACKSLASH, LETTER_U] + low
  }

  function PrintPieces(pieces: seq<Piece>): Bytes {
    if pieces == [] then [] else PrintPiece(pieces[0]) + PrintPieces(pieces[1..])
  }

  function PrintString(pieces: seq<Piece>): Bytes {
    [QUOTE] + PrintPieces(pieces) + [QUOTE]
  }

  function PrintFraction(fraction: Option<Bytes>): Bytes {
    match fraction
    case None => []
    case Some(digits) => [DOT] + digits
  }

  function PrintExponent(exponent: Option<Exponent>): Bytes {
    match exponent
    case None => []
    case Some(e) => [e.mark] + e.sign + e.digits
  }

  function PrintNumber(n: Number): Bytes {
    (if n.negative then [MINUS] else []) + n.whole + PrintFraction(n.fraction) + PrintExponent(n.exponent)
  }

  function Print(t: Tree): Bytes {
    match t
    case NullTree => NULL
    case TrueTree => TRUE
    case FalseTree => FALSE
    case NumberTree(n) => PrintNumber(n)
    case StringTree(pieces) => PrintString(pieces)
    case ArrayTree(space, items) => [OPEN_BRACKET] + space + PrintItems(items) + [CLOSE_BRACKET]
    case ObjectTree(space, members) => [OPEN_BRACE] + space + PrintMembers(members) + [CLOSE_BRACE]
  }

  function PrintItems(items: seq<Item>): Bytes {
    if items == [] then []
    else if |items| == 1 then PrintItem(items[0])
    else PrintItem(items[0]) + [COMMA] + PrintItems(items[1..])
  }

  function PrintItem(m: Item): Bytes {
    m.before + Print(m.value) + m.after
  }

  function PrintMembers(members: seq<Member>): Bytes {
    if members == [] then []
    else if |members| == 1 then PrintMember(members[0])
    else PrintMember(members[0]) + [COMMA] + PrintMembers(members[1..])
  }

  function PrintMember(m: Member): Bytes {
    m.before + PrintString(m.key) + m.afterKey + [COLON] + m.beforeValue + Print(m.value) + m.after
  }

  function PrintDocument(d: Document): Bytes {
    d.before + Print(d.value) + d.after
  }

  // ----- meanings -----

  /** Parsing and printing of doubles, left open; a token that is no double has no parse. */
  datatype Floats = Floats(parse: Bytes -> Option<bv64>, format: bv64 -> Bytes)

  function HexDigitValue(b: byte): (v: nat)
    requires HexDigit(b)
    ensures v < 16
  {
    if b <= 0x39 then b - 0x30 else if b <= 0x46 then b - 0x41 + 10 else b - 0x61 + 10
  }

  function HexValue(s: Bytes): nat
    requires forall i :: 0 <= i < |s| ==> HexDigit(s[i])
  {
    if s == [] then 0 else HexValue(s[..|s| - 1]) * 16 + HexDigitValue(s[|s| - 1])
  }

  function DigitsValue(s: Bytes): nat
    requires Digits(s)
  {
    if s == [] then 0 else DigitsValue(s[..|s| - 1]) * 10 + (s[|s| - 1] - 0x30)
  }

  function Unescape(b: byte): byte {
    match b
    case 0x62 => 0x08
    case 0x66 => 0x0C
    case 0x6E => 0x0A
    case 0x72 => 0x0D
    case 0x74 => 0x09
    case _ => b
  }

  /** The code point two surrogates stand for. */
  function Joined(high: int, low: int): int {
    0x10000 + (high - 0xD800) * 0x400 + (low - 0xDC00)
  }

  lemma JoinedIsScalar(high: int, low: int)
    requires HighSurrogate(high) && LowSurrogate(low)
    ensures Scalar(Joined(high, low)) && Joined(high, low) >= 0x10000
  {
  }

  /** Joining undoes the UTF-16 encoding of every code point past 0xFFFF, and hits nothing else. */
  lemma SurrogatesRoundTrip(code: int)
    requires 0x10000 <= code <= 0x10FFFF
    ensures var high, low := 0xD800 + (code - 0x10000) / 0x400, 0xDC00 + (code - 0x10000) % 0x400;
            HighSurrogate(high) && LowSurrogate(low) && Joined(high, low) == code
  {
    var c := code - 0x10000;
    assert c == c / 0x400 * 0x400 + c % 0x400;
  }

  function PieceMeaning(p: Piece): Bytes
    requires PieceOk(p)
  {
    match p
    case Plain(b) => [b]
    case Short(b) => [Unescape(b)]
    case Code(hex) => Encode(HexValue(hex))
    case Pair(high, low) => Encode(Joined(HexValue(high), HexValue(low)))
  }

  function PiecesMeaning(pieces: seq<Piece>): Bytes
    requires PiecesOk(pieces)
  {
    if pieces == [] then [] else PieceMeaning(pieces[0]) + PiecesMeaning(pieces[1..])
  }

  /** What an integer without fraction and exponent counts. */
  function WholeValue(n: Number): int
    requires NumberOk(n)
  {
    var magnitude: int := DigitsValue(n.whole);
    if n.negative then -magnitude else magnitude
  }

  /** Exact if it is an integer of 64 bits other than "-0", otherwise a double; none if that is not finite. */
  function NumberMeaning(n: Number, floats: Floats): Option<Json>
    requires NumberOk(n)
  {
    if n.fraction.None? && n.exponent.None? && !(n.negative && n.whole == [ZERO]) &&
       MIN_INTEGER <= WholeValue(n) <= MAX_INTEGER
    then Some(Integer(WholeValue(n)))
    else match floats.parse(PrintNumber(n))
      case Some(bits) => if Finite(bits) then Some(Float(bits)) else None
      case None => None
  }

  /** Every number has a meaning. */
  predicate InRange(t: Tree, floats: Floats)
    requires TreeOk(t)
  {
    match t
    case NumberTree(n) => NumberMeaning(n, floats).Some?
    case ArrayTree(_, items) => forall i :: 0 <= i < |items| ==> ItemOk(items[i]) && InRange(items[i].value, floats)
    case ObjectTree(_, members) =>
      forall i :: 0 <= i < |members| ==> MemberOk(members[i]) && InRange(members[i].value, floats)
    case _ => true
  }

  function Meaning(t: Tree, floats: Floats): Json
    requires TreeOk(t) && InRange(t, floats)
  {
    match t
    case NullTree => Null
    case TrueTree => Bool(true)
    case FalseTree => Bool(false)
    case NumberTree(n) => NumberMeaning(n, floats).value
    case StringTree(pieces) => Text(PiecesMeaning(pieces))
    case ArrayTree(_, items) => Array(ItemsMeaning(items, floats))
    case ObjectTree(_, members) => Object(InsertAll([], MembersMeaning(members, floats)))
  }

  ghost predicate ItemsFine(items: seq<Item>, floats: Floats) {
    forall i :: 0 <= i < |items| ==> ItemOk(items[i]) && InRange(items[i].value, floats)
  }

  ghost predicate MembersFine(members: seq<Member>, floats: Floats) {
    forall i :: 0 <= i < |members| ==> MemberOk(members[i]) && InRange(members[i].value, floats)
  }

  function ItemsMeaning(items: seq<Item>, floats: Floats): seq<Json>
    requires ItemsFine(items, floats)
  {
    if items == [] then [] else [Meaning(items[0].value, floats)] + ItemsMeaning(items[1..], floats)
  }

  function MembersMeaning(members: seq<Member>, floats: Floats): seq<Entry>
    requires MembersFine(members, floats)
  {
    if members == [] then []
    else [Entry(PiecesMeaning(members[0].key), Meaning(members[0].value, floats))] + MembersMeaning(members[1..], floats)
  }

  // ----- nesting -----

  function TreeDepth(t: Tree): nat {
    match t
    case ArrayTree(_, items) => 1 + TreesDepth(items)
    case ObjectTree(_, members) => 1 + MembersDepth(members)
    case _ => 0
  }

  function TreesDepth(items: seq<Item>): nat {
    if items == [] then 0 else Max(TreeDepth(items[0].value), TreesDepth(items[1..]))
  }

  function MembersDepth(members: seq<Member>): nat {
    if members == [] then 0 else Max(TreeDepth(members[0].value), MembersDepth(members[1..]))
  }
}
