/** The compact writer, and the tree of the grammar whose text it writes. */
module JsonWriter {
  import opened Options
  import opened Utf8
  import opened JsonValue
  import opened JsonGrammar

  // ----- texts -----

  /** A lower-case hex digit. */
  function HexByte(digit: nat): (b: byte)
    requires digit < 16
    ensures HexDigit(b) && HexDigitValue(b) == digit
  {
    if digit < 10 then 0x30 + digit else 0x61 + digit - 10
  }

  function WriteByte(b: byte): Bytes {
    match b
    case 0x22 => [BACKSLASH, QUOTE]
    case 0x5C => [BACKSLASH, BACKSLASH]
    case 0x08 => [BACKSLASH, 0x62]
    case 0x0C => [BACKSLASH, 0x66]
    case 0x0A => [BACKSLASH, 0x6E]
    case 0x0D => [BACKSLASH, 0x72]
    case 0x09 => [BACKSLASH, 0x74]
    case _ =>
      if b < 0x20 then [BACKSLASH, LETTER_U, ZERO, ZERO, HexByte(b / 16), HexByte(b % 16)] else [b]
  }

  function WriteBytes(text: Bytes): Bytes {
    if text == [] then [] else WriteByte(text[0]) + WriteBytes(text[1..])
  }

  function WriteString(text: Bytes): Bytes {
    [QUOTE] + WriteBytes(text) + [QUOTE]
  }

  function DecimalDigits(n: nat): Bytes {
    (if n < 10 then [] else DecimalDigits(n / 10)) + [0x30 + n % 10]
  }

  function WriteInteger(i: int): Bytes {
    if i < 0 then [MINUS] + DecimalDigits(-i) else DecimalDigits(i)
  }

  function Write(v: Json, floats: Floats): Bytes {
    match v
    case Null => NULL
    case Bool(flag) => if flag then TRUE else FALSE
    case Integer(i) => WriteInteger(i)
    case Float(bits) => if Finite(bits) then floats.format(bits) else NULL
    case Text(text) => WriteString(text)
    case Array(items) => [OPEN_BRACKET] + WriteItems(items, floats) + [CLOSE_BRACKET]
    case Object(entries) => [OPEN_BRACE] + WriteEntries(entries, floats) + [CLOSE_BRACE]
  }

  function WriteItems(items: seq<Json>, floats: Floats): Bytes {
    if items == [] then []
    else if |items| == 1 then Write(items[0], floats)
    else Write(items[0], floats) + [COMMA] + WriteItems(items[1..], floats)
  }

  function WriteEntry(e: Entry, floats: Floats): Bytes {
    WriteString(e.key) + [COLON] + Write(e.value, floats)
  }

  function WriteEntries(entries: seq<Entry>, floats: Floats): Bytes {
    if entries == [] then []
    else if |entries| == 1 then WriteEntry(entries[0], floats)
    else WriteEntry(entries[0], floats) + [COMMA] + WriteEntries(entries[1..], floats)
  }

  // ----- trees -----

  /** The number a double is written as, with a fraction or an exponent. */
  ghost predicate FloatText(n: Number, bits: bv64, floats: Floats) {
    NumberOk(n) && (n.fraction.Some? || n.exponent.Some?) && PrintNumber(n) == floats.format(bits)
  }

  /** What is assumed of the conversions: a finite double is written as such a number, and read back. */
  ghost predicate FloatsOk(floats: Floats) {
    forall bits :: Finite(bits) ==>
      floats.parse(floats.format(bits)) == Some(bits) && exists n :: FloatText(n, bits, floats)
  }

  ghost function FloatNumber(bits: bv64, floats: Floats): (n: Number)
    requires FloatsOk(floats) && Finite(bits)
    ensures FloatText(n, bits, floats)
  {
    var n :| FloatText(n, bits, floats);
    n
  }

  function IntegerNumber(i: int): Number {
    Number(i < 0, DecimalDigits(if i < 0 then -i else i), None, None)
  }

  function PieceOf(b: byte): Piece {
    match b
    case 0x22 => Short(QUOTE)
    case 0x5C => Short(BACKSLASH)
    case 0x08 => Short(0x62)
    case 0x0C => Short(0x66)
    case 0x0A => Short(0x6E)
    case 0x0D => Short(0x72)
    case 0x09 => Short(0x74)
    case _ => if b < 0x20 then Code([ZERO, ZERO, HexByte(b / 16), HexByte(b % 16)]) else Plain(b)
  }

  function PiecesOf(text: Bytes): seq<Piece> {
    if text == [] then [] else [PieceOf(text[0])] + PiecesOf(text[1..])
  }

  ghost function TreeOf(v: Json, floats: Floats): Tree
    requires FloatsOk(floats)
  {
    match v
    case Null => NullTree
    case Bool(flag) => if flag then TrueTree else FalseTree
    case Integer(i) => NumberTree(IntegerNumber(i))
    case Float(bits) => if Finite(bits) then NumberTree(FloatNumber(bits, floats)) else NullTree
    case Text(text) => StringTree(PiecesOf(text))
    case Array(items) => ArrayTree([], ItemsOf(items, floats))
    case Object(entries) => ObjectTree([], MembersOf(entries, floats))
  }

  ghost function ItemsOf(items: seq<Json>, floats: Floats): seq<Item>
    requires FloatsOk(floats)
  {
    if items == [] then [] else [Item([], TreeOf(items[0], floats), [])] + ItemsOf(items[1..], floats)
  }

  ghost function MemberOf(e: Entry, floats: Floats): Member
    requires FloatsOk(floats)
  {
    Member([], PiecesOf(e.key), [], [], TreeOf(e.value, floats), [])
  }

  ghost function MembersOf(entries: seq<Entry>, floats: Floats): seq<Member>
    requires FloatsOk(floats)
  {
    if entries == [] then [] else [MemberOf(entries[0], floats)] + MembersOf(entries[1..], floats)
  }

  // ----- strings and integers -----

  lemma HexAppend(s: Bytes, b: byte)
    requires (forall i :: 0 <= i < |s| ==> HexDigit(s[i])) && HexDigit(b)
    ensures HexValue(s + [b]) == HexValue(s) * 16 + HexDigitValue(b)
  {
    assert (s + [b])[..|s|] == s;
  }

  lemma HexOfByte(b: byte)
    ensures var hex := [ZERO, ZERO, HexByte(b / 16), HexByte(b % 16)]; HexQuad(hex) && HexValue(hex) == b
  {
    HexAppend([], ZERO);
    HexAppend([ZERO], ZERO);
    HexAppend([ZERO, ZERO], HexByte(b / 16));
    HexAppend([ZERO, ZERO, HexByte(b / 16)], HexByte(b % 16));
    assert [] + [ZERO] == [ZERO] && [ZERO] + [ZERO] == [ZERO, ZERO];
    assert [ZERO, ZERO] + [HexByte(b / 16)] == [ZERO, ZERO, HexByte(b / 16)];
    assert [ZERO, ZERO, HexByte(b / 16)] + [HexByte(b % 16)] == [ZERO, ZERO, HexByte(b / 16), HexByte(b % 16)];
  }

  /** A byte is written as a piece that means this byte. */
  lemma PieceOfByte(b: byte)
    ensures PieceOk(PieceOf(b)) && PrintPiece(PieceOf(b)) == WriteByte(b) && PieceMeaning(PieceOf(b)) == [b]
  {
    HexOfByte(b);
  }

  lemma {:induction false} StringOfText(text: Bytes)
    ensures PiecesOk(PiecesOf(text))
    ensures PrintPieces(PiecesOf(text)) == WriteBytes(text) && PiecesMeaning(PiecesOf(text)) == text
  {
    if text == [] {
    } else {
      PieceOfByte(text[0]);
      StringOfText(text[1..]);
      var pieces := PiecesOf(text);
      assert pieces[1..] == PiecesOf(text[1..]);
      assert text == [text[0]] + text[1..];
    }
  }

  lemma DigitsAppend(s: Bytes, b: byte)
    requires Digits(s) && Digit(b)
    ensures Digits(s + [b]) && DigitsValue(s + [b]) == DigitsValue(s) * 10 + (b - 0x30)
  {
    assert (s + [b])[..|s|] == s;
  }

  /** Decimal digits without leading zero, worth the number. */
  lemma {:induction false} DecimalRoundTrip(n: nat)
    ensures WholeOk(DecimalDigits(n)) && DigitsValue(DecimalDigits(n)) == n
    ensures n > 0 ==> DecimalDigits(n)[0] != ZERO
  {
    if n < 10 {
      assert [] + [0x30 + n] == [0x30 + n];
      DigitsAppend([], 0x30 + n);
    } else {
      DecimalRoundTrip(n / 10);
      DigitsAppend(DecimalDigits(n / 10), 0x30 + n % 10);
    }
  }

  lemma EmptyFront<T>(s: seq<T>)
    ensures [] + s == s
  {
  }

  lemma EmptyBehind(s: Bytes)
    ensures s + [] + [] == s
  {
  }

  lemma IntegerText(i: int)
    ensures NumberOk(IntegerNumber(i)) && PrintNumber(IntegerNumber(i)) == WriteInteger(i)
  {
    var n := IntegerNumber(i);
    DecimalRoundTrip(if i < 0 then -i else i);
    if i < 0 {
      EmptyBehind([MINUS] + n.whole);
    } else {
      EmptyFront(n.whole);
      EmptyBehind(n.whole);
    }
  }

  lemma IntegerRoundTrip(i: int, floats: Floats)
    requires MIN_INTEGER <= i <= MAX_INTEGER
    ensures NumberOk(IntegerNumber(i)) && PrintNumber(IntegerNumber(i)) == WriteInteger(i)
    ensures NumberMeaning(IntegerNumber(i), floats) == Some(Integer(i))
  {
    IntegerText(i);
    DecimalRoundTrip(if i < 0 then -i else i);
    assert WholeValue(IntegerNumber(i)) == i;
  }

  // ----- values -----

  /** The value with `null` for every infinity and NaN. */
  function Nulled(v: Json): Json {
    match v
    case Float(bits) => if Finite(bits) then v else Null
    case Array(items) => Array(NulledItems(items))
    case Object(entries) => Object(NulledEntries(entries))
    case _ => v
  }

  function NulledItems(items: seq<Json>): (r: seq<Json>)
    ensures |r| == |items|
  {
    if items == [] then [] else [Nulled(items[0])] + NulledItems(items[1..])
  }

  function NulledEntries(entries: seq<Entry>): (r: seq<Entry>)
    ensures |r| == |entries|
    ensures forall i :: 0 <= i < |r| ==> r[i].key == entries[i].key
  {
    if entries == [] then [] else [Entry(entries[0].key, Nulled(entries[0].value))] + NulledEntries(entries[1..])
  }

  predicate EntriesProper(entries: seq<Entry>) {
    forall i :: 0 <= i < |entries| ==> Proper(entries[i].value)
  }

  /** The tree writes the value, with nothing lost but infinities and NaNs. */
  ghost predicate Represents(t: Tree, v: Json, floats: Floats) {
    && TreeOk(t) && InRange(t, floats) && Meaning(t, floats) == Nulled(v)
    && Print(t) == Write(v, floats) && TreeDepth(t) == Depth(v)
  }

  lemma FloatRepresents(bits: bv64, floats: Floats)
    requires FloatsOk(floats)
    ensures Represents(TreeOf(Float(bits), floats), Float(bits), floats)
  {
    if Finite(bits) {
      var n := FloatNumber(bits, floats);
      assert FloatText(n, bits, floats);
      assert NumberMeaning(n, floats) == Some(Float(bits));
    }
  }

  lemma {:induction false} ArrayRepresents(items: seq<Json>, floats: Floats)
    requires Proper(Array(items)) && FloatsOk(floats)
    ensures Represents(TreeOf(Array(items), floats), Array(items), floats)
    decreases items, 1
  {
    ItemsRepresent(items, floats);
    assert [OPEN_BRACKET] + [] == [OPEN_BRACKET];
  }

  lemma {:induction false} TreeRepresents(v: Json, floats: Floats)
    requires Proper(v) && FloatsOk(floats)
    ensures Represents(TreeOf(v, floats), v, floats)
    decreases v
  {
    match v
    case Array(items) => ArrayRepresents(items, floats);
    case Object(entries) => ObjectRepresents(entries, floats);
    case Float(bits) => FloatRepresents(bits, floats);
    case Integer(i) => IntegerRepresents(i, floats);
    case Text(text) => TextRepresents(text, floats);
    case Bool(flag) => BoolRepresents(flag, floats);
    case Null => NullRepresents(floats);
  }

  lemma NullRepresents(floats: Floats)
    requires FloatsOk(floats)
    ensures Represents(TreeOf(Null, floats), Null, floats)
  {
  }

  lemma BoolRepresents(flag: bool, floats: Floats)
    requires FloatsOk(floats)
    ensures Represents(TreeOf(Bool(flag), floats), Bool(flag), floats)
  {
  }

  lemma IntegerRepresents(i: int, floats: Floats)
    requires Proper(Integer(i)) && FloatsOk(floats)
    ensures Represents(TreeOf(Integer(i), floats), Integer(i), floats)
  {
    IntegerRoundTrip(i, floats);
  }

  lemma TextRepresents(text: Bytes, floats: Floats)
    requires FloatsOk(floats)
    ensures Represents(TreeOf(Text(text), floats), Text(text), floats)
  {
    StringOfText(text);
  }

  lemma {:induction false} ItemsRepresent(items: seq<Json>, floats: Floats)
    requires (forall i :: 0 <= i < |items| ==> Proper(items[i])) && FloatsOk(floats)
    ensures ItemsFine(ItemsOf(items, floats), floats)
    ensures ItemsMeaning(ItemsOf(items, floats), floats) == NulledItems(items)
    ensures PrintItems(ItemsOf(items, floats)) == WriteItems(items, floats)
    ensures TreesDepth(ItemsOf(items, floats)) == ItemsDepth(items)
    decreases items, 0
  {
    if items == [] {
    } else {
      TreeRepresents(items[0], floats);
      ItemsRepresent(items[1..], floats);
      var all := ItemsOf(items, floats);
      assert all[1..] == ItemsOf(items[1..], floats);
      ItemAlone(all[0].value);
    }
  }

  lemma ItemAlone(t: Tree)
    ensures PrintItem(Item([], t, [])) == Print(t)
  {
    assert [] + Print(t) + [] == Print(t);
  }

  lemma MemberRepresents(e: Entry, floats: Floats)
    requires FloatsOk(floats) && Represents(TreeOf(e.value, floats), e.value, floats)
    ensures var m := MemberOf(e, floats);
            && MemberOk(m) && PiecesMeaning(m.key) == e.key && PrintMember(m) == WriteEntry(e, floats)
  {
    var m := MemberOf(e, floats);
    StringOfText(e.key);
    NoSpaces(PrintString(m.key), Print(m.value));
  }

  lemma NoSpaces(key: Bytes, value: Bytes)
    ensures [] + key + [] + [COLON] + [] + value + [] == key + [COLON] + value
  {
  }

  lemma {:induction false} MembersRepresent(entries: seq<Entry>, floats: Floats)
    requires EntriesProper(entries) && FloatsOk(floats)
    ensures MembersFine(MembersOf(entries, floats), floats)
    ensures MembersMeaning(MembersOf(entries, floats), floats) == NulledEntries(entries)
    ensures PrintMembers(MembersOf(entries, floats)) == WriteEntries(entries, floats)
    ensures MembersDepth(MembersOf(entries, floats)) == EntriesDepth(entries)
    decreases entries, 0
  {
    if entries == [] {
    } else {
      TreeRepresents(entries[0].value, floats);
      MemberRepresents(entries[0], floats);
      MembersRepresent(entries[1..], floats);
      var all := MembersOf(entries, floats);
      assert all[1..] == MembersOf(entries[1..], floats);
    }
  }

  lemma {:induction false} ObjectRepresents(entries: seq<Entry>, floats: Floats)
    requires Proper(Object(entries)) && FloatsOk(floats)
    ensures Represents(TreeOf(Object(entries), floats), Object(entries), floats)
    decreases entries, 1
  {
    MembersRepresent(entries, floats);
    ObjectOfMembers(MembersOf(entries, floats), entries, floats);
  }

  /** An object is represented when its members are. */
  lemma ObjectOfMembers(members: seq<Member>, entries: seq<Entry>, floats: Floats)
    requires Sorted(NulledEntries(entries)) && MembersFine(members, floats)
    requires MembersMeaning(members, floats) == NulledEntries(entries)
    requires PrintMembers(members) == WriteEntries(entries, floats) && MembersDepth(members) == EntriesDepth(entries)
    ensures Represents(ObjectTree([], members), Object(entries), floats)
  {
    SortedInsertion(NulledEntries(entries));
    assert [OPEN_BRACE] + [] == [OPEN_BRACE];
  }

  lemma SortedInsertion(entries: seq<Entry>)
    requires Sorted(entries)
    ensures InsertAll([], entries) == entries
  {
    EmptyFront(entries);
    InsertAllOfSorted([], entries);
  }

  /** Nothing is lost just when there is no infinity and no NaN. */
  lemma {:induction false} NulledIsSame(v: Json)
    ensures Nulled(v) == v <==> AllFinite(v)
    decreases v
  {
    match v
    case Array(items) => NulledItemsSame(items);
    case Object(entries) => NulledEntriesSame(entries);
    case _ =>
  }

  lemma {:induction false} NulledItemsSame(items: seq<Json>)
    ensures NulledItems(items) == items <==> AllFinite(Array(items))
    decreases items
  {
    if items == [] {
    } else {
      var first, rest := items[0], items[1..];
      NulledIsSame(first);
      NulledItemsSame(rest);
      assert items == [first] + rest;
      assert AllFinite(Array([first] + rest)) <==> AllFinite(first) && AllFinite(Array(rest)) by {
        assert forall i :: 0 <= i < |rest| ==> ([first] + rest)[i + 1] == rest[i];
      }
    }
  }

  lemma {:induction false} NulledEntriesSame(entries: seq<Entry>)
    ensures NulledEntries(entries) == entries <==> AllFinite(Object(entries))
    decreases entries
  {
    if entries == [] {
    } else {
      var first, rest := entries[0], entries[1..];
      NulledIsSame(first.value);
      NulledEntriesSame(rest);
      assert entries == [first] + rest;
      assert AllFinite(Object([first] + rest)) <==> AllFinite(first.value) && AllFinite(Object(rest)) by {
        assert forall i :: 0 <= i < |rest| ==> ([first] + rest)[i + 1] == rest[i];
      }
    }
  }
}
