/** The reader accepts the grammar of RFC 8259 and nothing else, and reads back what the writer writes. */
module JsonTheorems {
  import opened Options
  import opened Utf8
  import opened JsonValue
  import opened JsonGrammar
  import opened JsonParser
  import opened JsonTokens
  import JsonSoundness
  import JsonCompleteness
  import W = JsonWriter

  // ----- the grammar -----

  /** The document is of the grammar, within the limits, has this text and means `v`. */
  ghost predicate Denotes(d: Document, text: Bytes, v: Json, floats: Floats) {
    && DocumentOk(d) && PrintDocument(d) == text && TreeDepth(d.value) <= LIMIT
    && InRange(d.value, floats) && Meaning(d.value, floats) == v
  }

  lemma AcceptsTheGrammar(text: Bytes, v: Json, floats: Floats)
    ensures Parse(text, floats) == Ok(v, |text|) <==> exists d :: Denotes(d, text, v, floats)
  {
    if Parse(text, floats).Ok? {
      var d := JsonSoundness.ParseSound(text, floats);
      assert Denotes(d, text, Parse(text, floats).value, floats);
    }
    forall d | Denotes(d, text, v, floats) ensures Parse(text, floats) == Ok(v, |text|) {
      JsonCompleteness.ParseComplete(d, floats);
    }
  }

  /** No text of the grammar has two meanings. */
  lemma GrammarIsUnambiguous(d: Document, e: Document, v: Json, w: Json, text: Bytes, floats: Floats)
    requires Denotes(d, text, v, floats) && Denotes(e, text, w, floats)
    ensures v == w
  {
    AcceptsTheGrammar(text, v, floats);
    AcceptsTheGrammar(text, w, floats);
  }

  // ----- the round trip -----

  /** What the writer writes is read back, with `null` for infinities and NaNs, or refused for its nesting. */
  lemma ReadsWhatIsWritten(v: Json, floats: Floats)
    requires Proper(v) && W.FloatsOk(floats)
    ensures var text := W.Write(v, floats);
            if Depth(v) <= LIMIT then Parse(text, floats) == Ok(W.Nulled(v), |text|)
            else JsonCompleteness.Limited(Parse(text, floats))
  {
    var d := Document([], W.TreeOf(v, floats), []);
    W.TreeRepresents(v, floats);
    assert PrintDocument(d) == W.Write(v, floats);
    JsonCompleteness.ParseComplete(d, floats);
  }

  /** The same value comes back just when it nests no deeper than 128 and holds no infinity and no NaN. */
  lemma RoundTrip(v: Json, floats: Floats)
    requires Proper(v) && W.FloatsOk(floats)
    ensures var text := W.Write(v, floats);
            Parse(text, floats) == Ok(v, |text|) <==> Depth(v) <= LIMIT && AllFinite(v)
  {
    ReadsWhatIsWritten(v, floats);
    W.NulledIsSame(v);
  }

  // ----- what is read can be written -----

  /** Behind an escape that is read there is a character boundary, and what it means is a character. */
  lemma EscapeValid(text: Bytes, pos: nat)
    requires Valid(text) && pos <= |text| && Escape(text, pos).Ok?
    ensures Valid(Escape(text, pos).value) && IsCharBoundary(text, Escape(text, pos).next)
  {
    if ShortEscape(text[pos]) {
      AfterAscii(text, pos + 1);
      OneByteValid(Unescape(text[pos]));
    } else {
      UnicodeValid(text, pos + 1, UnicodeEscape(text, pos + 1));
      AfterAscii(text, UnicodeEscape(text, pos + 1).next);
    }
  }

  lemma OneByteValid(b: byte)
    requires b < 0x80
    ensures Valid([b])
  {
    assert [b][1..] == [];
  }

  lemma UnicodeValid(text: Bytes, pos: nat, r: Parsed<Bytes>)
    requires pos <= |text| && r == UnicodeEscape(text, pos) && r.Ok?
    ensures Valid(r.value) && HexDigit(text[r.next - 1])
  {
    var first := Quad(text, pos, 4, 0);
    QuadEnds(text, pos);
    if HighSurrogate(first.value) {
      QuadEnds(text, first.next + 2);
      var second := Quad(text, first.next + 2, 4, 0);
      JoinedIsScalar(first.value, second.value);
      EncodeDecodes(Joined(first.value, second.value));
    } else {
      EncodeDecodes(first.value);
    }
  }

  lemma QuadEnds(text: Bytes, pos: nat)
    requires pos <= |text| && Quad(text, pos, 4, 0).Ok?
    ensures Quad(text, pos, 4, 0).next == pos + 4 && HexDigit(text[pos + 3])
  {
    QuadSound(text, pos);
    assert text[pos..pos + 4][3] == text[pos + 3];
  }

  /** A stretch of plain bytes up to an ASCII byte is cut on boundaries. */
  lemma StretchValid(text: Bytes, start: nat, pos: nat, value: Bytes)
    requires Valid(text) && Valid(value) && IsCharBoundary(text, start) && start <= pos < |text| && text[pos] < 0x80
    ensures IsCharBoundary(text, pos) && Valid(text[start..pos]) && Valid(value + text[start..pos])
  {
    SliceValid(text, start, pos);
    ConcatValid(value, text[start..pos]);
  }

  /** An escape is pushed between two stretches. */
  lemma EscapeStep(text: Bytes, start: nat, pos: nat, value: Bytes)
    requires Valid(text) && Valid(value) && IsCharBoundary(text, start) && start <= pos
    requires Sees(text, pos, BACKSLASH) && Escape(text, pos + 1).Ok?
    ensures var r := Escape(text, pos + 1);
            var read := value + text[start..pos] + r.value;
            && IsCharBoundary(text, r.next) && Valid(read) && read + text[r.next..r.next] == read
  {
    StretchValid(text, start, pos, value);
    EscapeValid(text, pos + 1);
    ConcatValid(value + text[start..pos], Escape(text, pos + 1).value);
  }

  /** Although the bytes of a character are read one by one, a string is cut between characters. */
  lemma {:induction false} CharsValid(text: Bytes, start: nat, pos: nat, value: Bytes)
    requires Valid(text) && Valid(value) && IsCharBoundary(text, start) && start <= pos <= |text|
    requires Chars(text, pos, value + text[start..pos]).Ok?
    ensures Valid(Chars(text, pos, value + text[start..pos]).value)
    decreases |text| - pos
  {
    if text[pos] == QUOTE {
      StretchValid(text, start, pos, value);
    } else if text[pos] == BACKSLASH {
      var r := Escape(text, pos + 1);
      EscapeStep(text, start, pos, value);
      CharsValid(text, r.next, r.next, value + text[start..pos] + r.value);
    } else {
      LastByte(text, start, pos);
      Regroup(value, text[start..pos], [text[pos]]);
      CharsValid(text, start, pos + 1, value);
    }
  }

  lemma StringValid(text: Bytes, pos: nat)
    requires Valid(text) && Sees(text, pos, QUOTE) && Chars(text, pos + 1, []).Ok?
    ensures Valid(Chars(text, pos + 1, []).value)
  {
    AfterAscii(text, pos + 1);
    assert [] + text[pos + 1..pos + 1] == [];
    CharsValid(text, pos + 1, pos + 1, []);
  }

  /** A value the program can hold and write, small enough below this depth. */
  ghost predicate Fine(v: Json, depth: nat) {
    Proper(v) && AllFinite(v) && depth + Depth(v) <= LIMIT
  }

  ghost predicate ValuesFine(items: seq<Json>, depth: nat) {
    forall i :: 0 <= i < |items| ==> Fine(items[i], depth)
  }

  ghost predicate EntriesFine(entries: seq<Entry>, depth: nat) {
    forall i :: 0 <= i < |entries| ==> Valid(entries[i].key) && Fine(entries[i].value, depth)
  }

  lemma {:induction false} InsertFine(entries: seq<Entry>, key: Bytes, value: Json, depth: nat)
    requires EntriesFine(entries, depth) && Valid(key) && Fine(value, depth)
    ensures EntriesFine(Insert(entries, key, value), depth)
  {
    if !(entries == [] || Less(key, entries[0].key) || key == entries[0].key) {
      InsertFine(entries[1..], key, value, depth);
    }
  }

  lemma {:induction false} InsertAllFine(entries: seq<Entry>, more: seq<Entry>, depth: nat)
    requires EntriesFine(entries, depth) && EntriesFine(more, depth)
    ensures EntriesFine(InsertAll(entries, more), depth)
    decreases |more|
  {
    if more == [] {
    } else {
      InsertFine(entries, more[0].key, more[0].value, depth);
      InsertAllFine(Insert(entries, more[0].key, more[0].value), more[1..], depth);
    }
  }

  lemma {:induction false} EntriesDepthBound(entries: seq<Entry>, depth: nat)
    requires EntriesFine(entries, depth) && depth <= LIMIT
    ensures depth + EntriesDepth(entries) <= LIMIT
  {
    if entries == [] {
    } else {
      EntriesDepthBound(entries[1..], depth);
    }
  }

  lemma {:induction false} ItemsDepthBound(items: seq<Json>, depth: nat)
    requires ValuesFine(items, depth) && depth <= LIMIT
    ensures depth + ItemsDepth(items) <= LIMIT
  {
    if items == [] {
    } else {
      ItemsDepthBound(items[1..], depth);
    }
  }

  lemma ObjectFine(entries: seq<Entry>, depth: nat)
    requires EntriesFine(entries, depth + 1) && depth < LIMIT
    ensures Fine(Object(InsertAll([], entries)), depth)
  {
    InsertAllFine([], entries, depth + 1);
    InsertAllSorted([], entries);
    EntriesDepthBound(InsertAll([], entries), depth + 1);
  }

  lemma ScalarFine(text: Bytes, pos: nat, depth: nat, floats: Floats)
    requires Valid(text) && pos < |text| && depth <= LIMIT && ValueAt(text, pos, depth, floats).Ok?
    requires text[pos] != OPEN_BRACE && text[pos] != OPEN_BRACKET
    ensures Fine(ValueAt(text, pos, depth, floats).value, depth)
  {
    if text[pos] == QUOTE {
      StringValid(text, pos);
    }
  }

  lemma ArrayFine(items: seq<Json>, depth: nat)
    requires ValuesFine(items, depth + 1) && depth < LIMIT
    ensures Fine(Array(items), depth)
  {
    ItemsDepthBound(items, depth + 1);
  }

  lemma {:induction false} ArrayReadFine(text: Bytes, pos: nat, depth: nat, floats: Floats)
    requires Valid(text) && Sees(text, pos, OPEN_BRACKET) && depth <= LIMIT && ValueAt(text, pos, depth, floats).Ok?
    ensures Fine(ValueAt(text, pos, depth, floats).value, depth)
    decreases |text| - pos, 0
  {
    if Sees(text, SkipSpace(text, pos + 1), CLOSE_BRACKET) {
      ArrayFine([], depth);
    } else {
      var r := Elements(text, pos + 1, depth + 1, [], floats);
      ElementsFine(text, pos + 1, depth + 1, [], r, floats);
      ArrayFine(r.value, depth);
    }
  }

  lemma {:induction false} ObjectReadFine(text: Bytes, pos: nat, depth: nat, floats: Floats)
    requires Valid(text) && Sees(text, pos, OPEN_BRACE) && depth <= LIMIT && ValueAt(text, pos, depth, floats).Ok?
    ensures Fine(ValueAt(text, pos, depth, floats).value, depth)
    decreases |text| - pos, 0
  {
    if Sees(text, SkipSpace(text, pos + 1), CLOSE_BRACE) {
      ObjectFine([], depth);
    } else {
      var r := Pairs(text, pos + 1, depth + 1, [], floats);
      PairsFine(text, pos + 1, depth + 1, [], r, floats);
      ObjectFine(r.value, depth);
    }
  }

  lemma {:induction false} ValueFine(text: Bytes, pos: nat, depth: nat, floats: Floats)
    requires Valid(text) && pos <= |text| && depth <= LIMIT && Value(text, pos, depth, floats).Ok?
    ensures Fine(Value(text, pos, depth, floats).value, depth)
    decreases |text| - pos, 1
  {
    var start := SkipSpace(text, pos);
    if text[start] == OPEN_BRACKET {
      ArrayReadFine(text, start, depth, floats);
    } else if text[start] == OPEN_BRACE {
      ObjectReadFine(text, start, depth, floats);
    } else {
      ScalarFine(text, start, depth, floats);
    }
  }

  /** The first element is read, and put behind those read so far. */
  ghost predicate FirstRead(text: Bytes, pos: nat, depth: nat, values: seq<Json>, more: seq<Json>, floats: Floats)
    requires pos <= |text|
  {
    var first := Value(text, pos, depth, floats);
    first.Ok? && more == values + [first.value]
  }

  /** The others are read as `r`. */
  ghost predicate ReadAs(text: Bytes, pos: nat, depth: nat, values: seq<Json>, r: Parsed<seq<Json>>, floats: Floats)
    requires pos <= |text|
  {
    r == Elements(text, pos, depth, values, floats)
  }

  lemma {:induction false} ElementsFine(text: Bytes, pos: nat, depth: nat, values: seq<Json>, r: Parsed<seq<Json>>,
                                        floats: Floats)
    requires Valid(text) && pos <= |text| && depth <= LIMIT && ValuesFine(values, depth)
    requires r.Ok? && ReadAs(text, pos, depth, values, r, floats)
    ensures ValuesFine(r.value, depth)
    decreases |text| - pos, 3
  {
    var more, end := ElementsSplit(text, pos, depth, values, r, floats);
    ElementFine(text, pos, depth, values, more, floats);
    if Sees(text, end, COMMA) {
      ElementsFine(text, end + 1, depth, more, r, floats);
    }
  }

  /** Elements that are read are the first one, and behind a comma the others. */
  lemma ElementsSplit(text: Bytes, pos: nat, depth: nat, values: seq<Json>, r: Parsed<seq<Json>>,
                                         floats: Floats) returns (more: seq<Json>, end: nat)
    requires pos <= |text| && r.Ok? && ReadAs(text, pos, depth, values, r, floats)
    ensures FirstRead(text, pos, depth, values, more, floats)
    ensures pos < end < |text|
    ensures Sees(text, end, COMMA) ==> ReadAs(text, end + 1, depth, more, r, floats)
    ensures !Sees(text, end, COMMA) ==> r.value == more
  {
    JsonCompleteness.ElementsRound(text, pos, depth, values, floats);
    var first := Value(text, pos, depth, floats);
    more, end := values + [first.value], SkipSpace(text, first.next);
  }

  lemma {:induction false} ElementFine(text: Bytes, pos: nat, depth: nat, values: seq<Json>, more: seq<Json>,
                                       floats: Floats)
    requires Valid(text) && pos <= |text| && depth <= LIMIT && ValuesFine(values, depth)
    requires FirstRead(text, pos, depth, values, more, floats)
    ensures ValuesFine(more, depth)
    decreases |text| - pos, 2
  {
    ValueFine(text, pos, depth, floats);
    ValuesFineConcat(values, Value(text, pos, depth, floats).value, depth);
  }

  lemma ValuesFineConcat(items: seq<Json>, last: Json, depth: nat)
    requires ValuesFine(items, depth) && Fine(last, depth)
    ensures ValuesFine(items + [last], depth)
  {
  }

  lemma {:induction false} MemberFine(text: Bytes, pos: nat, depth: nat, entries: seq<Entry>, more: seq<Entry>,
                                      floats: Floats)
    requires Valid(text) && pos <= |text| && depth <= LIMIT && EntriesFine(entries, depth)
    requires var first := MemberAt(text, pos, depth, floats); first.Ok? && more == entries + [first.value]
    ensures EntriesFine(more, depth)
    decreases |text| - pos, 2
  {
    KeyValid(text, pos);
    ValueFine(text, KeyAt(text, pos).next, depth, floats);
    EntriesFineConcat(entries, MemberAt(text, pos, depth, floats).value, depth);
  }

  lemma KeyValid(text: Bytes, pos: nat)
    requires Valid(text) && pos <= |text| && KeyAt(text, pos).Ok?
    ensures Valid(KeyAt(text, pos).value)
  {
    StringValid(text, SkipSpace(text, pos));
  }

  lemma {:induction false} PairsFine(text: Bytes, pos: nat, depth: nat, entries: seq<Entry>, r: Parsed<seq<Entry>>,
                                     floats: Floats)
    requires Valid(text) && pos <= |text| && depth <= LIMIT && EntriesFine(entries, depth)
    requires r == Pairs(text, pos, depth, entries, floats) && r.Ok?
    ensures EntriesFine(r.value, depth)
    decreases |text| - pos, 3
  {
    var more, end := PairsSplit(text, pos, depth, entries, r, floats);
    MemberFine(text, pos, depth, entries, more, floats);
    if Sees(text, end, COMMA) {
      PairsFine(text, end + 1, depth, more, r, floats);
    }
  }

  /** Members that are read are the first one, and behind a comma the others. */
  lemma PairsSplit(text: Bytes, pos: nat, depth: nat, entries: seq<Entry>, r: Parsed<seq<Entry>>,
                                      floats: Floats) returns (more: seq<Entry>, end: nat)
    requires pos <= |text| && r == Pairs(text, pos, depth, entries, floats) && r.Ok?
    ensures var first := MemberAt(text, pos, depth, floats); first.Ok? && more == entries + [first.value]
    ensures pos < end < |text|
    ensures Sees(text, end, COMMA) ==> r == Pairs(text, end + 1, depth, more, floats)
    ensures !Sees(text, end, COMMA) ==> r.value == more
  {
    JsonCompleteness.PairsRound(text, pos, depth, entries, floats);
    var first := MemberAt(text, pos, depth, floats);
    more, end := entries + [first.value], SkipSpace(text, first.next);
  }

  lemma EntriesFineConcat(entries: seq<Entry>, last: Entry, depth: nat)
    requires EntriesFine(entries, depth) && Valid(last.key) && Fine(last.value, depth)
    ensures EntriesFine(entries + [last], depth)
  {
  }

  /** Every value that is read is UTF-8 throughout, ordered, finite and within the depth limit. */
  lemma ReadsProperValues(text: Bytes, floats: Floats)
    requires Valid(text) && Parse(text, floats).Ok?
    ensures var v := Parse(text, floats).value; Proper(v) && AllFinite(v) && Depth(v) <= LIMIT
  {
    ValueFine(text, 0, 0, floats);
  }

  /** Writing what was read and reading it again changes nothing. */
  lemma RewritingIsStable(text: Bytes, floats: Floats)
    requires Valid(text) && Parse(text, floats).Ok? && W.FloatsOk(floats)
    ensures var v := Parse(text, floats).value;
            var again := W.Write(v, floats);
            Parse(again, floats) == Ok(v, |again|)
  {
    ReadsProperValues(text, floats);
    RoundTrip(Parse(text, floats).value, floats);
  }

  // ----- what is written is UTF-8 -----

  lemma {:induction false} AsciiTextValid(s: Bytes)
    requires forall i :: 0 <= i < |s| ==> s[i] < 0x80
    ensures Valid(s)
  {
    if s == [] {
    } else {
      AsciiTextValid(s[1..]);
    }
  }

  lemma {:induction false} WriteBytesConcat(a: Bytes, b: Bytes)
    ensures W.WriteBytes(a + b) == W.WriteBytes(a) + W.WriteBytes(b)
    decreases |a|
  {
    if a == [] {
      assert a + b == b;
    } else {
      assert (a + b)[1..] == a[1..] + b;
      WriteBytesConcat(a[1..], b);
    }
  }

  /** The bytes of a character outside ASCII are written as they are. */
  lemma {:induction false} WriteHighBytes(s: Bytes)
    requires forall i :: 0 <= i < |s| ==> s[i] >= 0x80
    ensures W.WriteBytes(s) == s
  {
    if s == [] {
    } else {
      WriteHighBytes(s[1..]);
      assert s == [s[0]] + s[1..];
    }
  }

  lemma {:induction false} WriteBytesValid(s: Bytes)
    requires Valid(s)
    ensures Valid(W.WriteBytes(s))
    decreases |s|
  {
    if s == [] {
    } else {
      var n := FrontLength(s);
      var front, rest := s[..n], s[n..];
      assert s == front + rest;
      WriteBytesConcat(front, rest);
      WriteBytesValid(rest);
      WriteFrontValid(s);
      ConcatValid(W.WriteBytes(front), W.WriteBytes(rest));
    }
  }

  lemma WriteFrontValid(s: Bytes)
    requires FrontLength(s) > 0
    ensures Valid(W.WriteBytes(s[..FrontLength(s)]))
  {
    var front := s[..FrontLength(s)];
    if FrontLength(s) == 1 {
      assert front == [s[0]] && front[1..] == [];
      AsciiTextValid(W.WriteByte(s[0]));
      assert W.WriteByte(s[0]) + [] == W.WriteByte(s[0]);
    } else {
      WriteHighBytes(front);
      FrontValid(s);
    }
  }

  lemma WriteStringValid(s: Bytes)
    requires Valid(s)
    ensures Valid(W.WriteString(s))
  {
    WriteBytesValid(s);
    EnclosedValid(QUOTE, W.WriteBytes(s), QUOTE);
  }

  lemma EnclosedValid(open: byte, s: Bytes, close: byte)
    requires Valid(s) && open < 0x80 && close < 0x80
    ensures Valid([open] + s + [close])
  {
    AsciiTextValid([open]);
    AsciiTextValid([close]);
    ConcatValid([open], s);
    ConcatValid([open] + s, [close]);
  }

  /** Two texts with an ASCII byte between them. */
  lemma JoinedValid(a: Bytes, b: byte, c: Bytes)
    requires Valid(a) && b < 0x80 && Valid(c)
    ensures Valid(a + [b] + c)
  {
    AsciiTextValid([b]);
    ConcatValid(a, [b]);
    ConcatValid(a + [b], c);
  }

  lemma NumberTextValid(n: Number)
    requires NumberOk(n)
    ensures Valid(PrintNumber(n))
  {
    AsciiTextValid((if n.negative then [MINUS] else []) + n.whole);
    AsciiTextValid(PrintFraction(n.fraction));
    AsciiTextValid(PrintExponent(n.exponent));
    ThreeValid((if n.negative then [MINUS] else []) + n.whole, PrintFraction(n.fraction), PrintExponent(n.exponent));
  }

  lemma ThreeValid(a: Bytes, b: Bytes, c: Bytes)
    requires Valid(a) && Valid(b) && Valid(c)
    ensures Valid(a + b + c)
  {
    ConcatValid(a, b);
    ConcatValid(a + b, c);
  }

  /** What is written is UTF-8, so the reader may be given it. */
  lemma {:induction false} WritesValidText(v: Json, floats: Floats)
    requires Proper(v) && W.FloatsOk(floats)
    ensures Valid(W.Write(v, floats))
    decreases v
  {
    match v
    case Integer(i) =>
      W.IntegerRoundTrip(i, floats);
      NumberTextValid(W.IntegerNumber(i));
    case Float(bits) =>
      AsciiTextValid(NULL);
      if Finite(bits) {
        NumberTextValid(W.FloatNumber(bits, floats));
      }
    case Text(text) => WriteStringValid(text);
    case Array(items) =>
      WritesValidItems(items, floats);
      EnclosedValid(OPEN_BRACKET, W.WriteItems(items, floats), CLOSE_BRACKET);
    case Object(entries) =>
      WritesValidEntries(entries, floats);
      EnclosedValid(OPEN_BRACE, W.WriteEntries(entries, floats), CLOSE_BRACE);
    case _ => AsciiTextValid(W.Write(v, floats));
  }

  lemma {:induction false} WritesValidItems(items: seq<Json>, floats: Floats)
    requires (forall i :: 0 <= i < |items| ==> Proper(items[i])) && W.FloatsOk(floats)
    ensures Valid(W.WriteItems(items, floats))
    decreases items
  {
    if items == [] {
    } else {
      WritesValidText(items[0], floats);
      WritesValidItems(items[1..], floats);
      JoinedValid(W.Write(items[0], floats), COMMA, W.WriteItems(items[1..], floats));
    }
  }

  lemma {:induction false} WritesValidEntries(entries: seq<Entry>, floats: Floats)
    requires (forall i :: 0 <= i < |entries| ==> Valid(entries[i].key) && Proper(entries[i].value)) && W.FloatsOk(floats)
    ensures Valid(W.WriteEntries(entries, floats))
    decreases entries
  {
    if entries == [] {
    } else {
      WriteStringValid(entries[0].key);
      WritesValidText(entries[0].value, floats);
      JoinedValid(W.WriteString(entries[0].key), COLON, W.Write(entries[0].value, floats));
      WritesValidEntries(entries[1..], floats);
      JoinedValid(W.WriteEntry(entries[0], floats), COMMA, W.WriteEntries(entries[1..], floats));
    }
  }
}
