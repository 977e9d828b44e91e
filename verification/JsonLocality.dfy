/** The reader looks at nothing behind the place of its answer: texts that agree up to there are answered alike. */
module JsonLocality {
  import opened Options
  import opened Utf8
  import opened JsonValue
  import opened JsonGrammar
  import opened JsonParser
  import opened JsonTokens
  import opened JsonFaults

  /** The first `n` bytes are the same, and so is the end of the text if it comes before. */
  ghost predicate Same(a: Bytes, b: Bytes, n: nat) {
    (|a| == |b| || (|a| >= n && |b| >= n)) && forall i :: 0 <= i < n && i < |a| ==> a[i] == b[i]
  }

  /** How much of the text an answer depends on: the byte behind what was read, and for an error the longest literal. */
  function Reach<T>(r: Parsed<T>): nat {
    if r.Ok? then r.next + 1 else r.at + 5
  }

  lemma Mirrored(a: Bytes, b: Bytes, n: nat)
    requires Same(a, b, n)
    ensures Same(b, a, n)
  {
  }

  lemma Fits(a: Bytes, b: Bytes, n: nat, pos: nat)
    requires Same(a, b, n) && pos <= n && pos <= |a|
    ensures pos <= |b|
  {
  }

  lemma AtLocal(a: Bytes, b: Bytes, n: nat, pos: nat, s: Bytes)
    requires Same(a, b, n) && pos + |s| <= n
    ensures At(a, pos, s) <==> At(b, pos, s)
  {
    if At(a, pos, s) {
      SliceLocal(a, b, n, pos, s);
    } else if At(b, pos, s) {
      Mirrored(a, b, n);
      SliceLocal(b, a, n, pos, s);
    }
  }

  lemma SliceLocal(a: Bytes, b: Bytes, n: nat, pos: nat, s: Bytes)
    requires Same(a, b, n) && pos + |s| <= n && At(a, pos, s)
    ensures At(b, pos, s)
  {
    Fits(a, b, n, pos + |s|);
    SameSlice(a, b, n, pos, pos + |s|);
  }

  lemma SameSlice(a: Bytes, b: Bytes, n: nat, start: nat, end: nat)
    requires Same(a, b, n) && start <= end <= n && end <= |a| && end <= |b|
    ensures a[start..end] == b[start..end]
  {
  }

  lemma {:induction false} SkipSpaceLocal(a: Bytes, b: Bytes, n: nat, pos: nat)
    requires pos <= |a| && pos <= |b| && Same(a, b, n) && SkipSpace(a, pos) < n
    ensures SkipSpace(b, pos) == SkipSpace(a, pos)
    decreases |a| - pos
  {
    assert SeesSpace(a, pos) <==> SeesSpace(b, pos);
    if SeesSpace(a, pos) {
      SkipSpaceLocal(a, b, n, pos + 1);
    }
  }

  lemma {:induction false} SkipDigitsLocal(a: Bytes, b: Bytes, n: nat, pos: nat)
    requires pos <= |a| && pos <= |b| && Same(a, b, n) && SkipDigits(a, pos) < n
    ensures SkipDigits(b, pos) == SkipDigits(a, pos)
    decreases |a| - pos
  {
    assert SeesDigit(a, pos) <==> SeesDigit(b, pos);
    if SeesDigit(a, pos) {
      SkipDigitsLocal(a, b, n, pos + 1);
    }
  }

  /** Both texts see the same byte, or both have ended. */
  lemma SeesLocal(a: Bytes, b: Bytes, n: nat, pos: nat, c: byte)
    requires Same(a, b, n) && pos < n
    ensures Sees(a, pos, c) <==> Sees(b, pos, c)
  {
  }

  /** The texts are the same up to the end of the first, and then so is the second. */
  lemma SameEnd(a: Bytes, b: Bytes, n: nat)
    requires Same(a, b, n) && |a| < n
    ensures a == b
  {
  }

  // ----- strings -----

  lemma {:induction false} QuadLocal(a: Bytes, b: Bytes, n: nat, pos: nat, count: nat, value: nat, floats: Floats)
    requires pos <= |a| && pos <= |b| && Same(a, b, n) && Reach(Quad(a, pos, count, value)) <= n
    ensures Quad(b, pos, count, value) == Quad(a, pos, count, value)
    decreases count
  {
    if count > 0 {
      QuadFault(a, pos, count, value, floats);
      assert SeesHexDigit(a, pos) <==> SeesHexDigit(b, pos);
      if SeesHexDigit(a, pos) {
        QuadLocal(a, b, n, pos + 1, count - 1, value * 16 + HexDigitValue(a[pos]), floats);
      }
    }
  }

  lemma LowLocal(a: Bytes, b: Bytes, n: nat, pos: nat, first: nat, floats: Floats)
    requires pos <= |a| && pos <= |b| && HighSurrogate(first) && Same(a, b, n) && Reach(LowEscape(a, pos, first)) <= n
    ensures LowEscape(b, pos, first) == LowEscape(a, pos, first)
  {
    LowFault(a, pos, first, floats);
    SeesLocal(a, b, n, pos, BACKSLASH);
    if Sees(a, pos, BACKSLASH) {
      SeesLocal(a, b, n, pos + 1, LETTER_U);
      if Sees(a, pos + 1, LETTER_U) {
        QuadLocal(a, b, n, pos + 2, 4, 0, floats);
      }
    }
  }

  lemma UnicodeLocal(a: Bytes, b: Bytes, n: nat, pos: nat, floats: Floats)
    requires pos <= |a| && pos <= |b| && Same(a, b, n) && Reach(UnicodeEscape(a, pos)) <= n
    ensures UnicodeEscape(b, pos) == UnicodeEscape(a, pos)
  {
    var first := Quad(a, pos, 4, 0);
    if first.Ok? && HighSurrogate(first.value) {
      LowFault(a, first.next, first.value, floats);
      QuadLocal(a, b, n, pos, 4, 0, floats);
      Fits(a, b, n, first.next);
      LowLocal(a, b, n, first.next, first.value, floats);
    } else {
      QuadLocal(a, b, n, pos, 4, 0, floats);
    }
  }

  lemma EscapeLocal(a: Bytes, b: Bytes, n: nat, pos: nat, floats: Floats)
    requires pos <= |a| && pos <= |b| && Same(a, b, n) && Reach(Escape(a, pos)) <= n
    ensures Escape(b, pos) == Escape(a, pos)
  {
    EscapeFault(a, pos, floats);
    if pos == |a| {
      SameEnd(a, b, n);
    } else {
      assert a[pos] == b[pos];
      if a[pos] == LETTER_U {
        LongEscape(a, pos);
        LongEscape(b, pos);
        UnicodeLocal(a, b, n, pos + 1, floats);
      } else {
        NoLongEscape(a, b, pos);
      }
    }
  }

  lemma LongEscape(text: Bytes, pos: nat)
    requires Sees(text, pos, LETTER_U)
    ensures Escape(text, pos) == UnicodeEscape(text, pos + 1)
  {
  }

  lemma NoLongEscape(a: Bytes, b: Bytes, pos: nat)
    requires pos < |a| && pos < |b| && a[pos] == b[pos] && a[pos] != LETTER_U
    ensures Escape(b, pos) == Escape(a, pos)
  {
  }

  lemma {:induction false} CharsLocal(a: Bytes, b: Bytes, n: nat, pos: nat, value: Bytes, floats: Floats)
    requires pos <= |a| && pos <= |b| && Same(a, b, n) && Reach(Chars(a, pos, value)) <= n
    ensures Chars(b, pos, value) == Chars(a, pos, value)
    decreases |a| - pos
  {
    CharsFault(a, pos, value, floats);
    if pos == |a| {
      SameEnd(a, b, n);
    } else {
      assert a[pos] == b[pos];
      if a[pos] == BACKSLASH {
        var r := Escape(a, pos + 1);
        if r.Ok? {
          CharsFault(a, r.next, value + r.value, floats);
          EscapeLocal(a, b, n, pos + 1, floats);
          Fits(a, b, n, r.next);
          CharsLocal(a, b, n, r.next, value + r.value, floats);
        } else {
          EscapeLocal(a, b, n, pos + 1, floats);
        }
      } else if a[pos] != QUOTE && a[pos] >= 0x20 {
        CharsLocal(a, b, n, pos + 1, value + [a[pos]], floats);
      }
    }
  }

  // ----- numbers -----

  lemma WholeLocal(a: Bytes, b: Bytes, n: nat, pos: nat)
    requires pos < |a| && pos < |b| && Same(a, b, n) && Reach(Whole(a, pos)) <= n
    ensures Whole(b, pos) == Whole(a, pos)
  {
    var start := if a[pos] == MINUS then pos + 1 else pos;
    assert a[pos] == b[pos];
    assert SeesDigit(a, start) <==> SeesDigit(b, start);
    SeesLocal(a, b, n, start, ZERO);
    if !Sees(a, start, ZERO) && SeesDigit(a, start) {
      SkipDigitsLocal(a, b, n, start + 1);
    }
  }

  lemma FractionLocal(a: Bytes, b: Bytes, n: nat, pos: nat)
    requires pos <= |a| && pos <= |b| && Same(a, b, n) && Reach(Fraction(a, pos)) <= n
    ensures Fraction(b, pos) == Fraction(a, pos)
  {
    SeesLocal(a, b, n, pos, DOT);
    if Sees(a, pos, DOT) {
      SkipDigitsLocal(a, b, n, pos + 1);
    }
  }

  lemma PowerLocal(a: Bytes, b: Bytes, n: nat, pos: nat)
    requires pos <= |a| && pos <= |b| && Same(a, b, n) && Reach(Power(a, pos)) <= n
    ensures Power(b, pos) == Power(a, pos)
  {
    SeesLocal(a, b, n, pos, 0x65);
    SeesLocal(a, b, n, pos, 0x45);
    if Sees(a, pos, 0x65) || Sees(a, pos, 0x45) {
      SeesLocal(a, b, n, pos + 1, PLUS);
      SeesLocal(a, b, n, pos + 1, MINUS);
      SkipDigitsLocal(a, b, n, SkipSign(a, pos + 1));
    }
  }

  /** The parts of a number, and where each ends. */
  lemma NumberEnds(text: Bytes, pos: nat, floats: Floats)
    requires pos < |text|
    ensures var r, whole := Reach(NumberAt(text, pos, floats)), Whole(text, pos);
            && Reach(whole) <= r
            && (whole.Ok? ==>
                  && Reach(Fraction(text, whole.next)) <= r
                  && (Fraction(text, whole.next).Ok? ==> Reach(Power(text, Fraction(text, whole.next).next)) <= r))
  {
  }

  lemma NumberLocal(a: Bytes, b: Bytes, n: nat, pos: nat, floats: Floats)
    requires pos < |a| && pos < |b| && Same(a, b, n) && Reach(NumberAt(a, pos, floats)) <= n
    ensures NumberAt(b, pos, floats) == NumberAt(a, pos, floats)
  {
    NumberEnds(a, pos, floats);
    var whole := Whole(a, pos);
    WholeLocal(a, b, n, pos);
    if whole.Ok? {
      Fits(a, b, n, whole.next);
      var fraction := Fraction(a, whole.next);
      FractionLocal(a, b, n, whole.next);
      if fraction.Ok? {
        Fits(a, b, n, fraction.next);
        PowerLocal(a, b, n, fraction.next);
        var power := Power(a, fraction.next);
        if power.Ok? {
          Fits(a, b, n, power.next);
          SameSlice(a, b, n, pos, power.next);
        }
      }
    }
  }

  // ----- values -----

  lemma {:induction false} ValueLocal(a: Bytes, b: Bytes, n: nat, pos: nat, depth: nat, floats: Floats)
    requires pos <= |a| && pos <= |b| && Same(a, b, n) && Reach(Value(a, pos, depth, floats)) <= n
    ensures Value(b, pos, depth, floats) == Value(a, pos, depth, floats)
    decreases |a| - pos, 1
  {
    var start := SkipSpace(a, pos);
    SkipSpaceStops(a, pos);
    ValueAtFault(a, start, depth, floats);
    SkipSpaceLocal(a, b, n, pos);
    ValueAtLocal(a, b, n, start, depth, floats);
  }

  lemma LiteralLocal(a: Bytes, b: Bytes, n: nat, pos: nat, depth: nat, floats: Floats)
    requires pos < |a| && pos < |b| && Same(a, b, n) && Reach(ValueAt(a, pos, depth, floats)) <= n
    requires !Sees(a, pos, OPEN_BRACE) && !Sees(a, pos, OPEN_BRACKET) && !Sees(a, pos, QUOTE)
    requires !Sees(a, pos, MINUS) && !SeesDigit(a, pos)
    ensures ValueAt(b, pos, depth, floats) == ValueAt(a, pos, depth, floats)
  {
    assert a[pos] == b[pos];
    if At(a, pos, TRUE) {
      AtLocal(a, b, n, pos, TRUE);
    } else if At(a, pos, FALSE) {
      AtLocal(a, b, n, pos, FALSE);
      AtFirst(a, pos, FALSE);
      assert !At(b, pos, TRUE) by { if At(b, pos, TRUE) { AtFirst(b, pos, TRUE); } }
    } else if At(a, pos, NULL) {
      AtLocal(a, b, n, pos, NULL);
      AtFirst(a, pos, NULL);
      assert !At(b, pos, TRUE) by { if At(b, pos, TRUE) { AtFirst(b, pos, TRUE); } }
      assert !At(b, pos, FALSE) by { if At(b, pos, FALSE) { AtFirst(b, pos, FALSE); } }
    } else {
      AtLocal(a, b, n, pos, TRUE);
      AtLocal(a, b, n, pos, FALSE);
      AtLocal(a, b, n, pos, NULL);
    }
  }

  lemma {:induction false} ValueAtLocal(a: Bytes, b: Bytes, n: nat, pos: nat, depth: nat, floats: Floats)
    requires pos <= |a| && pos <= |b| && !SeesSpace(a, pos)
    requires Same(a, b, n) && Reach(ValueAt(a, pos, depth, floats)) <= n
    ensures ValueAt(b, pos, depth, floats) == ValueAt(a, pos, depth, floats)
    decreases |a| - pos, 0
  {
    ValueAtFault(a, pos, depth, floats);
    if pos == |a| {
      SameEnd(a, b, n);
    } else {
      assert a[pos] == b[pos];
      if Sees(a, pos, OPEN_BRACE) {
        if depth < LIMIT { ObjectLocal(a, b, n, pos + 1, depth + 1, floats); }
      } else if Sees(a, pos, OPEN_BRACKET) {
        if depth < LIMIT { ArrayLocal(a, b, n, pos + 1, depth + 1, floats); }
      } else if Sees(a, pos, QUOTE) {
        CharsLocal(a, b, n, pos + 1, [], floats);
      } else if Sees(a, pos, MINUS) || SeesDigit(a, pos) {
        NumberLocal(a, b, n, pos, floats);
      } else {
        LiteralLocal(a, b, n, pos, depth, floats);
      }
    }
  }

  /** An answer lies behind this position. */
  predicate Ahead<T>(pos: nat, r: Parsed<T>) {
    pos <= if r.Ok? then r.next else r.at
  }

  // ----- arrays -----

  /** What an array does behind a value. */
  ghost predicate ElementsGo(text: Bytes, end: nat, depth: nat, values: seq<Json>, floats: Floats, x: Parsed<seq<Json>>)
    requires end <= |text|
  {
    x == if Sees(text, end, CLOSE_BRACKET) then Ok(values, end + 1)
         else if Sees(text, end, COMMA) then Elements(text, end + 1, depth, values, floats)
         else Error(ExpectedCommaOrBracket, end)
  }

  lemma ElementsTurn(text: Bytes, pos: nat, depth: nat, values: seq<Json>, floats: Floats, r: Parsed<Json>, end: nat)
    requires pos <= |text| && r == Value(text, pos, depth, floats) && r.Ok? && end == SkipSpace(text, r.next)
    ensures ElementsGo(text, end, depth, values + [r.value], floats, Elements(text, pos, depth, values, floats))
  {
  }

  lemma ElementsGoAhead(text: Bytes, end: nat, depth: nat, values: seq<Json>, floats: Floats, x: Parsed<seq<Json>>)
    requires end <= |text| && ElementsGo(text, end, depth, values, floats, x)
    ensures Ahead(end, x)
  {
    if Sees(text, end, COMMA) {
      ElementsFault(text, end + 1, depth, values, floats);
    }
  }

  lemma ElementsFail(text: Bytes, pos: nat, depth: nat, values: seq<Json>, floats: Floats)
    requires pos <= |text| && Value(text, pos, depth, floats).Error?
    ensures var r := Value(text, pos, depth, floats);
            Elements(text, pos, depth, values, floats) == Error(r.fault, r.at)
  {
  }

  lemma ElementsAhead(text: Bytes, pos: nat, depth: nat, values: seq<Json>, floats: Floats)
    requires pos <= |text|
    ensures Ahead(SkipSpace(text, pos), Elements(text, pos, depth, values, floats))
  {
    SkipSpaceStops(text, pos);
    ValueAtFault(text, SkipSpace(text, pos), depth, floats);
    ValueReach(text, pos, depth, values, floats, Value(text, pos, depth, floats));
    if Value(text, pos, depth, floats).Error? {
      ElementsFail(text, pos, depth, values, floats);
    }
  }

  lemma {:induction false} ArrayLocal(a: Bytes, b: Bytes, n: nat, pos: nat, depth: nat, floats: Floats)
    requires pos <= |a| && pos <= |b| && Same(a, b, n) && Reach(ArrayAt(a, pos, depth, floats)) <= n
    ensures ArrayAt(b, pos, depth, floats) == ArrayAt(a, pos, depth, floats)
    decreases |a| - pos, 4
  {
    var start := SkipSpace(a, pos);
    ElementsAhead(a, pos, depth, [], floats);
    SkipSpaceLocal(a, b, n, pos);
    SeesLocal(a, b, n, start, CLOSE_BRACKET);
    if !Sees(a, start, CLOSE_BRACKET) {
      ElementsLocal(a, b, n, pos, depth, [], floats);
    }
  }

  ghost predicate ElementsSame(a: Bytes, b: Bytes, pos: nat, depth: nat, values: seq<Json>, floats: Floats)
    requires pos <= |a| && pos <= |b|
  {
    Elements(b, pos, depth, values, floats) == Elements(a, pos, depth, values, floats)
  }

  /** The answer lies behind the first value, and behind the whitespace that follows it. */
  lemma ValueReach(text: Bytes, pos: nat, depth: nat, values: seq<Json>, floats: Floats, r: Parsed<Json>)
    requires pos <= |text| && r == Value(text, pos, depth, floats)
    ensures Reach(r) <= Reach(Elements(text, pos, depth, values, floats))
    ensures r.Ok? ==> Ahead(SkipSpace(text, r.next), Elements(text, pos, depth, values, floats))
  {
    if r.Ok? {
      var end := SkipSpace(text, r.next);
      ElementsTurn(text, pos, depth, values, floats, r, end);
      ElementsGoAhead(text, end, depth, values + [r.value], floats, Elements(text, pos, depth, values, floats));
    } else {
      ElementsFail(text, pos, depth, values, floats);
    }
  }

  lemma {:induction false} ElementsLocal(a: Bytes, b: Bytes, n: nat, pos: nat, depth: nat, values: seq<Json>,
                                         floats: Floats)
    requires pos <= |a| && pos <= |b| && Same(a, b, n) && Reach(Elements(a, pos, depth, values, floats)) <= n
    ensures ElementsSame(a, b, pos, depth, values, floats)
    decreases |a| - pos, 3
  {
    var r := Value(a, pos, depth, floats);
    ValueReach(a, pos, depth, values, floats, r);
    ValueLocal(a, b, n, pos, depth, floats);
    if r.Ok? {
      var end := SkipSpace(a, r.next);
      NextLocal(a, b, n, r.next, end);
      ElementsTurn(a, pos, depth, values, floats, r, end);
      ElementsTurn(b, pos, depth, values, floats, r, end);
      ElementsOnward(a, b, n, end, depth, values + [r.value], floats,
                     Elements(a, pos, depth, values, floats), Elements(b, pos, depth, values, floats));
    } else {
      ElementsFail(a, pos, depth, values, floats);
      ElementsFail(b, pos, depth, values, floats);
    }
  }

  lemma {:induction false} ElementsOnward(a: Bytes, b: Bytes, n: nat, end: nat, depth: nat, values: seq<Json>,
                                          floats: Floats, x: Parsed<seq<Json>>, y: Parsed<seq<Json>>)
    requires end <= |a| && end <= |b| && Same(a, b, n) && end < n && Reach(x) <= n
    requires ElementsGo(a, end, depth, values, floats, x) && ElementsGo(b, end, depth, values, floats, y)
    ensures x == y
    decreases |a| - end
  {
    SeesLocal(a, b, n, end, CLOSE_BRACKET);
    SeesLocal(a, b, n, end, COMMA);
    if Sees(a, end, COMMA) && !Sees(a, end, CLOSE_BRACKET) {
      ElementsLocal(a, b, n, end + 1, depth, values, floats);
    }
  }

  /** Behind a value both texts have the same whitespace. */
  lemma NextLocal(a: Bytes, b: Bytes, n: nat, pos: nat, end: nat)
    requires pos <= |a| && end == SkipSpace(a, pos) && Same(a, b, n) && end < n
    ensures pos <= |b| && SkipSpace(b, pos) == end && end <= |b|
  {
    Fits(a, b, n, pos);
    SkipSpaceLocal(a, b, n, pos);
  }

  // ----- objects -----

  /** What an object does behind a member. */
  ghost predicate PairsGo(text: Bytes, end: nat, depth: nat, entries: seq<Entry>, floats: Floats, x: Parsed<seq<Entry>>)
    requires end <= |text|
  {
    x == if Sees(text, end, CLOSE_BRACE) then Ok(entries, end + 1)
         else if Sees(text, end, COMMA) then Pairs(text, end + 1, depth, entries, floats)
         else Error(ExpectedCommaOrBrace, end)
  }

  lemma PairsTurn(text: Bytes, pos: nat, depth: nat, entries: seq<Entry>, floats: Floats, r: Parsed<Entry>, end: nat)
    requires pos <= |text| && r == MemberAt(text, pos, depth, floats) && r.Ok? && end == SkipSpace(text, r.next)
    ensures PairsGo(text, end, depth, entries + [r.value], floats, Pairs(text, pos, depth, entries, floats))
  {
  }

  lemma PairsGoAhead(text: Bytes, end: nat, depth: nat, entries: seq<Entry>, floats: Floats, x: Parsed<seq<Entry>>)
    requires end <= |text| && PairsGo(text, end, depth, entries, floats, x)
    ensures Ahead(end, x)
  {
    if Sees(text, end, COMMA) {
      PairsFault(text, end + 1, depth, entries, floats);
    }
  }

  lemma PairsFail(text: Bytes, pos: nat, depth: nat, entries: seq<Entry>, floats: Floats)
    requires pos <= |text| && MemberAt(text, pos, depth, floats).Error?
    ensures var r := MemberAt(text, pos, depth, floats);
            Pairs(text, pos, depth, entries, floats) == Error(r.fault, r.at)
  {
  }

  lemma KeyAhead(text: Bytes, pos: nat, floats: Floats)
    requires pos <= |text|
    ensures Ahead(SkipSpace(text, pos), KeyAt(text, pos))
  {
    var start := SkipSpace(text, pos);
    if Sees(text, start, QUOTE) {
      CharsFault(text, start + 1, [], floats);
    }
  }

  lemma MemberAhead(text: Bytes, pos: nat, depth: nat, floats: Floats)
    requires pos <= |text|
    ensures Ahead(SkipSpace(text, pos), MemberAt(text, pos, depth, floats))
    ensures KeyAt(text, pos).Ok? ==> Ahead(KeyAt(text, pos).next, MemberAt(text, pos, depth, floats))
  {
    KeyAhead(text, pos, floats);
    var key := KeyAt(text, pos);
    if key.Ok? {
      ValueFault(text, key.next, depth, floats);
    }
  }

  lemma PairsAhead(text: Bytes, pos: nat, depth: nat, entries: seq<Entry>, floats: Floats)
    requires pos <= |text|
    ensures Ahead(SkipSpace(text, pos), Pairs(text, pos, depth, entries, floats))
  {
    MemberAhead(text, pos, depth, floats);
    var r := MemberAt(text, pos, depth, floats);
    MemberReach(text, pos, depth, entries, floats, r);
    if r.Error? {
      PairsFail(text, pos, depth, entries, floats);
    }
  }

  lemma {:induction false} ObjectLocal(a: Bytes, b: Bytes, n: nat, pos: nat, depth: nat, floats: Floats)
    requires pos <= |a| && pos <= |b| && Same(a, b, n) && Reach(ObjectAt(a, pos, depth, floats)) <= n
    ensures ObjectAt(b, pos, depth, floats) == ObjectAt(a, pos, depth, floats)
    decreases |a| - pos, 4
  {
    var start := SkipSpace(a, pos);
    PairsAhead(a, pos, depth, [], floats);
    SkipSpaceLocal(a, b, n, pos);
    SeesLocal(a, b, n, start, CLOSE_BRACE);
    if !Sees(a, start, CLOSE_BRACE) {
      PairsLocal(a, b, n, pos, depth, [], floats);
    }
  }

  /** A key, when its opening quote is in both texts. */
  lemma QuotedLocal(a: Bytes, b: Bytes, n: nat, pos: nat, start: nat, floats: Floats)
    requires pos <= |a| && pos <= |b| && start == SkipSpace(a, pos) == SkipSpace(b, pos)
    requires Sees(a, start, QUOTE) && Sees(b, start, QUOTE) && Same(a, b, n) && Reach(KeyAt(a, pos)) <= n
    ensures KeyAt(b, pos) == KeyAt(a, pos)
  {
    var key := Chars(a, start + 1, []);
    KeyTurn(a, pos, start, key);
    CharsLocal(a, b, n, start + 1, [], floats);
    KeyTurn(b, pos, start, key);
    if key.Ok? {
      NextLocal(a, b, n, key.next, SkipSpace(a, key.next));
      SeesLocal(a, b, n, SkipSpace(a, key.next), COLON);
    }
  }

  lemma KeyTurn(text: Bytes, pos: nat, start: nat, key: Parsed<Bytes>)
    requires pos <= |text| && start == SkipSpace(text, pos) && Sees(text, start, QUOTE)
    requires key == Chars(text, start + 1, [])
    ensures KeyAt(text, pos) == if key.Error? then key
                                else if Sees(text, SkipSpace(text, key.next), COLON)
                                then Ok(key.value, SkipSpace(text, key.next) + 1)
                                else Error(ExpectedColon, SkipSpace(text, key.next))
  {
  }

  lemma KeyLocal(a: Bytes, b: Bytes, n: nat, pos: nat, floats: Floats)
    requires pos <= |a| && pos <= |b| && Same(a, b, n) && Reach(KeyAt(a, pos)) <= n
    ensures KeyAt(b, pos) == KeyAt(a, pos)
  {
    var start := SkipSpace(a, pos);
    KeyAhead(a, pos, floats);
    SkipSpaceLocal(a, b, n, pos);
    SeesLocal(a, b, n, start, QUOTE);
    if Sees(a, start, QUOTE) {
      QuotedLocal(a, b, n, pos, start, floats);
    }
  }

  lemma {:induction false} MemberLocal(a: Bytes, b: Bytes, n: nat, pos: nat, depth: nat, floats: Floats)
    requires pos <= |a| && pos <= |b| && Same(a, b, n) && Reach(MemberAt(a, pos, depth, floats)) <= n
    ensures MemberAt(b, pos, depth, floats) == MemberAt(a, pos, depth, floats)
    decreases |a| - pos, 2
  {
    var key := KeyAt(a, pos);
    MemberAhead(a, pos, depth, floats);
    KeyLocal(a, b, n, pos, floats);
    if key.Ok? {
      Fits(a, b, n, key.next);
      ValueLocal(a, b, n, key.next, depth, floats);
    }
  }

  ghost predicate PairsSame(a: Bytes, b: Bytes, pos: nat, depth: nat, entries: seq<Entry>, floats: Floats)
    requires pos <= |a| && pos <= |b|
  {
    Pairs(b, pos, depth, entries, floats) == Pairs(a, pos, depth, entries, floats)
  }

  lemma {:induction false} PairsLocal(a: Bytes, b: Bytes, n: nat, pos: nat, depth: nat, entries: seq<Entry>,
                                      floats: Floats)
    requires pos <= |a| && pos <= |b| && Same(a, b, n) && Reach(Pairs(a, pos, depth, entries, floats)) <= n
    ensures PairsSame(a, b, pos, depth, entries, floats)
    decreases |a| - pos, 3
  {
    var r := MemberAt(a, pos, depth, floats);
    MemberReach(a, pos, depth, entries, floats, r);
    MemberLocal(a, b, n, pos, depth, floats);
    if r.Ok? {
      var end := SkipSpace(a, r.next);
      NextLocal(a, b, n, r.next, end);
      PairsTurn(a, pos, depth, entries, floats, r, end);
      PairsTurn(b, pos, depth, entries, floats, r, end);
      PairsOnward(a, b, n, end, depth, entries + [r.value], floats,
                  Pairs(a, pos, depth, entries, floats), Pairs(b, pos, depth, entries, floats));
    } else {
      PairsFail(a, pos, depth, entries, floats);
      PairsFail(b, pos, depth, entries, floats);
    }
  }

  lemma {:induction false} PairsOnward(a: Bytes, b: Bytes, n: nat, end: nat, depth: nat, entries: seq<Entry>,
                                       floats: Floats, x: Parsed<seq<Entry>>, y: Parsed<seq<Entry>>)
    requires end <= |a| && end <= |b| && Same(a, b, n) && end < n && Reach(x) <= n
    requires PairsGo(a, end, depth, entries, floats, x) && PairsGo(b, end, depth, entries, floats, y)
    ensures x == y
    decreases |a| - end
  {
    SeesLocal(a, b, n, end, CLOSE_BRACE);
    SeesLocal(a, b, n, end, COMMA);
    if Sees(a, end, COMMA) && !Sees(a, end, CLOSE_BRACE) {
      PairsLocal(a, b, n, end + 1, depth, entries, floats);
    }
  }

  /** The answer lies behind the first member, and behind the whitespace that follows it. */
  lemma MemberReach(text: Bytes, pos: nat, depth: nat, entries: seq<Entry>, floats: Floats, r: Parsed<Entry>)
    requires pos <= |text| && r == MemberAt(text, pos, depth, floats)
    ensures Reach(r) <= Reach(Pairs(text, pos, depth, entries, floats))
    ensures r.Ok? ==> Ahead(SkipSpace(text, r.next), Pairs(text, pos, depth, entries, floats))
  {
    if r.Ok? {
      var end := SkipSpace(text, r.next);
      PairsTurn(text, pos, depth, entries, floats, r, end);
      PairsGoAhead(text, end, depth, entries + [r.value], floats, Pairs(text, pos, depth, entries, floats));
    } else {
      PairsFail(text, pos, depth, entries, floats);
    }
  }

  /** An error depends on nothing behind its position but what may be a literal there: any text that agrees with this
  one that far fails in the same way, at the same position. */
  lemma ErrorsAreLocal(a: Bytes, b: Bytes, floats: Floats)
    requires Parse(a, floats).Error? && Same(a, b, Parse(a, floats).at + 5)
    ensures Parse(b, floats) == Parse(a, floats)
  {
    var r, n := Value(a, 0, 0, floats), Parse(a, floats).at + 5;
    ValueLocal(a, b, n, 0, 0, floats);
    if r.Ok? {
      NextLocal(a, b, n, r.next, SkipSpace(a, r.next));
      Fits(a, b, n, SkipSpace(a, r.next) + 1);
    }
  }
}
