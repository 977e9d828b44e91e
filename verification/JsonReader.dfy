/** The reader as the program has it: a position that advances over the text. */
module JsonReader {
  import opened Options
  import opened Utf8
  import opened JsonValue
  import opened JsonGrammar
  import opened JsonParser
  import opened JsonTokens
  import T = JsonTheorems
  import C = JsonCompleteness
  import F = JsonFaults

  /** What stands behind a value in a list. */
  datatype Separator = Close | Comma | Neither

  /** What one turn of a loop over elements or members comes to. */
  datatype Round<V, A> = More(values: seq<V>) | Finished(result: Result<A>)

  datatype Result<+A> = Done(value: A) | Failed(fault: Fault, at: nat)

  /** Whitespace is skipped once. */
  lemma SkipTwice(text: Bytes, pos: nat)
    requires pos <= |text|
    ensures SkipSpace(text, SkipSpace(text, pos)) == SkipSpace(text, pos)
  {
    SkipSpaceSound(text, pos);
  }

  lemma ValueSkips(text: Bytes, pos: nat, depth: nat, floats: Floats)
    requires pos <= |text|
    ensures Value(text, SkipSpace(text, pos), depth, floats) == Value(text, pos, depth, floats)
  {
    SkipTwice(text, pos);
  }

  /** The rest of an array is read as `whole`, when `values` have been read of it. */
  ghost predicate ElementsAs(whole: Parsed<seq<Json>>, text: Bytes, pos: nat, depth: nat, values: seq<Json>,
                             floats: Floats)
    requires pos <= |text|
  {
    whole == Elements(text, pos, depth, values, floats)
  }

  lemma ElementsSkips(whole: Parsed<seq<Json>>, text: Bytes, pos: nat, depth: nat, values: seq<Json>, floats: Floats)
    requires pos <= |text| && ElementsAs(whole, text, pos, depth, values, floats)
    ensures ElementsAs(whole, text, SkipSpace(text, pos), depth, values, floats)
  {
    ValueSkips(text, pos, depth, floats);
  }

  /** What comes of an array of which `values` have been read depends on the byte at `end`. */
  ghost predicate ElementsBehind(whole: Parsed<seq<Json>>, text: Bytes, end: nat, depth: nat, values: seq<Json>,
                                 floats: Floats)
    requires end <= |text|
  {
    && (Sees(text, end, CLOSE_BRACKET) ==> whole == Ok(values, end + 1))
    && (Sees(text, end, COMMA) ==> ElementsAs(whole, text, end + 1, depth, values, floats))
    && (!Sees(text, end, CLOSE_BRACKET) && !Sees(text, end, COMMA) ==> whole == Error(ExpectedCommaOrBracket, end))
  }

  lemma ElementsTurn(whole: Parsed<seq<Json>>, text: Bytes, pos: nat, depth: nat, values: seq<Json>, value: Json,
                     next: nat, floats: Floats)
    requires pos <= |text| && next <= |text| && Value(text, pos, depth, floats) == Ok(value, next)
    requires ElementsAs(whole, text, pos, depth, values, floats)
    ensures ElementsBehind(whole, text, SkipSpace(text, next), depth, values + [value], floats)
  {
  }

  /** What is wrong with an element is wrong with the array. */
  lemma ElementsStop(whole: Parsed<seq<Json>>, text: Bytes, pos: nat, depth: nat, values: seq<Json>, floats: Floats)
    requires pos <= |text| && ElementsAs(whole, text, pos, depth, values, floats)
    ensures var r := Value(text, pos, depth, floats); r.Error? ==> whole == Error(r.fault, r.at)
  {
  }

  lemma MemberSkips(text: Bytes, pos: nat, depth: nat, floats: Floats)
    requires pos <= |text|
    ensures KeyAt(text, SkipSpace(text, pos)) == KeyAt(text, pos)
    ensures MemberAt(text, SkipSpace(text, pos), depth, floats) == MemberAt(text, pos, depth, floats)
  {
    SkipTwice(text, pos);
  }

  /** The rest of an object is read as `whole`, when `entries` have been read of it. */
  ghost predicate PairsAs(whole: Parsed<seq<Entry>>, text: Bytes, pos: nat, depth: nat, entries: seq<Entry>,
                          floats: Floats)
    requires pos <= |text|
  {
    whole == Pairs(text, pos, depth, entries, floats)
  }

  lemma PairsSkips(whole: Parsed<seq<Entry>>, text: Bytes, pos: nat, depth: nat, entries: seq<Entry>, floats: Floats)
    requires pos <= |text| && PairsAs(whole, text, pos, depth, entries, floats)
    ensures PairsAs(whole, text, SkipSpace(text, pos), depth, entries, floats)
  {
    MemberSkips(text, pos, depth, floats);
  }

  /** What comes of an object of which `entries` have been read depends on the byte at `end`. */
  ghost predicate PairsBehind(whole: Parsed<seq<Entry>>, text: Bytes, end: nat, depth: nat, entries: seq<Entry>,
                              floats: Floats)
    requires end <= |text|
  {
    && (Sees(text, end, CLOSE_BRACE) ==> whole == Ok(entries, end + 1))
    && (Sees(text, end, COMMA) ==> PairsAs(whole, text, end + 1, depth, entries, floats))
    && (!Sees(text, end, CLOSE_BRACE) && !Sees(text, end, COMMA) ==> whole == Error(ExpectedCommaOrBrace, end))
  }

  lemma PairsTurn(whole: Parsed<seq<Entry>>, text: Bytes, pos: nat, depth: nat, entries: seq<Entry>, entry: Entry,
                  next: nat, floats: Floats)
    requires pos <= |text| && next <= |text| && MemberAt(text, pos, depth, floats) == Ok(entry, next)
    requires PairsAs(whole, text, pos, depth, entries, floats)
    ensures PairsBehind(whole, text, SkipSpace(text, next), depth, entries + [entry], floats)
  {
  }

  /** What is wrong with a member is wrong with the object. */
  lemma PairsStop(whole: Parsed<seq<Entry>>, text: Bytes, pos: nat, depth: nat, entries: seq<Entry>, floats: Floats)
    requires pos <= |text| && PairsAs(whole, text, pos, depth, entries, floats)
    ensures var r := MemberAt(text, pos, depth, floats); r.Error? ==> whole == Error(r.fault, r.at)
  {
  }

  /** The rest of the string is read as `whole`, when `read` has been read of it. */
  ghost predicate CharsAs(whole: Parsed<Bytes>, text: Bytes, pos: nat, read: Bytes)
    requires pos <= |text|
  {
    whole == Chars(text, pos, read)
  }

  /** A plain byte makes the stretch longer. */
  lemma PlainRound(whole: Parsed<Bytes>, text: Bytes, start: nat, pos: nat, value: Bytes, read: Bytes)
    requires start <= pos < |text| && text[pos] != QUOTE && text[pos] != BACKSLASH && text[pos] >= 0x20
    requires read == value + text[start..pos] && CharsAs(whole, text, pos, read)
    ensures CharsAs(whole, text, pos + 1, read + [text[pos]])
    ensures read + [text[pos]] == value + text[start..pos + 1]
  {
    LastByte(text, start, pos);
    Regroup(value, text[start..pos], [text[pos]]);
  }

  /** An escape is read behind its backslash. */
  lemma EscapeRound(whole: Parsed<Bytes>, text: Bytes, pos: nat, read: Bytes)
    requires Sees(text, pos, BACKSLASH) && CharsAs(whole, text, pos, read)
    ensures var r := Escape(text, pos + 1);
            if r.Error? then whole == Error(r.fault, r.at) else CharsAs(whole, text, r.next, read + r.value)
  {
  }

  /** Where a string ends, well or not. */
  lemma EndRound(whole: Parsed<Bytes>, text: Bytes, pos: nat, read: Bytes)
    requires pos <= |text| && CharsAs(whole, text, pos, read)
    ensures pos == |text| ==> whole == Error(UnterminatedString, pos)
    ensures Sees(text, pos, QUOTE) ==> whole == Ok(read, pos + 1)
    ensures pos < |text| && text[pos] < 0x20 ==> whole == Error(ControlCharacter, pos)
  {
  }

  /** A literal can only stand where its first byte does. */
  lemma LiteralStart(text: Bytes, pos: nat, s: Bytes)
    requires s != []
    ensures At(text, pos, s) ==> Sees(text, pos, s[0])
  {
    if At(text, pos, s) {
      AtFirst(text, pos, s);
    }
  }

  class Reader {
    const text: Bytes
    const floats: Floats
    var position: nat

    ghost predicate Ready()
      reads this
    {
      Valid(text) && position <= |text|
    }

    constructor (text: Bytes, floats: Floats)
      requires Valid(text)
      ensures Ready() && this.text == text && this.floats == floats && position == 0
    {
      this.text := text;
      this.floats := floats;
      position := 0;
    }

    /** The outcome and the position behind it are those of the recursive function. */
    ghost predicate Agrees<A>(r: Result<A>, p: Parsed<A>)
      reads this
    {
      match p
      case Ok(value, next) => r == Done(value) && position == next
      case Error(fault, at) => r == Failed(fault, at) && position == at
    }

    predicate Peeks(b: byte)
      reads this
    {
      Sees(text, position, b)
    }

    /** A slice of the text, which must not cut a character in two. */
    function Slice(start: nat, end: nat): (s: Bytes)
      requires Valid(text) && start <= end && IsCharBoundary(text, start) && IsCharBoundary(text, end)
      ensures Valid(s) && s == text[start..end]
    {
      SliceValid(text, start, end);
      text[start..end]
    }

    /** The rest of the text, from a character boundary, starts with these bytes. */
    predicate StartsWith(s: Bytes)
      requires Ready() && IsCharBoundary(text, position)
      reads this
      ensures StartsWith(s) <==> At(text, position, s)
    {
      assert Slice(position, |text|) == text[position..];
      assert |s| <= |text| - position ==> text[position..][..|s|] == text[position..position + |s|];
      s <= Slice(position, |text|)
    }

    method Consume(b: byte) returns (found: bool)
      requires Ready()
      modifies this
      ensures Ready() && found == Sees(text, old(position), b)
      ensures position == if found then old(position) + 1 else old(position)
    {
      found := Peeks(b);
      if found {
        position := position + 1;
      }
    }

    method Whitespace()
      requires Ready()
      modifies this
      ensures Ready() && position == SkipSpace(text, old(position))
    {
      while position < |text| && Space(text[position])
        invariant Ready() && SkipSpace(text, position) == SkipSpace(text, old(position))
        decreases |text| - position
      {
        position := position + 1;
      }
    }

    method SkipAllDigits()
      requires Ready()
      modifies this
      ensures Ready() && position == SkipDigits(text, old(position))
    {
      while position < |text| && Digit(text[position])
        invariant Ready() && SkipDigits(text, position) == SkipDigits(text, old(position))
        decreases |text| - position
      {
        position := position + 1;
      }
    }

    // ----- strings -----

    method HexQuad() returns (r: Result<nat>)
      requires Ready()
      modifies this
      ensures Ready() && Agrees(r, Quad(text, old(position), 4, 0))
    {
      var value: nat := 0;
      for i := 0 to 4
        invariant Ready() && 0 <= i <= 4
        invariant Quad(text, position, 4 - i, value) == Quad(text, old(position), 4, 0)
      {
        if position == |text| || !HexDigit(text[position]) {
          return Failed(InvalidUnicodeEscape, position);
        }
        value := value * 16 + HexDigitValue(text[position]);
        position := position + 1;
      }
      return Done(value);
    }

    /** The character of an escape, from behind the `u`. */
    method Unicode() returns (r: Result<Bytes>)
      requires Ready()
      modifies this
      ensures Ready() && Agrees(r, UnicodeEscape(text, old(position)))
    {
      var first := HexQuad();
      if first.Failed? {
        return Failed(first.fault, first.at);
      }
      var code := first.value;
      if HighSurrogate(code) {
        var backslash := Consume(BACKSLASH);
        if !backslash {
          return Failed(ExpectedLowSurrogate, position);
        }
        var letter := Consume(LETTER_U);
        if !letter {
          return Failed(ExpectedLowSurrogate, position);
        }
        var second := HexQuad();
        if second.Failed? {
          return Failed(second.fault, second.at);
        }
        if !LowSurrogate(second.value) {
          return Failed(InvalidLowSurrogate, position);
        }
        code := Joined(code, second.value);
      }
      if !Scalar(code) {
        return Failed(InvalidUnicodeEscape, position);
      }
      return Done(Encode(code));
    }

    /** Stretches of plain bytes are taken in slices, which start behind an escape and end in front of the next one. */
    method ReadString() returns (r: Result<Bytes>)
      requires Ready() && Sees(text, position, QUOTE)
      modifies this
      ensures Ready() && Agrees(r, Chars(text, old(position) + 1, []))
      ensures r.Done? ==> Valid(r.value)
    {
      ghost var whole := Chars(text, position + 1, []);
      if whole.Ok? {
        T.StringValid(text, position);
      }
      AfterAscii(text, position + 1);
      position := position + 1;
      r := ReadChars(whole);
    }

    /** The rest of a string, from behind the quote. */
    method ReadChars(ghost whole: Parsed<Bytes>) returns (r: Result<Bytes>)
      requires Ready() && IsCharBoundary(text, position) && CharsAs(whole, text, position, [])
      modifies this
      ensures Ready() && Agrees(r, whole)
    {
      var value: Bytes := [];
      var start := position;
      ghost var read: Bytes := [];
      while true
        invariant Ready() && start <= position && IsCharBoundary(text, start)
        invariant read == value + text[start..position] && CharsAs(whole, text, position, read)
        decreases |text| - position
      {
        EndRound(whole, text, position, read);
        if position == |text| {
          return Failed(UnterminatedString, position);
        } else if text[position] == QUOTE {
          value := value + Slice(start, position);
          position := position + 1;
          return Done(value);
        } else if text[position] == BACKSLASH {
          value := value + Slice(start, position);
          var pushed := PushEscape(value, whole);
          if pushed.Failed? {
            return pushed;
          }
          value := pushed.value;
          start := position;
          read := value;
        } else if text[position] < 0x20 {
          return Failed(ControlCharacter, position);
        } else {
          PlainRound(whole, text, start, position, value, read);
          read := read + [text[position]];
          position := position + 1;
        }
      }
    }

    /** Appends the character of an escape. */
    method PushEscape(value: Bytes, ghost whole: Parsed<Bytes>) returns (r: Result<Bytes>)
      requires Ready() && Sees(text, position, BACKSLASH) && CharsAs(whole, text, position, value)
      modifies this
      ensures Ready() && (r.Done? ==> old(position) < position)
      ensures if r.Failed? then whole == Error(r.fault, r.at) && position == r.at
              else CharsAs(whole, text, position, r.value) && IsCharBoundary(text, position)
    {
      EscapeRound(whole, text, position, value);
      position := position + 1;
      r := ReadEscape();
      if r.Done? {
        r := Done(value + r.value);
      }
    }

    method ReadEscape() returns (r: Result<Bytes>)
      requires Ready()
      modifies this
      ensures Ready() && Agrees(r, Escape(text, old(position)))
      ensures r.Done? ==> IsCharBoundary(text, position)
    {
      if Escape(text, position).Ok? {
        T.EscapeValid(text, position);
      }
      if position < |text| && ShortEscape(text[position]) {
        r := Done([Unescape(text[position])]);
        position := position + 1;
      } else if Peeks(LETTER_U) {
        position := position + 1;
        r := Unicode();
      } else {
        r := Failed(InvalidStringEscape, position);
      }
    }

    // ----- numbers -----

    method Number() returns (r: Result<Json>)
      requires Ready() && position < |text| && (text[position] == MINUS || Digit(text[position]))
      modifies this
      ensures Ready() && Agrees(r, NumberAt(text, old(position), floats))
    {
      var start := position;
      var _ := Consume(MINUS);
      if Peeks(ZERO) {
        position := position + 1;
      } else if position < |text| && Digit(text[position]) {
        SkipAllDigits();
      } else {
        return Failed(ExpectedDigit, position);
      }
      assert Whole(text, start) == Ok(true, position);
      ghost var wholeEnd := position;
      var fraction := ReadFraction();
      if fraction.Failed? {
        return Failed(fraction.fault, fraction.at);
      }
      ghost var fractionEnd := position;
      var power := ReadExponent();
      if power.Failed? {
        return Failed(power.fault, power.at);
      }
      NumberEnds(text, start, wholeEnd, fraction.value, fractionEnd, power.value, position);
      var token := Slice(start, position);
      var float := fraction.value || power.value;
      if !float && token != [MINUS, ZERO] {
        var integer := ParseInteger(token);
        if integer.Some? {
          return Done(Integer(integer.value));
        }
      }
      match floats.parse(token)
      case None => r := Failed(InvalidNumber, position);
      case Some(bits) => r := if Finite(bits) then Done(Float(bits)) else Failed(NumberOutOfRange, position);
    }

    /** The part behind the point, if there is one. */
    method ReadFraction() returns (r: Result<bool>)
      requires Ready()
      modifies this
      ensures Ready() && Agrees(r, Fraction(text, old(position)))
    {
      var point := Consume(DOT);
      if point {
        var start := position;
        SkipAllDigits();
        if position == start {
          return Failed(ExpectedFractionDigit, position);
        }
      }
      return Done(point);
    }

    /** The exponent, if there is one. */
    method ReadExponent() returns (r: Result<bool>)
      requires Ready()
      modifies this
      ensures Ready() && Agrees(r, Power(text, old(position)))
    {
      var mark := Consume(0x65);
      if !mark {
        mark := Consume(0x45);
      }
      if mark {
        var plus := Consume(PLUS);
        if !plus {
          var _ := Consume(MINUS);
        }
        var start := position;
        SkipAllDigits();
        if position == start {
          return Failed(ExpectedExponentDigit, position);
        }
      }
      return Done(mark);
    }

    // ----- values -----

    method ReadValue(depth: nat) returns (r: Result<Json>)
      requires Ready()
      modifies this
      ensures Ready() && Agrees(r, Value(text, old(position), depth, floats))
      decreases |text| - position, 2
    {
      Whitespace();
      LiteralStart(text, position, TRUE);
      LiteralStart(text, position, FALSE);
      LiteralStart(text, position, NULL);
      if position == |text| {
        r := Failed(ExpectedValue, position);
      } else if (Peeks(OPEN_BRACE) || Peeks(OPEN_BRACKET)) && depth >= LIMIT {
        r := Failed(NestingLimit, position);
      } else if Peeks(OPEN_BRACE) {
        r := ReadObject(depth + 1);
      } else if Peeks(OPEN_BRACKET) {
        r := ReadArray(depth + 1);
      } else if Peeks(QUOTE) {
        var s := ReadString();
        r := if s.Done? then Done(Text(s.value)) else Failed(s.fault, s.at);
      } else if Peeks(MINUS) || Digit(text[position]) {
        r := Number();
      } else if Peeks(0x74) && StartsWith(TRUE) {
        position := position + 4;
        r := Done(Bool(true));
      } else if Peeks(0x66) && StartsWith(FALSE) {
        position := position + 5;
        r := Done(Bool(false));
      } else if Peeks(0x6E) && StartsWith(NULL) {
        position := position + 4;
        r := Done(Null);
      } else {
        r := Failed(ExpectedValue, position);
      }
    }

    method ReadArray(depth: nat) returns (r: Result<Json>)
      requires Ready() && Sees(text, position, OPEN_BRACKET)
      modifies this
      ensures Ready() && Agrees(r, ArrayAt(text, old(position) + 1, depth, floats))
      decreases |text| - position, 1
    {
      position := position + 1;
      ghost var whole := Elements(text, position, depth, [], floats);
      ElementsSkips(whole, text, position, depth, [], floats);
      Whitespace();
      var close := Consume(CLOSE_BRACKET);
      if close {
        return Done(Array([]));
      }
      var values := ReadElements(depth, whole);
      return if values.Done? then Done(Array(values.value)) else Failed(values.fault, values.at);
    }

    /** The closing byte or the comma behind a value. */
    method ReadSeparator(close: byte, ghost end: nat) returns (found: Separator)
      requires Ready() && close != COMMA && end == SkipSpace(text, position)
      modifies this
      ensures Ready()
      ensures match found
              case Close => Sees(text, end, close) && position == end + 1
              case Comma => Sees(text, end, COMMA) && position == end + 1
              case Neither => !Sees(text, end, close) && !Sees(text, end, COMMA) && position == end
    {
      Whitespace();
      var closed := Consume(close);
      if closed {
        return Close;
      }
      var comma := Consume(COMMA);
      found := if comma then Comma else Neither;
    }

    /** The elements of an array, up to the closing bracket. */
    method ReadElements(depth: nat, ghost whole: Parsed<seq<Json>>) returns (r: Result<seq<Json>>)
      requires Ready() && ElementsAs(whole, text, position, depth, [], floats)
      modifies this
      ensures Ready() && Agrees(r, whole)
      decreases |text| - position, 4
    {
      var values: seq<Json> := [];
      while true
        invariant Ready() && old(position) <= position
        invariant ElementsAs(whole, text, position, depth, values, floats)
        decreases |text| - position
      {
        var round := ElementRound(depth, values, whole);
        if round.Finished? {
          return round.result;
        }
        values := round.values;
      }
    }

    /** The turn ends the array as `whole` does, or leaves the rest of it. */
    ghost predicate ElementOk(round: Round<Json, seq<Json>>, whole: Parsed<seq<Json>>, depth: nat)
      requires Ready()
      reads this
    {
      if round.Finished? then Agrees(round.result, whole)
      else ElementsAs(whole, text, position, depth, round.values, floats)
    }

    /** One turn of the loop: an element, and the bracket or comma behind it. */
    method ElementRound(depth: nat, values: seq<Json>, ghost whole: Parsed<seq<Json>>)
      returns (round: Round<Json, seq<Json>>)
      requires Ready() && ElementsAs(whole, text, position, depth, values, floats)
      modifies this
      ensures Ready() && ElementOk(round, whole, depth)
      ensures round.More? ==> old(position) < position
      decreases |text| - position, 3
    {
      ghost var start := position;
      ElementsStop(whole, text, position, depth, values, floats);
      var value := ReadValue(depth);
      if value.Failed? {
        return Finished(Failed(value.fault, value.at));
      }
      ElementsTurn(whole, text, start, depth, values, value.value, position, floats);
      round := SeparateElement(depth, values + [value.value], whole);
    }

    /** The bracket or the comma behind an element. */
    method SeparateElement(depth: nat, values: seq<Json>, ghost whole: Parsed<seq<Json>>)
      returns (round: Round<Json, seq<Json>>)
      requires Ready() && ElementsBehind(whole, text, SkipSpace(text, position), depth, values, floats)
      modifies this
      ensures Ready() && ElementOk(round, whole, depth)
      ensures round.More? ==> old(position) < position
    {
      var separator := ReadSeparator(CLOSE_BRACKET, SkipSpace(text, position));
      match separator
      case Close => round := Finished(Done(values));
      case Comma => round := More(values);
      case Neither => round := Finished(Failed(ExpectedCommaOrBracket, position));
    }

    method ReadObject(depth: nat) returns (r: Result<Json>)
      requires Ready() && Sees(text, position, OPEN_BRACE)
      modifies this
      ensures Ready() && Agrees(r, ObjectAt(text, old(position) + 1, depth, floats))
      decreases |text| - position, 1
    {
      position := position + 1;
      ghost var whole := Pairs(text, position, depth, [], floats);
      PairsSkips(whole, text, position, depth, [], floats);
      SkipTwice(text, position);
      Whitespace();
      var close := Consume(CLOSE_BRACE);
      if close {
        return Done(Object([]));
      }
      r := ReadMembers(depth, whole);
    }

    /** The members of an object, up to the closing brace. A later value of a key takes the place of an earlier one. */
    method ReadMembers(depth: nat, ghost whole: Parsed<seq<Entry>>) returns (r: Result<Json>)
      requires Ready() && SkipSpace(text, position) == position && PairsAs(whole, text, position, depth, [], floats)
      modifies this
      ensures Ready() && AgreesMembers(r, whole)
      decreases |text| - position, 5
    {
      var values: seq<Entry> := [];
      ghost var entries: seq<Entry> := [];
      while true
        invariant Ready() && old(position) <= position && SkipSpace(text, position) == position
        invariant values == InsertAll([], entries)
        invariant PairsAs(whole, text, position, depth, entries, floats)
        decreases |text| - position
      {
        var round, more := MemberRound(depth, values, entries, whole);
        if round.Finished? {
          return round.result;
        }
        values := round.values;
        entries := more;
      }
    }

    ghost predicate AgreesMembers(r: Result<Json>, p: Parsed<seq<Entry>>)
      reads this
    {
      match p
      case Ok(entries, next) => r == Done(Object(InsertAll([], entries))) && position == next
      case Error(fault, at) => r == Failed(fault, at) && position == at
    }

    /** One turn of the loop: a member, and the brace or comma behind it. */
    method MemberRound(depth: nat, values: seq<Entry>, ghost entries: seq<Entry>, ghost whole: Parsed<seq<Entry>>)
      returns (round: Round<Entry, Json>, ghost more: seq<Entry>)
      requires Ready() && SkipSpace(text, position) == position && values == InsertAll([], entries)
      requires PairsAs(whole, text, position, depth, entries, floats)
      modifies this
      ensures Ready() && RoundOk(round, whole, depth, more)
      ensures round.More? ==> old(position) < position
      decreases |text| - position, 4
    {
      ghost var start := position;
      PairsStop(whole, text, position, depth, entries, floats);
      var member := ReadMember(depth);
      if member.Failed? {
        return Finished(Failed(member.fault, member.at)), entries;
      }
      more := entries + [member.value];
      PairsTurn(whole, text, start, depth, entries, member.value, position, floats);
      var placed := InsertEntry(values, member.value, entries);
      round := SeparateMember(depth, placed, more, whole);
    }

    /** The turn ends the object as `whole` does, or leaves the rest of it, with `entries` read so far. */
    ghost predicate RoundOk(round: Round<Entry, Json>, whole: Parsed<seq<Entry>>, depth: nat, entries: seq<Entry>)
      requires Ready()
      reads this
    {
      if round.Finished? then AgreesMembers(round.result, whole)
      else
        && position == SkipSpace(text, position)
        && round.values == InsertAll([], entries)
        && PairsAs(whole, text, position, depth, entries, floats)
    }

    /** The brace or the comma behind a member, and the whitespace behind that. */
    method SeparateMember(depth: nat, values: seq<Entry>, ghost entries: seq<Entry>, ghost whole: Parsed<seq<Entry>>)
      returns (round: Round<Entry, Json>)
      requires Ready() && values == InsertAll([], entries)
      requires PairsBehind(whole, text, SkipSpace(text, position), depth, entries, floats)
      modifies this
      ensures Ready() && RoundOk(round, whole, depth, entries)
      ensures round.More? ==> old(position) < position
    {
      var separator := ReadSeparator(CLOSE_BRACE, SkipSpace(text, position));
      match separator
      case Close => round := Finished(Done(Object(values)));
      case Neither => round := Finished(Failed(ExpectedCommaOrBrace, position));
      case Comma =>
        PairsSkips(whole, text, position, depth, entries, floats);
        SkipTwice(text, position);
        Whitespace();
        round := More(values);
    }

    /** One more member for the map built of `entries`. */
    method InsertEntry(values: seq<Entry>, entry: Entry, ghost entries: seq<Entry>) returns (more: seq<Entry>)
      requires values == InsertAll([], entries)
      ensures more == InsertAll([], entries + [entry])
    {
      InsertAllConcat([], entries, entry);
      more := Insert(values, entry.key, entry.value);
    }

    method ReadMember(depth: nat) returns (r: Result<Entry>)
      requires Ready() && SkipSpace(text, position) == position
      modifies this
      ensures Ready() && Agrees(r, MemberAt(text, old(position), depth, floats))
      decreases |text| - position, 3
    {
      var key := ReadKey();
      if key.Failed? {
        return Failed(key.fault, key.at);
      }
      var value := ReadValue(depth);
      return if value.Done? then Done(Entry(key.value, value.value)) else Failed(value.fault, value.at);
    }

    /** A key and its colon. */
    method ReadKey() returns (r: Result<Bytes>)
      requires Ready() && SkipSpace(text, position) == position
      modifies this
      ensures Ready() && Agrees(r, KeyAt(text, old(position)))
    {
      if !Peeks(QUOTE) {
        return Failed(ExpectedKey, position);
      }
      r := ReadString();
      if r.Failed? {
        return;
      }
      Whitespace();
      var colon := Consume(COLON);
      if !colon {
        return Failed(ExpectedColon, position);
      }
    }
  }

  /** A number token lies between character boundaries. */
  lemma NumberEnds(text: Bytes, start: nat, wholeEnd: nat, fraction: bool, fractionEnd: nat, power: bool, end: nat)
    requires Valid(text) && start < |text| && (text[start] == MINUS || Digit(text[start]))
    requires Whole(text, start) == Ok(true, wholeEnd) && Fraction(text, wholeEnd) == Ok(fraction, fractionEnd)
    requires Power(text, fractionEnd) == Ok(power, end)
    ensures start < end && IsCharBoundary(text, start) && IsCharBoundary(text, end)
  {
    WholeEnds(text, start);
    FractionEnds(text, wholeEnd);
    PowerEnds(text, fractionEnd);
    AfterAscii(text, end);
  }

  lemma WholeEnds(text: Bytes, pos: nat)
    requires pos < |text| && Whole(text, pos).Ok?
    ensures Digit(text[Whole(text, pos).next - 1])
  {
    var start := if text[pos] == MINUS then pos + 1 else pos;
    AfterDigits(text, start + 1);
  }

  lemma FractionEnds(text: Bytes, pos: nat)
    requires pos <= |text| && Fraction(text, pos).Ok?
    ensures var next := Fraction(text, pos).next; next > pos ==> Digit(text[next - 1])
  {
    if Sees(text, pos, DOT) {
      AfterDigits(text, pos + 1);
    }
  }

  lemma PowerEnds(text: Bytes, pos: nat)
    requires pos <= |text| && Power(text, pos).Ok?
    ensures var next := Power(text, pos).next; next > pos ==> Digit(text[next - 1])
  {
    if Power(text, pos).value {
      AfterDigits(text, SkipSign(text, pos + 1));
    }
  }

  lemma {:induction false} AfterDigits(text: Bytes, pos: nat)
    requires pos <= |text|
    ensures var next := SkipDigits(text, pos); next > pos ==> Digit(text[next - 1])
    decreases |text| - pos
  {
    if pos < |text| && Digit(text[pos]) {
      AfterDigits(text, pos + 1);
    }
  }

  /** The whole text is one value with whitespace around it. */
  method ParseText(text: Bytes, floats: Floats) returns (r: Result<Json>)
    requires Valid(text)
    ensures match Parse(text, floats)
            case Ok(value, _) => r == Done(value)
            case Error(fault, at) => r == Failed(fault, at)
    ensures r.Done? ==> exists d :: T.Denotes(d, text, r.value, floats)
    ensures r.Failed? ==> forall d, v :: !T.Denotes(d, text, v, floats)
    ensures r.Failed? ==> F.Explained(text, r.fault, r.at, floats)
    ensures r.Done? ==> Proper(r.value) && AllFinite(r.value) && Depth(r.value) <= LIMIT
  {
    forall v: Json {
      T.AcceptsTheGrammar(text, v, floats);
    }
    F.FaultsExplained(text, floats);
    var reader := new Reader(text, floats);
    r := reader.ReadValue(0);
    if r.Done? {
      reader.Whitespace();
      if reader.position != |text| {
        r := Failed(TrailingData, reader.position);
      } else {
        T.ReadsProperValues(text, floats);
      }
    }
  }
}
