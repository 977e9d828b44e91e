/** The reader recognises exactly the whitespace and the strings of the grammar. */
module JsonTokens {
  import opened Options
  import opened Utf8
  import opened JsonValue
  import opened JsonGrammar
  import opened JsonParser

  // ----- positions in a text -----

  lemma AtConcat(text: Bytes, pos: nat, a: Bytes, b: Bytes)
    ensures At(text, pos, a + b) <==> At(text, pos, a) && At(text, pos + |a|, b)
  {
    if At(text, pos, a + b) {
      assert text[pos..pos + |a|] == (a + b)[..|a|] == a;
      assert text[pos + |a|..pos + |a| + |b|] == (a + b)[|a|..] == b;
    }
  }

  lemma Joint(text: Bytes, a: nat, b: nat, c: nat)
    requires a <= b <= c <= |text|
    ensures text[a..c] == text[a..b] + text[b..c]
  {
  }

  lemma FirstByte(text: Bytes, a: nat, b: nat)
    requires a < b <= |text|
    ensures text[a..b] == [text[a]] + text[a + 1..b]
  {
  }

  lemma LastByte(text: Bytes, a: nat, b: nat)
    requires a <= b < |text|
    ensures text[a..b + 1] == text[a..b] + [text[b]]
  {
  }

  lemma Around(text: Bytes, a: nat, b: nat, c: nat)
    requires a <= b < c <= |text|
    ensures text[a..c] == text[a..b] + [text[b]] + text[b + 1..c]
  {
  }

  lemma AtByte(text: Bytes, pos: nat, b: byte)
    ensures At(text, pos, [b]) <==> Sees(text, pos, b)
  {
    if pos < |text| {
      assert text[pos..pos + 1] == [text[pos]];
    }
  }

  lemma AtFirst(text: Bytes, pos: nat, s: Bytes)
    requires At(text, pos, s) && s != []
    ensures pos < |text| && text[pos] == s[0]
  {
    assert text[pos..pos + |s|][0] == text[pos];
  }

  // ----- whitespace and digits -----

  predicate EndsSpace(text: Bytes, pos: nat) {
    pos >= |text| || !Space(text[pos])
  }

  predicate EndsDigits(text: Bytes, pos: nat) {
    pos >= |text| || !Digit(text[pos])
  }

  lemma {:induction false} SkipSpaceSound(text: Bytes, pos: nat)
    requires pos <= |text|
    ensures var next := SkipSpace(text, pos); Spaces(text[pos..next]) && EndsSpace(text, next)
    decreases |text| - pos
  {
    if pos < |text| && Space(text[pos]) {
      SkipSpaceSound(text, pos + 1);
      assert text[pos..SkipSpace(text, pos)] == [text[pos]] + text[pos + 1..SkipSpace(text, pos)];
    }
  }

  lemma {:induction false} SkipSpaceComplete(text: Bytes, pos: nat, s: Bytes)
    requires At(text, pos, s) && Spaces(s) && EndsSpace(text, pos + |s|)
    ensures SkipSpace(text, pos) == pos + |s|
    decreases |s|
  {
    if s == [] {
    } else {
      assert text[pos] == s[0];
      assert text[pos + 1..pos + |s|] == text[pos..pos + |s|][1..];
      SkipSpaceComplete(text, pos + 1, s[1..]);
    }
  }

  lemma {:induction false} SkipDigitsSound(text: Bytes, pos: nat)
    requires pos <= |text|
    ensures var next := SkipDigits(text, pos); Digits(text[pos..next]) && EndsDigits(text, next)
    decreases |text| - pos
  {
    if pos < |text| && Digit(text[pos]) {
      SkipDigitsSound(text, pos + 1);
      assert text[pos..SkipDigits(text, pos)] == [text[pos]] + text[pos + 1..SkipDigits(text, pos)];
    }
  }

  lemma {:induction false} SkipDigitsComplete(text: Bytes, pos: nat, s: Bytes)
    requires At(text, pos, s) && Digits(s) && EndsDigits(text, pos + |s|)
    ensures SkipDigits(text, pos) == pos + |s|
    decreases |s|
  {
    if s == [] {
    } else {
      assert text[pos] == s[0];
      assert text[pos + 1..pos + |s|] == text[pos..pos + |s|][1..];
      SkipDigitsComplete(text, pos + 1, s[1..]);
    }
  }

  // ----- strings -----

  predicate HexDigits(s: Bytes) {
    forall i :: 0 <= i < |s| ==> HexDigit(s[i])
  }

  /** Four hex digits and nothing else are read, as the number they write. */
  lemma {:induction false} QuadReads(text: Bytes, pos: nat, count: nat, front: Bytes)
    requires pos <= |text| && HexDigits(front)
    ensures var r := Quad(text, pos, count, HexValue(front));
            && (r.Ok? <==> pos + count <= |text| && HexDigits(text[pos..pos + count]))
            && (r.Ok? ==> r.value == HexValue(front + text[pos..pos + count]))
    decreases count
  {
    if count == 0 {
      assert front + text[pos..pos] == front;
    } else if pos < |text| && HexDigit(text[pos]) {
      var more := front + [text[pos]];
      assert more[..|more| - 1] == front;
      QuadReads(text, pos + 1, count - 1, more);
      if pos + count <= |text| {
        HexCons(text, pos, pos + count);
        assert front + text[pos..pos + count] == more + text[pos + 1..pos + count] by {
          Regroup(front, [text[pos]], text[pos + 1..pos + count]);
        }
      }
    } else if pos + count <= |text| {
      assert text[pos..pos + count][0] == text[pos];
    }
  }

  lemma HexCons(text: Bytes, pos: nat, end: nat)
    requires pos < end <= |text|
    ensures text[pos..end] == [text[pos]] + text[pos + 1..end]
    ensures HexDigits(text[pos..end]) <==> HexDigit(text[pos]) && HexDigits(text[pos + 1..end])
  {
    var s := text[pos + 1..end];
    assert text[pos..end] == [text[pos]] + s;
    assert forall i :: 0 <= i < |s| ==> ([text[pos]] + s)[i + 1] == s[i];
  }

  lemma QuadSound(text: Bytes, pos: nat)
    requires pos <= |text| && Quad(text, pos, 4, 0).Ok?
    ensures var r := Quad(text, pos, 4, 0); HexQuad(text[pos..r.next]) && r.value == HexValue(text[pos..r.next])
  {
    QuadReads(text, pos, 4, []);
    assert [] + text[pos..pos + 4] == text[pos..pos + 4];
  }

  lemma QuadComplete(text: Bytes, pos: nat, hex: Bytes)
    requires At(text, pos, hex) && HexQuad(hex)
    ensures Quad(text, pos, 4, 0) == Ok(HexValue(hex), pos + 4)
  {
    QuadReads(text, pos, 4, []);
    assert [] + text[pos..pos + 4] == hex;
  }

  lemma LowEscapeSound(text: Bytes, pos: nat, high: Bytes) returns (low: Bytes)
    requires pos <= |text| && HexQuad(high) && HighSurrogate(HexValue(high))
    requires LowEscape(text, pos, HexValue(high)).Ok?
    ensures HexQuad(low) && LowSurrogate(HexValue(low))
    ensures var r := LowEscape(text, pos, HexValue(high));
            && r.value == Encode(Joined(HexValue(high), HexValue(low)))
            && text[pos..r.next] == [BACKSLASH, LETTER_U] + low
  {
    QuadSound(text, pos + 2);
    var next := LowEscape(text, pos, HexValue(high)).next;
    low := text[pos + 2..next];
    assert text[pos..pos + 2] == [BACKSLASH, LETTER_U];
    Joint(text, pos, pos + 2, next);
  }

  /** What is read behind a backslash is an escape of the grammar, with its meaning. */
  lemma EscapeSound(text: Bytes, pos: nat) returns (p: Piece)
    requires pos <= |text| && Escape(text, pos).Ok?
    ensures PieceOk(p) && PieceMeaning(p) == Escape(text, pos).value
    ensures PrintPiece(p) == [BACKSLASH] + text[pos..Escape(text, pos).next]
  {
    if ShortEscape(text[pos]) {
      p := Short(text[pos]);
      assert text[pos..pos + 1] == [text[pos]];
    } else {
      QuadSound(text, pos + 1);
      var r := Quad(text, pos + 1, 4, 0);
      var hex := text[pos + 1..r.next];
      assert text[pos..r.next] == [LETTER_U] + hex;
      if HighSurrogate(r.value) {
        var low := LowEscapeSound(text, r.next, hex);
        p := Pair(hex, low);
        Joint(text, pos, r.next, Escape(text, pos).next);
      } else {
        p := Code(hex);
      }
    }
  }

  lemma PiecesCons(first: Piece, rest: seq<Piece>)
    requires PieceOk(first) && PiecesOk(rest)
    ensures PiecesOk([first] + rest)
    ensures PrintPieces([first] + rest) == PrintPiece(first) + PrintPieces(rest)
    ensures PiecesMeaning([first] + rest) == PieceMeaning(first) + PiecesMeaning(rest)
  {
    assert ([first] + rest)[1..] == rest;
  }

  lemma NothingBefore<T>(s: seq<T>)
    ensures [] + s == s
  {
  }

  lemma Regroup<T>(a: seq<T>, b: seq<T>, c: seq<T>)
    ensures a + b + c == a + (b + c)
  {
  }

  /** Where a string goes on, a piece of it has been read. */
  lemma PieceSound(text: Bytes, pos: nat, value: Bytes) returns (first: Piece, next: nat)
    requires pos < |text| && text[pos] != QUOTE && Chars(text, pos, value).Ok?
    ensures pos < next <= |text| && PieceOk(first) && text[pos..next] == PrintPiece(first)
    ensures Chars(text, pos, value) == Chars(text, next, value + PieceMeaning(first))
  {
    if text[pos] == BACKSLASH {
      first := EscapeSound(text, pos + 1);
      next := Escape(text, pos + 1).next;
      assert text[pos..next] == [BACKSLASH] + text[pos + 1..next];
    } else {
      first, next := Plain(text[pos]), pos + 1;
      assert text[pos..next] == [text[pos]];
    }
  }

  lemma {:induction false} CharsSound(text: Bytes, pos: nat, value: Bytes) returns (pieces: seq<Piece>)
    requires pos <= |text| && Chars(text, pos, value).Ok?
    ensures PiecesOk(pieces)
    ensures Chars(text, pos, value).value == value + PiecesMeaning(pieces)
    ensures text[pos..Chars(text, pos, value).next] == PrintPieces(pieces) + [QUOTE]
    decreases |text| - pos
  {
    var end := Chars(text, pos, value).next;
    if text[pos] == QUOTE {
      pieces := [];
      assert text[pos..pos + 1] == [QUOTE];
    } else {
      var first, next := PieceSound(text, pos, value);
      var rest := CharsSound(text, next, value + PieceMeaning(first));
      pieces := [first] + rest;
      PiecesCons(first, rest);
      Joint(text, pos, next, end);
      Regroup(value, PieceMeaning(first), PiecesMeaning(rest));
      Regroup(PrintPiece(first), PrintPieces(rest), [QUOTE]);
    }
  }

  lemma PairComplete(text: Bytes, pos: nat, high: Bytes, low: Bytes)
    requires PieceOk(Pair(high, low)) && At(text, pos, PrintPiece(Pair(high, low)))
    ensures text[pos] == BACKSLASH
    ensures Escape(text, pos + 1) == Ok(PieceMeaning(Pair(high, low)), pos + 12)
  {
    var mark := [BACKSLASH, LETTER_U];
    assert mark + high + mark + low == mark + (high + (mark + low));
    AtConcat(text, pos, mark, high + (mark + low));
    AtConcat(text, pos + 2, high, mark + low);
    AtConcat(text, pos + 6, mark, low);
    MarkSeen(text, pos);
    MarkSeen(text, pos + 6);
    QuadComplete(text, pos + 2, high);
    QuadComplete(text, pos + 8, low);
  }

  lemma MarkSeen(text: Bytes, pos: nat)
    requires At(text, pos, [BACKSLASH, LETTER_U])
    ensures Sees(text, pos, BACKSLASH) && Sees(text, pos + 1, LETTER_U)
  {
    assert text[pos..pos + 2][0] == text[pos] && text[pos..pos + 2][1] == text[pos + 1];
  }

  lemma EscapeComplete(text: Bytes, pos: nat, p: Piece)
    requires PieceOk(p) && !p.Plain? && At(text, pos, PrintPiece(p))
    ensures text[pos] == BACKSLASH
    ensures Escape(text, pos + 1) == Ok(PieceMeaning(p), pos + |PrintPiece(p)|)
  {
    match p
    case Short(b) =>
      assert text[pos..pos + 2][0] == text[pos] && text[pos..pos + 2][1] == text[pos + 1];
    case Code(hex) =>
      AtConcat(text, pos, [BACKSLASH, LETTER_U], hex);
      MarkSeen(text, pos);
      QuadComplete(text, pos + 2, hex);
    case Pair(high, low) =>
      PairComplete(text, pos, high, low);
  }

  lemma PieceComplete(text: Bytes, pos: nat, p: Piece, value: Bytes)
    requires PieceOk(p) && At(text, pos, PrintPiece(p))
    ensures pos < |text| && Chars(text, pos, value) == Chars(text, pos + |PrintPiece(p)|, value + PieceMeaning(p))
  {
    if p.Plain? {
      AtByte(text, pos, p.b);
    } else {
      EscapeComplete(text, pos, p);
    }
  }

  lemma {:induction false} CharsComplete(text: Bytes, pos: nat, pieces: seq<Piece>, value: Bytes)
    requires PiecesOk(pieces) && At(text, pos, PrintPieces(pieces) + [QUOTE])
    ensures Chars(text, pos, value) == Ok(value + PiecesMeaning(pieces), pos + |PrintPieces(pieces)| + 1)
    decreases |pieces|
  {
    if pieces == [] {
      assert [] + [QUOTE] == [QUOTE] && value + [] == value;
      AtByte(text, pos, QUOTE);
    } else {
      var first, rest := PrintPiece(pieces[0]), PrintPieces(pieces[1..]);
      var meaning := PieceMeaning(pieces[0]);
      Regroup(first, rest, [QUOTE]);
      AtConcat(text, pos, first, rest + [QUOTE]);
      PieceComplete(text, pos, pieces[0], value);
      CharsComplete(text, pos + |first|, pieces[1..], value + meaning);
      Regroup(value, meaning, PiecesMeaning(pieces[1..]));
    }
  }

  /** A whole string, from its opening quote. */
  lemma StringSound(text: Bytes, pos: nat) returns (pieces: seq<Piece>)
    requires Sees(text, pos, QUOTE) && Chars(text, pos + 1, []).Ok?
    ensures PiecesOk(pieces) && PiecesMeaning(pieces) == Chars(text, pos + 1, []).value
    ensures text[pos..Chars(text, pos + 1, []).next] == PrintString(pieces)
  {
    pieces := CharsSound(text, pos + 1, []);
    FirstByte(text, pos, Chars(text, pos + 1, []).next);
    Regroup([QUOTE], PrintPieces(pieces), [QUOTE]);
    NothingBefore(PiecesMeaning(pieces));
  }

  lemma StringComplete(text: Bytes, pos: nat, pieces: seq<Piece>)
    requires PiecesOk(pieces) && At(text, pos, PrintString(pieces))
    ensures Sees(text, pos, QUOTE)
    ensures Chars(text, pos + 1, []) == Ok(PiecesMeaning(pieces), pos + |PrintString(pieces)|)
  {
    var inner := PrintPieces(pieces) + [QUOTE];
    assert PrintString(pieces) == [QUOTE] + inner by {
      Regroup([QUOTE], PrintPieces(pieces), [QUOTE]);
    }
    AtConcat(text, pos, [QUOTE], inner);
    AtByte(text, pos, QUOTE);
    CharsComplete(text, pos + 1, pieces, []);
    NothingBefore(PiecesMeaning(pieces));
  }
}
