/** Whatever the reader accepts is written by a tree of the grammar, and the result is that tree's meaning. */
module JsonSoundness {
  import opened Options
  import opened Utf8
  import opened JsonValue
  import opened JsonGrammar
  import opened JsonParser
  import opened JsonTokens
  import opened JsonNumbers

  /** The tree is of the grammar, means `v`, and nests no deeper than the limit allows below `depth`. */
  ghost predicate Writes(t: Tree, v: Json, depth: nat, floats: Floats) {
    TreeOk(t) && InRange(t, floats) && Meaning(t, floats) == v && depth + TreeDepth(t) <= LIMIT
  }

  lemma ItemsOne(m: Item, floats: Floats)
    requires ItemOk(m) && InRange(m.value, floats)
    ensures ItemsFine([m], floats) && ItemsMeaning([m], floats) == [Meaning(m.value, floats)]
    ensures PrintItems([m]) == PrintItem(m) && TreesDepth([m]) == TreeDepth(m.value)
  {
  }

  lemma ItemsCons(m: Item, rest: seq<Item>, floats: Floats)
    requires ItemOk(m) && InRange(m.value, floats) && ItemsFine(rest, floats) && rest != []
    ensures ItemsFine([m] + rest, floats)
    ensures ItemsMeaning([m] + rest, floats) == [Meaning(m.value, floats)] + ItemsMeaning(rest, floats)
    ensures PrintItems([m] + rest) == PrintItem(m) + [COMMA] + PrintItems(rest)
    ensures TreesDepth([m] + rest) == Max(TreeDepth(m.value), TreesDepth(rest))
  {
    assert ([m] + rest)[1..] == rest;
  }

  lemma MembersOne(m: Member, floats: Floats)
    requires MemberOk(m) && InRange(m.value, floats)
    ensures MembersFine([m], floats)
    ensures MembersMeaning([m], floats) == [Entry(PiecesMeaning(m.key), Meaning(m.value, floats))]
    ensures PrintMembers([m]) == PrintMember(m) && MembersDepth([m]) == TreeDepth(m.value)
  {
  }

  lemma MembersCons(m: Member, rest: seq<Member>, floats: Floats)
    requires MemberOk(m) && InRange(m.value, floats) && MembersFine(rest, floats) && rest != []
    ensures MembersFine([m] + rest, floats)
    ensures MembersMeaning([m] + rest, floats)
            == [Entry(PiecesMeaning(m.key), Meaning(m.value, floats))] + MembersMeaning(rest, floats)
    ensures PrintMembers([m] + rest) == PrintMember(m) + [COMMA] + PrintMembers(rest)
    ensures MembersDepth([m] + rest) == Max(TreeDepth(m.value), MembersDepth(rest))
  {
    assert ([m] + rest)[1..] == rest;
  }

  // ----- strings, numbers and literals -----

  predicate StartsNumber(b: byte) {
    b == MINUS || Digit(b)
  }

  lemma StringValueSound(text: Bytes, pos: nat, depth: nat, floats: Floats) returns (t: Tree)
    requires Sees(text, pos, QUOTE) && depth <= LIMIT && ValueAt(text, pos, depth, floats).Ok?
    ensures var r := ValueAt(text, pos, depth, floats);
            Writes(t, r.value, depth, floats) && text[pos..r.next] == Print(t)
  {
    var pieces := StringSound(text, pos);
    t := StringTree(pieces);
  }

  lemma NumberValueSound(text: Bytes, pos: nat, depth: nat, floats: Floats) returns (t: Tree)
    requires pos < |text| && StartsNumber(text[pos]) && depth <= LIMIT && ValueAt(text, pos, depth, floats).Ok?
    ensures var r := ValueAt(text, pos, depth, floats);
            Writes(t, r.value, depth, floats) && text[pos..r.next] == Print(t)
  {
    var n := NumberSound(text, pos, floats);
    t := NumberTree(n);
  }

  lemma LiteralSound(text: Bytes, pos: nat, depth: nat, floats: Floats) returns (t: Tree)
    requires pos < |text| && depth <= LIMIT && ValueAt(text, pos, depth, floats).Ok?
    requires text[pos] !in {OPEN_BRACE, OPEN_BRACKET, QUOTE} && !StartsNumber(text[pos])
    ensures var r := ValueAt(text, pos, depth, floats);
            Writes(t, r.value, depth, floats) && text[pos..r.next] == Print(t)
  {
    t := if At(text, pos, TRUE) then TrueTree else if At(text, pos, FALSE) then FalseTree else NullTree;
  }

  // ----- arrays and objects -----

  /** What stands between two brackets, read from the outside and from the inside. */
  lemma Bracketed(open: byte, inner: Bytes, close: byte)
    ensures [open] + [] + inner + [close] == [open] + (inner + [close])
    ensures [open] + inner + [] + [close] == [open] + inner + [close]
  {
    Regroup([open], inner, [close]);
    Regroup([open] + inner, [], [close]);
  }

  lemma {:induction false} ValueSound(text: Bytes, pos: nat, depth: nat, floats: Floats)
    returns (before: Bytes, t: Tree)
    requires pos <= |text| && depth <= LIMIT && Value(text, pos, depth, floats).Ok?
    ensures Spaces(before)
    ensures var r := Value(text, pos, depth, floats);
            Writes(t, r.value, depth, floats) && text[pos..r.next] == before + Print(t)
    decreases |text| - pos, 1
  {
    var start := SkipSpace(text, pos);
    var next := Value(text, pos, depth, floats).next;
    SkipSpaceSound(text, pos);
    before := text[pos..start];
    if text[start] == OPEN_BRACKET {
      t := ArraySound(text, start, depth, floats);
    } else if text[start] == OPEN_BRACE {
      t := ObjectSound(text, start, depth, floats);
    } else if text[start] == QUOTE {
      t := StringValueSound(text, start, depth, floats);
    } else if StartsNumber(text[start]) {
      t := NumberValueSound(text, start, depth, floats);
    } else {
      t := LiteralSound(text, start, depth, floats);
    }
    Joint(text, pos, start, next);
  }

  lemma EmptySound(text: Bytes, pos: nat)
    requires pos < |text|
    ensures var end := SkipSpace(text, pos + 1);
            end < |text| ==> Spaces(text[pos + 1..end]) && text[pos..end + 1] == [text[pos]] + text[pos + 1..end] + [text[end]]
  {
    SkipSpaceSound(text, pos + 1);
  }

  lemma EmptyArray(text: Bytes, pos: nat, depth: nat, floats: Floats) returns (t: Tree)
    requires Sees(text, pos, OPEN_BRACKET) && depth < LIMIT
    requires Sees(text, SkipSpace(text, pos + 1), CLOSE_BRACKET)
    ensures var r := ValueAt(text, pos, depth, floats);
            r.Ok? && Writes(t, r.value, depth, floats) && text[pos..r.next] == Print(t)
  {
    var start := SkipSpace(text, pos + 1);
    EmptySound(text, pos);
    t := ArrayTree(text[pos + 1..start], []);
    Bracketed(OPEN_BRACKET, text[pos + 1..start], CLOSE_BRACKET);
  }

  lemma {:induction false} ArraySound(text: Bytes, pos: nat, depth: nat, floats: Floats) returns (t: Tree)
    requires Sees(text, pos, OPEN_BRACKET) && depth <= LIMIT && ValueAt(text, pos, depth, floats).Ok?
    ensures var r := ValueAt(text, pos, depth, floats);
            Writes(t, r.value, depth, floats) && text[pos..r.next] == Print(t)
    decreases |text| - pos, 0
  {
    var start := SkipSpace(text, pos + 1);
    if Sees(text, start, CLOSE_BRACKET) {
      t := EmptyArray(text, pos, depth, floats);
    } else {
      var items := ElementsSound(text, pos + 1, depth + 1, [], floats);
      t := ArrayTree([], items);
      FirstByte(text, pos, ValueAt(text, pos, depth, floats).next);
      NothingBefore(ItemsMeaning(items, floats));
      Bracketed(OPEN_BRACKET, PrintItems(items), CLOSE_BRACKET);
    }
  }

  lemma {:induction false} ItemSound(text: Bytes, pos: nat, depth: nat, floats: Floats) returns (m: Item)
    requires pos <= |text| && depth <= LIMIT && Value(text, pos, depth, floats).Ok?
    ensures var r := Value(text, pos, depth, floats);
            ItemOk(m) && Writes(m.value, r.value, depth, floats) && text[pos..SkipSpace(text, r.next)] == PrintItem(m)
    decreases |text| - pos, 2
  {
    var before, t := ValueSound(text, pos, depth, floats);
    var next := Value(text, pos, depth, floats).next;
    SkipSpaceSound(text, next);
    m := Item(before, t, text[next..SkipSpace(text, next)]);
    Joint(text, pos, next, SkipSpace(text, next));
  }

  /** The items and the bracket make up `slice`, and add their meaning to `values`. */
  ghost predicate ItemsWrite(items: seq<Item>, slice: Bytes, values: seq<Json>, result: seq<Json>, depth: nat, floats: Floats) {
    && items != [] && ItemsFine(items, floats) && depth + TreesDepth(items) <= LIMIT
    && result == values + ItemsMeaning(items, floats)
    && slice == PrintItems(items) + [CLOSE_BRACKET]
  }

  lemma LastItem(m: Item, values: seq<Json>, depth: nat, floats: Floats)
    requires ItemOk(m) && InRange(m.value, floats) && depth + TreeDepth(m.value) <= LIMIT
    ensures ItemsWrite([m], PrintItem(m) + [CLOSE_BRACKET], values, values + [Meaning(m.value, floats)], depth, floats)
  {
    ItemsOne(m, floats);
  }

  lemma NextItem(m: Item, rest: seq<Item>, slice: Bytes, values: seq<Json>, result: seq<Json>, depth: nat,
                                    floats: Floats)
    requires ItemOk(m) && InRange(m.value, floats) && depth + TreeDepth(m.value) <= LIMIT
    requires ItemsWrite(rest, slice, values + [Meaning(m.value, floats)], result, depth, floats)
    ensures ItemsWrite([m] + rest, PrintItem(m) + [COMMA] + slice, values, result, depth, floats)
  {
    ItemsCons(m, rest, floats);
    Regroup(PrintItem(m) + [COMMA], PrintItems(rest), [CLOSE_BRACKET]);
    Regroup(values, [Meaning(m.value, floats)], ItemsMeaning(rest, floats));
  }

  lemma {:induction false} ElementsSound(text: Bytes, pos: nat, depth: nat, values: seq<Json>, floats: Floats)
    returns (items: seq<Item>)
    requires pos <= |text| && depth <= LIMIT && Elements(text, pos, depth, values, floats).Ok?
    ensures var r := Elements(text, pos, depth, values, floats);
            ItemsWrite(items, text[pos..r.next], values, r.value, depth, floats)
    decreases |text| - pos, 3
  {
    var m := ItemSound(text, pos, depth, floats);
    var r := Elements(text, pos, depth, values, floats);
    var value := Value(text, pos, depth, floats).value;
    var end := SkipSpace(text, Value(text, pos, depth, floats).next);
    if text[end] == CLOSE_BRACKET {
      items := [m];
      LastItem(m, values, depth, floats);
      LastByte(text, pos, end);
    } else {
      var rest := ElementsSound(text, end + 1, depth, values + [value], floats);
      items := [m] + rest;
      NextItem(m, rest, text[end + 1..r.next], values, r.value, depth, floats);
      Around(text, pos, end, r.next);
    }
  }

  lemma EmptyObject(text: Bytes, pos: nat, depth: nat, floats: Floats) returns (t: Tree)
    requires Sees(text, pos, OPEN_BRACE) && depth < LIMIT
    requires Sees(text, SkipSpace(text, pos + 1), CLOSE_BRACE)
    ensures var r := ValueAt(text, pos, depth, floats);
            r.Ok? && Writes(t, r.value, depth, floats) && text[pos..r.next] == Print(t)
  {
    var start := SkipSpace(text, pos + 1);
    EmptySound(text, pos);
    t := ObjectTree(text[pos + 1..start], []);
    Bracketed(OPEN_BRACE, text[pos + 1..start], CLOSE_BRACE);
  }

  lemma {:induction false} ObjectSound(text: Bytes, pos: nat, depth: nat, floats: Floats) returns (t: Tree)
    requires Sees(text, pos, OPEN_BRACE) && depth <= LIMIT && ValueAt(text, pos, depth, floats).Ok?
    ensures var r := ValueAt(text, pos, depth, floats);
            Writes(t, r.value, depth, floats) && text[pos..r.next] == Print(t)
    decreases |text| - pos, 0
  {
    if Sees(text, SkipSpace(text, pos + 1), CLOSE_BRACE) {
      t := EmptyObject(text, pos, depth, floats);
    } else {
      var members := PairsSound(text, pos + 1, depth + 1, [], floats);
      t := ObjectTree([], members);
      FirstByte(text, pos, ValueAt(text, pos, depth, floats).next);
      NothingBefore(MembersMeaning(members, floats));
      Bracketed(OPEN_BRACE, PrintMembers(members), CLOSE_BRACE);
    }
  }

  lemma KeySound(text: Bytes, pos: nat)
    returns (before: Bytes, key: seq<Piece>, after: Bytes)
    requires pos <= |text| && KeyAt(text, pos).Ok?
    ensures Spaces(before) && PiecesOk(key) && PiecesMeaning(key) == KeyAt(text, pos).value && Spaces(after)
    ensures text[pos..KeyAt(text, pos).next] == before + PrintString(key) + after + [COLON]
  {
    var start := SkipSpace(text, pos);
    SkipSpaceSound(text, pos);
    key := StringSound(text, start);
    var keyEnd := Chars(text, start + 1, []).next;
    var colon := SkipSpace(text, keyEnd);
    SkipSpaceSound(text, keyEnd);
    before, after := text[pos..start], text[keyEnd..colon];
    Joint(text, pos, start, keyEnd);
    Joint(text, pos, keyEnd, colon);
    LastByte(text, pos, colon);
  }

  lemma MemberText(m: Member)
    ensures PrintMember(m) == m.before + PrintString(m.key) + m.afterKey + [COLON]
                              + PrintItem(Item(m.beforeValue, m.value, m.after))
  {
    var front := m.before + PrintString(m.key) + m.afterKey + [COLON];
    Regroup(front, m.beforeValue, Print(m.value));
    Regroup(front, m.beforeValue + Print(m.value), m.after);
  }

  /** One member, with the whitespace around it. */
  lemma {:induction false} MemberSound(text: Bytes, pos: nat, depth: nat, floats: Floats) returns (m: Member)
    requires pos <= |text| && depth <= LIMIT && MemberAt(text, pos, depth, floats).Ok?
    ensures var r := MemberAt(text, pos, depth, floats);
            && MemberOk(m) && PiecesMeaning(m.key) == r.value.key && Writes(m.value, r.value.value, depth, floats)
            && text[pos..SkipSpace(text, r.next)] == PrintMember(m)
    decreases |text| - pos, 2
  {
    var before, key, afterKey := KeySound(text, pos);
    var valueStart := KeyAt(text, pos).next;
    var item := ItemSound(text, valueStart, depth, floats);
    m := Member(before, key, afterKey, item.before, item.value, item.after);
    Joint(text, pos, valueStart, SkipSpace(text, MemberAt(text, pos, depth, floats).next));
    MemberText(m);
  }

  /** The members and the brace make up `slice`, and add their meaning to `entries`. */
  ghost predicate MembersWrite(members: seq<Member>, slice: Bytes, entries: seq<Entry>, result: seq<Entry>, depth: nat,
                               floats: Floats) {
    && members != [] && MembersFine(members, floats) && depth + MembersDepth(members) <= LIMIT
    && result == entries + MembersMeaning(members, floats)
    && slice == PrintMembers(members) + [CLOSE_BRACE]
  }

  function EntryMeaning(m: Member, floats: Floats): Entry
    requires MemberOk(m) && InRange(m.value, floats)
  {
    Entry(PiecesMeaning(m.key), Meaning(m.value, floats))
  }

  lemma LastMember(m: Member, entries: seq<Entry>, depth: nat, floats: Floats)
    requires MemberOk(m) && InRange(m.value, floats) && depth + TreeDepth(m.value) <= LIMIT
    ensures MembersWrite([m], PrintMember(m) + [CLOSE_BRACE], entries, entries + [EntryMeaning(m, floats)], depth, floats)
  {
    MembersOne(m, floats);
  }

  lemma NextMember(m: Member, rest: seq<Member>, slice: Bytes, entries: seq<Entry>, result: seq<Entry>,
                                      depth: nat, floats: Floats)
    requires MemberOk(m) && InRange(m.value, floats) && depth + TreeDepth(m.value) <= LIMIT
    requires MembersWrite(rest, slice, entries + [EntryMeaning(m, floats)], result, depth, floats)
    ensures MembersWrite([m] + rest, PrintMember(m) + [COMMA] + slice, entries, result, depth, floats)
  {
    MembersCons(m, rest, floats);
    Regroup(PrintMember(m) + [COMMA], PrintMembers(rest), [CLOSE_BRACE]);
    Regroup(entries, [EntryMeaning(m, floats)], MembersMeaning(rest, floats));
  }

  lemma {:induction false} PairsSound(text: Bytes, pos: nat, depth: nat, entries: seq<Entry>, floats: Floats)
    returns (members: seq<Member>)
    requires pos <= |text| && depth <= LIMIT && Pairs(text, pos, depth, entries, floats).Ok?
    ensures var r := Pairs(text, pos, depth, entries, floats);
            MembersWrite(members, text[pos..r.next], entries, r.value, depth, floats)
    decreases |text| - pos, 3
  {
    var m := MemberSound(text, pos, depth, floats);
    var r := Pairs(text, pos, depth, entries, floats);
    var entry := MemberAt(text, pos, depth, floats).value;
    var end := SkipSpace(text, MemberAt(text, pos, depth, floats).next);
    if text[end] == CLOSE_BRACE {
      members := [m];
      LastMember(m, entries, depth, floats);
      LastByte(text, pos, end);
    } else {
      var rest := PairsSound(text, end + 1, depth, entries + [entry], floats);
      members := [m] + rest;
      NextMember(m, rest, text[end + 1..r.next], entries, r.value, depth, floats);
      Around(text, pos, end, r.next);
    }
  }

  /** A document of the grammar whose text this is, with the meaning that was returned. */
  lemma ParseSound(text: Bytes, floats: Floats) returns (d: Document)
    requires Parse(text, floats).Ok?
    ensures DocumentOk(d) && PrintDocument(d) == text && TreeDepth(d.value) <= LIMIT
    ensures InRange(d.value, floats) && Meaning(d.value, floats) == Parse(text, floats).value
  {
    var m := ItemSound(text, 0, 0, floats);
    d := Document(m.before, m.value, m.after);
    assert text[0..|text|] == text;
  }
}
