/** The reader accepts every text of the grammar that nests no deeper than the limit, and rejects the others. */
module JsonCompleteness {
  import opened Options
  import opened Utf8
  import opened JsonValue
  import opened JsonGrammar
  import opened JsonParser
  import opened JsonTokens
  import opened JsonNumbers
  import JsonSoundness

  /** The tree is read as it should be, unless it nests too deep. */
  ghost predicate Reads(r: Parsed<Json>, t: Tree, depth: nat, next: nat, floats: Floats)
    requires TreeOk(t) && InRange(t, floats)
  {
    if depth + TreeDepth(t) <= LIMIT then r == Ok(Meaning(t, floats), next) else Limited(r)
  }

  /** The tree that stands here is read. */
  ghost predicate ReadsTree(text: Bytes, pos: nat, t: Tree, depth: nat, next: nat, floats: Floats)
    requires pos <= |text| && TreeOk(t) && InRange(t, floats)
  {
    Reads(ValueAt(text, pos, depth, floats), t, depth, next, floats)
  }

  /** The tree that stands here behind whitespace is read. */
  ghost predicate ReadsValue(text: Bytes, pos: nat, t: Tree, depth: nat, next: nat, floats: Floats)
    requires pos <= |text| && TreeOk(t) && InRange(t, floats)
  {
    Reads(Value(text, pos, depth, floats), t, depth, next, floats)
  }

  /** The text `s` stands from `pos` to `next`. */
  ghost predicate Stands(text: Bytes, pos: nat, s: Bytes, next: nat) {
    At(text, pos, s) && next == pos + |s|
  }

  predicate Limited<T>(r: Parsed<T>) {
    r.Error? && r.fault == NestingLimit
  }

  /** A tree starts with none of the bytes that may stand in front of it or end a list. */
  lemma TreeStart(t: Tree)
    requires TreeOk(t)
    ensures Print(t) != []
    ensures !Space(Print(t)[0]) && Print(t)[0] !in {COMMA, CLOSE_BRACKET, CLOSE_BRACE}
  {
    if t.NumberTree? {
      assert PrintNumber(t.number)[0] == if t.number.negative then MINUS else t.number.whole[0];
    }
  }

  lemma StringStart(pieces: seq<Piece>)
    ensures PrintString(pieces)[0] == QUOTE
  {
  }

  // ----- strings, numbers and literals -----

  lemma OtherStart(text: Bytes, pos: nat, s: Bytes, other: Bytes)
    requires At(text, pos, s) && s != [] && other != [] && s[0] != other[0]
    ensures pos < |text| && text[pos] == s[0] && !At(text, pos, other)
  {
    AtFirst(text, pos, s);
    assert pos + |other| <= |text| ==> text[pos..pos + |other|][0] == text[pos];
  }

  lemma NumberTreeComplete(text: Bytes, pos: nat, t: Tree, depth: nat, next: nat, floats: Floats)
    requires t.NumberTree? && TreeOk(t) && InRange(t, floats) && depth <= LIMIT
    requires Stands(text, pos, Print(t), next) && Delimited(text, next)
    ensures ReadsTree(text, pos, t, depth, next, floats)
  {
    NumberComplete(text, pos, t.number, floats);
  }

  lemma StringTreeComplete(text: Bytes, pos: nat, t: Tree, depth: nat, next: nat, floats: Floats)
    requires t.StringTree? && TreeOk(t) && depth <= LIMIT && Stands(text, pos, Print(t), next)
    ensures ReadsTree(text, pos, t, depth, next, floats)
  {
    StringComplete(text, pos, t.pieces);
  }

  lemma LiteralComplete(text: Bytes, pos: nat, t: Tree, depth: nat, next: nat, floats: Floats)
    requires (t.TrueTree? || t.FalseTree? || t.NullTree?) && depth <= LIMIT && Stands(text, pos, Print(t), next)
    ensures ReadsTree(text, pos, t, depth, next, floats)
  {
    match t
    case TrueTree => AtFirst(text, pos, TRUE);
    case FalseTree => OtherStart(text, pos, FALSE, TRUE);
    case NullTree =>
      OtherStart(text, pos, NULL, TRUE);
      OtherStart(text, pos, NULL, FALSE);
  }

  // ----- arrays and objects -----

  /** Behind the whitespace stands the tree. */
  lemma TreeReached(text: Bytes, pos: nat, before: Bytes, t: Tree)
    requires Spaces(before) && TreeOk(t) && At(text, pos, before + Print(t))
    ensures var start := pos + |before|;
            && start < |text| && SkipSpace(text, pos) == start && At(text, start, Print(t))
            && text[start] !in {COMMA, CLOSE_BRACKET, CLOSE_BRACE}
  {
    AtConcat(text, pos, before, Print(t));
    TreeStart(t);
    AtFirst(text, pos + |before|, Print(t));
    SkipSpaceComplete(text, pos, before);
  }

  /** A tree is read where it stands. */
  lemma {:induction false} TreeComplete(text: Bytes, pos: nat, t: Tree, depth: nat, next: nat, floats: Floats)
    requires TreeOk(t) && InRange(t, floats) && depth <= LIMIT
    requires Stands(text, pos, Print(t), next) && Delimited(text, next)
    ensures ReadsTree(text, pos, t, depth, next, floats)
    decreases t, 1
  {
    if t.ArrayTree? {
      ArrayComplete(text, pos, t, depth, next, floats);
    } else if t.ObjectTree? {
      ObjectComplete(text, pos, t, depth, next, floats);
    } else if t.NumberTree? {
      NumberTreeComplete(text, pos, t, depth, next, floats);
    } else if t.StringTree? {
      StringTreeComplete(text, pos, t, depth, next, floats);
    } else {
      LiteralComplete(text, pos, t, depth, next, floats);
    }
  }

  lemma {:induction false} ValueComplete(text: Bytes, pos: nat, before: Bytes, t: Tree, depth: nat, next: nat,
                                         floats: Floats)
    requires Spaces(before) && TreeOk(t) && InRange(t, floats) && depth <= LIMIT
    requires Stands(text, pos, before + Print(t), next) && Delimited(text, next)
    ensures ReadsValue(text, pos, t, depth, next, floats)
    decreases t, 2
  {
    TreeReached(text, pos, before, t);
    TreeComplete(text, pos + |before|, t, depth, next, floats);
    ReadsBehindSpace(text, pos, t, depth, next, floats);
  }

  lemma ReadsBehindSpace(text: Bytes, pos: nat, t: Tree, depth: nat, next: nat, floats: Floats)
    requires pos <= |text| && TreeOk(t) && InRange(t, floats)
    requires ReadsTree(text, SkipSpace(text, pos), t, depth, next, floats)
    ensures ReadsValue(text, pos, t, depth, next, floats)
  {
  }

  /** The whitespace between two brackets. */
  lemma EmptyComplete(text: Bytes, pos: nat, open: byte, space: Bytes, close: byte)
    requires Spaces(space) && !Space(close) && At(text, pos, [open] + space + [] + [close])
    ensures Sees(text, pos, open) && SkipSpace(text, pos + 1) == pos + 1 + |space|
    ensures Sees(text, pos + 1 + |space|, close)
  {
    assert [open] + space + [] + [close] == [open] + (space + [close]);
    AtConcat(text, pos, [open], space + [close]);
    AtByte(text, pos, open);
    AtConcat(text, pos + 1, space, [close]);
    AtByte(text, pos + 1 + |space|, close);
    SkipSpaceComplete(text, pos + 1, space);
  }

  /** What stands between two brackets. */
  lemma FilledComplete(text: Bytes, pos: nat, open: byte, inner: Bytes, close: byte)
    requires At(text, pos, [open] + [] + inner + [close])
    ensures Sees(text, pos, open) && At(text, pos + 1, inner + [close])
  {
    assert [open] + [] + inner + [close] == [open] + (inner + [close]);
    AtConcat(text, pos, [open], inner + [close]);
    AtByte(text, pos, open);
  }

  lemma EmptyArrayComplete(text: Bytes, pos: nat, t: Tree, depth: nat, next: nat, floats: Floats)
    requires t.ArrayTree? && t.items == [] && TreeOk(t) && depth <= LIMIT && Stands(text, pos, Print(t), next)
    ensures ReadsTree(text, pos, t, depth, next, floats)
  {
    assert Print(t) == [OPEN_BRACKET] + t.space + [] + [CLOSE_BRACKET];
    assert TreesDepth([]) == 0;
    EmptyComplete(text, pos, OPEN_BRACKET, t.space, CLOSE_BRACKET);
  }

  lemma ArrayOpens(text: Bytes, pos: nat, t: Tree, next: nat)
    requires t.ArrayTree? && t.items != [] && TreeOk(t) && Stands(text, pos, Print(t), next)
    ensures Sees(text, pos, OPEN_BRACKET) && !Sees(text, SkipSpace(text, pos + 1), CLOSE_BRACKET)
    ensures Stands(text, pos + 1, PrintItems(t.items) + [CLOSE_BRACKET], next)
  {
    FilledComplete(text, pos, OPEN_BRACKET, PrintItems(t.items), CLOSE_BRACKET);
    ItemsStart(text, pos + 1, t.items);
  }

  /** An array is read when its items are. */
  lemma JoinArray(text: Bytes, pos: nat, t: Tree, depth: nat, next: nat, floats: Floats)
    requires t.ArrayTree? && t.items != [] && TreeOk(t) && InRange(t, floats) && depth < LIMIT
    requires Sees(text, pos, OPEN_BRACKET) && !Sees(text, SkipSpace(text, pos + 1), CLOSE_BRACKET)
    requires ReadsElements(text, pos + 1, t.items, depth + 1, [], next, floats)
    ensures ReadsTree(text, pos, t, depth, next, floats)
  {
    NothingBefore(ItemsMeaning(t.items, floats));
  }

  lemma ArrayTooDeep(text: Bytes, pos: nat, t: Tree, depth: nat, next: nat, floats: Floats)
    requires t.ArrayTree? && TreeOk(t) && InRange(t, floats) && depth >= LIMIT && Sees(text, pos, OPEN_BRACKET)
    ensures ReadsTree(text, pos, t, depth, next, floats)
  {
  }

  lemma {:induction false} ArrayComplete(text: Bytes, pos: nat, t: Tree, depth: nat, next: nat, floats: Floats)
    requires t.ArrayTree? && TreeOk(t) && InRange(t, floats) && depth <= LIMIT && Stands(text, pos, Print(t), next)
    ensures ReadsTree(text, pos, t, depth, next, floats)
    decreases t, 0
  {
    if t.items == [] {
      EmptyArrayComplete(text, pos, t, depth, next, floats);
    } else {
      ArrayOpens(text, pos, t, next);
      if depth == LIMIT {
        ArrayTooDeep(text, pos, t, depth, next, floats);
      } else {
        ElementsComplete(text, pos + 1, t.items, depth + 1, [], next, floats);
        JoinArray(text, pos, t, depth, next, floats);
      }
    }
  }

  lemma AtList(text: Bytes, pos: nat, first: Bytes, rest: Bytes, close: byte)
    requires At(text, pos, first + [COMMA] + rest + [close])
    ensures At(text, pos, first) && Sees(text, pos + |first|, COMMA) && At(text, pos + |first| + 1, rest + [close])
  {
    Regroup(first + [COMMA], rest, [close]);
    AtConcat(text, pos, first + [COMMA], rest + [close]);
    AtConcat(text, pos, first, [COMMA]);
    AtByte(text, pos + |first|, COMMA);
  }

  /** The tree that stands here, with whitespace around it, up to `end`, is read, unless it nests too deep. */
  ghost predicate ReadsItem(text: Bytes, pos: nat, t: Tree, depth: nat, end: nat, floats: Floats)
    requires pos <= |text| && TreeOk(t) && InRange(t, floats)
  {
    var r := Value(text, pos, depth, floats);
    if depth + TreeDepth(t) <= LIMIT
    then r.Ok? && r.value == Meaning(t, floats) && SkipSpace(text, r.next) == end
    else Limited(r)
  }

  /** The parts of an item: the tree with the whitespace before it, and the whitespace behind it. */
  lemma ItemParts(text: Bytes, pos: nat, m: Item, end: nat) returns (next: nat)
    requires Spaces(m.after) && Stands(text, pos, PrintItem(m), end) && EndsSpace(text, end) && Delimited(text, end)
    ensures Stands(text, pos, m.before + Print(m.value), next)
    ensures next <= |text| && Delimited(text, next) && SkipSpace(text, next) == end
  {
    next := pos + |m.before + Print(m.value)|;
    AtConcat(text, pos, m.before + Print(m.value), m.after);
    if m.after != [] {
      AtFirst(text, next, m.after);
    }
    SkipSpaceComplete(text, next, m.after);
  }

  /** One item in front of a comma or a bracket. */
  lemma {:induction false} ItemComplete(text: Bytes, pos: nat, m: Item, depth: nat, end: nat, floats: Floats)
    requires ItemOk(m) && InRange(m.value, floats) && depth <= LIMIT
    requires Stands(text, pos, PrintItem(m), end) && EndsSpace(text, end) && Delimited(text, end)
    ensures ReadsItem(text, pos, m.value, depth, end, floats)
    decreases m.value, 3
  {
    var next := ItemParts(text, pos, m, end);
    ValueComplete(text, pos, m.before, m.value, depth, next, floats);
    SpaceBehind(text, pos, m.value, depth, next, floats);
  }

  lemma SpaceBehind(text: Bytes, pos: nat, t: Tree, depth: nat, next: nat, floats: Floats)
    requires pos <= |text| && next <= |text| && TreeOk(t) && InRange(t, floats)
    requires ReadsValue(text, pos, t, depth, next, floats)
    ensures ReadsItem(text, pos, t, depth, SkipSpace(text, next), floats)
  {
  }

  /** The loop of an array goes round once. */
  lemma ElementsRound(text: Bytes, pos: nat, depth: nat, values: seq<Json>, floats: Floats)
    requires pos <= |text|
    ensures var r, all := Value(text, pos, depth, floats), Elements(text, pos, depth, values, floats);
            if r.Error? then all == Error(r.fault, r.at)
            else
              var end := SkipSpace(text, r.next);
              && (Sees(text, end, CLOSE_BRACKET) ==> all == Ok(values + [r.value], end + 1))
              && (Sees(text, end, COMMA) ==> all == Elements(text, end + 1, depth, values + [r.value], floats))
  {
  }

  /** The items that stand here, up to the bracket before `next`, are read, unless they nest too deep. */
  ghost predicate ReadsItems(r: Parsed<seq<Json>>, items: seq<Item>, depth: nat, values: seq<Json>, next: nat,
                             floats: Floats)
    requires ItemsFine(items, floats)
  {
    if depth + TreesDepth(items) <= LIMIT
    then r == Ok(values + ItemsMeaning(items, floats), next)
    else Limited(r)
  }

  ghost predicate ReadsElements(text: Bytes, pos: nat, items: seq<Item>, depth: nat, values: seq<Json>, next: nat,
                                floats: Floats)
    requires pos <= |text| && ItemsFine(items, floats)
  {
    ReadsItems(Elements(text, pos, depth, values, floats), items, depth, values, next, floats)
  }

  lemma LastItem(text: Bytes, pos: nat, items: seq<Item>, depth: nat, values: seq<Json>, end: nat,
                                      floats: Floats)
    requires pos <= |text| && |items| == 1 && ItemsFine(items, floats)
    requires ReadsItem(text, pos, items[0].value, depth, end, floats) && Sees(text, end, CLOSE_BRACKET)
    ensures ReadsElements(text, pos, items, depth, values, end + 1, floats)
  {
    ElementsRound(text, pos, depth, values, floats);
    assert items == [items[0]];
    JsonSoundness.ItemsOne(items[0], floats);
  }

  lemma JoinItems(r: Parsed<seq<Json>>, items: seq<Item>, depth: nat, values: seq<Json>,
                                     more: seq<Json>, next: nat, floats: Floats)
    requires |items| > 1 && ItemsFine(items, floats) && more == values + [Meaning(items[0].value, floats)]
    requires ReadsItems(r, items[1..], depth, more, next, floats)
    ensures depth + TreeDepth(items[0].value) <= LIMIT ==> ReadsItems(r, items, depth, values, next, floats)
    ensures depth + TreeDepth(items[0].value) > LIMIT ==> depth + TreesDepth(items) > LIMIT
  {
    assert items == [items[0]] + items[1..];
    JsonSoundness.ItemsCons(items[0], items[1..], floats);
    Regroup(values, [Meaning(items[0].value, floats)], ItemsMeaning(items[1..], floats));
  }

  lemma NextItem(text: Bytes, pos: nat, items: seq<Item>, depth: nat, values: seq<Json>,
                                    more: seq<Json>, end: nat, next: nat, floats: Floats)
    requires pos <= |text| && |items| > 1 && ItemsFine(items, floats)
    requires more == values + [Meaning(items[0].value, floats)]
    requires ReadsItem(text, pos, items[0].value, depth, end, floats) && Sees(text, end, COMMA)
    requires ReadsElements(text, end + 1, items[1..], depth, more, next, floats)
    ensures ReadsElements(text, pos, items, depth, values, next, floats)
  {
    ElementsRound(text, pos, depth, values, floats);
    JoinItems(Elements(text, end + 1, depth, more, floats), items, depth, values, more, next, floats);
  }

  /** What stands behind the first of some items, up to `next`: the bracket, or a comma and the others. */
  ghost predicate ItemsFollow(text: Bytes, items: seq<Item>, end: nat, next: nat)
    requires items != []
  {
    if |items| == 1 then Sees(text, end, CLOSE_BRACKET) && next == end + 1
    else Sees(text, end, COMMA) && Stands(text, end + 1, PrintItems(items[1..]) + [CLOSE_BRACKET], next)
  }

  /** A list of items is its first one and what follows it. */
  lemma FirstItem(text: Bytes, pos: nat, items: seq<Item>, next: nat) returns (end: nat)
    requires items != [] && Stands(text, pos, PrintItems(items) + [CLOSE_BRACKET], next)
    ensures Stands(text, pos, PrintItem(items[0]), end) && ItemsFollow(text, items, end, next)
    ensures EndsSpace(text, end) && Delimited(text, end)
  {
    var first := PrintItem(items[0]);
    end := pos + |first|;
    if |items| == 1 {
      AtConcat(text, pos, first, [CLOSE_BRACKET]);
      AtByte(text, pos + |first|, CLOSE_BRACKET);
    } else {
      AtList(text, pos, first, PrintItems(items[1..]), CLOSE_BRACKET);
    }
  }

  /** The first item does not look like the end of the array. */
  lemma ItemsStart(text: Bytes, pos: nat, items: seq<Item>)
    requires items != [] && ItemOk(items[0]) && At(text, pos, PrintItems(items) + [CLOSE_BRACKET])
    ensures pos <= |text| && !Sees(text, SkipSpace(text, pos), CLOSE_BRACKET)
  {
    var end := FirstItem(text, pos, items, pos + |PrintItems(items) + [CLOSE_BRACKET]|);
    ItemStart(text, pos, items[0]);
  }

  lemma ItemStart(text: Bytes, pos: nat, m: Item)
    requires ItemOk(m) && At(text, pos, PrintItem(m))
    ensures pos <= |text| && !Sees(text, SkipSpace(text, pos), CLOSE_BRACKET)
  {
    AtConcat(text, pos, m.before + Print(m.value), m.after);
    TreeReached(text, pos, m.before, m.value);
  }

  /** The first item is read. */
  lemma {:induction false} FirstItemRead(text: Bytes, pos: nat, items: seq<Item>, depth: nat, next: nat, floats: Floats)
    returns (end: nat)
    requires items != [] && ItemsFine(items, floats) && depth <= LIMIT
    requires Stands(text, pos, PrintItems(items) + [CLOSE_BRACKET], next)
    ensures pos <= |text| && ReadsItem(text, pos, items[0].value, depth, end, floats)
    ensures ItemsFollow(text, items, end, next)
    decreases items, 0
  {
    end := FirstItem(text, pos, items, next);
    ItemComplete(text, pos, items[0], depth, end, floats);
  }

  lemma {:induction false} ElementsComplete(text: Bytes, pos: nat, items: seq<Item>, depth: nat, values: seq<Json>,
                                            next: nat, floats: Floats)
    requires items != [] && ItemsFine(items, floats) && depth <= LIMIT
    requires Stands(text, pos, PrintItems(items) + [CLOSE_BRACKET], next)
    ensures pos <= |text| && ReadsElements(text, pos, items, depth, values, next, floats)
    decreases items, 1
  {
    var end := FirstItemRead(text, pos, items, depth, next, floats);
    if |items| == 1 {
      LastItem(text, pos, items, depth, values, end, floats);
    } else {
      var more := values + [Meaning(items[0].value, floats)];
      ElementsComplete(text, end + 1, items[1..], depth, more, next, floats);
      NextItem(text, pos, items, depth, values, more, end, next, floats);
    }
  }

  lemma EmptyObjectComplete(text: Bytes, pos: nat, t: Tree, depth: nat, next: nat, floats: Floats)
    requires t.ObjectTree? && t.members == [] && TreeOk(t) && depth <= LIMIT && Stands(text, pos, Print(t), next)
    ensures ReadsTree(text, pos, t, depth, next, floats)
  {
    assert Print(t) == [OPEN_BRACE] + t.space + [] + [CLOSE_BRACE];
    assert MembersDepth([]) == 0;
    EmptyComplete(text, pos, OPEN_BRACE, t.space, CLOSE_BRACE);
  }

  lemma ObjectOpens(text: Bytes, pos: nat, t: Tree, next: nat)
    requires t.ObjectTree? && t.members != [] && TreeOk(t) && Stands(text, pos, Print(t), next)
    ensures Sees(text, pos, OPEN_BRACE) && !Sees(text, SkipSpace(text, pos + 1), CLOSE_BRACE)
    ensures Stands(text, pos + 1, PrintMembers(t.members) + [CLOSE_BRACE], next)
  {
    FilledComplete(text, pos, OPEN_BRACE, PrintMembers(t.members), CLOSE_BRACE);
    MembersStart(text, pos + 1, t.members);
  }

  /** An object is read when its members are. */
  lemma JoinObject(text: Bytes, pos: nat, t: Tree, depth: nat, next: nat, floats: Floats)
    requires t.ObjectTree? && t.members != [] && TreeOk(t) && InRange(t, floats) && depth < LIMIT
    requires Sees(text, pos, OPEN_BRACE) && !Sees(text, SkipSpace(text, pos + 1), CLOSE_BRACE)
    requires ReadsPairs(text, pos + 1, t.members, depth + 1, [], next, floats)
    ensures ReadsTree(text, pos, t, depth, next, floats)
  {
    NothingBefore(MembersMeaning(t.members, floats));
  }

  lemma ObjectTooDeep(text: Bytes, pos: nat, t: Tree, depth: nat, next: nat, floats: Floats)
    requires t.ObjectTree? && TreeOk(t) && InRange(t, floats) && depth >= LIMIT && Sees(text, pos, OPEN_BRACE)
    ensures ReadsTree(text, pos, t, depth, next, floats)
  {
  }

  lemma {:induction false} ObjectComplete(text: Bytes, pos: nat, t: Tree, depth: nat, next: nat, floats: Floats)
    requires t.ObjectTree? && TreeOk(t) && InRange(t, floats) && depth <= LIMIT && Stands(text, pos, Print(t), next)
    ensures ReadsTree(text, pos, t, depth, next, floats)
    decreases t, 0
  {
    if t.members == [] {
      EmptyObjectComplete(text, pos, t, depth, next, floats);
    } else {
      ObjectOpens(text, pos, t, next);
      if depth == LIMIT {
        ObjectTooDeep(text, pos, t, depth, next, floats);
      } else {
        PairsComplete(text, pos + 1, t.members, depth + 1, [], next, floats);
        JoinObject(text, pos, t, depth, next, floats);
      }
    }
  }

  /** What stands behind the first of some members, up to `next`: the brace, or a comma and the others. */
  ghost predicate MembersFollow(text: Bytes, members: seq<Member>, end: nat, next: nat)
    requires members != []
  {
    if |members| == 1 then Sees(text, end, CLOSE_BRACE) && next == end + 1
    else Sees(text, end, COMMA) && Stands(text, end + 1, PrintMembers(members[1..]) + [CLOSE_BRACE], next)
  }

  /** A list of members is its first one and what follows it. */
  lemma FirstMember(text: Bytes, pos: nat, members: seq<Member>, next: nat) returns (end: nat)
    requires members != [] && Stands(text, pos, PrintMembers(members) + [CLOSE_BRACE], next)
    ensures Stands(text, pos, PrintMember(members[0]), end) && MembersFollow(text, members, end, next)
    ensures EndsSpace(text, end) && Delimited(text, end)
  {
    var first := PrintMember(members[0]);
    end := pos + |first|;
    if |members| == 1 {
      AtConcat(text, pos, first, [CLOSE_BRACE]);
      AtByte(text, pos + |first|, CLOSE_BRACE);
    } else {
      AtList(text, pos, first, PrintMembers(members[1..]), CLOSE_BRACE);
    }
  }

  /** Where the key of a member ends. */
  function KeyEnd(pos: nat, m: Member): nat {
    pos + |m.before| + |PrintString(m.key)|
  }

  /** Where the whitespace before the value of a member starts. */
  function ValueStart(pos: nat, m: Member): nat {
    KeyEnd(pos, m) + |m.afterKey| + 1
  }

  function ItemOf(m: Member): Item {
    Item(m.beforeValue, m.value, m.after)
  }

  /** The key and the colon of a member stand here. */
  ghost predicate KeyStands(text: Bytes, pos: nat, m: Member) {
    && At(text, pos, m.before) && At(text, pos + |m.before|, PrintString(m.key))
    && At(text, KeyEnd(pos, m), m.afterKey) && Sees(text, KeyEnd(pos, m) + |m.afterKey|, COLON)
  }

  lemma KeyParts(text: Bytes, pos: nat, m: Member)
    requires At(text, pos, m.before + PrintString(m.key) + m.afterKey + [COLON])
    ensures KeyStands(text, pos, m)
  {
    var front := m.before + PrintString(m.key);
    AtConcat(text, pos, front + m.afterKey, [COLON]);
    AtByte(text, pos + |front| + |m.afterKey|, COLON);
    AtThree(text, pos, m.before, PrintString(m.key), m.afterKey);
  }

  lemma AtThree(text: Bytes, pos: nat, a: Bytes, b: Bytes, c: Bytes)
    requires At(text, pos, a + b + c)
    ensures At(text, pos, a) && At(text, pos + |a|, b) && At(text, pos + |a| + |b|, c)
  {
    AtConcat(text, pos, a + b, c);
    AtConcat(text, pos, a, b);
  }

  /** The parts of a member. */
  lemma MemberParts(text: Bytes, pos: nat, m: Member, end: nat)
    requires Stands(text, pos, PrintMember(m), end)
    ensures KeyStands(text, pos, m) && Stands(text, ValueStart(pos, m), PrintItem(ItemOf(m)), end)
  {
    var front := m.before + PrintString(m.key) + m.afterKey + [COLON];
    JsonSoundness.MemberText(m);
    AtConcat(text, pos, front, PrintItem(ItemOf(m)));
    KeyParts(text, pos, m);
  }

  /** Behind the whitespace stands the quote of the key. */
  lemma KeyReached(text: Bytes, pos: nat, m: Member)
    requires Spaces(m.before) && KeyStands(text, pos, m)
    ensures pos <= |text| && SkipSpace(text, pos) == pos + |m.before| && Sees(text, pos + |m.before|, QUOTE)
  {
    StringStart(m.key);
    AtFirst(text, pos + |m.before|, PrintString(m.key));
    SkipSpaceComplete(text, pos, m.before);
  }

  lemma MembersStart(text: Bytes, pos: nat, members: seq<Member>)
    requires members != [] && MemberOk(members[0]) && At(text, pos, PrintMembers(members) + [CLOSE_BRACE])
    ensures pos <= |text| && !Sees(text, SkipSpace(text, pos), CLOSE_BRACE)
  {
    var end := FirstMember(text, pos, members, pos + |PrintMembers(members) + [CLOSE_BRACE]|);
    MemberStart(text, pos, members[0], end);
  }

  lemma MemberStart(text: Bytes, pos: nat, m: Member, end: nat)
    requires MemberOk(m) && Stands(text, pos, PrintMember(m), end)
    ensures pos <= |text| && !Sees(text, SkipSpace(text, pos), CLOSE_BRACE)
  {
    MemberParts(text, pos, m, end);
    KeyReached(text, pos, m);
  }

  lemma KeySteps(text: Bytes, pos: nat, start: nat, key: Bytes, keyEnd: nat, colon: nat)
    requires pos <= |text| && SkipSpace(text, pos) == start && Sees(text, start, QUOTE)
    requires Chars(text, start + 1, []) == Ok(key, keyEnd)
    requires SkipSpace(text, keyEnd) == colon && Sees(text, colon, COLON)
    ensures KeyAt(text, pos) == Ok(key, colon + 1)
  {
  }

  lemma KeyCharsComplete(text: Bytes, start: nat, key: seq<Piece>, value: Bytes, keyEnd: nat)
    requires PiecesOk(key) && value == PiecesMeaning(key) && Stands(text, start, PrintString(key), keyEnd)
    ensures start < |text| && Chars(text, start + 1, []) == Ok(value, keyEnd)
  {
    StringComplete(text, start, key);
  }

  /** The key of a member is read; behind the colon stands its value. */
  lemma KeyComplete(text: Bytes, pos: nat, m: Member, key: Bytes)
    requires MemberOk(m) && key == PiecesMeaning(m.key) && KeyStands(text, pos, m)
    ensures pos <= |text| && KeyAt(text, pos) == Ok(key, ValueStart(pos, m))
  {
    var start, keyEnd := pos + |m.before|, KeyEnd(pos, m);
    KeyReached(text, pos, m);
    KeyCharsComplete(text, start, m.key, key, keyEnd);
    SkipSpaceComplete(text, keyEnd, m.afterKey);
    KeySteps(text, pos, start, key, keyEnd, keyEnd + |m.afterKey|);
  }

  /** The member that stands here, up to `end`, is read, unless it nests too deep. */
  ghost predicate ReadsMember(text: Bytes, pos: nat, m: Member, depth: nat, end: nat, floats: Floats)
    requires pos <= |text| && MemberOk(m) && InRange(m.value, floats)
  {
    var r := MemberAt(text, pos, depth, floats);
    if depth + TreeDepth(m.value) <= LIMIT
    then r.Ok? && r.value == JsonSoundness.EntryMeaning(m, floats) && SkipSpace(text, r.next) == end
    else Limited(r)
  }

  lemma JoinMember(text: Bytes, pos: nat, m: Member, depth: nat, valueStart: nat, end: nat, floats: Floats)
    requires pos <= |text| && valueStart <= |text| && MemberOk(m) && InRange(m.value, floats)
    requires KeyAt(text, pos) == Ok(PiecesMeaning(m.key), valueStart)
    requires ReadsItem(text, valueStart, m.value, depth, end, floats)
    ensures ReadsMember(text, pos, m, depth, end, floats)
  {
  }

  lemma {:induction false} MemberComplete(text: Bytes, pos: nat, m: Member, depth: nat, end: nat, floats: Floats)
    requires MemberOk(m) && InRange(m.value, floats) && depth <= LIMIT
    requires Stands(text, pos, PrintMember(m), end) && EndsSpace(text, end) && Delimited(text, end)
    ensures pos <= |text| && ReadsMember(text, pos, m, depth, end, floats)
    decreases m, 1
  {
    var valueStart := ValueStart(pos, m);
    MemberParts(text, pos, m, end);
    KeyComplete(text, pos, m, PiecesMeaning(m.key));
    ItemComplete(text, valueStart, ItemOf(m), depth, end, floats);
    JoinMember(text, pos, m, depth, valueStart, end, floats);
  }

  /** The loop of an object goes round once. */
  lemma PairsRound(text: Bytes, pos: nat, depth: nat, entries: seq<Entry>, floats: Floats)
    requires pos <= |text|
    ensures var r, all := MemberAt(text, pos, depth, floats), Pairs(text, pos, depth, entries, floats);
            if r.Error? then all == Error(r.fault, r.at)
            else
              var end := SkipSpace(text, r.next);
              && (Sees(text, end, CLOSE_BRACE) ==> all == Ok(entries + [r.value], end + 1))
              && (Sees(text, end, COMMA) ==> all == Pairs(text, end + 1, depth, entries + [r.value], floats))
  {
  }

  /** The members that stand here, up to the brace before `next`, are read, unless they nest too deep. */
  ghost predicate ReadsMembers(r: Parsed<seq<Entry>>, members: seq<Member>, depth: nat, entries: seq<Entry>, next: nat,
                               floats: Floats)
    requires MembersFine(members, floats)
  {
    if depth + MembersDepth(members) <= LIMIT
    then r == Ok(entries + MembersMeaning(members, floats), next)
    else Limited(r)
  }

  ghost predicate ReadsPairs(text: Bytes, pos: nat, members: seq<Member>, depth: nat, entries: seq<Entry>, next: nat,
                             floats: Floats)
    requires pos <= |text| && MembersFine(members, floats)
  {
    ReadsMembers(Pairs(text, pos, depth, entries, floats), members, depth, entries, next, floats)
  }

  lemma LastMember(text: Bytes, pos: nat, members: seq<Member>, depth: nat, entries: seq<Entry>, end: nat,
                                      floats: Floats)
    requires pos <= |text| && |members| == 1 && MembersFine(members, floats)
    requires ReadsMember(text, pos, members[0], depth, end, floats) && Sees(text, end, CLOSE_BRACE)
    ensures ReadsPairs(text, pos, members, depth, entries, end + 1, floats)
  {
    PairsRound(text, pos, depth, entries, floats);
    assert members == [members[0]];
    JsonSoundness.MembersOne(members[0], floats);
  }

  lemma JoinMembers(r: Parsed<seq<Entry>>, members: seq<Member>, depth: nat, entries: seq<Entry>,
                                       more: seq<Entry>, next: nat, floats: Floats)
    requires |members| > 1 && MembersFine(members, floats)
    requires more == entries + [JsonSoundness.EntryMeaning(members[0], floats)]
    requires ReadsMembers(r, members[1..], depth, more, next, floats)
    ensures depth + TreeDepth(members[0].value) <= LIMIT ==> ReadsMembers(r, members, depth, entries, next, floats)
    ensures depth + TreeDepth(members[0].value) > LIMIT ==> depth + MembersDepth(members) > LIMIT
  {
    assert members == [members[0]] + members[1..];
    JsonSoundness.MembersCons(members[0], members[1..], floats);
    Regroup(entries, [JsonSoundness.EntryMeaning(members[0], floats)], MembersMeaning(members[1..], floats));
  }

  lemma NextMember(text: Bytes, pos: nat, members: seq<Member>, depth: nat, entries: seq<Entry>,
                                      more: seq<Entry>, end: nat, next: nat, floats: Floats)
    requires pos <= |text| && |members| > 1 && MembersFine(members, floats)
    requires more == entries + [JsonSoundness.EntryMeaning(members[0], floats)]
    requires ReadsMember(text, pos, members[0], depth, end, floats) && Sees(text, end, COMMA)
    requires ReadsPairs(text, end + 1, members[1..], depth, more, next, floats)
    ensures ReadsPairs(text, pos, members, depth, entries, next, floats)
  {
    PairsRound(text, pos, depth, entries, floats);
    JoinMembers(Pairs(text, end + 1, depth, more, floats), members, depth, entries, more, next, floats);
  }

  /** The first member is read. */
  lemma {:induction false} FirstMemberRead(text: Bytes, pos: nat, members: seq<Member>, depth: nat, next: nat,
                                           floats: Floats) returns (end: nat)
    requires members != [] && MembersFine(members, floats) && depth <= LIMIT
    requires Stands(text, pos, PrintMembers(members) + [CLOSE_BRACE], next)
    ensures pos <= |text| && ReadsMember(text, pos, members[0], depth, end, floats)
    ensures MembersFollow(text, members, end, next)
    decreases members, 0
  {
    end := FirstMember(text, pos, members, next);
    MemberComplete(text, pos, members[0], depth, end, floats);
  }

  lemma {:induction false} PairsComplete(text: Bytes, pos: nat, members: seq<Member>, depth: nat, entries: seq<Entry>,
                                         next: nat, floats: Floats)
    requires members != [] && MembersFine(members, floats) && depth <= LIMIT
    requires Stands(text, pos, PrintMembers(members) + [CLOSE_BRACE], next)
    ensures pos <= |text| && ReadsPairs(text, pos, members, depth, entries, next, floats)
    decreases members, 1
  {
    var end := FirstMemberRead(text, pos, members, depth, next, floats);
    if |members| == 1 {
      LastMember(text, pos, members, depth, entries, end, floats);
    } else {
      MorePairs(text, pos, members, depth, entries, end, next, floats);
    }
  }

  /** Behind a comma the others are read. */
  lemma {:induction false} MorePairs(text: Bytes, pos: nat, members: seq<Member>, depth: nat, entries: seq<Entry>,
                                     end: nat, next: nat, floats: Floats)
    requires pos <= |text| && |members| > 1 && MembersFine(members, floats) && depth <= LIMIT
    requires ReadsMember(text, pos, members[0], depth, end, floats) && MembersFollow(text, members, end, next)
    ensures ReadsPairs(text, pos, members, depth, entries, next, floats)
    decreases members, 0
  {
    var more := entries + [JsonSoundness.EntryMeaning(members[0], floats)];
    PairsComplete(text, end + 1, members[1..], depth, more, next, floats);
    NextMember(text, pos, members, depth, entries, more, end, next, floats);
  }

  /** A document of the grammar is accepted if and only if it nests no deeper than 128, with its meaning. */
  lemma ParseComplete(d: Document, floats: Floats)
    requires DocumentOk(d) && InRange(d.value, floats)
    ensures var text := PrintDocument(d);
            if TreeDepth(d.value) <= LIMIT then Parse(text, floats) == Ok(Meaning(d.value, floats), |text|)
            else Limited(Parse(text, floats))
  {
    var text := PrintDocument(d);
    assert text[0..|text|] == text;
    ItemComplete(text, 0, Item(d.before, d.value, d.after), 0, |text|, floats);
  }
}
