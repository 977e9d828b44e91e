/** The values a JSON text denotes, with objects kept as the ordered map of the program. */
module JsonValue {
  import opened Options
  import opened Utf8

  const MIN_INTEGER := -0x8000_0000_0000_0000
  const MAX_INTEGER := 0x7FFF_FFFF_FFFF_FFFF

  /** `bits` is the pattern of an IEEE 754 double. An object lists its entries in the order of their keys. */
  datatype Json =
    | Null
    | Bool(flag: bool)
    | Integer(number: int)
    | Float(bits: bv64)
    | Text(text: Bytes)
    | Array(items: seq<Json>)
    | Object(entries: seq<Entry>)

  datatype Entry = Entry(key: Bytes, value: Json)

  /** Neither an infinity nor a NaN: the exponent field is not all ones. */
  predicate Finite(bits: bv64) {
    bits & 0x7FF0_0000_0000_0000 != 0x7FF0_0000_0000_0000
  }

  // ----- the order of keys -----

  /** Bytewise lexicographic order, the order of Rust strings. */
  predicate Less(a: Bytes, b: Bytes) {
    if b == [] then false
    else if a == [] then true
    else a[0] < b[0] || (a[0] == b[0] && Less(a[1..], b[1..]))
  }

  lemma {:induction false} LessNotBoth(a: Bytes, b: Bytes)
    ensures !(Less(a, b) && Less(b, a))
    ensures !Less(a, a)
    decreases |a|
  {
    if a != [] && b != [] {
      LessNotBoth(a[1..], b[1..]);
    } else if a != [] {
      LessNotBoth(a[1..], a[1..]);
    }
  }

  lemma {:induction false} LessTotal(a: Bytes, b: Bytes)
    ensures Less(a, b) || a == b || Less(b, a)
  {
    if a != [] && b != [] && a[0] == b[0] {
      LessTotal(a[1..], b[1..]);
      assert a == [a[0]] + a[1..] && b == [b[0]] + b[1..];
    }
  }

  lemma {:induction false} LessTransitive(a: Bytes, b: Bytes, c: Bytes)
    requires Less(a, b) && Less(b, c)
    ensures Less(a, c)
  {
    if a != [] && a[0] == b[0] == c[0] {
      LessTransitive(a[1..], b[1..], c[1..]);
    }
  }

  // ----- objects -----

  predicate Sorted(entries: seq<Entry>) {
    forall i, j :: 0 <= i < j < |entries| ==> Less(entries[i].key, entries[j].key)
  }

  function Find(entries: seq<Entry>, key: Bytes): Option<Json> {
    if entries == [] then None
    else if entries[0].key == key then Some(entries[0].value)
    else Find(entries[1..], key)
  }

  /** Puts an entry in its place, over one with the same key. */
  function Insert(entries: seq<Entry>, key: Bytes, value: Json): seq<Entry> {
    if entries == [] || Less(key, entries[0].key) then [Entry(key, value)] + entries
    else if key == entries[0].key then [Entry(key, value)] + entries[1..]
    else [entries[0]] + Insert(entries[1..], key, value)
  }

  function InsertAll(entries: seq<Entry>, more: seq<Entry>): seq<Entry>
    decreases |more|
  {
    if more == [] then entries
    else InsertAll(Insert(entries, more[0].key, more[0].value), more[1..])
  }

  /** The value of the last entry with this key. */
  function FindLast(entries: seq<Entry>, key: Bytes): Option<Json> {
    if entries == [] then None
    else if entries[|entries| - 1].key == key then Some(entries[|entries| - 1].value)
    else FindLast(entries[..|entries| - 1], key)
  }

  predicate Above(low: Bytes, entries: seq<Entry>) {
    forall i :: 0 <= i < |entries| ==> Less(low, entries[i].key)
  }

  lemma {:induction false} InsertAbove(low: Bytes, entries: seq<Entry>, key: Bytes, value: Json)
    requires Above(low, entries) && Less(low, key)
    ensures Above(low, Insert(entries, key, value))
  {
    if !(entries == [] || Less(key, entries[0].key) || key == entries[0].key) {
      InsertAbove(low, entries[1..], key, value);
    }
  }

  lemma {:induction false} InsertSorted(entries: seq<Entry>, key: Bytes, value: Json)
    requires Sorted(entries)
    ensures Sorted(Insert(entries, key, value))
  {
    if entries == [] {
    } else if Less(key, entries[0].key) {
      forall j | 0 <= j < |entries| ensures Less(key, entries[j].key) {
        if j > 0 {
          LessTransitive(key, entries[0].key, entries[j].key);
        }
      }
    } else if key != entries[0].key {
      var rest := Insert(entries[1..], key, value);
      InsertSorted(entries[1..], key, value);
      LessTotal(key, entries[0].key);
      InsertAbove(entries[0].key, entries[1..], key, value);
    }
  }

  lemma {:induction false} FindInsert(entries: seq<Entry>, key: Bytes, value: Json, q: Bytes)
    requires Sorted(entries)
    ensures Find(Insert(entries, key, value), q) == if q == key then Some(value) else Find(entries, q)
  {
    var r := Insert(entries, key, value);
    if entries == [] || Less(key, entries[0].key) {
      assert r[1..] == entries;
    } else if key == entries[0].key {
      assert r[1..] == entries[1..];
    } else {
      FindInsert(entries[1..], key, value, q);
      assert r[1..] == Insert(entries[1..], key, value);
    }
  }

  lemma {:induction false} InsertAllSorted(entries: seq<Entry>, more: seq<Entry>)
    requires Sorted(entries)
    ensures Sorted(InsertAll(entries, more))
    decreases |more|
  {
    if more == [] {
    } else {
      InsertSorted(entries, more[0].key, more[0].value);
      InsertAllSorted(Insert(entries, more[0].key, more[0].value), more[1..]);
    }
  }

  lemma {:induction false} InsertAllConcat(entries: seq<Entry>, more: seq<Entry>, last: Entry)
    ensures InsertAll(entries, more + [last]) == Insert(InsertAll(entries, more), last.key, last.value)
    decreases |more|
  {
    if more == [] {
      assert InsertAll(Insert(entries, last.key, last.value), []) == Insert(entries, last.key, last.value);
    } else {
      assert (more + [last])[1..] == more[1..] + [last];
      InsertAllConcat(Insert(entries, more[0].key, more[0].value), more[1..], last);
    }
  }

  /** Among members with the same key the last one counts. */
  lemma {:induction false} LastDuplicateWins(members: seq<Entry>, key: Bytes)
    ensures Sorted(InsertAll([], members))
    ensures Find(InsertAll([], members), key) == FindLast(members, key)
    decreases |members|
  {
    InsertAllSorted([], members);
    if members != [] {
      var front, last := members[..|members| - 1], members[|members| - 1];
      assert front + [last] == members;
      InsertAllConcat([], front, last);
      LastDuplicateWins(front, key);
      FindInsert(InsertAll([], front), last.key, last.value, key);
    }
  }

  lemma {:induction false} FindAbsent(entries: seq<Entry>, key: Bytes)
    requires Above(key, entries)
    ensures Find(entries, key) == None
  {
    if entries == [] {
    } else {
      LessNotBoth(key, key);
      FindAbsent(entries[1..], key);
    }
  }

  /** Sorted entries are determined by what they map each key to: they are a map. */
  lemma {:induction false} SortedIsMap(a: seq<Entry>, b: seq<Entry>)
    requires Sorted(a) && Sorted(b)
    requires forall key :: Find(a, key) == Find(b, key)
    ensures a == b
    decreases |a|
  {
    SameEmptiness(a, b);
    if a != [] {
      SameFront(a, b);
      forall key ensures Find(a[1..], key) == Find(b[1..], key) {
        if key == a[0].key {
          FindAbsent(a[1..], key);
          FindAbsent(b[1..], key);
        } else {
          assert Find(a, key) == Find(a[1..], key) && Find(b, key) == Find(b[1..], key);
        }
      }
      SortedIsMap(a[1..], b[1..]);
      assert a == [a[0]] + a[1..] && b == [b[0]] + b[1..];
    }
  }

  lemma SameEmptiness(a: seq<Entry>, b: seq<Entry>)
    requires forall key :: Find(a, key) == Find(b, key)
    ensures a == [] <==> b == []
  {
    if a != [] {
      assert Find(a, a[0].key).Some?;
    }
    if b != [] {
      assert Find(b, b[0].key).Some?;
    }
  }

  lemma SameFront(a: seq<Entry>, b: seq<Entry>)
    requires Sorted(a) && Sorted(b) && a != [] && b != []
    requires forall key :: Find(a, key) == Find(b, key)
    ensures a[0] == b[0]
  {
    LessTotal(a[0].key, b[0].key);
    if Less(a[0].key, b[0].key) {
      NotFoundBefore(b, a[0].key);
    } else if Less(b[0].key, a[0].key) {
      NotFoundBefore(a, b[0].key);
    }
    assert Find(a, a[0].key) == Some(a[0].value);
    assert Find(b, b[0].key) == Some(b[0].value);
  }

  lemma NotFoundBefore(entries: seq<Entry>, key: Bytes)
    requires Sorted(entries) && entries != [] && Less(key, entries[0].key)
    ensures Find(entries, key) == None
  {
    forall i | 0 <= i < |entries| ensures Less(key, entries[i].key) {
      if i > 0 {
        LessTransitive(key, entries[0].key, entries[i].key);
      }
    }
    FindAbsent(entries, key);
  }

  /** Entries that are already sorted are inserted one behind the other. */
  lemma {:induction false} InsertAllOfSorted(front: seq<Entry>, more: seq<Entry>)
    requires Sorted(front + more)
    ensures InsertAll(front, more) == front + more
    decreases |more|
  {
    if more == [] {
      assert front + more == front;
    } else {
      var whole := front + more;
      forall i | 0 <= i < |front| ensures Less(front[i].key, more[0].key) {
        assert whole[i] == front[i] && whole[|front|] == more[0];
      }
      InsertAtEnd(front, more[0]);
      assert front + [more[0]] + more[1..] == whole;
      InsertAllOfSorted(front + [more[0]], more[1..]);
    }
  }

  lemma {:induction false} InsertAtEnd(entries: seq<Entry>, last: Entry)
    requires forall i :: 0 <= i < |entries| ==> Less(entries[i].key, last.key)
    ensures Insert(entries, last.key, last.value) == entries + [last]
  {
    if entries == [] {
    } else {
      LessNotBoth(entries[0].key, last.key);
      LessNotBoth(last.key, last.key);
      InsertAtEnd(entries[1..], last);
      assert entries == [entries[0]] + entries[1..];
    }
  }

  // ----- what the program can hold -----

  /** Integers fit 64 bits, strings are UTF-8 and objects are ordered, at every level. */
  predicate Proper(v: Json) {
    match v
    case Integer(n) => MIN_INTEGER <= n <= MAX_INTEGER
    case Text(s) => Valid(s)
    case Array(items) => forall i :: 0 <= i < |items| ==> Proper(items[i])
    case Object(entries) =>
      Sorted(entries) && forall i :: 0 <= i < |entries| ==> Valid(entries[i].key) && Proper(entries[i].value)
    case _ => true
  }

  predicate AllFinite(v: Json) {
    match v
    case Float(bits) => Finite(bits)
    case Array(items) => forall i :: 0 <= i < |items| ==> AllFinite(items[i])
    case Object(entries) => forall i :: 0 <= i < |entries| ==> AllFinite(entries[i].value)
    case _ => true
  }

  function Max(a: nat, b: nat): nat {
    if a < b then b else a
  }

  /** How deep arrays and objects nest. */
  function Depth(v: Json): nat {
    match v
    case Array(items) => 1 + ItemsDepth(items)
    case Object(entries) => 1 + EntriesDepth(entries)
    case _ => 0
  }

  function ItemsDepth(items: seq<Json>): nat {
    if items == [] then 0 else Max(Depth(items[0]), ItemsDepth(items[1..]))
  }

  function EntriesDepth(entries: seq<Entry>): nat {
    if entries == [] then 0 else Max(Depth(entries[0].value), EntriesDepth(entries[1..]))
  }
}
