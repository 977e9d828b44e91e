/** The secondary map: values attached to the keys of a slot map. */
module SecondaryMap {
  import opened Options
  import opened SlotMap

  datatype Attached<+V> = Attached(version: nat, value: V)

  /** One slot for each index; the version is that of the newest key seen. */
  type Slots<+V> = seq<Option<Attached<V>>>

  const HALF := 0x8000_0000

  function Grown<V>(slots: Slots<V>, index: nat): Slots<V> {
    if |slots| <= index then slots + seq(index + 1 - |slots|, _ => None) else slots
  }

  /** `a - b` in 32 bits. */
  function WrappingSub(a: nat, b: nat): nat {
    (a + WORD - b % WORD) % WORD
  }

  /** Returns the value replaced by one with the same key. */
  function Put<V>(slots: Slots<V>, key: Key, value: V): (Slots<V>, Option<V>) {
    if key.index == NULL_INDEX then (slots, None)
    else
      var grown := Grown(slots, key.index);
      var replaced := grown[key.index := Some(Attached(key.version, value))];
      match grown[key.index]
      case None => (replaced, None)
      case Some(entry) =>
        if entry.version == key.version then (replaced, Some(entry.value))
        else if WrappingSub(key.version, entry.version) >= HALF then (grown, None)
        else (replaced, None)
  }

  function Look<V>(slots: Slots<V>, key: Key): Option<V> {
    if key.index < |slots| && slots[key.index].Some? && slots[key.index].value.version == key.version
    then Some(slots[key.index].value.value)
    else None
  }

  function Drop<V>(slots: Slots<V>, key: Key): (Slots<V>, Option<V>) {
    if Look(slots, key).Some? then (slots[key.index := None], Look(slots, key)) else (slots, None)
  }

  // ----- the simple map -----

  /** The newest key of an index, by the number of times its slot has changed hands, and its value. */
  datatype Newest<+V> = Newest(turn: nat, value: V)

  type Simple<V> = map<nat, Newest<V>>

  /** A key on its turn: turns are unbounded, versions are turns in 32 bits. */
  function KeyAtTurn(index: nat, turn: nat): Key {
    Key(index, turn % WORD)
  }

  /** A newer key replaces an older one, and an older one is ignored. */
  function PutNewest<V>(m: Simple<V>, index: nat, turn: nat, value: V): (Simple<V>, Option<V>) {
    if index !in m || m[index].turn < turn then (m[index := Newest(turn, value)], None)
    else if m[index].turn == turn then (m[index := Newest(turn, value)], Some(m[index].value))
    else (m, None)
  }

  function LookNewest<V>(m: Simple<V>, index: nat, turn: nat): Option<V> {
    if index in m && m[index].turn == turn then Some(m[index].value) else None
  }

  function DropNewest<V>(m: Simple<V>, index: nat, turn: nat): (Simple<V>, Option<V>) {
    if LookNewest(m, index, turn).Some? then (m - {index}, LookNewest(m, index, turn)) else (m, None)
  }

  /** The slots show what the simple map holds. */
  ghost predicate Shows<V>(slots: Slots<V>, m: Simple<V>) {
    && |slots| <= NULL_INDEX
    && (forall i :: i in m ==> i < |slots| && slots[i] == Some(Attached(m[i].turn % WORD, m[i].value)))
    && (forall i :: 0 <= i < |slots| && i !in m ==> slots[i] == None)
  }

  lemma Residues(turn: nat, stored: nat)
    ensures WrappingSub(turn % WORD, stored % WORD) == (turn - stored) % WORD
    ensures turn % WORD == stored % WORD <==> (turn - stored) % WORD == 0
  {
    var x, y, q := turn % WORD, stored % WORD, turn / WORD - stored / WORD;
    assert turn - stored == q * WORD + (x - y);
    WholeWords(q, x - y);
  }

  lemma WholeWords(q: int, d: int)
    ensures (q * WORD + d) % WORD == d % WORD
  {
  }

  /** The wrapping comparison of versions orders these turns as they are. */
  predicate Resolved(stored: nat, turn: nat) {
    var distance := (turn - stored) % WORD;
    turn == stored || (distance != 0 && (distance < HALF <==> turn > stored))
  }

  /** No other turn of the index is taken for this one. */
  predicate Unmistaken(stored: nat, turn: nat) {
    turn == stored || (turn - stored) % WORD != 0
  }

  /** Up to 2^31 turns older, or less than that newer. */
  predicate Near(stored: nat, turn: nat) {
    -HALF <= turn - stored < HALF
  }

  /** Near turns are told apart and put in order, across the wraparound of versions. */
  lemma NearIsResolved(stored: nat, turn: nat)
    ensures Near(stored, turn) ==> Resolved(stored, turn)
    ensures Resolved(stored, turn) ==> Unmistaken(stored, turn)
    ensures -WORD < turn - stored < WORD ==> Unmistaken(stored, turn) && (Resolved(stored, turn) <==> Near(stored, turn))
  {
    if -WORD < turn - stored < WORD {
      WholeWords(1, turn - stored);
    }
  }

  lemma PutOnFree<V>(slots: Slots<V>, m: Simple<V>, index: nat, turn: nat, value: V)
    requires Shows(slots, m) && index < NULL_INDEX && index !in m
    ensures var (s, replaced) := Put(slots, KeyAtTurn(index, turn), value);
            Shows(s, PutNewest(m, index, turn, value).0) && replaced == None
  {
  }

  /** A value is put where the newest key has it, and the value it replaces is returned, just when the wrapping
  comparison orders the two keys as they are. */
  lemma PutAgrees<V>(slots: Slots<V>, m: Simple<V>, index: nat, turn: nat, value: V)
    requires Shows(slots, m) && index < NULL_INDEX
    ensures var (s, replaced) := Put(slots, KeyAtTurn(index, turn), value);
            var (n, older) := PutNewest(m, index, turn, value);
            Shows(s, n) && replaced == older <==> (index in m ==> Resolved(m[index].turn, turn))
  {
    if index !in m {
      PutOnFree(slots, m, index, turn, value);
    } else {
      var n := PutNewest(m, index, turn, value).0;
      Residues(turn, m[index].turn);
      assert index in n;
    }
  }

  /** The null key has no value: it is never put, and so never found. */
  lemma NullIsIgnored<V>(slots: Slots<V>, m: Simple<V>, version: nat, value: V)
    requires Shows(slots, m)
    ensures var key := Key(0xFFFF_FFFF, version);
            Put(slots, key, value) == (slots, None) && Look(slots, key) == None && Drop(slots, key) == (slots, None)
  {
  }

  /** A key 2^30 reuses newer than what is stored is taken for an older one, and ignored. */
  lemma FarIsIgnored<V>(value: V, later: V)
    ensures var first := Put([], KeyAtTurn(1, 1), value).0;
            && Put(first, KeyAtTurn(1, 1 + HALF), later) == (first, None)
            && Look(first, KeyAtTurn(1, 1 + HALF)) == None
    ensures !Resolved(1, 1 + HALF)
  {
  }

  /** A value is found just when the newest key has it, unless the key is one of another turn with the same version. */
  lemma LookAgrees<V>(slots: Slots<V>, m: Simple<V>, index: nat, turn: nat)
    requires Shows(slots, m)
    ensures Look(slots, KeyAtTurn(index, turn)) == LookNewest(m, index, turn)
            <==> (index in m ==> Unmistaken(m[index].turn, turn))
  {
    if index in m {
      Residues(turn, m[index].turn);
    }
  }

  lemma DropAgrees<V>(slots: Slots<V>, m: Simple<V>, index: nat, turn: nat)
    requires Shows(slots, m)
    ensures var (s, dropped) := Drop(slots, KeyAtTurn(index, turn));
            var (n, older) := DropNewest(m, index, turn);
            Shows(s, n) && dropped == older <==> (index in m ==> Unmistaken(m[index].turn, turn))
  {
    LookAgrees(slots, m, index, turn);
  }

  /** A slot map gives out a slot first with version 1: its reuses are the turns of its keys, and keys are near each
  other just when they are at most 2^30 - 1 reuses newer, or 2^30 older. */
  lemma TurnsOfKeys<V>(s: Store<V>, index: nat, reuses: nat, earlier: nat)
    requires Aged(s, index, 1, reuses) && s.slots[index].state.Occupied?
    ensures Key(index, s.slots[index].version) == KeyAtTurn(index, 1 + 2 * reuses)
    ensures Near(1 + 2 * earlier, 1 + 2 * reuses) <==> -0x4000_0000 <= reuses - earlier < 0x4000_0000
  {
  }

  // ----- in place -----

  class Table<V> {
    var slots: Slots<V>

    constructor ()
      ensures slots == [] && Shows(slots, map[])
    {
      slots := [];
    }

    method Insert(key: Key, value: V) returns (replaced: Option<V>)
      modifies this
      ensures (slots, replaced) == Put(old(slots), key, value)
    {
      if key.index == NULL_INDEX {
        return None;
      }
      if |slots| <= key.index {
        slots := slots + seq(key.index + 1 - |slots|, _ => None);
      }
      match slots[key.index] {
        case Some(entry) =>
          if entry.version == key.version {
            slots := slots[key.index := Some(entry.(value := value))];
            return Some(entry.value);
          }
          if WrappingSub(key.version, entry.version) >= HALF {
            return None;
          }
        case None =>
      }
      slots := slots[key.index := Some(Attached(key.version, value))];
      return None;
    }

    method Remove(key: Key) returns (removed: Option<V>)
      modifies this
      ensures (slots, removed) == Drop(old(slots), key)
    {
      if key.index >= |slots| || slots[key.index].None? || slots[key.index].value.version != key.version {
        return None;
      }
      removed := Some(slots[key.index].value.value);
      slots := slots[key.index := None];
    }

    method Get(key: Key) returns (found: Option<V>)
      ensures found == Look(slots, key)
    {
      if key.index < |slots| && slots[key.index].Some? && slots[key.index].value.version == key.version {
        return Some(slots[key.index].value.value);
      }
      return None;
    }

    /** The slots to which several keys give access at once: there is access just when every key is present and no two
    keys share a slot, and then the slots differ. */
    method GetDisjoint(keys: seq<Key>) returns (indices: Option<seq<nat>>)
      ensures indices.Some? <==>
        (forall i :: 0 <= i < |keys| ==> Look(slots, keys[i]).Some?) &&
        (forall i, j :: 0 <= i < j < |keys| ==> keys[i].index != keys[j].index)
      ensures indices.Some? ==> |indices.value| == |keys|
      ensures indices.Some? ==>
        forall i :: 0 <= i < |keys| ==>
          && indices.value[i] == keys[i].index < |slots|
          && slots[indices.value[i]].Some? && Some(slots[indices.value[i]].value.value) == Look(slots, keys[i])
      ensures indices.Some? ==>
        forall i, j :: 0 <= i < j < |keys| ==> indices.value[i] != indices.value[j]
    {
      for position := 0 to |keys|
        invariant forall i :: 0 <= i < position ==> Look(slots, keys[i]).Some?
        invariant forall i, j :: 0 <= i < j < position ==> keys[i].index != keys[j].index
      {
        var found := Get(keys[position]);
        if found.None? {
          return None;
        }
        for other := 0 to position
          invariant forall i :: 0 <= i < other ==> keys[i].index != keys[position].index
        {
          if keys[other].index == keys[position].index {
            return None;
          }
        }
      }
      return Some(seq(|keys|, i requires 0 <= i < |keys| => keys[i].index));
    }
  }
}
