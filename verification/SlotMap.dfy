/** The slot map: versioned slots whose vacant ones are threaded into a free list. */
module SlotMap {
  import opened Options

  const WORD := 0x1_0000_0000
  const NULL_INDEX := 0xFFFF_FFFF

  // ----- keys -----

  /** Versions of keys are odd. */
  datatype Key = Key(index: nat, version: nat)

  predicate KeyOk(k: Key) {
    k.index < WORD && k.version < WORD && k.version % 2 == 1
  }

  function Odd(version: nat): nat {
    if version % 2 == 0 then version + 1 else version
  }

  function NewKey(index: nat, version: nat): Key {
    Key(index, Odd(version))
  }

  function AsFfi(k: Key): nat {
    k.version * WORD + k.index
  }

  function FromFfi(value: nat): Key {
    NewKey(value % WORD, value / WORD)
  }

  /** Index and version are the halves of the value: every key survives the passage, and every 64-bit value gives a key,
  with the bit set that makes its version odd. */
  lemma FfiRoundTrip(k: Key, value: nat)
    requires KeyOk(k) && value < WORD * WORD
    ensures AsFfi(k) < WORD * WORD && FromFfi(AsFfi(k)) == k
    ensures AsFfi(k) / WORD == k.version && AsFfi(k) % WORD == k.index
    ensures var key := FromFfi(value);
            KeyOk(key) && key.index == value % WORD && key.version / 2 == value / WORD / 2
  {
    Unpacked(k.version, k.index);
    HighHalf(value);
  }

  lemma Unpacked(version: nat, index: nat)
    requires index < WORD
    ensures (version * WORD + index) / WORD == version && (version * WORD + index) % WORD == index
  {
  }

  lemma HighHalf(value: nat)
    requires value < WORD * WORD
    ensures value / WORD < WORD
  {
  }

  // ----- slots -----

  datatype SlotState<+V> = Occupied(value: V) | Vacant(next: nat)

  datatype Slot<+V> = Slot(version: nat, state: SlotState<V>)

  datatype Store<+V> = Store(slots: seq<Slot<V>>, freeHead: nat, len: nat)

  function Empty<V>(): Store<V> {
    Store([Slot(0, Vacant(0))], 1, 0)
  }

  /** The free list from `head` visits the slots of `chain`, each once, up to the end of the slots. */
  ghost predicate Chained<V>(slots: seq<Slot<V>>, head: nat, chain: seq<nat>)
    decreases |chain|
  {
    if chain == [] then head == |slots|
    else
      && head == chain[0] && head < |slots| && slots[head].state.Vacant? && head !in chain[1..]
      && Chained(slots, slots[head].state.next, chain[1..])
  }

  /** These are the vacant slots except slot 0. */
  ghost predicate Covered<V>(slots: seq<Slot<V>>, chain: seq<nat>) {
    && (forall i :: 0 < i < |slots| ==> (slots[i].state.Vacant? <==> i in chain))
    && forall i :: i in chain ==> 0 < i < |slots|
  }

  lemma {:induction false} ChainedFrame<V>(slots: seq<Slot<V>>, other: seq<Slot<V>>, head: nat, chain: seq<nat>)
    requires Chained(slots, head, chain) && |other| == |slots|
    requires forall i :: 0 <= i < |slots| && i in chain ==> other[i].state == slots[i].state
    ensures Chained(other, head, chain)
    decreases |chain|
  {
    if chain == [] {
    } else {
      ChainedFrame(slots, other, slots[head].state.next, chain[1..]);
    }
  }

  /** Occupied just when the version is odd. */
  predicate SlotOk<V>(slot: Slot<V>) {
    slot.version < WORD && (slot.state.Occupied? <==> slot.version % 2 == 1)
  }

  predicate SlotsOk<V>(slots: seq<Slot<V>>) {
    && 0 < |slots| <= NULL_INDEX
    && slots[0] == Slot(0, Vacant(0))
    && forall i :: 0 <= i < |slots| ==> SlotOk(slots[i])
  }

  ghost predicate Linked<V>(s: Store<V>, chain: seq<nat>) {
    SlotsOk(s.slots) && Chained(s.slots, s.freeHead, chain) && Covered(s.slots, chain)
  }

  function Count<V>(slots: seq<Slot<V>>): nat {
    if slots == [] then 0
    else Count(slots[..|slots| - 1]) + if slots[|slots| - 1].state.Occupied? then 1 else 0
  }

  ghost predicate Inv<V>(s: Store<V>, chain: seq<nat>) {
    Linked(s, chain) && s.len == Count(s.slots)
  }

  lemma EmptyInv<V>()
    ensures Inv(Empty<V>(), [])
  {
    var slots := Empty<V>().slots;
    assert slots[..0] == [];
  }

  // ----- operations -----

  /** No slot is vacant, and no index is left for another one. */
  predicate Full<V>(s: Store<V>) {
    s.freeHead >= |s.slots| >= NULL_INDEX
  }

  function Insert<V>(s: Store<V>, value: V): (Store<V>, Key) {
    var len := s.len + 1;
    if s.freeHead < |s.slots| then
      var slot := s.slots[s.freeHead];
      var head := if slot.state.Vacant? then slot.state.next else s.freeHead;
      var version := Odd(slot.version);
      (Store(s.slots[s.freeHead := Slot(version, Occupied(value))], head, len), NewKey(s.freeHead, version))
    else
      (Store(s.slots + [Slot(1, Occupied(value))], |s.slots| + 1, len), NewKey(|s.slots|, 1))
  }

  function Vacate<V>(s: Store<V>, index: nat): Store<V>
    requires index < |s.slots|
  {
    s.(slots := s.slots[index := Slot((s.slots[index].version + 1) % WORD, Vacant(s.freeHead))], freeHead := index)
  }

  function Remove<V>(s: Store<V>, key: Key): (Store<V>, Option<V>) {
    if key.index >= |s.slots| || s.slots[key.index].version != key.version then (s, None)
    else
      var r := Vacate(s, key.index);
      (r.(len := if s.len > 0 then s.len - 1 else 0),
       match s.slots[key.index].state case Occupied(value) => Some(value) case Vacant(_) => None)
  }

  /** Vacates the occupied slots below `bound`, from the first to the last. */
  function VacateBelow<V>(s: Store<V>, bound: nat): (r: Store<V>)
    requires bound <= |s.slots|
    ensures |r.slots| == |s.slots|
  {
    if bound <= 1 then s
    else
      var r := VacateBelow(s, bound - 1);
      if r.slots[bound - 1].state.Occupied? then Vacate(r, bound - 1) else r
  }

  function Clear<V>(s: Store<V>): Store<V> {
    VacateBelow(s, |s.slots|).(len := 0)
  }

  function Get<V>(s: Store<V>, key: Key): Option<V> {
    if key.index < |s.slots| && s.slots[key.index].state.Occupied? && s.slots[key.index].version == key.version
    then Some(s.slots[key.index].state.value)
    else None
  }

  // ----- the map from keys -----

  /** What the slots hold, by key. */
  ghost function Contents<V>(s: Store<V>): map<Key, V> {
    map i | 0 <= i < |s.slots| && s.slots[i].state.Occupied? :: Key(i, s.slots[i].version) := s.slots[i].state.value
  }

  lemma GetFinds<V>(s: Store<V>, key: Key)
    ensures Get(s, key) == if key in Contents(s) then Some(Contents(s)[key]) else None
  {
  }

  // ----- what every operation keeps -----

  lemma {:induction false} CountUpdate<V>(slots: seq<Slot<V>>, i: nat, slot: Slot<V>)
    requires i < |slots|
    ensures Count(slots[i := slot]) + (if slots[i].state.Occupied? then 1 else 0)
            == Count(slots) + if slot.state.Occupied? then 1 else 0
    decreases |slots|
  {
    var n := |slots| - 1;
    var updated := slots[i := slot];
    if i == n {
      assert updated[..n] == slots[..n];
    } else {
      assert updated[..n] == slots[..n][i := slot];
      CountUpdate(slots[..n], i, slot);
    }
  }

  lemma {:induction false} CountPositive<V>(slots: seq<Slot<V>>, i: nat)
    requires i < |slots| && slots[i].state.Occupied?
    ensures Count(slots) > 0
    decreases |slots|
  {
    if i < |slots| - 1 {
      CountPositive(slots[..|slots| - 1], i);
    }
  }

  /** A vacant slot is taken from the front of the free list. */
  lemma TakeLinks<V>(s: Store<V>, chain: seq<nat>, value: V)
    requires Linked(s, chain) && chain != []
    ensures var (r, key) := Insert(s, value); Linked(r, chain[1..]) && key == Key(chain[0], s.slots[chain[0]].version + 1)
  {
    var (r, _) := Insert(s, value);
    var head := s.freeHead;
    assert chain == [head] + chain[1..];
    assert forall i :: i in chain <==> i == head || i in chain[1..];
    assert forall i :: 0 <= i < |s.slots| && i != head ==> r.slots[i] == s.slots[i];
    ChainedFrame(s.slots, r.slots, r.freeHead, chain[1..]);
  }

  lemma GrowLinks<V>(s: Store<V>, value: V)
    requires Linked(s, []) && !Full(s)
    ensures var (r, key) := Insert(s, value); Linked(r, []) && key == Key(|s.slots|, 1)
  {
  }

  /** Inserting takes the first vacant slot, or adds one. */
  lemma InsertKeepsInv<V>(s: Store<V>, chain: seq<nat>, value: V)
    requires Inv(s, chain) && !Full(s)
    ensures var (r, key) := Insert(s, value);
            Inv(r, if chain == [] then [] else chain[1..]) && KeyOk(key)
  {
    var (r, _) := Insert(s, value);
    if chain == [] {
      GrowLinks(s, value);
      assert r.slots[..|s.slots|] == s.slots;
    } else {
      TakeLinks(s, chain, value);
      CountUpdate(s.slots, chain[0], r.slots[chain[0]]);
    }
  }

  lemma ContentsOfOne<V>(s: Store<V>, r: Store<V>, i: nat)
    requires i < |r.slots| && r.slots[i].state.Occupied? && |s.slots| <= |r.slots| <= |s.slots| + 1
    requires i < |s.slots| ==> s.slots[i].state.Vacant?
    requires forall j :: 0 <= j < |r.slots| && j != i ==> j < |s.slots| && r.slots[j] == s.slots[j]
    ensures var key := Key(i, r.slots[i].version);
            key !in Contents(s) && Contents(r) == Contents(s)[key := r.slots[i].state.value]
  {
    assert forall j :: 0 <= j < |s.slots| && j != i ==> r.slots[j] == s.slots[j];
  }

  /** The key was not in use, and nothing else changes. */
  lemma InsertAddsKey<V>(s: Store<V>, chain: seq<nat>, value: V)
    requires Inv(s, chain) && !Full(s)
    ensures var (r, key) := Insert(s, value);
            key !in Contents(s) && Contents(r) == Contents(s)[key := value]
  {
    var (r, key) := Insert(s, value);
    ContentsOfOne(s, r, key.index);
  }

  lemma VacateLinks<V>(s: Store<V>, chain: seq<nat>, i: nat)
    requires Linked(s, chain) && 0 < i < |s.slots| && s.slots[i].state.Occupied?
    ensures Linked(Vacate(s, i), [i] + chain)
  {
    var r := Vacate(s, i);
    assert i !in chain;
    assert forall j :: 0 <= j < |s.slots| && j != i ==> r.slots[j] == s.slots[j];
    ChainedFrame(s.slots, r.slots, s.freeHead, chain);
    assert ([i] + chain)[1..] == chain;
  }

  lemma VacateRemoves<V>(s: Store<V>, i: nat)
    requires i < |s.slots| && s.slots[i].state.Occupied?
    ensures Contents(Vacate(s, i)) == Contents(s) - {Key(i, s.slots[i].version)}
    ensures Count(Vacate(s, i).slots) + 1 == Count(s.slots)
  {
    var r := Vacate(s, i);
    CountUpdate(s.slots, i, r.slots[i]);
    assert forall j :: 0 <= j < |s.slots| && j != i ==> r.slots[j] == s.slots[j];
  }

  /** A key that is not in the map removes nothing; it need never have been issued. */
  lemma RemoveKeepsInv<V>(s: Store<V>, chain: seq<nat>, key: Key)
    requires Inv(s, chain) && KeyOk(key)
    ensures var (r, removed) := Remove(s, key);
            && removed == Get(s, key)
            && Contents(r) == Contents(s) - {key}
            && (if removed.Some? then Inv(r, [key.index] + chain) else r == s)
  {
    if key.index < |s.slots| && s.slots[key.index].version == key.version {
      VacateLinks(s, chain, key.index);
      VacateRemoves(s, key.index);
      CountPositive(s.slots, key.index);
    }
  }

  function Set<V>(s: Store<V>, index: nat, value: V): Store<V>
    requires index < |s.slots|
  {
    s.(slots := s.slots[index := s.slots[index].(state := Occupied(value))])
  }

  lemma SetKeepsLinks<V>(s: Store<V>, chain: seq<nat>, i: nat, value: V)
    requires Linked(s, chain) && i < |s.slots| && s.slots[i].state.Occupied?
    ensures Linked(Set(s, i, value), chain) && Count(Set(s, i, value).slots) == Count(s.slots)
  {
    var slots := Set(s, i, value).slots;
    assert i !in chain;
    assert forall j :: 0 <= j < |slots| && j != i ==> slots[j] == s.slots[j];
    CountUpdate(s.slots, i, slots[i]);
    ChainedFrame(s.slots, slots, s.freeHead, chain);
  }

  lemma SetContents<V>(s: Store<V>, i: nat, value: V)
    requires i < |s.slots| && s.slots[i].state.Occupied?
    ensures Contents(Set(s, i, value)) == Contents(s)[Key(i, s.slots[i].version) := value]
  {
    var r := Set(s, i, value);
    assert r.slots[i] == Slot(s.slots[i].version, Occupied(value));
    assert forall j :: 0 <= j < |s.slots| && j != i ==> r.slots[j] == s.slots[j];
    assert Contents(r).Keys == Contents(s).Keys;
  }

  /** A value is replaced through its key. */
  lemma SetKeepsInv<V>(s: Store<V>, chain: seq<nat>, key: Key, value: V)
    requires Inv(s, chain) && key in Contents(s)
    ensures Inv(Set(s, key.index, value), chain) && Contents(Set(s, key.index, value)) == Contents(s)[key := value]
  {
    SetKeepsLinks(s, chain, key.index, value);
    SetContents(s, key.index, value);
  }

  ghost function Added<V>(s: Store<V>, chain: seq<nat>, bound: nat): seq<nat>
    requires bound <= |s.slots|
  {
    if bound <= 1 then chain
    else
      var rest := Added(s, chain, bound - 1);
      if s.slots[bound - 1].state.Occupied? then [bound - 1] + rest else rest
  }

  lemma {:induction false} VacateBelowLinks<V>(s: Store<V>, chain: seq<nat>, bound: nat)
    requires Linked(s, chain) && bound <= |s.slots|
    ensures var r := VacateBelow(s, bound);
            && Linked(r, Added(s, chain, bound))
            && (forall i :: 0 <= i < bound ==> r.slots[i].state.Vacant?)
            && (forall i :: bound <= i < |s.slots| ==> r.slots[i] == s.slots[i])
  {
    if bound <= 1 {
    } else {
      VacateBelowLinks(s, chain, bound - 1);
      var r := VacateBelow(s, bound - 1);
      if r.slots[bound - 1].state.Occupied? {
        VacateLinks(r, Added(s, chain, bound - 1), bound - 1);
      }
    }
  }

  lemma {:induction false} CountVacant<V>(slots: seq<Slot<V>>)
    requires forall i :: 0 <= i < |slots| ==> slots[i].state.Vacant?
    ensures Count(slots) == 0
    decreases |slots|
  {
    if slots == [] {
    } else {
      CountVacant(slots[..|slots| - 1]);
    }
  }

  lemma ClearKeepsInv<V>(s: Store<V>, chain: seq<nat>)
    requires Inv(s, chain)
    ensures Inv(Clear(s), Added(s, chain, |s.slots|)) && Contents(Clear(s)) == map[]
  {
    VacateBelowLinks(s, chain, |s.slots|);
    CountVacant(Clear(s).slots);
  }

  lemma ContentsOfFront<V>(slots: seq<Slot<V>>, n: nat)
    requires n + 1 == |slots|
    ensures var front, key := Contents(Store(slots[..n], 0, 0)), Key(n, slots[n].version);
            && key !in front
            && Contents(Store(slots, 0, 0))
               == if slots[n].state.Occupied? then front[key := slots[n].state.value] else front
  {
    assert forall i :: 0 <= i < n ==> slots[..n][i] == slots[i];
  }

  /** `len` is the number of keys. */
  lemma {:induction false} LenCountsKeys<V>(s: Store<V>)
    ensures |Contents(s)| == Count(s.slots)
    decreases |s.slots|
  {
    assert Contents(s) == Contents(Store(s.slots, 0, 0));
    if s.slots == [] {
      assert Contents(s) == map[];
    } else {
      var n := |s.slots| - 1;
      ContentsOfFront(s.slots, n);
      LenCountsKeys(Store(s.slots[..n], 0, 0));
    }
  }

  /** The keys of the occupied slots below `bound`, in order. */
  function KeysBelow<V>(s: Store<V>, bound: nat): seq<Key>
    requires bound <= |s.slots|
  {
    if bound == 0 then []
    else
      KeysBelow(s, bound - 1)
      + if s.slots[bound - 1].state.Occupied? then [NewKey(bound - 1, s.slots[bound - 1].version)] else []
  }

  lemma {:induction false} KeysAreListed<V>(s: Store<V>, bound: nat)
    requires SlotsOk(s.slots) && bound <= |s.slots|
    ensures Lists(KeysBelow(s, bound), s, bound)
  {
    if bound == 0 {
    } else {
      KeysAreListed(s, bound - 1);
      ListsNext(KeysBelow(s, bound - 1), s, bound - 1);
    }
  }

  ghost predicate Ordered(keys: seq<Key>) {
    forall i, j :: 0 <= i < j < |keys| ==> keys[i].index < keys[j].index
  }

  lemma OrderedNext(keys: seq<Key>, last: Key)
    requires Ordered(keys) && forall i :: 0 <= i < |keys| ==> keys[i].index < last.index
    ensures Ordered(keys + [last])
  {
  }

  lemma {:induction false} KeysAreOrdered<V>(s: Store<V>, bound: nat)
    requires SlotsOk(s.slots) && bound <= |s.slots|
    ensures Ordered(KeysBelow(s, bound))
  {
    if bound == 0 {
    } else {
      var before, slot := KeysBelow(s, bound - 1), s.slots[bound - 1];
      KeysAreOrdered(s, bound - 1);
      if slot.state.Occupied? {
        KeysAreListed(s, bound - 1);
        KeysInOrder(before, s, bound - 1);
        OrderedNext(before, NewKey(bound - 1, slot.version));
      } else {
        assert KeysBelow(s, bound) == before;
      }
    }
  }

  lemma {:induction false} KeysAreCounted<V>(s: Store<V>, bound: nat)
    requires bound <= |s.slots|
    ensures |KeysBelow(s, bound)| == Count(s.slots[..bound])
  {
    if bound == 0 {
      assert s.slots[..bound] == [];
    } else {
      KeysAreCounted(s, bound - 1);
      assert s.slots[..bound][..bound - 1] == s.slots[..bound - 1];
    }
  }

  /** They are all of them, in the order of their slots. */
  lemma KeysAreAll<V>(s: Store<V>, bound: nat)
    requires SlotsOk(s.slots) && bound <= |s.slots|
    ensures var keys := KeysBelow(s, bound);
            && Lists(keys, s, bound) && Ordered(keys)
            && |keys| == Count(s.slots[..bound])
  {
    KeysAreListed(s, bound);
    KeysAreOrdered(s, bound);
    KeysAreCounted(s, bound);
  }

  /** These are the keys in use below `bound`. */
  ghost predicate Lists<V>(keys: seq<Key>, s: Store<V>, bound: nat) {
    forall key :: key in keys <==> key in Contents(s) && key.index < bound
  }

  lemma ListsNext<V>(keys: seq<Key>, s: Store<V>, n: nat)
    requires SlotsOk(s.slots) && n < |s.slots| && Lists(keys, s, n)
    ensures Lists(keys + if s.slots[n].state.Occupied? then [NewKey(n, s.slots[n].version)] else [], s, n + 1)
  {
    assert SlotOk(s.slots[n]);
  }

  lemma KeysInOrder<V>(keys: seq<Key>, s: Store<V>, n: nat)
    requires Lists(keys, s, n)
    ensures forall i :: 0 <= i < |keys| ==> keys[i].index < n
  {
    forall i | 0 <= i < |keys| ensures keys[i].index < n {
      assert keys[i] in keys;
    }
  }

  // ----- runs -----

  datatype Operation<+V> = InsertOp(value: V) | RemoveOp(key: Key) | ClearOp

  /** Removing is called with any key of the right form; inserting not on a full map, where the program panics. */
  predicate Allowed<V>(s: Store<V>, op: Operation<V>) {
    match op
    case InsertOp(_) => !Full(s)
    case RemoveOp(key) => KeyOk(key)
    case ClearOp => true
  }

  function Step<V>(s: Store<V>, op: Operation<V>): Store<V> {
    match op
    case InsertOp(value) => Insert(s, value).0
    case RemoveOp(key) => Remove(s, key).0
    case ClearOp => Clear(s)
  }

  ghost predicate RunAllowed<V>(s: Store<V>, ops: seq<Operation<V>>)
    decreases |ops|
  {
    ops == [] || (Allowed(s, ops[0]) && RunAllowed(Step(s, ops[0]), ops[1..]))
  }

  function Run<V>(s: Store<V>, ops: seq<Operation<V>>): Store<V>
    decreases |ops|
  {
    if ops == [] then s else Run(Step(s, ops[0]), ops[1..])
  }

  /** How often these operations give out the slot again. */
  function Reuses<V>(s: Store<V>, ops: seq<Operation<V>>, index: nat): nat
    decreases |ops|
  {
    if ops == [] then 0
    else
      (if ops[0].InsertOp? && Insert(s, ops[0].value).1.index == index then 1 else 0)
      + Reuses(Step(s, ops[0]), ops[1..], index)
  }

  ghost function StepChain<V>(s: Store<V>, chain: seq<nat>, op: Operation<V>): seq<nat> {
    match op
    case InsertOp(_) => if chain == [] then [] else chain[1..]
    case RemoveOp(key) => if Remove(s, key).1.Some? then [key.index] + chain else chain
    case ClearOp => Added(s, chain, |s.slots|)
  }

  lemma StepKeepsInv<V>(s: Store<V>, chain: seq<nat>, op: Operation<V>)
    requires Inv(s, chain) && Allowed(s, op)
    ensures Inv(Step(s, op), StepChain(s, chain, op))
  {
    match op
    case InsertOp(value) => InsertKeepsInv(s, chain, value);
    case RemoveOp(key) => RemoveKeepsInv(s, chain, key);
    case ClearOp => ClearKeepsInv(s, chain);
  }

  lemma {:induction false} RunKeepsInv<V>(s: Store<V>, chain: seq<nat>, ops: seq<Operation<V>>)
    returns (end: seq<nat>)
    requires Inv(s, chain) && RunAllowed(s, ops)
    ensures Inv(Run(s, ops), end)
    decreases |ops|
  {
    if ops == [] {
      end := chain;
    } else {
      StepKeepsInv(s, chain, ops[0]);
      end := RunKeepsInv(Step(s, ops[0]), StepChain(s, chain, ops[0]), ops[1..]);
    }
  }

  /** Every map that was built by these operations. */
  lemma EveryRunKeepsInv<V>(ops: seq<Operation<V>>) returns (chain: seq<nat>)
    requires RunAllowed(Empty<V>(), ops)
    ensures Inv(Run(Empty<V>(), ops), chain)
  {
    EmptyInv<V>();
    chain := RunKeepsInv(Empty<V>(), [], ops);
  }

  /** The version of a slot that was occupied with `version` and has been given out again `reuses` times. */
  predicate Aged<V>(s: Store<V>, index: nat, version: nat, reuses: nat) {
    && index < |s.slots|
    && var slot := s.slots[index];
    slot.version == (version + 2 * reuses + if slot.state.Occupied? then 0 else 1) % WORD
  }

  lemma {:induction false} VacateBelowAges<V>(s: Store<V>, bound: nat, index: nat)
    requires index < |s.slots| && bound <= |s.slots|
    ensures var r, slot := VacateBelow(s, bound), s.slots[index];
            r.slots[index].version
            == if slot.state.Occupied? && 0 < index < bound then (slot.version + 1) % WORD else slot.version
    ensures VacateBelow(s, bound).slots[index].state.Occupied?
            <==> s.slots[index].state.Occupied? && (index >= bound || index == 0)
  {
    if bound <= 1 {
    } else {
      VacateBelowAges(s, bound - 1, index);
      VacateBelowAges(s, bound - 1, bound - 1);
    }
  }

  lemma NextVersion(version: nat, n: nat)
    ensures ((version + n) % WORD + 1) % WORD == (version + n + 1) % WORD
  {
  }

  lemma StepAges<V>(s: Store<V>, chain: seq<nat>, op: Operation<V>, index: nat, version: nat, reuses: nat)
    requires Inv(s, chain) && Allowed(s, op) && index > 0 && Aged(s, index, version, reuses)
    ensures var again := op.InsertOp? && Insert(s, op.value).1.index == index;
            Aged(Step(s, op), index, version, if again then reuses + 1 else reuses)
  {
    var slot := s.slots[index];
    NextVersion(version, 2 * reuses);
    NextVersion(version, 2 * reuses + 1);
    match op
    case InsertOp(value) =>
      if index == s.freeHead {
        assert slot.version % 2 == 0 && (slot.version + 1) % WORD == slot.version + 1;
      }
    case RemoveOp(key) =>
    case ClearOp => VacateBelowAges(s, |s.slots|, index);
  }

  lemma {:induction false} RunAges<V>(s: Store<V>, chain: seq<nat>, ops: seq<Operation<V>>, index: nat, version: nat,
                                      reuses: nat)
    requires Inv(s, chain) && RunAllowed(s, ops) && index > 0 && Aged(s, index, version, reuses)
    ensures Aged(Run(s, ops), index, version, reuses + Reuses(s, ops, index))
    decreases |ops|
  {
    if ops == [] {
    } else {
      var again := ops[0].InsertOp? && Insert(s, ops[0].value).1.index == index;
      StepAges(s, chain, ops[0], index, version, reuses);
      StepKeepsInv(s, chain, ops[0]);
      RunAges(Step(s, ops[0]), StepChain(s, chain, ops[0]), ops[1..], index, version, if again then reuses + 1 else reuses);
    }
  }

  /** After any run, a key finds something just when its slot is occupied and has been reused a multiple of 2^31 times:
  a removed key finds nothing before the 2^31st reuse. */
  lemma StaleKeys<V>(s: Store<V>, chain: seq<nat>, key: Key, ops: seq<Operation<V>>)
    requires Inv(s, chain) && RunAllowed(s, ops) && key in Contents(s)
    ensures var r := Run(s, ops);
            && key.index < |r.slots|
            && (Get(r, key).Some? <==>
                 r.slots[key.index].state.Occupied? && Reuses(s, ops, key.index) % 0x8000_0000 == 0)
  {
    var slot := s.slots[key.index];
    assert SlotOk(slot) && key.index > 0;
    RunAges(s, chain, ops, key.index, key.version, 0);
    SameVersion(key.version, Reuses(s, ops, key.index));
  }

  lemma SameVersion(version: nat, reuses: nat)
    requires version < WORD
    ensures (version + 2 * reuses) % WORD == version <==> reuses % 0x8000_0000 == 0
  {
    var q, r := reuses / 0x8000_0000, reuses % 0x8000_0000;
    assert version + 2 * reuses == version + 2 * r + q * WORD;
    assert (version + 2 * reuses) % WORD == (version + 2 * r) % WORD;
  }
}
