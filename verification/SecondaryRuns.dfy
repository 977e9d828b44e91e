/** A slot map and a secondary map used together, in any order, from both maps empty. */
module SecondaryRuns {
  import opened Options
  import opened SlotMap
  import opened SecondaryMap

  /** An operation of the slot map, or a use of a key in the secondary map: the one that the slot map returned when it
  gave out slot `index` for the time counted by `issue`, from 0. */
  datatype Operation<+V, +W> =
    | OnMap(op: SlotMap.Operation<V>)
    | PutOp(index: nat, issue: nat, value: W)
    | DropOp(index: nat, issue: nat)
    | LookOp(index: nat, issue: nat)

  /** `issued` are the keys returned so far, by slot; `answers` what the secondary map has returned. */
  datatype World<V, W> =
    World(store: Store<V>, issued: map<nat, seq<Key>>, slots: Slots<W>, answers: seq<Option<W>>)

  /** What a map from slots to the newest key of each would have done. */
  datatype Ideal<W> = Ideal(newest: Simple<W>, answers: seq<Option<W>>)

  function Start<V, W>(): World<V, W> {
    World(Empty(), map[], [], [])
  }

  function IdealStart<W>(): Ideal<W> {
    Ideal(map[], [])
  }

  predicate Issued<V, W>(w: World<V, W>, index: nat, issue: nat) {
    index in w.issued && issue < |w.issued[index]|
  }

  /** The turn of a key is odd and goes up by two whenever its slot is given out. */
  function TurnOf(issue: nat): nat {
    1 + 2 * issue
  }

  function Record(issued: map<nat, seq<Key>>, key: Key): map<nat, seq<Key>> {
    issued[key.index := (if key.index in issued then issued[key.index] else []) + [key]]
  }

  /** The slot map is used as it may be, and the secondary map with keys that were returned. */
  predicate Allowed<V, W>(w: World<V, W>, op: Operation<V, W>) {
    match op
    case OnMap(o) => SlotMap.Allowed(w.store, o)
    case PutOp(index, issue, _) => Issued(w, index, issue)
    case DropOp(index, issue) => Issued(w, index, issue)
    case LookOp(index, issue) => Issued(w, index, issue)
  }

  /** The key is told apart from the newest one, and, to be put, also ordered against it. */
  predicate WithinBound<V, W>(i: Ideal<W>, op: Operation<V, W>) {
    match op
    case OnMap(_) => true
    case PutOp(index, issue, _) => index in i.newest ==> Resolved(i.newest[index].turn, TurnOf(issue))
    case DropOp(index, issue) => index in i.newest ==> Unmistaken(i.newest[index].turn, TurnOf(issue))
    case LookOp(index, issue) => index in i.newest ==> Unmistaken(i.newest[index].turn, TurnOf(issue))
  }

  function Step<V, W>(w: World<V, W>, op: Operation<V, W>): World<V, W>
    requires Allowed(w, op)
  {
    match op
    case OnMap(o) =>
      w.(store := SlotMap.Step(w.store, o),
         issued := if o.InsertOp? then Record(w.issued, Insert(w.store, o.value).1) else w.issued)
    case PutOp(index, issue, value) =>
      var (slots, replaced) := Put(w.slots, w.issued[index][issue], value);
      w.(slots := slots, answers := w.answers + [replaced])
    case DropOp(index, issue) =>
      var (slots, dropped) := Drop(w.slots, w.issued[index][issue]);
      w.(slots := slots, answers := w.answers + [dropped])
    case LookOp(index, issue) => w.(answers := w.answers + [Look(w.slots, w.issued[index][issue])])
  }

  function IdealStep<V, W>(i: Ideal<W>, op: Operation<V, W>): Ideal<W> {
    match op
    case OnMap(_) => i
    case PutOp(index, issue, value) =>
      var (newest, replaced) := PutNewest(i.newest, index, TurnOf(issue), value);
      Ideal(newest, i.answers + [replaced])
    case DropOp(index, issue) =>
      var (newest, dropped) := DropNewest(i.newest, index, TurnOf(issue));
      Ideal(newest, i.answers + [dropped])
    case LookOp(index, issue) => i.(answers := i.answers + [LookNewest(i.newest, index, TurnOf(issue))])
  }

  predicate RunAllowed<V, W>(w: World<V, W>, ops: seq<Operation<V, W>>)
    decreases |ops|
  {
    ops == [] || (Allowed(w, ops[0]) && RunAllowed(Step(w, ops[0]), ops[1..]))
  }

  predicate RunWithinBound<V, W>(i: Ideal<W>, ops: seq<Operation<V, W>>)
    decreases |ops|
  {
    ops == [] || (WithinBound(i, ops[0]) && RunWithinBound(IdealStep(i, ops[0]), ops[1..]))
  }

  function Run<V, W>(w: World<V, W>, ops: seq<Operation<V, W>>): World<V, W>
    requires RunAllowed(w, ops)
    decreases |ops|
  {
    if ops == [] then w else Run(Step(w, ops[0]), ops[1..])
  }

  function IdealRun<V, W>(i: Ideal<W>, ops: seq<Operation<V, W>>): Ideal<W>
    decreases |ops|
  {
    if ops == [] then i else IdealRun(IdealStep(i, ops[0]), ops[1..])
  }

  // ----- what every operation keeps -----

  /** The keys of a slot are those of its turns, and the slot has the age of the last of them. */
  ghost predicate SlotIssued<V>(s: Store<V>, index: nat, keys: seq<Key>) {
    && 0 < index && keys != [] && Aged(s, index, 1, |keys| - 1)
    && forall n :: 0 <= n < |keys| ==> keys[n] == KeyAtTurn(index, TurnOf(n))
  }

  ghost predicate IssuedOk<V>(s: Store<V>, issued: map<nat, seq<Key>>) {
    && (forall index :: index in issued ==> SlotIssued(s, index, issued[index]))
    && forall index :: 0 < index < |s.slots| ==> index in issued
  }

  ghost predicate Agree<V, W>(w: World<V, W>, i: Ideal<W>, chain: seq<nat>) {
    && Inv(w.store, chain) && IssuedOk(w.store, w.issued)
    && Shows(w.slots, i.newest) && w.answers == i.answers
  }

  /** What an insertion returns is the key of the slot it has filled. */
  lemma InsertedKey<V>(s: Store<V>, chain: seq<nat>, value: V)
    requires Inv(s, chain) && !Full(s)
    ensures var (r, key) := Insert(s, value);
            && 0 < key.index < |r.slots| && r.slots[key.index].state.Occupied?
            && r.slots[key.index].version == key.version
            && |r.slots| == (if key.index < |s.slots| then |s.slots| else key.index + 1)
  {
    if chain != [] {
      assert chain[0] in chain;
    }
  }

  /** The slot that is given out again has one more key. */
  lemma AgainIssued<V>(s: Store<V>, chain: seq<nat>, value: V, keys: seq<Key>)
    requires Inv(s, chain) && !Full(s)
    requires var key := Insert(s, value).1; key.index < |s.slots| && SlotIssued(s, key.index, keys)
    ensures var (r, key) := Insert(s, value); SlotIssued(r, key.index, keys + [key])
  {
    var (r, key) := Insert(s, value);
    StepAges(s, chain, InsertOp(value), key.index, 1, |keys| - 1);
    InsertedKey(s, chain, value);
    TurnsOfKeys(r, key.index, |keys|, 0);
  }

  lemma FirstIssued<V>(s: Store<V>, chain: seq<nat>, value: V)
    requires Inv(s, chain) && !Full(s) && Insert(s, value).1.index >= |s.slots|
    ensures var (r, key) := Insert(s, value); SlotIssued(r, key.index, [key])
  {
  }

  /** The other slots keep their keys. */
  lemma StillIssued<V>(s: Store<V>, chain: seq<nat>, op: SlotMap.Operation<V>, index: nat, keys: seq<Key>)
    requires Inv(s, chain) && SlotMap.Allowed(s, op) && SlotIssued(s, index, keys)
    requires op.InsertOp? ==> Insert(s, op.value).1.index != index
    ensures SlotIssued(SlotMap.Step(s, op), index, keys)
  {
    StepAges(s, chain, op, index, 1, |keys| - 1);
  }

  lemma InsertKeepsIssued<V>(s: Store<V>, chain: seq<nat>, value: V, issued: map<nat, seq<Key>>)
    requires Inv(s, chain) && !Full(s) && IssuedOk(s, issued)
    ensures var (r, key) := Insert(s, value); IssuedOk(r, Record(issued, key))
  {
    var (r, key) := Insert(s, value);
    InsertedKey(s, chain, value);
    if key.index < |s.slots| {
      AgainIssued(s, chain, value, issued[key.index]);
    } else {
      assert forall index :: index in issued ==> SlotIssued(s, index, issued[index]) && index < |s.slots|;
      FirstIssued(s, chain, value);
      assert [] + [key] == [key];
    }
    forall index | index in issued && index != key.index ensures SlotIssued(r, index, issued[index]) {
      StillIssued(s, chain, InsertOp(value), index, issued[index]);
    }
  }

  lemma MapKeepsIssued<V>(s: Store<V>, chain: seq<nat>, op: SlotMap.Operation<V>, issued: map<nat, seq<Key>>)
    requires Inv(s, chain) && SlotMap.Allowed(s, op) && IssuedOk(s, issued) && !op.InsertOp?
    ensures IssuedOk(SlotMap.Step(s, op), issued)
  {
    forall index | index in issued ensures SlotIssued(SlotMap.Step(s, op), index, issued[index]) {
      StillIssued(s, chain, op, index, issued[index]);
    }
  }

  /** A key that was returned is the one of its turn, and has a place in the secondary map. */
  lemma IssuedKey<V, W>(w: World<V, W>, chain: seq<nat>, index: nat, issue: nat)
    requires Inv(w.store, chain) && IssuedOk(w.store, w.issued) && Issued(w, index, issue)
    ensures w.issued[index][issue] == KeyAtTurn(index, TurnOf(issue)) && index < NULL_INDEX
  {
    assert SlotIssued(w.store, index, w.issued[index]);
  }

  lemma UseAgrees<V, W>(w: World<V, W>, i: Ideal<W>, chain: seq<nat>, op: Operation<V, W>)
    requires Agree(w, i, chain) && Allowed(w, op) && WithinBound(i, op) && !op.OnMap?
    ensures Agree(Step(w, op), IdealStep(i, op), chain)
  {
    IssuedKey(w, chain, op.index, op.issue);
    match op
    case PutOp(index, issue, value) => PutAgrees(w.slots, i.newest, index, TurnOf(issue), value);
    case DropOp(index, issue) => DropAgrees(w.slots, i.newest, index, TurnOf(issue));
    case LookOp(index, issue) => LookAgrees(w.slots, i.newest, index, TurnOf(issue));
  }

  lemma MapAgrees<V, W>(w: World<V, W>, i: Ideal<W>, chain: seq<nat>, op: SlotMap.Operation<V>) returns (after: seq<nat>)
    requires Agree(w, i, chain) && SlotMap.Allowed(w.store, op)
    ensures Agree(Step(w, OnMap(op)), i, after)
  {
    after := StepChain(w.store, chain, op);
    SlotMap.StepKeepsInv(w.store, chain, op);
    if op.InsertOp? {
      InsertKeepsIssued(w.store, chain, op.value, w.issued);
    } else {
      MapKeepsIssued(w.store, chain, op, w.issued);
    }
  }

  lemma {:induction false} RunAgrees<V, W>(w: World<V, W>, i: Ideal<W>, chain: seq<nat>, ops: seq<Operation<V, W>>)
    returns (end: seq<nat>)
    requires Agree(w, i, chain) && RunAllowed(w, ops) && RunWithinBound(i, ops)
    ensures Agree(Run(w, ops), IdealRun(i, ops), end)
    decreases |ops|
  {
    if ops == [] {
      end := chain;
    } else {
      var after := chain;
      if ops[0].OnMap? {
        after := MapAgrees(w, i, chain, ops[0].op);
      } else {
        UseAgrees(w, i, chain, ops[0]);
      }
      end := RunAgrees(Step(w, ops[0]), IdealStep(i, ops[0]), after, ops[1..]);
    }
  }

  /** From both maps empty, whatever is inserted, removed and cleared in between: as long as each key that is used is
  within the reuse bound of the newest one of its slot, the secondary map returns what a map to the newest keys would,
  and holds what that map holds. */
  lemma EveryRunAgrees<V, W>(ops: seq<Operation<V, W>>)
    requires RunAllowed(Start<V, W>(), ops) && RunWithinBound(IdealStart<W>(), ops)
    ensures var w, i := Run(Start<V, W>(), ops), IdealRun(IdealStart<W>(), ops);
            w.answers == i.answers && Shows(w.slots, i.newest)
  {
    EmptyInv<V>();
    var _ := RunAgrees(Start<V, W>(), IdealStart<W>(), [], ops);
  }

  /** A use less than 2^30 reuses away from the newest key, or 2^30 older, is within the bound. */
  lemma NearIsWithinBound<V, W>(i: Ideal<W>, op: Operation<V, W>, earlier: nat)
    requires !op.OnMap?
    requires op.index in i.newest ==>
      i.newest[op.index].turn == TurnOf(earlier) && -0x4000_0000 <= op.issue - earlier < 0x4000_0000
    ensures WithinBound(i, op)
  {
    NearIsResolved(TurnOf(earlier), TurnOf(op.issue));
  }
}
