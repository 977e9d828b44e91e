/** The slot map with its fields changed in place. */
module SlotMapClass {
  import opened Options
  import opened SlotMap

  class SlotTable<V> {
    var slots: seq<Slot<V>>
    var freeHead: nat
    var len: nat
    /** The free list, from its head. */
    ghost var chain: seq<nat>

    ghost function Model(): Store<V>
      reads this
    {
      Store(slots, freeHead, len)
    }

    ghost predicate Ready()
      reads this
    {
      Inv(Model(), chain)
    }

    ghost function Map(): map<Key, V>
      reads this
    {
      Contents(Model())
    }

    constructor ()
      ensures Ready() && Model() == Empty() && Map() == map[]
    {
      slots := [Slot(0, Vacant(0))];
      freeHead := 1;
      len := 0;
      chain := [];
      new;
      EmptyInv<V>();
    }

    method Insert(value: V) returns (key: Key)
      requires Ready() && !Full(Model())
      modifies this
      ensures Ready() && (Model(), key) == SlotMap.Insert(old(Model()), value)
      ensures KeyOk(key) && key !in old(Map()) && Map() == old(Map())[key := value]
    {
      InsertKeepsInv(Model(), chain, value);
      InsertAddsKey(Model(), chain, value);
      len := len + 1;
      if freeHead < |slots| {
        var index := freeHead;
        var slot := slots[index];
        if slot.state.Vacant? {
          freeHead := slot.state.next;
        }
        slots := slots[index := Slot(Odd(slot.version), Occupied(value))];
        key := NewKey(index, Odd(slot.version));
        chain := chain[1..];
      } else {
        var index := |slots|;
        slots := slots + [Slot(1, Occupied(value))];
        freeHead := index + 1;
        key := NewKey(index, 1);
      }
    }

    method Remove(key: Key) returns (removed: Option<V>)
      requires Ready() && KeyOk(key)
      modifies this
      ensures Ready() && (Model(), removed) == SlotMap.Remove(old(Model()), key)
      ensures Map() == old(Map()) - {key}
      ensures removed == if key in old(Map()) then Some(old(Map())[key]) else None
    {
      RemoveKeepsInv(Model(), chain, key);
      GetFinds(Model(), key);
      if key.index >= |slots| || slots[key.index].version != key.version {
        return None;
      }
      CountPositive(slots, key.index);
      match slots[key.index].state {
        case Occupied(value) => removed := Some(value);
        case Vacant(_) => removed := None;
      }
      VacateSlot(key.index);
      len := len - 1;
      chain := [key.index] + chain;
    }

    /** Steps the version of a slot and puts it in front of the free list. */
    method VacateSlot(index: nat)
      requires index < |slots|
      modifies this`slots, this`freeHead
      ensures Model() == Vacate(old(Model()), index)
    {
      slots := slots[index := Slot((slots[index].version + 1) % WORD, Vacant(freeHead))];
      freeHead := index;
    }

    method Clear()
      requires Ready()
      modifies this
      ensures Ready() && Model() == SlotMap.Clear(old(Model())) && Map() == map[]
    {
      ghost var before := Model();
      ClearKeepsInv(before, chain);
      for index := 1 to |slots|
        invariant len == before.len && |slots| == |before.slots| && chain == old(chain)
        invariant Model() == VacateBelow(before, index)
      {
        assert VacateBelow(before, index + 1)
            == if slots[index].state.Occupied? then Vacate(Model(), index) else Model();
        if slots[index].state.Occupied? {
          VacateSlot(index);
        }
      }
      len := 0;
      chain := Added(before, chain, |before.slots|);
    }

    method Get(key: Key) returns (found: Option<V>)
      requires Ready()
      ensures found == if key in Map() then Some(Map()[key]) else None
    {
      found := None;
      if key.index < |slots| {
        var slot := slots[key.index];
        if slot.state.Occupied? && slot.version == key.version {
          found := Some(slot.state.value);
        }
      }
    }

    /** Gives access to a value: here, replaces it. */
    method Set(key: Key, value: V) returns (found: bool)
      requires Ready()
      modifies this
      ensures Ready() && chain == old(chain) && found == (key in old(Map()))
      ensures Map() == if found then old(Map())[key := value] else old(Map())
    {
      found := false;
      if key.index < |slots| {
        var slot := slots[key.index];
        if slot.state.Occupied? && slot.version == key.version {
          found := true;
          SetKeepsInv(Model(), chain, key, value);
          slots := slots[key.index := slot.(state := Occupied(value))];
        }
      }
    }

    /** The keys in use, in the order of their slots. */
    method Keys() returns (keys: seq<Key>)
      requires Ready()
      ensures forall key :: key in keys <==> key in Map()
      ensures forall i, j :: 0 <= i < j < |keys| ==> keys[i].index < keys[j].index
      ensures |keys| == len
    {
      keys := [];
      for index := 0 to |slots|
        invariant keys == KeysBelow(Model(), index)
      {
        if slots[index].state.Occupied? {
          keys := keys + [NewKey(index, slots[index].version)];
        }
      }
      KeysAreAll(Model(), |slots|);
      assert slots[..|slots|] == slots;
    }
  }
}
