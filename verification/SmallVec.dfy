/** The vector that keeps few items inline and more on the heap. */
module SmallVec {
  import opened Options
  import opened ArrayVec

  function SaturatingAdd(a: nat, b: nat): nat {
    if a + b > USIZE_MAX then USIZE_MAX else a + b
  }

  // ----- sequences -----

  /** Each item that equals the one before it is left out. */
  function Deduped<T(==)>(s: seq<T>): seq<T> {
    if |s| <= 1 then s
    else Deduped(s[..|s| - 1]) + if s[|s| - 1] == s[|s| - 2] then [] else [s[|s| - 1]]
  }

  lemma {:induction false} DedupedEnds<T>(s: seq<T>)
    requires s != []
    ensures var d := Deduped(s); 0 < |d| <= |s| && d[0] == s[0] && d[|d| - 1] == s[|s| - 1]
    decreases |s|
  {
    if |s| <= 1 {
    } else {
      DedupedEnds(s[..|s| - 1]);
    }
  }

  predicate NeighboursDiffer<T(==)>(s: seq<T>) {
    forall i :: 0 < i < |s| ==> s[i] != s[i - 1]
  }

  lemma {:induction false} DedupedDiffers<T>(s: seq<T>)
    ensures NeighboursDiffer(Deduped(s))
    decreases |s|
  {
    if |s| <= 1 {
    } else {
      DedupedEnds(s[..|s| - 1]);
      DedupedDiffers(s[..|s| - 1]);
    }
  }

  lemma {:induction false} DedupedHas<T>(s: seq<T>, v: T)
    ensures v in Deduped(s) <==> v in s
    decreases |s|
  {
    if |s| <= 1 {
    } else {
      DedupedHas(s[..|s| - 1], v);
      assert s == s[..|s| - 1] + [s[|s| - 1]];
    }
  }

  lemma {:induction false} DedupedSame<T>(s: seq<T>)
    requires NeighboursDiffer(s)
    ensures Deduped(s) == s
    decreases |s|
  {
    if |s| <= 1 {
    } else {
      var front := s[..|s| - 1];
      assert forall i :: 0 <= i < |front| ==> front[i] == s[i];
      DedupedSame(front);
      assert s == front + [s[|s| - 1]];
    }
  }

  /** No two neighbours are equal, the items are the same, and nothing happens to a sequence without such neighbours. */
  lemma DedupedMeans<T>(s: seq<T>)
    ensures var d := Deduped(s);
            && (forall i :: 0 < i < |d| ==> d[i] != d[i - 1])
            && (forall v :: v in d <==> v in s)
            && (d == s <==> forall i :: 0 < i < |s| ==> s[i] != s[i - 1])
  {
    DedupedDiffers(s);
    forall v ensures v in Deduped(s) <==> v in s {
      DedupedHas(s, v);
    }
    if NeighboursDiffer(s) {
      DedupedSame(s);
    }
  }

  lemma DedupedAppend<T>(s: seq<T>, last: T)
    requires s != []
    ensures var d := Deduped(s);
            |d| > 0 && Deduped(s + [last]) == if last == d[|d| - 1] then d else d + [last]
  {
    DedupedEnds(s);
    DedupedUnfold(s + [last], s, last);
  }

  lemma DedupedUnfold<T>(all: seq<T>, s: seq<T>, last: T)
    requires s != [] && all == s + [last]
    ensures Deduped(all) == Deduped(s) + if last == s[|s| - 1] then [] else [last]
  {
    assert all[..|all| - 1] == s;
  }

  function Swapped<T>(s: seq<T>, i: nat, j: nat): seq<T>
    requires i < |s| && j < |s|
  {
    s[i := s[j]][j := s[i]]
  }

  /** The items before `kept` are the result for what has been seen of `all`, and those from `index` are still to be
  seen. */
  ghost predicate Deduping<T>(s: seq<T>, all: seq<T>, kept: nat, index: nat) {
    && 0 < kept <= index <= |s| == |all|
    && s[..kept] == Deduped(all[..index])
    && forall i :: index <= i < |s| ==> s[i] == all[i]
  }

  lemma DedupStep<T>(s: seq<T>, all: seq<T>, kept: nat, index: nat)
    requires Deduping(s, all, kept, index) && index < |s|
    ensures if s[index] == s[kept - 1] then Deduping(s, all, kept, index + 1)
            else Deduping(Swapped(s, kept, index), all, kept + 1, index + 1)
  {
    DedupedAppend(all[..index], all[index]);
    assert all[..index + 1] == all[..index] + [all[index]];
    assert s[..kept][kept - 1] == s[kept - 1];
    if s[index] != s[kept - 1] {
      assert Swapped(s, kept, index)[..kept + 1] == s[..kept] + [s[index]];
    }
  }

  // ----- the vector -----

  datatype Storage<T> = Inline(inner: ArrayVec<T>) | Heap(items: seq<T>)

  class SmallVec<T(==)> {
    const inlineSize: nat
    var storage: Storage<T>

    ghost function Repr(): set<object>
      reads this
    {
      if storage.Inline? then {storage.inner, storage.inner.items} else {}
    }

    ghost predicate Ready()
      reads this, Repr()
    {
      storage.Inline? ==> storage.inner.Ready() && storage.inner.items.Length == inlineSize
    }

    ghost function Contents(): seq<T>
      requires Ready()
      reads this, Repr()
    {
      if storage.Inline? then storage.inner.Contents() else storage.items
    }

    constructor (inlineSize: nat)
      ensures Ready() && Contents() == [] && fresh(Repr()) && this.inlineSize == inlineSize
      ensures storage.Inline?
    {
      var inner := new ArrayVec<T>(inlineSize);
      this.inlineSize := inlineSize;
      storage := Inline(inner);
    }

    function Len(): (n: nat)
      requires Ready()
      reads this, Repr()
      ensures n == |Contents()|
    {
      match storage case Inline(inner) => inner.len case Heap(items) => |items|
    }

    /** The items move to the heap, from where they never come back. */
    method ToHeap()
      requires Ready()
      modifies this, Repr()
      ensures Ready() && storage == Heap(old(Contents()))
    {
      if storage.Inline? {
        ghost var all := Contents();
        var inner := storage.inner;
        var drained := inner.Drain(0, inner.len);
        assert drained.Contents() == all;
        var items := drained.Exhaust();
        storage := Heap(items);
      }
    }

    method Push(value: T)
      requires Ready()
      modifies this, Repr()
      ensures Ready() && fresh(Repr() - old(Repr())) && Contents() == old(Contents()) + [value]
      ensures storage.Heap? <==> old(storage.Heap?) || |old(Contents())| == inlineSize
    {
      if storage.Inline? && !storage.inner.Full() {
        storage.inner.Push(value);
      } else {
        ToHeap();
        storage := Heap(storage.items + [value]);
      }
    }

    method Pop() returns (value: Option<T>)
      requires Ready()
      modifies this, Repr()
      ensures Ready() && Repr() == old(Repr()) && storage.Heap? == old(storage.Heap?)
      ensures value.None? ==> old(Contents()) == [] && Contents() == []
      ensures value.Some? ==> old(Contents()) == Contents() + [value.value]
    {
      match storage
      case Inline(inner) => value := inner.Pop();
      case Heap(items) =>
        if items == [] {
          value := None;
        } else {
          value := Some(items[|items| - 1]);
          storage := Heap(items[..|items| - 1]);
        }
    }

    method Remove(index: nat) returns (value: T)
      requires Ready() && index < |Contents()|
      modifies this, Repr()
      ensures Ready() && Repr() == old(Repr()) && storage.Heap? == old(storage.Heap?)
      ensures value == old(Contents())[index] && Contents() == Removed(old(Contents()), index, index + 1)
    {
      match storage
      case Inline(inner) => value := inner.Remove(index);
      case Heap(items) =>
        value := items[index];
        storage := Heap(items[..index] + items[index + 1..]);
    }

    method Truncate(to: nat)
      requires Ready()
      modifies this, Repr()
      ensures Ready() && Repr() == old(Repr()) && storage.Heap? == old(storage.Heap?)
      ensures Contents() == if to < |old(Contents())| then old(Contents())[..to] else old(Contents())
    {
      match storage
      case Inline(inner) => var _ := inner.Truncate(to);
      case Heap(items) =>
        if to < |items| {
          storage := Heap(items[..to]);
        }
    }

    method Clear()
      requires Ready()
      modifies this, Repr()
      ensures Ready() && Repr() == old(Repr()) && storage.Heap? == old(storage.Heap?) && Contents() == []
    {
      Truncate(0);
    }

    /** Moves to the heap if the items would not fit inline. */
    method Reserve(additional: nat)
      requires Ready()
      modifies this, Repr()
      ensures Ready() && fresh(Repr() - old(Repr())) && Contents() == old(Contents())
      ensures storage.Heap?
              <==> old(storage.Heap?) || (|old(Contents())| + additional > inlineSize && inlineSize < USIZE_MAX)
    {
      if !(storage.Inline? && SaturatingAdd(storage.inner.len, additional) <= inlineSize) {
        ToHeap();
      }
    }

    /** `hint` is what the iterator promises to yield at least. */
    method Extend(more: seq<T>, hint: nat)
      requires Ready() && hint <= |more|
      modifies this, Repr()
      ensures Ready() && fresh(Repr() - old(Repr())) && Contents() == old(Contents()) + more
      ensures old(storage.Heap?) || |old(Contents())| + |more| > inlineSize ==> storage.Heap?
      ensures old(storage.Inline?) && |old(Contents())| + |more| <= inlineSize ==> storage.Inline?
    {
      Reserve(hint);
      for i := 0 to |more|
        invariant Ready() && fresh(Repr() - old(Repr())) && Contents() == old(Contents()) + more[..i]
        invariant old(storage.Heap?) || |old(Contents())| + i > inlineSize ==> storage.Heap?
        invariant old(storage.Inline?) && |old(Contents())| + |more| <= inlineSize ==> storage.Inline?
      {
        Push(more[i]);
        assert more[..i + 1] == more[..i] + [more[i]];
      }
      assert more[..|more|] == more;
    }

    /** A vector with little room is copied inline, one with more is kept. */
    static method FromVec(items: seq<T>, capacity: nat, inlineSize: nat) returns (vec: SmallVec<T>)
      requires |items| <= capacity <= USIZE_MAX
      ensures fresh(vec) && fresh(vec.Repr()) && vec.Ready() && vec.Contents() == items
      ensures vec.inlineSize == inlineSize && (vec.storage.Inline? <==> capacity <= inlineSize)
    {
      vec := new SmallVec<T>(inlineSize);
      if capacity <= inlineSize {
        vec.Extend(items, |items|);
      } else {
        vec.storage := Heap(items);
      }
    }

    function At(index: nat): (value: T)
      requires Ready() && index < Len()
      reads this, Repr()
      ensures value == Contents()[index]
    {
      match storage case Inline(inner) => inner.items[index].value case Heap(items) => items[index]
    }

    method Swap(i: nat, j: nat)
      requires Ready() && i < Len() && j < Len()
      modifies this, Repr()
      ensures Ready() && Repr() == old(Repr()) && storage.Heap? == old(storage.Heap?)
      ensures Contents() == Swapped(old(Contents()), i, j)
    {
      match storage
      case Inline(inner) =>
        ghost var all := inner.Contents();
        ValuesHold(inner.items[..], inner.len);
        inner.items[i], inner.items[j] := inner.items[j], inner.items[i];
        ghost var swapped := Swapped(all, i, j);
        assert Holds(inner.items[..], swapped);
        HoldsValues(inner.items[..], swapped);
        assert inner.items[..][..inner.len] == inner.items[..inner.len];
        assert inner.items[..][inner.len..] == inner.items[inner.len..];
      case Heap(items) =>
        storage := Heap(Swapped(items, i, j));
    }

    /** An item that differs from the last one kept is swapped in behind it. */
    method DedupTurn(ghost all: seq<T>, kept: nat, index: nat) returns (more: nat)
      requires Ready() && Deduping(Contents(), all, kept, index) && index < |Contents()|
      modifies this, Repr()
      ensures Ready() && Repr() == old(Repr()) && storage.Heap? == old(storage.Heap?)
      ensures Deduping(Contents(), all, more, index + 1)
    {
      DedupStep(Contents(), all, kept, index);
      more := kept;
      if At(index) != At(kept - 1) {
        Swap(kept, index);
        more := kept + 1;
      }
    }

    /** Equal neighbours are swapped behind the items that stay, and cut off. */
    method Dedup()
      requires Ready()
      modifies this, Repr()
      ensures Ready() && Repr() == old(Repr()) && storage.Heap? == old(storage.Heap?)
      ensures Contents() == Deduped(old(Contents()))
    {
      var kept := 1;
      if Len() > 0 {
        kept := DedupFront();
      }
      Truncate(kept);
    }

    /** Returns how many items stay; they stand in front. */
    method DedupFront() returns (kept: nat)
      requires Ready() && Contents() != []
      modifies this, Repr()
      ensures Ready() && Repr() == old(Repr()) && storage.Heap? == old(storage.Heap?)
      ensures kept <= |Contents()| && Contents()[..kept] == Deduped(old(Contents()))
    {
      ghost var all := Contents();
      var len := Len();
      kept := 1;
      assert all[..1] == [all[0]];
      for index := 1 to len
        invariant Ready() && Repr() == old(Repr()) && storage.Heap? == old(storage.Heap?)
        invariant len == |all| && Deduping(Contents(), all, kept, index)
      {
        kept := DedupTurn(all, kept, index);
      }
      assert all[..len] == all;
    }

    method Retain(keep: T -> Option<T>)
      requires Ready()
      modifies this, Repr()
      ensures Ready() && Repr() == old(Repr()) && storage.Heap? == old(storage.Heap?)
      ensures Contents() == Retained(old(Contents()), keep)
    {
      match storage
      case Inline(inner) => var _ := inner.Retain(keep);
      case Heap(items) => storage := Heap(Retained(items, keep));
    }

    /** The drained items, in order. */
    method Drain(start: Bound, end: Bound) returns (drained: seq<T>)
      requires Ready() && Covered(start, end, Len()).Some?
      modifies this, Repr()
      ensures Ready() && Repr() == old(Repr()) && storage.Heap? == old(storage.Heap?)
      ensures var (from, to) := Covered(start, end, |old(Contents())|).value;
              && drained == old(Contents())[from..to]
              && Contents() == Removed(old(Contents()), from, to)
    {
      var (from, to) := Covered(start, end, Len()).value;
      match storage
      case Inline(inner) =>
        var iter := inner.Drain(from, to);
        drained := iter.Exhaust();
      case Heap(items) =>
        drained := items[from..to];
        storage := Heap(items[..from] + items[to..]);
    }
  }
}
