/** The fixed-capacity vector: a buffer of which only the first cells are initialised.

A cell is `None` while it holds no value that the vector owns: it has not been written yet, or its value has been
moved out.  Reading a value out of a cell leaves `None` behind, so no value can be moved out or dropped twice.
*/
module ArrayVec {
  import opened Options

  type Cells<T> = seq<Option<T>>

  predicate AllSome<T>(cells: Cells<T>) {
    forall i :: 0 <= i < |cells| ==> cells[i].Some?
  }

  predicate AllNone<T>(cells: Cells<T>) {
    forall i :: 0 <= i < |cells| ==> cells[i].None?
  }

  function Values<T>(cells: Cells<T>): (s: seq<T>)
    requires AllSome(cells)
    ensures |s| == |cells| && forall i :: 0 <= i < |s| ==> s[i] == cells[i].value
  {
    seq(|cells|, i requires 0 <= i < |cells| => cells[i].value)
  }

  /** These values, and nothing behind them. */
  ghost predicate Holds<T>(cells: Cells<T>, s: seq<T>) {
    && |s| <= |cells|
    && (forall i :: 0 <= i < |s| ==> cells[i] == Some(s[i]))
    && (forall i :: |s| <= i < |cells| ==> cells[i].None?)
  }

  lemma HoldsValues<T>(cells: Cells<T>, s: seq<T>)
    requires Holds(cells, s)
    ensures AllSome(cells[..|s|]) && AllNone(cells[|s|..]) && Values(cells[..|s|]) == s
  {
  }

  lemma ValuesHold<T>(cells: Cells<T>, len: nat)
    requires len <= |cells| && AllSome(cells[..len]) && AllNone(cells[len..])
    ensures Holds(cells, Values(cells[..len]))
  {
    forall i | len <= i < |cells| ensures cells[i].None? {
      assert cells[i] == cells[len..][i - len];
    }
  }

  /** Cells between `from` and `to` have been emptied, and those behind have moved up to `len`. */
  lemma GapClosed<T>(before: Cells<T>, after: Cells<T>, s: seq<T>, from: nat, to: nat)
    requires Holds(before, s) && |after| == |before| && from <= to <= |s|
    requires forall k :: 0 <= k < from ==> after[k] == before[k]
    requires forall k :: from <= k < from + (|s| - to) ==> after[k] == before[k - from + to]
    requires forall k :: from + (|s| - to) <= k < |s| ==> after[k].None?
    requires forall k :: |s| <= k < |after| ==> after[k] == before[k]
    ensures Holds(after, s[..from] + s[to..])
  {
  }

  // ----- sequences -----

  /** What remains of a sequence when `keep` has seen, and perhaps changed, each item. */
  function Retained<T>(s: seq<T>, keep: T -> Option<T>): seq<T> {
    if s == [] then []
    else
      Retained(s[..|s| - 1], keep)
      + match keep(s[|s| - 1]) case Some(v) => [v] case None => []
  }

  /** The items that `keep` refuses. */
  function Refused<T>(s: seq<T>, keep: T -> Option<T>): seq<T> {
    if s == [] then []
    else Refused(s[..|s| - 1], keep) + if keep(s[|s| - 1]).None? then [s[|s| - 1]] else []
  }

  lemma RetainedNext<T>(s: seq<T>, index: nat, keep: T -> Option<T>)
    requires index < |s|
    ensures Retained(s[..index + 1], keep)
            == Retained(s[..index], keep) + match keep(s[index]) case Some(v) => [v] case None => []
    ensures Refused(s[..index + 1], keep)
            == Refused(s[..index], keep) + if keep(s[index]).None? then [s[index]] else []
  {
    assert s[..index + 1][..index] == s[..index];
  }

  /** The values kept of the first `index` ones stand in front, those from `index` on are still to be seen, and the
  cells between have been emptied. */
  ghost predicate Retaining<T>(cells: Cells<T>, all: seq<T>, keep: T -> Option<T>, index: nat) {
    && index <= |all| <= |cells|
    && var kept := Retained(all[..index], keep);
    && |kept| <= index
    && (forall k :: 0 <= k < |kept| ==> cells[k] == Some(kept[k]))
    && (forall k :: |kept| <= k < index || |all| <= k < |cells| ==> cells[k].None?)
    && forall k :: index <= k < |all| ==> cells[k] == Some(all[k])
  }

  lemma RetainKept<T>(cells: Cells<T>, all: seq<T>, keep: T -> Option<T>, index: nat)
    requires Retaining(cells, all, keep, index) && index < |all| && keep(all[index]).Some?
    ensures var len := |Retained(all[..index], keep)|;
            && |Retained(all[..index + 1], keep)| == len + 1
            && Retaining(cells[index := None][len := keep(all[index])], all, keep, index + 1)
  {
    RetainedNext(all, index, keep);
  }

  lemma RetainRefused<T>(cells: Cells<T>, all: seq<T>, keep: T -> Option<T>, index: nat)
    requires Retaining(cells, all, keep, index) && index < |all| && keep(all[index]).None?
    ensures Retained(all[..index + 1], keep) == Retained(all[..index], keep)
    ensures Retaining(cells[index := None], all, keep, index + 1)
  {
    RetainedNext(all, index, keep);
  }

  function Inserted<T>(s: seq<T>, index: nat, value: T): seq<T>
    requires index <= |s|
  {
    s[..index] + [value] + s[index..]
  }

  function Removed<T>(s: seq<T>, from: nat, to: nat): seq<T>
    requires from <= to <= |s|
  {
    s[..from] + s[to..]
  }

  /** Removing what was inserted gives back the sequence, and inserting what was removed too. */
  lemma InsertedIsRemoved<T>(s: seq<T>, index: nat, value: T)
    requires index <= |s|
    ensures var r := Inserted(s, index, value);
            |r| == |s| + 1 && r[index] == value && Removed(r, index, index + 1) == s
    ensures index < |s| ==> Inserted(Removed(s, index, index + 1), index, s[index]) == s
  {
    var r := Inserted(s, index, value);
    assert r[..index] == s[..index] && r[index + 1..] == s[index..];
    if index < |s| {
      var rest := Removed(s, index, index + 1);
      assert rest[..index] == s[..index] && rest[index..] == s[index + 1..];
      assert s == s[..index] + [s[index]] + s[index + 1..];
    }
  }

  lemma {:induction false} RefusedAre<T>(s: seq<T>, keep: T -> Option<T>)
    ensures forall v :: v in Refused(s, keep) <==> v in s && keep(v).None?
  {
    if s == [] {
    } else {
      RefusedAre(s[..|s| - 1], keep);
      assert s == s[..|s| - 1] + [s[|s| - 1]];
    }
  }

  lemma {:induction false} RetainedAre<T>(s: seq<T>, keep: T -> Option<T>)
    ensures forall v :: v in s && keep(v).Some? ==> keep(v).value in Retained(s, keep)
    ensures forall w :: w in Retained(s, keep) ==> exists v :: v in s && keep(v) == Some(w)
  {
    if s == [] {
    } else {
      var front, last := s[..|s| - 1], s[|s| - 1];
      RetainedAre(front, keep);
      assert s == front + [last];
      forall w | w in Retained(s, keep) ensures exists v :: v in s && keep(v) == Some(w) {
        if w in Retained(front, keep) {
          var v :| v in front && keep(v) == Some(w);
          assert v in s;
        } else {
          assert last in s && keep(last) == Some(w);
        }
      }
    }
  }

  /** Every item is kept or refused, and none is both. */
  lemma RetainedAndRefused<T>(s: seq<T>, keep: T -> Option<T>)
    ensures |Retained(s, keep)| + |Refused(s, keep)| == |s|
    ensures forall v :: v in Refused(s, keep) <==> v in s && keep(v).None?
    ensures forall v :: v in s && keep(v).Some? ==> keep(v).value in Retained(s, keep)
    ensures forall w :: w in Retained(s, keep) ==> exists v :: v in s && keep(v) == Some(w)
    ensures (forall v :: v in s ==> keep(v) == Some(v)) ==> Retained(s, keep) == s
  {
    RefusedAre(s, keep);
    RetainedAre(s, keep);
    RetainedCount(s, keep);
    if forall v :: v in s ==> keep(v) == Some(v) {
      AllRetained(s, keep);
    }
  }

  lemma {:induction false} RetainedCount<T>(s: seq<T>, keep: T -> Option<T>)
    ensures |Retained(s, keep)| + |Refused(s, keep)| == |s|
  {
    if s == [] {
    } else {
      RetainedCount(s[..|s| - 1], keep);
    }
  }

  lemma {:induction false} AllRetained<T>(s: seq<T>, keep: T -> Option<T>)
    requires forall v :: v in s ==> keep(v) == Some(v)
    ensures Retained(s, keep) == s
  {
    if s == [] {
    } else {
      AllRetained(s[..|s| - 1], keep);
      assert s == s[..|s| - 1] + [s[|s| - 1]];
    }
  }

  /** What is kept of a part does not depend on the other parts: the order of the items is that of the sequence. */
  lemma {:induction false} RetainedConcat<T>(s: seq<T>, t: seq<T>, keep: T -> Option<T>)
    ensures Retained(s + t, keep) == Retained(s, keep) + Retained(t, keep)
    ensures Refused(s + t, keep) == Refused(s, keep) + Refused(t, keep)
    decreases |t|
  {
    if t == [] {
      assert s + t == s;
    } else {
      var front := t[..|t| - 1];
      assert (s + t)[..|s + t| - 1] == s + front;
      RetainedConcat(s, front, keep);
    }
  }

  // ----- ranges -----

  const USIZE_MAX := 0xFFFF_FFFF_FFFF_FFFF

  datatype Bound = Included(at: nat) | Excluded(at: nat) | Unbounded

  function CheckedAdd(n: nat): Option<nat> {
    if n < USIZE_MAX then Some(n + 1) else None
  }

  /** The items a range covers, from the first to the one behind the last; none if it is out of bounds. */
  function Covered(start: Bound, end: Bound, len: nat): (r: Option<(nat, nat)>)
    ensures r.Some? ==> r.value.0 <= r.value.1 <= len
  {
    var from := match start case Included(n) => Some(n) case Excluded(n) => CheckedAdd(n) case Unbounded => Some(0);
    var to := match end case Included(n) => CheckedAdd(n) case Excluded(n) => Some(n) case Unbounded => Some(len);
    if from.Some? && to.Some? && from.value <= to.value <= len then Some((from.value, to.value)) else None
  }

  /** A range covers the indices that satisfy both of its bounds. */
  lemma CoveredMeans(start: Bound, end: Bound, len: nat, i: nat)
    requires Covered(start, end, len).Some? && i < len
    ensures var (from, to) := Covered(start, end, len).value;
            from <= i < to
            <==> (start.Included? ==> start.at <= i) && (start.Excluded? ==> start.at < i)
                 && (end.Included? ==> i <= end.at) && (end.Excluded? ==> i < end.at)
  {
  }

  /** A range is refused just when it is not a range of the items, even if a bound cannot be counted on from. */
  lemma CoveredWhen(start: Bound, end: Bound, len: nat)
    requires len <= USIZE_MAX
    ensures var from := if start.Included? then start.at else if start.Excluded? then start.at + 1 else 0;
            var to := if end.Included? then end.at + 1 else if end.Excluded? then end.at else len;
            Covered(start, end, len) == if from <= to <= len then Some((from, to)) else None
  {
  }

  // ----- the vector -----

  class ArrayVec<T> {
    const items: array<Option<T>>
    var len: nat

    /** Exactly the first `len` cells are initialised. */
    ghost predicate Ready()
      reads this, items
    {
      && len <= items.Length
      && AllSome(items[..len]) && AllNone(items[len..])
    }

    ghost function Contents(): seq<T>
      requires Ready()
      reads this, items
    {
      Values(items[..len])
    }

    constructor (capacity: nat)
      ensures Ready() && Contents() == [] && items.Length == capacity && fresh(items)
    {
      items := new Option<T>[capacity](_ => None);
      len := 0;
    }

    predicate Full()
      reads this
    {
      len == items.Length
    }

    /** Moves a value out of its cell. */
    method Take(index: nat) returns (value: T)
      requires index < items.Length && items[index].Some?
      modifies items
      ensures items[..] == old(items[..])[index := None] && value == old(items[index].value)
    {
      value := items[index].value;
      items[index] := None;
    }

    method Push(value: T)
      requires Ready() && !Full()
      modifies this, items
      ensures Ready() && Contents() == old(Contents()) + [value]
    {
      items[len] := Some(value);
      len := len + 1;
    }

    method Pop() returns (value: Option<T>)
      requires Ready()
      modifies this, items
      ensures Ready()
      ensures value.None? <==> old(Contents()) == []
      ensures value.None? ==> Contents() == []
      ensures value.Some? ==> old(Contents()) == Contents() + [value.value]
    {
      if len == 0 {
        return None;
      }
      len := len - 1;
      var taken := Take(len);
      return Some(taken);
    }

    /** Moves cells by `ptr::copy`: as if they were all read before any is written. */
    method Shift(from: nat, to: nat, count: nat)
      requires from + count <= items.Length && to + count <= items.Length
      modifies items
      ensures forall k :: 0 <= k < items.Length ==>
        items[k] == (if to <= k < to + count then old(items[k - to + from])
                     else if from <= k < from + count then None else old(items[k]))
    {
      forall k | 0 <= k < items.Length {
        items[k] := if to <= k < to + count then items[k - to + from]
                    else if from <= k < from + count then None else items[k];
      }
    }

    method Insert(index: nat, value: T)
      requires Ready() && index <= len && !Full()
      modifies this, items
      ensures Ready() && Contents() == Inserted(old(Contents()), index, value)
    {
      ghost var all := Contents();
      ValuesHold(items[..], len);
      Shift(index, index + 1, len - index);
      items[index] := Some(value);
      len := len + 1;
      assert Holds(items[..], Inserted(all, index, value));
      HoldsValues(items[..], Inserted(all, index, value));
      assert items[..][..len] == items[..len] && items[..][len..] == items[len..];
    }

    method Remove(index: nat) returns (value: T)
      requires Ready() && index < len
      modifies this, items
      ensures Ready() && value == old(Contents())[index]
      ensures Contents() == Removed(old(Contents()), index, index + 1)
    {
      ghost var all := Contents();
      ValuesHold(items[..], len);
      len := len - 1;
      value := Take(index);
      Shift(index + 1, index, len - index);
      assert Holds(items[..], Removed(all, index, index + 1));
      HoldsValues(items[..], Removed(all, index, index + 1));
      assert items[..][..len] == items[..len] && items[..][len..] == items[len..];
    }

    /** Returns what is dropped, the last first. */
    method Truncate(to: nat) returns (dropped: seq<T>)
      requires Ready()
      modifies this, items
      ensures Ready()
      ensures Contents() == if to < |old(Contents())| then old(Contents())[..to] else old(Contents())
      ensures |dropped| + |Contents()| == |old(Contents())|
      ensures forall i :: 0 <= i < |dropped| ==> dropped[i] == old(Contents())[|old(Contents())| - 1 - i]
    {
      dropped := [];
      while len > to
        invariant Ready() && len <= |old(Contents())| && (len >= to || len == |old(Contents())|)
        invariant Contents() == old(Contents())[..len] && |dropped| == |old(Contents())| - len
        invariant forall i :: 0 <= i < |dropped| ==> dropped[i] == old(Contents())[|old(Contents())| - 1 - i]
        decreases len
      {
        var value := Pop();
        dropped := dropped + [value.value];
      }
    }

    /** Moves one value out, and back behind those kept if it is kept too. */
    method RetainTurn(ghost all: seq<T>, keep: T -> Option<T>, index: nat) returns (refused: seq<T>)
      requires Retaining(items[..], all, keep, index) && index < |all| && len == |Retained(all[..index], keep)|
      modifies this, items
      ensures Retaining(items[..], all, keep, index + 1) && len == |Retained(all[..index + 1], keep)|
      ensures Refused(all[..index + 1], keep) == Refused(all[..index], keep) + refused
    {
      RetainedNext(all, index, keep);
      var value := Take(index);
      match keep(value) {
        case Some(kept) =>
          RetainKept(old(items[..]), all, keep, index);
          items[len] := Some(kept);
          len := len + 1;
          refused := [];
        case None =>
          RetainRefused(old(items[..]), all, keep, index);
          refused := [value];
      }
    }

    /** The values still to be seen lie behind a gap of cells that have been emptied. */
    method Retain(keep: T -> Option<T>) returns (dropped: seq<T>)
      requires Ready()
      modifies this, items
      ensures Ready() && Contents() == Retained(old(Contents()), keep)
      ensures dropped == Refused(old(Contents()), keep)
    {
      ghost var all := Contents();
      ValuesHold(items[..], len);
      var count := len;
      len := 0;
      dropped := [];
      assert all[..0] == [];
      for index := 0 to count
        invariant |all| == count && Retaining(items[..], all, keep, index)
        invariant len == |Retained(all[..index], keep)| && dropped == Refused(all[..index], keep)
      {
        var refused := RetainTurn(all, keep, index);
        dropped := dropped + refused;
      }
      assert all[..count] == all;
      HoldsValues(items[..], Retained(all, keep));
      assert items[..][..len] == items[..len] && items[..][len..] == items[len..];
    }

    /** Moves the items of the range into a new vector. */
    method Drain(from: nat, to: nat) returns (drained: IntoIter<T>)
      requires Ready() && from <= to <= len
      modifies this, items
      ensures Ready() && Contents() == Removed(old(Contents()), from, to)
      ensures drained.Ready() && drained.Contents() == old(Contents()[from..to])
      ensures fresh(drained) && fresh(drained.items) && drained.items != items
    {
      drained := new IntoIter(items.Length);
      drained.Fill(items, from, to - from);
      assert items[from..to] == items[..len][from..to];
      CloseGap(from, to);
    }

    /** The values of these cells have been moved elsewhere; those behind move up. */
    method CloseGap(from: nat, to: nat)
      requires Ready() && from <= to <= len
      modifies this, items
      ensures Ready() && Contents() == Removed(old(Contents()), from, to)
    {
      ghost var all, before := Contents(), items[..];
      ValuesHold(before, len);
      Shift(to, from, len - to);
      Forget(from + (len - to), to);
      GapClosed(before, items[..], all, from, to);
      len := len - (to - from);
      HoldsValues(items[..], Removed(all, from, to));
      assert items[..][..len] == items[..len] && items[..][len..] == items[len..];
    }

    /** Cells whose values have been moved elsewhere are no longer initialised. */
    method Forget(from: nat, to: nat)
      requires from <= items.Length && to <= items.Length
      modifies items
      ensures forall k :: 0 <= k < items.Length ==> items[k] == if from <= k < to then None else old(items[k])
    {
      forall k | from <= k < to {
        items[k] := None;
      }
    }
  }

  // ----- iteration by value -----

  lemma FirstMoves<T>(before: seq<T>, first: T, left: seq<T>, rest: seq<T>)
    requires left == [first] + rest
    ensures before + left == (before + [first]) + rest
  {
  }

  class IntoIter<T> {
    const items: array<Option<T>>
    var start: nat
    var end: nat

    ghost predicate Ready()
      reads this, items
    {
      start <= end <= items.Length && AllSome(items[start..end])
    }

    ghost function Contents(): seq<T>
      requires Ready()
      reads this, items
    {
      Values(items[start..end])
    }

    constructor (capacity: nat)
      ensures Ready() && Contents() == [] && items.Length == capacity && fresh(items) && start == end == 0
    {
      items := new Option<T>[capacity](_ => None);
      start, end := 0, 0;
    }

    /** Takes over the values of these cells, by `ptr::copy_nonoverlapping`. */
    method Fill(cells: array<Option<T>>, from: nat, count: nat)
      requires cells != items && from + count <= cells.Length && count <= items.Length && start == end == 0
      requires AllSome(cells[from..from + count])
      modifies this, items
      ensures Ready() && start == 0 && end == count && items[..count] == cells[from..from + count]
      ensures Contents() == Values(cells[from..from + count])
    {
      ghost var taken := cells[from..from + count];
      forall k | 0 <= k < count {
        items[k] := cells[from + k];
      }
      end := count;
      assert items[..count] == taken;
      assert items[start..end] == taken && AllSome(taken);
    }

    method Next() returns (value: Option<T>)
      requires Ready()
      modifies this, items
      ensures Ready()
      ensures value.None? <==> old(Contents()) == []
      ensures value.None? ==> Contents() == []
      ensures value.Some? ==> old(Contents()) == [value.value] + Contents()
      ensures value.Some? <==> old(start) < end == old(end)
      ensures value.Some? ==> start == old(start) + 1
    {
      if start == end {
        return None;
      }
      start := start + 1;
      value := items[start - 1];
      items[start - 1] := None;
      assert items[start..end] == old(items[start..end])[1..];
    }

    method NextBack() returns (value: Option<T>)
      requires Ready()
      modifies this, items
      ensures Ready()
      ensures value.None? <==> old(Contents()) == []
      ensures value.None? ==> Contents() == []
      ensures value.Some? ==> old(Contents()) == Contents() + [value.value]
    {
      if start == end {
        return None;
      }
      end := end - 1;
      value := items[end];
      items[end] := None;
      assert items[start..end] == old(items[start..end])[..end - start];
    }

    /** Yields what is left, in order; dropping the iterator drops the same values. */
    method Exhaust() returns (rest: seq<T>)
      requires Ready()
      modifies this, items
      ensures Ready() && rest == old(Contents()) && Contents() == []
    {
      rest := [];
      ghost var all, left := Contents(), Contents();
      while start < end
        invariant Ready() && left == Contents() && rest + left == all
        decreases end - start
      {
        var value := Next();
        FirstMoves(rest, value.value, left, Contents());
        rest := rest + [value.value];
        left := Contents();
      }
    }
  }
}
