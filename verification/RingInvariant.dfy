/** The invariant of the ring: who owns which slot, what its cell holds, and where the cursors are. */
module RingInvariant {
  import opened Modular
  import opened Options
  import opened RingMachine

  ghost predicate CursorsOk<T>(s: State<T>) {
    && Shaped(s)
    && 0 <= s.read <= s.write <= s.read + s.capacity
    && |s.entered| == s.write
  }

  /** The position whose slot a thread has reserved. */
  function Reserved<T>(pc: Pc<T>): Option<int> {
    match pc
    case PushWrite(_, pos) => Some(pos)
    case PushAdvance(_, pos) => Some(pos)
    case PushReplace(_, pos) => Some(pos)
    case PushPublish(pos, _) => Some(pos)
    case PopRead(pos) => Some(pos)
    case PopFree(pos, _) => Some(pos)
    case _ => None
  }

  ghost predicate SlotOk<T>(s: State<T>, i: int)
    requires CursorsOk(s) && 0 <= i < s.capacity
  {
    var slot := s.slots[i];
    && slot.stamp.ord % s.capacity == i
    && match slot.owner
       case Some(t) =>
         t < |s.threads| && Reserved(s.threads[t]).Some? && Index(s, Reserved(s.threads[t]).value) == i
       case None =>
         var ord := slot.stamp.ord;
         match slot.stamp
         case Free(_) => s.write <= ord < s.write + s.capacity && ord - s.capacity < s.read && slot.cell == Uninit
         case Full(_) => s.read <= ord < s.write && slot.cell == Init(s.entered[ord])
  }

  /** `t` has reserved the slot of `pos`, whose stamp and cell are as given. */
  ghost predicate Holds<T>(s: State<T>, t: nat, pos: int, stamp: Stamp, cell: Cell<T>)
    requires Shaped(s)
  {
    SlotOf(s, pos) == Slot(stamp, cell, Some(t))
  }

  ghost predicate ThreadOk<T>(s: State<T>, t: nat)
    requires CursorsOk(s) && t < |s.threads|
  {
    match s.threads[t]
    case PushStamp(_, _, pos) => 0 <= pos <= s.write
    case PushClaim(_, _, pos) => 0 <= pos <= s.write && SlotOf(s, pos).stamp.ord >= pos
    case PushCheckRead(_, _, pos) =>
      0 <= pos <= s.write && (SlotOf(s, pos).stamp.ord >= pos || SlotOf(s, pos).stamp == Full(pos - s.capacity))
    case PushTakeOldest(_, pos) =>
      0 <= pos <= s.write && (SlotOf(s, pos).stamp.ord >= pos || SlotOf(s, pos).stamp == Full(pos - s.capacity))
    case PushWrite(item, pos) =>
      s.read <= pos < s.write && s.entered[pos] == item && Holds(s, t, pos, Free(pos), Uninit)
    case PushAdvance(_, pos) =>
      0 <= pos - s.capacity < s.read && pos == s.write
      && Holds(s, t, pos, Full(pos - s.capacity), Init(s.entered[pos - s.capacity]))
    case PushReplace(item, pos) =>
      0 <= pos - s.capacity < s.read <= pos < s.write && s.entered[pos] == item
      && Holds(s, t, pos, Full(pos - s.capacity), Init(s.entered[pos - s.capacity]))
    case PushPublish(pos, None) => s.read <= pos < s.write && Holds(s, t, pos, Free(pos), Init(s.entered[pos]))
    case PushPublish(pos, Some(displaced)) =>
      0 <= pos - s.capacity < s.read <= pos < s.write && displaced == s.entered[pos - s.capacity]
      && Holds(s, t, pos, Full(pos - s.capacity), Init(s.entered[pos]))
    case PopStamp(pos) => 0 <= pos <= s.read
    case PopClaim(pos) =>
      0 <= pos <= s.read && (SlotOf(s, pos).stamp.ord > pos || SlotOf(s, pos).stamp == Full(pos))
    case PopCheckWrite(pos) => 0 <= pos <= s.read
    case PopRead(pos) =>
      0 <= pos < s.read && s.write <= pos + s.capacity && Holds(s, t, pos, Full(pos), Init(s.entered[pos]))
    case PopFree(pos, item) =>
      0 <= pos < s.read && s.write <= pos + s.capacity && item == s.entered[pos]
      && Holds(s, t, pos, Full(pos), Uninit)
    case LenLoadWrite(read) => 0 <= read <= s.read
    case LenCheck(read, write, readThen) => 0 <= read <= readThen <= s.read && readThen <= write <= readThen + s.capacity
    case _ => true
  }

  ghost predicate Inv<T>(s: State<T>) {
    && CursorsOk(s)
    && (forall i :: 0 <= i < s.capacity ==> SlotOk(s, i))
    && (forall t: nat :: t < |s.threads| ==> ThreadOk(s, t))
  }

  lemma InitialInv<T>(capacity: int, threads: nat)
    requires capacity >= 1
    ensures Inv(Initial<T>(capacity, threads))
  {
    var s := Initial<T>(capacity, threads);
    forall i | 0 <= i < capacity ensures SlotOk(s, i) {
      DivModUnique(i, capacity, 0, i);
    }
  }

  // ----- what a step of one thread leaves to the others -----

  /** Stamps only go forward: written, then read or overwritten. */
  ghost predicate StampAdvances(capacity: int, before: Stamp, after: Stamp) {
    || after == before
    || (before.Free? && after == Full(before.ord))
    || (before.Full? && after.ord == before.ord + capacity)
  }

  /** A step of `t` on slot `j`: it moves a cursor only past an ordinal of that slot. */
  ghost predicate Touches<T>(s: State<T>, r: State<T>, t: nat, j: int) {
    && CursorsOk(s) && CursorsOk(r)
    && r.capacity == s.capacity && |r.threads| == |s.threads| && t < |s.threads| && 0 <= j < s.capacity
    && (forall u: nat :: u < |s.threads| && u != t ==> r.threads[u] == s.threads[u])
    && (forall i :: 0 <= i < s.capacity && i != j ==> r.slots[i] == s.slots[i])
    && (r.read == s.read || (r.read == s.read + 1 && s.read % s.capacity == j))
    && (r.write == s.write || (r.write == s.write + 1 && s.write % s.capacity == j))
    && (forall k :: 0 <= k < s.write ==> r.entered[k] == s.entered[k])
    && StampAdvances(s.capacity, s.slots[j].stamp, r.slots[j].stamp)
    && (s.slots[j].owner == None || s.slots[j].owner == Some(t))
    && (Reserved(s.threads[t]).Some? ==> Index(s, Reserved(s.threads[t]).value) == j)
  }

  lemma OtherSlot<T>(s: State<T>, r: State<T>, t: nat, j: int, i: int)
    requires Touches(s, r, t, j)
    requires 0 <= i < s.capacity && i != j && SlotOk(s, i)
    ensures SlotOk(r, i)
  {
    var slot := s.slots[i];
    assert r.slots[i] == slot;
    if slot.owner == None {
      assert slot.stamp.ord != s.read || r.read == s.read;
    }
  }

  lemma OtherStamp<T>(s: State<T>, r: State<T>, t: nat, j: int, pos: int)
    requires Touches(s, r, t, j)
    ensures StampAdvances(s.capacity, SlotOf(s, pos).stamp, SlotOf(r, pos).stamp)
  {
  }

  lemma OtherReader<T>(s: State<T>, r: State<T>, t: nat, j: int, u: nat)
    requires Touches(s, r, t, j)
    requires u < |s.threads| && u != t && ThreadOk(s, u) && Reserved(s.threads[u]).None?
    ensures ThreadOk(r, u)
  {
    assert r.threads[u] == s.threads[u];
    match s.threads[u]
    case PushClaim(_, _, pos) => OtherStamp(s, r, t, j, pos);
    case PushCheckRead(_, _, pos) => OtherStamp(s, r, t, j, pos);
    case PushTakeOldest(_, pos) => OtherStamp(s, r, t, j, pos);
    case PopClaim(pos) => OtherStamp(s, r, t, j, pos);
    case _ =>
  }

  lemma OtherOwner<T>(s: State<T>, r: State<T>, t: nat, j: int, u: nat)
    requires Touches(s, r, t, j)
    requires u < |s.threads| && u != t && ThreadOk(s, u) && Reserved(s.threads[u]).Some?
    ensures ThreadOk(r, u)
  {
    var pos := Reserved(s.threads[u]).value;
    assert r.threads[u] == s.threads[u];
    assert SlotOf(s, pos).owner == Some(u);
    assert Index(s, pos) != j;
    assert SlotOf(r, pos) == SlotOf(s, pos);
    ShiftResidue(pos, s.capacity);
    assert s.write == pos || s.write == pos + s.capacity ==> r.write == s.write;
    assert s.read == pos ==> r.read == s.read;
  }

  lemma TouchKeepsInv<T>(s: State<T>, r: State<T>, t: nat, j: int)
    requires Inv(s) && Touches(s, r, t, j)
    requires SlotOk(r, j) && ThreadOk(r, t)
    ensures Inv(r)
  {
    forall i | 0 <= i < r.capacity ensures SlotOk(r, i) {
      if i != j { OtherSlot(s, r, t, j, i); }
    }
    forall u: nat | u < |r.threads| ensures ThreadOk(r, u) {
      if u != t {
        if Reserved(s.threads[u]).Some? { OtherOwner(s, r, t, j, u); } else { OtherReader(s, r, t, j, u); }
      }
    }
  }

  lemma LocalSlot<T>(s: State<T>, t: nat, pc: Pc<T>, i: int)
    requires Inv(s) && t < |s.threads| && Reserved(s.threads[t]).None? && 0 <= i < s.capacity
    ensures SlotOk(At(s, t, pc), i)
  {
    assert SlotOk(s, i);
    var slot := s.slots[i];
    if slot.owner.Some? {
      assert slot.owner.value != t;
      assert At(s, t, pc).threads[slot.owner.value] == s.threads[slot.owner.value];
    }
  }

  lemma LocalThread<T>(s: State<T>, t: nat, pc: Pc<T>, u: nat)
    requires CursorsOk(s) && t < |s.threads| && u < |s.threads| && u != t && ThreadOk(s, u)
    ensures ThreadOk(At(s, t, pc), u)
  {
    assert At(s, t, pc).threads[u] == s.threads[u];
  }

  /** A step that only moves its own program counter, outside any reservation. */
  lemma LocalKeepsInv<T>(s: State<T>, t: nat, pc: Pc<T>)
    requires Inv(s) && t < |s.threads| && Reserved(s.threads[t]).None?
    requires ThreadOk(At(s, t, pc), t)
    ensures Inv(At(s, t, pc))
  {
    var r := At(s, t, pc);
    forall i | 0 <= i < r.capacity ensures SlotOk(r, i) {
      LocalSlot(s, t, pc, i);
    }
    forall u: nat | u < |r.threads| ensures ThreadOk(r, u) {
      if u != t { LocalThread(s, t, pc, u); }
    }
  }

  // ----- the steps that reserve, move and release a slot -----

  /** A reserved slot is between its claim and its write, or between its reservation for reading and its release. */
  lemma ReservedStamp<T>(s: State<T>, i: int)
    requires Inv(s) && 0 <= i < s.capacity && s.slots[i].owner.Some?
    ensures match s.slots[i].stamp
            case Free(ord) => s.read <= ord < s.write
            case Full(ord) => 0 <= ord < s.read
  {
    assert SlotOk(s, i);
    assert ThreadOk(s, s.slots[i].owner.value);
  }

  /** A thread that saw a stamp at or past `write` and finds `write` unchanged meets a free slot. */
  lemma ClaimedIsFree<T>(s: State<T>, pos: int)
    requires Inv(s) && pos == s.write && SlotOf(s, pos).stamp.ord >= pos
    ensures SlotOf(s, pos) == Slot(Free(pos), Uninit, None)
  {
    var i := Index(s, pos);
    if s.slots[i].owner.Some? {
      ReservedStamp(s, i);
    }
    assert SlotOk(s, i);
    SameResidue(s.capacity, s.slots[i].stamp.ord, pos);
  }

  /** A thread that saw `read` readable and finds `read` unchanged meets the item of that ordinal. */
  lemma OldestIsFull<T>(s: State<T>)
    requires Inv(s)
    requires SlotOf(s, s.read).stamp.ord > s.read || SlotOf(s, s.read).stamp == Full(s.read)
    ensures s.read < s.write && SlotOf(s, s.read) == Slot(Full(s.read), Init(s.entered[s.read]), None)
  {
    var i := Index(s, s.read);
    var ord := s.slots[i].stamp.ord;
    assert SlotOk(s, i);
    if s.slots[i].owner.Some? {
      ReservedStamp(s, i);
      SameResidue(s.capacity, ord, s.read);
    } else if s.slots[i].stamp.Free? {
      ShiftResidue(ord, s.capacity);
      SameResidue(s.capacity, ord - s.capacity, s.read);
    } else {
      SameResidue(s.capacity, ord, s.read);
    }
  }

  lemma PushClaimKeepsInv<T>(s: State<T>, t: nat, c: Choice<T>)
    requires Inv(s) && t < |s.threads| && s.threads[t].PushClaim?
    ensures Inv(StepPush(s, t, c))
  {
    var r, pos := StepPush(s, t, c), s.threads[t].pos;
    assert ThreadOk(s, t);
    if !c.FailWeakly? && s.write == pos {
      ClaimedIsFree(s, pos);
      assert SlotOk(s, Index(s, pos));
      TouchKeepsInv(s, r, t, Index(s, pos));
    } else {
      LocalKeepsInv(s, t, PushLoad(s.threads[t].item, s.threads[t].overwrite));
    }
  }

  lemma PushTakeOldestKeepsInv<T>(s: State<T>, t: nat, c: Choice<T>)
    requires Inv(s) && t < |s.threads| && s.threads[t].PushTakeOldest?
    ensures Inv(StepPush(s, t, c))
  {
    var r, pos := StepPush(s, t, c), s.threads[t].pos;
    assert ThreadOk(s, t);
    if s.read == pos - s.capacity {
      ShiftResidue(pos, s.capacity);
      OldestIsFull(s);
      assert SlotOk(s, Index(s, pos));
      TouchKeepsInv(s, r, t, Index(s, pos));
    } else {
      LocalKeepsInv(s, t, PushLoad(s.threads[t].item, true));
    }
  }

  lemma PushAdvanceKeepsInv<T>(s: State<T>, t: nat, c: Choice<T>)
    requires Inv(s) && t < |s.threads| && s.threads[t].PushAdvance?
    ensures Inv(StepPush(s, t, c))
  {
    var r, pos := StepPush(s, t, c), s.threads[t].pos;
    assert ThreadOk(s, t);
    assert SlotOk(s, Index(s, pos));
    TouchKeepsInv(s, r, t, Index(s, pos));
  }

  lemma PushCellKeepsInv<T>(s: State<T>, t: nat, c: Choice<T>)
    requires Inv(s) && t < |s.threads| && (s.threads[t].PushWrite? || s.threads[t].PushReplace?)
    ensures Inv(StepPush(s, t, c))
  {
    var r, pos := StepPush(s, t, c), s.threads[t].pos;
    assert ThreadOk(s, t);
    assert SlotOk(s, Index(s, pos));
    TouchKeepsInv(s, r, t, Index(s, pos));
  }

  lemma PushPublishKeepsInv<T>(s: State<T>, t: nat, c: Choice<T>)
    requires Inv(s) && t < |s.threads| && s.threads[t].PushPublish?
    ensures Inv(StepPush(s, t, c))
  {
    var r, pos := StepPush(s, t, c), s.threads[t].pos;
    assert ThreadOk(s, t);
    assert SlotOk(s, Index(s, pos));
    TouchKeepsInv(s, r, t, Index(s, pos));
  }

  lemma PopClaimKeepsInv<T>(s: State<T>, t: nat, c: Choice<T>)
    requires Inv(s) && t < |s.threads| && s.threads[t].PopClaim?
    ensures Inv(StepPop(s, t, c))
  {
    var r, pos := StepPop(s, t, c), s.threads[t].pos;
    assert ThreadOk(s, t);
    if !c.FailWeakly? && s.read == pos {
      OldestIsFull(s);
      assert SlotOk(s, Index(s, pos));
      TouchKeepsInv(s, r, t, Index(s, pos));
    } else {
      LocalKeepsInv(s, t, PopLoad);
    }
  }

  lemma PopReadKeepsInv<T>(s: State<T>, t: nat, c: Choice<T>)
    requires Inv(s) && t < |s.threads| && s.threads[t].PopRead?
    ensures Inv(StepPop(s, t, c))
  {
    var r, pos := StepPop(s, t, c), s.threads[t].pos;
    assert ThreadOk(s, t);
    assert SlotOk(s, Index(s, pos));
    TouchKeepsInv(s, r, t, Index(s, pos));
  }

  lemma PopFreeKeepsInv<T>(s: State<T>, t: nat, c: Choice<T>)
    requires Inv(s) && t < |s.threads| && s.threads[t].PopFree?
    ensures Inv(StepPop(s, t, c))
  {
    var r, pos := StepPop(s, t, c), s.threads[t].pos;
    assert ThreadOk(s, t);
    assert SlotOk(s, Index(s, pos));
    ShiftResidue(pos, s.capacity);
    TouchKeepsInv(s, r, t, Index(s, pos));
  }

  lemma PushLocalKeepsInv<T>(s: State<T>, t: nat, c: Choice<T>)
    requires Inv(s) && t < |s.threads|
    requires s.threads[t].PushLoad? || s.threads[t].PushStamp? || s.threads[t].PushCheckRead?
    ensures Inv(StepPush(s, t, c))
  {
    var r := StepPush(s, t, c);
    assert ThreadOk(s, t);
    LocalKeepsInv(s, t, r.threads[t]);
  }

  lemma PopLocalKeepsInv<T>(s: State<T>, t: nat, c: Choice<T>)
    requires Inv(s) && t < |s.threads|
    requires s.threads[t].PopLoad? || s.threads[t].PopStamp? || s.threads[t].PopCheckWrite?
    ensures Inv(StepPop(s, t, c))
  {
    var r := StepPop(s, t, c);
    assert ThreadOk(s, t);
    LocalKeepsInv(s, t, r.threads[t]);
  }

  lemma LenKeepsInv<T>(s: State<T>, t: nat)
    requires Inv(s) && t < |s.threads|
    requires s.threads[t].LenLoadRead? || s.threads[t].LenLoadWrite? || s.threads[t].LenCheck?
    ensures Inv(StepLen(s, t))
  {
    assert ThreadOk(s, t);
    LocalKeepsInv(s, t, StepLen(s, t).threads[t]);
  }

  lemma IdleKeepsInv<T>(s: State<T>, t: nat, c: Choice<T>)
    requires Inv(s) && t < |s.threads| && s.threads[t].Idle?
    ensures Inv(StepIdle(s, t, c))
  {
    if c.BeginPush? || c.BeginPop? || c.BeginLen? {
      LocalKeepsInv(s, t, StepIdle(s, t, c).threads[t]);
    }
  }

  /** Every atomic step of every thread keeps the invariant. */
  lemma StepKeepsInv<T>(s: State<T>, t: nat, c: Choice<T>)
    requires Inv(s) && t < |s.threads|
    ensures Inv(Step(s, t, c))
  {
    match s.threads[t]
    case Idle(_) => IdleKeepsInv(s, t, c);
    case PushClaim(_, _, _) => PushClaimKeepsInv(s, t, c);
    case PushTakeOldest(_, _) => PushTakeOldestKeepsInv(s, t, c);
    case PushAdvance(_, _) => PushAdvanceKeepsInv(s, t, c);
    case PushWrite(_, _) => PushCellKeepsInv(s, t, c);
    case PushReplace(_, _) => PushCellKeepsInv(s, t, c);
    case PushPublish(_, _) => PushPublishKeepsInv(s, t, c);
    case PopClaim(_) => PopClaimKeepsInv(s, t, c);
    case PopRead(_) => PopReadKeepsInv(s, t, c);
    case PopFree(_, _) => PopFreeKeepsInv(s, t, c);
    case PushLoad(_, _) => PushLocalKeepsInv(s, t, c);
    case PushStamp(_, _, _) => PushLocalKeepsInv(s, t, c);
    case PushCheckRead(_, _, _) => PushLocalKeepsInv(s, t, c);
    case LenLoadRead => LenKeepsInv(s, t);
    case LenLoadWrite(_) => LenKeepsInv(s, t);
    case LenCheck(_, _, _) => LenKeepsInv(s, t);
    case _ => PopLocalKeepsInv(s, t, c);
  }
}
