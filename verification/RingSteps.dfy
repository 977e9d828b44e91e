/** What each atomic operation does to the ordinal state, one lemma for each. */
module RingSteps {
  import opened Options
  import opened RingMachine

  // ----- loads and comparisons -----

  lemma PushLoadStep<T>(s: State<T>, t: nat)
    requires Shaped(s) && t < |s.threads| && s.threads[t].PushLoad?
    ensures Step(s, t, Advance) == At(s, t, PushStamp(s.threads[t].item, s.threads[t].overwrite, s.write))
  {
  }

  lemma PushStampStep<T>(s: State<T>, t: nat)
    requires Shaped(s) && t < |s.threads| && s.threads[t].PushStamp?
    ensures var pc := s.threads[t];
            var stamp := SlotOf(s, pc.pos).stamp;
            Step(s, t, Advance)
            == At(s, t, if stamp == Free(pc.pos) then PushClaim(pc.item, pc.overwrite, pc.pos)
                        else if stamp == Full(pc.pos - s.capacity) then PushCheckRead(pc.item, pc.overwrite, pc.pos)
                        else PushLoad(pc.item, pc.overwrite))
  {
  }

  lemma PushCheckStep<T>(s: State<T>, t: nat)
    requires Shaped(s) && t < |s.threads| && s.threads[t].PushCheckRead?
    ensures var pc := s.threads[t];
            Step(s, t, Advance)
            == At(s, t, if s.read != pc.pos - s.capacity then PushLoad(pc.item, pc.overwrite)
                        else if pc.overwrite then PushTakeOldest(pc.item, pc.pos) else Idle(Rejected(pc.item)))
  {
  }

  lemma PopLoadStep<T>(s: State<T>, t: nat)
    requires Shaped(s) && t < |s.threads| && s.threads[t].PopLoad?
    ensures Step(s, t, Advance) == At(s, t, PopStamp(s.read))
  {
  }

  lemma PopStampStep<T>(s: State<T>, t: nat)
    requires Shaped(s) && t < |s.threads| && s.threads[t].PopStamp?
    ensures var pos := s.threads[t].pos;
            var stamp := SlotOf(s, pos).stamp;
            Step(s, t, Advance)
            == At(s, t, if stamp == Full(pos) then PopClaim(pos)
                        else if stamp == Free(pos) then PopCheckWrite(pos) else PopLoad)
  {
  }

  // ----- slots -----

  /** Nothing but slot `i` and the program counter of one thread differs. */
  ghost predicate OneSlotChanged<T>(s: State<T>, r: State<T>, i: int) {
    && r.capacity == s.capacity && |r.slots| == |s.slots| && r.read == s.read && r.write == s.write
    && r.entered == s.entered
    && forall j :: 0 <= j < |s.slots| && j != i ==> r.slots[j] == s.slots[j]
  }

  lemma WriteChangesSlot<T>(s: State<T>, t: nat)
    requires Shaped(s) && t < |s.threads| && s.threads[t].PushWrite?
    ensures var r, pos, item := Step(s, t, Advance), s.threads[t].pos, s.threads[t].item;
            && OneSlotChanged(s, r, Index(s, pos)) && r.threads[t] == PushPublish(pos, None)
            && SlotOf(r, pos) == SlotOf(s, pos).(cell := Init(item))
  {
  }

  lemma ReplaceChangesSlot<T>(s: State<T>, t: nat)
    requires Shaped(s) && t < |s.threads| && s.threads[t].PushReplace? && SlotOf(s, s.threads[t].pos).cell.Init?
    ensures var r, pos, item := Step(s, t, Advance), s.threads[t].pos, s.threads[t].item;
            && OneSlotChanged(s, r, Index(s, pos))
            && r.threads[t] == PushPublish(pos, Some(SlotOf(s, pos).cell.value))
            && SlotOf(r, pos) == SlotOf(s, pos).(cell := Init(item))
  {
  }

  lemma PublishChangesSlot<T>(s: State<T>, t: nat)
    requires Shaped(s) && t < |s.threads| && s.threads[t].PushPublish?
    ensures var r, pos := Step(s, t, Advance), s.threads[t].pos;
            && OneSlotChanged(s, r, Index(s, pos)) && r.threads[t] == Idle(Pushed(s.threads[t].displaced))
            && SlotOf(r, pos) == SlotOf(s, pos).(stamp := Full(pos), owner := None)
  {
  }

  lemma ReadChangesSlot<T>(s: State<T>, t: nat)
    requires Shaped(s) && t < |s.threads| && s.threads[t].PopRead? && SlotOf(s, s.threads[t].pos).cell.Init?
    ensures var r, pos := Step(s, t, Advance), s.threads[t].pos;
            && OneSlotChanged(s, r, Index(s, pos))
            && r.threads[t] == PopFree(pos, SlotOf(s, pos).cell.value)
            && SlotOf(r, pos) == SlotOf(s, pos).(cell := Uninit)
  {
  }

  lemma FreeChangesSlot<T>(s: State<T>, t: nat)
    requires Shaped(s) && t < |s.threads| && s.threads[t].PopFree?
    ensures var r, pos := Step(s, t, Advance), s.threads[t].pos;
            && OneSlotChanged(s, r, Index(s, pos)) && r.threads[t] == Idle(Popped(s.threads[t].item))
            && SlotOf(r, pos) == SlotOf(s, pos).(stamp := Free(pos + s.capacity), owner := None)
  {
  }

  // ----- cursors -----

  ghost predicate SameWords<T>(s: State<T>, r: State<T>) {
    && |r.slots| == |s.slots|
    && forall i :: 0 <= i < |s.slots| ==> r.slots[i].stamp == s.slots[i].stamp && r.slots[i].cell == s.slots[i].cell
  }

  lemma ClaimMovesWrite<T>(s: State<T>, t: nat, c: Choice<T>)
    requires Shaped(s) && t < |s.threads| && s.threads[t].PushClaim?
    ensures var r, pc := Step(s, t, c), s.threads[t];
            && SameWords(s, r) && r.read == s.read
            && (if !c.FailWeakly? && s.write == pc.pos
                then r.write == pc.pos + 1 && r.threads[t] == PushWrite(pc.item, pc.pos)
                else r == At(s, t, PushLoad(pc.item, pc.overwrite)))
  {
  }

  lemma ClaimMovesRead<T>(s: State<T>, t: nat, c: Choice<T>)
    requires Shaped(s) && t < |s.threads| && s.threads[t].PopClaim?
    ensures var r, pc := Step(s, t, c), s.threads[t];
            && SameWords(s, r) && r.write == s.write && r.entered == s.entered
            && (if !c.FailWeakly? && s.read == pc.pos
                then r.read == pc.pos + 1 && r.threads[t] == PopRead(pc.pos) else r == At(s, t, PopLoad))
  {
  }

  /** The plain store of an overwrite moves the write cursor only. */
  lemma AdvanceMovesWrite<T>(s: State<T>, t: nat)
    requires 0 < s.capacity == |s.slots| && t < |s.threads| && s.threads[t].PushAdvance?
    ensures var r, pc := Step(s, t, Advance), s.threads[t];
            SameWords(s, r) && r.read == s.read && r.write == pc.pos + 1 && r.threads[t] == PushReplace(pc.item, pc.pos)
  {
  }

  lemma TakeOldestMovesRead<T>(s: State<T>, t: nat)
    requires Shaped(s) && t < |s.threads| && s.threads[t].PushTakeOldest?
    ensures var r, pc := Step(s, t, Advance), s.threads[t];
            && SameWords(s, r) && r.write == s.write && r.entered == s.entered
            && (if s.read == pc.pos - s.capacity
                then r.read == pc.pos - s.capacity + 1 && r.threads[t] == PushAdvance(pc.item, pc.pos)
                else r == At(s, t, PushLoad(pc.item, true)))
  {
  }
}
