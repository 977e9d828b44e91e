/** A thread that runs alone: calls finish in a fixed number of steps with the sequential result. */
module RingSolo {
  import opened Modular
  import opened Options
  import opened RingMachine
  import opened RingInvariant
  import opened RingFifo
  import opened RingSteps

  /** No thread is between reserving a slot and releasing it. */
  ghost predicate Undisturbed<T>(s: State<T>) {
    Inv(s) && forall u: nat :: u < |s.threads| ==> Reserved(s.threads[u]).None?
  }

  function Alone<T>(s: State<T>, t: nat, steps: nat): (r: State<T>)
    requires Shaped(s) && t < |s.threads|
    ensures Shaped(r) && |r.threads| == |s.threads|
    decreases steps
  {
    if steps == 0 then s else Alone(Step(s, t, Advance), t, steps - 1)
  }

  /** At rest the slot at `read` tells an empty ring from one with a readable item. */
  lemma RestingRead<T>(s: State<T>)
    requires Undisturbed(s)
    ensures SlotOf(s, s.read) == if s.read == s.write then Slot(Free(s.read), Uninit, None)
                                 else Slot(Full(s.read), Init(s.entered[s.read]), None)
  {
    var slot := SlotOf(s, s.read);
    assert SlotOk(s, Index(s, s.read)) && slot.owner == None;
    ShiftResidue(slot.stamp.ord, s.capacity);
    if slot.stamp.Full? || s.read == s.write {
      SameResidue(s.capacity, slot.stamp.ord, s.read);
    } else {
      SameResidue(s.capacity, slot.stamp.ord - s.capacity, s.read);
    }
  }

  /** At rest the slot at `write` tells a ring with room from a full one. */
  lemma RestingWrite<T>(s: State<T>)
    requires Undisturbed(s)
    ensures SlotOf(s, s.write) == if s.write < s.read + s.capacity then Slot(Free(s.write), Uninit, None)
                                  else Slot(Full(s.read), Init(s.entered[s.read]), None)
  {
    var slot := SlotOf(s, s.write);
    assert SlotOk(s, Index(s, s.write)) && slot.owner == None;
    ShiftResidue(slot.stamp.ord, s.capacity);
    if slot.stamp.Free? {
      SameResidue(s.capacity, slot.stamp.ord, s.write);
    } else {
      SameResidue(s.capacity, slot.stamp.ord + s.capacity, s.write);
    }
  }

  lemma StillUndisturbed<T>(s: State<T>, r: State<T>, t: nat)
    requires Undisturbed(s) && Inv(r) && t < |s.threads| && Extends(s, r, t) && Reserved(r.threads[t]).None?
    ensures Undisturbed(r)
  {
    forall u: nat | u < |r.threads| ensures Reserved(r.threads[u]).None? {
      if u != t { assert r.threads[u] == s.threads[u]; }
    }
  }

  lemma Invariably<T>(s: State<T>, t: nat, steps: nat)
    requires Inv(s) && t < |s.threads|
    ensures Inv(Alone(s, t, steps)) && Extends(s, Alone(s, t, steps), t)
    decreases steps
  {
    if steps > 0 {
      StepKeepsInv(s, t, Advance);
      Invariably(Step(s, t, Advance), t, steps - 1);
    }
  }

  /** A call that a thread at rest makes, and then so many steps of its own. */
  function CallAlone<T>(s: State<T>, t: nat, c: Choice<T>, steps: nat): (r: State<T>)
    requires Shaped(s) && t < |s.threads|
    ensures Shaped(r) && |r.threads| == |s.threads|
  {
    Alone(Step(s, t, c), t, steps)
  }

  /** The beginning of a call changes nothing but its thread. */
  lemma CallBegins<T>(s: State<T>, t: nat, c: Choice<T>, pc: Pc<T>)
    requires Undisturbed(s) && t < |s.threads| && s.threads[t].Idle?
    requires Step(s, t, c) == At(s, t, pc) && Reserved(pc).None?
    ensures Undisturbed(At(s, t, pc)) && Queue(At(s, t, pc)) == Queue(s) && At(s, t, pc).threads[t] == pc
  {
    StepKeepsInv(s, t, c);
    StillUndisturbed(s, At(s, t, pc), t);
  }

  /** A lone pop takes the oldest item in five steps, or reports an empty ring in three. */
  lemma PopAlone<T>(s: State<T>, t: nat)
    requires Undisturbed(s) && t < |s.threads| && s.threads[t].Idle?
    ensures var r := CallAlone(s, t, BeginPop, if Queue(s) == [] then 3 else 5);
            && Undisturbed(r) && r.capacity == s.capacity
            && r.threads[t] == Idle(if Queue(s) == [] then Empty else Popped(Queue(s)[0]))
            && Queue(r) == if Queue(s) == [] then [] else Queue(s)[1..]
  {
    CallBegins(s, t, BeginPop, PopLoad);
    PopRuns(At(s, t, PopLoad), t);
  }

  lemma PopRuns<T>(s: State<T>, t: nat)
    requires Undisturbed(s) && t < |s.threads| && s.threads[t] == PopLoad
    ensures var r := Alone(s, t, if Queue(s) == [] then 3 else 5);
            && Undisturbed(r) && r.capacity == s.capacity
            && r.threads[t] == Idle(if Queue(s) == [] then Empty else Popped(Queue(s)[0]))
            && Queue(r) == if Queue(s) == [] then [] else Queue(s)[1..]
  {
    RestingRead(s);
    if Queue(s) == [] {
      PopAloneEmpty(s, t);
    } else {
      PopAloneFull(s, t);
    }
  }

  lemma PopAloneEmpty<T>(s: State<T>, t: nat)
    requires Undisturbed(s) && t < |s.threads| && s.threads[t] == PopLoad && s.read == s.write
    ensures var r := Alone(s, t, 3); Undisturbed(r) && r.threads[t] == Idle(Empty) && Queue(r) == []
  {
    RestingRead(s);
    var a := Step(s, t, Advance);
    var b := Step(a, t, Advance);
    var r := Step(b, t, Advance);
    assert b.threads[t] == PopCheckWrite(s.read);
    assert Alone(r, t, 0) == r;
    assert Alone(b, t, 1) == r;
    assert Alone(s, t, 3) == r;
    Invariably(s, t, 3);
    StillUndisturbed(s, r, t);
  }

  lemma ReachPopClaim<T>(s: State<T>, t: nat)
    requires Undisturbed(s) && t < |s.threads| && s.threads[t] == PopLoad && s.read < s.write
    ensures Alone(s, t, 2) == At(s, t, PopClaim(s.read))
    ensures SlotOf(s, s.read).cell == Init(s.entered[s.read])
  {
    RestingRead(s);
    PopLoadStep(s, t);
    PopStampStep(Step(s, t, Advance), t);
    Two(s, t);
  }

  lemma FinishPop<T>(s: State<T>, t: nat, item: T)
    requires Shaped(s) && t < |s.threads| && s.threads[t] == PopClaim(s.read) && SlotOf(s, s.read).cell == Init(item)
    ensures var r := Alone(s, t, 3);
            && r.threads[t] == Idle(Popped(item))
            && r.read == s.read + 1 && r.write == s.write && r.entered == s.entered
  {
    var a := Step(s, t, Advance);
    ClaimMovesRead(s, t, Advance);
    assert SlotOf(a, s.read).cell == Init(item);
    ReadChangesSlot(a, t);
    FreeChangesSlot(Step(a, t, Advance), t);
    Two(a, t);
    Then(s, t, 1, 2);
    Two(s, t);
  }

  lemma PopAloneFull<T>(s: State<T>, t: nat)
    requires Undisturbed(s) && t < |s.threads| && s.threads[t] == PopLoad && s.read < s.write
    ensures var r := Alone(s, t, 5);
            Undisturbed(r) && r.threads[t] == Idle(Popped(s.entered[s.read])) && Queue(r) == Queue(s)[1..]
  {
    ReachPopClaim(s, t);
    FinishPop(Alone(s, t, 2), t, s.entered[s.read]);
    Then(s, t, 2, 3);
    Invariably(s, t, 5);
    StillUndisturbed(s, Alone(s, t, 5), t);
  }

  /** A lone push appends when there is room; a full ring rejects it, or gives up its oldest item to an overwrite. */
  lemma PushAlone<T>(s: State<T>, t: nat, item: T, overwrite: bool)
    requires Undisturbed(s) && t < |s.threads| && s.threads[t].Idle?
    ensures var full := |Queue(s)| == s.capacity;
            var r := CallAlone(s, t, BeginPush(item, overwrite), if !full then 5 else if overwrite then 7 else 3);
            && Undisturbed(r) && r.capacity == s.capacity
            && r.threads[t] == Idle(if !full then Pushed(None)
                                    else if overwrite then Pushed(Some(Queue(s)[0])) else Rejected(item))
            && Queue(r) == if !full then Queue(s) + [item]
                           else if overwrite then Queue(s)[1..] + [item] else Queue(s)
  {
    CallBegins(s, t, BeginPush(item, overwrite), PushLoad(item, overwrite));
    PushRuns(At(s, t, PushLoad(item, overwrite)), t, item, overwrite);
  }

  /** A lone `len` is the number of items inside, in three steps. */
  lemma LenAlone<T>(s: State<T>, t: nat)
    requires Undisturbed(s) && t < |s.threads| && s.threads[t].Idle?
    ensures CallAlone(s, t, BeginLen, 3) == At(s, t, Idle(Count(|Queue(s)|)))
  {
    var a := Step(s, t, BeginLen);
    var b := Step(a, t, Advance);
    var d := Step(b, t, Advance);
    assert d.threads[t] == LenCheck(s.read, s.write, s.read);
    LenIsExact(s, s.read, s.write);
    Two(a, t);
    Then(a, t, 2, 1);
    Two(d, t);
    assert Step(d, t, Advance) == At(d, t, Idle(Count(s.write - s.read)));
  }

  lemma PushRuns<T>(s: State<T>, t: nat, item: T, overwrite: bool)
    requires Undisturbed(s) && t < |s.threads| && s.threads[t] == PushLoad(item, overwrite)
    ensures var full := |Queue(s)| == s.capacity;
            var r := Alone(s, t, if !full then 5 else if overwrite then 7 else 3);
            && Undisturbed(r) && r.capacity == s.capacity
            && r.threads[t] == Idle(if !full then Pushed(None)
                                    else if overwrite then Pushed(Some(Queue(s)[0])) else Rejected(item))
            && Queue(r) == if !full then Queue(s) + [item]
                           else if overwrite then Queue(s)[1..] + [item] else Queue(s)
  {
    if |Queue(s)| < s.capacity {
      PushAloneRoom(s, t);
    } else if overwrite {
      PushAloneOverwrite(s, t);
    } else {
      PushAloneFull(s, t);
    }
  }

  lemma Then<T>(s: State<T>, t: nat, m: nat, n: nat)
    requires Shaped(s) && t < |s.threads|
    ensures Alone(s, t, m + n) == Alone(Alone(s, t, m), t, n)
    decreases m
  {
    if m > 0 { Then(Step(s, t, Advance), t, m - 1, n); }
  }

  lemma PushAloneRoom<T>(s: State<T>, t: nat)
    requires Undisturbed(s) && t < |s.threads| && s.threads[t].PushLoad? && s.write < s.read + s.capacity
    ensures var r := Alone(s, t, 5);
            Undisturbed(r) && r.threads[t] == Idle(Pushed(None)) && Queue(r) == Queue(s) + [s.threads[t].item]
  {
    ReachClaim(s, t);
    FinishClaim(Alone(s, t, 2), t);
    Then(s, t, 2, 3);
    Invariably(s, t, 5);
    StillUndisturbed(s, Alone(s, t, 5), t);
  }

  /** On a full ring a push looks at the read cursor. */
  lemma ReachCheck<T>(s: State<T>, t: nat)
    requires Undisturbed(s) && t < |s.threads| && s.threads[t].PushLoad? && s.write == s.read + s.capacity
    ensures Alone(s, t, 2) == At(s, t, PushCheckRead(s.threads[t].item, s.threads[t].overwrite, s.write))
    ensures SlotOf(s, s.write).cell == Init(s.entered[s.read])
  {
    RestingWrite(s);
    PushLoadStep(s, t);
    PushStampStep(Step(s, t, Advance), t);
    Two(s, t);
  }

  lemma ReachClaim<T>(s: State<T>, t: nat)
    requires Undisturbed(s) && t < |s.threads| && s.threads[t].PushLoad? && s.write < s.read + s.capacity
    ensures Alone(s, t, 2) == At(s, t, PushClaim(s.threads[t].item, s.threads[t].overwrite, s.write))
  {
    RestingWrite(s);
    PushLoadStep(s, t);
    PushStampStep(Step(s, t, Advance), t);
    Two(s, t);
  }

  lemma Two<T>(s: State<T>, t: nat)
    requires Shaped(s) && t < |s.threads|
    ensures Alone(s, t, 1) == Step(s, t, Advance)
    ensures Alone(s, t, 2) == Step(Step(s, t, Advance), t, Advance)
  {
    var a := Step(s, t, Advance);
    var b := Step(a, t, Advance);
    assert Alone(a, t, 0) == a && Alone(b, t, 0) == b;
    assert Alone(a, t, 1) == b;
  }

  lemma FinishClaim<T>(s: State<T>, t: nat)
    requires CursorsOk(s) && t < |s.threads| && s.threads[t].PushClaim? && s.threads[t].pos == s.write
    ensures var r := Alone(s, t, 3);
            && r.threads[t] == Idle(Pushed(None))
            && r.read == s.read && r.write == s.write + 1 && r.entered == s.entered + [s.threads[t].item]
  {
    Two(s, t);
    FinishWrite(Step(s, t, Advance), t);
    Then(s, t, 1, 2);
  }

  lemma FinishWrite<T>(s: State<T>, t: nat)
    requires Shaped(s) && t < |s.threads|
    requires s.threads[t].PushWrite? || (s.threads[t].PushReplace? && SlotOf(s, s.threads[t].pos).cell.Init?)
    ensures var r := Alone(s, t, 2);
            && r.threads[t] == Idle(Pushed(if s.threads[t].PushWrite? then None
                                           else Some(SlotOf(s, s.threads[t].pos).cell.value)))
            && r.read == s.read && r.write == s.write && r.entered == s.entered
  {
    Two(s, t);
    if s.threads[t].PushWrite? {
      WriteChangesSlot(s, t);
    } else {
      ReplaceChangesSlot(s, t);
    }
    PublishChangesSlot(Step(s, t, Advance), t);
  }

  lemma PushAloneFull<T>(s: State<T>, t: nat)
    requires Undisturbed(s) && t < |s.threads| && s.threads[t].PushLoad? && !s.threads[t].overwrite
    requires s.write == s.read + s.capacity
    ensures var r := Alone(s, t, 3);
            Undisturbed(r) && r.threads[t] == Idle(Rejected(s.threads[t].item)) && Queue(r) == Queue(s)
  {
    ReachCheck(s, t);
    PushCheckStep(Alone(s, t, 2), t);
    Two(Alone(s, t, 2), t);
    Then(s, t, 2, 1);
    Invariably(s, t, 3);
    StillUndisturbed(s, Alone(s, t, 3), t);
  }

  lemma PushAloneOverwrite<T>(s: State<T>, t: nat)
    requires Undisturbed(s) && t < |s.threads| && s.threads[t].PushLoad? && s.threads[t].overwrite
    requires s.write == s.read + s.capacity
    ensures var r := Alone(s, t, 7);
            && Undisturbed(r) && r.threads[t] == Idle(Pushed(Some(s.entered[s.read])))
            && Queue(r) == Queue(s)[1..] + [s.threads[t].item]
  {
    OverwriteEnds(s, t);
    Invariably(s, t, 7);
    StillUndisturbed(s, Alone(s, t, 7), t);
    QueueTurnsOver(s, Alone(s, t, 7), s.threads[t].item);
  }

  lemma OverwriteEnds<T>(s: State<T>, t: nat)
    requires Undisturbed(s) && t < |s.threads| && s.threads[t].PushLoad? && s.threads[t].overwrite
    requires s.write == s.read + s.capacity
    ensures var r := Alone(s, t, 7);
            && r.threads[t] == Idle(Pushed(Some(s.entered[s.read])))
            && r.read == s.read + 1 && r.write == s.write + 1 && r.entered == s.entered + [s.threads[t].item]
  {
    ReachTakeOldest(s, t);
    FinishOverwrite(Alone(s, t, 3), t);
    Then(s, t, 3, 4);
  }

  lemma QueueTurnsOver<T>(s: State<T>, r: State<T>, item: T)
    requires CursorsOk(s) && CursorsOk(r) && s.read < s.write
    requires r.read == s.read + 1 && r.write == s.write + 1 && r.entered == s.entered + [item]
    ensures Queue(r) == Queue(s)[1..] + [item]
  {
  }

  lemma ReachTakeOldest<T>(s: State<T>, t: nat)
    requires Undisturbed(s) && t < |s.threads| && s.threads[t].PushLoad? && s.threads[t].overwrite
    requires s.write == s.read + s.capacity
    ensures Alone(s, t, 3) == At(s, t, PushTakeOldest(s.threads[t].item, s.write))
    ensures SlotOf(s, s.write).cell == Init(s.entered[s.read])
  {
    ReachCheck(s, t);
    PushCheckStep(Alone(s, t, 2), t);
    Two(Alone(s, t, 2), t);
    Then(s, t, 2, 1);
  }

  /** The read exchange and the write store. */
  lemma OverwriteClaims<T>(s: State<T>, t: nat)
    requires Shaped(s) && t < |s.threads| && s.threads[t].PushTakeOldest? && s.threads[t].pos == s.write
    requires s.write == s.read + s.capacity
    ensures var r := Alone(s, t, 2);
            && Shaped(r) && |r.threads| == |s.threads| && r.capacity == s.capacity
            && r.threads[t] == PushReplace(s.threads[t].item, s.write)
            && r.read == s.read + 1 && r.write == s.write + 1 && SlotOf(r, s.write).cell == SlotOf(s, s.write).cell
            && r.entered == s.entered + [s.threads[t].item]
  {
    Two(s, t);
    TakeOldestMovesRead(s, t);
    var a := Step(s, t, Advance);
    AdvanceMovesWrite(a, t);
    SameCell(s, a, s.write);
    SameCell(a, Step(a, t, Advance), s.write);
  }

  lemma SameCell<T>(s: State<T>, r: State<T>, pos: int)
    requires Shaped(s) && Shaped(r) && r.capacity == s.capacity && SameWords(s, r)
    ensures SlotOf(r, pos).cell == SlotOf(s, pos).cell
  {
  }

  lemma FinishOverwrite<T>(s: State<T>, t: nat)
    requires Shaped(s) && t < |s.threads| && s.threads[t].PushTakeOldest? && s.threads[t].pos == s.write
    requires s.write == s.read + s.capacity && SlotOf(s, s.write).cell.Init?
    ensures var r := Alone(s, t, 4);
            && r.threads[t] == Idle(Pushed(Some(SlotOf(s, s.write).cell.value)))
            && r.read == s.read + 1 && r.write == s.write + 1 && r.entered == s.entered + [s.threads[t].item]
  {
    OverwriteClaims(s, t);
    FinishWrite(Alone(s, t, 2), t);
    Then(s, t, 2, 2);
  }
}
