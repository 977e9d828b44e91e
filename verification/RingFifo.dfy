/** The ring is a bounded FIFO: every interleaving is an interleaving of atomic queue operations. */
module RingFifo {
  import opened Modular
  import opened Options
  import opened RingMachine
  import opened RingInvariant

  // ----- the specification: a bounded queue with calls in progress -----

  datatype Call<+T> =
    | Quiet(last: Outcome<T>)
    | Pushing(item: T, overwrite: bool)
    | Displacing(item: T, oldest: T)
    | PushDone(displaced: Option<T>)
    | Popping
    | PopDone(item: T)
    | Counting
    | Sampled(count: int)

  datatype Fifo<T> = Fifo(capacity: int, queue: seq<T>, calls: seq<Call<T>>)

  ghost predicate Moves<T>(a: Fifo<T>, b: Fifo<T>, t: nat, queue: seq<T>, call: Call<T>) {
    t < |a.calls| && b == Fifo(a.capacity, queue, a.calls[t := call])
  }

  /** One step of thread `t` on the queue, or none while a call is in progress. A thread at rest begins the call that
  was made, with its item and its flag. An overwrite of a full queue takes the oldest item, then appends. */
  ghost predicate FifoNext<T>(a: Fifo<T>, b: Fifo<T>, t: nat, c: Choice<T>)
    requires t < |a.calls|
  {
    match a.calls[t]
    case Quiet(_) => Begins(a, b, t, c)
    case Pushing(item, overwrite) =>
      || b == a
      || (|a.queue| < a.capacity && Moves(a, b, t, a.queue + [item], PushDone(None)))
      || (|a.queue| == a.capacity > 0 && overwrite && Moves(a, b, t, a.queue[1..], Displacing(item, a.queue[0])))
      || (|a.queue| == a.capacity && !overwrite && Moves(a, b, t, a.queue, Quiet(Rejected(item))))
    case Displacing(item, oldest) =>
      b == a || (|a.queue| < a.capacity && Moves(a, b, t, a.queue + [item], PushDone(Some(oldest))))
    case PushDone(displaced) => b == a || Moves(a, b, t, a.queue, Quiet(Pushed(displaced)))
    case Popping =>
      || b == a
      || (|a.queue| > 0 && Moves(a, b, t, a.queue[1..], PopDone(a.queue[0])))
      || (a.queue == [] && Moves(a, b, t, a.queue, Quiet(Empty)))
    case PopDone(item) => b == a || Moves(a, b, t, a.queue, Quiet(Popped(item)))
    case Counting => b == a || Moves(a, b, t, a.queue, Sampled(|a.queue|))
    case Sampled(count) =>
      || b == a
      || Moves(a, b, t, a.queue, Counting)
      || Moves(a, b, t, a.queue, Quiet(Count(count)))
  }

  /** What each call starts as. */
  ghost predicate Begins<T>(a: Fifo<T>, b: Fifo<T>, t: nat, c: Choice<T>) {
    match c
    case BeginPush(item, overwrite) => Moves(a, b, t, a.queue, Pushing(item, overwrite))
    case BeginPop => Moves(a, b, t, a.queue, Popping)
    case BeginLen => Moves(a, b, t, a.queue, Counting)
    case _ => b == a
  }

  // ----- what the ring shows of itself -----

  ghost function Queue<T>(s: State<T>): seq<T>
    requires CursorsOk(s)
  {
    s.entered[s.read..s.write]
  }

  ghost function CallOf<T>(s: State<T>, t: nat): Call<T>
    requires CursorsOk(s) && t < |s.threads| && ThreadOk(s, t)
  {
    match s.threads[t]
    case Idle(last) => Quiet(last)
    case PushLoad(item, overwrite) => Pushing(item, overwrite)
    case PushStamp(item, overwrite, _) => Pushing(item, overwrite)
    case PushClaim(item, overwrite, _) => Pushing(item, overwrite)
    case PushCheckRead(item, overwrite, _) => Pushing(item, overwrite)
    case PushTakeOldest(item, _) => Pushing(item, true)
    case PushAdvance(item, pos) => Displacing(item, s.entered[pos - s.capacity])
    case PushWrite(_, _) => PushDone(None)
    case PushReplace(_, pos) => PushDone(Some(s.entered[pos - s.capacity]))
    case PushPublish(_, displaced) => PushDone(displaced)
    case PopRead(pos) => PopDone(s.entered[pos])
    case PopFree(_, item) => PopDone(item)
    case LenLoadRead => Counting
    case LenLoadWrite(_) => Counting
    case LenCheck(_, write, readThen) => Sampled(write - readThen)
    case _ => Popping
  }

  ghost function View<T>(s: State<T>): (a: Fifo<T>)
    requires Inv(s)
    ensures |a.calls| == |s.threads| && |a.queue| == s.write - s.read
    ensures forall t: nat :: t < |a.calls| ==> a.calls[t] == CallOf(s, t)
  {
    Fifo(s.capacity, Queue(s), seq(|s.threads|, t requires 0 <= t < |s.threads| => CallOf(s, t)))
  }

  lemma OtherCalls<T>(s: State<T>, r: State<T>, t: nat)
    requires Inv(s) && Inv(r) && t < |s.threads| && Extends(s, r, t)
    ensures View(r).calls == View(s).calls[t := CallOf(r, t)]
  {
    forall u: nat | u < |s.threads| && u != t ensures View(r).calls[u] == View(s).calls[u] {
      assert r.threads[u] == s.threads[u] && ThreadOk(s, u) && ThreadOk(r, u);
    }
  }

  /** A step that changes neither the queue nor the stage of its call cannot be seen. */
  lemma Invisible<T>(s: State<T>, r: State<T>, t: nat)
    requires Inv(s) && Inv(r) && t < |s.threads| && Extends(s, r, t)
    requires Queue(r) == Queue(s) && CallOf(r, t) == CallOf(s, t)
    ensures View(r) == View(s)
  {
    OtherCalls(s, r, t);
    assert View(s).calls[t := CallOf(s, t)] == View(s).calls;
  }

  lemma PushClaimRefines<T>(s: State<T>, t: nat, c: Choice<T>)
    requires Inv(s) && t < |s.threads| && Inv(StepPush(s, t, c)) && s.threads[t].PushClaim?
    ensures FifoNext(View(s), View(StepPush(s, t, c)), t, c)
  {
    var r, pos := StepPush(s, t, c), s.threads[t].pos;
    OtherCalls(s, r, t);
    assert ThreadOk(s, t) && ThreadOk(r, t);
    if !c.FailWeakly? && s.write == pos {
      ClaimedIsFree(s, pos);
      RoomAtFree(s);
      assert Queue(r) == Queue(s) + [s.threads[t].item];
    } else {
      assert Queue(r) == Queue(s);
    }
  }

  lemma PushTakeOldestRefines<T>(s: State<T>, t: nat, c: Choice<T>)
    requires Inv(s) && t < |s.threads| && Inv(StepPush(s, t, c)) && s.threads[t].PushTakeOldest?
    ensures FifoNext(View(s), View(StepPush(s, t, c)), t, c)
  {
    var r, pos := StepPush(s, t, c), s.threads[t].pos;
    OtherCalls(s, r, t);
    assert ThreadOk(s, t) && ThreadOk(r, t);
    if s.read == pos - s.capacity {
      assert Queue(r) == Queue(s)[1..];
    } else {
      assert Queue(r) == Queue(s);
    }
  }

  lemma PushAdvanceRefines<T>(s: State<T>, t: nat, c: Choice<T>)
    requires Inv(s) && t < |s.threads| && Inv(StepPush(s, t, c)) && s.threads[t].PushAdvance?
    ensures FifoNext(View(s), View(StepPush(s, t, c)), t, c)
  {
    var r := StepPush(s, t, c);
    OtherCalls(s, r, t);
    assert ThreadOk(s, t) && ThreadOk(r, t);
    assert Queue(r) == Queue(s) + [s.threads[t].item];
  }

  lemma PushLocalRefines<T>(s: State<T>, t: nat, c: Choice<T>)
    requires Inv(s) && t < |s.threads| && Inv(StepPush(s, t, c))
    requires s.threads[t].PushLoad? || s.threads[t].PushStamp? || s.threads[t].PushCheckRead?
    ensures FifoNext(View(s), View(StepPush(s, t, c)), t, c)
  {
    var r := StepPush(s, t, c);
    OtherCalls(s, r, t);
    assert ThreadOk(s, t) && ThreadOk(r, t);
    assert Queue(r) == Queue(s);
  }

  lemma PushSlotRefines<T>(s: State<T>, t: nat, c: Choice<T>)
    requires Inv(s) && t < |s.threads| && Inv(StepPush(s, t, c))
    requires s.threads[t].PushWrite? || s.threads[t].PushReplace? || s.threads[t].PushPublish?
    ensures FifoNext(View(s), View(StepPush(s, t, c)), t, c)
  {
    var r := StepPush(s, t, c);
    OtherCalls(s, r, t);
    assert ThreadOk(s, t) && ThreadOk(r, t);
    assert Queue(r) == Queue(s);
  }

  lemma RoomAtFree<T>(s: State<T>)
    requires Inv(s) && SlotOf(s, s.write) == Slot(Free(s.write), Uninit, None)
    ensures s.write < s.read + s.capacity
  {
    assert SlotOk(s, Index(s, s.write));
  }

  lemma PopClaimRefines<T>(s: State<T>, t: nat, c: Choice<T>)
    requires Inv(s) && t < |s.threads| && Inv(StepPop(s, t, c)) && s.threads[t].PopClaim?
    ensures FifoNext(View(s), View(StepPop(s, t, c)), t, c)
  {
    var r, pos := StepPop(s, t, c), s.threads[t].pos;
    assert ThreadOk(s, t);
    if !c.FailWeakly? && s.read == pos {
      OtherCalls(s, r, t);
      OldestIsFull(s);
      assert Queue(r) == Queue(s)[1..];
    } else {
      Invisible(s, r, t);
    }
  }

  lemma PopLocalRefines<T>(s: State<T>, t: nat, c: Choice<T>)
    requires Inv(s) && t < |s.threads| && Inv(StepPop(s, t, c))
    requires s.threads[t].PopLoad? || s.threads[t].PopStamp?
    ensures FifoNext(View(s), View(StepPop(s, t, c)), t, c)
  {
    Invisible(s, StepPop(s, t, c), t);
  }

  /** A pop that reports an empty ring looks at an empty queue in that very step. */
  lemma PopCheckWriteRefines<T>(s: State<T>, t: nat, c: Choice<T>)
    requires Inv(s) && t < |s.threads| && Inv(StepPop(s, t, c)) && s.threads[t].PopCheckWrite?
    ensures FifoNext(View(s), View(StepPop(s, t, c)), t, c)
  {
    var r := StepPop(s, t, c);
    OtherCalls(s, r, t);
    assert ThreadOk(s, t);
    assert Queue(r) == Queue(s);
  }

  lemma PopSlotRefines<T>(s: State<T>, t: nat, c: Choice<T>)
    requires Inv(s) && t < |s.threads| && Inv(StepPop(s, t, c))
    requires s.threads[t].PopRead? || s.threads[t].PopFree?
    ensures FifoNext(View(s), View(StepPop(s, t, c)), t, c)
  {
    var r := StepPop(s, t, c);
    OtherCalls(s, r, t);
    assert ThreadOk(s, t) && ThreadOk(r, t);
    assert Queue(r) == Queue(s);
  }

  lemma LenIsExact<T>(s: State<T>, read: int, write: int)
    requires CursorsOk(s) && 0 <= write - read <= s.capacity
    ensures LengthOf(s.capacity, read, write) == write - read
  {
    var c := s.capacity;
    var q, i := read / c, read % c;
    assert read == c * q + i;
    if i + (write - read) < c {
      DivModUnique(write, c, q, i + (write - read));
    } else {
      assert write == c * (q + 1) + (i + (write - read) - c);
      if i + (write - read) - c < c {
        DivModUnique(write, c, q + 1, i + (write - read) - c);
      }
    }
  }

  lemma LenLoadRefines<T>(s: State<T>, t: nat, c: Choice<T>)
    requires Inv(s) && t < |s.threads| && Inv(StepLen(s, t))
    requires s.threads[t].LenLoadRead? || s.threads[t].LenLoadWrite?
    ensures FifoNext(View(s), View(StepLen(s, t)), t, c)
  {
    var r := StepLen(s, t);
    if s.threads[t].LenLoadRead? {
      Invisible(s, r, t);
    } else {
      OtherCalls(s, r, t);
      assert Queue(r) == Queue(s);
    }
  }

  lemma LenCheckRefines<T>(s: State<T>, t: nat, c: Choice<T>)
    requires Inv(s) && t < |s.threads| && Inv(StepLen(s, t)) && s.threads[t].LenCheck?
    ensures FifoNext(View(s), View(StepLen(s, t)), t, c)
  {
    var r := StepLen(s, t);
    OtherCalls(s, r, t);
    assert ThreadOk(s, t);
    assert Queue(r) == Queue(s);
    if s.read == s.threads[t].read {
      LenIsExact(s, s.threads[t].read, s.threads[t].write);
    }
  }

  lemma IdleRefines<T>(s: State<T>, t: nat, c: Choice<T>)
    requires Inv(s) && t < |s.threads| && s.threads[t].Idle? && Inv(StepIdle(s, t, c))
    ensures FifoNext(View(s), View(StepIdle(s, t, c)), t, c)
  {
    var r := StepIdle(s, t, c);
    OtherCalls(s, r, t);
    assert Queue(r) == Queue(s);
  }

  lemma PushRefines<T>(s: State<T>, t: nat, c: Choice<T>)
    requires Inv(s) && t < |s.threads| && Inv(StepPush(s, t, c))
    requires s.threads[t].PushLoad? || s.threads[t].PushStamp? || s.threads[t].PushClaim? || s.threads[t].PushWrite?
             || s.threads[t].PushCheckRead? || s.threads[t].PushTakeOldest? || s.threads[t].PushAdvance?
             || s.threads[t].PushReplace? || s.threads[t].PushPublish?
    ensures FifoNext(View(s), View(StepPush(s, t, c)), t, c)
  {
    var pc := s.threads[t];
    if pc.PushClaim? {
      PushClaimRefines(s, t, c);
    } else if pc.PushTakeOldest? {
      PushTakeOldestRefines(s, t, c);
    } else if pc.PushAdvance? {
      PushAdvanceRefines(s, t, c);
    } else if pc.PushWrite? || pc.PushReplace? || pc.PushPublish? {
      PushSlotRefines(s, t, c);
    } else {
      PushLocalRefines(s, t, c);
    }
  }

  lemma PopRefines<T>(s: State<T>, t: nat, c: Choice<T>)
    requires Inv(s) && t < |s.threads| && Inv(StepPop(s, t, c))
    requires s.threads[t].PopLoad? || s.threads[t].PopStamp? || s.threads[t].PopClaim? || s.threads[t].PopRead?
             || s.threads[t].PopFree? || s.threads[t].PopCheckWrite?
    ensures FifoNext(View(s), View(StepPop(s, t, c)), t, c)
  {
    if s.threads[t].PopClaim? {
      PopClaimRefines(s, t, c);
    } else if s.threads[t].PopRead? || s.threads[t].PopFree? {
      PopSlotRefines(s, t, c);
    } else if s.threads[t].PopCheckWrite? {
      PopCheckWriteRefines(s, t, c);
    } else {
      PopLocalRefines(s, t, c);
    }
  }

  /** Refinement: whatever any thread does next is one step of the bounded queue, or invisible. */
  lemma StepRefinesFifo<T>(s: State<T>, t: nat, c: Choice<T>)
    requires Inv(s) && t < |s.threads|
    ensures Inv(Step(s, t, c)) && FifoNext(View(s), View(Step(s, t, c)), t, c)
  {
    StepKeepsInv(s, t, c);
    var pc := s.threads[t];
    if pc.Idle? {
      IdleRefines(s, t, c);
    } else if pc.PopLoad? || pc.PopStamp? || pc.PopClaim? || pc.PopRead? || pc.PopFree? || pc.PopCheckWrite? {
      PopRefines(s, t, c);
    } else if pc.LenCheck? {
      LenCheckRefines(s, t, c);
    } else if pc.LenLoadRead? || pc.LenLoadWrite? {
      LenLoadRefines(s, t, c);
    } else {
      PushRefines(s, t, c);
    }
  }
}
