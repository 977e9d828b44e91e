/** What holds over whole runs of the ring, whatever the schedule. */
module RingRuns {
  import opened Modular
  import opened Options
  import opened RingMachine
  import opened RingInvariant
  import opened RingFifo

  /** One scheduling decision: which thread moves, and how. */
  datatype Turn<+T> = Turn(thread: nat, choice: Choice<T>)

  ghost predicate Schedules<T>(threads: nat, schedule: seq<Turn<T>>) {
    forall i :: 0 <= i < |schedule| ==> schedule[i].thread < threads
  }

  function Run<T>(s: State<T>, schedule: seq<Turn<T>>): (r: State<T>)
    requires Shaped(s) && forall i :: 0 <= i < |schedule| ==> schedule[i].thread < |s.threads|
    ensures Shaped(r) && |r.threads| == |s.threads|
    decreases |schedule|
  {
    if schedule == [] then s
    else
      var last := schedule[|schedule| - 1];
      Step(Run(s, schedule[..|schedule| - 1]), last.thread, last.choice)
  }

  // ----- every item leaves once, in order -----

  /** The ordinal whose item a thread has reserved but not yet moved out of its cell. */
  function InTransit<T>(capacity: int, pc: Pc<T>): Option<int> {
    match pc
    case PopRead(pos) => Some(pos)
    case PushAdvance(_, pos) => Some(pos - capacity)
    case PushReplace(_, pos) => Some(pos - capacity)
    case _ => None
  }

  ghost predicate Carries<T>(s: State<T>, t: nat, k: int) {
    t < |s.threads| && InTransit(s.capacity, s.threads[t]) == Some(k)
  }

  /** Moved-out items are those of the first `read` ordinals, except the ones still carried by a thread. */
  ghost predicate DeliveryOk<T>(s: State<T>)
    requires CursorsOk(s)
  {
    && (forall k :: k in s.delivered ==> 0 <= k < s.read && s.delivered[k] == s.entered[k])
    && (forall t, k :: Carries(s, t, k) ==> k !in s.delivered)
    && (forall k :: 0 <= k < s.read && k !in s.delivered ==> exists t :: Carries(s, t, k))
  }

  lemma CarriedOnce<T>(s: State<T>, t: nat, u: nat, k: int)
    requires Inv(s) && Carries(s, t, k) && Carries(s, u, k)
    ensures t == u
  {
    assert ThreadOk(s, t) && ThreadOk(s, u);
    ShiftResidue(k, s.capacity);
  }

  lemma CarriedIsTaken<T>(s: State<T>, t: nat, k: int)
    requires Inv(s) && Carries(s, t, k)
    ensures 0 <= k < s.read
  {
    assert ThreadOk(s, t);
  }

  /** A step takes up an ordinal, puts one down, or leaves the carrying as it is. */
  ghost predicate CarryStep<T>(s: State<T>, r: State<T>, t: nat)
    requires CursorsOk(s) && t < |s.threads| == |r.threads|
  {
    var before, after := InTransit(s.capacity, s.threads[t]), InTransit(r.capacity, r.threads[t]);
    || (before == after && r.read == s.read && r.delivered == s.delivered)
    || (before == None && after == Some(s.read) && r.read == s.read + 1 && r.delivered == s.delivered)
    || (before.Some? && after == None && r.read == s.read && 0 <= before.value < s.write
        && r.delivered == s.delivered[before.value := s.entered[before.value]])
  }

  /** An overwrite takes up the oldest ordinal. */
  lemma TakeOldestCarries<T>(s: State<T>, t: nat, c: Choice<T>)
    requires Inv(s) && t < |s.threads| && s.threads[t].PushTakeOldest?
    ensures CarryStep(s, StepPush(s, t, c), t)
  {
  }

  /** An overwrite puts down the item it displaces. */
  lemma ReplaceCarries<T>(s: State<T>, t: nat, c: Choice<T>)
    requires Inv(s) && t < |s.threads| && s.threads[t].PushReplace?
    ensures CarryStep(s, StepPush(s, t, c), t)
  {
    assert ThreadOk(s, t);
  }

  lemma PushCarries<T>(s: State<T>, t: nat, c: Choice<T>)
    requires Inv(s) && t < |s.threads|
    ensures CarryStep(s, StepPush(s, t, c), t)
  {
    if s.threads[t].PushTakeOldest? {
      TakeOldestCarries(s, t, c);
    } else if s.threads[t].PushReplace? {
      ReplaceCarries(s, t, c);
    }
  }

  /** A pop puts down the item it moves out. */
  lemma ReadCarries<T>(s: State<T>, t: nat, c: Choice<T>)
    requires Inv(s) && t < |s.threads| && s.threads[t].PopRead?
    ensures CarryStep(s, StepPop(s, t, c), t)
  {
    assert ThreadOk(s, t);
  }

  lemma PopCarries<T>(s: State<T>, t: nat, c: Choice<T>)
    requires Inv(s) && t < |s.threads|
    ensures CarryStep(s, StepPop(s, t, c), t)
  {
    if s.threads[t].PopRead? {
      ReadCarries(s, t, c);
    }
  }

  lemma StepCarries<T>(s: State<T>, t: nat, c: Choice<T>)
    requires Inv(s) && t < |s.threads|
    ensures CarryStep(s, Step(s, t, c), t)
  {
    var pc := s.threads[t];
    if pc.Idle? || pc.LenLoadRead? || pc.LenLoadWrite? || pc.LenCheck? {
    } else if pc.PopLoad? || pc.PopStamp? || pc.PopClaim? || pc.PopRead? || pc.PopFree? || pc.PopCheckWrite? {
      PopCarries(s, t, c);
    } else {
      PushCarries(s, t, c);
    }
  }

  lemma StepKeepsDelivery<T>(s: State<T>, t: nat, c: Choice<T>)
    requires Inv(s) && t < |s.threads| && DeliveryOk(s)
    ensures Inv(Step(s, t, c)) && DeliveryOk(Step(s, t, c))
  {
    StepKeepsInv(s, t, c);
    StepCarries(s, t, c);
    CarryStepKeepsDelivery(s, Step(s, t, c), t);
  }

  lemma CarryStepKeepsDelivery<T>(s: State<T>, r: State<T>, t: nat)
    requires Inv(s) && Inv(r) && DeliveryOk(s) && t < |s.threads| && Extends(s, r, t) && CarryStep(s, r, t)
    ensures DeliveryOk(r)
  {
    forall k | Carries(s, t, k) ensures 0 <= k < s.read { CarriedIsTaken(s, t, k); }
    assert InTransit(s.capacity, s.threads[t]).Some? ==> Carries(s, t, InTransit(s.capacity, s.threads[t]).value);
    forall u, k | Carries(r, u, k) ensures k !in r.delivered {
      if u != t {
        assert Carries(s, u, k);
        CarriedIsTaken(s, u, k);
        if InTransit(s.capacity, s.threads[t]) == Some(k) { CarriedOnce(s, t, u, k); }
      } else {
        assert k == s.read || Carries(s, t, k);
      }
    }
    forall k | 0 <= k < r.read && k !in r.delivered ensures exists u :: Carries(r, u, k) {
      if k < s.read {
        var u :| Carries(s, u, k);
        assert Carries(r, u, k);
      } else {
        assert Carries(r, t, k);
      }
    }
  }

  // ----- runs -----

  lemma {:induction false} RunKeepsAll<T>(s: State<T>, schedule: seq<Turn<T>>)
    requires Inv(s) && DeliveryOk(s) && Schedules(|s.threads|, schedule)
    ensures Inv(Run(s, schedule)) && DeliveryOk(Run(s, schedule))
    ensures s.entered <= Run(s, schedule).entered && s.read <= Run(s, schedule).read
    ensures Run(s, schedule).capacity == s.capacity
    decreases |schedule|
  {
    if schedule == [] {
    } else {
      var front, last := schedule[..|schedule| - 1], schedule[|schedule| - 1];
      RunKeepsAll(s, front);
      StepKeepsDelivery(Run(s, front), last.thread, last.choice);
      StepCarries(Run(s, front), last.thread, last.choice);
    }
  }

  /** A new ring is an empty queue of the capacity that was asked for, and all threads are at rest. */
  lemma InitialView<T>(capacity: int, threads: nat)
    requires capacity >= 1
    ensures var s := Initial<T>(capacity, threads);
            Inv(s) && View(s) == Fifo(capacity, [], seq(threads, t => Quiet(NoCall)))
  {
    InitialInv<T>(capacity, threads);
  }

  /** Every run of the ring is a run of the queue: it starts empty, with the capacity that was asked for, and each
      turn is one step of the thread whose turn it is, or none while its call is in progress. */
  lemma EveryRunRefines<T>(capacity: int, threads: nat, schedule: seq<Turn<T>>, i: nat)
    requires capacity >= 1 && Schedules(threads, schedule) && i < |schedule|
    ensures var start, before, after :=
              Initial<T>(capacity, threads), Run(Initial(capacity, threads), schedule[..i]),
              Run(Initial(capacity, threads), schedule[..i + 1]);
            && Inv(start) && View(start) == Fifo(capacity, [], seq(threads, t => Quiet(NoCall)))
            && Inv(before) && Inv(after)
            && FifoNext(View(before), View(after), schedule[i].thread, schedule[i].choice)
  {
    InitialView<T>(capacity, threads);
    RunKeepsAll(Initial<T>(capacity, threads), schedule[..i]);
    assert schedule[..i + 1][..i] == schedule[..i];
    StepRefinesFifo(Run(Initial(capacity, threads), schedule[..i]), schedule[i].thread, schedule[i].choice);
  }

  /** The items moved out so far, in order of read position; `absent` stands for those still carried. */
  ghost function Delivered<T>(s: State<T>, n: nat, absent: T): (items: seq<T>)
    ensures |items| == n
  {
    seq(n, k requires 0 <= k < n => if k in s.delivered then s.delivered[k] else absent)
  }

  lemma DeliveredIsPrefix<T>(s: State<T>, absent: T)
    requires CursorsOk(s) && DeliveryOk(s) && forall t, k :: !Carries(s, t, k)
    ensures Delivered(s, s.read, absent) + Queue(s) == s.entered
  {
    forall k | 0 <= k < s.read ensures Delivered(s, s.read, absent)[k] == s.entered[k] {
      assert k in s.delivered;
    }
  }

  /** In every run: the ring never holds more than its capacity; an item popped or displaced at read position
      `k` is the item that entered at write position `k`; and once no thread is between reserving an item and
      moving it out, the items that left followed by the items still inside are exactly those that entered. */
  lemma EveryRunIsFifo<T>(capacity: int, threads: nat, schedule: seq<Turn<T>>, absent: T)
    requires capacity >= 1 && Schedules(threads, schedule)
    ensures var s := Run(Initial(capacity, threads), schedule);
            && Inv(s) && DeliveryOk(s) && |Queue(s)| <= capacity == s.capacity
            && (forall k :: k in s.delivered ==> 0 <= k < s.read && s.delivered[k] == s.entered[k])
            && ((forall t, k :: !Carries(s, t, k)) ==> Delivered(s, s.read, absent) + Queue(s) == s.entered)
  {
    var start := Initial<T>(capacity, threads);
    InitialInv<T>(capacity, threads);
    RunKeepsAll(start, schedule);
    var s := Run(start, schedule);
    if forall t, k :: !Carries(s, t, k) {
      DeliveredIsPrefix(s, absent);
    }
  }

  // ----- exclusive access -----

  /** The slot whose cell a thread reads or writes in its next step. */
  function Accesses<T>(pc: Pc<T>): Option<int> {
    match pc
    case PushWrite(_, pos) => Some(pos)
    case PushReplace(_, pos) => Some(pos)
    case PopRead(pos) => Some(pos)
    case _ => None
  }

  /** No cell is accessed by two threads, and a cell is read exactly when initialised, written exactly when not. */
  lemma CellsAreExclusive<T>(s: State<T>, t: nat, u: nat)
    requires Inv(s) && t < |s.threads| && u < |s.threads| && Accesses(s.threads[t]).Some?
    ensures SlotOf(s, Accesses(s.threads[t]).value).cell.Uninit? <==> s.threads[t].PushWrite?
    ensures t != u && Accesses(s.threads[u]).Some?
            ==> Index(s, Accesses(s.threads[t]).value) != Index(s, Accesses(s.threads[u]).value)
  {
    assert ThreadOk(s, t) && ThreadOk(s, u);
  }

  /** The plain store of `write` in an overwrite is safe: until it happens no other thread can move `write`,
      and no thread can claim the reserved slot. */
  lemma PlainStoreIsSafe<T>(s: State<T>, t: nat, u: nat, c: Choice<T>)
    requires Inv(s) && t < |s.threads| && u < |s.threads| && u != t && s.threads[t].PushAdvance?
    ensures s.threads[t].pos == s.write
    ensures var r := Step(s, u, c); r.write == s.write && SlotOf(r, s.write) == SlotOf(s, s.write)
  {
    StepKeepsInv(s, u, c);
    assert ThreadOk(s, t) && ThreadOk(Step(s, u, c), t);
  }
}
