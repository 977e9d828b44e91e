/** Whole runs of the word ring, and the exclusive owner that drains it when it is dropped. */
module RingOwner {
  import opened Options
  import opened RingPositions
  import opened RingMachine
  import opened RingInvariant
  import opened RingFifo
  import opened RingRuns
  import opened RingSolo
  import opened RingClass

  /** Any interleaving of the word operations is the same interleaving of the ordinal machine. */
  method Execute<T>(ring: Ring<T>, schedule: seq<Turn<T>>)
    requires ring.Valid() && Schedules(|ring.pcs|, schedule)
    requires forall i :: 0 <= i < |schedule| ==> Recent(Run(ring.model, schedule[..i]), schedule[i].thread)
    modifies ring, ring.slots
    ensures ring.Valid() && ring.model == Run(old(ring.model), schedule)
  {
    for i := 0 to |schedule|
      invariant ring.Valid() && |ring.pcs| == |old(ring.model).threads|
      invariant ring.model == Run(old(ring.model), schedule[..i])
    {
      assert schedule[..i + 1][..i] == schedule[..i];
      ring.Turn(schedule[i].thread, schedule[i].choice);
    }
    assert schedule[..|schedule|] == schedule;
  }

  ghost predicate InPop<T>(pc: Pc<T>) {
    pc.PopLoad? || pc.PopStamp? || pc.PopClaim? || pc.PopRead? || pc.PopFree? || pc.PopCheckWrite? || pc.Idle?
  }

  /** The thread is in a call of pop, with a position from the last lap. */
  ghost predicate PopsRecently<T>(s: State<T>, t: nat) {
    && t < |s.threads| && InPop(s.threads[t])
    && (Loaded(s.threads[t]).Some? ==> s.write - Loaded(s.threads[t]).value <= s.capacity)
  }

  lemma LonePopGoesOn<T>(s: State<T>, t: nat)
    requires Inv(s) && PopsRecently(s, t)
    ensures var r := Step(s, t, Advance); Inv(r) && PopsRecently(r, t) && r.capacity == s.capacity
  {
    StepKeepsInv(s, t, Advance);
  }

  /** A lone pop never holds a position from before the last lap. */
  lemma {:induction false} LonePopIsRecent<T>(s: State<T>, t: nat, steps: nat)
    requires Inv(s) && ValidCapacity(s.capacity) && PopsRecently(s, t)
    ensures Recent(Alone(s, t, steps), t)
    decreases steps
  {
    if steps == 0 {
      WindowSize(s.capacity);
    } else {
      LonePopGoesOn(s, t);
      LonePopIsRecent(Step(s, t, Advance), t, steps - 1);
    }
  }

  /** Lets `t` run alone for some steps. */
  method Proceed<T>(ring: Ring<T>, t: nat, steps: nat)
    requires ring.Valid() && t < |ring.pcs|
    requires forall i :: 0 <= i < steps ==> Recent(Alone(ring.model, t, i), t)
    modifies ring, ring.slots
    ensures ring.Valid() && ring.model == Alone(old(ring.model), t, steps)
  {
    for i := 0 to steps
      invariant ring.Valid() && t < |ring.pcs| && ring.model == Alone(old(ring.model), t, i)
    {
      Then(old(ring.model), t, i, 1);
      Two(ring.model, t);
      ring.Turn(t, Advance);
    }
  }

  /** The ring is in order, nobody is between reserving a slot and releasing it, and `t` is at rest. */
  ghost predicate Resting<T>(ring: Ring<T>, t: nat)
    reads ring, ring.slots
  {
    ring.Valid() && Undisturbed(ring.model) && t < |ring.pcs| && ring.pcs[t].Idle?
  }

  /** The items inside, oldest first. */
  ghost function Inside<T>(ring: Ring<T>, t: nat): seq<T>
    requires Resting(ring, t)
    reads ring, ring.slots
  {
    Queue(ring.model)
  }

  /** What a call of pop gave out. */
  function Taken<T>(item: Option<T>): seq<T> {
    if item.Some? then [item.value] else []
  }

  method SeesEmpty<T>(ring: Ring<T>) returns (empty: bool)
    requires ring.Valid()
    ensures empty <==> Queue(ring.model) == []
  {
    WindowSize(ring.capacity);
    empty := ring.StillAt(ring.read, ring.write, ring.model.read, ring.model.write);
  }

  method PopExclusively<T>(ring: Ring<T>, t: nat) returns (item: Option<T>)
    requires Resting(ring, t)
    modifies ring, ring.slots
    ensures Resting(ring, t)
    ensures old(Inside(ring, t)) == Taken(item) + Inside(ring, t)
    ensures item.None? ==> old(Inside(ring, t)) == []
  {
    StillUndisturbedInPop(ring.model, t);
    ring.Begin(t, BeginPop);
    item := RunPop(ring, t);
  }

  lemma StillUndisturbedInPop<T>(s: State<T>, t: nat)
    requires Undisturbed(s) && t < |s.threads| && s.threads[t].Idle?
    ensures Undisturbed(Step(s, t, BeginPop)) && Queue(Step(s, t, BeginPop)) == Queue(s)
  {
    CallBegins(s, t, BeginPop, PopLoad);
  }

  /** The call from its first load on. */
  method RunPop<T>(ring: Ring<T>, t: nat) returns (item: Option<T>)
    requires ring.Valid() && Undisturbed(ring.model) && t < |ring.pcs| && ring.pcs[t] == PopLoad
    modifies ring, ring.slots
    ensures Resting(ring, t)
    ensures old(Queue(ring.model)) == Taken(item) + Queue(ring.model)
    ensures item.None? ==> old(Queue(ring.model)) == []
  {
    ghost var queue := Queue(ring.model);
    assert queue != [] ==> queue == [queue[0]] + queue[1..];
    PopRuns(ring.model, t);
    forall i: nat ensures Recent(Alone(ring.model, t, i), t) { LonePopIsRecent(ring.model, t, i); }
    var empty := SeesEmpty(ring);
    Proceed(ring, t, if empty then 3 else 5);
    item := if ring.pcs[t].last.Popped? then Some(ring.pcs[t].last.item) else None;
  }

  lemma Regroup<T>(released: seq<T>, item: T, next: seq<T>, rest: seq<T>)
    ensures released + [item] + (next + rest) == released + [item] + next + rest
  {
  }

  /** What has been released, the item at hand and what is inside are all there was; at the end nothing is inside. */
  ghost predicate Accounted<T>(all: seq<T>, released: seq<T>, item: Option<T>, inside: seq<T>) {
    all == released + Taken(item) + inside && (item.None? ==> inside == [])
  }

  lemma AccountedStep<T>(all: seq<T>, released: seq<T>, item: T, inside: seq<T>, next: Option<T>, rest: seq<T>)
    requires Accounted(all, released, Some(item), inside)
    requires inside == Taken(next) + rest && (next.None? ==> inside == [])
    ensures Accounted(all, released + [item], next, rest)
  {
    Regroup(released, item, Taken(next), rest);
  }

  /** Releases the item at hand and pops the next one. */
  method ReleaseOne<T>(ring: Ring<T>, t: nat, ghost all: seq<T>, released: seq<T>, item: T)
    returns (more: seq<T>, next: Option<T>)
    requires Resting(ring, t) && Accounted(all, released, Some(item), Inside(ring, t))
    modifies ring, ring.slots
    ensures Resting(ring, t) && Accounted(all, more, next, Inside(ring, t))
    ensures |more| == |released| + 1
  {
    ghost var inside := Inside(ring, t);
    next := PopExclusively(ring, t);
    AccountedStep(all, released, item, inside, next, Inside(ring, t));
    more := released + [item];
  }

  lemma AccountedStart<T>(all: seq<T>, item: Option<T>, inside: seq<T>)
    requires all == Taken(item) + inside && (item.None? ==> all == [])
    ensures Accounted(all, [], item, inside)
  {
    assert [] + Taken(item) + inside == Taken(item) + inside;
  }

  /** As long as there is an item at hand, not all have been released; then all have. */
  lemma AccountedEnd<T>(all: seq<T>, released: seq<T>, item: Option<T>, inside: seq<T>)
    requires Accounted(all, released, item, inside)
    ensures item.Some? ==> |released| < |all|
    ensures item.None? ==> released == all && inside == []
  {
  }

  /** Dropping the ring releases exactly the items still inside, oldest first. */
  method Drop<T>(ring: Ring<T>, t: nat) returns (released: seq<T>)
    requires Resting(ring, t)
    modifies ring, ring.slots
    ensures Resting(ring, t) && released == old(Inside(ring, t)) && Inside(ring, t) == []
  {
    ghost var all := Inside(ring, t);
    released := [];
    var item := PopExclusively(ring, t);
    ghost var inside := Inside(ring, t);
    AccountedStart(all, item, inside);
    AccountedEnd(all, released, item, inside);
    while item.Some?
      invariant Resting(ring, t) && inside == Inside(ring, t) && Accounted(all, released, item, inside)
      invariant item.Some? ==> |released| < |all|
      invariant item.None? ==> released == all && inside == []
      decreases |all| - |released|
    {
      released, item := ReleaseOne(ring, t, all, released, item.value);
      inside := Inside(ring, t);
      AccountedEnd(all, released, item, inside);
    }
  }
}
