/** The async mutex: a flag and an ordered map of waiters behind a plain mutex.

Each critical section is one step; waking a task, which happens outside of it, is another.
*/
module FutureMutex {
  import opened Options
  import opened Waiters

  // ----- the critical sections -----

  /** `waiters` lists the map in the order of its keys, which is the order of the first polls. */
  datatype Core = Core(locked: bool, nextWaiter: nat, waiters: seq<Waiter>)

  function Put(waiters: seq<Waiter>, w: Waiter): seq<Waiter> {
    if waiters == [] || w.id < waiters[0].id then [w] + waiters
    else if w.id == waiters[0].id then [w] + waiters[1..]
    else [waiters[0]] + Put(waiters[1..], w)
  }

  function Delete(waiters: seq<Waiter>, id: nat): seq<Waiter> {
    if waiters == [] then []
    else if waiters[0].id == id then waiters[1..]
    else [waiters[0]] + Delete(waiters[1..], id)
  }

  function First(core: Core): Option<Waiter> {
    if core.waiters == [] then None else Some(core.waiters[0])
  }

  function Unregister(core: Core, waiter: Option<nat>): Core {
    match waiter
    case None => core
    case Some(id) => core.(waiters := Delete(core.waiters, id))
  }

  /** Takes the lock if it is free, and waits in the old place, or in a new one at the end, if not. */
  function PollLock(core: Core, waiter: Option<nat>, waker: nat): (Core, Option<nat>) {
    if !core.locked then (Unregister(core, waiter).(locked := true), None)
    else
      var id := match waiter case Some(i) => i case None => core.nextWaiter + 1;
      (Core(true, if waiter.None? then id else core.nextWaiter, Put(core.waiters, Waiter(id, waker))), Some(id))
  }

  // ----- the machine -----

  datatype Pc = Idle | Waking(w: Waiter)

  datatype State = State(core: Core, futures: seq<Future>, guards: nat, pcs: seq<Pc>)

  datatype Choice =
    | TryLock
    | DropGuard
    | NewFuture
    | Poll(future: nat, waker: nat)
    | DropFuture(future: nat)
    | Advance

  function Initial(threads: nat): State {
    State(Core(false, 0, []), [], 0, seq(threads, _ => Idle))
  }

  predicate Allowed(s: State, t: nat, c: Choice) {
    && t < |s.pcs|
    && match c
       case Advance => s.pcs[t].Waking?
       case DropGuard => s.pcs[t].Idle? && s.guards > 0
       case Poll(f, _) => s.pcs[t].Idle? && f < |s.futures| && s.futures[f].live
       case DropFuture(f) => s.pcs[t].Idle? && f < |s.futures| && s.futures[f].live
       case _ => s.pcs[t].Idle?
  }

  /** Leaves the critical section to wake the first waiter, if there is one. */
  function WakeFirst(s: State, t: nat): State
    requires t < |s.pcs|
  {
    match First(s.core)
    case None => s
    case Some(w) => s.(pcs := s.pcs[t := Waking(w)])
  }

  function StepPoll(s: State, f: nat, waker: nat): State
    requires f < |s.futures|
  {
    var (core, waiter) := PollLock(s.core, s.futures[f].waiter, waker);
    s.(core := core, futures := s.futures[f := Future(true, waiter, waiter.Some?, waker, false)],
       guards := if waiter.None? then s.guards + 1 else s.guards)
  }

  function StepDrop(s: State, t: nat, f: nat): State
    requires t < |s.pcs| && f < |s.futures|
  {
    var r := s.(core := Unregister(s.core, s.futures[f].waiter),
                futures := s.futures[f := s.futures[f].(live := false)]);
    if s.futures[f].waiter.Some? && !s.core.locked then WakeFirst(r, t) else r
  }

  function Step(s: State, t: nat, c: Choice): State
    requires Allowed(s, t, c)
  {
    match c
    case TryLock => s.(core := s.core.(locked := true), guards := if s.core.locked then s.guards else s.guards + 1)
    case DropGuard => WakeFirst(s.(core := s.core.(locked := false), guards := s.guards - 1), t)
    case NewFuture => s.(futures := s.futures + [Future(true, None, false, 0, false)])
    case Poll(f, waker) => StepPoll(s, f, waker)
    case DropFuture(f) => StepDrop(s, t, f)
    case Advance => s.(futures := MarkWoken(s.futures, s.pcs[t].w), pcs := s.pcs[t := Idle])
  }

  // ----- the ordered map -----

  predicate Sorted(waiters: seq<Waiter>) {
    forall i, j :: 0 <= i < j < |waiters| ==> waiters[i].id < waiters[j].id
  }

  lemma SortedCons(first: Waiter, rest: seq<Waiter>)
    requires Sorted(rest) && forall v :: v in rest ==> first.id < v.id
    ensures Sorted([first] + rest)
  {
    var all := [first] + rest;
    forall i, j | 0 <= i < j < |all| ensures all[i].id < all[j].id {
      assert all[j] == rest[j - 1];
      if i > 0 {
        assert all[i] == rest[i - 1];
      } else {
        assert rest[j - 1] in rest;
      }
    }
  }

  lemma {:induction false} PutMembers(waiters: seq<Waiter>, w: Waiter)
    requires Sorted(waiters)
    ensures Sorted(Put(waiters, w))
    ensures forall v :: v in Put(waiters, w) <==> v == w || (v in waiters && v.id != w.id)
  {
    if waiters == [] {
    } else {
      var first, rest := waiters[0], waiters[1..];
      assert waiters == [first] + rest;
      assert forall v :: v in rest ==> first.id < v.id;
      if w.id < first.id {
        SortedCons(w, waiters);
      } else if w.id == first.id {
        SortedCons(w, rest);
      } else {
        PutMembers(rest, w);
        SortedCons(first, Put(rest, w));
      }
    }
  }

  lemma {:induction false} DeleteMembers(waiters: seq<Waiter>, id: nat)
    requires Sorted(waiters)
    ensures Sorted(Delete(waiters, id))
    ensures forall v :: v in Delete(waiters, id) <==> v in waiters && v.id != id
  {
    if waiters == [] {
    } else {
      assert waiters == [waiters[0]] + waiters[1..];
      if waiters[0].id != id {
        DeleteMembers(waiters[1..], id);
        var rest := Delete(waiters[1..], id);
        assert forall i :: 0 <= i < |rest| ==> rest[i] in rest;
      }
    }
  }

  // ----- the invariant -----

  predicate Flying(pcs: seq<Pc>, w: Waiter) {
    exists t :: 0 <= t < |pcs| && pcs[t] == Waking(w)
  }

  /** The owner of a registration has been woken, or is about to be. */
  predicate Told(s: State, w: Waiter) {
    Flying(s.pcs, w) || exists f :: 0 <= f < |s.futures| && Owner(s.futures[f], w) && s.futures[f].woken
  }

  /** Registered are just the pending futures, each with its current waker; a new id is larger than all of them. */
  predicate WaitersOk(s: State) {
    && Sorted(s.core.waiters)
    && (forall w :: w in s.core.waiters ==> Owned(s.futures, w) && w.id <= s.core.nextWaiter)
    && (forall f :: 0 <= f < |s.futures| && s.futures[f].live && s.futures[f].pending ==>
          s.futures[f].waiter.Some? && Waiter(s.futures[f].waiter.value, s.futures[f].waker) in s.core.waiters)
    && (forall f :: 0 <= f < |s.futures| && !s.futures[f].pending ==> s.futures[f].waiter == None)
    && (forall f, g :: 0 <= f < g < |s.futures| && s.futures[f].live && s.futures[g].live && s.futures[f].waiter.Some? ==>
          s.futures[f].waiter != s.futures[g].waiter)
  }

  /** One guard if it is locked; and if not, the waiter that was there first knows. */
  predicate Inv(s: State) {
    && s.guards == (if s.core.locked then 1 else 0)
    && WaitersOk(s)
    && (!s.core.locked && s.core.waiters != [] ==> Told(s, s.core.waiters[0]))
  }

  lemma InitialInv(threads: nat)
    ensures Inv(Initial(threads))
  {
  }

  lemma IdOwner(s: State, f: nat, w: Waiter)
    requires WaitersOk(s) && f < |s.futures| && s.futures[f].live && w in s.core.waiters
    ensures s.futures[f].waiter == Some(w.id) <==> Owner(s.futures[f], w)
  {
    var g :| 0 <= g < |s.futures| && Owner(s.futures[g], w);
  }

  /** Only this future and its registration change. */
  ghost predicate OneChanged(s: State, r: State, f: nat) {
    && f < |s.futures| == |r.futures|
    && (forall g :: 0 <= g < |s.futures| && g != f ==> r.futures[g] == s.futures[g])
    && (forall w :: w in r.core.waiters <==> Owner(r.futures[f], w) || (w in s.core.waiters && !Owner(s.futures[f], w)))
    && r.core.nextWaiter >= s.core.nextWaiter
    && (r.futures[f].live && r.futures[f].pending ==>
          r.futures[f].waiter.Some? && r.futures[f].waiter.value <= r.core.nextWaiter)
    && (!r.futures[f].pending ==> r.futures[f].waiter == None)
  }

  lemma OneKeepsWaiters(s: State, r: State, f: nat)
    requires WaitersOk(s) && OneChanged(s, r, f) && Sorted(r.core.waiters)
    requires r.futures[f].live && r.futures[f].waiter.Some? ==>
      forall g :: 0 <= g < |r.futures| && g != f && r.futures[g].live ==> r.futures[g].waiter != r.futures[f].waiter
    ensures WaitersOk(r)
  {
    forall w | w in r.core.waiters ensures Owned(r.futures, w) && w.id <= r.core.nextWaiter {
      if !Owner(r.futures[f], w) {
        var g :| 0 <= g < |s.futures| && Owner(s.futures[g], w);
        assert Owner(r.futures[g], w);
      }
    }
    forall g | 0 <= g < |r.futures| && r.futures[g].live && r.futures[g].pending
      ensures Waiter(r.futures[g].waiter.value, r.futures[g].waker) in r.core.waiters
    {
      var w := Waiter(r.futures[g].waiter.value, r.futures[g].waker);
      if g == f {
        assert Owner(r.futures[f], w);
      } else {
        assert w in s.core.waiters && !Owner(s.futures[f], w);
      }
    }
  }

  lemma PollKeepsWaiters(s: State, f: nat, waker: nat)
    requires WaitersOk(s) && f < |s.futures| && s.futures[f].live
    ensures WaitersOk(StepPoll(s, f, waker))
  {
    var r := StepPoll(s, f, waker);
    forall w | w in s.core.waiters ensures s.futures[f].waiter == Some(w.id) <==> Owner(s.futures[f], w) {
      IdOwner(s, f, w);
    }
    if s.core.locked {
      var id := r.futures[f].waiter.value;
      PutMembers(s.core.waiters, Waiter(id, waker));
      if s.futures[f].waiter.None? {
        forall g | 0 <= g < |s.futures| && s.futures[g].live && s.futures[g].pending
          ensures s.futures[g].waiter.value <= s.core.nextWaiter
        {
          assert Waiter(s.futures[g].waiter.value, s.futures[g].waker) in s.core.waiters;
        }
      } else {
        assert Waiter(id, s.futures[f].waker) in s.core.waiters;
      }
    } else if s.futures[f].waiter.Some? {
      DeleteMembers(s.core.waiters, s.futures[f].waiter.value);
    }
    OneKeepsWaiters(s, r, f);
  }

  lemma DropKeepsWaiters(s: State, t: nat, f: nat)
    requires WaitersOk(s) && t < |s.pcs| && f < |s.futures| && s.futures[f].live
    ensures WaitersOk(StepDrop(s, t, f))
  {
    var r := StepDrop(s, t, f);
    forall w | w in s.core.waiters ensures s.futures[f].waiter == Some(w.id) <==> Owner(s.futures[f], w) {
      IdOwner(s, f, w);
    }
    if s.futures[f].waiter.Some? {
      DeleteMembers(s.core.waiters, s.futures[f].waiter.value);
    }
    OneKeepsWaiters(s, r, f);
  }

  lemma NewKeepsWaiters(s: State, r: State)
    requires WaitersOk(s) && r == s.(futures := s.futures + [Future(true, None, false, 0, false)])
    ensures WaitersOk(r)
  {
    forall w | w in r.core.waiters ensures Owned(r.futures, w) {
      var g :| 0 <= g < |s.futures| && Owner(s.futures[g], w);
      assert Owner(r.futures[g], w);
    }
  }

  lemma WakeKeepsWaiters(s: State, r: State, w: Waiter)
    requires WaitersOk(s) && r.core == s.core && r.futures == MarkWoken(s.futures, w)
    ensures WaitersOk(r)
  {
    forall v | v in r.core.waiters ensures Owned(r.futures, v) {
      var g :| 0 <= g < |s.futures| && Owner(s.futures[g], v);
      assert Owner(r.futures[g], v);
    }
  }

  lemma StepKeepsWaiters(s: State, t: nat, c: Choice)
    requires Inv(s) && Allowed(s, t, c)
    ensures WaitersOk(Step(s, t, c))
  {
    match c
    case NewFuture => NewKeepsWaiters(s, Step(s, t, c));
    case Poll(f, waker) => PollKeepsWaiters(s, f, waker);
    case DropFuture(f) => DropKeepsWaiters(s, t, f);
    case Advance => WakeKeepsWaiters(s, Step(s, t, c), s.pcs[t].w);
    case _ =>
  }

  /** A registration that is about to be woken stays so until it is. */
  lemma WakeKeepsTold(s: State, t: nat, v: Waiter)
    requires WaitersOk(s) && t < |s.pcs| && s.pcs[t].Waking? && v in s.core.waiters && Told(s, v)
    ensures Told(Step(s, t, Advance), v)
  {
    var r, w := Step(s, t, Advance), s.pcs[t].w;
    var g :| 0 <= g < |s.futures| && Owner(s.futures[g], v);
    if Flying(s.pcs, v) {
      if v == w {
        assert Owner(r.futures[g], v) && r.futures[g].woken;
      } else {
        var u :| 0 <= u < |s.pcs| && s.pcs[u] == Waking(v);
        assert r.pcs[u] == Waking(v);
      }
    } else {
      var f :| 0 <= f < |s.futures| && Owner(s.futures[f], v) && s.futures[f].woken;
      assert Owner(r.futures[f], v) && r.futures[f].woken;
    }
  }

  lemma WakeFirstTells(s: State, t: nat)
    requires t < |s.pcs|
    ensures var r := WakeFirst(s, t);
            r.core == s.core && r.futures == s.futures && r.guards == s.guards
            && (s.core.waiters != [] ==> Told(r, s.core.waiters[0]))
  {
    if s.core.waiters != [] {
      assert WakeFirst(s, t).pcs[t] == Waking(s.core.waiters[0]);
    }
  }

  lemma NewKeepsTold(s: State, v: Waiter)
    requires Told(s, v)
    ensures Told(s.(futures := s.futures + [Future(true, None, false, 0, false)]), v)
  {
    if !Flying(s.pcs, v) {
      var f :| 0 <= f < |s.futures| && Owner(s.futures[f], v) && s.futures[f].woken;
      assert (s.futures + [Future(true, None, false, 0, false)])[f] == s.futures[f];
    }
  }

  lemma DropKeepsTold(s: State, t: nat, f: nat)
    requires Inv(s) && t < |s.pcs| && f < |s.futures| && s.futures[f].live
    ensures var r := StepDrop(s, t, f);
            !r.core.locked && r.core.waiters != [] ==> Told(r, r.core.waiters[0])
  {
    var left := s.(core := Unregister(s.core, s.futures[f].waiter),
                   futures := s.futures[f := s.futures[f].(live := false)]);
    WakeFirstTells(left, t);
    if s.futures[f].waiter.None? && !s.core.locked && s.core.waiters != [] && !Flying(s.pcs, s.core.waiters[0]) {
      var g :| 0 <= g < |s.futures| && Owner(s.futures[g], s.core.waiters[0]) && s.futures[g].woken;
      assert left.futures[g] == s.futures[g];
    }
  }

  lemma StepKeepsInv(s: State, t: nat, c: Choice)
    requires Inv(s) && Allowed(s, t, c)
    ensures Inv(Step(s, t, c))
  {
    StepKeepsWaiters(s, t, c);
    match c
    case DropGuard => WakeFirstTells(s.(core := s.core.(locked := false), guards := s.guards - 1), t);
    case NewFuture =>
      if !s.core.locked && s.core.waiters != [] {
        NewKeepsTold(s, s.core.waiters[0]);
      }
    case DropFuture(f) =>
      DropKeepsTold(s, t, f);
      WakeFirstTells(s.(core := Unregister(s.core, s.futures[f].waiter),
                        futures := s.futures[f := s.futures[f].(live := false)]), t);
    case Advance =>
      if !s.core.locked && s.core.waiters != [] {
        WakeKeepsTold(s, t, s.core.waiters[0]);
      }
    case _ =>
  }

  // ----- what this means -----

  /** The lock is given out to one at a time: by `try_lock` or by a poll, just when it is free. */
  lemma LockIsExclusive(s: State, t: nat, c: Choice)
    requires Inv(s) && Allowed(s, t, c)
    ensures Step(s, t, c).guards <= 1
    ensures (c.TryLock? || c.Poll?) ==> (Step(s, t, c).guards == s.guards + 1 <==> !s.core.locked)
  {
    StepKeepsInv(s, t, c);
  }

  /** When the mutex is free, no wake is under way, and someone waits, the first of them has been woken. */
  lemma FirstWaiterIsWoken(s: State)
    requires Inv(s) && !s.core.locked && s.core.waiters != []
    requires forall t :: 0 <= t < |s.pcs| ==> s.pcs[t].Idle?
    ensures exists f :: 0 <= f < |s.futures| && Owner(s.futures[f], s.core.waiters[0]) && s.futures[f].woken
    ensures forall w :: w in s.core.waiters ==> s.core.waiters[0].id <= w.id
  {
    assert Told(s, s.core.waiters[0]);
  }

  /** A future keeps its place in the order of first polls for as long as it waits. */
  lemma PlacesAreKept(s: State, f: nat, waker: nat)
    requires Inv(s) && f < |s.futures| && s.futures[f].live && s.core.locked
    ensures var r := StepPoll(s, f, waker);
            && r.futures[f].waiter.Some?
            && (s.futures[f].waiter.Some? ==> r.futures[f].waiter == s.futures[f].waiter)
            && (s.futures[f].waiter.None? ==> forall w :: w in s.core.waiters ==> w.id < r.futures[f].waiter.value)
  {
  }

  // ----- runs -----

  datatype Turn = Turn(thread: nat, choice: Choice)

  predicate RunAllowed(s: State, turns: seq<Turn>)
    decreases |turns|
  {
    || turns == []
    || (Allowed(s, turns[0].thread, turns[0].choice)
        && RunAllowed(Step(s, turns[0].thread, turns[0].choice), turns[1..]))
  }

  function Run(s: State, turns: seq<Turn>): State
    requires RunAllowed(s, turns)
    decreases |turns|
  {
    if turns == [] then s else Run(Step(s, turns[0].thread, turns[0].choice), turns[1..])
  }

  lemma {:induction false} RunKeepsInv(s: State, turns: seq<Turn>)
    requires Inv(s) && RunAllowed(s, turns)
    ensures Inv(Run(s, turns))
    decreases |turns|
  {
    if turns == [] {
    } else {
      StepKeepsInv(s, turns[0].thread, turns[0].choice);
      RunKeepsInv(Step(s, turns[0].thread, turns[0].choice), turns[1..]);
    }
  }

  /** In every interleaving of any number of threads. */
  lemma EveryRun(threads: nat, turns: seq<Turn>)
    requires RunAllowed(Initial(threads), turns)
    ensures Inv(Run(Initial(threads), turns))
  {
    InitialInv(threads);
    RunKeepsInv(Initial(threads), turns);
  }

  // ----- in place -----

  /** The state behind the plain mutex. */
  class LockState {
    var locked: bool
    var nextWaiter: nat
    var waiters: seq<Waiter>

    ghost function Model(): Core
      reads this
    {
      Core(locked, nextWaiter, waiters)
    }

    constructor ()
      ensures Model() == Core(false, 0, [])
    {
      locked, nextWaiter, waiters := false, 0, [];
    }

    method TryLock() returns (guard: bool)
      modifies this
      ensures guard == !old(locked) && Model() == old(Model()).(locked := true)
    {
      guard := !locked;
      locked := true;
    }

    /** Returns the waiter to be woken. */
    method Unlock() returns (first: Option<Waiter>)
      modifies this
      ensures Model() == old(Model()).(locked := false) && first == First(old(Model()))
    {
      locked := false;
      first := if waiters == [] then None else Some(waiters[0]);
    }

    method Poll(waiter: Option<nat>, waker: nat) returns (guard: bool, kept: Option<nat>)
      modifies this
      ensures (Model(), kept) == PollLock(old(Model()), waiter, waker)
      ensures guard == kept.None? == !old(locked)
    {
      if !locked {
        locked := true;
        if waiter.Some? {
          waiters := Delete(waiters, waiter.value);
        }
        return true, None;
      }
      if waiter.None? {
        nextWaiter := nextWaiter + 1;
        kept := Some(nextWaiter);
      } else {
        kept := waiter;
      }
      waiters := Put(waiters, Waiter(kept.value, waker));
      guard := false;
    }

    method DropFuture(waiter: Option<nat>) returns (first: Option<Waiter>)
      modifies this
      ensures Model() == Unregister(old(Model()), waiter)
      ensures first == if waiter.Some? && !locked then First(Model()) else None
    {
      first := None;
      if waiter.Some? {
        waiters := Delete(waiters, waiter.value);
        if !locked {
          first := if waiters == [] then None else Some(waiters[0]);
        }
      }
    }
  }
}
