/** What each call on the async mutex answers, and whom it wakes. */
module MutexCalls {
  import opened FutureMutex
  import opened Options
  import opened Waiters

  /** The first waiter is about to be woken by this thread, or there is none and the thread is done. */
  predicate WakesFirst(s: State, r: State, t: nat)
    requires t < |s.pcs|
  {
    r.pcs == if r.core.waiters == [] then s.pcs else s.pcs[t := Waking(r.core.waiters[0])]
  }

  /** Nobody holds or awaits the lock of a new mutex. */
  lemma Starts(threads: nat)
    ensures var s := Initial(threads);
            && Inv(s) && !s.core.locked && s.guards == 0 && s.futures == []
            && forall t :: 0 <= t < threads ==> s.pcs[t].Idle?
  {
  }

  /** `try_lock` gets the guard just when nobody has it, and joins no queue. */
  lemma TryLockAnswers(s: State, t: nat)
    requires Inv(s) && Allowed(s, t, TryLock)
    ensures var r := Step(s, t, TryLock);
            && r.guards == 1 && r.core.locked && r == s.(core := s.core.(locked := true), guards := 1)
            && (r.guards > s.guards <==> !s.core.locked)
  {
  }

  /** The drop of the guard frees the lock and wakes the first waiter. */
  lemma UnlockAnswers(s: State, t: nat)
    requires Inv(s) && Allowed(s, t, DropGuard)
    ensures var r := Step(s, t, DropGuard);
            && !r.core.locked && WakesFirst(s, r, t)
            && r == s.(core := s.core.(locked := false), guards := 0, pcs := r.pcs)
  {
  }

  /** A poll gets the guard just when nobody has it, and gives up its registration; otherwise the future is registered
  with the waker of this poll, as the only change. */
  lemma PollAnswers(s: State, t: nat, f: nat, waker: nat)
    requires Inv(s) && Allowed(s, t, Poll(f, waker))
    ensures var r := Step(s, t, Poll(f, waker));
            && r == s.(core := r.core, futures := s.futures[f := r.futures[f]], guards := 1) && r.core.locked
            && r.futures[f].live && r.futures[f].waker == waker && !r.futures[f].woken
            && (r.guards > s.guards <==> !s.core.locked) && (r.futures[f].pending <==> s.core.locked)
            && (forall w :: w in r.core.waiters <==>
                  Owner(r.futures[f], w) || (w in s.core.waiters && s.futures[f].waiter != Some(w.id)))
  {
    var r := Step(s, t, Poll(f, waker));
    if s.core.locked {
      PutMembers(s.core.waiters, Waiter(r.futures[f].waiter.value, waker));
      assert s.futures[f].waiter.None? ==> forall w :: w in s.core.waiters ==> w.id != r.futures[f].waiter.value;
    } else if s.futures[f].waiter.Some? {
      DeleteMembers(s.core.waiters, s.futures[f].waiter.value);
    }
  }

  /** A new future has not been polled. A dropped one leaves the queue, and if it was in it while nobody has the lock,
  hands the wake on to the first of those left. */
  lemma FuturesChange(s: State, t: nat, f: nat)
    requires Inv(s) && t < |s.pcs| && s.pcs[t].Idle?
    ensures var r := Step(s, t, NewFuture); r == s.(futures := s.futures + [Future(true, None, false, 0, false)])
    ensures Allowed(s, t, DropFuture(f)) ==> (
              var r := Step(s, t, DropFuture(f));
              && r == s.(core := s.core.(waiters := r.core.waiters), futures := s.futures[f := r.futures[f]],
                         pcs := r.pcs)
              && !r.futures[f].live
              && (if s.futures[f].waiter.Some? && !s.core.locked then WakesFirst(s, r, t) else r.pcs == s.pcs)
              && forall w :: w in r.core.waiters <==> w in s.core.waiters && s.futures[f].waiter != Some(w.id))
  {
    if Allowed(s, t, DropFuture(f)) && s.futures[f].waiter.Some? {
      DeleteMembers(s.core.waiters, s.futures[f].waiter.value);
    }
  }

  /** A thread that wakes marks just the owner of the registration, and is done. */
  lemma WakesOne(s: State, t: nat, c: Choice)
    requires Inv(s) && Allowed(s, t, c) && s.pcs[t].Waking?
    ensures var r := Step(s, t, c);
            && r == s.(futures := r.futures, pcs := s.pcs[t := Idle]) && |r.futures| == |s.futures|
            && forall i :: 0 <= i < |s.futures| ==>
                 && r.futures[i] == s.futures[i].(woken := r.futures[i].woken)
                 && (r.futures[i].woken <==> s.futures[i].woken || Registers(s.futures[i], s.pcs[t].w))
  {
  }

  predicate Registers(f: Future, w: Waiter) {
    f.waiter.Some? && Registration(f) == w
  }

  /** A run goes on with the step of its last turn. */
  lemma {:induction false} RunOn(s: State, turns: seq<Turn>, last: Turn)
    requires RunAllowed(s, turns) && Allowed(Run(s, turns), last.thread, last.choice)
    ensures RunAllowed(s, turns + [last])
    ensures Run(s, turns + [last]) == Step(Run(s, turns), last.thread, last.choice)
    decreases |turns|
  {
    if turns == [] {
      assert turns + [last] == [last] && [last][1..] == [];
    } else {
      assert (turns + [last])[1..] == turns[1..] + [last];
      RunOn(Step(s, turns[0].thread, turns[0].choice), turns[1..], last);
    }
  }
}
