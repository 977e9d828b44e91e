/** What each call on the bounded stream does, in the terms of its callers: items, ends, handles and tasks. */
module StreamCalls {
  import opened Options
  import opened Waiters
  import opened Stream
  import opened StreamWaiters

  /** The call is made by a thread that may make it. */
  ghost predicate Called<T>(s: State<T>, t: nat, c: Choice<T>) {
    Inv(s) && Allowed(s, t, c) && s.pcs[t].Idle?
  }

  predicate Full<T>(core: Core<T>) {
    |core.buffer| == core.capacity
  }

  /** The oldest item is dropped just when the buffer is full; the new one enters, and the waiting tasks are to be
  woken. */
  lemma PushAnswers<T>(s: State<T>, t: nat, item: T)
    requires Called(s, t, PushLossy(item))
    ensures var r, oldest := Step(s, t, PushLossy(item)), if Full(s.core) then s.core.buffer[..1] else [];
            && s.core.buffer + [item] == oldest + r.core.buffer
            && r.entered == s.entered + [item] && r.left == s.left + Cleared(oldest)
            && r.pcs == s.pcs[t := Waking(s.core.waiters)] && r.core.waiters == []
            && r == s.(core := r.core, entered := r.entered, left := r.left, pcs := r.pcs)
  {
    if Full(s.core) {
      assert s.core.buffer == s.core.buffer[..1] + s.core.buffer[1..];
      assert Cleared(s.core.buffer[..1]) == [Departure(s.core.buffer[0], false)];
    }
  }

  /** A blocking push, at its call and whenever it looks again: it hands its item back if the consumer is gone, sleeps
  while the buffer is full, and otherwise appends. */
  lemma BlockingPushAnswers<T>(s: State<T>, t: nat, c: Choice<T>, item: T)
    requires Inv(s) && Allowed(s, t, c)
    requires s.pcs[t] == Woken(item) || (s.pcs[t].Idle? && c == PushOrBlock(item))
    ensures var r := Step(s, t, c);
            && r == s.(core := r.core, entered := r.entered, pcs := s.pcs[t := r.pcs[t]])
            && (r.pcs[t] == Idle(Some(item)) <==> s.core.gone)
            && (r.pcs[t] == Sleeping(item) <==> !s.core.gone && Full(s.core))
            && (r.pcs[t] == Waking(s.core.waiters) <==> !s.core.gone && !Full(s.core))
            && (!r.pcs[t].Waking? ==> r.core == s.core && r.entered == s.entered)
            && (r.pcs[t].Waking? ==> r.core == s.core.(buffer := s.core.buffer + [item], waiters := []))
            && (r.pcs[t].Waking? ==> r.entered == s.entered + [item])
  {
  }

  /** A poll takes the oldest item; if there is none it reports the end when no sender is left, and waits otherwise. */
  lemma PollAnswers<T>(s: State<T>, t: nat, f: nat, waker: nat)
    requires Called(s, t, Poll(f, waker))
    ensures var r := Step(s, t, Poll(f, waker));
            && r == s.(core := r.core, futures := s.futures[f := r.futures[f]], left := r.left, pcs := r.pcs,
                       ended := r.ended)
            && r.futures[f].live && r.futures[f].waker == waker && !r.futures[f].woken
            && (r.futures[f].pending <==> s.core.buffer == [] && s.handles != {})
            && (r.futures[f].pending ==> r.futures[f].waiter.Some? && Registration(r.futures[f]) in r.core.waiters)
            && (s.core.buffer == [] ==> r.core.buffer == [] && r.left == s.left && r.pcs == s.pcs)
            && (s.core.buffer == [] ==> (r.ended <==> s.ended || s.handles == {}))
            && (s.core.buffer != [] ==> r.core.buffer == s.core.buffer[1..] && r.ended == s.ended)
            && (s.core.buffer != [] ==>
                  r.left == s.left + [Departure(s.core.buffer[0], true)] && r.pcs == s.pcs[t := OweOne])
  {
    RegisterMembers(s.core, s.futures[f].waiter, waker);
  }

  /** `try_next` takes the oldest item if there is one, and a producer is to be notified of the room. */
  lemma TryNextAnswers<T>(s: State<T>, t: nat)
    requires Called(s, t, TryNext)
    ensures var r := Step(s, t, TryNext);
            && (s.core.buffer == [] ==> r == s)
            && (s.core.buffer != [] ==>
                  && [s.core.buffer[0]] + r.core.buffer == s.core.buffer
                  && r.left == s.left + [Departure(s.core.buffer[0], true)]
                  && r == s.(core := s.core.(buffer := r.core.buffer), left := r.left, pcs := s.pcs[t := OweOne]))
  {
  }

  /** Nothing is left in the buffer, and all producers are to be notified. */
  lemma ClearAnswers<T>(s: State<T>, t: nat)
    requires Called(s, t, ClearBuffer)
    ensures var r := Step(s, t, ClearBuffer);
            && r.core.buffer == [] && Items(r.left) == Items(s.left) + s.core.buffer
            && r == s.(core := s.core.(buffer := []), left := r.left, pcs := s.pcs[t := OweAll])
            && forall i :: |s.left| <= i < |r.left| ==> !r.left[i].taken
  {
    ItemsCleared(s.left, s.core.buffer);
  }

  /** A clone is a new sender; the drop of a sender takes away this one, and wakes everybody if it was the last. */
  lemma HandlesChange<T>(s: State<T>, t: nat, h: nat)
    requires Called(s, t, Clone) || Called(s, t, LoseSender(h))
    ensures Called(s, t, Clone) ==> (
              var r := Step(s, t, Clone);
              && r.handles - {s.made} == s.handles && s.made in r.handles && r.made == s.made + 1
              && r == s.(core := s.core.(senders := r.core.senders), handles := r.handles, made := r.made))
    ensures Called(s, t, LoseSender(h)) ==> (
              var r := Step(s, t, LoseSender(h));
              && h !in r.handles && r.handles + {h} == s.handles && r.core.buffer == s.core.buffer
              && r.pcs == s.pcs[t := Waking(if r.handles == {} then s.core.waiters else [])]
              && r == s.(core := r.core, handles := r.handles, pcs := r.pcs))
  {
    if Called(s, t, LoseSender(h)) {
      if s.core.senders == 1 { OnlyOne(s.handles, h); }
    }
  }

  /** A new future has not been polled; a dropped one leaves no registration. */
  lemma FuturesChange<T>(s: State<T>, t: nat, f: nat)
    requires Called(s, t, NewFuture) || Called(s, t, DropFuture(f))
    ensures Called(s, t, NewFuture) ==> (
              var r := Step(s, t, NewFuture);
              && r == s.(futures := r.futures) && |r.futures| == |s.futures| + 1 && r.futures[..|s.futures|] == s.futures
              && var f := r.futures[|s.futures|]; f.live && !f.pending && !f.woken && f.waiter.None?)
    ensures Called(s, t, DropFuture(f)) ==> (
              var r := Step(s, t, DropFuture(f));
              && r == s.(core := s.core.(waiters := r.core.waiters), futures := s.futures[f := r.futures[f]])
              && !r.futures[f].live
              && forall w :: w in r.core.waiters <==> w in s.core.waiters && Some(w.id) != s.futures[f].waiter)
  {
    if Called(s, t, DropFuture(f)) {
      UnregisterMembers(s.core, s.futures[f].waiter);
    }
  }

  /** The drop of the stream leaves the items where they are, and all producers are to be notified. */
  lemma DropAnswers<T>(s: State<T>, t: nat)
    requires Called(s, t, DropStream)
    ensures var r := Step(s, t, DropStream);
            && r.core.gone && r.core.waiters == [] && !r.futures[0].live && r.futures[1..] == s.futures[1..]
            && r == s.(core := s.core.(gone := true, waiters := []), futures := r.futures, pcs := s.pcs[t := OweAll])
  {
  }

  /** The registration of a future is the first of the list. */
  predicate Heads(list: seq<Waiter>, f: Future) {
    list != [] && f.waiter.Some? && Registration(f) == list[0]
  }

  /** A thread outside the mutex wakes the tasks of its list, each for its own registration, and changes nothing
  else. */
  lemma WakesOne<T>(s: State<T>, t: nat, c: Choice<T>)
    requires Inv(s) && Allowed(s, t, c) && s.pcs[t].Waking?
    ensures var r, list := Step(s, t, c), s.pcs[t].list;
            && r == s.(futures := r.futures, pcs := r.pcs)
            && r.pcs == s.pcs[t := if list == [] then Idle(None) else Waking(list[1..])]
            && forall i :: 0 <= i < |s.futures| ==>
                 r.futures[i] == s.futures[i].(woken := r.futures[i].woken)
                 && (r.futures[i].woken <==> s.futures[i].woken || Heads(list, s.futures[i]))
  {
  }

  /** A thread that sleeps on the condition variable or notifies it moves no item, and wakes nobody but sleepers. */
  lemma NotifiesSleepers<T>(s: State<T>, t: nat, c: Choice<T>)
    requires Inv(s) && Allowed(s, t, c) && (s.pcs[t].Sleeping? || s.pcs[t].OweOne? || s.pcs[t].OweAll?)
    ensures var r := Step(s, t, c);
            && r == s.(pcs := r.pcs) && |r.pcs| == |s.pcs|
            && (!s.pcs[t].Sleeping? ==> r.pcs[t] == Idle(None))
            && (forall u :: 0 <= u < |s.pcs| && u != t ==>
                  r.pcs[u] == s.pcs[u] || (s.pcs[u].Sleeping? && r.pcs[u] == Woken(s.pcs[u].item)))
            && (s.pcs[t].Sleeping? ==> r.pcs == s.pcs[t := Woken(s.pcs[t].item)])
            && (s.pcs[t].OweAll? ==> !Asleep(r.pcs))
            && (s.pcs[t].OweOne? && Asleep(s.pcs) ==>
                  exists u :: 0 <= u < |s.pcs| && s.pcs[u].Sleeping? && r.pcs[u].Woken?)
  {
  }

  /** Ids are given out in a circle of 2^64 - 1, without 0. */
  lemma IdsCycle(id: nat)
    requires 0 < id <= 0xFFFF_FFFF_FFFF_FFFF
    ensures NextId(id) == if id == 0xFFFF_FFFF_FFFF_FFFF then 1 else id + 1
  {
  }

  /** A run goes on with the step of its last turn. */
  lemma {:induction false} RunOn<T>(s: State<T>, turns: seq<Turn<T>>, last: Turn<T>)
    requires RunAllowed(s, turns) && Allowed(Run(s, turns), last.thread, last.choice)
    ensures RunAllowed(s, turns + [last])
    ensures Run(s, turns + [last]) == Step(Run(s, turns), last.thread, last.choice)
    decreases |turns|
  {
    if turns == [] {
      assert turns + [last] == [last] && [last][1..] == [];
    } else {
      assert (turns + [last])[1..] == turns[1..] + [last];
      RunOn(Step(s, turns[0].thread, turns[0].choice), turns[1..], last);
    }
  }
}
