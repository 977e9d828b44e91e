/** The state behind the mutex of the bounded stream, changed in place by the critical sections. */
module StreamClass {
  import opened Options
  import opened Stream
  import opened Waiters

  class SharedStream<T> {
    const capacity: nat
    var buffer: seq<T>
    var waiters: seq<Waiter>
    var nextWaiter: nat
    var closed: bool
    var gone: bool
    var senders: int

    ghost function Model(): Core<T>
      reads this
    {
      Core(buffer, capacity, waiters, nextWaiter, closed, gone, senders)
    }

    constructor (capacity: nat)
      requires capacity > 0
      ensures Model() == Initial<T>(capacity, 0).core && CoreOk(Model())
    {
      this.capacity := capacity;
      buffer, waiters, nextWaiter := [], [], 1;
      closed, gone, senders := false, false, 1;
    }

    /** Searches the registrations from the front. */
    method FindWaiter(id: nat) returns (index: nat)
      ensures index == Find(waiters, id)
    {
      index := 0;
      while index < |waiters| && waiters[index].id != id
        invariant index <= |waiters| && Find(waiters, id) == index + Find(waiters[index..], id)
      {
        assert waiters[index..][1..] == waiters[index + 1..];
        index := index + 1;
      }
    }

    method RegisterWaiter(waiter: Option<nat>, current: nat) returns (id: nat)
      modifies this
      ensures (Model(), id) == Register(old(Model()), waiter, current)
    {
      if waiter.None? {
        id := nextWaiter;
        nextWaiter := NextId(id);
      } else {
        id := waiter.value;
      }
      var index := FindWaiter(id);
      if index == |waiters| {
        waiters := waiters + [Waiter(id, current)];
      } else if waiters[index].waker != current {
        waiters := waiters[index := Waiter(id, current)];
      }
      assert index < |old(waiters)| ==> waiters == old(waiters)[index := Waiter(id, current)];
    }

    method RemoveWaiter(waiter: Option<nat>)
      modifies this
      ensures Model() == Unregister(old(Model()), waiter)
    {
      if waiter.Some? {
        var index := FindWaiter(waiter.value);
        if index < |waiters| {
          waiters := waiters[index := waiters[|waiters| - 1]][..|waiters| - 1];
        }
      }
    }

    /** `made` says that room was made, of which a producer is to be notified. */
    method PollNextItem(waiter: Option<nat>, current: nat) returns (outcome: Outcome<T>, made: bool)
      modifies this
      ensures (Model(), outcome) == PollNext(old(Model()), waiter, current)
      ensures made == outcome.Got?
    {
      if buffer != [] {
        outcome, made := Got(buffer[0]), true;
        buffer := buffer[1..];
        RemoveWaiter(waiter);
      } else if closed {
        outcome, made := End, false;
        RemoveWaiter(waiter);
      } else {
        var id := RegisterWaiter(waiter, current);
        outcome, made := Wait(id), false;
      }
    }

    method TryNext() returns (item: Option<T>)
      modifies this
      ensures item.Some? <==> old(buffer) != []
      ensures item.Some? ==> old(buffer) == [item.value] + buffer
      ensures Model() == old(Model()).(buffer := buffer) && (item.None? ==> buffer == [])
    {
      if buffer == [] {
        item := None;
      } else {
        item := Some(buffer[0]);
        buffer := buffer[1..];
      }
    }

    /** Returns the wakers to be woken and the item that was overwritten. */
    method PushLossy(item: T) returns (taken: seq<Waiter>, overwritten: Option<T>)
      requires CoreOk(Model())
      modifies this
      ensures (Model(), taken, overwritten.Some?) == Push(old(Model()), item)
      ensures overwritten.Some? <==> |old(buffer)| == capacity
      ensures overwritten.Some? ==> overwritten.value == old(buffer)[0]
    {
      overwritten := None;
      if |buffer| >= capacity {
        overwritten := Some(buffer[0]);
        buffer := buffer[1..];
      }
      buffer := buffer + [item];
      taken := waiters;
      waiters := [];
    }

    /** What a blocking push does when it holds the mutex: wait, give up, or append. */
    method TryAppend(item: T) returns (wait: bool, refused: Option<T>, taken: seq<Waiter>)
      requires CoreOk(Model())
      modifies this
      ensures wait <==> MustWait(old(Model()))
      ensures refused == if !wait && old(gone) then Some(item) else None
      ensures Model() == if wait || old(gone) then old(Model()) else Append(old(Model()), item)
      ensures CoreOk(Model())
      ensures taken == if wait || old(gone) then [] else old(waiters)
    {
      wait, refused, taken := !gone && |buffer| >= capacity, None, [];
      if !wait {
        if gone {
          refused := Some(item);
        } else {
          buffer := buffer + [item];
          taken := waiters;
          waiters := [];
        }
      }
    }

    method ClearBuffer() returns (cleared: seq<T>)
      modifies this
      ensures cleared == old(buffer) && Model() == old(Model()).(buffer := [])
    {
      cleared := buffer;
      buffer := [];
    }

    method CloneSender()
      modifies this
      ensures Model() == old(Model()).(senders := old(senders) + 1)
    {
      senders := senders + 1;
    }

    method LoseSender() returns (taken: seq<Waiter>)
      modifies this
      ensures Model() == DropSender(old(Model()))
      ensures taken == if old(senders) == 1 then old(waiters) else []
    {
      senders := senders - 1;
      taken := [];
      if senders == 0 {
        closed := true;
        taken := waiters;
        waiters := [];
      }
    }

    method DropStream()
      modifies this
      ensures Model() == old(Model()).(gone := true, waiters := [])
    {
      gone := true;
      waiters := [];
    }
  }
}
