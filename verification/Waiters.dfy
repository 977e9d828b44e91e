/** Futures that wait behind a mutex, and their registrations there. */
module Waiters {
  import opened Options

  /** A registration: wakers that wake the same task are the same number. */
  datatype Waiter = Waiter(id: nat, waker: nat)

  /** `pending` says that the last poll of the future returned Pending, with this waker, and `woken` that its task has
  been woken since. */
  datatype Future = Future(live: bool, waiter: Option<nat>, pending: bool, waker: nat, woken: bool)

  /** The task of a registration is woken. */
  function MarkWoken(futures: seq<Future>, w: Waiter): (r: seq<Future>)
    ensures |r| == |futures|
  {
    seq(|futures|, i requires 0 <= i < |futures| =>
      if futures[i].waiter == Some(w.id) && futures[i].waker == w.waker then futures[i].(woken := true) else futures[i])
  }

  function Registration(f: Future): Waiter
    requires f.waiter.Some?
  {
    Waiter(f.waiter.value, f.waker)
  }

  predicate Owner(f: Future, w: Waiter) {
    f.live && f.pending && f.waiter.Some? && Registration(f) == w
  }

  predicate Owned(futures: seq<Future>, w: Waiter) {
    exists f :: 0 <= f < |futures| && Owner(futures[f], w)
  }
}
