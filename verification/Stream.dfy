/** The bounded stream: a buffer, its wakers and a condition variable behind one mutex.

Each critical section is one step, and so is everything a thread does after it has left the mutex: notifying
the condition variable, or waking the tasks whose wakers it took.  Any thread may push, pop or poll.
*/
module Stream {
  import opened Modular
  import opened Options
  import opened Waiters

  /** The registration of the stream itself, as opposed to those of its `next` futures. */
  const STREAM_WAITER := 0

  // ----- the critical sections -----

  /** What the mutex protects, with the capacity beside it. */
  datatype Core<T> = Core(
    buffer: seq<T>,
    capacity: nat,
    waiters: seq<Waiter>,
    nextWaiter: nat,
    closed: bool,
    gone: bool,
    senders: int)

  /** Where an id is registered; the length if it is not. */
  function Find(waiters: seq<Waiter>, id: nat): (i: nat)
    ensures i <= |waiters|
    ensures i < |waiters| ==> waiters[i].id == id
    ensures forall j :: 0 <= j < i ==> waiters[j].id != id
  {
    if waiters == [] || waiters[0].id == id then 0 else 1 + Find(waiters[1..], id)
  }

  /** The id after this one; 0 is left out. */
  function NextId(id: nat): nat {
    if (id + 1) % WORD == 0 then 1 else (id + 1) % WORD
  }

  /** Registers under the future's id, or under a new one; an earlier waker of the id is replaced. */
  function Register<T>(core: Core<T>, waiter: Option<nat>, waker: nat): (Core<T>, nat) {
    var id := match waiter case Some(i) => i case None => core.nextWaiter;
    var i := Find(core.waiters, id);
    var waiters := if i < |core.waiters| then core.waiters[i := Waiter(id, waker)] else core.waiters + [Waiter(id, waker)];
    (core.(waiters := waiters, nextWaiter := if waiter.None? then NextId(core.nextWaiter) else core.nextWaiter), id)
  }

  /** The last registration takes the place of the removed one. */
  function SwapRemove(waiters: seq<Waiter>, i: nat): seq<Waiter>
    requires i < |waiters|
  {
    var last := |waiters| - 1;
    waiters[i := waiters[last]][..last]
  }

  function Unregister<T>(core: Core<T>, waiter: Option<nat>): Core<T> {
    match waiter
    case None => core
    case Some(id) =>
      var i := Find(core.waiters, id);
      if i < |core.waiters| then core.(waiters := SwapRemove(core.waiters, i)) else core
  }

  datatype Outcome<+T> = Got(item: T) | End | Wait(id: nat)

  function PollNext<T>(core: Core<T>, waiter: Option<nat>, waker: nat): (Core<T>, Outcome<T>) {
    if core.buffer != [] then (Unregister(core, waiter).(buffer := core.buffer[1..]), Got(core.buffer[0]))
    else if core.closed then (Unregister(core, waiter), End)
    else
      var (r, id) := Register(core, waiter, waker);
      (r, Wait(id))
  }

  /** Returns the wakers it took, and whether the oldest item was dropped. */
  function Push<T>(core: Core<T>, item: T): (Core<T>, seq<Waiter>, bool) {
    var full := |core.buffer| >= core.capacity;
    var kept := if full && core.buffer != [] then core.buffer[1..] else core.buffer;
    (core.(buffer := kept + [item], waiters := []), core.waiters, full && core.buffer != [])
  }

  /** A producer that may not wait any longer appends its item. */
  function Append<T>(core: Core<T>, item: T): Core<T> {
    core.(buffer := core.buffer + [item], waiters := [])
  }

  predicate MustWait<T>(core: Core<T>) {
    !core.gone && |core.buffer| >= core.capacity
  }

  function DropSender<T>(core: Core<T>): Core<T> {
    var r := core.(senders := core.senders - 1);
    if r.senders == 0 then r.(closed := true, waiters := []) else r
  }

  // ----- the machine -----

  /** What a thread is about to do outside the mutex. `refused` is what its last `push_or_block` returned. */
  datatype Pc<+T> =
    | Idle(refused: Option<T>)
    | Sleeping(item: T)
    | Woken(item: T)
    | OweOne
    | OweAll
    | Waking(list: seq<Waiter>)

  datatype Departure<+T> = Departure(item: T, taken: bool)

  /** `futures` are the `next` futures and, at index 0, the stream polled as one: it keeps its id and cannot be dropped
  alone. `entered` and `left` are the histories of both ends of the buffer; `ended` whether a poll has reported the end.
  The senders made so far are numbered below `made`, and `handles` are those that have not been dropped. */
  datatype State<T> = State(
    core: Core<T>,
    futures: seq<Future>,
    pcs: seq<Pc<T>>,
    entered: seq<T>,
    left: seq<Departure<T>>,
    ended: bool,
    handles: set<nat>,
    made: nat)

  datatype Choice<+T> =
    | PushLossy(item: T)
    | PushOrBlock(item: T)
    | Clone
    | LoseSender(handle: nat)
    | Poll(future: nat, waker: nat)
    | NewFuture
    | DropFuture(future: nat)
    | TryNext
    | ClearBuffer
    | DropStream
    | Spurious
    | Notify(target: nat)
    | Advance

  function Initial<T>(capacity: nat, threads: nat): State<T> {
    State(Core([], capacity, [], 1, false, false, 1), [Future(true, Some(STREAM_WAITER), false, 0, false)],
          seq(threads, _ => Idle(None)), [], [], false, {0}, 1)
  }

  predicate Producing<T>(pc: Pc<T>) {
    pc.Sleeping? || pc.Woken?
  }

  predicate Asleep<T>(pcs: seq<Pc<T>>) {
    exists t :: 0 <= t < |pcs| && pcs[t].Sleeping?
  }

  /** What the owner of the handles guarantees. A call on the stream or a sender needs the handle to exist; the last
  sender and the stream are dropped when no call and no future uses them; and a new id is not one that a future still
  has. */
  predicate Allowed<T>(s: State<T>, t: nat, c: Choice<T>) {
    && t < |s.pcs|
    && match s.pcs[t]
       case Idle(_) => (
         match c
         case PushLossy(_) => s.handles != {}
         case PushOrBlock(_) => s.handles != {}
         case Clone => s.handles != {}
         case LoseSender(h) =>
           h in s.handles && (s.handles == {h} ==> forall u :: 0 <= u < |s.pcs| ==> !Producing(s.pcs[u]))
         case Poll(f, _) =>
           && !s.core.gone && f < |s.futures| && s.futures[f].live
           && (s.futures[f].waiter.None? ==> FreshId(s))
         case DropFuture(f) => 0 < f < |s.futures| && s.futures[f].live
         case DropStream =>
           !s.core.gone && forall f :: 0 < f < |s.futures| ==> !s.futures[f].live
         case Notify(_) => false
         case Spurious => false
         case _ => !s.core.gone)
       case Sleeping(_) => c.Spurious?
       case OweOne => (
         match c
         case Notify(u) => u < |s.pcs| && (Asleep(s.pcs) ==> s.pcs[u].Sleeping?)
         case _ => false)
       case _ => c.Advance?
  }

  /** No live future has the id that is given out next: it would have had it for 2^64 - 1 registrations. */
  predicate FreshId<T>(s: State<T>) {
    forall f :: 0 <= f < |s.futures| && s.futures[f].live ==> s.futures[f].waiter != Some(s.core.nextWaiter)
  }

  function Goto<T>(s: State<T>, t: nat, pc: Pc<T>): State<T>
    requires t < |s.pcs|
  {
    s.(pcs := s.pcs[t := pc])
  }

  function WakeAll<T>(pcs: seq<Pc<T>>): (r: seq<Pc<T>>)
    ensures |r| == |pcs|
  {
    seq(|pcs|, i requires 0 <= i < |pcs| => if pcs[i].Sleeping? then Woken(pcs[i].item) else pcs[i])
  }

  function Enter<T>(s: State<T>, item: T): State<T> {
    s.(entered := s.entered + [item])
  }

  function Leave<T>(s: State<T>, item: T, taken: bool): State<T> {
    s.(left := s.left + [Departure(item, taken)])
  }

  /** Pushes without waiting, and goes on to wake the tasks that waited. */
  function StepPushLossy<T>(s: State<T>, t: nat, item: T): State<T>
    requires t < |s.pcs|
  {
    var (core, wakers, dropped) := Push(s.core, item);
    var r := if dropped then Leave(s, s.core.buffer[0], false) else s;
    Goto(Enter(r, item).(core := core), t, Waking(wakers))
  }

  /** The thread holds the mutex and looks whether it may append. */
  function StepTryAppend<T>(s: State<T>, t: nat, item: T): State<T>
    requires t < |s.pcs|
  {
    if MustWait(s.core) then Goto(s, t, Sleeping(item))
    else if s.core.gone then Goto(s, t, Idle(Some(item)))
    else Goto(Enter(s, item).(core := Append(s.core, item)), t, Waking(s.core.waiters))
  }

  function StepPoll<T>(s: State<T>, t: nat, f: nat, waker: nat): State<T>
    requires t < |s.pcs| && f < |s.futures|
  {
    var (core, outcome) := PollNext(s.core, s.futures[f].waiter, waker);
    var idle := if f == 0 then Some(STREAM_WAITER) else None;
    match outcome
    case Got(item) =>
      Goto(Leave(s, item, true).(core := core, futures := s.futures[f := Future(true, idle, false, waker, false)]), t, OweOne)
    case End => s.(core := core, futures := s.futures[f := Future(true, idle, false, waker, false)], ended := true)
    case Wait(id) => s.(core := core, futures := s.futures[f := Future(true, Some(id), true, waker, false)])
  }

  function StepTryNext<T>(s: State<T>, t: nat): State<T>
    requires t < |s.pcs|
  {
    if s.core.buffer == [] then s
    else Goto(Leave(s, s.core.buffer[0], true).(core := s.core.(buffer := s.core.buffer[1..])), t, OweOne)
  }

  function Cleared<T>(buffer: seq<T>): (r: seq<Departure<T>>)
    ensures |r| == |buffer|
  {
    seq(|buffer|, i requires 0 <= i < |buffer| => Departure(buffer[i], false))
  }

  function StepIdle<T>(s: State<T>, t: nat, c: Choice<T>): State<T>
    requires Allowed(s, t, c) && s.pcs[t].Idle?
  {
    match c
    case PushLossy(item) => StepPushLossy(s, t, item)
    case PushOrBlock(item) => StepTryAppend(s, t, item)
    case Clone => s.(core := s.core.(senders := s.core.senders + 1), handles := s.handles + {s.made}, made := s.made + 1)
    case LoseSender(h) =>
      var wakers := if s.core.senders == 1 then s.core.waiters else [];
      Goto(s.(core := DropSender(s.core), handles := s.handles - {h}), t, Waking(wakers))
    case Poll(f, waker) => StepPoll(s, t, f, waker)
    case NewFuture => s.(futures := s.futures + [Future(true, None, false, 0, false)])
    case DropFuture(f) =>
      s.(core := Unregister(s.core, s.futures[f].waiter), futures := s.futures[f := s.futures[f].(live := false)])
    case TryNext => StepTryNext(s, t)
    case ClearBuffer =>
      Goto(s.(core := s.core.(buffer := []), left := s.left + Cleared(s.core.buffer)), t, OweAll)
    case DropStream =>
      Goto(s.(core := s.core.(gone := true, waiters := []),
              futures := if s.futures == [] then [] else s.futures[0 := s.futures[0].(live := false)]), t, OweAll)
    case _ => s
  }

  function Step<T>(s: State<T>, t: nat, c: Choice<T>): State<T>
    requires Allowed(s, t, c)
  {
    match s.pcs[t]
    case Idle(_) => StepIdle(s, t, c)
    case Sleeping(item) => Goto(s, t, Woken(item))
    case Woken(item) => StepTryAppend(s, t, item)
    case OweOne =>
      var u := c.target;
      var r := Goto(s, t, Idle(None));
      if s.pcs[u].Sleeping? then Goto(r, u, Woken(s.pcs[u].item)) else r
    case OweAll => s.(pcs := WakeAll(s.pcs[t := Idle(None)]))
    case Waking(list) =>
      if list == [] then Goto(s, t, Idle(None))
      else Goto(s.(futures := MarkWoken(s.futures, list[0])), t, Waking(list[1..]))
  }

  // ----- producers -----

  /** Threads that will look again whether there is room, or have yet to notify one that will. */
  function Helpers<T>(pcs: seq<Pc<T>>): nat {
    if pcs == [] then 0
    else Helpers(pcs[..|pcs| - 1]) + if pcs[|pcs| - 1].Woken? || pcs[|pcs| - 1].OweOne? then 1 else 0
  }

  predicate AllOwed<T>(pcs: seq<Pc<T>>) {
    exists t :: 0 <= t < |pcs| && pcs[t].OweAll?
  }

  function Free<T>(core: Core<T>): int {
    core.capacity - |core.buffer|
  }

  /** While a producer sleeps, each free place has someone to tell of it, or everyone is about to be told. */
  predicate SleepersOk<T>(s: State<T>) {
    Asleep(s.pcs) ==> AllOwed(s.pcs) || (!s.core.gone && Free(s.core) <= Helpers(s.pcs))
  }

  lemma {:induction false} HelpersUpdate<T>(pcs: seq<Pc<T>>, t: nat, pc: Pc<T>)
    requires t < |pcs|
    ensures Helpers(pcs[t := pc]) + (if pcs[t].Woken? || pcs[t].OweOne? then 1 else 0)
            == Helpers(pcs) + if pc.Woken? || pc.OweOne? then 1 else 0
    decreases |pcs|
  {
    var n := |pcs| - 1;
    if t == n {
      assert pcs[t := pc][..n] == pcs[..n];
    } else {
      assert pcs[t := pc][..n] == pcs[..n][t := pc];
      HelpersUpdate(pcs[..n], t, pc);
    }
  }

  /** A thread that is not asleep moves on: nobody falls asleep unless it does. */
  lemma MoveKeepsSleepers<T>(s: State<T>, r: State<T>, t: nat)
    requires t < |s.pcs| == |r.pcs| && SleepersOk(s) && r.pcs == s.pcs[t := r.pcs[t]]
    requires !s.pcs[t].OweAll?
    requires r.core.gone == s.core.gone && r.core.capacity == s.core.capacity
    requires r.pcs[t].Sleeping? ==> MustWait(r.core) || s.pcs[t].Sleeping?
    requires (Free(r.core) - Free(s.core)) + (if s.pcs[t].Woken? || s.pcs[t].OweOne? then 1 else 0)
             <= (if r.pcs[t].Woken? || r.pcs[t].OweOne? then 1 else 0)
             || Free(r.core) <= 0 || r.core.gone
    ensures SleepersOk(r)
  {
    HelpersUpdate(s.pcs, t, r.pcs[t]);
    if AllOwed(s.pcs) {
      var u :| 0 <= u < |s.pcs| && s.pcs[u].OweAll?;
      assert r.pcs[u].OweAll?;
    } else if Asleep(r.pcs) && (Free(r.core) > 0 || r.core.gone) {
      var u :| 0 <= u < |r.pcs| && r.pcs[u].Sleeping?;
      assert s.pcs[u].Sleeping?;
    }
  }

  lemma OweAllKeepsSleepers<T>(r: State<T>, t: nat)
    requires t < |r.pcs| && r.pcs[t].OweAll?
    ensures SleepersOk(r)
  {
  }

  lemma WakeAllKeepsSleepers<T>(s: State<T>, t: nat, c: Choice<T>)
    requires Allowed(s, t, c) && s.pcs[t].OweAll?
    ensures SleepersOk(Step(s, t, c))
  {
    assert !Asleep(Step(s, t, c).pcs);
  }

  lemma NotifyKeepsSleepers<T>(s: State<T>, t: nat, c: Choice<T>)
    requires Allowed(s, t, c) && s.pcs[t].OweOne? && SleepersOk(s)
    ensures SleepersOk(Step(s, t, c))
  {
    var r, u := Step(s, t, c), c.target;
    HelpersUpdate(s.pcs, t, Idle(None));
    if s.pcs[u].Sleeping? {
      HelpersUpdate(s.pcs[t := Idle(None)], u, r.pcs[u]);
    }
    if Asleep(r.pcs) {
      var v :| 0 <= v < |r.pcs| && r.pcs[v].Sleeping?;
      assert s.pcs[v].Sleeping?;
      if AllOwed(s.pcs) {
        var w :| 0 <= w < |s.pcs| && s.pcs[w].OweAll?;
        assert r.pcs[w].OweAll?;
      }
    }
  }

  predicate CoreOk<T>(core: Core<T>) {
    && 0 < core.capacity && |core.buffer| <= core.capacity
    && (core.closed <==> core.senders == 0)
    && (core.waiters != [] ==> core.buffer == [] && !core.closed && !core.gone)
    && 0 < core.nextWaiter < WORD
  }

  /** The senders are counted, and every one of them is one that was made. */
  ghost predicate HandlesOk<T>(s: State<T>) {
    s.core.senders == |s.handles| && forall h :: h in s.handles ==> h < s.made
  }

  lemma StepKeepsSleepers<T>(s: State<T>, t: nat, c: Choice<T>)
    requires Allowed(s, t, c) && CoreOk(s.core) && SleepersOk(s)
    ensures SleepersOk(Step(s, t, c))
  {
    var r := Step(s, t, c);
    if s.pcs[t].OweAll? {
      WakeAllKeepsSleepers(s, t, c);
    } else if s.pcs[t].OweOne? {
      NotifyKeepsSleepers(s, t, c);
    } else if r.pcs[t].OweAll? {
      OweAllKeepsSleepers(r, t);
    } else if s.pcs[t].Idle? {
      IdleKeepsSleepers(s, t, c);
    } else {
      MoveKeepsSleepers(s, r, t);
    }
  }

  /** A call begins, and hands over no more free places than it has notifications for. */
  lemma IdleKeepsSleepers<T>(s: State<T>, t: nat, c: Choice<T>)
    requires Allowed(s, t, c) && CoreOk(s.core) && SleepersOk(s) && s.pcs[t].Idle?
    requires !StepIdle(s, t, c).pcs[t].OweAll?
    ensures SleepersOk(StepIdle(s, t, c))
  {
    var r := StepIdle(s, t, c);
    if c.PushLossy? || c.PushOrBlock? {
      PushKeepsSleepers(s, t, c);
    } else {
      MoveKeepsSleepers(s, r, t);
    }
  }

  lemma PushKeepsSleepers<T>(s: State<T>, t: nat, c: Choice<T>)
    requires Allowed(s, t, c) && CoreOk(s.core) && SleepersOk(s) && s.pcs[t].Idle? && (c.PushLossy? || c.PushOrBlock?)
    ensures SleepersOk(StepIdle(s, t, c))
  {
    MoveKeepsSleepers(s, StepIdle(s, t, c), t);
  }

  /** No producer is stranded: when nothing is left to be done about it, a sleeping producer waits for a buffer that
  is full, and the consumer is still there. */
  lemma NoProducerIsStranded<T>(s: State<T>)
    requires SleepersOk(s) && CoreOk(s.core) && Asleep(s.pcs)
    requires forall t :: 0 <= t < |s.pcs| ==> s.pcs[t].Idle? || s.pcs[t].Sleeping? || s.pcs[t].Waking?
    ensures |s.core.buffer| == s.core.capacity && !s.core.gone
  {
    HelpersNone(s.pcs);
  }

  lemma {:induction false} HelpersNone<T>(pcs: seq<Pc<T>>)
    requires forall t :: 0 <= t < |pcs| ==> !pcs[t].Woken? && !pcs[t].OweOne?
    ensures Helpers(pcs) == 0
    decreases |pcs|
  {
    if pcs == [] {
    } else {
      HelpersNone(pcs[..|pcs| - 1]);
    }
  }
}
