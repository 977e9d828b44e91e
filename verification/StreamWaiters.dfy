/** Consumers of the bounded stream: registrations, wakeups and the order of the items, in every run. */
module StreamWaiters {
  import opened Options
  import opened Waiters
  import opened Stream

  // ----- registrations -----

  predicate Distinct(waiters: seq<Waiter>) {
    forall i, j :: 0 <= i < j < |waiters| ==> waiters[i].id != waiters[j].id
  }

  lemma RegisterMembers<T>(core: Core<T>, waiter: Option<nat>, waker: nat)
    requires Distinct(core.waiters)
    ensures var (r, id) := Register(core, waiter, waker);
            && Distinct(r.waiters) && Waiter(id, waker) in r.waiters
            && (match waiter case Some(i) => id == i && r.nextWaiter == core.nextWaiter
                             case None => id == core.nextWaiter && r.nextWaiter == NextId(id))
            && (forall w :: w in r.waiters ==> w == Waiter(id, waker) || (w in core.waiters && w.id != id))
            && (forall w :: w in core.waiters && w.id != id ==> w in r.waiters)
  {
    var (r, id) := Register(core, waiter, waker);
    var i := Find(core.waiters, id);
    if i < |core.waiters| {
      assert r.waiters[i] == Waiter(id, waker);
      forall w | w in core.waiters && w.id != id ensures w in r.waiters {
        var j :| 0 <= j < |core.waiters| && core.waiters[j] == w;
        assert r.waiters[j] == w;
      }
    } else {
      assert r.waiters[|core.waiters|] == Waiter(id, waker);
    }
  }

  lemma SwapRemoveMembers(waiters: seq<Waiter>, i: nat)
    requires Distinct(waiters) && i < |waiters|
    ensures var r := SwapRemove(waiters, i);
            Distinct(r) && forall w :: w in r <==> w in waiters && w.id != waiters[i].id
  {
    var r, last := SwapRemove(waiters, i), |waiters| - 1;
    forall w | w in waiters && w.id != waiters[i].id ensures w in r {
      var j :| 0 <= j < |waiters| && waiters[j] == w;
      if j == last {
        assert r[i] == w;
      } else {
        assert r[j] == w;
      }
    }
  }

  lemma UnregisterMembers<T>(core: Core<T>, waiter: Option<nat>)
    requires Distinct(core.waiters)
    ensures var r := Unregister(core, waiter);
            && Distinct(r.waiters)
            && (forall w :: w in r.waiters <==> w in core.waiters && Some(w.id) != waiter)
  {
    if waiter.Some? {
      var i := Find(core.waiters, waiter.value);
      if i < |core.waiters| {
        SwapRemoveMembers(core.waiters, i);
      }
    }
  }

  // ----- the invariant -----

  /** A thread is about to wake this registration. */
  predicate Flying<T>(pcs: seq<Pc<T>>, w: Waiter) {
    exists t :: 0 <= t < |pcs| && pcs[t].Waking? && w in pcs[t].list
  }

  /** A future whose last poll returned Pending is registered, or its task has been woken or is about to be. */
  predicate Awaited<T>(s: State<T>, f: Future) {
    f.live && f.pending ==>
      f.waiter.Some? && (f.woken || Registration(f) in s.core.waiters || Flying(s.pcs, Registration(f)))
  }

  /** The ids of live futures differ; only the stream itself has id 0, and one that does not wait has none. */
  predicate IdsOk(futures: seq<Future>) {
    && |futures| > 0 && futures[0].waiter == Some(STREAM_WAITER)
    && (forall f :: 0 < f < |futures| && futures[f].live && !futures[f].pending ==> futures[f].waiter == None)
    && (forall f, g :: 0 <= f < g < |futures| && futures[f].live && futures[g].live && futures[f].waiter.Some? ==>
          futures[f].waiter != futures[g].waiter)
    && (forall g :: 0 < g < |futures| ==> futures[g].waiter != Some(STREAM_WAITER))
  }

  predicate WaitersOk<T>(s: State<T>) {
    && Distinct(s.core.waiters)
    && IdsOk(s.futures)
    && (s.core.gone <==> !s.futures[0].live)
    && (s.core.gone ==> forall f :: 0 <= f < |s.futures| ==> !s.futures[f].live || !s.futures[f].pending)
    && (forall w :: w in s.core.waiters ==> Owned(s.futures, w))
    && (forall f :: 0 <= f < |s.futures| ==> Awaited(s, s.futures[f]))
  }

  function Items<T>(left: seq<Departure<T>>): seq<T> {
    if left == [] then [] else Items(left[..|left| - 1]) + [left[|left| - 1].item]
  }

  /** Items leave in the order in which they entered, and after the end has been reported none enters. */
  ghost predicate FlowOk<T>(s: State<T>) {
    && InOrder(s)
    && ProducersDone(s)
    && (s.ended ==> s.core.closed && s.core.buffer == [])
  }

  ghost predicate Inv<T>(s: State<T>) {
    CoreOk(s.core) && HandlesOk(s) && SleepersOk(s) && WaitersOk(s) && FlowOk(s)
  }

  lemma InitialInv<T>(capacity: nat, threads: nat)
    requires capacity > 0
    ensures Inv(Initial<T>(capacity, threads))
  {
    var s := Initial<T>(capacity, threads);
    assert Items<T>([]) == [];
    assert !Asleep(s.pcs);
    assert Awaited(s, s.futures[0]);
  }

  // ----- what every step keeps: the core and the flow -----

  /** Taking a registration away leaves none where there was none. */
  lemma UnregisterKeepsCore<T>(core: Core<T>, waiter: Option<nat>)
    requires CoreOk(core)
    ensures CoreOk(Unregister(core, waiter))
    ensures core.waiters == [] ==> Unregister(core, waiter).waiters == []
  {
  }

  lemma PollKeepsCore<T>(core: Core<T>, waiter: Option<nat>, waker: nat)
    requires CoreOk(core) && !core.gone
    ensures CoreOk(PollNext(core, waiter, waker).0)
  {
    UnregisterKeepsCore(core, waiter);
  }

  lemma StepKeepsCore<T>(s: State<T>, t: nat, c: Choice<T>)
    requires Allowed(s, t, c) && CoreOk(s.core) && HandlesOk(s)
    ensures CoreOk(Step(s, t, c).core) && Step(s, t, c).core.capacity == s.core.capacity
  {
    if s.pcs[t].Idle? && c.Poll? {
      PollKeepsCore(s.core, s.futures[c.future].waiter, c.waker);
    } else if s.pcs[t].Idle? && c.DropFuture? {
      UnregisterKeepsCore(s.core, s.futures[c.future].waiter);
    }
  }

  lemma StepKeepsHandles<T>(s: State<T>, t: nat, c: Choice<T>)
    requires Allowed(s, t, c) && HandlesOk(s)
    ensures HandlesOk(Step(s, t, c))
  {
    if s.pcs[t].Idle? {
      CallKeepsHandles(s, t, c);
    }
  }

  lemma CallKeepsHandles<T>(s: State<T>, t: nat, c: Choice<T>)
    requires Allowed(s, t, c) && HandlesOk(s) && s.pcs[t].Idle?
    ensures HandlesOk(StepIdle(s, t, c))
  {
    match c
    case Clone => CloneKeepsHandles(s, t, c);
    case LoseSender(_) => LosingKeepsHandles(s, t, c);
    case Poll(f, waker) => PollKeepsHandles(s, t, f, waker);
    case _ =>
  }

  lemma CloneKeepsHandles<T>(s: State<T>, t: nat, c: Choice<T>)
    requires Allowed(s, t, c) && HandlesOk(s) && s.pcs[t].Idle? && c.Clone?
    ensures HandlesOk(StepIdle(s, t, c))
  {
    assert s.made !in s.handles && |s.handles + {s.made}| == |s.handles| + 1;
  }

  lemma LosingKeepsHandles<T>(s: State<T>, t: nat, c: Choice<T>)
    requires Allowed(s, t, c) && HandlesOk(s) && s.pcs[t].Idle? && c.LoseSender?
    ensures HandlesOk(StepIdle(s, t, c))
  {
    assert |s.handles - {c.handle}| == |s.handles| - 1;
  }

  lemma PollKeepsHandles<T>(s: State<T>, t: nat, f: nat, waker: nat)
    requires t < |s.pcs| && f < |s.futures| && HandlesOk(s)
    ensures HandlesOk(StepPoll(s, t, f, waker))
  {
    var r := StepPoll(s, t, f, waker);
    assert r.handles == s.handles && r.made == s.made && r.core.senders == s.core.senders;
  }

  lemma ItemsConcat<T>(left: seq<Departure<T>>, last: Departure<T>)
    ensures Items(left + [last]) == Items(left) + [last.item]
  {
    assert (left + [last])[..|left|] == left;
  }

  lemma {:induction false} ItemsCleared<T>(left: seq<Departure<T>>, buffer: seq<T>)
    ensures Items(left + Cleared(buffer)) == Items(left) + buffer
    decreases |buffer|
  {
    if buffer == [] {
      assert left + Cleared(buffer) == left;
    } else {
      var front, last := buffer[..|buffer| - 1], buffer[|buffer| - 1];
      assert left + Cleared(buffer) == (left + Cleared(front)) + [Departure(last, false)];
      ItemsCleared(left, front);
      ItemsConcat(left + Cleared(front), Departure(last, false));
      assert buffer == front + [last];
    }
  }

  /** The oldest item leaves. */
  lemma LeaveKeepsOrder<T>(left: seq<Departure<T>>, buffer: seq<T>, taken: bool)
    requires buffer != []
    ensures Items(left + [Departure(buffer[0], taken)]) + buffer[1..] == Items(left) + buffer
  {
    ItemsConcat(left, Departure(buffer[0], taken));
    assert buffer == [buffer[0]] + buffer[1..];
  }

  ghost predicate InOrder<T>(s: State<T>) {
    s.entered == Items(s.left) + s.core.buffer
  }

  lemma TakeKeepsOrder<T>(s: State<T>, t: nat, c: Choice<T>)
    requires Allowed(s, t, c) && InOrder(s) && s.pcs[t].Idle? && (c.Poll? || c.TryNext? || c.ClearBuffer?)
    ensures InOrder(Step(s, t, c))
  {
    if s.core.buffer != [] {
      LeaveKeepsOrder(s.left, s.core.buffer, true);
    }
    ItemsCleared(s.left, s.core.buffer);
  }

  lemma AppendKeepsOrder<T>(entered: seq<T>, items: seq<T>, buffer: seq<T>, item: T)
    requires entered == items + buffer
    ensures entered + [item] == items + (buffer + [item])
  {
  }

  lemma PushKeepsOrder<T>(s: State<T>, t: nat, item: T)
    requires t < |s.pcs| && InOrder(s)
    ensures InOrder(StepPushLossy(s, t, item)) && InOrder(StepTryAppend(s, t, item))
  {
    AppendKeepsOrder(s.entered, Items(s.left), s.core.buffer, item);
    if s.core.buffer != [] {
      var left := s.left + [Departure(s.core.buffer[0], false)];
      LeaveKeepsOrder(s.left, s.core.buffer, false);
      AppendKeepsOrder(s.entered, Items(left), s.core.buffer[1..], item);
    }
  }

  lemma OrderKept<T>(s: State<T>, t: nat, c: Choice<T>)
    requires Allowed(s, t, c) && InOrder(s)
    ensures InOrder(Step(s, t, c))
  {
    if s.pcs[t].Idle? && (c.Poll? || c.TryNext? || c.ClearBuffer?) {
      TakeKeepsOrder(s, t, c);
    } else if s.pcs[t].Idle? && (c.PushLossy? || c.PushOrBlock?) {
      PushKeepsOrder(s, t, c.item);
    } else if s.pcs[t].Woken? {
      PushKeepsOrder(s, t, s.pcs[t].item);
    }
  }

  predicate ProducersDone<T>(s: State<T>) {
    s.core.closed ==> forall t :: 0 <= t < |s.pcs| ==> !Producing(s.pcs[t])
  }

  lemma NotifyAfterClose<T>(s: State<T>, t: nat, c: Choice<T>)
    requires Allowed(s, t, c) && ProducersDone(s) && (s.pcs[t].OweOne? || s.pcs[t].OweAll?)
    ensures ProducersDone(Step(s, t, c))
  {
  }

  lemma ProducersStayDone<T>(s: State<T>, t: nat, c: Choice<T>)
    requires Allowed(s, t, c) && CoreOk(s.core) && HandlesOk(s) && ProducersDone(s)
    ensures ProducersDone(Step(s, t, c))
  {
    if s.pcs[t].OweOne? || s.pcs[t].OweAll? {
      NotifyAfterClose(s, t, c);
    } else if c.LoseSender? && s.pcs[t].Idle? {
      LastSenderGoes(s, t, c);
    } else {
      OneMoves(s, t, c);
    }
  }

  /** Whoever does not notify leaves the other threads where they are, and starts no producer once the stream is
  closed. */
  lemma OneMoves<T>(s: State<T>, t: nat, c: Choice<T>)
    requires Allowed(s, t, c) && CoreOk(s.core) && HandlesOk(s) && !s.pcs[t].OweOne? && !s.pcs[t].OweAll?
    ensures var r := Step(s, t, c);
            && |r.pcs| == |s.pcs| && (forall u :: 0 <= u < |r.pcs| && u != t ==> r.pcs[u] == s.pcs[u])
            && (Producing(r.pcs[t]) ==> Producing(s.pcs[t]) || s.core.senders > 0)
            && ((s.pcs[t].Idle? && c.LoseSender?) || r.core.closed == s.core.closed)
  {
    if s.pcs[t].Idle? {
      CallerMoves(s, t, c);
    }
  }

  lemma CallerMoves<T>(s: State<T>, t: nat, c: Choice<T>)
    requires Allowed(s, t, c) && CoreOk(s.core) && HandlesOk(s) && s.pcs[t].Idle?
    ensures var r := StepIdle(s, t, c);
            && |r.pcs| == |s.pcs| && (forall u :: 0 <= u < |r.pcs| && u != t ==> r.pcs[u] == s.pcs[u])
            && (Producing(r.pcs[t]) ==> s.core.senders > 0)
            && (c.LoseSender? || r.core.closed == s.core.closed)
  {
    var r := StepIdle(s, t, c);
    assert |r.pcs| == |s.pcs| && r.pcs == s.pcs[t := r.pcs[t]];
    assert Producing(r.pcs[t]) ==> c.PushOrBlock?;
  }

  /** The last sender goes only when no producer is at work. */
  lemma LastSenderGoes<T>(s: State<T>, t: nat, c: Choice<T>)
    requires Allowed(s, t, c) && CoreOk(s.core) && HandlesOk(s) && ProducersDone(s) && s.pcs[t].Idle? && c.LoseSender?
    ensures ProducersDone(Step(s, t, c))
  {
    assert s.core.senders == 1 ==> s.handles == {c.handle} by {
      if s.core.senders == 1 { OnlyOne(s.handles, c.handle); }
    }
    assert forall u :: 0 <= u < |s.pcs| && u != t ==> Step(s, t, c).pcs[u] == s.pcs[u];
  }

  lemma OnlyOne(handles: set<nat>, h: nat)
    requires h in handles && |handles| == 1
    ensures handles == {h}
  {
    assert |handles - {h}| == 0;
  }

  lemma EndStays<T>(s: State<T>, t: nat, c: Choice<T>)
    requires Allowed(s, t, c) && CoreOk(s.core) && HandlesOk(s) && ProducersDone(s)
    requires s.ended ==> s.core.closed && s.core.buffer == []
    ensures var r := Step(s, t, c); r.ended ==> r.core.closed && r.core.buffer == []
  {
  }

  lemma StepKeepsFlow<T>(s: State<T>, t: nat, c: Choice<T>)
    requires Allowed(s, t, c) && CoreOk(s.core) && HandlesOk(s) && FlowOk(s)
    ensures FlowOk(Step(s, t, c))
  {
    OrderKept(s, t, c);
    ProducersStayDone(s, t, c);
    EndStays(s, t, c);
  }

  // ----- what every step keeps: the registrations -----

  /** Wakes in flight stay in flight while a thread that wakes no one moves. */
  lemma FlyingKept<T>(pcs: seq<Pc<T>>, others: seq<Pc<T>>)
    requires |pcs| == |others|
    requires forall t :: 0 <= t < |pcs| && pcs[t].Waking? ==> others[t] == pcs[t]
    ensures forall w :: Flying(pcs, w) ==> Flying(others, w)
  {
    forall w | Flying(pcs, w) ensures Flying(others, w) {
      var t :| 0 <= t < |pcs| && pcs[t].Waking? && w in pcs[t].list;
      assert others[t].Waking? && w in others[t].list;
    }
  }

  /** Nothing happens to futures and registrations. */
  lemma QuietKeepsWaiters<T>(s: State<T>, r: State<T>)
    requires WaitersOk(s) && r.futures == s.futures && r.core.waiters == s.core.waiters && |r.pcs| == |s.pcs|
    requires r.core.gone == s.core.gone
    requires forall t :: 0 <= t < |s.pcs| && s.pcs[t].Waking? ==> r.pcs[t] == s.pcs[t]
    ensures WaitersOk(r)
  {
    FlyingKept(s.pcs, r.pcs);
    forall f | 0 <= f < |r.futures| ensures Awaited(r, r.futures[f]) {
      assert Awaited(s, s.futures[f]);
    }
  }

  /** A thread takes all registrations with it, to wake them. */
  lemma TakenKeepsWaiters<T>(s: State<T>, r: State<T>, t: nat)
    requires WaitersOk(s) && r.futures == s.futures && r.core.waiters == [] && t < |s.pcs| && !s.pcs[t].Waking?
    requires r.core.gone == s.core.gone && r.pcs == s.pcs[t := Waking(s.core.waiters)]
    ensures WaitersOk(r)
  {
    FlyingKept(s.pcs, r.pcs);
    assert r.pcs[t] == Waking(s.core.waiters);
    forall f | 0 <= f < |r.futures| ensures Awaited(r, r.futures[f]) {
      assert Awaited(s, s.futures[f]);
    }
  }

  /** A thread wakes the first task of its list. */
  lemma WakeKeepsWaiters<T>(s: State<T>, t: nat, w: Waiter, list: seq<Waiter>, r: State<T>)
    requires WaitersOk(s) && t < |s.pcs| && s.pcs[t] == Waking([w] + list)
    requires r == Goto(s.(futures := MarkWoken(s.futures, w)), t, Waking(list))
    ensures WaitersOk(r)
  {
    forall v | Flying(s.pcs, v) && v != w ensures Flying(r.pcs, v) {
      var u :| 0 <= u < |s.pcs| && s.pcs[u].Waking? && v in s.pcs[u].list;
      assert r.pcs[u].Waking? && v in r.pcs[u].list;
    }
    forall v | v in r.core.waiters ensures Owned(r.futures, v) {
      var f :| 0 <= f < |s.futures| && Owner(s.futures[f], v);
      assert Owner(r.futures[f], v);
    }
    forall f | 0 <= f < |r.futures| ensures Awaited(r, r.futures[f]) {
      assert Awaited(s, s.futures[f]);
    }
  }

  /** Only the future that was polled or dropped, and its registration, change. */
  predicate OneChanged<T>(s: State<T>, r: State<T>, f: nat) {
    && f < |s.futures| == |r.futures|
    && (forall g :: 0 <= g < |s.futures| && g != f ==> r.futures[g] == s.futures[g])
    && r.core.gone == s.core.gone
    && (forall w :: w in r.core.waiters ==> Owner(r.futures[f], w) || (w in s.core.waiters && !Owner(s.futures[f], w)))
    && (forall w :: w in s.core.waiters && !Owner(s.futures[f], w) ==> w in r.core.waiters)
  }

  lemma OneKeepsWaiters<T>(s: State<T>, r: State<T>, f: nat)
    requires WaitersOk(s) && OneChanged(s, r, f) && Distinct(r.core.waiters) && IdsOk(r.futures)
    requires |r.pcs| == |s.pcs| && forall t :: 0 <= t < |s.pcs| && s.pcs[t].Waking? ==> r.pcs[t] == s.pcs[t]
    requires Awaited(r, r.futures[f]) && (r.core.gone ==> !r.futures[f].live || !r.futures[f].pending)
    requires f == 0 ==> r.futures[0].live == s.futures[0].live
    ensures WaitersOk(r)
  {
    FlyingKept(s.pcs, r.pcs);
    forall w | w in r.core.waiters ensures Owned(r.futures, w) {
      if !Owner(r.futures[f], w) {
        var g :| 0 <= g < |s.futures| && Owner(s.futures[g], w);
        assert Owner(r.futures[g], w);
      }
    }
    forall g | 0 <= g < |r.futures| ensures Awaited(r, r.futures[g]) {
      if g != f {
        assert Awaited(s, s.futures[g]);
        if s.futures[g].live && s.futures[g].pending && Registration(s.futures[g]) in s.core.waiters {
          assert !Owner(s.futures[f], Registration(s.futures[g]));
        }
      }
    }
  }

  /** A registration with the id of a live future is its own. */
  lemma IdOwner<T>(s: State<T>, f: nat, w: Waiter)
    requires WaitersOk(s) && f < |s.futures| && s.futures[f].live && w in s.core.waiters
    ensures Some(w.id) == s.futures[f].waiter <==> Owner(s.futures[f], w)
  {
    var g :| 0 <= g < |s.futures| && Owner(s.futures[g], w);
  }

  lemma ServedKeepsWaiters<T>(s: State<T>, t: nat, f: nat, waker: nat)
    requires WaitersOk(s) && t < |s.pcs| && s.pcs[t].Idle? && f < |s.futures| && s.futures[f].live
    requires s.core.buffer != [] || s.core.closed
    ensures WaitersOk(StepPoll(s, t, f, waker))
  {
    forall w | w in s.core.waiters ensures Some(w.id) == s.futures[f].waiter <==> Owner(s.futures[f], w) {
      IdOwner(s, f, w);
    }
    UnregisterMembers(s.core, s.futures[f].waiter);
    OneKeepsWaiters(s, StepPoll(s, t, f, waker), f);
  }

  lemma WaitKeepsWaiters<T>(s: State<T>, t: nat, f: nat, waker: nat)
    requires WaitersOk(s) && t < |s.pcs| && s.pcs[t].Idle? && f < |s.futures| && s.futures[f].live && !s.core.gone
    requires s.core.buffer == [] && !s.core.closed && s.core.nextWaiter > 0
    requires s.futures[f].waiter.None? ==> FreshId(s)
    ensures WaitersOk(StepPoll(s, t, f, waker))
  {
    WaitChangesOne(s, t, f, waker);
    WaitKeepsIds(s, t, f, waker);
    OneKeepsWaiters(s, StepPoll(s, t, f, waker), f);
  }

  lemma WaitChangesOne<T>(s: State<T>, t: nat, f: nat, waker: nat)
    requires WaitersOk(s) && t < |s.pcs| && f < |s.futures| && s.futures[f].live
    requires s.core.buffer == [] && !s.core.closed
    requires s.futures[f].waiter.None? ==> FreshId(s)
    ensures var r := StepPoll(s, t, f, waker);
            && OneChanged(s, r, f) && Distinct(r.core.waiters)
            && r.futures[f].waiter.Some? && Registration(r.futures[f]) in r.core.waiters
  {
    forall w | w in s.core.waiters ensures Some(w.id) == s.futures[f].waiter <==> Owner(s.futures[f], w) {
      IdOwner(s, f, w);
    }
    RegisterMembers(s.core, s.futures[f].waiter, waker);
    if s.futures[f].waiter.None? {
      NewIdUnused(s);
    }
  }

  lemma WaitKeepsIds<T>(s: State<T>, t: nat, f: nat, waker: nat)
    requires IdsOk(s.futures) && t < |s.pcs| && f < |s.futures| && s.futures[f].live
    requires s.core.buffer == [] && !s.core.closed && s.core.nextWaiter > 0
    requires s.futures[f].waiter.None? ==> FreshId(s)
    ensures IdsOk(StepPoll(s, t, f, waker).futures)
  {
  }

  lemma PollKeepsWaiters<T>(s: State<T>, t: nat, f: nat, waker: nat)
    requires Inv(s) && t < |s.pcs| && s.pcs[t].Idle? && Allowed(s, t, Poll(f, waker))
    ensures WaitersOk(StepPoll(s, t, f, waker))
  {
    if s.core.buffer != [] || s.core.closed {
      ServedKeepsWaiters(s, t, f, waker);
    } else {
      WaitKeepsWaiters(s, t, f, waker);
    }
  }

  /** A fresh id is not registered. */
  lemma NewIdUnused<T>(s: State<T>)
    requires WaitersOk(s) && FreshId(s)
    ensures forall w :: w in s.core.waiters ==> w.id != s.core.nextWaiter
  {
    forall w | w in s.core.waiters ensures w.id != s.core.nextWaiter {
      var g :| 0 <= g < |s.futures| && Owner(s.futures[g], w);
    }
  }

  lemma DropKeepsWaiters<T>(s: State<T>, t: nat, f: nat)
    requires Inv(s) && t < |s.pcs| && s.pcs[t].Idle? && Allowed(s, t, DropFuture(f))
    ensures WaitersOk(StepIdle(s, t, DropFuture(f)))
  {
    forall w | w in s.core.waiters ensures Some(w.id) == s.futures[f].waiter <==> Owner(s.futures[f], w) {
      IdOwner(s, f, w);
    }
    UnregisterMembers(s.core, s.futures[f].waiter);
    OneKeepsWaiters(s, StepIdle(s, t, DropFuture(f)), f);
  }

  lemma NewKeepsWaiters<T>(s: State<T>, r: State<T>)
    requires WaitersOk(s) && r == s.(futures := s.futures + [Future(true, None, false, 0, false)])
    ensures WaitersOk(r)
  {
    forall w | w in r.core.waiters ensures Owned(r.futures, w) {
      var g :| 0 <= g < |s.futures| && Owner(s.futures[g], w);
      assert Owner(r.futures[g], w);
    }
    forall g | 0 <= g < |r.futures| ensures Awaited(r, r.futures[g]) {
      if g < |s.futures| {
        assert Awaited(s, s.futures[g]);
      }
    }
  }

  lemma IdleKeepsWaiters<T>(s: State<T>, t: nat, c: Choice<T>)
    requires Allowed(s, t, c) && Inv(s) && s.pcs[t].Idle?
    ensures WaitersOk(StepIdle(s, t, c))
  {
    var r := StepIdle(s, t, c);
    match c
    case PushLossy(_) => SendersKeepWaiters(s, t, c);
    case PushOrBlock(_) => SendersKeepWaiters(s, t, c);
    case LoseSender(_) => SendersKeepWaiters(s, t, c);
    case Poll(f, waker) => PollKeepsWaiters(s, t, f, waker);
    case NewFuture => NewKeepsWaiters(s, r);
    case DropFuture(f) => DropKeepsWaiters(s, t, f);
    case DropStream => DropStreamKeepsWaiters(s, t);
    case _ => QuietKeepsWaiters(s, r);
  }

  /** A call of a sender takes all registrations with it, or changes none. */
  lemma SendersKeepWaiters<T>(s: State<T>, t: nat, c: Choice<T>)
    requires Allowed(s, t, c) && Inv(s) && s.pcs[t].Idle? && (c.PushLossy? || c.PushOrBlock? || c.LoseSender?)
    ensures WaitersOk(StepIdle(s, t, c))
  {
    var r := StepIdle(s, t, c);
    if c.PushLossy? || (c.PushOrBlock? && r.pcs[t].Waking?) || (c.LoseSender? && s.core.senders == 1) {
      TakenKeepsWaiters(s, r, t);
    } else {
      QuietKeepsWaiters(s, r);
    }
  }

  lemma DropStreamKeepsWaiters<T>(s: State<T>, t: nat)
    requires Allowed(s, t, DropStream) && Inv(s) && s.pcs[t].Idle?
    ensures WaitersOk(StepIdle(s, t, DropStream))
  {
    var r := StepIdle(s, t, DropStream);
    assert forall f :: 0 <= f < |r.futures| ==> !r.futures[f].live;
  }

  lemma StepKeepsWaiters<T>(s: State<T>, t: nat, c: Choice<T>)
    requires Allowed(s, t, c) && Inv(s)
    ensures WaitersOk(Step(s, t, c))
  {
    var r := Step(s, t, c);
    match s.pcs[t]
    case Idle(_) => IdleKeepsWaiters(s, t, c);
    case Woken(_) =>
      if r.pcs[t].Waking? {
        TakenKeepsWaiters(s, r, t);
      } else {
        QuietKeepsWaiters(s, r);
      }
    case Waking(list) => WakingKeepsWaiters(s, t, list, r);
    case _ => QuietKeepsWaiters(s, r);
  }

  /** A thread wakes the first task of its list, or is done with it. */
  lemma WakingKeepsWaiters<T>(s: State<T>, t: nat, list: seq<Waiter>, r: State<T>)
    requires WaitersOk(s) && t < |s.pcs| && s.pcs[t] == Waking(list)
    requires r == if list == [] then Goto(s, t, Idle(None))
                  else Goto(s.(futures := MarkWoken(s.futures, list[0])), t, Waking(list[1..]))
    ensures WaitersOk(r)
  {
    if list != [] {
      assert list == [list[0]] + list[1..];
      WakeKeepsWaiters(s, t, list[0], list[1..], r);
    } else {
      EmptyListFlies(s.pcs, t);
      forall f | 0 <= f < |r.futures| ensures Awaited(r, r.futures[f]) {
        assert Awaited(s, s.futures[f]);
      }
    }
  }

  lemma EmptyListFlies<T>(pcs: seq<Pc<T>>, t: nat)
    requires t < |pcs| && pcs[t] == Waking([])
    ensures forall w :: Flying(pcs, w) ==> Flying(pcs[t := Idle(None)], w)
  {
    forall w | Flying(pcs, w) ensures Flying(pcs[t := Idle(None)], w) {
      var u :| 0 <= u < |pcs| && pcs[u].Waking? && w in pcs[u].list;
      assert pcs[t := Idle(None)][u].Waking? && w in pcs[t := Idle(None)][u].list;
    }
  }

  lemma StepKeepsInv<T>(s: State<T>, t: nat, c: Choice<T>)
    requires Allowed(s, t, c) && Inv(s)
    ensures Inv(Step(s, t, c)) && Step(s, t, c).core.capacity == s.core.capacity
  {
    StepKeepsCore(s, t, c);
    StepKeepsHandles(s, t, c);
    StepKeepsSleepers(s, t, c);
    StepKeepsWaiters(s, t, c);
    StepKeepsFlow(s, t, c);
  }

  // ----- what this means -----

  /** No wakeup is lost: a pending future to which an item or the end is available has been woken, or is about to be. */
  lemma NoPollIsLost<T>(s: State<T>, f: nat)
    requires Inv(s) && f < |s.futures| && s.futures[f].live && s.futures[f].pending
    requires s.core.buffer != [] || s.core.closed
    ensures s.futures[f].woken || (s.futures[f].waiter.Some? && Flying(s.pcs, Registration(s.futures[f])))
  {
    assert Awaited(s, s.futures[f]);
  }

  /** The end is reported only when every sender is gone and the buffer is empty. */
  lemma EndMeansDrained<T>(s: State<T>, t: nat, f: nat, waker: nat)
    requires Inv(s) && t < |s.pcs| && s.pcs[t].Idle? && Allowed(s, t, Poll(f, waker))
    ensures PollNext(s.core, s.futures[f].waiter, waker).1 == End <==> s.handles == {} && s.core.buffer == []
  {
  }

  /** After the end has been reported nothing enters and nothing leaves. */
  lemma EndIsFinal<T>(s: State<T>, t: nat, c: Choice<T>)
    requires Inv(s) && Allowed(s, t, c) && s.ended
    ensures var r := Step(s, t, c); r.ended && r.entered == s.entered && Items(r.left) == Items(s.left)
  {
    ItemsCleared(s.left, s.core.buffer);
  }

  /** Items leave at the end of the history, and one that is not taken leaves by such a step. */
  ghost predicate LosesOnly<T>(before: seq<Departure<T>>, after: seq<Departure<T>>, lossy: bool) {
    && |before| <= |after| && after[..|before|] == before
    && (forall i :: |before| <= i < |after| && !after[i].taken ==> lossy)
  }

  predicate Lossy<T>(s: State<T>, c: Choice<T>) {
    c.ClearBuffer? || (c.PushLossy? && |s.core.buffer| == s.core.capacity)
  }

  /** Items are lost only by a push on a full buffer or by clearing it. */
  lemma OnlyLossyStepsLose<T>(s: State<T>, t: nat, c: Choice<T>)
    requires Inv(s) && Allowed(s, t, c)
    ensures LosesOnly(s.left, Step(s, t, c).left, Lossy(s, c))
  {
    if s.pcs[t].Idle? {
      match c
      case PushLossy(item) => PushLoses(s, t, item);
      case Poll(f, waker) => PollLoses(s, t, f, waker);
      case _ =>
    }
  }

  lemma PushLoses<T>(s: State<T>, t: nat, item: T)
    requires CoreOk(s.core) && t < |s.pcs|
    ensures LosesOnly(s.left, StepPushLossy(s, t, item).left, |s.core.buffer| == s.core.capacity)
  {
  }

  lemma PollLoses<T>(s: State<T>, t: nat, f: nat, waker: nat)
    requires t < |s.pcs| && f < |s.futures|
    ensures LosesOnly(s.left, StepPoll(s, t, f, waker).left, false)
  {
  }

  // ----- runs -----

  datatype Turn<+T> = Turn(thread: nat, choice: Choice<T>)

  predicate RunAllowed<T>(s: State<T>, turns: seq<Turn<T>>)
    decreases |turns|
  {
    || turns == []
    || (Allowed(s, turns[0].thread, turns[0].choice)
        && RunAllowed(Step(s, turns[0].thread, turns[0].choice), turns[1..]))
  }

  function Run<T>(s: State<T>, turns: seq<Turn<T>>): State<T>
    requires RunAllowed(s, turns)
    decreases |turns|
  {
    if turns == [] then s else Run(Step(s, turns[0].thread, turns[0].choice), turns[1..])
  }

  lemma {:induction false} RunKeepsInv<T>(s: State<T>, turns: seq<Turn<T>>)
    requires Inv(s) && RunAllowed(s, turns)
    ensures Inv(Run(s, turns)) && Run(s, turns).core.capacity == s.core.capacity
    decreases |turns|
  {
    if turns == [] {
    } else {
      StepKeepsInv(s, turns[0].thread, turns[0].choice);
      RunKeepsInv(Step(s, turns[0].thread, turns[0].choice), turns[1..]);
    }
  }

  /** In every interleaving of any number of threads: the invariant holds, the buffer keeps within the capacity asked
  for, what entered has left or is buffered, in order, and the stream is closed just when no sender is left of those
  made. */
  lemma {:induction false} EveryRun<T>(capacity: nat, threads: nat, turns: seq<Turn<T>>)
    requires capacity > 0 && RunAllowed(Initial<T>(capacity, threads), turns)
    ensures var s := Run(Initial<T>(capacity, threads), turns);
            && Inv(s) && |s.core.buffer| <= capacity && s.entered == Items(s.left) + s.core.buffer
            && (s.core.closed <==> s.handles == {}) && (forall h :: h in s.handles ==> h < s.made)
  {
    InitialInv<T>(capacity, threads);
    RunKeepsInv(Initial<T>(capacity, threads), turns);
  }
}
