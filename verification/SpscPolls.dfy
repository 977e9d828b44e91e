/** What the polls of the ring return: the items that were popped for them, in order, and no others. */
module SpscPolls {
  import opened Options
  import R = RingMachine
  import I = RingInvariant
  import F = RingFifo
  import L = RingSolo
  import W = AtomicWaker
  import opened Spsc
  import opened SpscWakeups

  // ----- what a poll answers -----

  predicate Polling<T>(phase: Phase<T>) {
    phase != NotPolling && phase != Pending && !phase.Ready?
  }

  /** Where the task is, what its last pop came to. */
  ghost predicate AnswerOk<T>(s: State<T>)
    requires Shaped(s)
  {
    match s.phase
    case Closed1 => s.ring.threads[0] == R.Idle(R.Empty)
    case Register => s.ring.threads[0] == R.Idle(R.Empty)
    case Closed2 => s.ring.threads[0] == R.Idle(R.Empty)
    case Pending => s.ring.threads[0] == R.Idle(R.Empty)
    case Ready(None) => s.ring.threads[0] == R.Idle(R.Empty)
    case Ready(Some(item)) => s.ring.threads[0] == R.Idle(R.Popped(item))
    case _ => true
  }

  lemma AfterPopKeepsAnswer<T>(s: State<T>, c: Choice<T>, whenEmpty: Phase<T>)
    requires Inv(s)
    requires (s.phase == Pop1 && whenEmpty == Closed1) || (s.phase == Pop2 && whenEmpty == Closed2)
             || (s.phase == PopLast && whenEmpty == Ready(None))
    ensures AnswerOk(AfterPop(s, c, whenEmpty))
  {
  }

  lemma TaskKeepsAnswer<T>(s: State<T>, c: Choice<T>)
    requires Inv(s) && AnswerOk(s)
    ensures AnswerOk(StepTask(s, c))
  {
    match s.phase
    case Pop1 => AfterPopKeepsAnswer(s, c, Closed1);
    case Pop2 => AfterPopKeepsAnswer(s, c, Closed2);
    case PopLast => AfterPopKeepsAnswer(s, c, Ready(None));
    case _ =>
  }

  lemma StepKeepsAnswer<T>(s: State<T>, t: nat, c: Choice<T>)
    requires Inv(s) && AnswerOk(s) && t < |s.modes|
    ensures AnswerOk(Step(s, t, c))
  {
    if t == 0 {
      TaskKeepsAnswer(s, c);
    } else {
      ProducerServes(s, t, c);
    }
  }

  /** An item that the task has just taken out of the ring. */
  function TaskPopped<T>(before: State<T>, after: State<T>): seq<T>
    requires 0 < |before.ring.threads| && 0 < |after.ring.threads|
  {
    var pc := after.ring.threads[0];
    if !before.ring.threads[0].Idle? && pc.Idle? && pc.last.Popped? then [pc.last.item] else []
  }

  /** An item that a poll has just returned. */
  function PollReturned<T>(before: State<T>, after: State<T>): seq<T> {
    if Polling(before.phase) && after.phase.Ready? && after.phase.result.Some? then [after.phase.result.value] else []
  }

  /** An item that has been popped for a poll that has not returned yet. */
  function InHand<T>(s: State<T>): seq<T>
    requires 0 < |s.ring.threads|
  {
    var pc := s.ring.threads[0];
    if Polling(s.phase) && pc.Idle? && pc.last.Popped? then [pc.last.item] else []
  }

  lemma AfterPopHandsOver<T>(s: State<T>, c: Choice<T>, whenEmpty: Phase<T>)
    requires Inv(s)
    requires (s.phase == Pop1 && whenEmpty == Closed1) || (s.phase == Pop2 && whenEmpty == Closed2)
             || (s.phase == PopLast && whenEmpty == Ready(None))
    ensures var r := AfterPop(s, c, whenEmpty); InHand(s) + TaskPopped(s, r) == PollReturned(s, r) + InHand(r)
  {
  }

  lemma TaskHandsOver<T>(s: State<T>, c: Choice<T>)
    requires Inv(s) && AnswerOk(s)
    ensures var r := StepTask(s, c); InHand(s) + TaskPopped(s, r) == PollReturned(s, r) + InHand(r)
  {
    match s.phase
    case Pop1 => AfterPopHandsOver(s, c, Closed1);
    case Pop2 => AfterPopHandsOver(s, c, Closed2);
    case PopLast => AfterPopHandsOver(s, c, Ready(None));
    case _ =>
  }

  lemma StepHandsOver<T>(s: State<T>, t: nat, c: Choice<T>)
    requires Inv(s) && AnswerOk(s) && t < |s.modes|
    ensures var r := Step(s, t, c); InHand(s) + TaskPopped(s, r) == PollReturned(s, r) + InHand(r)
  {
    if t == 0 {
      TaskHandsOver(s, c);
    } else {
      ProducerServes(s, t, c);
    }
  }

  predicate Schedules<T>(threads: nat, schedule: seq<(nat, Choice<T>)>) {
    forall i :: 0 <= i < |schedule| ==> schedule[i].0 < threads
  }

  /** The items the task has popped in a run, in order. */
  ghost function TaskPops<T>(s: State<T>, schedule: seq<(nat, Choice<T>)>): seq<T>
    requires Shaped(s) && Schedules(|s.modes|, schedule)
    decreases |schedule|
  {
    if schedule == [] then []
    else
      var front := schedule[..|schedule| - 1];
      TaskPops(s, front) + TaskPopped(Run(s, front), Run(s, schedule))
  }

  /** The items its polls have returned, in order. */
  ghost function PollItems<T>(s: State<T>, schedule: seq<(nat, Choice<T>)>): seq<T>
    requires Shaped(s) && Schedules(|s.modes|, schedule)
    decreases |schedule|
  {
    if schedule == [] then []
    else
      var front := schedule[..|schedule| - 1];
      PollItems(s, front) + PollReturned(Run(s, front), Run(s, schedule))
  }

  lemma {:induction false} RunHandsOver<T>(s: State<T>, schedule: seq<(nat, Choice<T>)>)
    requires Inv(s) && AnswerOk(s) && InHand(s) == [] && Schedules(|s.modes|, schedule)
    ensures Inv(Run(s, schedule)) && AnswerOk(Run(s, schedule))
    ensures TaskPops(s, schedule) == PollItems(s, schedule) + InHand(Run(s, schedule))
    decreases |schedule|
  {
    if schedule == [] {
    } else {
      var front, last := schedule[..|schedule| - 1], schedule[|schedule| - 1];
      var before, after := Run(s, front), Run(s, schedule);
      RunHandsOver(s, front);
      StepKeepsInv(before, last.0, last.1);
      StepKeepsAnswer(before, last.0, last.1);
      StepHandsOver(before, last.0, last.1);
      Regroup(PollItems(s, front), InHand(before), TaskPopped(before, after), PollReturned(before, after), InHand(after));
    }
  }

  lemma Regroup<T>(items: seq<T>, a: seq<T>, b: seq<T>, x: seq<T>, y: seq<T>)
    requires a + b == x + y
    ensures (items + a) + b == (items + x) + y
  {
    assert (items + a) + b == items + (a + b);
  }

  /** In every run, the items that the task popped are those that its polls returned, in order, but for one that the
      poll in progress is about to return; and a poll that is Pending, or has returned the end, has popped nothing
      last. */
  lemma {:induction false} EveryPollReturns<T>(capacity: int, threads: nat, schedule: seq<(nat, Choice<T>)>)
    requires capacity >= 1 && threads >= 1 && Schedules(threads, schedule)
    ensures var start, s := Initial(capacity, threads), Run(Initial(capacity, threads), schedule);
            && TaskPops(start, schedule) == PollItems(start, schedule) + InHand(s)
            && (!Polling(s.phase) ==> TaskPops(start, schedule) == PollItems(start, schedule))
            && AnswerOk(s)
  {
    var start := Initial<T>(capacity, threads);
    I.InitialInv<T>(capacity, threads);
    W.InitialInv(threads);
    RunHandsOver(start, schedule);
  }

  // ----- one consumer, and producers that do not overwrite -----

  /** A call that takes nothing out of the ring. */
  predicate TakesNothing<T>(pc: R.Pc<T>) {
    match pc
    case Idle(_) => true
    case PushLoad(_, overwrite) => !overwrite
    case PushStamp(_, overwrite, _) => !overwrite
    case PushClaim(_, overwrite, _) => !overwrite
    case PushCheckRead(_, overwrite, _) => !overwrite
    case PushWrite(_, _) => true
    case PushPublish(_, _) => true
    case LenLoadRead => true
    case LenLoadWrite(_) => true
    case LenCheck(_, _, _) => true
    case _ => false
  }

  predicate BeginsNoTaking<T>(c: R.Choice<T>) {
    !c.BeginPop? && (c.BeginPush? ==> !c.overwrite)
  }

  /** `popped` are the items of the first ordinals; the task is at most one ordinal further, with its item. */
  ghost predicate TakenInOrder<T>(s: R.State<T>, popped: seq<T>) {
    && I.Inv(s) && 0 < |s.threads| && popped <= s.entered
    && (forall u :: 0 < u < |s.threads| ==> TakesNothing(s.threads[u]))
    && match s.threads[0]
       case PopRead(pos) => pos == |popped| && s.read == |popped| + 1
       case PopFree(pos, _) => pos == |popped| && s.read == |popped| + 1
       case pc => s.read == |popped| && (InPop(pc) || pc.Idle?)
  }

  lemma PushTakesNothing<T>(s: R.State<T>, t: nat, c: R.Choice<T>)
    requires R.Shaped(s) && 0 < t < |s.threads| && TakesNothing(s.threads[t])
    ensures var r := R.StepPush(s, t, c); TakesNothing(r.threads[t]) && r.read == s.read
  {
  }

  lemma OthersTakeNothing<T>(s: R.State<T>, t: nat, c: R.Choice<T>)
    requires R.Shaped(s) && 0 < t < |s.threads| && TakesNothing(s.threads[t])
    requires s.threads[t].Idle? ==> BeginsNoTaking(c)
    ensures var r := R.Step(s, t, c); TakesNothing(r.threads[t]) && r.read == s.read && r.threads[0] == s.threads[0]
  {
    if !s.threads[t].Idle? && !InLen(s.threads[t]) {
      PushTakesNothing(s, t, c);
    }
  }

  lemma OthersKeepOrder<T>(s: R.State<T>, t: nat, c: R.Choice<T>, popped: seq<T>)
    requires TakenInOrder(s, popped) && 0 < t < |s.threads|
    requires s.threads[t].Idle? ==> BeginsNoTaking(c)
    ensures TakenInOrder(R.Step(s, t, c), popped)
  {
    I.StepKeepsInv(s, t, c);
    OthersTakeNothing(s, t, c);
  }

  /** What a step of the task takes out, if that ends its pop. */
  function Out<T>(before: R.Pc<T>, after: R.Pc<T>): seq<T> {
    if !before.Idle? && after.Idle? && after.last.Popped? then [after.last.item] else []
  }

  /** A pop goes on: it may take the next ordinal, and gives the item out at its end. */
  lemma PopGoesOn<T>(s: R.State<T>, c: R.Choice<T>)
    requires R.Shaped(s) && 0 < |s.threads| && InPop(s.threads[0]) && !s.threads[0].Idle?
    requires s.threads[0].PopRead? ==> R.SlotOf(s, s.threads[0].pos).cell.Init?
    ensures var pc, r := s.threads[0], R.StepPop(s, 0, c);
            && r.entered == s.entered && InPop(r.threads[0])
            && match pc
               case PopClaim(pos) => r.read == s.read || (r.read == s.read + 1 && r.threads[0] == R.PopRead(s.read))
               case PopRead(pos) => r.read == s.read && r.threads[0].PopFree? && r.threads[0].pos == pos
               case PopFree(_, item) => r.read == s.read && r.threads[0] == R.Idle(R.Popped(item))
               case _ => r.read == s.read && !r.threads[0].PopRead? && !r.threads[0].PopFree? && Out(pc, r.threads[0]) == []
  {
  }

  lemma ClaimGoesOn<T>(s: R.State<T>, c: R.Choice<T>)
    requires R.Shaped(s) && 0 < |s.threads| && s.threads[0].PopClaim?
    ensures var r := R.StepPop(s, 0, c);
            if r.read == s.read then r.threads[0] == R.PopLoad
            else r.read == s.read + 1 && r.threads[0] == R.PopRead(s.read)
  {
  }

  lemma TaskStays<T>(s: R.State<T>, c: R.Choice<T>)
    requires R.Shaped(s) && 0 < |s.threads|
    ensures forall u :: 0 < u < |s.threads| ==> R.Step(s, 0, c).threads[u] == s.threads[u]
  {
  }

  lemma TaskKeepsOrder<T>(s: R.State<T>, c: R.Choice<T>, popped: seq<T>)
    requires TakenInOrder(s, popped) && (s.threads[0].Idle? ==> c.BeginPop?)
    ensures TakenInOrder(R.Step(s, 0, c), popped + Out(s.threads[0], R.Step(s, 0, c).threads[0]))
  {
    I.StepKeepsInv(s, 0, c);
    TaskStays(s, c);
    if s.threads[0].Idle? {
      assert popped + [] == popped;
    } else {
      PopKeepsOrder(s, c, popped);
    }
  }

  lemma PopKeepsOrder<T>(s: R.State<T>, c: R.Choice<T>, popped: seq<T>)
    requires TakenInOrder(s, popped) && !s.threads[0].Idle? && I.Inv(R.StepPop(s, 0, c))
    requires forall u :: 0 < u < |s.threads| ==> R.StepPop(s, 0, c).threads[u] == s.threads[u]
    ensures TakenInOrder(R.StepPop(s, 0, c), popped + Out(s.threads[0], R.StepPop(s, 0, c).threads[0]))
  {
    assert I.ThreadOk(s, 0);
    PopGoesOn(s, c);
    if s.threads[0].PopClaim? {
      ClaimGoesOn(s, c);
    }
    if s.threads[0].PopFree? {
      assert s.entered[..|popped| + 1] == s.entered[..|popped|] + [s.entered[|popped|]];
    } else {
      assert popped + [] == popped;
    }
  }

  /** No thread but the task pops, and no push overwrites. */
  predicate LeavesItems<T>(t: nat, c: Choice<T>) {
    t == 0 || (!c.Pop? && (c.Push? ==> !c.overwrite))
  }

  lemma ProducerKeepsOrder<T>(s: State<T>, t: nat, c: Choice<T>, popped: seq<T>)
    requires Inv(s) && TakenInOrder(s.ring, popped) && 0 < t < |s.modes| && LeavesItems(t, c)
    ensures TakenInOrder(StepProducer(s, t, c).ring, popped)
  {
    assert ProducerOk(s, t);
    match s.modes[t]
    case Resting =>
      if c.Push? && !s.closed {
        OthersKeepOrder(s.ring, t, R.BeginPush(c.item, c.overwrite), popped);
      } else if c.Length? {
        OthersKeepOrder(s.ring, t, R.BeginLen, popped);
      }
    case InPush => if !s.ring.threads[t].Idle? { OthersKeepOrder(s.ring, t, RingChoice(c), popped); }
    case InCall => if !s.ring.threads[t].Idle? { OthersKeepOrder(s.ring, t, RingChoice(c), popped); }
    case Waking =>
  }

  lemma AfterPopKeepsOrder<T>(s: State<T>, c: Choice<T>, whenEmpty: Phase<T>, popped: seq<T>)
    requires Inv(s) && TakenInOrder(s.ring, popped)
    ensures TakenInOrder(AfterPop(s, c, whenEmpty).ring, popped + TaskPopped(s, AfterPop(s, c, whenEmpty)))
  {
    if s.ring.threads[0].Idle? {
      assert popped + [] == popped;
    } else {
      TaskKeepsOrder(s.ring, RingChoice(c), popped);
    }
  }

  /** The beginning of a pop takes nothing out yet. */
  lemma BeginKeepsOrder<T>(s: R.State<T>, popped: seq<T>)
    requires TakenInOrder(s, popped) && s.threads[0].Idle?
    ensures TakenInOrder(R.Step(s, 0, R.BeginPop), popped)
  {
    TaskKeepsOrder(s, R.BeginPop, popped);
    assert popped + [] == popped;
  }

  lemma PollKeepsOrder<T>(s: State<T>, c: Choice<T>, popped: seq<T>)
    requires Inv(s) && TakenInOrder(s.ring, popped)
    ensures TakenInOrder(StepTask(s, c).ring, popped + TaskPopped(s, StepTask(s, c)))
  {
    match s.phase
    case Pop1 => AfterPopKeepsOrder(s, c, Closed1, popped);
    case Pop2 => AfterPopKeepsOrder(s, c, Closed2, popped);
    case PopLast => AfterPopKeepsOrder(s, c, Ready(None), popped);
    case _ =>
      BeginKeepsOrder(s.ring, popped);
      assert popped + [] == popped;
  }

  lemma StepKeepsOrder<T>(s: State<T>, t: nat, c: Choice<T>, popped: seq<T>)
    requires Inv(s) && TakenInOrder(s.ring, popped) && t < |s.modes| && LeavesItems(t, c)
    ensures TakenInOrder(Step(s, t, c).ring, popped + TaskPopped(s, Step(s, t, c)))
  {
    if t == 0 {
      PollKeepsOrder(s, c, popped);
    } else {
      ProducerKeepsOrder(s, t, c, popped);
      ProducerServes(s, t, c);
      assert popped + [] == popped;
    }
  }

  lemma {:induction false} RunKeepsOrder<T>(s: State<T>, schedule: seq<(nat, Choice<T>)>)
    requires Inv(s) && TakenInOrder(s.ring, []) && Schedules(|s.modes|, schedule)
    requires forall i :: 0 <= i < |schedule| ==> LeavesItems(schedule[i].0, schedule[i].1)
    ensures Inv(Run(s, schedule)) && TakenInOrder(Run(s, schedule).ring, TaskPops(s, schedule))
    decreases |schedule|
  {
    if schedule == [] {
    } else {
      var front, last := schedule[..|schedule| - 1], schedule[|schedule| - 1];
      RunKeepsOrder(s, front);
      StepKeepsInv(Run(s, front), last.0, last.1);
      StepKeepsOrder(Run(s, front), last.0, last.1, TaskPops(s, front));
    }
  }

  lemma InitialOrder<T>(capacity: int, threads: nat)
    requires capacity >= 1 && threads >= 1
    ensures Inv(Initial<T>(capacity, threads)) && AnswerOk(Initial<T>(capacity, threads))
    ensures InHand(Initial<T>(capacity, threads)) == [] && TakenInOrder(Initial<T>(capacity, threads).ring, [])
  {
    I.InitialInv<T>(capacity, threads);
    W.InitialInv(threads);
  }

  /** With one consumer, and producers that do not overwrite: the polls return the items in the order in which they
      entered, none is left out, and when a poll has returned the end they have returned all that ever entered. */
  lemma {:induction false} EveryPollIsInOrder<T>(capacity: int, threads: nat, schedule: seq<(nat, Choice<T>)>)
    requires capacity >= 1 && threads >= 1 && Schedules(threads, schedule)
    requires forall i :: 0 <= i < |schedule| ==> LeavesItems(schedule[i].0, schedule[i].1)
    ensures var start, s := Initial(capacity, threads), Run(Initial(capacity, threads), schedule);
            && PollItems(start, schedule) <= s.ring.entered
            && (s.phase == Ready(None) ==> PollItems(start, schedule) == s.ring.entered)
  {
    var start := Initial<T>(capacity, threads);
    var s := Run(start, schedule);
    InitialOrder<T>(capacity, threads);
    RunHandsOver(start, schedule);
    RunKeepsOrder(start, schedule);
    var popped := TaskPops(start, schedule);
    assert PollItems(start, schedule) <= popped;
    if s.phase == Ready(None) {
      assert TaskOk(s);
      assert PollItems(start, schedule) + [] == PollItems(start, schedule);
    }
  }

  // ----- what the calls are -----

  /** A producer at rest begins the very call it is asked for, unless the ring has been closed; a closed ring stays
  so. */
  lemma CallsBegin<T>(s: State<T>, t: nat, c: Choice<T>)
    requires Inv(s) && 0 < t < |s.modes| && s.modes[t] == Resting
    ensures var r := Step(s, t, c);
            match c
            case Push(item, overwrite) =>
              if s.closed then r == s else r.modes[t] == InPush && r.ring.threads[t] == R.PushLoad(item, overwrite)
            case Pop => r.modes[t] == InCall && r.ring.threads[t] == R.PopLoad
            case Length => r.modes[t] == InCall && r.ring.threads[t] == R.LenLoadRead
            case Close => if MayClose(s, t) then r.closed && r.modes[t] == Waking else r == s
            case _ => r == s
  {
    assert ProducerOk(s, t);
  }

  /** Inside a call of the ring its next operation is carried out. When the call is over, the thread goes on to wake the task
  if it has pushed an item, and is at rest otherwise; and it is at rest when the wake is over. */
  lemma CallsEnd<T>(s: State<T>, t: nat, c: Choice<T>)
    requires Inv(s) && 0 < t < |s.modes| && s.modes[t] != Resting
    ensures var r, pc := Step(s, t, c), s.ring.threads[t];
            && (s.modes[t] != Waking && !pc.Idle? ==> r == s.(ring := R.Step(s.ring, t, RingChoice(c))))
            && (s.modes[t] == InPush && pc.Idle? && pc.last.Pushed? ==>
                  r == s.(modes := s.modes[t := Waking], bell := W.Move(s.bell, t, W.Wake)))
            && (s.modes[t] != Waking && pc.Idle? && (s.modes[t] == InCall || !pc.last.Pushed?) ==>
                  r == s.(modes := s.modes[t := Resting]))
            && (s.modes[t] == Waking ==>
                  r == if s.bell.pcs[t].Quiet? then s.(modes := s.modes[t := Resting])
                       else s.(bell := W.Move(s.bell, t, W.Advance)))
  {
    assert ProducerOk(s, t);
  }

  lemma ClosedStays<T>(s: State<T>, t: nat, c: Choice<T>)
    requires Inv(s) && t < |s.modes|
    ensures s.closed ==> Step(s, t, c).closed
    ensures Step(s, t, c).closed && !s.closed ==> t > 0 && s.modes[t] == Resting && c == Close
  {
    if t == 0 {
      TaskLeavesClosed(s, c);
    }
  }

  lemma TaskLeavesClosed<T>(s: State<T>, c: Choice<T>)
    requires Shaped(s)
    ensures StepTask(s, c).closed == s.closed
  {
  }

  // ----- a poll that nobody disturbs -----

  /** The task steps alone. */
  function TaskAlone<T>(s: State<T>, steps: nat): (r: State<T>)
    requires R.Shaped(s.ring) && 0 < |s.modes| == |s.ring.threads| == |s.bell.pcs|
    ensures R.Shaped(r.ring) && |r.modes| == |s.modes| == |r.ring.threads| == |r.bell.pcs|
    decreases steps
  {
    if steps == 0 then s else TaskAlone(StepTask(s, Advance), steps - 1)
  }

  /** After some steps of its own the task is at `r`. */
  ghost predicate Reaches<T>(s: State<T>, r: State<T>)
    requires R.Shaped(s.ring) && 0 < |s.modes| == |s.ring.threads| == |s.bell.pcs|
  {
    exists n: nat :: TaskAlone(s, n) == r
  }

  lemma {:induction false} TaskThen<T>(s: State<T>, m: nat, n: nat)
    requires R.Shaped(s.ring) && 0 < |s.modes| == |s.ring.threads| == |s.bell.pcs|
    ensures TaskAlone(s, m + n) == TaskAlone(TaskAlone(s, m), n)
    decreases m
  {
    if m == 0 {
    } else {
      TaskThen(StepTask(s, Advance), m - 1, n);
    }
  }

  lemma ReachesOn<T>(s: State<T>, a: State<T>, r: State<T>)
    requires R.Shaped(s.ring) && 0 < |s.modes| == |s.ring.threads| == |s.bell.pcs| && Reaches(s, a)
    requires R.Shaped(a.ring) && 0 < |a.modes| == |a.ring.threads| == |a.bell.pcs| && Reaches(a, r)
    ensures Reaches(s, r)
  {
    var m: nat :| TaskAlone(s, m) == a;
    var n: nat :| TaskAlone(a, n) == r;
    TaskThen(s, m, n);
  }

  lemma ReachesNext<T>(s: State<T>, a: State<T>)
    requires R.Shaped(s.ring) && 0 < |s.modes| == |s.ring.threads| == |s.bell.pcs| && Reaches(s, a)
    requires R.Shaped(a.ring) && 0 < |a.modes| == |a.ring.threads| == |a.bell.pcs|
    ensures Reaches(s, StepTask(a, Advance))
  {
    var r := StepTask(a, Advance);
    assert TaskAlone(r, 0) == r;
    assert TaskAlone(a, 1) == r;
    ReachesOn(s, a, r);
  }

  lemma {:induction false} IdleStays<T>(s: R.State<T>, steps: nat)
    requires R.Shaped(s) && 0 < |s.threads| && s.threads[0].Idle?
    ensures L.Alone(s, 0, steps) == s
    decreases steps
  {
    if steps == 0 {
    } else {
      IdleStays(s, steps - 1);
    }
  }

  /** The pop inside a poll is a pop of the ring. */
  lemma {:induction false} PopInside<T>(s: State<T>, steps: nat)
    requires R.Shaped(s.ring) && 0 < |s.modes| == |s.ring.threads| == |s.bell.pcs|
    requires s.phase == Pop1 || s.phase == Pop2 || s.phase == PopLast
    requires L.Alone(s.ring, 0, steps).threads[0].Idle?
    ensures Reaches(s, s.(ring := L.Alone(s.ring, 0, steps)))
    decreases steps
  {
    assert TaskAlone(s, 0) == s;
    if s.ring.threads[0].Idle? {
      IdleStays(s.ring, steps);
    } else {
      ReachesNext(s, s);
      PopInside(StepTask(s, Advance), steps - 1);
      ReachesOn(s, StepTask(s, Advance), s.(ring := L.Alone(s.ring, 0, steps)));
    }
  }

  /** Nobody but the task is at work, and the task has polls before it. */
  ghost predicate Rested<T>(s: State<T>) {
    Inv(s) && !Polling(s.phase) && forall t :: 0 < t < |s.modes| ==> s.modes[t] == Resting
  }

  lemma RestedIsQuiet<T>(s: State<T>)
    requires Rested(s)
    ensures L.Undisturbed(s.ring) && s.ring.threads[0].Idle? && s.bell.pcs[0].Quiet? && s.bell.state == W.WAITING
  {
    forall t: nat | t < |s.modes| ensures s.ring.threads[t].Idle? && s.bell.pcs[t].Quiet? {
      if t > 0 { assert ProducerOk(s, t); }
    }
    assert s.bell.holder.Some? ==> W.ThreadOk(s.bell, s.bell.holder.value);
  }

  /** A pop on the empty ring finds nothing. */
  lemma EmptyPop<T>(s: State<T>) returns (r: State<T>)
    requires Shaped(s) && (s.phase == Pop1 || s.phase == Pop2 || s.phase == PopLast)
    requires L.Undisturbed(s.ring) && F.Queue(s.ring) == [] && s.ring.threads[0] == R.PopLoad
    ensures Shaped(r) && Reaches(s, r) && r == s.(ring := r.ring) && r.ring.threads[0] == R.Idle(R.Empty)
    ensures L.Undisturbed(r.ring) && F.Queue(r.ring) == [] && |r.ring.threads| == |s.ring.threads|
  {
    L.PopRuns(s.ring, 0);
    PopInside(s, 3);
    r := s.(ring := L.Alone(s.ring, 0, 3));
  }

  /** The beginning of a pop of the task. */
  lemma PopBegins<T>(s: State<T>, phase: Phase<T>)
    requires Shaped(s) && L.Undisturbed(s.ring) && s.ring.threads[0].Idle?
    ensures var r := BeginPop(s, phase);
            && L.Undisturbed(r.ring) && F.Queue(r.ring) == F.Queue(s.ring) && r.ring.threads[0] == R.PopLoad
            && r == s.(ring := r.ring, phase := phase) && Shaped(r)
  {
    L.CallBegins(s.ring, 0, R.BeginPop, R.PopLoad);
  }

  /** The first pop of a poll finds nothing. */
  lemma FirstPopEmpty<T>(start: State<T>) returns (r: State<T>)
    requires Shaped(start) && start.phase == Pop1 && start.ring.threads[0] == R.PopLoad
    requires L.Undisturbed(start.ring) && F.Queue(start.ring) == []
    ensures Shaped(r) && Reaches(start, r) && r == start.(ring := r.ring, phase := Closed1)
    ensures L.Undisturbed(r.ring) && F.Queue(r.ring) == [] && r.ring.threads[0].Idle?
    ensures |r.ring.threads| == |start.ring.threads|
  {
    var a := EmptyPop(start);
    ReachesNext(start, a);
    r := StepTask(a, Advance);
  }

  /** On a closed empty ring a second pop finds nothing either, and the poll returns the end. */
  lemma EndAlone<T>(s: State<T>) returns (r: State<T>)
    requires Shaped(s) && s.phase == Closed1 && s.closed && s.ring.threads[0].Idle?
    requires L.Undisturbed(s.ring) && F.Queue(s.ring) == []
    ensures Shaped(r) && Reaches(s, r) && r.phase == Ready(None)
  {
    assert TaskAlone(s, 0) == s;
    ReachesNext(s, s);
    PopBegins(s, PopLast);
    var b := EmptyPop(BeginPop(s, PopLast));
    ReachesOn(s, BeginPop(s, PopLast), b);
    ReachesNext(s, b);
    r := StepTask(b, Advance);
  }

  /** Registering alone takes three operations and leaves the waker in the cell. */
  lemma RegisterAlone<T>(s: State<T>) returns (r: State<T>)
    requires Shaped(s) && s.phase == Closed1 && !s.closed && s.bell.state == W.WAITING
    ensures Shaped(r) && Reaches(s, r) && r == s.(bell := r.bell, phase := Register)
    ensures r.bell.pcs[0].Quiet? && r.bell.state == W.WAITING && r.bell.cell == Some(s.waker)
  {
    assert TaskAlone(s, 0) == s;
    ReachesNext(s, s);
    var a := StepTask(s, Advance);
    ReachesNext(s, a);
    var b := StepTask(a, Advance);
    assert b.bell.pcs[0] == W.RegStore(s.waker);
    ReachesNext(s, b);
    var d := StepTask(b, Advance);
    assert d.bell.pcs[0] == W.RegRelease(s.waker);
    ReachesNext(s, d);
    r := StepTask(d, Advance);
  }

  lemma SecondPopEmpty<T>(s: State<T>) returns (r: State<T>)
    requires Shaped(s) && s.phase == Register && s.bell.pcs[0].Quiet? && s.ring.threads[0].Idle?
    requires L.Undisturbed(s.ring) && F.Queue(s.ring) == []
    ensures Shaped(r) && Reaches(s, r) && r == s.(ring := r.ring, phase := Pop2) && r.ring.threads[0] == R.Idle(R.Empty)
  {
    assert TaskAlone(s, 0) == s;
    ReachesNext(s, s);
    PopBegins(s, Pop2);
    r := EmptyPop(BeginPop(s, Pop2));
    ReachesOn(s, BeginPop(s, Pop2), r);
  }

  /** Then the second pop finds nothing, and the poll is Pending. */
  lemma PendingAlone<T>(s: State<T>) returns (r: State<T>)
    requires Shaped(s) && s.phase == Register && !s.closed && s.bell.pcs[0].Quiet? && s.ring.threads[0].Idle?
    requires L.Undisturbed(s.ring) && F.Queue(s.ring) == []
    ensures Shaped(r) && Reaches(s, r) && r.phase == Pending && r.bell == s.bell && r.waker == s.waker
  {
    var b := SecondPopEmpty(s);
    ReachesNext(s, b);
    ReachesNext(s, StepTask(b, Advance));
    r := StepTask(StepTask(b, Advance), Advance);
  }

  lemma ItemAlone<T>(start: State<T>) returns (r: State<T>)
    requires Shaped(start) && start.phase == Pop1 && start.ring.threads[0] == R.PopLoad
    requires L.Undisturbed(start.ring) && F.Queue(start.ring) != []
    ensures Shaped(r) && Reaches(start, r) && r.phase == Ready(Some(F.Queue(start.ring)[0]))
    ensures L.Undisturbed(r.ring) && F.Queue(r.ring) == F.Queue(start.ring)[1..]
  {
    L.PopRuns(start.ring, 0);
    PopInside(start, 5);
    var a := start.(ring := L.Alone(start.ring, 0, 5));
    ReachesNext(start, a);
    r := StepTask(a, Advance);
  }

  /** A poll that nobody disturbs comes to an end: with the oldest item if there is one, with the end if the ring is
      empty and closed, and otherwise as Pending, with its waker registered. */
  lemma PollAlone<T>(s: State<T>, waker: W.Waker) returns (r: State<T>)
    requires Rested(s)
    ensures var start := Step(s, 0, Poll(waker)); Shaped(start) && Shaped(r) && Reaches(start, r)
    ensures var queue := F.Queue(s.ring);
            if queue != [] then
              r.phase == Ready(Some(queue[0])) && I.CursorsOk(r.ring) && F.Queue(r.ring) == queue[1..]
            else if s.closed then r.phase == Ready(None)
            else r.phase == Pending && r.waker == waker && r.bell.cell == Some(waker) && r.bell.state == W.WAITING
  {
    var start := Step(s, 0, Poll(waker));
    RestedIsQuiet(s);
    PopBegins(s, Pop1);
    if F.Queue(s.ring) != [] {
      r := ItemAlone(start);
    } else {
      var a := FirstPopEmpty(start);
      if s.closed {
        r := EndAlone(a);
      } else {
        var b := RegisterAlone(a);
        ReachesOn(start, a, b);
        r := PendingAlone(b);
        a := b;
      }
      ReachesOn(start, a, r);
    }
  }
}
