/** No poll of the ring is left asleep, and its stream ends only when it is closed and empty. */
module SpscWakeups {
  import opened Options
  import R = RingMachine
  import I = RingInvariant
  import W = AtomicWaker
  import opened Spsc

  // ----- what a step of the ring can change -----

  /** Only claiming a free slot, or storing the write cursor in an overwrite, moves the write cursor. */
  lemma WriteStays<T>(s: R.State<T>, t: nat, c: R.Choice<T>)
    requires R.Shaped(s) && t < |s.threads| && !s.threads[t].PushClaim? && !s.threads[t].PushAdvance?
    ensures var r := R.Step(s, t, c); r.write == s.write && r.read >= s.read
  {
    var pc := s.threads[t];
    if pc.PopLoad? || pc.PopStamp? || pc.PopClaim? || pc.PopRead? || pc.PopFree? || pc.PopCheckWrite? {
      PopLeavesWrite(s, t, c);
    } else if !pc.Idle? && !pc.LenLoadRead? && !pc.LenLoadWrite? && !pc.LenCheck? {
      PushLeavesWrite(s, t, c);
    }
  }

  lemma PopLeavesWrite<T>(s: R.State<T>, t: nat, c: R.Choice<T>)
    requires R.Shaped(s) && t < |s.threads|
    ensures var r := R.StepPop(s, t, c); r.write == s.write && r.read >= s.read
  {
  }

  lemma PushLeavesWrite<T>(s: R.State<T>, t: nat, c: R.Choice<T>)
    requires R.Shaped(s) && t < |s.threads| && !s.threads[t].PushClaim? && !s.threads[t].PushAdvance?
    ensures var r := R.StepPush(s, t, c); r.write == s.write && r.read >= s.read
  {
  }

  /** An empty ring becomes non-empty only by a thread that then owes a wakeup. */
  lemma RingFills<T>(s: R.State<T>, t: nat, c: R.Choice<T>)
    requires I.Inv(s) && t < |s.threads|
    ensures var r := R.Step(s, t, c);
            r.read < r.write ==> s.read < s.write || Entered(r.threads[t])
  {
    if !s.threads[t].PushClaim? && !s.threads[t].PushAdvance? {
      WriteStays(s, t, c);
    }
  }

  lemma PopEmpties<T>(s: R.State<T>, t: nat, c: R.Choice<T>)
    requires I.Inv(s) && t < |s.threads| && InPop(s.threads[t]) && !s.threads[t].Idle?
    ensures var r := R.Step(s, t, c);
            && InPop(r.threads[t])
            && r.write == s.write
            && (r.threads[t].Idle? && r.threads[t].last.Empty? ==> r.read == r.write)
  {
    assert I.ThreadOk(s, t);
  }

  lemma PushGoesOn<T>(s: R.State<T>, t: nat, c: R.Choice<T>)
    requires I.Inv(s) && t < |s.threads| && InPushing(s.threads[t]) && !s.threads[t].Idle?
    ensures InPushing(R.Step(s, t, c).threads[t])
    ensures Entered(s.threads[t]) ==> Entered(R.Step(s, t, c).threads[t])
  {
    assert I.ThreadOk(s, t);
  }

  lemma LenGoesOn<T>(s: R.State<T>, t: nat, c: R.Choice<T>)
    requires I.Inv(s) && t < |s.threads| && InLen(s.threads[t]) && !s.threads[t].Idle?
    ensures InLen(R.Step(s, t, c).threads[t]) && R.Step(s, t, c).write == s.write
  {
  }

  lemma OnlyTaskRegisters<T>(s: State<T>)
    requires Inv(s)
    ensures W.OnlyRegisters(s.bell, 0)
  {
    forall t: nat | t < |s.bell.pcs| && t != 0 ensures !W.IsRegister(s.bell.pcs[t]) {
      assert ProducerOk(s, t);
    }
  }

  /** While the task is not registering, the REGISTERING bit is clear. */
  lemma NotRegistering<T>(s: State<T>)
    requires Inv(s) && s.bell.pcs[0].Quiet?
    ensures s.bell.state == W.WAITING || s.bell.state == W.WAKING
  {
    OnlyTaskRegisters(s);
    if s.bell.holder.Some? {
      assert W.ThreadOk(s.bell, s.bell.holder.value);
    }
  }

  // ----- what other threads do to the task -----

  /** A step of a producer keeps whatever the task relies on. */
  ghost predicate Serves<T>(s: State<T>, r: State<T>) {
    && Shaped(s) && Shaped(r) && |r.modes| == |s.modes|
    && r.phase == s.phase && r.waker == s.waker
    && r.ring.threads[0] == s.ring.threads[0] && r.bell.pcs[0] == s.bell.pcs[0]
    && (W.Kept(s.bell, s.waker) ==> W.Kept(r.bell, s.waker))
    && (W.Registers(s.bell, 0, s.waker) ==> W.Registers(r.bell, 0, s.waker))
    && (W.Kept(s.bell, s.waker) && (Available(s) ==> Owed(s)) && Available(r) ==> Owed(r))
    && (W.Kept(s.bell, s.waker) && (s.ring.read < s.ring.write ==> Owed(s)) && r.ring.read < r.ring.write ==> Owed(r))
    && (s.closed ==> r.closed && (s.ring.read == s.ring.write ==> r.ring.read == r.ring.write))
  }

  lemma ServesTask<T>(s: State<T>, r: State<T>)
    requires Serves(s, r) && TaskOk(s)
    ensures TaskOk(r)
  {
  }

  lemma RingStepServes<T>(s: State<T>, t: nat, c: R.Choice<T>, mode: Mode)
    requires Inv(s) && 0 < t < |s.modes|
    requires s.modes[t] == mode || (s.modes[t] == Resting && c.BeginPush? && mode == InPush && !s.closed)
             || (s.modes[t] == Resting && (c.BeginPop? || c.BeginLen?) && mode == InCall)
    requires s.modes[t] == InPush || s.modes[t] == InCall ==> !s.ring.threads[t].Idle?
    requires mode != Waking && mode != Resting
    ensures var r := RingStep(s, t, c).(modes := s.modes[t := mode]); Serves(s, r)
  {
    var r := RingStep(s, t, c).(modes := s.modes[t := mode]);
    assert ProducerOk(s, t);
    I.StepKeepsInv(s.ring, t, c);
    RingFills(s.ring, t, c);
    if mode == InPush && s.modes[t] == InPush { PushGoesOn(s.ring, t, c); }
    if s.modes[t] == InCall && InPop(s.ring.threads[t]) { PopEmpties(s.ring, t, c); }
    if s.modes[t] == InCall && InLen(s.ring.threads[t]) { LenGoesOn(s.ring, t, c); }
    if Owed(s) && !W.Coming(s.bell, s.waker) {
      var u: nat :| 0 < u < |s.modes| && s.modes[u] == InPush && Entered(s.ring.threads[u]);
      assert r.modes[u] == InPush && Entered(r.ring.threads[u]);
    }
    if r.ring.read < r.ring.write && !(s.ring.read < s.ring.write) {
      assert r.modes[t] == InPush && Entered(r.ring.threads[t]);
    }
  }

  /** A waking thread carries on; it keeps the registration and whatever wake is in flight. */
  lemma BellStepServes<T>(s: State<T>, t: nat)
    requires Inv(s) && 0 < t < |s.modes| && s.modes[t] == Waking
    ensures Serves(s, BellStep(s, t))
  {
    var r := BellStep(s, t);
    assert ProducerOk(s, t);
    OnlyTaskRegisters(s);
    if W.Kept(s.bell, s.waker) { W.StepKeepsKept(s.bell, t, s.waker); }
    if W.Registers(s.bell, 0, s.waker) { W.StepKeepsRegisters(s.bell, 0, s.waker, t); }
    if W.Kept(s.bell, s.waker) && W.Coming(s.bell, s.waker) { W.StepKeepsComing(s.bell, t, s.waker); }
    if Owed(s) && !W.Coming(s.bell, s.waker) {
      var u: nat :| 0 < u < |s.modes| && s.modes[u] == InPush && Entered(s.ring.threads[u]);
      assert r.modes[u] == InPush && Entered(r.ring.threads[u]);
    }
  }

  /** Calling `wake` after a push or the close hands the debt to the waker. */
  lemma AskServes<T>(s: State<T>, t: nat, closed: bool)
    requires Inv(s) && 0 < t < |s.modes| && (s.closed ==> closed)
    requires s.modes[t] != Waking
    ensures var r := s.(closed := closed, bell := W.At(s.bell, t, W.TakeOr), modes := s.modes[t := Waking]);
            Serves(s, r)
  {
    var r := s.(closed := closed, bell := W.At(s.bell, t, W.TakeOr), modes := s.modes[t := Waking]);
    assert ProducerOk(s, t);
    assert r.bell.pcs[t] == W.TakeOr;
    W.KeptElsewhere(s.bell, r.bell, t, s.waker);
    assert W.Coming(r.bell, s.waker);
  }

  /** Leaving a call without owing a wakeup. */
  lemma RestServes<T>(s: State<T>, t: nat)
    requires Inv(s) && 0 < t < |s.modes|
    requires s.modes[t] == InPush ==> !Entered(s.ring.threads[t])
    ensures Serves(s, s.(modes := s.modes[t := Resting]))
  {
    var r := s.(modes := s.modes[t := Resting]);
    if Owed(s) && !W.Coming(s.bell, s.waker) {
      var u: nat :| 0 < u < |s.modes| && s.modes[u] == InPush && Entered(s.ring.threads[u]);
      assert r.modes[u] == InPush && Entered(r.ring.threads[u]);
    }
  }

  /** A thread at rest begins a call, or closes the ring. */
  lemma RestingServes<T>(s: State<T>, t: nat, c: Choice<T>)
    requires Inv(s) && 0 < t < |s.modes| && s.modes[t] == Resting
    ensures Serves(s, StepProducer(s, t, c))
  {
    match c
    case Push(item, overwrite) =>
      if !s.closed { RingStepServes(s, t, R.BeginPush(item, overwrite), InPush); }
    case Pop => RingStepServes(s, t, R.BeginPop, InCall);
    case Length => RingStepServes(s, t, R.BeginLen, InCall);
    case Close => AskServes(s, t, true);
    case _ =>
  }

  /** Every step of a producer serves the task. */
  lemma ProducerServes<T>(s: State<T>, t: nat, c: Choice<T>)
    requires Inv(s) && 0 < t < |s.modes|
    ensures Serves(s, StepProducer(s, t, c))
  {
    assert ProducerOk(s, t);
    match s.modes[t]
    case Resting => RestingServes(s, t, c);
    case InPush =>
      if !s.ring.threads[t].Idle? {
        RingStepServes(s, t, RingChoice(c), InPush);
        assert s.modes[t := InPush] == s.modes;
      } else if s.ring.threads[t].last.Pushed? {
        AskServes(s, t, s.closed);
      } else {
        RestServes(s, t);
      }
    case InCall =>
      if !s.ring.threads[t].Idle? {
        RingStepServes(s, t, RingChoice(c), InCall);
        assert s.modes[t := InCall] == s.modes;
      } else {
        RestServes(s, t);
      }
    case Waking =>
      if s.bell.pcs[t].Quiet? { RestServes(s, t); } else { BellStepServes(s, t); }
  }

  // ----- the other threads -----

  lemma ProducerKeepsOthers<T>(s: State<T>, t: nat, c: Choice<T>, u: nat)
    requires Inv(s) && 0 < t < |s.modes| && 0 < u < |s.modes|
    requires I.Inv(StepProducer(s, t, c).ring) && W.Inv(StepProducer(s, t, c).bell) && Shaped(StepProducer(s, t, c))
    ensures ProducerOk(StepProducer(s, t, c), u)
  {
    assert ProducerOk(s, t) && ProducerOk(s, u);
    if u == t {
      ProducerKeepsItself(s, t, c);
    } else {
      OthersStay(s, t, c, u);
    }
  }

  /** A step of one producer leaves the others where they are; the producer closes only when none is pushing. */
  lemma OthersStay<T>(s: State<T>, t: nat, c: Choice<T>, u: nat)
    requires Shaped(s) && 0 < t < |s.modes| && u < |s.modes| && u != t
    ensures var r := StepProducer(s, t, c);
            && r.modes[u] == s.modes[u] && r.ring.threads[u] == s.ring.threads[u] && r.bell.pcs[u] == s.bell.pcs[u]
            && (r.closed == s.closed || s.modes[u] == Resting || s.modes[u] == InCall)
  {
  }

  lemma ProducerKeepsItself<T>(s: State<T>, t: nat, c: Choice<T>)
    requires Shaped(s) && I.Inv(s.ring) && 0 < t < |s.modes| && ProducerOk(s, t)
    requires W.Inv(StepProducer(s, t, c).bell)
    ensures ProducerOk(StepProducer(s, t, c), t)
  {
    var ring := s.ring.threads[t];
    assert W.ThreadOk(StepProducer(s, t, c).bell, t);
    if s.modes[t] == InPush && !ring.Idle? {
      PushGoesOn(s.ring, t, RingChoice(c));
    } else if s.modes[t] == InCall && !ring.Idle? && InPop(ring) {
      PopEmpties(s.ring, t, RingChoice(c));
    } else if s.modes[t] == InCall && !ring.Idle? {
      LenGoesOn(s.ring, t, RingChoice(c));
    }
  }

  lemma ProducerKeepsParts<T>(s: State<T>, t: nat, c: Choice<T>)
    requires Inv(s) && 0 < t < |s.modes|
    ensures var r := StepProducer(s, t, c); Shaped(r) && I.Inv(r.ring) && W.Inv(r.bell)
  {
    assert ProducerOk(s, t);
    var ringChoice := match c
      case Push(item, overwrite) => R.BeginPush(item, overwrite)
      case Pop => R.BeginPop
      case Length => R.BeginLen
      case _ => RingChoice(c);
    I.StepKeepsInv(s.ring, t, ringChoice);
    I.StepKeepsInv(s.ring, t, RingChoice(c));
    W.StepKeepsInv(s.bell, t);
    W.MoveKeepsInv(s.bell, t, W.Wake);
  }

  lemma ProducerKeepsInv<T>(s: State<T>, t: nat, c: Choice<T>)
    requires Inv(s) && 0 < t < |s.modes|
    ensures Inv(StepProducer(s, t, c))
  {
    var r := StepProducer(s, t, c);
    ProducerKeepsParts(s, t, c);
    ProducerServes(s, t, c);
    ServesTask(s, r);
    forall u: nat | 0 < u < |r.modes| ensures ProducerOk(r, u) {
      ProducerKeepsOthers(s, t, c, u);
    }
  }

  // ----- the task -----

  /** A step of the task leaves the producers where they are. */
  lemma TaskLeavesProducers<T>(s: State<T>, r: State<T>)
    requires Inv(s) && Shaped(r) && r.modes == s.modes && r.closed == s.closed
    requires forall u :: 0 < u < |s.modes| ==> r.ring.threads[u] == s.ring.threads[u] && r.bell.pcs[u] == s.bell.pcs[u]
    ensures forall u: nat :: 0 < u < |s.modes| ==> ProducerOk(r, u)
  {
    forall u: nat | 0 < u < |s.modes| ensures ProducerOk(r, u) {
      assert ProducerOk(s, u);
    }
  }

  lemma AfterPopKeepsInv<T>(s: State<T>, c: Choice<T>, whenEmpty: Phase<T>)
    requires Inv(s)
    requires (s.phase == Pop1 && whenEmpty == Closed1) || (s.phase == Pop2 && whenEmpty == Closed2)
             || (s.phase == PopLast && whenEmpty == Ready(None))
    ensures Inv(AfterPop(s, c, whenEmpty))
  {
    var r := AfterPop(s, c, whenEmpty);
    if !s.ring.threads[0].Idle? {
      I.StepKeepsInv(s.ring, 0, RingChoice(c));
      PopEmpties(s.ring, 0, RingChoice(c));
    }
    TaskLeavesProducers(s, r);
    if Owed(s) && !W.Coming(s.bell, s.waker) {
      var u: nat :| 0 < u < |s.modes| && s.modes[u] == InPush && Entered(s.ring.threads[u]);
      assert r.modes[u] == InPush && Entered(r.ring.threads[u]);
    }
  }

  lemma BeginPopKeepsInv<T>(s: State<T>, phase: Phase<T>)
    requires Inv(s) && s.ring.threads[0].Idle? && s.bell.pcs[0].Quiet?
    requires phase == Pop1 || (phase == PopLast && s.closed) || (phase == Pop2 && W.Kept(s.bell, s.waker))
    ensures Inv(BeginPop(s, phase))
  {
    I.StepKeepsInv(s.ring, 0, R.BeginPop);
    TaskLeavesProducers(s, BeginPop(s, phase));
  }

  lemma RegisterKeepsInv<T>(s: State<T>)
    requires Inv(s) && s.phase == Register && !s.bell.pcs[0].Quiet?
    ensures Inv(BellStep(s, 0))
  {
    W.StepKeepsInv(s.bell, 0);
    OnlyTaskRegisters(s);
    W.StepKeepsRegisters(s.bell, 0, s.waker, 0);
    TaskLeavesProducers(s, BellStep(s, 0));
  }

  lemma CheckKeepsInv<T>(s: State<T>, c: Choice<T>)
    requires Inv(s) && (s.phase == Closed1 || s.phase == Closed2) && !s.closed
    ensures Inv(StepTask(s, c))
  {
    var r := StepTask(s, c);
    TaskLeavesProducers(s, r);
    if s.phase == Closed1 {
      NotRegistering(s);
      W.MoveKeepsInv(s.bell, 0, W.Register(s.waker));
    } else if Owed(s) && !W.Coming(s.bell, s.waker) {
      var u: nat :| 0 < u < |s.modes| && s.modes[u] == InPush && Entered(s.ring.threads[u]);
      assert r.modes[u] == InPush && Entered(r.ring.threads[u]);
    }
  }

  lemma PollKeepsInv<T>(s: State<T>, waker: W.Waker)
    requires Inv(s) && s.ring.threads[0].Idle? && s.bell.pcs[0].Quiet?
    ensures Inv(BeginPop(s, Pop1).(waker := waker, bell := s.bell.(notified := s.bell.notified - {waker})))
  {
    var a := BeginPop(s, Pop1);
    var r := a.(waker := waker, bell := s.bell.(notified := s.bell.notified - {waker}));
    BeginPopKeepsInv(s, Pop1);
    W.ForgetKeepsInv(s.bell, waker);
    TaskLeavesProducers(a, r);
  }

  lemma TaskKeepsInv<T>(s: State<T>, c: Choice<T>)
    requires Inv(s)
    ensures Inv(StepTask(s, c))
  {
    match s.phase
    case Pop1 => AfterPopKeepsInv(s, c, Closed1);
    case Pop2 => AfterPopKeepsInv(s, c, Closed2);
    case PopLast => AfterPopKeepsInv(s, c, Ready(None));
    case Closed1 => if s.closed { BeginPopKeepsInv(s, PopLast); } else { CheckKeepsInv(s, c); }
    case Closed2 => if s.closed { BeginPopKeepsInv(s, PopLast); } else { CheckKeepsInv(s, c); }
    case Register => if s.bell.pcs[0].Quiet? { BeginPopKeepsInv(s, Pop2); } else { RegisterKeepsInv(s); }
    case _ => if c.Poll? { PollKeepsInv(s, c.waker); }
  }

  lemma StepKeepsInv<T>(s: State<T>, t: nat, c: Choice<T>)
    requires Inv(s) && t < |s.modes|
    ensures Inv(Step(s, t, c))
  {
    if t == 0 { TaskKeepsInv(s, c); } else { ProducerKeepsInv(s, t, c); }
  }

  // ----- runs -----

  function Run<T>(s: State<T>, schedule: seq<(nat, Choice<T>)>): (r: State<T>)
    requires Shaped(s) && forall i :: 0 <= i < |schedule| ==> schedule[i].0 < |s.modes|
    ensures Shaped(r) && |r.modes| == |s.modes|
    decreases |schedule|
  {
    if schedule == [] then s
    else
      var last := schedule[|schedule| - 1];
      Step(Run(s, schedule[..|schedule| - 1]), last.0, last.1)
  }

  lemma {:induction false} RunKeepsInv<T>(s: State<T>, schedule: seq<(nat, Choice<T>)>)
    requires Inv(s) && forall i :: 0 <= i < |schedule| ==> schedule[i].0 < |s.modes|
    ensures Inv(Run(s, schedule))
    decreases |schedule|
  {
    if schedule == [] {
    } else {
      var front, last := schedule[..|schedule| - 1], schedule[|schedule| - 1];
      RunKeepsInv(s, front);
      StepKeepsInv(Run(s, front), last.0, last.1);
    }
  }

  /** In every run: a task whose poll returned Pending while an item is in the ring, or the producer has closed,
      has been notified since that poll, or a push or wake that will notify it is still in progress; and a poll
      returns the end of the stream only when the producer has closed and the ring is empty. */
  lemma {:induction false} NoPollIsLost<T>(capacity: int, threads: nat, schedule: seq<(nat, Choice<T>)>)
    requires capacity >= 1 && threads >= 1
    requires forall i :: 0 <= i < |schedule| ==> schedule[i].0 < threads
    ensures var s := Run(Initial(capacity, threads), schedule);
            && (s.phase == Pending && (s.ring.read < s.ring.write || s.closed) ==> Owed(s))
            && (s.phase == Ready(None) ==> s.closed && s.ring.read == s.ring.write)
  {
    var start := Initial<T>(capacity, threads);
    I.InitialInv<T>(capacity, threads);
    W.InitialInv(threads);
    RunKeepsInv(start, schedule);
    assert TaskOk(Run(start, schedule));
  }

  /** With every other thread at rest, such a task has been notified. */
  lemma RestedTaskIsNotified<T>(s: State<T>)
    requires Inv(s) && s.phase == Pending && (s.ring.read < s.ring.write || s.closed)
    requires forall t :: 0 < t < |s.modes| ==> s.modes[t] == Resting
    ensures s.waker in s.bell.notified
  {
    assert TaskOk(s);
    forall t: nat | t < |s.bell.pcs| ensures s.bell.pcs[t].Quiet? {
      if t > 0 { assert ProducerOk(s, t); }
    }
  }
}
