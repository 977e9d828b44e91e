/** The ring with its waker: producers push and wake, one task polls for the next item.

Thread 0 is the polling task; every other thread may push, overwrite, pop, ask for the length, or, as the last
producer, close.  Each step is one atomic step of the ring or of the waker.
*/
module Spsc {
  import opened Options
  import R = RingMachine
  import I = RingInvariant
  import W = AtomicWaker

  datatype Mode = Resting | InPush | InCall | Waking

  /** Where `poll_pop` of the consumer task is. */
  datatype Phase<+T> =
    | NotPolling
    | Pop1
    | Closed1
    | PopLast
    | Register
    | Pop2
    | Closed2
    | Pending
    | Ready(result: Option<T>)

  datatype State<T> = State(
    ring: R.State<T>,
    bell: W.State,
    closed: bool,
    modes: seq<Mode>,
    phase: Phase<T>,
    waker: W.Waker)

  datatype Choice<+T> =
    | Poll(waker: W.Waker)
    | Push(item: T, overwrite: bool)
    | Pop
    | Length
    | Close
    | Advance
    | FailWeakly

  ghost predicate Shaped<T>(s: State<T>) {
    R.Shaped(s.ring) && 0 < |s.modes| == |s.ring.threads| == |s.bell.pcs|
  }

  function Initial<T>(capacity: int, threads: nat): State<T>
    requires capacity >= 1 && threads >= 1
  {
    State(R.Initial(capacity, threads), W.Initial(threads), false, seq(threads, i => Resting), NotPolling, 0)
  }

  function RingChoice<T>(c: Choice<T>): (r: R.Choice<T>)
    ensures r.FailWeakly? <==> c.FailWeakly?
  {
    if c.FailWeakly? then R.FailWeakly else R.Advance
  }

  function RingStep<T>(s: State<T>, t: nat, c: R.Choice<T>): State<T>
    requires R.Shaped(s.ring) && t < |s.ring.threads|
  {
    s.(ring := R.Step(s.ring, t, c))
  }

  function BellStep<T>(s: State<T>, t: nat): State<T>
    requires t < |s.bell.pcs|
  {
    s.(bell := W.Step(s.bell, t))
  }

  /** `&mut self` of the drop: no other call of the producer is in progress. */
  predicate MayClose<T>(s: State<T>, t: nat) {
    !s.closed && forall u :: 0 <= u < |s.modes| && u != t ==> s.modes[u] == Resting || s.modes[u] == InCall
  }

  function StepProducer<T>(s: State<T>, t: nat, c: Choice<T>): (r: State<T>)
    requires R.Shaped(s.ring) && 0 < t < |s.modes| == |s.ring.threads| == |s.bell.pcs|
    ensures R.Shaped(r.ring) && |r.modes| == |s.modes| == |r.ring.threads| == |r.bell.pcs|
  {
    match s.modes[t]
    case Resting => (
      match c
      case Push(item, overwrite) =>
        if s.closed then s else RingStep(s, t, R.BeginPush(item, overwrite)).(modes := s.modes[t := InPush])
      case Pop => RingStep(s, t, R.BeginPop).(modes := s.modes[t := InCall])
      case Length => RingStep(s, t, R.BeginLen).(modes := s.modes[t := InCall])
      case Close =>
        if MayClose(s, t) then
          s.(closed := true, bell := W.At(s.bell, t, W.TakeOr), modes := s.modes[t := Waking])
        else s
      case _ => s)
    case InPush =>
      if !s.ring.threads[t].Idle? then RingStep(s, t, RingChoice(c))
      else if s.ring.threads[t].last.Pushed? then
        s.(bell := W.At(s.bell, t, W.TakeOr), modes := s.modes[t := Waking])
      else s.(modes := s.modes[t := Resting])
    case InCall =>
      if !s.ring.threads[t].Idle? then RingStep(s, t, RingChoice(c)) else s.(modes := s.modes[t := Resting])
    case Waking =>
      if s.bell.pcs[t].Quiet? then s.(modes := s.modes[t := Resting]) else BellStep(s, t)
  }

  function BeginPop<T>(s: State<T>, phase: Phase<T>): State<T>
    requires R.Shaped(s.ring) && 0 < |s.ring.threads|
  {
    RingStep(s, 0, R.BeginPop).(phase := phase)
  }

  /** After a pop of the task has returned: ready with its item, or on to `whenEmpty`. */
  function AfterPop<T>(s: State<T>, c: Choice<T>, whenEmpty: Phase<T>): State<T>
    requires R.Shaped(s.ring) && 0 < |s.ring.threads|
  {
    match s.ring.threads[0]
    case Idle(Popped(item)) => s.(phase := Ready(Some(item)))
    case Idle(_) => s.(phase := whenEmpty)
    case _ => RingStep(s, 0, RingChoice(c))
  }

  function StepTask<T>(s: State<T>, c: Choice<T>): (r: State<T>)
    requires R.Shaped(s.ring) && 0 < |s.modes| == |s.ring.threads| == |s.bell.pcs|
    ensures R.Shaped(r.ring) && |r.modes| == |s.modes| == |r.ring.threads| == |r.bell.pcs|
  {
    match s.phase
    case Pop1 => AfterPop(s, c, Closed1)
    case Closed1 =>
      if s.closed then BeginPop(s, PopLast)
      else s.(bell := W.At(s.bell, 0, W.RegExchange(s.waker)), phase := Register)
    case PopLast => AfterPop(s, c, Ready(None))
    case Register => if s.bell.pcs[0].Quiet? then BeginPop(s, Pop2) else BellStep(s, 0)
    case Pop2 => AfterPop(s, c, Closed2)
    case Closed2 => if s.closed then BeginPop(s, PopLast) else s.(phase := Pending)
    case _ =>
      // A poll uses up the notifications of its waker so far.
      if c.Poll? then
        BeginPop(s, Pop1).(waker := c.waker, bell := s.bell.(notified := s.bell.notified - {c.waker}))
      else s
  }

  function Step<T>(s: State<T>, t: nat, c: Choice<T>): (r: State<T>)
    requires R.Shaped(s.ring) && t < |s.modes| == |s.ring.threads| == |s.bell.pcs|
    ensures R.Shaped(r.ring) && |r.modes| == |s.modes| == |r.ring.threads| == |r.bell.pcs|
  {
    if t == 0 then StepTask(s, c) else StepProducer(s, t, c)
  }

  // ----- the invariant -----

  /** The thread has appended its item and has yet to ask for the wakeup. */
  predicate Entered<T>(pc: R.Pc<T>) {
    pc.PushWrite? || pc.PushReplace? || pc.PushPublish? || (pc.Idle? && pc.last.Pushed?)
  }

  predicate InPop<T>(pc: R.Pc<T>) {
    || pc.PopLoad? || pc.PopStamp? || pc.PopClaim? || pc.PopRead? || pc.PopFree? || pc.PopCheckWrite?
    || (pc.Idle? && (pc.last.Popped? || pc.last.Empty?))
  }

  predicate InPushing<T>(pc: R.Pc<T>) {
    || pc.PushLoad? || pc.PushStamp? || pc.PushClaim? || pc.PushWrite? || pc.PushCheckRead? || pc.PushTakeOldest?
    || pc.PushAdvance? || pc.PushReplace? || pc.PushPublish?
    || (pc.Idle? && (pc.last.Pushed? || pc.last.Rejected?))
  }

  predicate InLen<T>(pc: R.Pc<T>) {
    pc.LenLoadRead? || pc.LenLoadWrite? || pc.LenCheck? || (pc.Idle? && pc.last.Count?)
  }

  ghost predicate Available<T>(s: State<T>) {
    s.ring.read < s.ring.write || s.closed
  }

  /** The task has been notified since its poll, or a wake is still to come. */
  ghost predicate Owed<T>(s: State<T>) {
    W.Coming(s.bell, s.waker)
    || exists t: nat :: 0 < t < |s.modes| == |s.ring.threads| && s.modes[t] == InPush && Entered(s.ring.threads[t])
  }

  ghost predicate ProducerOk<T>(s: State<T>, t: nat)
    requires Shaped(s) && 0 < t < |s.modes|
  {
    var pc, bell := s.ring.threads[t], s.bell.pcs[t];
    match s.modes[t]
    case Resting => pc.Idle? && bell.Quiet?
    case InPush => InPushing(pc) && bell.Quiet? && !s.closed
    case InCall => (InPop(pc) || InLen(pc)) && bell.Quiet?
    case Waking => pc.Idle? && !W.IsRegister(bell) && !bell.Failed?
  }

  ghost predicate TaskOk<T>(s: State<T>)
    requires Shaped(s)
  {
    var pc, bell := s.ring.threads[0], s.bell.pcs[0];
    match s.phase
    case Pop1 => InPop(pc) && bell.Quiet?
    case Closed1 => pc.Idle? && bell.Quiet?
    case PopLast => InPop(pc) && bell.Quiet? && s.closed && (pc.Idle? && pc.last.Empty? ==> s.ring.read == s.ring.write)
    case Register => pc.Idle? && W.Registers(s.bell, 0, s.waker)
    case Pop2 =>
      InPop(pc) && bell.Quiet? && W.Kept(s.bell, s.waker)
      && (pc.Idle? && pc.last.Empty? && s.ring.read < s.ring.write ==> Owed(s))
    case Closed2 => pc.Idle? && bell.Quiet? && W.Kept(s.bell, s.waker) && (s.ring.read < s.ring.write ==> Owed(s))
    case Pending => pc.Idle? && bell.Quiet? && W.Kept(s.bell, s.waker) && (Available(s) ==> Owed(s))
    case Ready(result) => pc.Idle? && bell.Quiet? && (result.None? ==> s.closed && s.ring.read == s.ring.write)
    case NotPolling => pc.Idle? && bell.Quiet?
  }

  ghost predicate Inv<T>(s: State<T>) {
    && Shaped(s) && I.Inv(s.ring) && W.Inv(s.bell)
    && (forall t: nat :: 0 < t < |s.modes| ==> ProducerOk(s, t))
    && TaskOk(s)
  }
}
