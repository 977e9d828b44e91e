/** The many-sender channel: a queue behind a mutex, and a waker for the one receiver.

Thread 0 owns the receiver; every other thread may own one sender handle.  Each critical section of the mutex is
one step, and each atomic operation of the waker is one step.
*/
module Mpsc {
  import W = AtomicWaker
  import opened Options

  datatype SendResult<+T> = NoSend | Sent | Refused(value: T, full: bool)

  datatype Received<+T> = Got(value: T) | Empty | Closed

  // ----- the critical sections -----

  /** What the mutex protects. `senders` counts handles; `open` falls when the receiver closes or goes. */
  datatype Channel<T> = Channel(queue: seq<T>, capacity: nat, senders: int, open: bool) {
    function Send(value: T): (Channel<T>, SendResult<T>) {
      if !open then (this, Refused(value, false))
      else if |queue| >= capacity then (this, Refused(value, true))
      else (this.(queue := queue + [value]), Sent)
    }

    function TryRecv(): (Channel<T>, Received<T>) {
      if |queue| > 0 then (this.(queue := queue[1..]), Got(queue[0]))
      else if open && senders > 0 then (this, Empty)
      else (this, Closed)
    }

    function Close(): Channel<T> {
      this.(open := false)
    }

    function AddSender(): Channel<T> {
      this.(senders := senders + 1)
    }

    function DropSender(): Channel<T> {
      this.(senders := senders - 1)
    }

    function DropReceiver(): Channel<T> {
      this.(open := false, queue := [])
    }

    /** A receiver that looks now finds a value or the end. */
    predicate HasNews() {
      |queue| > 0 || !open || senders <= 0
    }
  }

  // ----- the machine -----

  datatype Mode<+T> = Resting(last: SendResult<T>) | Waking(last: SendResult<T>)

  datatype Phase<+T> =
    | NotPolling
    | Recv1
    | Register
    | Recv2
    | Pending
    | Ready(result: Option<T>)
    | Tried(outcome: Received<T>)
    | Gone

  /** `accepted` and `received` are the histories of both ends, `ended` whether the end has been reported, and `shut`
  whether the receiver has closed the channel or gone. `owners` are the threads that have a sender. */
  datatype State<T> = State(
    channel: Channel<T>,
    bell: W.State,
    owners: set<nat>,
    modes: seq<Mode<T>>,
    phase: Phase<T>,
    waker: W.Waker,
    accepted: seq<T>,
    received: seq<T>,
    ended: bool,
    shut: bool)

  datatype Choice<+T> =
    | Send(value: T)
    | Clone(thread: nat)
    | DropSender
    | Poll(waker: W.Waker)
    | TryRecv
    | Close
    | DropReceiver
    | Advance

  predicate Shaped<T>(s: State<T>) {
    1 < |s.modes| == |s.bell.pcs|
  }

  function Initial<T>(capacity: nat, threads: nat): State<T>
    requires threads > 1
  {
    State(Channel([], capacity, 1, true), W.Initial(threads), {1}, seq(threads, i => Resting(NoSend)),
          NotPolling, 0, [], [], false, false)
  }

  function SetMode<T>(s: State<T>, t: nat, mode: Mode<T>): State<T>
    requires t < |s.modes|
  {
    s.(modes := s.modes[t := mode])
  }

  /** Leaves the critical section to wake the receiver. */
  function Ask<T>(s: State<T>, t: nat, last: SendResult<T>): State<T>
    requires t < |s.modes| == |s.bell.pcs|
  {
    SetMode(s, t, Waking(last)).(bell := W.At(s.bell, t, W.TakeOr))
  }

  function StepSender<T>(s: State<T>, t: nat, c: Choice<T>): (r: State<T>)
    requires 0 < t < |s.modes| == |s.bell.pcs|
    ensures |r.modes| == |s.modes| && |r.bell.pcs| == |s.bell.pcs| && r.channel.capacity == s.channel.capacity
  {
    match s.modes[t]
    case Waking(last) =>
      if s.bell.pcs[t].Quiet? then SetMode(s, t, Resting(last)) else s.(bell := W.Step(s.bell, t))
    case Resting(_) =>
      if t !in s.owners then s else
      match c
      case Send(value) => (
        var (channel, result) := s.channel.Send(value);
        match result
        case Sent => Ask(s.(channel := channel, accepted := s.accepted + [value]), t, result)
        case _ => SetMode(s, t, Resting(result)))
      case Clone(u) =>
        if 0 < u < |s.modes| && u !in s.owners then
          s.(channel := s.channel.AddSender(), owners := s.owners + {u})
        else s
      case DropSender =>
        var r := s.(channel := s.channel.DropSender(), owners := s.owners - {t});
        if r.channel.senders == 0 then Ask(r, t, NoSend) else r
      case _ => s
  }

  /** One `try_recv` of the receiver; `whenEmpty` is where it goes if the channel is open but empty. */
  function Receive<T>(s: State<T>, whenEmpty: Phase<T>): (r: State<T>)
    ensures r.modes == s.modes && r.bell == s.bell && r.channel.capacity == s.channel.capacity
  {
    var (channel, outcome) := s.channel.TryRecv();
    match outcome
    case Got(value) => s.(channel := channel, received := s.received + [value], phase := Ready(Some(value)))
    case Closed => s.(phase := Ready(None), ended := true)
    case Empty => s.(phase := whenEmpty)
  }

  function AsTried<T>(phase: Phase<T>): Phase<T> {
    match phase
    case Ready(None) => Tried(Closed)
    case Ready(Some(value)) => Tried(Got(value))
    case _ => phase
  }

  function StepReceiver<T>(s: State<T>, c: Choice<T>): (r: State<T>)
    requires 0 < |s.modes| == |s.bell.pcs|
    ensures r.modes == s.modes && |r.bell.pcs| == |s.bell.pcs| && r.channel.capacity == s.channel.capacity
  {
    match s.phase
    case Gone => s
    case Recv1 =>
      var r := Receive(s, Register);
      if r.phase == Register then r.(bell := W.At(s.bell, 0, W.RegExchange(s.waker))) else r
    case Register => if s.bell.pcs[0].Quiet? then s.(phase := Recv2) else s.(bell := W.Step(s.bell, 0))
    case Recv2 => Receive(s, Pending)
    case _ =>
      match c
      case Poll(waker) =>
        s.(phase := Recv1, waker := waker, bell := s.bell.(notified := s.bell.notified - {waker}))
      case TryRecv =>
        var r := Receive(s, Tried(Empty));
        r.(phase := AsTried(r.phase))
      case Close => s.(channel := s.channel.Close(), phase := NotPolling, shut := true)
      case DropReceiver => s.(channel := s.channel.DropReceiver(), phase := Gone, shut := true)
      case _ => s
  }

  function Step<T>(s: State<T>, t: nat, c: Choice<T>): (r: State<T>)
    requires 0 < |s.modes| == |s.bell.pcs| && t < |s.modes|
    ensures |r.modes| == |s.modes| && |r.bell.pcs| == |s.bell.pcs| && r.channel.capacity == s.channel.capacity
  {
    if t == 0 then StepReceiver(s, c) else StepSender(s, t, c)
  }

  // ----- the invariant -----

  ghost predicate SenderOk<T>(s: State<T>, t: nat)
    requires Shaped(s) && 0 < t < |s.modes|
  {
    match s.modes[t]
    case Resting(_) => s.bell.pcs[t].Quiet?
    case Waking(_) => !W.IsRegister(s.bell.pcs[t])
  }

  ghost predicate ReceiverOk<T>(s: State<T>)
    requires Shaped(s)
  {
    match s.phase
    case Register => W.Registers(s.bell, 0, s.waker)
    case Recv2 => s.bell.pcs[0].Quiet? && W.Kept(s.bell, s.waker)
    case Pending =>
      s.bell.pcs[0].Quiet? && W.Kept(s.bell, s.waker) && (s.channel.HasNews() ==> W.Coming(s.bell, s.waker))
    case _ => s.bell.pcs[0].Quiet?
  }

  ghost predicate ChannelOk<T>(s: State<T>) {
    && |s.channel.queue| <= s.channel.capacity
    && s.channel.senders == |s.owners| && 0 !in s.owners
    && (s.channel.open <==> !s.shut)
    && (s.phase != Gone ==> s.accepted == s.received + s.channel.queue)
    && (s.phase == Gone ==> s.received <= s.accepted && s.channel.queue == [] && s.shut)
    && (s.ended ==> s.channel.queue == [] && (!s.channel.open || s.channel.senders == 0))
    && (s.phase == Ready(None) || s.phase == Tried(Closed) ==> s.ended)
    && (Answered(s.phase).Some? ==> s.received != [] && s.received[|s.received| - 1] == Answered(s.phase).value)
  }

  /** The value that the last call of the receiver returned. */
  function Answered<T>(phase: Phase<T>): Option<T> {
    match phase
    case Ready(result) => result
    case Tried(Got(value)) => Some(value)
    case _ => None
  }

  ghost predicate Inv<T>(s: State<T>) {
    && Shaped(s) && W.Inv(s.bell) && ChannelOk(s) && ReceiverOk(s)
    && forall t: nat :: 0 < t < |s.modes| ==> SenderOk(s, t)
  }

  lemma OnlyReceiverRegisters<T>(s: State<T>)
    requires Inv(s)
    ensures W.OnlyRegisters(s.bell, 0)
    ensures s.bell.pcs[0].Quiet? ==> s.bell.state == W.WAITING || s.bell.state == W.WAKING
  {
    forall t: nat | t < |s.bell.pcs| && t != 0 ensures !W.IsRegister(s.bell.pcs[t]) {
      assert SenderOk(s, t);
    }
    if s.bell.holder.Some? { assert W.ThreadOk(s.bell, s.bell.holder.value); }
  }

  /** A waking step keeps what the receiver relies on. */
  lemma WakingKeepsReceiver<T>(s: State<T>, t: nat)
    requires Inv(s) && 0 < t < |s.modes| && s.modes[t].Waking?
    ensures ReceiverOk(s.(bell := W.Step(s.bell, t)))
  {
    assert SenderOk(s, t);
    OnlyReceiverRegisters(s);
    if W.Kept(s.bell, s.waker) { W.StepKeepsKept(s.bell, t, s.waker); }
    if W.Registers(s.bell, 0, s.waker) { W.StepKeepsRegisters(s.bell, 0, s.waker, t); }
    if W.Kept(s.bell, s.waker) && W.Coming(s.bell, s.waker) { W.StepKeepsComing(s.bell, t, s.waker); }
  }

  lemma WakingKeepsInv<T>(s: State<T>, t: nat)
    requires Inv(s) && 0 < t < |s.modes| && s.modes[t].Waking?
    ensures Inv(s.(bell := W.Step(s.bell, t)))
  {
    var r := s.(bell := W.Step(s.bell, t));
    WakingKeepsReceiver(s, t);
    W.StepKeepsInv(s.bell, t);
    forall u: nat | 0 < u < |r.modes| ensures SenderOk(r, u) { assert SenderOk(s, u); }
  }

  /** Whoever makes news asks for the wakeup in the same breath. */
  lemma AskKeepsInv<T>(s: State<T>, a: State<T>, t: nat, last: SendResult<T>)
    requires Inv(s) && 0 < t < |s.modes| && s.modes[t].Resting?
    requires a == s.(channel := a.channel, owners := a.owners, accepted := a.accepted) && ChannelOk(a)
    ensures Inv(Ask(a, t, last))
  {
    var r := Ask(a, t, last);
    assert SenderOk(s, t);
    W.MoveKeepsInv(s.bell, t, W.Wake);
    W.KeptElsewhere(s.bell, r.bell, t, s.waker);
    assert r.bell.pcs[t] == W.TakeOr;
    forall u: nat | 0 < u < |r.modes| ensures SenderOk(r, u) { assert SenderOk(s, u); }
  }

  /** A step that leaves the waker alone and makes no news. */
  lemma QuietKeepsInv<T>(s: State<T>, r: State<T>, t: nat)
    requires Inv(s) && 0 < t < |s.modes| && s.bell.pcs[t].Quiet?
    requires r == s.(channel := r.channel, owners := r.owners, modes := r.modes) && ChannelOk(r)
    requires |r.modes| == |s.modes| && r.modes[t].Resting? && r.modes == s.modes[t := r.modes[t]]
    requires r.channel.HasNews() ==> s.channel.HasNews()
    ensures Inv(r)
  {
    forall u: nat | 0 < u < |r.modes| ensures SenderOk(r, u) { assert SenderOk(s, u); }
  }

  lemma SendKeepsInv<T>(s: State<T>, t: nat, value: T)
    requires Inv(s) && 0 < t < |s.modes| && s.modes[t].Resting? && t in s.owners
    ensures Inv(StepSender(s, t, Send(value)))
  {
    assert SenderOk(s, t);
    var (channel, result) := s.channel.Send(value);
    if result.Sent? {
      AskKeepsInv(s, s.(channel := channel, accepted := s.accepted + [value]), t, Sent);
    } else {
      QuietKeepsInv(s, StepSender(s, t, Send(value)), t);
    }
  }

  lemma DropKeepsInv<T>(s: State<T>, t: nat)
    requires Inv(s) && 0 < t < |s.modes| && s.modes[t].Resting? && t in s.owners
    ensures Inv(StepSender(s, t, DropSender))
  {
    assert SenderOk(s, t);
    assert |s.owners - {t}| == |s.owners| - 1;
    var a := s.(channel := s.channel.DropSender(), owners := s.owners - {t});
    if a.channel.senders == 0 {
      AskKeepsInv(s, a, t, NoSend);
    } else {
      QuietKeepsInv(s, StepSender(s, t, DropSender), t);
    }
  }

  lemma SenderKeepsInv<T>(s: State<T>, t: nat, c: Choice<T>)
    requires Inv(s) && 0 < t < |s.modes|
    ensures Inv(StepSender(s, t, c))
  {
    assert SenderOk(s, t);
    if s.modes[t].Resting? {
      if t in s.owners {
        CallKeepsInv(s, t, c);
      }
    } else if s.bell.pcs[t].Quiet? {
      QuietKeepsInv(s, SetMode(s, t, Resting(s.modes[t].last)), t);
    } else {
      WakingKeepsInv(s, t);
    }
  }

  lemma CallKeepsInv<T>(s: State<T>, t: nat, c: Choice<T>)
    requires Inv(s) && 0 < t < |s.modes| && s.modes[t].Resting? && t in s.owners
    ensures Inv(StepSender(s, t, c))
  {
    match c
    case Send(value) => SendKeepsInv(s, t, value);
    case DropSender => DropKeepsInv(s, t);
    case Clone(u) =>
      assert SenderOk(s, t);
      QuietKeepsInv(s, StepSender(s, t, c), t);
    case _ =>
  }

  lemma ReceiveKeepsChannel<T>(s: State<T>, whenEmpty: Phase<T>)
    requires Shaped(s) && ChannelOk(s) && s.phase != Gone
    requires whenEmpty == Register || whenEmpty == Pending || whenEmpty == Tried(Empty)
    ensures ChannelOk(Receive(s, whenEmpty))
    ensures Receive(s, whenEmpty).phase == whenEmpty ==> !s.channel.HasNews()
  {
  }

  lemma ReceiverLeavesSenders<T>(s: State<T>, r: State<T>)
    requires Inv(s) && Shaped(r) && r.modes == s.modes
    requires forall u :: 0 < u < |s.modes| ==> r.bell.pcs[u] == s.bell.pcs[u]
    ensures forall u: nat :: 0 < u < |r.modes| ==> SenderOk(r, u)
  {
    forall u: nat | 0 < u < |r.modes| ensures SenderOk(r, u) { assert SenderOk(s, u); }
  }

  lemma PollKeepsInv<T>(s: State<T>, c: Choice<T>)
    requires Inv(s) && (s.phase == Recv1 || s.phase == Register || s.phase == Recv2)
    ensures Inv(StepReceiver(s, c))
  {
    OnlyReceiverRegisters(s);
    ReceiverLeavesSenders(s, StepReceiver(s, c));
    match s.phase
    case Recv1 =>
      ReceiveKeepsChannel(s, Register);
      W.MoveKeepsInv(s.bell, 0, W.Register(s.waker));
    case Register =>
      W.StepKeepsInv(s.bell, 0);
      if !s.bell.pcs[0].Quiet? { W.StepKeepsRegisters(s.bell, 0, s.waker, 0); }
    case Recv2 => ReceiveKeepsChannel(s, Pending);
  }

  lemma HandleKeepsInv<T>(s: State<T>, c: Choice<T>)
    requires Inv(s) && s.phase != Recv1 && s.phase != Register && s.phase != Recv2
    ensures Inv(StepReceiver(s, c))
  {
    ReceiverLeavesSenders(s, StepReceiver(s, c));
    if s.phase != Gone {
      if c.TryRecv? {
        TryKeepsChannel(s);
      } else if c.Poll? {
        W.ForgetKeepsInv(s.bell, c.waker);
      }
    }
  }

  lemma TryKeepsChannel<T>(s: State<T>)
    requires Inv(s) && s.phase != Gone && s.phase != Recv1 && s.phase != Register && s.phase != Recv2
    ensures var r := StepReceiver(s, TryRecv); ChannelOk(r) && ReceiverOk(r) && r.bell == s.bell && r.modes == s.modes
  {
    ReceiveKeepsChannel(s, Tried(Empty));
    TriedKeepsChannel(Receive(s, Tried(Empty)));
  }

  lemma TriedKeepsChannel<T>(s: State<T>)
    requires ChannelOk(s)
    ensures ChannelOk(s.(phase := AsTried(s.phase)))
  {
  }

  lemma StepKeepsInv<T>(s: State<T>, t: nat, c: Choice<T>)
    requires Inv(s) && t < |s.modes|
    ensures Inv(Step(s, t, c)) && Step(s, t, c).channel.capacity == s.channel.capacity
  {
    if t > 0 {
      SenderKeepsInv(s, t, c);
    } else if s.phase == Recv1 || s.phase == Register || s.phase == Recv2 {
      PollKeepsInv(s, c);
    } else {
      HandleKeepsInv(s, c);
    }
  }

  // ----- what both ends see -----

  /** After the end has been reported nothing is received any more. */
  lemma EndIsFinal<T>(s: State<T>, t: nat, c: Choice<T>)
    requires Inv(s) && t < |s.modes| && s.ended
    ensures Step(s, t, c).ended && Step(s, t, c).received == s.received
  {
    assert s.owners == {} || !s.channel.open;
    if t == 0 {
      NothingAfterEnd(s, c);
    }
  }

  lemma NothingAfterEnd<T>(s: State<T>, c: Choice<T>)
    requires Shaped(s) && ChannelOk(s) && s.ended
    ensures StepReceiver(s, c).ended && StepReceiver(s, c).received == s.received
  {
  }

  function Run<T>(s: State<T>, schedule: seq<(nat, Choice<T>)>): (r: State<T>)
    requires Shaped(s) && forall i :: 0 <= i < |schedule| ==> schedule[i].0 < |s.modes|
    ensures Shaped(r) && |r.modes| == |s.modes|
    decreases |schedule|
  {
    if schedule == [] then s
    else
      var last := schedule[|schedule| - 1];
      Step(Run(s, schedule[..|schedule| - 1]), last.0, last.1)
  }

  lemma {:induction false} RunKeepsInv<T>(s: State<T>, schedule: seq<(nat, Choice<T>)>)
    requires Inv(s) && forall i :: 0 <= i < |schedule| ==> schedule[i].0 < |s.modes|
    ensures Inv(Run(s, schedule)) && Run(s, schedule).channel.capacity == s.channel.capacity
    decreases |schedule|
  {
    if schedule == [] {
    } else {
      var front, last := schedule[..|schedule| - 1], schedule[|schedule| - 1];
      RunKeepsInv(s, front);
      StepKeepsInv(Run(s, front), last.0, last.1);
    }
  }

  /** In every run: the channel holds at most its capacity and is open just until the receiver closes it or goes; what
      the receiver got is a prefix of what was accepted, until it goes the rest is still queued, and when the end has
      been reported all of it was got; a receiver left Pending while a value or the end is available has been notified
      since its poll, or a wake is in flight. */
  lemma {:induction false} EveryRunDelivers<T>(capacity: nat, threads: nat, schedule: seq<(nat, Choice<T>)>)
    requires threads > 1 && forall i :: 0 <= i < |schedule| ==> schedule[i].0 < threads
    ensures var s := Run(Initial(capacity, threads), schedule);
            && |s.channel.queue| <= s.channel.capacity == capacity && (s.channel.open <==> !s.shut)
            && s.received <= s.accepted
            && (s.phase != Gone ==> s.accepted == s.received + s.channel.queue)
            && (s.phase != Gone && s.ended ==> s.accepted == s.received && (s.shut || s.owners == {}))
            && (s.phase == Pending && s.channel.HasNews() ==> W.Coming(s.bell, s.waker))
            && (s.phase == Pending && s.channel.HasNews() && (forall t :: 0 < t < threads ==> s.modes[t].Resting?)
                ==> s.waker in s.bell.notified)
  {
    var start := Initial<T>(capacity, threads);
    W.InitialInv(threads);
    assert |start.owners| == 1;
    RunKeepsInv(start, schedule);
    var s := Run(start, schedule);
    assert ReceiverOk(s);
    if s.phase == Pending && s.channel.HasNews() && forall t :: 0 < t < threads ==> s.modes[t].Resting? {
      forall t: nat | t < threads ensures s.bell.pcs[t].Quiet? {
        if t > 0 { assert SenderOk(s, t); }
      }
    }
  }

  // ----- the channel as the program keeps it -----

  /** One object behind the mutex; each method is one critical section. `wake` asks the caller to wake the receiver. */
  class SharedChannel<T> {
    var queue: seq<T>
    const capacity: nat
    var senders: int
    var open: bool

    function Value(): Channel<T>
      reads this
    {
      Channel(queue, capacity, senders, open)
    }

    constructor (capacity: nat)
      ensures Value() == Channel([], capacity, 1, true)
    {
      queue, senders, open := [], 1, true;
      this.capacity := capacity;
    }

    method SendValue(value: T) returns (result: SendResult<T>, wake: bool)
      modifies this
      ensures (Value(), result) == old(Value()).Send(value)
      ensures wake <==> result == Sent
    {
      if !open { return Refused(value, false), false; }
      if |queue| >= capacity { return Refused(value, true), false; }
      queue := queue + [value];
      return Sent, true;
    }

    method TryReceive() returns (outcome: Received<T>)
      modifies this
      ensures (Value(), outcome) == old(Value()).TryRecv()
    {
      if |queue| > 0 {
        outcome := Got(queue[0]);
        queue := queue[1..];
      } else {
        outcome := if open && senders > 0 then Empty else Closed;
      }
    }

    method CloseReceiver()
      modifies this
      ensures Value() == old(Value()).Close()
    {
      open := false;
    }

    method CloneSender()
      modifies this
      ensures Value() == old(Value()).AddSender()
    {
      senders := senders + 1;
    }

    method DropOneSender() returns (wake: bool)
      modifies this
      ensures Value() == old(Value()).DropSender()
      ensures wake <==> senders == 0
    {
      senders := senders - 1;
      wake := senders == 0;
    }

    method DropTheReceiver() returns (released: seq<T>)
      modifies this
      ensures Value() == old(Value()).DropReceiver() && released == old(queue)
    {
      open := false;
      released := queue;
      queue := [];
    }
  }
}
