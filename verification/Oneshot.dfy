/** The one-value channel: a slot behind a mutex, a waker for the receiver and one for the sender.

Thread 0 owns the receiver, thread 1 the sender.  The sender may wait for the receiver to be dropped, then send
or drop; the receiver polls, and may be dropped at any time.  Each critical section of the mutex and each atomic
operation of a waker is one step.
*/
module Oneshot {
  import W = AtomicWaker
  import opened Options

  const RECEIVER := 0
  const SENDER := 1

  datatype Reply<+T> = Value(value: T) | Canceled

  // ----- the critical sections -----

  datatype Slot<T> = Slot(value: Option<T>, senderDropped: bool, receiverDropped: bool) {
    /** None means pending. */
    function Take(): (Slot<T>, Option<Reply<T>>) {
      if value.Some? then (this.(value := None), Some(Reply.Value(value.value)))
      else if senderDropped then (this, Some(Canceled))
      else (this, None)
    }

    predicate HasNews() {
      value.Some? || senderDropped
    }
  }

  // ----- the machine -----

  datatype SenderPhase<+T> =
    | Holding                             // owns the sender, no call in progress
    | Check1 | RegisterCancel | Check2    // poll of `cancellation`
    | WaitingCancel                       // that poll returned Pending
    | CancelSeen                          // that poll returned Ready
    | Dropping(refused: Option<T>)        // `send` has run; the sender is about to be dropped
    | Ringing(refused: Option<T>)         // marked dropped; waking the receiver
    | SenderGone(refused: Option<T>)

  datatype ReceiverPhase<+T> =
    | NotPolling
    | Take1 | RegisterValue | Take2
    | Pending
    | Ready(reply: Reply<T>)
    | Hanging(released: Option<T>)        // marked dropped; waking the sender
    | ReceiverGone(released: Option<T>)

  /** `sent` is the value given to `send`, `got` what polls have yielded so far. */
  datatype State<T> = State(
    slot: Slot<T>,
    receiverBell: W.State,
    senderBell: W.State,
    sender: SenderPhase<T>,
    receiver: ReceiverPhase<T>,
    receiverWaker: W.Waker,
    senderWaker: W.Waker,
    sent: Option<T>,
    got: Option<T>,
    everReady: bool)

  datatype Choice<+T> =
    | Send(item: T)
    | PollCancellation(waker: W.Waker)
    | Poll(waker: W.Waker)
    | Drop
    | Advance

  function Initial<T>(): State<T> {
    State(Slot(None, false, false), W.Initial(2), W.Initial(2), Holding, NotPolling, 0, 0, None, None, false)
  }

  predicate Shaped<T>(s: State<T>) {
    |s.receiverBell.pcs| == 2 && |s.senderBell.pcs| == 2
  }

  function StepSender<T>(s: State<T>, c: Choice<T>): State<T>
    requires Shaped(s)
  {
    match s.sender
    case Check1 =>
      if s.slot.receiverDropped then s.(sender := CancelSeen)
      else s.(sender := RegisterCancel, senderBell := W.At(s.senderBell, SENDER, W.RegExchange(s.senderWaker)))
    case RegisterCancel =>
      if s.senderBell.pcs[SENDER].Quiet? then s.(sender := Check2)
      else s.(senderBell := W.Step(s.senderBell, SENDER))
    case Check2 => s.(sender := if s.slot.receiverDropped then CancelSeen else WaitingCancel)
    case Dropping(refused) =>
      s.(slot := s.slot.(senderDropped := true), sender := Ringing(refused),
         receiverBell := W.At(s.receiverBell, SENDER, W.TakeOr))
    case Ringing(refused) =>
      if s.receiverBell.pcs[SENDER].Quiet? then s.(sender := SenderGone(refused))
      else s.(receiverBell := W.Step(s.receiverBell, SENDER))
    case SenderGone(_) => s
    case _ =>
      match c
      case Send(item) =>
        if s.slot.receiverDropped then s.(sender := Dropping(Some(item)), sent := Some(item))
        else s.(slot := s.slot.(value := Some(item)), sender := Dropping(None), sent := Some(item))
      case PollCancellation(waker) =>
        s.(sender := Check1, senderWaker := waker,
           senderBell := s.senderBell.(notified := s.senderBell.notified - {waker}))
      case Drop => s.(sender := Dropping(None))
      case _ => s
  }

  function Receive<T>(s: State<T>, whenPending: ReceiverPhase<T>): State<T> {
    var (slot, reply) := s.slot.Take();
    match reply
    case None => s.(receiver := whenPending)
    case Some(r) =>
      s.(slot := slot, receiver := Ready(r), everReady := true, got := if r.Value? then Some(r.value) else s.got)
  }

  function StepReceiver<T>(s: State<T>, c: Choice<T>): State<T>
    requires Shaped(s)
  {
    match s.receiver
    case Take1 =>
      var r := Receive(s, RegisterValue);
      if r.receiver.RegisterValue? then
        r.(receiverBell := W.At(s.receiverBell, RECEIVER, W.RegExchange(s.receiverWaker)))
      else r
    case RegisterValue =>
      if s.receiverBell.pcs[RECEIVER].Quiet? then s.(receiver := Take2)
      else s.(receiverBell := W.Step(s.receiverBell, RECEIVER))
    case Take2 => Receive(s, Pending)
    case Hanging(released) =>
      if s.senderBell.pcs[RECEIVER].Quiet? then s.(receiver := ReceiverGone(released))
      else s.(senderBell := W.Step(s.senderBell, RECEIVER))
    case ReceiverGone(_) => s
    case _ =>
      match c
      case Poll(waker) =>
        s.(receiver := Take1, receiverWaker := waker,
           receiverBell := s.receiverBell.(notified := s.receiverBell.notified - {waker}))
      case Drop =>
        s.(slot := s.slot.(receiverDropped := true, value := None), receiver := Hanging(s.slot.value),
           senderBell := W.At(s.senderBell, RECEIVER, W.TakeOr))
      case _ => s
  }

  function Step<T>(s: State<T>, senderMoves: bool, c: Choice<T>): State<T>
    requires Shaped(s)
  {
    if senderMoves then StepSender(s, c) else StepReceiver(s, c)
  }

  // ----- the invariant -----

  function Refused<T>(s: State<T>): Option<T> {
    match s.sender
    case Dropping(refused) => refused
    case Ringing(refused) => refused
    case SenderGone(refused) => refused
    case _ => None
  }

  function Released<T>(s: State<T>): Option<T> {
    match s.receiver
    case Hanging(released) => released
    case ReceiverGone(released) => released
    case _ => None
  }

  function Count<T>(place: Option<T>): nat {
    if place.Some? then 1 else 0
  }

  /** The sent value is in exactly one of the four places where it can be, and nothing else is anywhere. */
  ghost predicate OnePlace<T>(s: State<T>) {
    && Count(s.slot.value) + Count(Refused(s)) + Count(s.got) + Count(Released(s)) == Count(s.sent)
    && (s.slot.value.Some? ==> s.slot.value == s.sent)
    && (Refused(s).Some? ==> Refused(s) == s.sent)
    && (s.got.Some? ==> s.got == s.sent)
    && (Released(s).Some? ==> Released(s) == s.sent)
  }

  ghost predicate SlotOk<T>(s: State<T>) {
    && OnePlace(s)
    && (s.slot.receiverDropped <==> s.receiver.Hanging? || s.receiver.ReceiverGone?)
    && (s.slot.senderDropped <==> s.sender.Ringing? || s.sender.SenderGone?)
    && (Refused(s).Some? ==> s.slot.receiverDropped)
    && (s.sent.Some? ==> s.sender.Dropping? || s.sender.Ringing? || s.sender.SenderGone?)
    && (s.slot.receiverDropped ==> s.slot.value.None?)
    && (s.got.Some? ==> s.everReady)
    && (s.sender == CancelSeen ==> s.slot.receiverDropped)
    && (s.receiver.Ready? ==> s.everReady && if s.receiver.reply.Value? then s.got == Some(s.receiver.reply.value)
                                             else s.slot.senderDropped && s.slot.value.None?)
    && (s.everReady && s.got.None? ==> s.slot.senderDropped && s.slot.value.None? && (s.sent.None? || s.slot.receiverDropped))
  }

  ghost predicate SenderOk<T>(s: State<T>)
    requires Shaped(s)
  {
    && (if s.sender.Ringing? then !W.IsRegister(s.receiverBell.pcs[SENDER]) else s.receiverBell.pcs[SENDER].Quiet?)
    && match s.sender
       case RegisterCancel => W.Registers(s.senderBell, SENDER, s.senderWaker)
       case Check2 => s.senderBell.pcs[SENDER].Quiet? && W.Kept(s.senderBell, s.senderWaker)
       case WaitingCancel =>
         s.senderBell.pcs[SENDER].Quiet? && W.Kept(s.senderBell, s.senderWaker)
         && (s.slot.receiverDropped ==> W.Coming(s.senderBell, s.senderWaker))
       case _ => s.senderBell.pcs[SENDER].Quiet?
  }

  ghost predicate ReceiverOk<T>(s: State<T>)
    requires Shaped(s)
  {
    && (if s.receiver.Hanging? then !W.IsRegister(s.senderBell.pcs[RECEIVER]) else s.senderBell.pcs[RECEIVER].Quiet?)
    && match s.receiver
       case RegisterValue => W.Registers(s.receiverBell, RECEIVER, s.receiverWaker)
       case Take2 => s.receiverBell.pcs[RECEIVER].Quiet? && W.Kept(s.receiverBell, s.receiverWaker)
       case Pending =>
         s.receiverBell.pcs[RECEIVER].Quiet? && W.Kept(s.receiverBell, s.receiverWaker)
         && (s.slot.HasNews() ==> s.sender.Dropping? || W.Coming(s.receiverBell, s.receiverWaker))
       case _ => s.receiverBell.pcs[RECEIVER].Quiet?
  }

  ghost predicate BellsOk<T>(s: State<T>) {
    Shaped(s) && W.Inv(s.receiverBell) && W.Inv(s.senderBell) && SenderOk(s) && ReceiverOk(s)
  }

  ghost predicate Inv<T>(s: State<T>) {
    BellsOk(s) && SlotOk(s)
  }

  /** While its owner is not registering, a bell is not in the REGISTERING state. */
  lemma NotRegistering(bell: W.State, p: nat)
    requires W.Inv(bell) && |bell.pcs| == 2 && p < 2 && bell.pcs[p].Quiet? && !W.IsRegister(bell.pcs[1 - p])
    ensures bell.state == W.WAITING || bell.state == W.WAKING
  {
    if bell.holder.Some? { assert W.ThreadOk(bell, bell.holder.value); }
  }

  /** A waking step of the other side keeps what the owner `p` of the bell relies on. */
  lemma OtherSideRings(bell: W.State, p: nat, w: W.Waker)
    requires W.Inv(bell) && |bell.pcs| == 2 && p < 2 && !W.IsRegister(bell.pcs[1 - p])
    ensures var r := W.Step(bell, 1 - p);
            && W.Inv(r) && !W.IsRegister(r.pcs[1 - p])
            && (W.Registers(bell, p, w) ==> W.Registers(r, p, w))
            && (W.Kept(bell, w) ==> W.Kept(r, w))
            && (W.Kept(bell, w) && W.Coming(bell, w) ==> W.Coming(r, w))
  {
    W.StepKeepsInv(bell, 1 - p);
    if W.Registers(bell, p, w) { W.StepKeepsRegisters(bell, p, w, 1 - p); }
    if W.Kept(bell, w) { W.StepKeepsKept(bell, 1 - p, w); }
    if W.Kept(bell, w) && W.Coming(bell, w) { W.StepKeepsComing(bell, 1 - p, w); }
  }

  /** Asking for the wakeup of the other side. */
  lemma OtherSideAsks(bell: W.State, p: nat, w: W.Waker)
    requires W.Inv(bell) && |bell.pcs| == 2 && p < 2 && bell.pcs[1 - p].Quiet?
    ensures var r := W.At(bell, 1 - p, W.TakeOr);
            && W.Inv(r) && W.Coming(r, w)
            && (W.Registers(bell, p, w) ==> W.Registers(r, p, w))
            && (W.Kept(bell, w) ==> W.Kept(r, w))
  {
    W.MoveKeepsInv(bell, 1 - p, W.Wake);
    W.KeptElsewhere(bell, W.At(bell, 1 - p, W.TakeOr), 1 - p, w);
    assert W.At(bell, 1 - p, W.TakeOr).pcs[1 - p] == W.TakeOr;
  }

  lemma SendKeepsSlot<T>(s: State<T>, item: T)
    requires Shaped(s) && SlotOk(s) && (s.sender.Holding? || s.sender.WaitingCancel? || s.sender.CancelSeen?)
    ensures Shaped(StepSender(s, Send(item))) && SlotOk(StepSender(s, Send(item)))
  {
  }

  lemma SenderKeepsSlot<T>(s: State<T>, c: Choice<T>)
    requires Shaped(s) && SlotOk(s)
    ensures Shaped(StepSender(s, c)) && SlotOk(StepSender(s, c))
  {
    if c.Send? && (s.sender.Holding? || s.sender.WaitingCancel? || s.sender.CancelSeen?) {
      SendKeepsSlot(s, c.item);
    }
  }

  lemma FirstCheckKeepsBells<T>(s: State<T>, c: Choice<T>)
    requires BellsOk(s) && s.sender == Check1
    ensures BellsOk(StepSender(s, c))
  {
    NotRegistering(s.senderBell, SENDER);
    W.MoveKeepsInv(s.senderBell, SENDER, W.Register(s.senderWaker));
  }

  lemma RegisterCancelKeepsBells<T>(s: State<T>, c: Choice<T>)
    requires BellsOk(s) && s.sender == RegisterCancel
    ensures BellsOk(StepSender(s, c))
  {
    W.StepKeepsInv(s.senderBell, SENDER);
    if !s.senderBell.pcs[SENDER].Quiet? {
      W.StepKeepsRegisters(s.senderBell, SENDER, s.senderWaker, SENDER);
    }
  }

  lemma SecondCheckKeepsBells<T>(s: State<T>, c: Choice<T>)
    requires BellsOk(s) && s.sender == Check2
    ensures BellsOk(StepSender(s, c))
  {
  }

  lemma DroppingKeepsBells<T>(s: State<T>, c: Choice<T>)
    requires BellsOk(s) && SlotOk(s) && s.sender.Dropping?
    ensures BellsOk(StepSender(s, c))
  {
    OtherSideAsks(s.receiverBell, RECEIVER, s.receiverWaker);
  }

  lemma RingingKeepsBells<T>(s: State<T>, c: Choice<T>)
    requires BellsOk(s) && s.sender.Ringing?
    ensures BellsOk(StepSender(s, c))
  {
    OtherSideRings(s.receiverBell, RECEIVER, s.receiverWaker);
  }

  lemma SenderKeepsBells<T>(s: State<T>, c: Choice<T>)
    requires BellsOk(s) && SlotOk(s)
    ensures BellsOk(StepSender(s, c))
  {
    match s.sender
    case Check1 => FirstCheckKeepsBells(s, c);
    case RegisterCancel => RegisterCancelKeepsBells(s, c);
    case Check2 => SecondCheckKeepsBells(s, c);
    case Dropping(_) => DroppingKeepsBells(s, c);
    case Ringing(_) => RingingKeepsBells(s, c);
    case _ => if c.PollCancellation? { W.ForgetKeepsInv(s.senderBell, c.waker); }
  }

  lemma TakeKeepsSlot<T>(s: State<T>, whenPending: ReceiverPhase<T>)
    requires SlotOk(s) && (s.receiver == Take1 || s.receiver == Take2)
    requires whenPending == RegisterValue || whenPending == Pending
    ensures SlotOk(Receive(s, whenPending))
    ensures Receive(s, whenPending).receiver == whenPending ==> !s.slot.HasNews()
  {
  }

  lemma PollKeepsSlot<T>(s: State<T>, c: Choice<T>)
    requires Shaped(s) && SlotOk(s) && (s.receiver == Take1 || s.receiver == Take2)
    ensures Shaped(StepReceiver(s, c)) && SlotOk(StepReceiver(s, c))
  {
    TakeKeepsSlot(s, if s.receiver == Take1 then RegisterValue else Pending);
  }

  /** Dropping the receiver releases a value that is still in the slot. */
  lemma DropKeepsSlot<T>(s: State<T>)
    requires Shaped(s) && SlotOk(s) && (s.receiver == NotPolling || s.receiver == Pending || s.receiver.Ready?)
    ensures Shaped(StepReceiver(s, Drop)) && SlotOk(StepReceiver(s, Drop))
  {
  }

  lemma HangingKeepsSlot<T>(s: State<T>, c: Choice<T>)
    requires Shaped(s) && SlotOk(s) && (s.receiver.Hanging? || s.receiver.ReceiverGone? || s.receiver == RegisterValue)
    ensures Shaped(StepReceiver(s, c)) && SlotOk(StepReceiver(s, c))
  {
  }

  lemma ReceiverKeepsSlot<T>(s: State<T>, c: Choice<T>)
    requires Shaped(s) && SlotOk(s)
    ensures Shaped(StepReceiver(s, c)) && SlotOk(StepReceiver(s, c))
  {
    if s.receiver == Take1 || s.receiver == Take2 {
      PollKeepsSlot(s, c);
    } else if s.receiver.Hanging? || s.receiver.ReceiverGone? || s.receiver == RegisterValue {
      HangingKeepsSlot(s, c);
    } else if c == Drop && (s.receiver == NotPolling || s.receiver == Pending || s.receiver.Ready?) {
      DropKeepsSlot(s);
    }
  }

  lemma FirstTakeKeepsBells<T>(s: State<T>, c: Choice<T>)
    requires BellsOk(s) && SlotOk(s) && s.receiver == Take1
    ensures BellsOk(StepReceiver(s, c))
  {
    NotRegistering(s.receiverBell, RECEIVER);
    W.MoveKeepsInv(s.receiverBell, RECEIVER, W.Register(s.receiverWaker));
  }

  lemma RegisterKeepsBells<T>(s: State<T>, c: Choice<T>)
    requires BellsOk(s) && s.receiver == RegisterValue
    ensures BellsOk(StepReceiver(s, c))
  {
    W.StepKeepsInv(s.receiverBell, RECEIVER);
    if !s.receiverBell.pcs[RECEIVER].Quiet? {
      W.StepKeepsRegisters(s.receiverBell, RECEIVER, s.receiverWaker, RECEIVER);
    }
  }

  lemma SecondTakeKeepsBells<T>(s: State<T>, c: Choice<T>)
    requires BellsOk(s) && SlotOk(s) && s.receiver == Take2
    ensures BellsOk(StepReceiver(s, c))
  {
    TakeKeepsSlot(s, Pending);
  }

  lemma HangingKeepsBells<T>(s: State<T>, c: Choice<T>)
    requires BellsOk(s) && s.receiver.Hanging?
    ensures BellsOk(StepReceiver(s, c))
  {
    OtherSideRings(s.senderBell, SENDER, s.senderWaker);
  }

  lemma HandleKeepsBells<T>(s: State<T>, c: Choice<T>)
    requires BellsOk(s) && SlotOk(s)
    requires s.receiver == NotPolling || s.receiver == Pending || s.receiver.Ready?
    ensures BellsOk(StepReceiver(s, c))
  {
    if c.Poll? {
      W.ForgetKeepsInv(s.receiverBell, c.waker);
    } else if c.Drop? {
      OtherSideAsks(s.senderBell, SENDER, s.senderWaker);
    }
  }

  lemma ReceiverKeepsBells<T>(s: State<T>, c: Choice<T>)
    requires BellsOk(s) && SlotOk(s)
    ensures BellsOk(StepReceiver(s, c))
  {
    match s.receiver
    case Take1 => FirstTakeKeepsBells(s, c);
    case RegisterValue => RegisterKeepsBells(s, c);
    case Take2 => SecondTakeKeepsBells(s, c);
    case Hanging(_) => HangingKeepsBells(s, c);
    case ReceiverGone(_) =>
    case _ => HandleKeepsBells(s, c);
  }

  lemma StepKeepsInv<T>(s: State<T>, senderMoves: bool, c: Choice<T>)
    requires Inv(s)
    ensures Inv(Step(s, senderMoves, c))
  {
    if senderMoves {
      SenderKeepsSlot(s, c);
      SenderKeepsBells(s, c);
    } else {
      ReceiverKeepsSlot(s, c);
      ReceiverKeepsBells(s, c);
    }
  }

  /** A first completion is Canceled exactly when the sender is gone without having sent, and otherwise brings the
      sent value. */
  lemma FirstCompletion<T>(s: State<T>, c: Choice<T>)
    requires Inv(s) && !s.everReady && (s.receiver == Take1 || s.receiver == Take2)
    ensures var r := StepReceiver(s, c);
            && (r.receiver == Ready(Canceled) <==> s.slot.senderDropped && s.sent.None?)
            && (r.receiver.Ready? && r.receiver.reply.Value? <==> s.slot.value.Some?)
            && (r.receiver.Ready? && r.receiver.reply.Value? ==> Some(r.receiver.reply.value) == s.sent == r.got)
  {
  }

  datatype Turn<+T> = Turn(senderMoves: bool, choice: Choice<T>)

  function Run<T>(s: State<T>, schedule: seq<Turn<T>>): (r: State<T>)
    requires Shaped(s)
    ensures Shaped(r)
    decreases |schedule|
  {
    if schedule == [] then s
    else
      var last := schedule[|schedule| - 1];
      Step(Run(s, schedule[..|schedule| - 1]), last.senderMoves, last.choice)
  }

  lemma {:induction false} RunKeepsInv<T>(s: State<T>, schedule: seq<Turn<T>>)
    requires Inv(s)
    ensures Inv(Run(s, schedule))
    decreases |schedule|
  {
    if schedule == [] {
    } else {
      var front, last := schedule[..|schedule| - 1], schedule[|schedule| - 1];
      RunKeepsInv(s, front);
      StepKeepsInv(Run(s, front), last.senderMoves, last.choice);
    }
  }

  lemma InitialInv<T>()
    ensures Inv(Initial<T>())
  {
    W.InitialInv(2);
  }

  /** The sent value is in one place: in the slot, returned by `send`, received, or released with the receiver; once
      both ends are gone it is not in the slot. A cancellation is seen only when the receiver is gone. A receiver left
      Pending while a value or the end is there, and a sender left waiting for a cancellation that has happened, is
      notified or about to be. */
  ghost predicate KeepsTheValue<T>(s: State<T>) {
    && OnePlace(s)
    && (s.sender.SenderGone? && s.receiver.ReceiverGone? ==> s.slot.value.None?)
    && (s.sender == CancelSeen ==> s.receiver.Hanging? || s.receiver.ReceiverGone?)
    && (s.receiver == Pending && s.slot.HasNews() ==>
          s.sender.Dropping? || W.Coming(s.receiverBell, s.receiverWaker))
    && (s.sender == WaitingCancel && s.slot.receiverDropped ==> W.Coming(s.senderBell, s.senderWaker))
  }

  lemma InvKeepsTheValue<T>(s: State<T>)
    requires Inv(s)
    ensures KeepsTheValue(s)
  {
  }

  lemma {:induction false} EveryRunKeepsTheValue<T>(schedule: seq<Turn<T>>)
    ensures KeepsTheValue(Run(Initial<T>(), schedule))
  {
    InitialInv<T>();
    RunKeepsInv(Initial<T>(), schedule);
    InvKeepsTheValue(Run(Initial<T>(), schedule));
  }

  /** Once the other end is gone, whoever waits for it has been notified. */
  lemma WaiterIsNotified<T>(s: State<T>)
    requires Inv(s)
    ensures s.receiver == Pending && s.sender.SenderGone? ==> s.receiverWaker in s.receiverBell.notified
    ensures s.sender == WaitingCancel && s.receiver.ReceiverGone? ==> s.senderWaker in s.senderBell.notified
  {
    assert s.slot.senderDropped == (s.sender.Ringing? || s.sender.SenderGone?);
  }

  // ----- the channel as the program keeps it -----

  /** The slot behind the mutex; each method is one critical section. */
  class SharedSlot<T> {
    var value: Option<T>
    var senderDropped: bool
    var receiverDropped: bool

    function Model(): Slot<T>
      reads this
    {
      Slot(value, senderDropped, receiverDropped)
    }

    constructor ()
      ensures Model() == Slot(None, false, false)
    {
      value, senderDropped, receiverDropped := None, false, false;
    }

    method TakeValue() returns (reply: Option<Reply<T>>)
      modifies this
      ensures (Model(), reply) == old(Model()).Take()
    {
      if value.Some? {
        reply := Some(Reply.Value(value.value));
        value := None;
      } else {
        reply := if senderDropped then Some(Canceled) else None;
      }
    }

    method Send(item: T) returns (refused: Option<T>)
      modifies this
      ensures refused == if old(receiverDropped) then Some(item) else None
      ensures Model() == if old(receiverDropped) then old(Model()) else old(Model()).(value := Some(item))
    {
      if receiverDropped { return Some(item); }
      value := Some(item);
      return None;
    }

    method DropSender()
      modifies this
      ensures Model() == old(Model()).(senderDropped := true)
    {
      senderDropped := true;
    }

    method DropReceiver() returns (released: Option<T>)
      modifies this
      ensures Model() == old(Model()).(receiverDropped := true, value := None) && released == old(value)
    {
      receiverDropped := true;
      released := value;
      value := None;
    }
  }
}
