/** What each call on the one-value channel does, step by step of its poll or its drop. */
module OneshotCalls {
  import W = AtomicWaker
  import opened Oneshot
  import opened Options

  /** The sender exists and is in no call. */
  ghost predicate MaySend<T>(s: State<T>) {
    Inv(s) && (s.sender == Holding || s.sender == WaitingCancel || s.sender == CancelSeen)
  }

  /** The receiver exists and is in no call. */
  ghost predicate MayReceive<T>(s: State<T>) {
    Inv(s) && (s.receiver == NotPolling || s.receiver == Pending || s.receiver.Ready?)
  }

  /** In a new channel nothing has been sent and both ends are there. */
  lemma Starts<T>(s: State<T>)
    requires s == Initial<T>()
    ensures MaySend(s) && MayReceive(s) && s.sender == Holding && s.receiver == NotPolling
    ensures s.slot == Slot(None, false, false) && s.sent.None? && s.got.None? && !s.everReady
    ensures s.receiverBell.notified == {} && s.senderBell.notified == {}
  {
    InitialInv<T>();
  }

  /** The value is put into the slot, or comes back if the receiver is gone; either way the sender is then dropped. */
  lemma SendAnswers<T>(s: State<T>, item: T)
    requires MaySend(s)
    ensures var r := Step(s, true, Send(item));
            && r == s.(sent := Some(item), slot := s.slot.(value := r.slot.value), sender := r.sender)
            && (r.sender == Dropping(Some(item)) && r.slot == s.slot <==> s.slot.receiverDropped)
            && (r.sender == Dropping(None) && r.slot.value == Some(item) <==> !s.slot.receiverDropped)
    ensures Step(s, true, Drop) == s.(sender := Dropping(None))
  {
  }

  /** The drop of the sender marks the slot, wakes the receiver, and is over when that wake is. */
  lemma SenderGoes<T>(s: State<T>, c: Choice<T>)
    requires Inv(s) && (s.sender.Dropping? || s.sender.Ringing?)
    ensures var r := Step(s, true, c);
            && Refused(r) == Refused(s)
            && (s.sender.Dropping? ==>
                  && r == s.(slot := r.slot, sender := r.sender, receiverBell := W.Move(s.receiverBell, SENDER, W.Wake))
                  && r.sender.Ringing? && r.slot.senderDropped && r.slot == s.slot.(senderDropped := true))
            && (s.sender.Ringing? ==>
                  if s.receiverBell.pcs[SENDER].Quiet? then r.sender.SenderGone? && r == s.(sender := r.sender)
                  else r == s.(receiverBell := W.Move(s.receiverBell, SENDER, W.Advance)))
  {
  }

  /** Both looks of a poll of `cancellation` answer just when the receiver is gone; between them the task registers. */
  lemma CancellationAnswers<T>(s: State<T>, waker: W.Waker, c: Choice<T>)
    requires Inv(s)
    ensures MaySend(s) ==>
              Step(s, true, PollCancellation(waker)) == s.(
                sender := Check1, senderWaker := waker,
                senderBell := s.senderBell.(notified := s.senderBell.notified - {waker}))
    ensures s.sender == Check1 ==>
              Step(s, true, c) == if s.slot.receiverDropped then s.(sender := CancelSeen) else s.(
                sender := RegisterCancel, senderBell := W.Move(s.senderBell, SENDER, W.Register(s.senderWaker)))
    ensures s.sender == RegisterCancel ==>
              Step(s, true, c) == if s.senderBell.pcs[SENDER].Quiet? then s.(sender := Check2) else s.(
                senderBell := W.Move(s.senderBell, SENDER, W.Advance))
    ensures s.sender == Check2 ==>
              Step(s, true, c) == s.(sender := if s.slot.receiverDropped then CancelSeen else WaitingCancel)
  {
  }

  /** The value is taken if it is there; the end is reported just when the sender was dropped without one left; else
  `empty`. */
  ghost predicate Takes<T>(s: State<T>, r: State<T>, empty: ReceiverPhase<T>) {
    match s.slot.value
    case Some(value) =>
      && r == s.(slot := r.slot, receiver := Ready(Reply.Value(value)), got := Some(value), everReady := true)
      && r.slot == s.slot.(value := None) && s.sent == Some(value)
    case None =>
      r == if s.slot.senderDropped then s.(receiver := Ready(Canceled), everReady := true) else s.(receiver := empty)
  }

  /** A poll of the receiver: it looks, registers its task, and looks again. */
  lemma PollAnswers<T>(s: State<T>, waker: W.Waker, c: Choice<T>)
    requires Inv(s)
    ensures MayReceive(s) ==>
              Step(s, false, Poll(waker)) == s.(
                receiver := Take1, receiverWaker := waker,
                receiverBell := s.receiverBell.(notified := s.receiverBell.notified - {waker}))
    ensures s.receiver == Take1 ==>
              var r := Step(s, false, c);
              && Takes(s, r.(receiverBell := s.receiverBell), RegisterValue)
              && r.receiverBell == if r.receiver == RegisterValue
                                   then W.Move(s.receiverBell, RECEIVER, W.Register(s.receiverWaker)) else s.receiverBell
    ensures s.receiver == RegisterValue ==>
              Step(s, false, c) == if s.receiverBell.pcs[RECEIVER].Quiet? then s.(receiver := Take2) else s.(
                receiverBell := W.Move(s.receiverBell, RECEIVER, W.Advance))
    ensures s.receiver == Take2 ==> Takes(s, Step(s, false, c), Pending)
  {
  }

  /** The drop of the receiver releases the value, wakes the sender, and is over when that wake is. */
  lemma ReceiverGoes<T>(s: State<T>, c: Choice<T>)
    requires Inv(s)
    ensures MayReceive(s) ==>
              var r := Step(s, false, Drop);
              && r == s.(slot := r.slot, receiver := Hanging(s.slot.value),
                         senderBell := W.Move(s.senderBell, RECEIVER, W.Wake))
              && r.slot == s.slot.(receiverDropped := true, value := None)
    ensures s.receiver.Hanging? ==>
              Step(s, false, c) == if s.senderBell.pcs[RECEIVER].Quiet?
                                   then s.(receiver := ReceiverGone(s.receiver.released))
                                   else s.(senderBell := W.Move(s.senderBell, RECEIVER, W.Advance))
  {
  }

  /** A turn of a run is a step of its side. */
  lemma RunOn<T>(s: State<T>, schedule: seq<Turn<T>>, last: Turn<T>)
    requires Shaped(s)
    ensures Run(s, schedule + [last]) == Step(Run(s, schedule), last.senderMoves, last.choice)
  {
    assert (schedule + [last])[..|schedule|] == schedule;
  }
}
