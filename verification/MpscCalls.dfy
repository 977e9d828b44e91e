/** What each call on the channel answers, and what its closing means in every run. */
module MpscCalls {
  import W = AtomicWaker
  import opened Mpsc
  import opened Options

  /** Thread `t` owns a sender and is in no call. */
  ghost predicate MaySend<T>(s: State<T>, t: nat) {
    Inv(s) && 0 < t < |s.modes| && s.modes[t].Resting? && t in s.owners
  }

  /** The receiver exists and is in no call. */
  ghost predicate MayReceive<T>(s: State<T>) {
    Inv(s) && s.phase != Gone && s.phase != Recv1 && s.phase != Register && s.phase != Recv2
  }

  /** No more values come: the receiver has closed the channel, or no sender is left. */
  predicate Over<T>(s: State<T>) {
    s.shut || s.owners == {}
  }

  /** A new channel is open and has one sender, nothing in it, and nobody at work. */
  lemma Starts<T>(capacity: nat, threads: nat)
    requires threads > 1
    ensures var s := Initial<T>(capacity, threads);
            && Inv(s) && !s.shut && !s.ended && s.owners == {1} && s.accepted == s.received == [] && MayReceive(s)
            && |s.modes| == threads && s.bell.notified == {}
            && forall t :: 0 < t < threads ==> s.modes[t] == Resting(NoSend)
  {
    W.InitialInv(threads);
    assert |Initial<T>(capacity, threads).owners| == 1;
  }

  /** A send is accepted just when the receiver has not closed the channel and there is room; else the value comes
  back. */
  lemma SendAnswers<T>(s: State<T>, t: nat, value: T)
    requires MaySend(s, t)
    ensures var r, room := Step(s, t, Send(value)), |s.channel.queue| < s.channel.capacity;
            && (r.modes[t] == Waking(Sent) <==> !s.shut && room)
            && (r.modes[t] == Waking(Sent) ==>
                  && r == s.(channel := r.channel, accepted := s.accepted + [value], modes := r.modes, bell := r.bell)
                  && r.channel.queue == s.channel.queue + [value] && r.bell == W.Move(s.bell, t, W.Wake))
            && (r.modes[t] != Waking(Sent) ==> r == s.(modes := s.modes[t := Resting(Refused(value, !s.shut))]))
  {
    assert SenderOk(s, t);
  }

  /** A clone is owned by the thread it is made for. */
  lemma CloneAnswers<T>(s: State<T>, t: nat, u: nat)
    requires MaySend(s, t)
    ensures var r := Step(s, t, Clone(u));
            && r == s.(channel := r.channel, owners := r.owners) && r.channel == s.channel.(senders := |r.owners|)
            && r.owners == s.owners + if 0 < u < |s.modes| then {u} else {}
  {
    if u !in s.owners {
      assert |s.owners + {u}| == |s.owners| + 1;
    } else {
      assert s.owners + {u} == s.owners;
    }
  }

  /** A dropped sender is owned by none, and the drop of the last one wakes the receiver. */
  lemma DropAnswers<T>(s: State<T>, t: nat)
    requires MaySend(s, t)
    ensures var r := Step(s, t, DropSender);
            && r == s.(channel := r.channel, owners := s.owners - {t}, modes := r.modes, bell := r.bell)
            && r.channel == s.channel.(senders := |r.owners|)
            && (if r.owners == {} then r.modes == s.modes[t := Waking(NoSend)] && r.bell == W.Move(s.bell, t, W.Wake)
                else r.modes == s.modes && r.bell == s.bell)
  {
    assert SenderOk(s, t);
    assert |s.owners - {t}| == |s.owners| - 1;
  }

  /** A sender that wakes the receiver takes the steps of `wake`, and then has the answer it had before. */
  lemma WakingEnds<T>(s: State<T>, t: nat, c: Choice<T>)
    requires Inv(s) && 0 < t < |s.modes| && s.modes[t].Waking?
    ensures var r := Step(s, t, c);
            if s.bell.pcs[t].Quiet? then r == s.(modes := s.modes[t := Resting(s.modes[t].last)])
            else r == s.(bell := W.Move(s.bell, t, W.Advance))
  {
  }

  /** The oldest value is received if there is one; the end is reported just when no more values come; else `empty`. */
  ghost predicate Receives<T>(s: State<T>, r: State<T>, got: Phase<T>, over: Phase<T>, empty: Phase<T>) {
    if s.channel.queue != [] then
      && r == s.(channel := r.channel, received := s.received + [s.channel.queue[0]], phase := got)
      && [s.channel.queue[0]] + r.channel.queue == s.channel.queue
      && r.channel == s.channel.(queue := r.channel.queue)
    else if Over(s) then r == s.(ended := true, phase := over)
    else r == s.(phase := empty)
  }

  /** What `try_recv` answers, and a poll that looks for the first or the second time. */
  lemma ReceiveAnswers<T>(s: State<T>, c: Choice<T>)
    requires Inv(s) && (s.phase == Recv1 || s.phase == Recv2 || (MayReceive(s) && c == TryRecv))
    ensures var r := Step(s, 0, c);
            var first := if s.channel.queue == [] then None else Some(s.channel.queue[0]);
            && (s.phase == Recv2 ==> Receives(s, r, Ready(first), Ready(None), Pending))
            && (s.phase == Recv1 ==> Receives(s, r.(bell := s.bell), Ready(first), Ready(None), Register))
            && (s.phase == Recv1 ==>
                  r.bell == if r.phase == Register then W.Move(s.bell, 0, W.Register(s.waker)) else s.bell)
            && (MayReceive(s) ==>
                  Receives(s, r, if first.None? then Tried(Empty) else Tried(Got(first.value)), Tried(Closed),
                           Tried(Empty)))
  {
    assert s.owners == {} <==> s.channel.senders == 0;
  }

  /** A poll begins with the waker of its task, which nothing has notified yet; between its two looks it registers. */
  lemma PollGoesOn<T>(s: State<T>, waker: W.Waker, c: Choice<T>)
    requires Inv(s) && (s.phase == Register || (MayReceive(s) && c == Poll(waker)))
    ensures var r := Step(s, 0, c);
            && (s.phase == Register ==>
                  r == if s.bell.pcs[0].Quiet? then s.(phase := Recv2) else s.(bell := W.Move(s.bell, 0, W.Advance)))
            && (MayReceive(s) ==>
                  r == s.(phase := Recv1, waker := waker, bell := s.bell.(notified := s.bell.notified - {waker})))
  {
  }

  /** Closing leaves what is queued to be received; the drop of the receiver releases it. */
  lemma ClosingAnswers<T>(s: State<T>)
    requires MayReceive(s)
    ensures var r := Step(s, 0, Close);
            && r.shut && r == s.(channel := r.channel, phase := NotPolling, shut := true)
            && r.channel.queue == s.channel.queue
    ensures var r := Step(s, 0, DropReceiver);
            r.shut && r == s.(channel := r.channel, phase := Gone, shut := true) && r.channel.queue == []
  {
  }

  lemma StepAfterClose<T>(s: State<T>, t: nat, c: Choice<T>)
    requires Inv(s) && t < |s.modes| && s.shut
    ensures var r := Step(s, t, c); r.shut && r.accepted == s.accepted
    ensures var r := Step(s, t, c); t > 0 && s.modes[t].Resting? && t in s.owners && c.Send? ==>
              r.modes[t] == Resting(Refused(c.value, false))
  {
    if t == 0 {
      ReceiverAfterClose(s, c);
    }
  }

  lemma ReceiverAfterClose<T>(s: State<T>, c: Choice<T>)
    requires Shaped(s) && s.shut
    ensures var r := StepReceiver(s, c); r.shut && r.accepted == s.accepted
  {
  }

  lemma SplitRun<T>(s: State<T>, before: seq<(nat, Choice<T>)>, after: seq<(nat, Choice<T>)>)
    requires Shaped(s) && forall i :: 0 <= i < |before + after| ==> (before + after)[i].0 < |s.modes|
    requires after != []
    ensures var front, last := after[..|after| - 1], after[|after| - 1];
            && (forall i :: 0 <= i < |before + front| ==> (before + front)[i].0 < |s.modes|)
            && Run(s, before + after) == Step(Run(s, before + front), last.0, last.1)
  {
    var front, all := after[..|after| - 1], before + after;
    assert all[..|all| - 1] == before + front;
    forall i | 0 <= i < |before + front| ensures (before + front)[i].0 < |s.modes| {
      assert (before + front)[i] == all[i];
    }
  }

  /** Once the receiver has closed the channel or gone, nothing is accepted in the rest of the run. */
  lemma {:induction false} NothingAfterClose<T>(s: State<T>, before: seq<(nat, Choice<T>)>,
                                                after: seq<(nat, Choice<T>)>)
    requires Inv(s) && forall i :: 0 <= i < |before + after| ==> (before + after)[i].0 < |s.modes|
    requires (forall i :: 0 <= i < |before| ==> before[i].0 < |s.modes|) && Run(s, before).shut
    ensures var r := Run(s, before + after); r.shut && r.accepted == Run(s, before).accepted
    decreases |after|
  {
    if after == [] {
      assert before + after == before;
    } else {
      var front, last := after[..|after| - 1], after[|after| - 1];
      SplitRun(s, before, after);
      NothingAfterClose(s, before, front);
      RunKeepsInv(s, before + front);
      StepAfterClose(Run(s, before + front), last.0, last.1);
    }
  }
}
