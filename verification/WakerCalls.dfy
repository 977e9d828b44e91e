/** What `register` and `wake` do when nothing disturbs them, and whom they can wake at all. */
module WakerCalls {
  import opened AtomicWaker
  import opened Options

  /** Thread `t` begins a call and takes its next steps, and nobody else moves. */
  function Alone(s: State, t: nat, c: Choice, steps: nat): (r: State)
    requires t < |s.pcs|
    ensures |r.pcs| == |s.pcs|
  {
    if steps == 0 then Move(s, t, c) else Move(Alone(s, t, c, steps - 1), t, Advance)
  }

  /** Nobody is in the cell: the last call is over. */
  ghost predicate Calm(s: State, t: nat) {
    Inv(s) && t < |s.pcs| && s.pcs[t].Quiet? && s.state == WAITING
  }

  /** A registration leaves the waker in the cell and wakes nobody. */
  lemma RegisterAlone(s: State, t: nat, w: Waker)
    requires Calm(s, t)
    ensures Alone(s, t, Register(w), 3) == s.(cell := Some(w))
  {
    var a := Move(s, t, Register(w));
    var b := Move(a, t, Advance);
    var c := Move(b, t, Advance);
    assert ThreadOk(s, t);
    assert Alone(s, t, Register(w), 0) == a && Alone(s, t, Register(w), 1) == b && Alone(s, t, Register(w), 2) == c;
    assert Move(c, t, Advance).pcs == s.pcs;
  }

  /** A wake empties the cell and wakes the task registered there, if there is one, and no other. */
  lemma WakeAlone(s: State, t: nat)
    requires Calm(s, t)
    ensures Alone(s, t, Wake, 4) ==
            s.(cell := None, notified := if s.cell.Some? then s.notified + {s.cell.value} else s.notified)
  {
    var a := Move(s, t, Wake);
    var b := Move(a, t, Advance);
    var c := Move(b, t, Advance);
    var d := Move(c, t, Advance);
    assert ThreadOk(s, t);
    assert Alone(s, t, Wake, 0) == a && Alone(s, t, Wake, 1) == b;
    assert Alone(s, t, Wake, 2) == c && Alone(s, t, Wake, 3) == d;
    assert Move(d, t, Advance).pcs == s.pcs;
  }

  /** A registration that finds a wake under way wakes its own task at once. */
  lemma RegisterDuringWake(s: State, t: nat, w: Waker)
    requires Inv(s) && t < |s.pcs| && s.pcs[t].Quiet? && s.state == WAKING
    ensures Alone(s, t, Register(w), 2) == s.(notified := s.notified + {w})
  {
    var a := Move(s, t, Register(w));
    var b := Move(a, t, Advance);
    assert Alone(s, t, Register(w), 0) == a && Alone(s, t, Register(w), 1) == b;
    assert Move(b, t, Advance).pcs == s.pcs;
  }

  /** A wake that finds another call in the cell leaves it to that call: it only sets the bit. */
  lemma WakeDuringCall(s: State, t: nat)
    requires Inv(s) && t < |s.pcs| && s.pcs[t].Quiet? && s.state != WAITING
    ensures Alone(s, t, Wake, 1) == s.(state := if s.state == WAKING then WAKING else REGISTERING + WAKING)
  {
    assert Alone(s, t, Wake, 0) == Move(s, t, Wake);
    assert Alone(s, t, Wake, 1).pcs == s.pcs;
  }

  /** A registration that finds another one under way is left out. */
  lemma RegisterDuringRegister(s: State, t: nat, w: Waker)
    requires Inv(s) && t < |s.pcs| && s.pcs[t].Quiet? && (s.state == REGISTERING || s.state == REGISTERING + WAKING)
    ensures Alone(s, t, Register(w), 1) == s
  {
    assert Alone(s, t, Register(w), 0) == Move(s, t, Register(w));
    assert Alone(s, t, Register(w), 1).pcs == s.pcs;
  }

  // ----- a wake during a registration -----

  /** Thread `p`, which is registering `w`, has been asked to wake it. */
  ghost predicate Asks(s: State, p: nat, w: Waker) {
    p < |s.pcs| && Registering(s.pcs[p]) && s.pcs[p].waker == w && s.state == REGISTERING + WAKING
  }

  /** A wake that comes while a thread registers asks that thread. */
  lemma WakeAsks(s: State, t: nat, p: nat, w: Waker)
    requires Inv(s) && t < |s.pcs| && p < |s.pcs| && s.pcs[t] == TakeOr
    requires Registering(s.pcs[p]) && s.pcs[p].waker == w
    ensures Asks(Step(s, t), p, w)
  {
    assert ThreadOk(s, t) && ThreadOk(s, p);
  }

  /** The thread stays asked whatever the others do, and each of its own steps leads on: it takes the waker back, gives up
  the cell, and then wakes the task. */
  lemma AskedThreadWakes(s: State, t: nat, p: nat, w: Waker)
    requires Inv(s) && t < |s.pcs| && Asks(s, p, w)
    ensures var r := Step(s, t);
            if t != p then Asks(r, p, w) && r.pcs[p] == s.pcs[p]
            else match s.pcs[p]
                 case RegStore(_) => Asks(r, p, w) && r.pcs[p] == RegRelease(w)
                 case RegRelease(_) => Asks(r, p, w) && r.pcs[p] == RegTake(w)
                 case RegTake(_) => Asks(r, p, w) && r.pcs[p] == RegSwap(w)
                 case _ => r.pcs[p] == WakeCall(Some(w)) && r.state == WAITING
  {
    assert ThreadOk(s, t) && ThreadOk(s, p);
  }

  // ----- only registered tasks are woken -----

  function WakerOf(pc: Pc): Option<Waker> {
    match pc
    case RegExchange(w) => Some(w)
    case RegStore(w) => Some(w)
    case RegRelease(w) => Some(w)
    case RegTake(w) => Some(w)
    case RegSwap(w) => Some(w)
    case TakeSwap(taken) => taken
    case WakeCall(taken) => taken
    case _ => None
  }

  /** Every waker anywhere is one of these. */
  ghost predicate Knows(s: State, wakers: set<Waker>) {
    && (s.cell.Some? ==> s.cell.value in wakers) && s.notified <= wakers
    && forall t :: 0 <= t < |s.pcs| ==> var w := WakerOf(s.pcs[t]); w.Some? ==> w.value in wakers
  }

  function Asked(c: Choice): set<Waker> {
    if c.Register? then {c.waker} else {}
  }

  lemma MoveKnows(s: State, t: nat, c: Choice, wakers: set<Waker>)
    requires t < |s.pcs| && Knows(s, wakers)
    ensures Knows(Move(s, t, c), wakers + Asked(c))
  {
    var r, all := Move(s, t, c), wakers + Asked(c);
    assert WakerOf(s.pcs[t]).Some? ==> WakerOf(s.pcs[t]).value in wakers;
    forall u | 0 <= u < |r.pcs| && WakerOf(r.pcs[u]).Some? ensures WakerOf(r.pcs[u]).value in all {
      assert u != t ==> r.pcs[u] == s.pcs[u];
    }
  }

  /** In every run the tasks that were woken are tasks that asked for it. */
  lemma {:induction false} OnlyRegisteredAreWoken(threads: nat, schedule: seq<(nat, Choice)>)
    requires forall i :: 0 <= i < |schedule| ==> schedule[i].0 < threads
    ensures Knows(Run(Initial(threads), schedule), AllAsked(schedule))
    ensures Run(Initial(threads), schedule).notified <= AllAsked(schedule)
    decreases |schedule|
  {
    if schedule == [] {
    } else {
      var front, last := schedule[..|schedule| - 1], schedule[|schedule| - 1];
      OnlyRegisteredAreWoken(threads, front);
      MoveKnows(Run(Initial(threads), front), last.0, last.1, AllAsked(front));
    }
  }

  /** A turn of a run is a move of its thread. */
  lemma RunOn(s: State, schedule: seq<(nat, Choice)>, last: (nat, Choice))
    requires (forall i :: 0 <= i < |schedule| ==> schedule[i].0 < |s.pcs|) && last.0 < |s.pcs|
    ensures Run(s, schedule + [last]) == Move(Run(s, schedule), last.0, last.1)
  {
    assert (schedule + [last])[..|schedule|] == schedule;
  }

  function AllAsked(schedule: seq<(nat, Choice)>): set<Waker>
    decreases |schedule|
  {
    if schedule == [] then {} else AllAsked(schedule[..|schedule| - 1]) + Asked(schedule[|schedule| - 1].1)
  }
}
