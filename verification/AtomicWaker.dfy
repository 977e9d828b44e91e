/** The one-cell wakeup primitive as a machine of atomic steps.

Any number of threads call `register`, `take` and `wake`.  One step is one atomic operation on the state
word, one access of the waker cell, or one call of a waker.  A failed assertion or `unwrap` of the program
sends the thread to `Failed`.
*/
module AtomicWaker {
  import opened Options

  /** A waker is known by the task it wakes: equal wakers wake the same task. */
  type Waker = nat

  const WAITING := 0
  const REGISTERING := 1
  const WAKING := 2

  datatype Pc =
    | Quiet
    | RegExchange(waker: Waker)
    | RegStore(waker: Waker)
    | RegRelease(waker: Waker)
    | RegTake(waker: Waker)
    | RegSwap(waker: Waker)
    | TakeOr
    | TakeCell
    | TakeSwap(taken: Option<Waker>)
    | WakeCall(taken: Option<Waker>)
    | Failed

  /** `holder` is a history variable, the thread that may access the cell; `notified` collects the tasks woken. */
  datatype State = State(
    state: int,
    cell: Option<Waker>,
    pcs: seq<Pc>,
    holder: Option<nat>,
    notified: set<Waker>)

  function Initial(threads: nat): State {
    State(WAITING, None, seq(threads, i => Quiet), None, {})
  }

  /** Sets the WAKING bit. */
  function OrWaking(state: int): int {
    if (state / WAKING) % 2 == 1 then state else state + WAKING
  }

  function At(s: State, t: nat, pc: Pc): State
    requires t < |s.pcs|
  {
    s.(pcs := s.pcs[t := pc])
  }

  function Step(s: State, t: nat): (r: State)
    requires t < |s.pcs|
    ensures |r.pcs| == |s.pcs|
    ensures forall u :: 0 <= u < |s.pcs| && u != t ==> r.pcs[u] == s.pcs[u]
  {
    match s.pcs[t]
    case RegExchange(waker) =>
      if s.state == WAITING then At(s, t, RegStore(waker)).(state := REGISTERING, holder := Some(t))
      else if s.state == WAKING then At(s, t, WakeCall(Some(waker)))
      else At(s, t, if s.state == REGISTERING || s.state == REGISTERING + WAKING then Quiet else Failed)
    case RegStore(waker) => At(s, t, RegRelease(waker)).(cell := if s.cell == Some(waker) then s.cell else Some(waker))
    case RegRelease(waker) =>
      if s.state == REGISTERING then At(s, t, Quiet).(state := WAITING, holder := None)
      else At(s, t, if s.state == REGISTERING + WAKING then RegTake(waker) else Failed)
    case RegTake(_) =>
      if s.cell.None? then At(s, t, Failed) else At(s, t, RegSwap(s.cell.value)).(cell := None)
    case RegSwap(waker) => At(s, t, WakeCall(Some(waker))).(state := WAITING, holder := None)
    case TakeOr =>
      if s.state == WAITING then At(s, t, TakeCell).(state := OrWaking(s.state), holder := Some(t))
      else
        var known := s.state == REGISTERING || s.state == REGISTERING + WAKING || s.state == WAKING;
        At(s, t, if known then Quiet else Failed).(state := OrWaking(s.state))
    case TakeCell => At(s, t, TakeSwap(s.cell)).(cell := None)
    case TakeSwap(taken) =>
      At(s, t, if s.state == WAKING then WakeCall(taken) else Failed).(state := WAITING, holder := None)
    case WakeCall(taken) =>
      At(s, t, Quiet).(notified := if taken.Some? then s.notified + {taken.value} else s.notified)
    case _ => s
  }

  // ----- exclusive access, for any number of concurrent calls -----

  predicate Registering(pc: Pc) {
    pc.RegStore? || pc.RegRelease? || pc.RegTake? || pc.RegSwap?
  }

  predicate Taking(pc: Pc) {
    pc.TakeCell? || pc.TakeSwap?
  }

  ghost predicate ThreadOk(s: State, t: nat)
    requires t < |s.pcs|
  {
    var pc := s.pcs[t];
    && ((Registering(pc) || Taking(pc)) <==> s.holder == Some(t))
    && (Registering(pc) ==> s.state == REGISTERING || s.state == REGISTERING + WAKING)
    && (pc.RegTake? || pc.RegSwap? ==> s.state == REGISTERING + WAKING)
    && (pc.RegRelease? || pc.RegTake? ==> s.cell == Some(pc.waker))
    && (Taking(pc) ==> s.state == WAKING)
    && !pc.Failed?
  }

  ghost predicate Inv(s: State) {
    && (s.state == WAITING || s.state == REGISTERING || s.state == WAKING || s.state == REGISTERING + WAKING)
    && (s.holder == None <==> s.state == WAITING)
    && (s.holder.Some? ==> s.holder.value < |s.pcs|)
    && (forall t: nat :: t < |s.pcs| ==> ThreadOk(s, t))
  }

  /** Every step of every thread keeps the cell to one thread at a time, and no assertion or `unwrap` fails. */
  lemma StepKeepsInv(s: State, t: nat)
    requires Inv(s) && t < |s.pcs|
    ensures Inv(Step(s, t))
  {
    var r := Step(s, t);
    assert ThreadOk(s, t);
    forall u: nat | u < |r.pcs| ensures ThreadOk(r, u) {
      assert ThreadOk(s, u);
    }
  }

  lemma InitialInv(threads: nat)
    ensures Inv(Initial(threads))
  {
  }

  /** The thread whose next step reads or writes the cell. */
  predicate InCell(pc: Pc) {
    pc.RegStore? || pc.RegTake? || pc.TakeCell?
  }

  lemma CellIsExclusive(s: State, t: nat, u: nat)
    requires Inv(s) && t < |s.pcs| && u < |s.pcs| && InCell(s.pcs[t]) && InCell(s.pcs[u])
    ensures t == u
    ensures s.pcs[t].RegTake? ==> s.cell.Some?
    ensures s.state != WAITING
  {
    assert ThreadOk(s, t) && ThreadOk(s, u);
  }

  // ----- no registration is lost while one task registers -----

  /** Thread `t` will wake `w`, or is about to ask for a wakeup. */
  ghost predicate Wakes(s: State, t: nat, w: Waker) {
    t < |s.pcs|
    && (|| s.pcs[t] == TakeSwap(Some(w))
        || s.pcs[t] == WakeCall(Some(w))
        || (s.pcs[t] == TakeCell && s.cell == Some(w)))
  }

  /** The registration of `w` is kept: in the cell, in the hands of a waking thread, or already used. */
  ghost predicate Kept(s: State, w: Waker) {
    w in s.notified || (s.state == WAITING && s.cell == Some(w)) || exists t :: Wakes(s, t, w)
  }

  /** `w` has been woken, or a wake is in flight. */
  ghost predicate Coming(s: State, w: Waker) {
    w in s.notified || exists t: nat :: t < |s.pcs| && (Wakes(s, t, w) || s.pcs[t] == TakeOr)
  }

  predicate IsRegister(pc: Pc) {
    pc.RegExchange? || Registering(pc)
  }

  lemma WakesSurvives(s: State, t: nat, u: nat, w: Waker)
    requires Inv(s) && t < |s.pcs| && Wakes(s, u, w) && !IsRegister(s.pcs[t])
    ensures w in Step(s, t).notified || Wakes(Step(s, t), u, w)
  {
    assert ThreadOk(s, t) && ThreadOk(s, u);
  }

  /** A step of a thread that does not register keeps the registration. */
  lemma StepKeepsKept(s: State, t: nat, w: Waker)
    requires Inv(s) && t < |s.pcs| && !IsRegister(s.pcs[t]) && Kept(s, w)
    ensures Kept(Step(s, t), w)
  {
    var r := Step(s, t);
    assert ThreadOk(s, t);
    if u :| Wakes(s, u, w) {
      WakesSurvives(s, t, u, w);
    } else if w !in s.notified && s.pcs[t] == TakeOr {
      assert Wakes(r, t, w);
    }
  }

  /** A wake in flight stays in flight until the task is woken: asking for a wakeup finds the registration. */
  lemma StepKeepsComing(s: State, t: nat, w: Waker)
    requires Inv(s) && t < |s.pcs| && !IsRegister(s.pcs[t]) && Kept(s, w) && Coming(s, w)
    ensures Coming(Step(s, t), w)
  {
    var r := Step(s, t);
    assert ThreadOk(s, t);
    if u :| Wakes(s, u, w) {
      WakesSurvives(s, t, u, w);
    } else if w !in s.notified {
      var u: nat :| u < |s.pcs| && s.pcs[u] == TakeOr;
      if u == t { assert Wakes(r, t, w); } else { assert r.pcs[u] == TakeOr; }
    }
  }

  /** What holds between the steps of the only thread that registers, of waker `w`. */
  ghost predicate Registers(s: State, p: nat, w: Waker) {
    p < |s.pcs|
    && match s.pcs[p]
       case RegExchange(x) => x == w && s.state != REGISTERING && s.state != REGISTERING + WAKING
       case RegStore(x) => x == w
       case RegRelease(x) => x == w
       case RegTake(x) => x == w
       case RegSwap(x) => x == w
       case WakeCall(taken) => taken == Some(w)
       case Quiet => Kept(s, w)
       case _ => false
  }

  ghost predicate OnlyRegisters(s: State, p: nat) {
    forall t: nat :: t < |s.pcs| && t != p ==> !IsRegister(s.pcs[t])
  }

  /** Any step, of the registering thread or of another, leads `register` on to a kept registration. */
  lemma StepKeepsRegisters(s: State, p: nat, w: Waker, t: nat)
    requires Inv(s) && t < |s.pcs| && OnlyRegisters(s, p) && Registers(s, p, w)
    ensures Registers(Step(s, t), p, w)
  {
    var r := Step(s, t);
    assert ThreadOk(s, t) && ThreadOk(s, p);
    StepKeepsInv(s, t);
    if t != p {
      if s.pcs[p] == Quiet { StepKeepsKept(s, t, w); }
    }
  }

  /** A thread outside the waker that changes its program counter disturbs no registration. */
  lemma KeptElsewhere(s: State, r: State, t: nat, w: Waker)
    requires t < |s.pcs| == |r.pcs| && s.pcs[t].Quiet? && r == At(s, t, r.pcs[t])
    ensures Kept(s, w) ==> Kept(r, w)
    ensures forall p: nat :: p != t && Registers(s, p, w) ==> Registers(r, p, w)
  {
    if u :| Wakes(s, u, w) {
      assert Wakes(r, u, w);
    }
  }

  /** The start of a poll uses up the notifications of its waker so far. */
  lemma ForgetKeepsInv(s: State, w: Waker)
    requires Inv(s)
    ensures Inv(s.(notified := s.notified - {w}))
  {
    forall t: nat | t < |s.pcs| ensures ThreadOk(s.(notified := s.notified - {w}), t) { assert ThreadOk(s, t); }
  }

  // ----- runs -----

  datatype Choice = Register(waker: Waker) | Wake | Advance

  /** A thread at rest begins a call, another takes its next step. */
  function Move(s: State, t: nat, c: Choice): (r: State)
    requires t < |s.pcs|
    ensures |r.pcs| == |s.pcs|
  {
    if s.pcs[t].Quiet? then
      match c
      case Register(waker) => At(s, t, RegExchange(waker))
      case Wake => At(s, t, TakeOr)
      case Advance => s
    else Step(s, t)
  }

  function Run(s: State, schedule: seq<(nat, Choice)>): (r: State)
    requires forall i :: 0 <= i < |schedule| ==> schedule[i].0 < |s.pcs|
    ensures |r.pcs| == |s.pcs|
    decreases |schedule|
  {
    if schedule == [] then s
    else
      var last := schedule[|schedule| - 1];
      Move(Run(s, schedule[..|schedule| - 1]), last.0, last.1)
  }

  lemma MoveKeepsInv(s: State, t: nat, c: Choice)
    requires Inv(s) && t < |s.pcs|
    ensures Inv(Move(s, t, c))
  {
    if s.pcs[t].Quiet? {
      var r := Move(s, t, c);
      forall u: nat | u < |r.pcs| ensures ThreadOk(r, u) {
        assert ThreadOk(s, u);
      }
    } else {
      StepKeepsInv(s, t);
    }
  }

  /** In every run, with any number of concurrent `register` and `wake` calls, no assertion and no `unwrap`
      fails, and no two threads are in the cell. */
  lemma {:induction false} EveryRunIsSafe(threads: nat, schedule: seq<(nat, Choice)>)
    requires forall i :: 0 <= i < |schedule| ==> schedule[i].0 < threads
    ensures var s := Run(Initial(threads), schedule);
            && Inv(s)
            && (forall t: nat :: t < threads ==> !s.pcs[t].Failed?)
            && (forall t: nat, u: nat :: t < u < threads ==> !(InCell(s.pcs[t]) && InCell(s.pcs[u])))
    decreases |schedule|
  {
    var s := Run(Initial(threads), schedule);
    if schedule == [] {
      InitialInv(threads);
    } else {
      var front, last := schedule[..|schedule| - 1], schedule[|schedule| - 1];
      EveryRunIsSafe(threads, front);
      MoveKeepsInv(Run(Initial(threads), front), last.0, last.1);
    }
    forall t: nat | t < threads ensures !s.pcs[t].Failed? { assert ThreadOk(s, t); }
    forall t: nat, u: nat | t < u < threads ensures !(InCell(s.pcs[t]) && InCell(s.pcs[u])) {
      assert ThreadOk(s, t) && ThreadOk(s, u);
    }
  }

  // ----- the primitive as the program keeps it -----

  /** The state word and the waker cell, changed in place; each method is one operation of one thread. */
  class WakerCell {
    var state: int
    var cell: Option<Waker>
    var pcs: seq<Pc>
    ghost var holder: Option<nat>
    ghost var notified: set<Waker>

    ghost function Value(): State
      reads this
    {
      State(state, cell, pcs, holder, notified)
    }

    constructor (threads: nat)
      ensures Value() == Initial(threads)
    {
      state, cell, pcs := WAITING, None, seq(threads, i => Quiet);
      holder, notified := None, {};
    }

    /** The compare-exchanges and the swap of `register`. */
    method RegisterStep(t: nat)
      requires Inv(Value()) && t < |pcs| && IsRegister(pcs[t])
      modifies this
      ensures Inv(Value()) && Value() == Step(old(Value()), t)
    {
      StepKeepsInv(Value(), t);
      assert ThreadOk(Value(), t);
      match pcs[t] {
        case RegExchange(waker) =>
          if state == WAITING {
            state, holder := REGISTERING, Some(t);
            pcs := pcs[t := RegStore(waker)];
          } else if state == WAKING {
            pcs := pcs[t := WakeCall(Some(waker))];
          } else {
            assert state == REGISTERING || state == REGISTERING + WAKING;
            pcs := pcs[t := Quiet];
          }
        case RegStore(waker) =>
          if cell != Some(waker) { cell := Some(waker); }
          pcs := pcs[t := RegRelease(waker)];
        case RegRelease(waker) =>
          if state == REGISTERING {
            state, holder := WAITING, None;
            pcs := pcs[t := Quiet];
          } else {
            assert state == REGISTERING + WAKING;
            pcs := pcs[t := RegTake(waker)];
          }
        case RegTake(_) =>
          var taken := cell.value;
          cell := None;
          pcs := pcs[t := RegSwap(taken)];
        case RegSwap(waker) =>
          state, holder := WAITING, None;
          pcs := pcs[t := WakeCall(Some(waker))];
      }
    }

    /** The fetch-or and the swap of `take`, and the call of the taken waker. */
    method TakeStep(t: nat)
      requires Inv(Value()) && t < |pcs| && (pcs[t].TakeOr? || Taking(pcs[t]) || pcs[t].WakeCall?)
      modifies this
      ensures Inv(Value()) && Value() == Step(old(Value()), t)
    {
      StepKeepsInv(Value(), t);
      assert ThreadOk(Value(), t);
      match pcs[t] {
        case TakeOr =>
          var before := state;
          state := OrWaking(state);
          if before == WAITING {
            holder := Some(t);
            pcs := pcs[t := TakeCell];
          } else {
            assert before == REGISTERING || before == REGISTERING + WAKING || before == WAKING;
            pcs := pcs[t := Quiet];
          }
        case TakeCell =>
          pcs := pcs[t := TakeSwap(cell)];
          cell := None;
        case TakeSwap(taken) =>
          assert state == WAKING;
          state, holder := WAITING, None;
          pcs := pcs[t := WakeCall(taken)];
        case WakeCall(taken) =>
          if taken.Some? { notified := notified + {taken.value}; }
          pcs := pcs[t := Quiet];
      }
    }
  }
}
