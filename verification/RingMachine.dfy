/** The lock-free ring as a machine of atomic steps.

Any number of threads call push, overwrite, pop and len.  One step is one atomic load, store,
compare-exchange or slot access of one thread, so every interleaving is a sequence of steps.
Cursors and stamps are ordinals here; module `RingClass` runs the same steps on 64-bit words.
*/
module RingMachine {
  import opened Options

  /** An even stamp permits the write of its ordinal, the next odd stamp permits its read. */
  datatype Stamp = Free(ord: int) | Full(ord: int)

  datatype Cell<+T> = Uninit | Init(value: T)

  /** `owner` is a history variable: the thread that has reserved the slot and not yet released it. */
  datatype Slot<+T> = Slot(stamp: Stamp, cell: Cell<T>, owner: Option<nat>)

  /** What the last call of a thread returned. */
  datatype Outcome<+T> =
    | NoCall
    | Pushed(displaced: Option<T>)
    | Rejected(item: T)
    | Popped(item: T)
    | Empty
    | Count(count: int)

  /** The next atomic operation of a thread. */
  datatype Pc<+T> =
    | Idle(last: Outcome<T>)
    | PushLoad(item: T, overwrite: bool)
    | PushStamp(item: T, overwrite: bool, pos: int)
    | PushClaim(item: T, overwrite: bool, pos: int)
    | PushWrite(item: T, pos: int)
    | PushCheckRead(item: T, overwrite: bool, pos: int)
    | PushTakeOldest(item: T, pos: int)
    | PushAdvance(item: T, pos: int)
    | PushReplace(item: T, pos: int)
    | PushPublish(pos: int, displaced: Option<T>)
    | PopLoad
    | PopStamp(pos: int)
    | PopClaim(pos: int)
    | PopRead(pos: int)
    | PopFree(pos: int, item: T)
    | PopCheckWrite(pos: int)
    | LenLoadRead
    | LenLoadWrite(read: int)
    | LenCheck(read: int, write: int, readThen: int)

  /** `entered` lists the items in write order; `delivered` maps the ordinals moved out to their items. */
  datatype State<T> = State(
    capacity: int,
    slots: seq<Slot<T>>,
    read: int,
    write: int,
    threads: seq<Pc<T>>,
    entered: seq<T>,
    delivered: map<int, T>)

  /** A scheduled thread either begins a call, or takes its next step; a weak exchange may fail. */
  datatype Choice<+T> =
    | BeginPush(item: T, overwrite: bool)
    | BeginPop
    | BeginLen
    | Advance
    | FailWeakly

  predicate Shaped<T>(s: State<T>) {
    s.capacity >= 1 && |s.slots| == s.capacity
  }

  function Index<T>(s: State<T>, ord: int): (i: int)
    requires s.capacity >= 1
    ensures 0 <= i < s.capacity
  {
    ord % s.capacity
  }

  function SlotOf<T>(s: State<T>, ord: int): Slot<T>
    requires Shaped(s)
  {
    s.slots[Index(s, ord)]
  }

  function Initial<T>(capacity: int, threads: nat): (s: State<T>)
    requires capacity >= 1
    ensures Shaped(s)
  {
    State(capacity, seq(capacity, i => Slot(Free(i), Uninit, None)), 0, 0,
          seq(threads, i => Idle(NoCall)), [], map[])
  }

  /** `r` follows `s` by a step of thread `t`: items only enter, and the other threads stay where they are. */
  ghost predicate Extends<T>(s: State<T>, r: State<T>, t: nat) {
    && r.capacity == s.capacity && |r.threads| == |s.threads|
    && s.entered <= r.entered
    && forall u: nat :: u < |s.threads| && u != t ==> r.threads[u] == s.threads[u]
  }

  function At<T>(s: State<T>, t: nat, pc: Pc<T>): (r: State<T>)
    requires t < |s.threads|
    ensures Shaped(s) ==> Shaped(r)
    ensures Extends(s, r, t)
  {
    s.(threads := s.threads[t := pc])
  }

  function WithSlot<T>(s: State<T>, ord: int, slot: Slot<T>): (r: State<T>)
    requires Shaped(s)
    ensures Shaped(r) && r.threads == s.threads
  {
    s.(slots := s.slots[Index(s, ord) := slot])
  }

  function LengthOf(capacity: int, read: int, write: int): int
    requires capacity >= 1
  {
    if read == write then 0
    else if write % capacity > read % capacity then write % capacity - read % capacity
    else capacity - read % capacity + write % capacity
  }

  function StepPush<T>(s: State<T>, t: nat, c: Choice<T>): (r: State<T>)
    requires Shaped(s) && t < |s.threads|
    ensures Shaped(r) && Extends(s, r, t)
  {
    match s.threads[t]
    case PushLoad(item, overwrite) => At(s, t, PushStamp(item, overwrite, s.write))
    case PushStamp(item, overwrite, pos) =>
      var stamp := SlotOf(s, pos).stamp;
      if stamp == Free(pos) then At(s, t, PushClaim(item, overwrite, pos))
      else if stamp == Full(pos - s.capacity) then At(s, t, PushCheckRead(item, overwrite, pos))
      else At(s, t, PushLoad(item, overwrite))
    case PushClaim(item, overwrite, pos) =>
      if !c.FailWeakly? && s.write == pos then
        At(WithSlot(s, pos, SlotOf(s, pos).(owner := Some(t))).(write := pos + 1, entered := s.entered + [item]),
           t, PushWrite(item, pos))
      else At(s, t, PushLoad(item, overwrite))
    case PushWrite(item, pos) =>
      At(WithSlot(s, pos, SlotOf(s, pos).(cell := Init(item))), t, PushPublish(pos, None))
    case PushCheckRead(item, overwrite, pos) =>
      if s.read == pos - s.capacity then
        if overwrite then At(s, t, PushTakeOldest(item, pos)) else At(s, t, Idle(Rejected(item)))
      else At(s, t, PushLoad(item, overwrite))
    case PushTakeOldest(item, pos) =>
      if s.read == pos - s.capacity then
        At(WithSlot(s, pos, SlotOf(s, pos).(owner := Some(t))).(read := pos - s.capacity + 1),
           t, PushAdvance(item, pos))
      else At(s, t, PushLoad(item, true))
    case PushAdvance(item, pos) =>
      At(s.(write := pos + 1, entered := s.entered + [item]), t, PushReplace(item, pos))
    case PushReplace(item, pos) =>
      // Replacing an uninitialised cell is undefined; `CellsAreInitialised` shows that it never happens.
      if SlotOf(s, pos).cell.Uninit? then s else
      var displaced := SlotOf(s, pos).cell.value;
      At(WithSlot(s, pos, SlotOf(s, pos).(cell := Init(item)))
         .(delivered := s.delivered[pos - s.capacity := displaced]),
         t, PushPublish(pos, Some(displaced)))
    case PushPublish(pos, displaced) =>
      At(WithSlot(s, pos, SlotOf(s, pos).(stamp := Full(pos), owner := None)), t, Idle(Pushed(displaced)))
    case _ => s
  }

  function StepPop<T>(s: State<T>, t: nat, c: Choice<T>): (r: State<T>)
    requires Shaped(s) && t < |s.threads|
    ensures Shaped(r) && Extends(s, r, t)
  {
    match s.threads[t]
    case PopLoad => At(s, t, PopStamp(s.read))
    case PopStamp(pos) =>
      var stamp := SlotOf(s, pos).stamp;
      if stamp == Full(pos) then At(s, t, PopClaim(pos))
      else if stamp == Free(pos) then At(s, t, PopCheckWrite(pos))
      else At(s, t, PopLoad)
    case PopClaim(pos) =>
      if !c.FailWeakly? && s.read == pos then
        At(WithSlot(s, pos, SlotOf(s, pos).(owner := Some(t))).(read := pos + 1), t, PopRead(pos))
      else At(s, t, PopLoad)
    case PopRead(pos) =>
      if SlotOf(s, pos).cell.Uninit? then s else
      var item := SlotOf(s, pos).cell.value;
      At(WithSlot(s, pos, SlotOf(s, pos).(cell := Uninit)).(delivered := s.delivered[pos := item]),
         t, PopFree(pos, item))
    case PopFree(pos, item) =>
      At(WithSlot(s, pos, SlotOf(s, pos).(stamp := Free(pos + s.capacity), owner := None)), t, Idle(Popped(item)))
    case PopCheckWrite(pos) =>
      if s.write == pos then At(s, t, Idle(Empty)) else At(s, t, PopLoad)
    case _ => s
  }

  function StepLen<T>(s: State<T>, t: nat): (r: State<T>)
    requires Shaped(s) && t < |s.threads|
    ensures Shaped(r) && Extends(s, r, t)
  {
    match s.threads[t]
    case LenLoadRead => At(s, t, LenLoadWrite(s.read))
    case LenLoadWrite(read) => At(s, t, LenCheck(read, s.write, s.read))
    case LenCheck(read, write, _) =>
      if s.read == read then At(s, t, Idle(Count(LengthOf(s.capacity, read, write)))) else At(s, t, LenLoadRead)
    case _ => s
  }

  function StepIdle<T>(s: State<T>, t: nat, c: Choice<T>): (r: State<T>)
    requires Shaped(s) && t < |s.threads|
    ensures Shaped(r) && Extends(s, r, t)
  {
    match c
    case BeginPush(item, overwrite) => At(s, t, PushLoad(item, overwrite))
    case BeginPop => At(s, t, PopLoad)
    case BeginLen => At(s, t, LenLoadRead)
    case _ => s
  }

  function Step<T>(s: State<T>, t: nat, c: Choice<T>): (r: State<T>)
    requires Shaped(s) && t < |s.threads|
    ensures Shaped(r) && Extends(s, r, t)
  {
    var pc := s.threads[t];
    if pc.Idle? then StepIdle(s, t, c)
    else if pc.PopLoad? || pc.PopStamp? || pc.PopClaim? || pc.PopRead? || pc.PopFree? || pc.PopCheckWrite? then
      StepPop(s, t, c)
    else if pc.LenLoadRead? || pc.LenLoadWrite? || pc.LenCheck? then StepLen(s, t)
    else StepPush(s, t, c)
  }
}
