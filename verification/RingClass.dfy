/** The ring as the program keeps it: 64-bit cursors and stamps and a buffer of cells, changed in place.

Each method is one atomic operation of one thread; `model` is the ordinal state it stands for.
A word only tells ordinals apart inside one window, so a thread must not sleep between two of its
operations while the write cursor goes through almost a whole window (at least eight laps).
*/
module RingClass {
  import opened Modular
  import opened Options
  import opened RingPositions
  import opened RingMachine
  import opened RingInvariant
  import opened RingSteps

  datatype WordSlot<+T> = WordSlot(stamp: int, cell: Cell<T>)

  // ----- ordinals as words -----

  ghost function StampWord(capacity: int, stamp: Stamp): int
    requires capacity >= 1
  {
    match stamp
    case Free(ord) => Position(capacity, ord)
    case Full(ord) => (Position(capacity, ord) + 1) % WORD
  }

  ghost function PcWord<T>(capacity: int, pc: Pc<T>): Pc<T>
    requires capacity >= 1
  {
    match pc
    case PushStamp(item, overwrite, pos) => PushStamp(item, overwrite, Position(capacity, pos))
    case PushClaim(item, overwrite, pos) => PushClaim(item, overwrite, Position(capacity, pos))
    case PushWrite(item, pos) => PushWrite(item, Position(capacity, pos))
    case PushCheckRead(item, overwrite, pos) => PushCheckRead(item, overwrite, Position(capacity, pos))
    case PushTakeOldest(item, pos) => PushTakeOldest(item, Position(capacity, pos))
    case PushAdvance(item, pos) => PushAdvance(item, Position(capacity, pos))
    case PushReplace(item, pos) => PushReplace(item, Position(capacity, pos))
    case PushPublish(pos, displaced) => PushPublish(Position(capacity, pos), displaced)
    case PopStamp(pos) => PopStamp(Position(capacity, pos))
    case PopClaim(pos) => PopClaim(Position(capacity, pos))
    case PopRead(pos) => PopRead(Position(capacity, pos))
    case PopFree(pos, item) => PopFree(Position(capacity, pos), item)
    case PopCheckWrite(pos) => PopCheckWrite(Position(capacity, pos))
    case LenLoadWrite(read) => LenLoadWrite(Position(capacity, read))
    case LenCheck(read, write, readThen) =>
      LenCheck(Position(capacity, read), Position(capacity, write), Position(capacity, readThen))
    case _ => pc
  }

  /** The position a thread still holds from an earlier load. */
  function Loaded<T>(pc: Pc<T>): Option<int> {
    match pc
    case PushStamp(_, _, pos) => Some(pos)
    case PushClaim(_, _, pos) => Some(pos)
    case PushCheckRead(_, _, pos) => Some(pos)
    case PushTakeOldest(_, pos) => Some(pos)
    case PopStamp(pos) => Some(pos)
    case PopClaim(pos) => Some(pos)
    case PopCheckWrite(pos) => Some(pos)
    case LenLoadWrite(read) => Some(read)
    case LenCheck(read, _, _) => Some(read)
    case _ => None
  }

  /** The write cursor has not gone through a window since thread `t` loaded its position. */
  ghost predicate Recent<T>(s: State<T>, t: nat) {
    s.capacity >= 1
    && (t < |s.threads| && Loaded(s.threads[t]).Some?
        ==> s.write - Loaded(s.threads[t]).value <= Window(s.capacity) - 3 * s.capacity)
  }

  lemma StampIsNear<T>(s: State<T>, i: int)
    requires Inv(s) && 0 <= i < s.capacity
    ensures s.write - 2 * s.capacity <= s.slots[i].stamp.ord < s.write + s.capacity
  {
    assert SlotOk(s, i);
    if s.slots[i].owner.Some? {
      assert ThreadOk(s, s.slots[i].owner.value);
    }
  }

  /** Within a window the stamp word decides the stamp. */
  lemma StampEquals(capacity: int, stamp: Stamp, pos: int)
    requires ValidCapacity(capacity) && NearStamp(capacity, stamp, pos)
    ensures StampWord(capacity, stamp) == Position(capacity, pos) <==> stamp == Free(pos)
    ensures StampWord(capacity, stamp) == (Position(capacity, pos) + 1) % WORD <==> stamp == Full(pos)
  {
    WindowDistinguishes(capacity, stamp.ord, pos);
    PositionIsEven(capacity, stamp.ord);
    PositionIsEven(capacity, pos);
    EvenIsNotOdd(Position(capacity, stamp.ord), Position(capacity, pos));
  }

  lemma EvenIsNotOdd(x: int, y: int)
    requires x % 2 == 0 && y % 2 == 0
    ensures x + 1 != y && x != y + 1
  {
  }

  /** The stamp met at a loaded position is less than a window away from it, and from one lap before it. */
  lemma MetStampIsNear<T>(s: State<T>, pos: int)
    requires ValidCapacity(s.capacity) && Inv(s)
    requires 0 <= pos <= s.write <= pos + Window(s.capacity) - 3 * s.capacity
    ensures NearStamp(s.capacity, SlotOf(s, pos).stamp, pos)
    ensures NearStamp(s.capacity, SlotOf(s, pos).stamp, pos - s.capacity)
  {
    StampIsNear(s, Index(s, pos));
    WindowSize(s.capacity);
  }

  ghost predicate NearStamp(capacity: int, stamp: Stamp, pos: int)
    requires capacity >= 1
  {
    -Window(capacity) < stamp.ord - pos < Window(capacity)
  }

  /** Comparing a stamp word with a position, as the code does, decides which ordinal the stamp is about. */
  ghost predicate Decides(capacity: int, word: int, position: int, stamp: Stamp, pos: int)
    requires capacity >= 1
  {
    && (word == position <==> stamp == Free(pos))
    && (word == (position + 1) % WORD <==> stamp == Full(pos))
    && (word == ((position - Lap(capacity)) % WORD + 1) % WORD <==> stamp == Full(pos - capacity))
  }

  lemma StampTest(capacity: int, stamp: Stamp, pos: int)
    requires ValidCapacity(capacity) && NearStamp(capacity, stamp, pos) && NearStamp(capacity, stamp, pos - capacity)
    ensures Decides(capacity, StampWord(capacity, stamp), Position(capacity, pos), stamp, pos)
  {
    StampEquals(capacity, stamp, pos);
    StampEquals(capacity, stamp, pos - capacity);
    LapOfPosition(capacity, pos);
  }

  /** The thread that is about to use the value of a cell finds one there. */
  lemma CellIsFull<T>(s: State<T>, t: nat)
    requires Inv(s) && t < |s.threads| && (s.threads[t].PushReplace? || s.threads[t].PopRead?)
    ensures SlotOf(s, s.threads[t].pos).cell.Init?
  {
    assert ThreadOk(s, t);
  }

  /** A loaded position is not past the cursor it was loaded from. */
  lemma LoadedBefore<T>(s: State<T>, t: nat)
    requires Inv(s) && t < |s.threads| && Loaded(s.threads[t]).Some?
    ensures 0 <= Loaded(s.threads[t]).value <= s.write
    ensures s.threads[t].PopStamp? || s.threads[t].PopClaim? ==> Loaded(s.threads[t]).value <= s.read
  {
    assert ThreadOk(s, t);
  }

  class Ring<T> {
    const capacity: int
    const lap: int
    const slots: array<WordSlot<T>>
    var read: int
    var write: int
    /** Where each thread is, with the words it has loaded. */
    var pcs: seq<Pc<T>>
    ghost var model: State<T>

    ghost predicate Valid()
      reads this, slots
    {
      && ValidCapacity(capacity) && lap == Lap(capacity)
      && slots.Length == capacity == model.capacity && Inv(model)
      && read == Position(capacity, model.read) && write == Position(capacity, model.write)
      && |pcs| == |model.threads|
      && (forall i :: 0 <= i < capacity ==>
            slots[i] == WordSlot(StampWord(capacity, model.slots[i].stamp), model.slots[i].cell))
      && (forall t :: 0 <= t < |pcs| ==> pcs[t] == PcWord(capacity, model.threads[t]))
    }

    /** An empty ring shared by `threads` threads. */
    constructor (capacity: int, threads: nat)
      requires ValidCapacity(capacity)
      ensures Valid() && model == Initial(capacity, threads) && fresh(slots)
    {
      this.capacity := capacity;
      lap := Lap(capacity);
      slots := new WordSlot<T>[capacity](i => WordSlot(i * 2, Uninit));
      read, write := 0, 0;
      pcs := seq(threads, i => Idle(NoCall));
      model := Initial(capacity, threads);
      InitialInv<T>(capacity, threads);
      forall i | 0 <= i < capacity ensures Position(capacity, i) == i * 2 { FirstLap(capacity, i); }
    }

    /** Moves the program counter of `t` and nothing else. */
    method Goto(t: nat, pc: Pc<T>, ghost c: Choice<T>)
      requires Valid() && t < |pcs|
      requires Step(model, t, c) == At(model, t, Step(model, t, c).threads[t])
      requires pc == PcWord(capacity, Step(model, t, c).threads[t])
      modifies this`pcs, this`model
      ensures Valid() && model == Step(old(model), t, c)
    {
      StepKeepsInv(model, t, c);
      pcs := pcs[t := pc];
      model := Step(model, t, c);
    }

    /** Moves a cursor together with the program counter; no stamp or cell changes. */
    method MoveCursor(t: nat, pc: Pc<T>, newRead: int, newWrite: int, ghost c: Choice<T>)
      requires Valid() && t < |pcs|
      requires SameWords(model, Step(model, t, c))
      requires pc == PcWord(capacity, Step(model, t, c).threads[t])
      requires newRead == Position(capacity, Step(model, t, c).read)
      requires newWrite == Position(capacity, Step(model, t, c).write)
      modifies this`pcs, this`model, this`read, this`write
      ensures Valid() && model == Step(old(model), t, c)
      ensures read == newRead && write == newWrite
    {
      StepKeepsInv(model, t, c);
      read, write := newRead, newWrite;
      pcs := pcs[t := pc];
      model := Step(model, t, c);
    }

    /** Changes one slot together with the program counter; no cursor moves. */
    method ChangeSlot(t: nat, index: nat, word: WordSlot<T>, pc: Pc<T>, ghost ord: int)
      requires Valid() && t < |pcs| && index == ord % capacity
      requires OneSlotChanged(model, Step(model, t, Advance), index)
      requires pc == PcWord(capacity, Step(model, t, Advance).threads[t])
      requires var slot := SlotOf(Step(model, t, Advance), ord);
               word == WordSlot(StampWord(capacity, slot.stamp), slot.cell)
      modifies this`pcs, this`model, slots
      ensures Valid() && model == Step(old(model), t, Advance)
    {
      StepKeepsInv(model, t, Advance);
      slots[index] := word;
      pcs := pcs[t := pc];
      model := Step(model, t, Advance);
    }

    // ----- push (src/spsc.rs:83-132) -----

    method PushLoadWrite(t: nat)
      requires Valid() && t < |pcs| && pcs[t].PushLoad?
      modifies this`pcs, this`model
      ensures Valid() && model == Step(old(model), t, Advance)
    {
      Goto(t, PushStamp(pcs[t].item, pcs[t].overwrite, write), Advance);
    }

    method PushLoadStamp(t: nat)
      requires Valid() && t < |pcs| && pcs[t].PushStamp? && Recent(model, t)
      modifies this`pcs, this`model
      ensures Valid() && model == Step(old(model), t, Advance)
    {
      LoadedBefore(model, t);
      PushStampStep(model, t);
      assert pcs[t] == PcWord(capacity, model.threads[t]);
      var PushStamp(item, overwrite, position) := pcs[t];
      var stamp := LoadStamp(position, model.threads[t].pos);
      if stamp == position {
        Goto(t, PushClaim(item, overwrite, position), Advance);
      } else if stamp == ((position - lap) % WORD + 1) % WORD {
        Goto(t, PushCheckRead(item, overwrite, position), Advance);
      } else {
        Goto(t, PushLoad(item, overwrite), Advance);
      }
    }

    /** Loads the stamp of the slot of a position. */
    method LoadStamp(position: nat, ghost ord: int) returns (stamp: int)
      requires Valid() && position == Position(capacity, ord)
      requires 0 <= ord <= model.write <= ord + Window(capacity) - 3 * capacity
      ensures Decides(capacity, stamp, position, SlotOf(model, ord).stamp, ord)
    {
      IndexOfPosition(capacity, ord);
      MetStampIsNear(model, ord);
      StampTest(capacity, SlotOf(model, ord).stamp, ord);
      var index := SlotIndex(capacity, position);
      assert index == Index(model, ord);
      stamp := slots[index].stamp;
    }

    /** Whether a cursor still is at the position loaded from it. */
    method StillAt(cursor: nat, position: nat, ghost now: int, ghost ord: int) returns (still: bool)
      requires ValidCapacity(capacity) && cursor == Position(capacity, now) && position == Position(capacity, ord)
      requires -Window(capacity) < now - ord < Window(capacity)
      ensures still <==> now == ord
    {
      WindowDistinguishes(capacity, now, ord);
      still := cursor == position;
    }

    /** The word of the next position. */
    method NextWord(position: nat, ghost ord: int) returns (next: int)
      requires ValidCapacity(capacity) && position == Position(capacity, ord)
      ensures next == Position(capacity, ord + 1)
    {
      NextOfPosition(capacity, ord);
      next := Next(capacity, position);
    }

    method PushClaimWrite(t: nat, c: Choice<T>)
      requires Valid() && t < |pcs| && pcs[t].PushClaim? && Recent(model, t)
      modifies this`pcs, this`model, this`read, this`write
      ensures Valid() && model == Step(old(model), t, c)
    {
      LoadedBefore(model, t);
      ghost var ord := model.threads[t].pos;
      ClaimMovesWrite(model, t, c);
      assert pcs[t] == PcWord(capacity, model.threads[t]);
      var PushClaim(item, overwrite, position) := pcs[t];
      var still := StillAt(write, position, model.write, ord);
      if !c.FailWeakly? && still {
        var next := NextWord(position, ord);
        MoveCursor(t, PushWrite(item, position), read, next, c);
      } else {
        Goto(t, PushLoad(item, overwrite), c);
      }
    }

    method PushWriteCell(t: nat)
      requires Valid() && t < |pcs| && pcs[t].PushWrite?
      modifies this`pcs, this`model, slots
      ensures Valid() && model == Step(old(model), t, Advance)
    {
      WriteChangesSlot(model, t);
      ghost var ord := model.threads[t].pos;
      IndexOfPosition(capacity, ord);
      assert pcs[t] == PcWord(capacity, model.threads[t]);
      var PushWrite(item, position) := pcs[t];
      var index := SlotIndex(capacity, position);
      ChangeSlot(t, index, slots[index].(cell := Init(item)), PushPublish(position, None), ord);
    }

    method PushStoreStamp(t: nat)
      requires Valid() && t < |pcs| && pcs[t].PushPublish?
      modifies this`pcs, this`model, slots
      ensures Valid() && model == Step(old(model), t, Advance)
    {
      PublishChangesSlot(model, t);
      ghost var ord := model.threads[t].pos;
      IndexOfPosition(capacity, ord);
      assert pcs[t] == PcWord(capacity, model.threads[t]);
      var PushPublish(position, displaced) := pcs[t];
      var index := SlotIndex(capacity, position);
      ChangeSlot(t, index, slots[index].(stamp := (position + 1) % WORD), Idle(Pushed(displaced)), ord);
    }

    /** Whether the read cursor is one lap behind the position. */
    method ReadsOldest(position: nat, ghost ord: int) returns (oldest: bool)
      requires Valid() && position == Position(capacity, ord)
      requires 0 <= ord <= model.write <= ord + Window(capacity) - 3 * capacity
      ensures oldest <==> model.read == ord - capacity
    {
      WindowSize(capacity);
      OldestTest(capacity, model.read, ord);
      oldest := read == (position - lap) % WORD;
    }

    /** The word of the cursor once it has passed the item one lap behind the position. */
    method PastOldest(position: nat, ghost ord: int) returns (next: int)
      requires ValidCapacity(capacity) && lap == Lap(capacity) && position == Position(capacity, ord)
      ensures next == Position(capacity, ord - capacity + 1)
    {
      LapOfPosition(capacity, ord);
      NextOfPosition(capacity, ord - capacity);
      next := Next(capacity, (position - lap) % WORD);
    }

    method PushLoadRead(t: nat)
      requires Valid() && t < |pcs| && pcs[t].PushCheckRead? && Recent(model, t)
      modifies this`pcs, this`model
      ensures Valid() && model == Step(old(model), t, Advance)
    {
      PushCheckStep(model, t);
      LoadedBefore(model, t);
      assert pcs[t] == PcWord(capacity, model.threads[t]);
      var PushCheckRead(item, overwrite, position) := pcs[t];
      var oldest := ReadsOldest(position, model.threads[t].pos);
      Goto(t, if !oldest then PushLoad(item, overwrite)
              else if overwrite then PushTakeOldest(item, position) else Idle(Rejected(item)), Advance);
    }

    method PushExchangeRead(t: nat)
      requires Valid() && t < |pcs| && pcs[t].PushTakeOldest? && Recent(model, t)
      modifies this`pcs, this`model, this`read, this`write
      ensures Valid() && model == Step(old(model), t, Advance)
    {
      TakeOldestMovesRead(model, t);
      LoadedBefore(model, t);
      assert pcs[t] == PcWord(capacity, model.threads[t]);
      var PushTakeOldest(item, position) := pcs[t];
      var oldest := ReadsOldest(position, model.threads[t].pos);
      if oldest {
        var next := PastOldest(position, model.threads[t].pos);
        MoveCursor(t, PushAdvance(item, position), next, write, Advance);
      } else {
        Goto(t, PushLoad(item, true), Advance);
      }
    }

    method PushStoreWrite(t: nat)
      requires Valid() && t < |pcs| && pcs[t].PushAdvance?
      modifies this`pcs, this`model, this`read, this`write
      ensures Valid() && model == Step(old(model), t, Advance)
    {
      assert pcs[t] == PcWord(capacity, model.threads[t]);
      AdvanceMovesWrite(model, t);
      var PushAdvance(item, position) := pcs[t];
      var next := NextWord(position, model.threads[t].pos);
      MoveCursor(t, PushReplace(item, position), read, next, Advance);
    }

    method PushReplaceCell(t: nat)
      requires Valid() && t < |pcs| && pcs[t].PushReplace?
      modifies this`pcs, this`model, slots
      ensures Valid() && model == Step(old(model), t, Advance)
    {
      CellIsFull(model, t);
      ReplaceChangesSlot(model, t);
      ghost var ord := model.threads[t].pos;
      IndexOfPosition(capacity, ord);
      assert pcs[t] == PcWord(capacity, model.threads[t]);
      var PushReplace(item, position) := pcs[t];
      var index := SlotIndex(capacity, position);
      var displaced := slots[index].cell.value;
      ChangeSlot(t, index, slots[index].(cell := Init(item)), PushPublish(position, Some(displaced)), ord);
    }

    // ----- pop (src/spsc.rs:134-164) -----

    method PopLoadRead(t: nat)
      requires Valid() && t < |pcs| && pcs[t].PopLoad?
      modifies this`pcs, this`model
      ensures Valid() && model == Step(old(model), t, Advance)
    {
      Goto(t, PopStamp(read), Advance);
    }

    method PopLoadStamp(t: nat)
      requires Valid() && t < |pcs| && pcs[t].PopStamp? && Recent(model, t)
      modifies this`pcs, this`model
      ensures Valid() && model == Step(old(model), t, Advance)
    {
      LoadedBefore(model, t);
      PopStampStep(model, t);
      assert pcs[t] == PcWord(capacity, model.threads[t]);
      var PopStamp(position) := pcs[t];
      var stamp := LoadStamp(position, model.threads[t].pos);
      if stamp == (position + 1) % WORD {
        Goto(t, PopClaim(position), Advance);
      } else if stamp == position {
        Goto(t, PopCheckWrite(position), Advance);
      } else {
        Goto(t, PopLoad, Advance);
      }
    }

    method PopClaimRead(t: nat, c: Choice<T>)
      requires Valid() && t < |pcs| && pcs[t].PopClaim? && Recent(model, t)
      modifies this`pcs, this`model, this`read, this`write
      ensures Valid() && model == Step(old(model), t, c)
    {
      LoadedBefore(model, t);
      ghost var ord := model.threads[t].pos;
      ClaimMovesRead(model, t, c);
      assert pcs[t] == PcWord(capacity, model.threads[t]);
      var PopClaim(position) := pcs[t];
      var still := StillAt(read, position, model.read, ord);
      if !c.FailWeakly? && still {
        var next := NextWord(position, ord);
        MoveCursor(t, PopRead(position), next, write, c);
      } else {
        Goto(t, PopLoad, c);
      }
    }

    method PopReadCell(t: nat)
      requires Valid() && t < |pcs| && pcs[t].PopRead?
      modifies this`pcs, this`model, slots
      ensures Valid() && model == Step(old(model), t, Advance)
    {
      CellIsFull(model, t);
      ReadChangesSlot(model, t);
      ghost var ord := model.threads[t].pos;
      IndexOfPosition(capacity, ord);
      assert pcs[t] == PcWord(capacity, model.threads[t]);
      var PopRead(position) := pcs[t];
      var index := SlotIndex(capacity, position);
      var item := slots[index].cell.value;
      ChangeSlot(t, index, slots[index].(cell := Uninit), PopFree(position, item), ord);
    }

    method PopStoreStamp(t: nat)
      requires Valid() && t < |pcs| && pcs[t].PopFree?
      modifies this`pcs, this`model, slots
      ensures Valid() && model == Step(old(model), t, Advance)
    {
      FreeChangesSlot(model, t);
      ghost var ord := model.threads[t].pos;
      IndexOfPosition(capacity, ord);
      LapOfPosition(capacity, ord);
      assert pcs[t] == PcWord(capacity, model.threads[t]);
      var PopFree(position, item) := pcs[t];
      var index := SlotIndex(capacity, position);
      ChangeSlot(t, index, slots[index].(stamp := (position + lap) % WORD), Idle(Popped(item)), ord);
    }

    method PopLoadWrite(t: nat)
      requires Valid() && t < |pcs| && pcs[t].PopCheckWrite? && Recent(model, t)
      modifies this`pcs, this`model
      ensures Valid() && model == Step(old(model), t, Advance)
    {
      LoadedBefore(model, t);
      assert pcs[t] == PcWord(capacity, model.threads[t]);
      var still := StillAt(write, pcs[t].pos, model.write, model.threads[t].pos);
      if still {
        Goto(t, Idle(Empty), Advance);
      } else {
        Goto(t, PopLoad, Advance);
      }
    }

    // ----- len (src/spsc.rs:166-183) -----

    method LenLoad(t: nat)
      requires Valid() && t < |pcs| && (pcs[t].LenLoadRead? || pcs[t].LenLoadWrite?)
      modifies this`pcs, this`model
      ensures Valid() && model == Step(old(model), t, Advance)
    {
      if pcs[t].LenLoadRead? {
        Goto(t, LenLoadWrite(read), Advance);
      } else {
        Goto(t, LenCheck(pcs[t].read, write, read), Advance);
      }
    }

    method LenCompare(t: nat)
      requires Valid() && t < |pcs| && pcs[t].LenCheck? && Recent(model, t)
      modifies this`pcs, this`model
      ensures Valid() && model == Step(old(model), t, Advance)
    {
      assert ThreadOk(model, t);
      WindowDistinguishes(capacity, model.read, model.threads[t].read);
      var LenCheck(readWord, writeWord, _) := pcs[t];
      if readWord == read {
        var count := LengthOfWords(readWord, writeWord, model.threads[t].read, model.threads[t].write);
        Goto(t, Idle(Count(count)), Advance);
      } else {
        Goto(t, LenLoadRead, Advance);
      }
    }

    method LengthOfWords(readWord: nat, writeWord: nat, ghost r: int, ghost w: int) returns (count: int)
      requires ValidCapacity(capacity) && lap == Lap(capacity) && slots.Length == capacity
      requires readWord == Position(capacity, r) && writeWord == Position(capacity, w)
      requires -Window(capacity) < w - r < Window(capacity)
      ensures count == LengthOf(capacity, r, w)
    {
      IndexOfPosition(capacity, r);
      IndexOfPosition(capacity, w);
      WindowDistinguishes(capacity, r, w);
      var readIndex, writeIndex := SlotIndex(capacity, readWord), SlotIndex(capacity, writeWord);
      count := if readWord == writeWord then 0
               else if writeIndex > readIndex then writeIndex - readIndex
               else slots.Length - readIndex + writeIndex;
    }

    /** A thread at rest begins a call. */
    method Begin(t: nat, c: Choice<T>)
      requires Valid() && t < |pcs| && pcs[t].Idle? && !c.Advance? && !c.FailWeakly?
      modifies this`pcs, this`model
      ensures Valid() && model == Step(old(model), t, c)
    {
      match c {
        case BeginPush(item, overwrite) => Goto(t, PushLoad(item, overwrite), c);
        case BeginPop => Goto(t, PopLoad, c);
        case BeginLen => Goto(t, LenLoadRead, c);
      }
    }

    /** The next atomic operation of `t`, whichever it is. */
    method Turn(t: nat, c: Choice<T>)
      requires Valid() && t < |pcs| && Recent(model, t)
      modifies this`pcs, this`model, this`read, this`write, slots
      ensures Valid() && model == Step(old(model), t, c)
    {
      if pcs[t].Idle? {
        TurnIdle(t, c);
      } else if pcs[t].PushClaim? || pcs[t].PopClaim? {
        TurnClaim(t, c);
      } else {
        OnlyClaimsChoose(model, t, c);
        TurnOther(t);
      }
    }

    method TurnClaim(t: nat, c: Choice<T>)
      requires Valid() && t < |pcs| && Recent(model, t) && (pcs[t].PushClaim? || pcs[t].PopClaim?)
      modifies this`pcs, this`model, this`read, this`write
      ensures Valid() && model == Step(old(model), t, c)
    {
      if pcs[t].PushClaim? {
        PushClaimWrite(t, c);
      } else {
        PopClaimRead(t, c);
      }
    }

    /** An operation without a choice. */
    method TurnOther(t: nat)
      requires Valid() && t < |pcs| && Recent(model, t)
      requires !pcs[t].Idle? && !pcs[t].PushClaim? && !pcs[t].PopClaim?
      modifies this`pcs, this`model, this`read, this`write, slots
      ensures Valid() && model == Step(old(model), t, Advance)
    {
      if pcs[t].PopLoad? || pcs[t].PopStamp? || pcs[t].PopRead? || pcs[t].PopFree? || pcs[t].PopCheckWrite? {
        TurnPop(t);
      } else if pcs[t].LenCheck? {
        LenCompare(t);
      } else if pcs[t].LenLoadRead? || pcs[t].LenLoadWrite? {
        LenLoad(t);
      } else {
        TurnPush(t);
      }
    }

    method TurnIdle(t: nat, c: Choice<T>)
      requires Valid() && t < |pcs| && pcs[t].Idle?
      modifies this`pcs, this`model
      ensures Valid() && model == Step(old(model), t, c)
    {
      if !c.Advance? && !c.FailWeakly? {
        Begin(t, c);
      }
    }

    method TurnPop(t: nat)
      requires Valid() && t < |pcs| && Recent(model, t)
      requires pcs[t].PopLoad? || pcs[t].PopStamp? || pcs[t].PopRead? || pcs[t].PopFree? || pcs[t].PopCheckWrite?
      modifies this`pcs, this`model, slots
      ensures Valid() && model == Step(old(model), t, Advance)
    {
      match pcs[t] {
        case PopLoad => PopLoadRead(t);
        case PopStamp(_) => PopLoadStamp(t);
        case PopRead(_) => PopReadCell(t);
        case PopFree(_, _) => PopStoreStamp(t);
        case PopCheckWrite(_) => PopLoadWrite(t);
      }
    }

    method TurnPush(t: nat)
      requires Valid() && t < |pcs| && Recent(model, t)
      requires pcs[t].PushLoad? || pcs[t].PushStamp? || pcs[t].PushWrite? || pcs[t].PushCheckRead?
               || pcs[t].PushTakeOldest? || pcs[t].PushAdvance? || pcs[t].PushReplace? || pcs[t].PushPublish?
      modifies this`pcs, this`model, this`read, this`write, slots
      ensures Valid() && model == Step(old(model), t, Advance)
    {
      match pcs[t] {
        case PushLoad(_, _) => PushLoadWrite(t);
        case PushStamp(_, _, _) => PushLoadStamp(t);
        case PushWrite(_, _) => PushWriteCell(t);
        case PushCheckRead(_, _, _) => PushLoadRead(t);
        case PushTakeOldest(_, _) => PushExchangeRead(t);
        case PushAdvance(_, _) => PushStoreWrite(t);
        case PushReplace(_, _) => PushReplaceCell(t);
        case PushPublish(_, _) => PushStoreStamp(t);
      }
    }
  }

  /** Comparing the read cursor with the position one lap back decides whether the ring is full. */
  lemma OldestTest(capacity: int, read: int, pos: int)
    requires ValidCapacity(capacity) && -Window(capacity) < read - (pos - capacity) < Window(capacity)
    ensures Position(capacity, read) == (Position(capacity, pos) - Lap(capacity)) % WORD <==> read == pos - capacity
  {
    WindowDistinguishes(capacity, read, pos - capacity);
    LapOfPosition(capacity, pos);
  }

  /** Only a thread at rest, or at a weak exchange, has a choice. */
  lemma OnlyClaimsChoose<T>(s: State<T>, t: nat, c: Choice<T>)
    requires Shaped(s) && t < |s.threads|
    requires !s.threads[t].Idle? && !s.threads[t].PushClaim? && !s.threads[t].PopClaim?
    ensures Step(s, t, c) == Step(s, t, Advance)
  {
  }

  lemma FirstLap(capacity: int, i: int)
    requires ValidCapacity(capacity) && 0 <= i < capacity
    ensures Position(capacity, i) == i * 2
  {
    DivModUnique(i, capacity, 0, i);
    LapFacts(capacity);
    DivModUnique(2 * i, WORD, 0, 2 * i);
  }
}
