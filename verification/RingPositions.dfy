/** Positions of the lock-free ring as 64-bit words.

A cursor counts pushes and pops by an ordinal 0, 1, 2, ...  The ring stores the ordinal `k` as a
position: the lap number in the high bits and twice the slot index in the low bits.  This module
shows that the word arithmetic of the ring computes on ordinals, and exactly when two words tell
two ordinals apart.
*/
module RingPositions {
  import opened Modular

  ghost predicate IsPowerOfTwo(p: int)
    decreases p
  {
    p == 1 || (p > 1 && p % 2 == 0 && IsPowerOfTwo(p / 2))
  }

  function NextPowerOfTwo(n: nat): (p: int)
    requires n >= 1
    ensures n <= p < 2 * n && IsPowerOfTwo(p)
  {
    if n == 1 then 1 else 2 * NextPowerOfTwo((n + 1) / 2)
  }

  function Lap(capacity: int): int
    requires capacity >= 1
  {
    2 * NextPowerOfTwo(capacity)
  }

  /** A slot holds at least the eight bytes of its stamp, and no allocation exceeds 2^63 - 1 bytes. */
  predicate ValidCapacity(capacity: int) {
    1 <= capacity <= 0x1000_0000_0000_0000
  }

  /** Bitwise conjunction of two words. */
  function And(a: nat, b: nat): nat {
    if a == 0 || b == 0 then 0 else 2 * And(a / 2, b / 2) + (a % 2) * (b % 2)
  }

  /** Bitwise complement of a word. */
  function Not(a: int): int {
    WORD - 1 - a
  }

  function SlotIndex(capacity: int, position: nat): int
    requires capacity >= 1
  {
    And(position, Lap(capacity) - 1) / 2
  }

  function Next(capacity: int, position: nat): int
    requires ValidCapacity(capacity)
  {
    if SlotIndex(capacity, position) + 1 == capacity then
      (And(position, Not(Lap(capacity) - 1)) + Lap(capacity)) % WORD
    else
      (position + 2) % WORD
  }

  /** The position of ordinal `k` before it is cut to a word. */
  ghost function Unbounded(capacity: int, k: int): int
    requires capacity >= 1
  {
    (k / capacity) * Lap(capacity) + 2 * (k % capacity)
  }

  ghost function Position(capacity: int, k: int): nat
    requires capacity >= 1
  {
    Unbounded(capacity, k) % WORD
  }

  /** Distance at which two ordinals share a word: one full wrap of a cursor. */
  ghost function Window(capacity: int): int
    requires capacity >= 1
  {
    capacity * (WORD / Lap(capacity))
  }

  // ----- bit operations are arithmetic on powers of two -----

  lemma {:induction false} AndLowBits(a: nat, p: int)
    requires IsPowerOfTwo(p)
    ensures And(a, p - 1) == a % p
    decreases p
  {
    if p <= 1 {
    } else {
      AndLowBits(a / 2, p / 2);
      assert (p - 1) / 2 == p / 2 - 1;
      HalfMod(a, p);
    }
  }

  lemma HalfMod(a: nat, p: int)
    requires p > 1 && p % 2 == 0
    ensures a % p == 2 * ((a / 2) % (p / 2)) + a % 2
  {
    var h, q, r := p / 2, (a / 2) / (p / 2), (a / 2) % (p / 2);
    assert a == 2 * (h * q + r) + a % 2;
    assert a == p * q + (2 * r + a % 2);
    DivModUnique(a, p, q, 2 * r + a % 2);
  }

  lemma {:induction false} AndHighBits(a: nat, p: int, w: int)
    requires IsPowerOfTwo(p) && IsPowerOfTwo(w) && p <= w && a < w
    ensures And(a, w - p) == a - a % p
    decreases p
  {
    if p == 1 {
      AndLowBits(a, w);
      DivModUnique(a, w, 0, a);
    } else {
      assert w > 1;
      AndHighBits(a / 2, p / 2, w / 2);
      assert (w - p) / 2 == w / 2 - p / 2 && (w - p) % 2 == 0;
      HalfMod(a, p);
    }
  }

  lemma {:induction false} PowersDivide(p: int, w: int)
    requires IsPowerOfTwo(p) && IsPowerOfTwo(w) && p <= w
    ensures w % p == 0
    decreases p
  {
    if p <= 1 {
    } else {
      PowersDivide(p / 2, w / 2);
      HalfMod(w, p);
    }
  }

  lemma PowerDouble(m: int)
    requires m >= 1 && IsPowerOfTwo(m)
    ensures IsPowerOfTwo(2 * m)
  {
    assert (2 * m) / 2 == m;
  }

  lemma PowerTimes16(m: int)
    requires m >= 1 && IsPowerOfTwo(m)
    ensures IsPowerOfTwo(0x10 * m)
  {
    PowerDouble(m);
    PowerDouble(2 * m);
    PowerDouble(4 * m);
    PowerDouble(8 * m);
  }

  lemma PowerTimes65536(m: int)
    requires m >= 1 && IsPowerOfTwo(m)
    ensures IsPowerOfTwo(0x1_0000 * m)
  {
    PowerTimes16(m);
    PowerTimes16(0x10 * m);
    PowerTimes16(0x100 * m);
    PowerTimes16(0x1000 * m);
  }

  lemma WordIsPowerOfTwo()
    ensures IsPowerOfTwo(WORD) && IsPowerOfTwo(WORD / 16)
  {
    PowerTimes65536(1);
    PowerTimes65536(0x1_0000);
    PowerTimes65536(0x1_0000_0000);
    PowerTimes16(0x1_0000_0000_0000);
    PowerTimes16(0x10_0000_0000_0000);
    PowerTimes16(0x100_0000_0000_0000);
    PowerTimes16(0x1000_0000_0000_0000);
  }

  lemma {:induction false} PowerAtMost(p: int, w: int, n: int)
    requires IsPowerOfTwo(p) && IsPowerOfTwo(w) && p < 2 * n && n <= w
    ensures p <= w
    decreases w
  {
    if w > 1 && p > 1 {
      PowerAtMost(p / 2, w / 2, if n <= w / 2 then n else w / 2);
    }
  }

  lemma LapFacts(capacity: int)
    requires ValidCapacity(capacity)
    ensures 2 * capacity <= Lap(capacity) <= WORD / 8
    ensures IsPowerOfTwo(Lap(capacity)) && WORD % Lap(capacity) == 0
    ensures WORD == Lap(capacity) * (WORD / Lap(capacity)) && WORD / Lap(capacity) >= 8
  {
    var half := NextPowerOfTwo(capacity);
    var lap := 2 * half;
    assert IsPowerOfTwo(lap) by { assert lap / 2 == half; }
    WordIsPowerOfTwo();
    PowerAtMost(half, WORD / 16, capacity);
    PowersDivide(lap, WORD);
    QuotientAtLeast(WORD, lap, 8);
  }

  lemma QuotientAtLeast(w: int, p: int, n: int)
    requires p > 0 && w % p == 0 && n * p <= w
    ensures w == p * (w / p) && w / p >= n
  {
    assert w == p * (w / p) + w % p;
    MultipleIsFar(p, w / p - n);
    assert p * (w / p - n) == w - n * p;
  }

  // ----- words and ordinals -----

  lemma AddToWord(a: int, d: int)
    ensures (a % WORD + d) % WORD == (a + d) % WORD
  {
    var x := a % WORD + d;
    assert a + d == WORD * (a / WORD + x / WORD) + x % WORD;
    DivModUnique(a + d, WORD, a / WORD + x / WORD, x % WORD);
  }

  /** A word keeps the lap number modulo the number of laps, and the offset inside the lap. */
  lemma WrapLaps(lap: int, laps: int, q: int, offset: int)
    requires lap > 0 && laps > 0 && 0 <= offset < lap
    ensures lap * laps > 0
    ensures (q * lap + offset) % (lap * laps) == (q % laps) * lap + offset
  {
    var c, d := q / laps, q % laps;
    assert q == laps * c + d;
    var w := lap * laps;
    MultipleIsFar(lap, laps);
    MultipleIsFar(lap, laps - d);
    MultipleIsFar(lap, d);
    assert lap * (laps - d) == w - lap * d;
    CombineLaps(lap, laps, c, d);
    DivModUnique(q * lap + offset, w, c, lap * d + offset);
  }

  lemma CombineLaps(lap: int, laps: int, c: int, d: int)
    ensures (laps * c + d) * lap == (lap * laps) * c + lap * d
  {
    assert (laps * c + d) * lap == laps * c * lap + d * lap;
    assert laps * c * lap == (lap * laps) * c;
  }

  lemma SplitPosition(capacity: int, k: int)
    requires ValidCapacity(capacity)
    ensures WORD / Lap(capacity) > 0
    ensures Position(capacity, k)
            == ((k / capacity) % (WORD / Lap(capacity))) * Lap(capacity) + 2 * (k % capacity)
    ensures Position(capacity, k) % Lap(capacity) == 2 * (k % capacity)
    ensures Position(capacity, k) / Lap(capacity) == (k / capacity) % (WORD / Lap(capacity))
  {
    LapFacts(capacity);
    var lap, laps := Lap(capacity), WORD / Lap(capacity);
    WrapLaps(lap, laps, k / capacity, 2 * (k % capacity));
    var d := (k / capacity) % laps;
    DivModUnique(d * lap + 2 * (k % capacity), lap, d, 2 * (k % capacity));
  }

  /** The slot index read off a position is its ordinal modulo the capacity. */
  lemma IndexOfPosition(capacity: int, k: int)
    requires ValidCapacity(capacity)
    ensures SlotIndex(capacity, Position(capacity, k)) == k % capacity
  {
    SplitPosition(capacity, k);
    LapFacts(capacity);
    AndLowBits(Position(capacity, k), Lap(capacity));
  }

  lemma LapOfWord(capacity: int, k: int)
    requires ValidCapacity(capacity)
    ensures And(Position(capacity, k), Not(Lap(capacity) - 1)) == Position(capacity, k) - 2 * (k % capacity)
  {
    SplitPosition(capacity, k);
    LapFacts(capacity);
    WordIsPowerOfTwo();
    AndHighBits(Position(capacity, k), Lap(capacity), WORD);
  }

  /** Stepping a position steps its ordinal by one, also at the end of a lap and of the word. */
  lemma NextOfPosition(capacity: int, k: int)
    requires ValidCapacity(capacity)
    ensures Next(capacity, Position(capacity, k)) == Position(capacity, k + 1)
  {
    IndexOfPosition(capacity, k);
    if k % capacity + 1 == capacity {
      NextLap(capacity, k);
    } else {
      NextInLap(capacity, k);
    }
  }

  lemma NextLap(capacity: int, k: int)
    requires ValidCapacity(capacity) && k % capacity + 1 == capacity
    ensures (And(Position(capacity, k), Not(Lap(capacity) - 1)) + Lap(capacity)) % WORD == Position(capacity, k + 1)
  {
    LapOfWord(capacity, k);
    NextOrdinal(capacity, k);
    AddToWord(Unbounded(capacity, k), Lap(capacity) - 2 * (k % capacity));
  }

  lemma NextInLap(capacity: int, k: int)
    requires ValidCapacity(capacity) && k % capacity + 1 != capacity
    ensures (Position(capacity, k) + 2) % WORD == Position(capacity, k + 1)
  {
    NextOrdinal(capacity, k);
    AddToWord(Unbounded(capacity, k), 2);
  }

  lemma NextOrdinal(capacity: int, k: int)
    requires capacity >= 1
    ensures Unbounded(capacity, k + 1) == Unbounded(capacity, k)
              + if k % capacity + 1 == capacity then Lap(capacity) - 2 * (k % capacity) else 2
  {
    if k % capacity + 1 == capacity {
      LastOfLap(capacity, k);
      OneMore(k / capacity, Lap(capacity));
    } else {
      InsideLap(capacity, k);
    }
  }

  lemma LastOfLap(capacity: int, k: int)
    requires capacity >= 1 && k % capacity + 1 == capacity
    ensures (k + 1) / capacity == k / capacity + 1 && (k + 1) % capacity == 0
  {
    var q := k / capacity;
    assert k + 1 == capacity * q + capacity;
    OneMore(q, capacity);
    DivModUnique(k + 1, capacity, q + 1, 0);
  }

  lemma InsideLap(capacity: int, k: int)
    requires capacity >= 1 && k % capacity + 1 != capacity
    ensures (k + 1) / capacity == k / capacity && (k + 1) % capacity == k % capacity + 1
  {
    assert k + 1 == capacity * (k / capacity) + (k % capacity + 1);
    DivModUnique(k + 1, capacity, k / capacity, k % capacity + 1);
  }

  lemma OneMore(q: int, n: int)
    ensures (q + 1) * n == q * n + n == n * q + n == n * (q + 1)
  {
  }

  lemma ShiftOrdinal(capacity: int, k: int, m: int)
    requires capacity >= 1
    ensures (k + m * capacity) / capacity == k / capacity + m && (k + m * capacity) % capacity == k % capacity
    ensures Unbounded(capacity, k + m * capacity) == Unbounded(capacity, k) + m * Lap(capacity)
  {
    assert k == capacity * (k / capacity) + k % capacity;
    assert k + m * capacity == capacity * (k / capacity + m) + k % capacity by {
      assert capacity * (k / capacity + m) == capacity * (k / capacity) + m * capacity;
    }
    DivModUnique(k + m * capacity, capacity, k / capacity + m, k % capacity);
    assert (k / capacity + m) * Lap(capacity) == (k / capacity) * Lap(capacity) + m * Lap(capacity);
  }

  /** Adding or subtracting a lap moves the ordinal by one capacity. */
  lemma LapOfPosition(capacity: int, k: int)
    requires ValidCapacity(capacity)
    ensures (Position(capacity, k) + Lap(capacity)) % WORD == Position(capacity, k + capacity)
    ensures (Position(capacity, k) - Lap(capacity)) % WORD == Position(capacity, k - capacity)
  {
    ShiftOrdinal(capacity, k, 1);
    ShiftOrdinal(capacity, k, -1);
    AddToWord(Unbounded(capacity, k), Lap(capacity));
    AddToWord(Unbounded(capacity, k), -Lap(capacity));
  }

  /** Positions are even, so an odd stamp is one past a position and never equal to one. */
  lemma PositionIsEven(capacity: int, k: int)
    requires ValidCapacity(capacity)
    ensures Position(capacity, k) % 2 == 0
    ensures (Position(capacity, k) + 1) % WORD == Position(capacity, k) + 1
  {
    SplitPosition(capacity, k);
    LapFacts(capacity);
    var d := (k / capacity) % (WORD / Lap(capacity));
    EvenSum(Position(capacity, k), d, NextPowerOfTwo(capacity), k % capacity);
  }

  lemma EvenSum(x: int, d: int, half: int, r: int)
    requires x == d * (2 * half) + 2 * r && 0 <= x < WORD
    ensures x % 2 == 0 && (x + 1) % WORD == x + 1
  {
    assert x == 2 * (d * half + r);
    DivModUnique(x + 1, WORD, 0, x + 1);
  }

  lemma WindowSize(capacity: int)
    requires ValidCapacity(capacity)
    ensures Window(capacity) >= 8 * capacity
  {
    LapFacts(capacity);
    MultipleAtLeast(capacity, WORD / Lap(capacity), 8);
  }

  /** Two ordinals share a word exactly when they are a whole number of windows apart. */
  lemma PositionsCollide(capacity: int, a: int, b: int)
    requires ValidCapacity(capacity)
    ensures Position(capacity, a) == Position(capacity, b) <==> exists m :: a == b + Window(capacity) * m
  {
    if Position(capacity, a) == Position(capacity, b) {
      var m := CollisionDistance(capacity, a, b);
    }
    if m :| a == b + Window(capacity) * m {
      LapFacts(capacity);
      ReorderProduct(capacity, WORD / Lap(capacity), Lap(capacity), m);
      ShiftOrdinal(capacity, b, m * (WORD / Lap(capacity)));
      AddWords(Unbounded(capacity, b), m);
    }
  }

  lemma CollisionDistance(capacity: int, a: int, b: int) returns (m: int)
    requires ValidCapacity(capacity)
    requires Position(capacity, a) == Position(capacity, b)
    ensures a == b + Window(capacity) * m
  {
    LapFacts(capacity);
    SplitPosition(capacity, a);
    SplitPosition(capacity, b);
    m := CongruentOrdinals(capacity, WORD / Lap(capacity), a, b);
  }

  lemma MultipleAtLeast(p: int, d: int, n: int)
    requires p > 0 && d >= n
    ensures p * d >= n * p
  {
    MultipleIsFar(p, d - n + 1);
    assert p * (d - n + 1) == p * d - n * p + p;
  }

  lemma ReorderProduct(capacity: int, laps: int, lap: int, m: int)
    ensures (capacity * laps) * m == (m * laps) * capacity
    ensures (m * laps) * lap == (lap * laps) * m
  {
  }

  lemma AddWords(x: int, m: int)
    ensures (x + WORD * m) % WORD == x % WORD
  {
    DivModUnique(x + WORD * m, WORD, x / WORD + m, x % WORD);
  }

  lemma CongruentOrdinals(capacity: int, laps: int, a: int, b: int) returns (m: int)
    requires capacity > 0 && laps > 0
    requires a % capacity == b % capacity && (a / capacity) % laps == (b / capacity) % laps
    ensures a == b + (capacity * laps) * m
  {
    var qa, qb := a / capacity, b / capacity;
    m := qa / laps - qb / laps;
    assert qa - qb == laps * m by {
      assert qa == laps * (qa / laps) + qa % laps;
      assert qb == laps * (qb / laps) + qb % laps;
    }
    assert a - b == capacity * (qa - qb) by {
      assert a == capacity * qa + a % capacity;
      assert b == capacity * qb + b % capacity;
    }
    assert capacity * (laps * m) == (capacity * laps) * m;
  }

  /** Inside one window the word decides the ordinal. */
  lemma WindowDistinguishes(capacity: int, a: int, b: int)
    requires ValidCapacity(capacity)
    requires -Window(capacity) < a - b < Window(capacity)
    ensures Position(capacity, a) == Position(capacity, b) <==> a == b
  {
    if Position(capacity, a) == Position(capacity, b) {
      var m := CollisionDistance(capacity, a, b);
      NearMultiple(Window(capacity), a - b, m);
    }
  }

  lemma NearMultiple(w: int, d: int, m: int)
    requires -w < d < w && d == w * m
    ensures d == 0
  {
    MultipleIsFar(w, m);
  }
}
