/** Facts on quotients and residues that the other modules share. */
module Modular {
  /** A 64-bit word counts modulo this. */
  const WORD: int := 0x1_0000_0000_0000_0000

  lemma DivModUnique(a: int, p: int, q: int, r: int)
    requires p > 0 && a == p * q + r && 0 <= r < p
    ensures a / p == q && a % p == r
  {
    var d := a / p - q;
    assert p * d == r - a % p by {
      assert a == p * (a / p) + a % p;
      assert p * d == p * (a / p) - p * q;
    }
    MultipleIsFar(p, d);
  }

  lemma MultipleIsFar(p: int, d: int)
    requires p > 0
    ensures d >= 1 ==> p * d >= p
    ensures d <= -1 ==> p * d <= -p
  {
    if d >= 1 {
      assert p * d == p + p * (d - 1);
    } else if d <= -1 {
      assert p * d == -p + p * (d + 1);
    }
  }

  /** Nearby numbers with the same residue are equal. */
  lemma SameResidue(c: int, a: int, b: int)
    requires c >= 1 && a % c == b % c && -c < a - b < c
    ensures a == b
  {
    var m := a / c - b / c;
    assert a - b == c * m by {
      assert a == c * (a / c) + a % c;
      assert b == c * (b / c) + b % c;
    }
    MultipleIsFar(c, m);
  }

  lemma ShiftResidue(a: int, c: int)
    requires c >= 1
    ensures (a + c) % c == a % c && (a - c) % c == a % c
  {
    DivModUnique(a + c, c, a / c + 1, a % c);
    DivModUnique(a - c, c, a / c - 1, a % c);
  }
}
