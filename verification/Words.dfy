/** Unsigned 64-bit words as natural numbers, with their bitwise operations. */
module Words {

  /** One past the largest 64-bit word. */
  const LIMIT: nat := 0x1_0000_0000_0000_0000

  type Word = n: nat | n < LIMIT

  /** Bitwise `&`, bit by bit. */
  function And(x: nat, y: nat): (r: nat)
    ensures r <= x
  {
    if x == 0 then 0 else (if x % 2 == 1 && y % 2 == 1 then 1 else 0) + 2 * And(x / 2, y / 2)
  }

  /** Bitwise `~` on 64 bits. */
  function Not(x: nat): nat
    requires x < LIMIT
  {
    LIMIT - 1 - x
  }

  function Pow2(k: nat): (p: nat)
    ensures p > 0
  {
    if k == 0 then 1 else 2 * Pow2(k - 1)
  }

  lemma {:induction false} AndSelf(x: nat)
    ensures And(x, x) == x
  {
    if x != 0 {
      AndSelf(x / 2);
    }
  }

  lemma AndEven(x: nat, y: nat)
    requires x % 2 == 0 || y % 2 == 0
    ensures And(x, y) == 2 * And(x / 2, y / 2)
  {
  }

  /** The bit test for powers of two. */
  predicate IsPowerOfTwo(value: nat) {
    value != 0 && And(value, value - 1) == 0
  }

  /** The bit test accepts exactly the powers of two. */
  lemma {:induction false} PowerOfTwoExactly(value: nat)
    ensures IsPowerOfTwo(value) <==> exists k: nat :: value == Pow2(k)
  {
    hide Pow2, IsPowerOfTwo;
    if value % 2 == 1 {
      OddPower(value);
    } else if value > 0 {
      PowerOfTwoExactly(value / 2);
      EvenTest(value);
      EvenPower(value);
    } else {
      NoPower();
    }
  }

  lemma NoPower()
    ensures !IsPowerOfTwo(0) && forall k: nat :: 0 != Pow2(k)
  {
  }

  lemma EvenTest(value: nat)
    requires value > 0 && value % 2 == 0
    ensures IsPowerOfTwo(value) <==> IsPowerOfTwo(value / 2)
  {
    hide And;
    AndEven(value - 1, value);
    AndEven(value, value - 1);
    assert (value - 1) / 2 == value / 2 - 1;
  }

  lemma EvenPower(value: nat)
    requires value > 0 && value % 2 == 0
    ensures (exists k: nat :: value == Pow2(k)) <==> exists k: nat :: value / 2 == Pow2(k)
  {
    if k: nat :| value / 2 == Pow2(k) {
      assert value == Pow2(k + 1);
    }
    if k: nat :| value == Pow2(k) {
      assert k > 0;
      var j: nat := k - 1;
      assert Pow2(k) == 2 * Pow2(j);
      assert value / 2 == Pow2(j);
    }
  }

  lemma OddPower(value: nat)
    requires value % 2 == 1
    ensures IsPowerOfTwo(value) <==> exists k: nat :: value == Pow2(k)
  {
    if value == 1 {
      assert value == Pow2(0);
    } else {
      assert (value - 1) / 2 == value / 2 && (value - 1) % 2 == 0;
      AndSelf(value / 2);
      assert forall k: nat :: Pow2(k) == 1 || Pow2(k) % 2 == 0;
    }
  }

  lemma HalfOfMod(x: nat, p: nat)
    requires p > 0
    ensures x % (2 * p) == x % 2 + 2 * ((x / 2) % p)
  {
    var q := (x / 2) / p;
    assert x / 2 == q * p + (x / 2) % p;
    assert x == q * (2 * p) + (x % 2 + 2 * ((x / 2) % p));
    ModIs(x, 2 * p, q, x % 2 + 2 * ((x / 2) % p));
  }

  lemma ModIs(x: nat, d: nat, q: nat, r: nat)
    requires d > 0 && x == q * d + r && r < d
    ensures x % d == r && x / d == q
  {
    NoSmallMultiple(x / d - q, d);
  }

  lemma NoSmallMultiple(u: int, d: nat)
    requires d > 0 && -1 * d < u * d < d
    ensures u == 0
  {
  }

  lemma {:induction false} AndLowBits(x: nat, k: nat)
    ensures And(x, Pow2(k) - 1) == x % Pow2(k)
    decreases k
  {
    if k == 0 {
      AndZero(x);
    } else if x != 0 {
      var p := Pow2(k - 1);
      assert (2 * p - 1) % 2 == 1 && (2 * p - 1) / 2 == p - 1;
      AndLowBits(x / 2, k - 1);
      HalfOfMod(x, p);
    }
  }

  lemma {:induction false} AndZero(x: nat)
    ensures And(x, 0) == 0
  {
    if x != 0 {
      AndZero(x / 2);
    }
  }

  /** Clearing the low `k` bits of an `n`-bit word rounds down to a multiple of `2^k`. */
  lemma {:induction false} AndHighBits(x: nat, k: nat, n: nat)
    requires k <= n && x < Pow2(n) && Pow2(k) <= Pow2(n)
    ensures And(x, Pow2(n) - Pow2(k)) == x - x % Pow2(k)
    decreases k
  {
    hide And, Pow2;
    PowerStep(k);
    PowerStep(n);
    if k == 0 {
      AndLowBits(x, n);
      SmallMod(x, Pow2(n));
    } else {
      AndHighBits(x / 2, k - 1, n - 1);
      HighStep(x, Pow2(k - 1), Pow2(n - 1));
    }
  }

  lemma PowerStep(k: nat)
    ensures Pow2(k) == if k == 0 then 1 else 2 * Pow2(k - 1)
  {
  }

  lemma SmallMod(x: nat, d: nat)
    requires x < d
    ensures x % d == x && x % 1 == 0
  {
  }

  lemma HighStep(x: nat, p: nat, m: nat)
    requires 0 < p <= m && And(x / 2, m - p) == x / 2 - (x / 2) % p
    ensures And(x, 2 * m - 2 * p) == x - x % (2 * p)
  {
    hide And;
    assert (2 * m - 2 * p) % 2 == 0 && (2 * m - 2 * p) / 2 == m - p;
    AndEven(x, 2 * m - 2 * p);
    HalfOfMod(x, p);
  }

  lemma {:induction false} PowerGrows(k: nat, n: nat)
    requires k <= n
    ensures Pow2(k) <= Pow2(n)
  {
    if k < n {
      PowerGrows(k, n - 1);
    }
  }

  lemma SixtyFourBits()
    ensures Pow2(64) == LIMIT
  {
    assert Pow2(8) == 0x100;
    assert Pow2(16) == 0x1_0000;
    assert Pow2(24) == 0x100_0000;
    assert Pow2(32) == 0x1_0000_0000;
    assert Pow2(40) == 0x100_0000_0000;
    assert Pow2(48) == 0x1_0000_0000_0000;
    assert Pow2(56) == 0x100_0000_0000_0000;
  }

  /** A power of two below `2^64` has its exponent below 64. */
  lemma ExponentBelow(k: nat)
    requires Pow2(k) < LIMIT
    ensures k < 64
  {
    SixtyFourBits();
    if k >= 64 {
      PowerGrows(64, k);
    }
  }

  // ---------------------------------------------------------------- exclusive or

  /** Bitwise `^`, bit by bit. */
  function Xor(x: nat, y: nat): nat
    decreases x + y
  {
    if x == 0 then y else if y == 0 then x
    else (if x % 2 != y % 2 then 1 else 0) + 2 * Xor(x / 2, y / 2)
  }

  lemma XorStep(x: nat, y: nat)
    ensures Xor(x, y) % 2 == (if x % 2 != y % 2 then 1 else 0)
    ensures Xor(x, y) / 2 == Xor(x / 2, y / 2)
  {
    if x != 0 && y != 0 {
      BitAndRest(if x % 2 != y % 2 then 1 else 0, Xor(x / 2, y / 2));
    }
  }

  lemma BitAndRest(b: nat, h: nat)
    requires b < 2
    ensures (b + 2 * h) % 2 == b && (b + 2 * h) / 2 == h
  {
  }

  lemma {:induction false} XorBelow(x: nat, y: nat, n: nat)
    requires x < Pow2(n) && y < Pow2(n)
    ensures Xor(x, y) < Pow2(n)
    decreases n
  {
    hide Xor;
    XorStep(x, y);
    if n > 0 {
      XorBelow(x / 2, y / 2, n - 1);
    } else {
      XorZero(0);
    }
  }

  lemma XorZero(x: nat)
    ensures Xor(x, 0) == x && Xor(0, x) == x
  {
  }

  lemma {:induction false} XorSelf(x: nat)
    ensures Xor(x, x) == 0
    decreases x
  {
    if x != 0 {
      XorSelf(x / 2);
    }
  }

  lemma SameBits(x: nat, y: nat)
    requires x % 2 == y % 2 && x / 2 == y / 2
    ensures x == y
  {
  }

  lemma {:induction false} XorAssociates(x: nat, y: nat, z: nat)
    ensures Xor(Xor(x, y), z) == Xor(x, Xor(y, z))
    decreases x + y + z
  {
    hide Xor;
    if x == 0 || y == 0 || z == 0 {
      XorZero(x);
      XorZero(y);
      XorZero(z);
      XorZero(Xor(x, y));
      XorZero(Xor(y, z));
    } else {
      XorStep(x, y);
      XorStep(y, z);
      XorStep(Xor(x, y), z);
      XorStep(x, Xor(y, z));
      XorAssociates(x / 2, y / 2, z / 2);
      SameBits(Xor(Xor(x, y), z), Xor(x, Xor(y, z)));
    }
  }

  /** What is mixed in can be taken out again. */
  lemma XorUndoes(x: nat, y: nat)
    ensures Xor(Xor(x, y), y) == x && Xor(x, Xor(x, y)) == y
  {
    hide Xor;
    XorAssociates(x, y, y);
    XorAssociates(x, x, y);
    XorSelf(x);
    XorSelf(y);
    XorZero(x);
    XorZero(y);
  }

  /** `>>` by `k` bits. */
  function Shift(x: nat, k: nat): nat {
    if k == 0 then x else Shift(x / 2, k - 1)
  }

  lemma {:induction false} XorShift(x: nat, y: nat, k: nat)
    ensures Shift(Xor(x, y), k) == Xor(Shift(x, k), Shift(y, k))
    decreases k
  {
    hide Xor;
    if k > 0 {
      XorStep(x, y);
      XorShift(x / 2, y / 2, k - 1);
    }
  }

  lemma {:induction false} ShiftTwice(x: nat, j: nat, k: nat)
    ensures Shift(Shift(x, j), k) == Shift(x, j + k)
    decreases j
  {
    if j > 0 {
      ShiftTwice(x / 2, j - 1, k);
    }
  }

  lemma {:induction false} ShiftedOut(x: nat, k: nat)
    requires x < Pow2(k)
    ensures Shift(x, k) == 0
    decreases k
  {
    if k > 0 {
      ShiftedOut(x / 2, k - 1);
    }
  }

  lemma {:induction false} ShiftBelow(x: nat, k: nat)
    ensures Shift(x, k) <= x
    decreases k
  {
    if k > 0 {
      ShiftBelow(x / 2, k - 1);
    }
  }
}
