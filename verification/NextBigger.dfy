/** The next number with as many one bits. */
module NextBigger {
  import opened Arithmetic

  const WORD := 0x1_0000_0000

  type Word = x: int | 0 <= x < WORD

  // Bits of natural numbers.

  function And(a: nat, b: nat): nat {
    if a == 0 || b == 0 then 0 else (if a % 2 == 1 && b % 2 == 1 then 1 else 0) + 2 * And(a / 2, b / 2)
  }

  function Or(a: nat, b: nat): nat {
    if a == 0 && b == 0 then 0 else (if a % 2 == 1 || b % 2 == 1 then 1 else 0) + 2 * Or(a / 2, b / 2)
  }

  function Xor(a: nat, b: nat): nat {
    if a == 0 && b == 0 then 0 else (if a % 2 != b % 2 then 1 else 0) + 2 * Xor(a / 2, b / 2)
  }

  /** The number of one bits. */
  function Ones(x: nat): nat {
    if x == 0 then 0 else x % 2 + Ones(x / 2)
  }

  /** `a` shifted left by `k` bits. */
  function Shl(a: int, k: nat): int {
    if k == 0 then a else 2 * Shl(a, k - 1)
  }

  function Quotient(a: nat, b: nat): nat
    requires b > 0
  {
    a / b
  }

  // The program.

  function Snoob(x: Word): int {
    if x == 0 then 0
    else
      var rightOne := And(x, WORD - x);
      if rightOne == 0 then 0
      else
        var higher := (x + rightOne) % WORD;
        Or(higher, Quotient(Xor(x, higher), rightOne) / 4)
  }

  /** The same with a sum for the last step. */
  function NextGreater(x: Word): int {
    if x == 0 then 0
    else
      var t := And(x, WORD - x);
      if t == 0 then 0
      else
        var higher := (x + t) % WORD;
        (higher + Quotient(Xor(x, higher), t) / 4) % WORD
  }

  // Shifts.

  lemma {:induction false} ShlSum(a: int, b: int, k: nat)
    ensures Shl(a + b, k) == Shl(a, k) + Shl(b, k)
  {
    if k > 0 {
      ShlSum(a, b, k - 1);
    }
  }

  lemma {:induction false} ShlTwice(a: int, j: nat, k: nat)
    ensures Shl(Shl(a, j), k) == Shl(a, j + k)
  {
    if k > 0 {
      ShlTwice(a, j, k - 1);
    }
  }

  lemma {:induction false} ShlOrder(a: int, k: nat)
    ensures a >= 0 ==> Shl(a, k) >= a
    ensures a >= 1 ==> Shl(a, k) >= Shl(1, k) >= 1
    ensures a <= 0 ==> Shl(a, k) <= 0
    ensures a <= -1 ==> Shl(a, k) <= -Shl(1, k)
  {
    if k > 0 {
      ShlOrder(a, k - 1);
    }
  }

  lemma {:induction false} ShlIsProduct(a: nat, k: nat)
    ensures Shl(a, k) == a * Shl(1, k)
  {
    if k > 0 {
      ShlIsProduct(a, k - 1);
    }
  }

  lemma ShlDivides(a: nat, k: nat)
    ensures Shl(1, k) >= 1 && Shl(a, k) >= 0 && Quotient(Shl(a, k), Shl(1, k)) == a
  {
    ShlOrder(1, k);
    ShlOrder(a, k);
    ShlIsProduct(a, k);
    DivideProduct(a, Shl(1, k));
  }

  // Bits of shifted numbers and sums.

  lemma {:induction false} OnesSum(a: nat, b: nat, k: nat)
    requires b < Shl(1, k)
    ensures Shl(a, k) >= 0 && Ones(Shl(a, k) + b) == Ones(a) + Ones(b)
    ensures Or(Shl(a, k), b) == Shl(a, k) + b
    decreases k
  {
    hide Ones, Or;
    ShlOrder(a, k);
    if k == 0 {
      OrZero(a);
      NoOnes();
    } else {
      OnesSum(a, b / 2, k - 1);
      ShlOrder(a, k - 1);
      LowBit(Shl(a, k - 1), b);
    }
  }

  /** The lowest bit of `2 * x`, or-ed or added to `b`, is that of `b`. */
  lemma LowBit(x: nat, b: nat)
    ensures Ones(2 * x + b) == b % 2 + Ones(x + b / 2) && Ones(b) == b % 2 + Ones(b / 2)
    ensures Or(2 * x, b) == b % 2 + 2 * Or(x, b / 2)
  {
    HalfOfSum(x, b);
    HalfOfSum(x, 0);
  }

  lemma HalfOfSum(x: nat, b: nat)
    ensures (2 * x + b) / 2 == x + b / 2 && (2 * x + b) % 2 == b % 2
  {
  }

  lemma {:induction false} OrZero(a: nat)
    ensures Or(a, 0) == a
  {
    if a > 0 {
      OrZero(a / 2);
    }
  }

  lemma {:induction false} XorSame(a: nat)
    ensures Xor(a, a) == 0
  {
    if a > 0 {
      XorSame(a / 2);
    }
  }

  lemma XorDouble(a: nat, b: nat)
    ensures Xor(2 * a, 2 * b) == 2 * Xor(a, b)
  {
    assert (2 * a) / 2 == a && (2 * b) / 2 == b && (2 * a) % 2 == (2 * b) % 2;
  }

  lemma {:induction false} XorShl(a: nat, b: nat, k: nat)
    ensures Shl(a, k) >= 0 && Shl(b, k) >= 0 && Xor(Shl(a, k), Shl(b, k)) == Shl(Xor(a, b), k)
  {
    hide Xor;
    ShlOrder(a, k);
    ShlOrder(b, k);
    if k > 0 {
      XorShl(a, b, k - 1);
      XorDouble(Shl(a, k - 1), Shl(b, k - 1));
    }
  }

  /** A number below a power of two has fewer bits than one less than that power. */
  lemma {:induction false} OnesBound(e: nat, m: nat)
    requires e < Shl(1, m)
    ensures Ones(e) <= m && (Ones(e) == m <==> e == Shl(1, m) - 1)
    decreases m
  {
    if m > 0 {
      OnesBound(e / 2, m - 1);
      ShlOrder(1, m - 1);
    }
  }

  lemma {:induction false} SomeOne(e: nat)
    requires e > 0
    ensures Ones(e) >= 1
  {
    if e % 2 == 0 {
      SomeOne(e / 2);
    }
  }

  /** A number and its complement share no bits. */
  lemma {:induction false} AndComplement(z: nat, m: nat)
    requires z < Shl(1, m)
    ensures And(z, Shl(1, m) - 1 - z) == 0
    decreases m
  {
    if m > 0 {
      AndComplement(z / 2, m - 1);
      assert (Shl(1, m) - 1 - z) / 2 == Shl(1, m - 1) - 1 - z / 2;
    }
  }

  /** The lowest one bit of `y` shifted by `t`, for odd `y`. */
  lemma {:induction false} LowestBit(y: nat, t: nat, n: nat)
    requires y % 2 == 1 && t <= n && y < Shl(1, n - t)
    ensures 0 < Shl(y, t) < Shl(1, n) && And(Shl(y, t), Shl(1, n) - Shl(y, t)) == Shl(1, t)
    decreases t
  {
    ShlOrder(y, t);
    if t == 0 {
      if n > 0 {
        AndComplement(y / 2, n - 1);
        assert (Shl(1, n) - y) / 2 == Shl(1, n - 1) - 1 - y / 2;
      }
    } else {
      LowestBit(y, t - 1, n - 1);
      var a, b := Shl(y, t - 1), Shl(1, n - 1) - Shl(y, t - 1);
      assert Shl(y, t) == 2 * a && Shl(1, n) - Shl(y, t) == 2 * b;
      assert And(2 * a, 2 * b) == 2 * And(a, b);
    }
  }

  // A number by its bits: `h`, a zero, `s` ones, and `t` zeros.

  /** The part of the number above the zeros at its end. */
  function Body(h: nat, s: nat): int {
    Shl(h, s + 1) + Shl(1, s) - 1
  }

  lemma BodyNext(h: nat, s: nat)
    ensures Body(h, s + 1) == 2 * Body(h, s) + 1 && Body(h, 0) == 2 * h
  {
    assert Shl(h, 1) == 2 * Shl(h, 0) && Shl(1, 0) == 1;
  }

  lemma {:induction false} TrailingOnes(y: nat) returns (h: nat, s: nat)
    ensures y == Body(h, s) && (y % 2 == 1 ==> s >= 1)
  {
    if y % 2 == 0 {
      h, s := y / 2, 0;
      BodyNext(h, 0);
    } else {
      h, s := TrailingOnes(y / 2);
      BodyNext(h, s);
      s := s + 1;
    }
  }

  lemma {:induction false} Decompose(x: nat) returns (h: nat, s: nat, t: nat)
    requires x > 0
    ensures x == Shl(Body(h, s), t) && s >= 1
  {
    if x % 2 == 1 {
      h, s := TrailingOnes(x);
      t := 0;
    } else {
      h, s, t := Decompose(x / 2);
      t := t + 1;
    }
  }

  lemma BodyIs(h: nat, s: nat)
    requires s >= 1
    ensures Body(h, s) >= 1 && Body(h, s) % 2 == 1 && Body(h, s) + 1 == Shl(2 * h + 1, s)
    ensures Ones(Body(h, s)) == Ones(h) + s
  {
    hide Ones, Body, Shl;
    BodyOdd(h, s);
    BodyNextUp(h, s);
    BodyOnes(h, s);
  }

  lemma BodyOdd(h: nat, s: nat)
    requires s >= 1
    ensures Body(h, s) >= 1 && Body(h, s) % 2 == 1
  {
    hide Body;
    BodyNonNegative(h, s - 1);
    BodyNext(h, s - 1);
    OddNumber(Body(h, s - 1));
  }

  lemma OddNumber(x: int)
    ensures (2 * x + 1) % 2 == 1
  {
  }

  lemma BodyNextUp(h: nat, s: nat)
    ensures Body(h, s) + 1 == Shl(2 * h + 1, s)
  {
    assert Shl(h, 1) == 2 * h;
    hide Shl;
    ShlTwice(h, 1, s);
    ShlSum(2 * h, 1, s);
  }

  lemma BodyOnes(h: nat, s: nat)
    ensures Body(h, s) >= 0 && Ones(Body(h, s)) == Ones(h) + s
  {
    hide Ones, Or;
    ShlGrows(0, s);
    OnesSum(h, Shl(1, s) - 1, s + 1);
    OnesBound(Shl(1, s) - 1, s);
  }

  lemma BodyNonNegative(h: nat, s: nat)
    ensures Body(h, s) >= 0
  {
    ShlOrder(h, s + 1);
    ShlOrder(1, s);
  }

  lemma XorOdd(a: nat, b: nat)
    ensures Xor(2 * a + 1, 2 * b) == 1 + 2 * Xor(a, b) && Xor(2 * a, 2 * b + 1) == 1 + 2 * Xor(a, b)
  {
    assert (2 * a + 1) / 2 == a && (2 * b) / 2 == b && (2 * a) / 2 == a && (2 * b + 1) / 2 == b;
    assert (2 * a + 1) % 2 == 1 && (2 * b) % 2 == 0 && (2 * a) % 2 == 0 && (2 * b + 1) % 2 == 1;
  }

  lemma {:induction false} XorNext(h: nat, s: nat)
    ensures Body(h, s) >= 0 && Xor(Body(h, s), Body(h, s) + 1) == Shl(1, s + 1) - 1
  {
    hide Xor, Body;
    BodyNonNegative(h, s);
    if s == 0 {
      BodyNext(h, 0);
      XorOdd(h, h);
      XorSame(h);
      assert Shl(1, 1) == 2;
    } else {
      XorNext(h, s - 1);
      BodyNext(h, s - 1);
      XorOdd(Body(h, s - 1), Body(h, s - 1) + 1);
    }
  }

  /** The number that follows: the zero becomes a one, and all but one of the ones go to the end. */
  function Following(h: nat, s: nat, t: nat): int
    requires s >= 1
  {
    Shl(2 * h + 1, s + t) + Shl(1, s - 1) - 1
  }

  lemma {:induction false} ShlGrows(j: nat, k: nat)
    requires j <= k
    ensures 1 <= Shl(1, j) <= Shl(1, k)
  {
    ShlOrder(1, j);
    if j < k {
      ShlGrows(j, k - 1);
    }
  }

  lemma WordIs()
    ensures Shl(1, 32) == WORD
  {
    assert Shl(1, 2) == 0x4;
    assert Shl(1, 4) == 0x10;
    assert Shl(1, 6) == 0x40;
    assert Shl(1, 8) == 0x100;
    ShlIsProduct(0x100, 8);
    ShlTwice(1, 8, 8);
    ShlIsProduct(0x10000, 16);
    ShlTwice(1, 16, 16);
  }

  /** A shifted number inside the word leaves room for what was shifted in. */
  lemma WordRoom(a: nat, k: nat)
    requires a >= 1 && Shl(a, k) < WORD
    ensures k <= 32 && a < Shl(1, 32 - k) && Shl(a, k) + Shl(1, k) <= WORD
  {
    WordIs();
    ShlOrder(a, k);
    if k > 32 {
      ShlGrows(32, k);
    } else {
      ShlTwice(1, 32 - k, k);
      var d := a - Shl(1, 32 - k);
      ShlSum(Shl(1, 32 - k), d, k);
      ShlOrder(d, k);
      ShlSum(a, 1, k);
      ShlSum(Shl(1, 32 - k), d + 1, k);
      ShlOrder(d + 1, k);
    }
  }

  lemma LowestIs(x: Word, h: nat, s: nat, t: nat)
    requires s >= 1 && x == Shl(Body(h, s), t)
    ensures And(x, WORD - x) == Shl(1, t)
  {
    BodyIs(h, s);
    WordRoom(Body(h, s), t);
    WordIs();
    LowestBit(Body(h, s), t, 32);
  }

  /** The sum with the lowest one bit, and the pattern of the bits it changed. */
  lemma PatternIs(h: nat, s: nat, t: nat)
    requires s >= 1
    ensures var x, higher := Shl(Body(h, s), t), Shl(2 * h + 1, s + t);
            && x >= 0 && higher == x + Shl(1, t) > 0 && Shl(1, t) >= 1
            && Quotient(Xor(x, higher), Shl(1, t)) == Shl(1, s + 1) - 1
  {
    hide Xor, Body, Quotient;
    BodyIs(h, s);
    ShlSum(Body(h, s), 1, t);
    ShlTwice(2 * h + 1, s, t);
    ShlOrder(2 * h + 1, s + t);
    XorShl(Body(h, s), Body(h, s) + 1, t);
    XorNext(h, s);
    ShlDivides(Shl(1, s + 1) - 1, t);
  }

  lemma Steps(x: Word, p: nat, q: nat)
    requires x > 0 && And(x, WORD - x) == p && 0 < p && x + p < WORD
    requires Quotient(Xor(x, x + p), p) / 4 == q && Or(x + p, q) == x + p + q < WORD
    ensures Snoob(x) == NextGreater(x) == x + p + q
  {
    hide And, Xor, Or, Quotient;
  }

  lemma SnoobIs(x: Word, h: nat, s: nat, t: nat)
    requires s >= 1 && x == Shl(Body(h, s), t) && x + Shl(1, t) < WORD
    ensures Snoob(x) == NextGreater(x) == Following(h, s, t) < WORD
  {
    hide Or, Xor, And, Body, Quotient, Snoob, NextGreater, Ones;
    LowestIs(x, h, s, t);
    PatternIs(h, s, t);
    ShlGrows(s - 1, s + t);
    assert Shl(1, s + 1) == 4 * Shl(1, s - 1);
    OnesSum(2 * h + 1, Shl(1, s - 1) - 1, s + t);
    WordRoom(2 * h + 1, s + t);
    BodyIs(h, s);
    ShlOrder(Body(h, s), t);
    Steps(x, Shl(1, t), Shl(1, s - 1) - 1);
  }

  lemma OnesBefore(h: nat, s: nat, t: nat)
    requires s >= 1
    ensures Shl(Body(h, s), t) >= 0 && Ones(Shl(Body(h, s), t)) == Ones(h) + s
  {
    BodyIs(h, s);
    ShlOrder(1, t);
    OnesSum(Body(h, s), 0, t);
  }

  lemma OnesAfter(h: nat, s: nat, t: nat)
    requires s >= 1
    ensures Following(h, s, t) >= 0 && Ones(Following(h, s, t)) == Ones(h) + s
  {
    ShlGrows(s - 1, s + t);
    OnesSum(2 * h + 1, Shl(1, s - 1) - 1, s + t);
    OnesBound(Shl(1, s - 1) - 1, s - 1);
    assert (2 * h + 1) / 2 == h;
  }

  lemma FollowingGreater(h: nat, s: nat, t: nat)
    requires s >= 1
    ensures Shl(Body(h, s), t) < Following(h, s, t)
  {
    BodyIs(h, s);
    ShlGrows(s - 1, s + t);
    ShlSum(Body(h, s), 1, t);
    ShlTwice(2 * h + 1, s, t);
    ShlOrder(1, t);
  }

  lemma FollowingOnes(h: nat, s: nat, t: nat)
    requires s >= 1
    ensures Shl(Body(h, s), t) >= 0 && Following(h, s, t) >= 0
    ensures Ones(Following(h, s, t)) == Ones(Shl(Body(h, s), t)) == Ones(h) + s
    ensures Shl(Body(h, s), t) < Following(h, s, t)
  {
    hide Shl, Body, Following, Ones;
    OnesBefore(h, s, t);
    OnesAfter(h, s, t);
    FollowingGreater(h, s, t);
  }

  /** What `Following` and the number before it are, above and below the zero that turns into a one. */
  lemma BelowZero(h: nat, s: nat, t: nat)
    ensures Shl(Body(h, s), t) == Shl(h, s + t + 1) + Shl(1, s + t) - Shl(1, t)
    ensures s >= 1 ==> Following(h, s, t) == Shl(h, s + t + 1) + Shl(1, s + t) + Shl(1, s - 1) - 1
    ensures Shl(Shl(1, s) - 1, t) == Shl(1, s + t) - Shl(1, t)
  {
    var k := s + t;
    ShlTwice(h, s + 1, t);
    ShlTwice(1, s, t);
    ShlSum(Shl(h, s + 1), Shl(1, s) - 1, t);
    ShlSum(Shl(1, s) - 1, 1, t);
    ShlSum(2 * h, 1, k);
    ShlTwice(h, 1, k);
    assert Shl(h, 1) == 2 * h;
  }

  /** Every number in between has more or fewer ones. */
  lemma NoneBetween(h: nat, s: nat, t: nat, z: nat)
    requires s >= 1 && Shl(Body(h, s), t) < z < Following(h, s, t)
    ensures Ones(z) != Ones(h) + s
  {
    hide Body, Following, Or;
    var k := s + t;
    BelowZero(h, s, t);
    ShlGrows(s - 1, k);
    ShlGrows(t, k);
    var w := z - Shl(h, k + 1);
    assert Shl(1, k) - Shl(1, t) < w < Shl(1, k) + Shl(1, s - 1) - 1;
    assert Shl(1, k + 1) == 2 * Shl(1, k);
    OnesSum(h, w, k + 1);
    if w < Shl(1, k) {
      MoreOnes(s, t, w);
    } else {
      FewerOnes(s, k, w);
    }
  }

  lemma MoreOnes(s: nat, t: nat, w: nat)
    requires Shl(1, s + t) - Shl(1, t) < w < Shl(1, s + t)
    ensures Ones(w) > s
  {
    hide Or;
    var e := w - (Shl(1, s + t) - Shl(1, t));
    BelowZero(0, s, t);
    ShlGrows(0, s);
    OnesSum(Shl(1, s) - 1, e, t);
    OnesBound(Shl(1, s) - 1, s);
    SomeOne(e);
  }

  lemma FewerOnes(s: nat, k: nat, w: nat)
    requires 1 <= s <= k && Shl(1, k) <= w < Shl(1, k) + Shl(1, s - 1) - 1
    ensures Ones(w) < s
  {
    hide Or;
    var e := w - Shl(1, k);
    ShlGrows(s - 1, k);
    OnesSum(1, e, k);
    OnesBound(e, s - 1);
    assert Ones(1) == 1;
  }

  /**
   * For a number with room above its lowest one bit both functions give the least greater number
   * with as many ones.
   */
  lemma SnoobLeast(x: Word)
    requires x > 0 && x + And(x, WORD - x) < WORD
    ensures Snoob(x) == NextGreater(x) && x < Snoob(x) < WORD
    ensures Ones(Snoob(x)) == Ones(x)
    ensures forall z: nat :: x < z < Snoob(x) ==> Ones(z) != Ones(x)
  {
    hide Snoob, NextGreater, Body, Following;
    var h, s, t := Decompose(x);
    LowestIs(x, h, s, t);
    SnoobIs(x, h, s, t);
    FollowingOnes(h, s, t);
    forall z: nat | x < z < Snoob(x) ensures Ones(z) != Ones(x) {
      NoneBetween(h, s, t, z);
    }
  }

  /** Without that room no greater word has as many ones. */
  lemma NoRoomNoNext(x: Word)
    requires x > 0 && x + And(x, WORD - x) >= WORD
    ensures forall z: nat :: x < z < WORD ==> Ones(z) > Ones(x)
  {
    hide Or, And, Body, Ones;
    var h, s, t := Decompose(x);
    LowestIs(x, h, s, t);
    BodyIs(h, s);
    WordRoom(Body(h, s), t);
    WordIs();
    var n := 32 - t;
    BelowZero(0, n, t);
    ShlGrows(0, n);
    OnesSum(Shl(1, n) - 1, 0, t);
    OnesBound(Shl(1, n) - 1, n);
    assert Ones(0) == 0 by { NoOnes(); }
    forall z: nat | x < z < WORD ensures Ones(z) > Ones(x) {
      MoreOnes(n, t, z);
    }
  }

  lemma NoOnes()
    ensures Ones(0) == 0
  {
  }
}
