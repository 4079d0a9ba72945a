/**
 * Rust's unsigned integer operators (`>>`, `<<`, `!`, `&`, `|`) on naturals.
 *
 * A word of width `w` is a natural below `Pow2(w)`. Shifts and bitwise
 * operators are given by their arithmetic definitions, so that facts about
 * them can be proved with the integer solver; the lemmas below connect them
 * to the binary digits they act on.
 */
module Bits {

  function Pow2(n: nat): (r: nat)
    ensures r >= 1
  {
    if n == 0 then 1 else 2 * Pow2(n - 1)
  }

  /** `x >> k`: a logical right shift. */
  function Shr(x: nat, k: nat): (r: nat)
  {
    x / Pow2(k)
  }

  /** The `k` low bits of `x`. */
  function Low(x: nat, k: nat): (r: nat)
    ensures r < Pow2(k)
  {
    x % Pow2(k)
  }

  /** Binary digit `i` of `x` (bit 0 is the least significant). */
  predicate Bit(x: nat, i: nat)
  {
    Shr(x, i) % 2 == 1
  }

  /** `a` shifted up by `k` bits, plus `b`: the word with digits `a` above digit `k` and `b` below it when `b < Pow2(k)`. */
  function Join(a: nat, b: nat, k: nat): (r: nat)
  {
    a * Pow2(k) + b
  }

  /** `x << k` on a `w`-bit word: bits moved past the top are lost. */
  function Shl(x: nat, k: nat, w: nat): (r: nat)
    ensures r < Pow2(w)
  {
    Low(Join(x, 0, k), w)
  }

  /** `!x` on a `w`-bit word. */
  function Not(x: nat, w: nat): (r: nat)
    requires x < Pow2(w)
    ensures r < Pow2(w) && r + x == Pow2(w) - 1
  {
    Pow2(w) - 1 - x
  }

  /** `x & y`, digit by digit from the least significant end. */
  function And(x: nat, y: nat): (r: nat)
    decreases x
  {
    if x == 0 then 0 else 2 * And(x / 2, y / 2) + (if x % 2 == 1 && y % 2 == 1 then 1 else 0)
  }

  /** `x | y`, digit by digit from the least significant end. */
  function Or(x: nat, y: nat): (r: nat)
    decreases x + y
  {
    if x == 0 && y == 0 then 0
    else 2 * Or(x / 2, y / 2) + (if x % 2 == 1 || y % 2 == 1 then 1 else 0)
  }

  // ---------------------------------------------------------------------
  // Arithmetic on plain variables. Each fact is proved in a context of its
  // own, so that the proofs below need only linear reasoning.

  lemma MulGe(a: int, m: int)
    requires a >= 1 && m >= 0
    ensures a * m >= m
  {}

  lemma MulLe(a: nat, b: nat, c: nat)
    requires a <= b
    ensures a * c <= b * c
  {}

  /** Substituting one quotient-remainder decomposition into another. */
  lemma Nest(x: int, q1: int, r1: int, q2: int, r2: int, a: int, b: int)
    requires x == q1 * a + r1 && q1 == q2 * b + r2
    ensures x == q2 * (a * b) + (r2 * a + r1)
  {}

  lemma NestBound(r1: nat, r2: nat, a: nat, b: nat)
    requires r1 < a && r2 < b
    ensures r2 * a + r1 < a * b
  {
    MulLe(r2, b - 1, a);
  }

  lemma OnesTimes(p: int, q: int)
    ensures (p - 1) * q + (q - 1) == p * q - 1
  {}

  // ---------------------------------------------------------------------
  // Division by positive numbers and by powers of two

  lemma Pow2Add(a: nat, b: nat)
    ensures Pow2(a + b) == Pow2(a) * Pow2(b)
  {
    if a > 0 {
      Pow2Add(a - 1, b);
      assert Pow2(a + b) == 2 * Pow2(a - 1 + b);
    }
  }

  lemma Pow2Sum(n: nat, a: nat, b: nat)
    requires n == a + b
    ensures Pow2(n) == Pow2(a) * Pow2(b)
  {
    Pow2Add(a, b);
  }

  lemma Pow2Le(a: nat, b: nat)
    requires a <= b
    ensures Pow2(a) <= Pow2(b)
  {
    if a < b {
      Pow2Le(a, b - 1);
    }
  }

  /** Quotient and remainder are determined by any decomposition `q * m + r` with `r < m`. */
  lemma DivModUnique(x: int, m: int, q: int, r: int)
    requires m > 0 && 0 <= r < m && x == q * m + r
    ensures x / m == q && x % m == r
  {
    var q', r' := x / m, x % m;
    assert x == q' * m + r';
    if q > q' {
      MulGe(q - q', m);
      assert false;
    } else if q < q' {
      MulGe(q' - q, m);
      assert false;
    }
  }

  /** A number below `t * p` has a quotient by `p` below `t`. */
  lemma DivBelow(x: nat, p: nat, t: nat)
    requires p > 0 && x < t * p
    ensures x / p < t
  {
    var q := x / p;
    assert x == q * p + x % p;
    if q >= t {
      MulLe(t, q, p);
      assert false;
    }
  }

  /** Dividing twice is dividing by the product. */
  lemma DivDiv(x: nat, a: nat, b: nat)
    requires a > 0 && b > 0
    ensures x / a / b == x / (a * b)
    ensures x % (a * b) == (x / a % b) * a + x % a
  {
    var q1, r1 := x / a, x % a;
    var q2, r2 := q1 / b, q1 % b;
    assert x == q1 * a + r1;
    assert q1 == q2 * b + r2;
    Nest(x, q1, r1, q2, r2, a, b);
    NestBound(r1, r2, a, b);
    DivModUnique(x, a * b, q2, r2 * a + r1);
  }

  /** Shifting right twice is shifting right by the sum. */
  lemma ShrShr(x: nat, a: nat, b: nat)
    ensures Shr(Shr(x, a), b) == Shr(x, a + b)
  {
    Pow2Add(a, b);
    DivDiv(x, Pow2(a), Pow2(b));
  }

  /** The `a + b` low bits of `x` are the `b` bits above digit `a` joined to the `a` low bits. */
  lemma LowSplit(x: nat, n: nat, a: nat, b: nat)
    requires n == a + b
    ensures Low(x, n) == Join(Low(Shr(x, a), b), Low(x, a), a)
  {
    Pow2Add(a, b);
    DivDiv(x, Pow2(a), Pow2(b));
  }

  /** Every word is its bits from digit `k` up joined to its `k` low bits. */
  lemma JoinParts(x: nat, k: nat)
    ensures x == Join(Shr(x, k), Low(x, k), k)
  {}

  /**
   * Splitting a word at digit `k`: the high part `a` and the low part `b`
   * are its quotient and remainder by `Pow2(k)`.
   */
  lemma SplitAt(a: nat, b: nat, k: nat)
    requires b < Pow2(k)
    ensures Shr(Join(a, b, k), k) == a && Low(Join(a, b, k), k) == b
  {
    DivModUnique(Join(a, b, k), Pow2(k), a, b);
  }

  lemma JoinZero(b: nat, k: nat)
    ensures Join(0, b, k) == b
  {}

  /** Splitting at digit 0 leaves an empty low part. */
  lemma JoinAtZero(a: nat, b: nat)
    requires b < Pow2(0)
    ensures b == 0 && Join(a, b, 0) == a
  {}

  /** Parts that fit `n` and `k` bits join to a word that fits `m = n + k` bits. */
  lemma JoinBelow(a: nat, b: nat, k: nat, n: nat, m: nat)
    requires a < Pow2(n) && b < Pow2(k) && m == n + k
    ensures Join(a, b, k) < Pow2(m)
  {
    Pow2Add(n, k);
    JoinMax(a, b, Pow2(k), Pow2(n));
  }

  lemma JoinMax(a: nat, b: nat, p: nat, t: nat)
    requires a < t && b < p
    ensures a * p + b < t * p
  {
    MulLe(a, t - 1, p);
  }

  /** The bits of a `w`-bit word from `k` up fit in `w - k` bits. */
  lemma HighBelow(x: nat, k: nat, w: nat)
    requires k <= w && x < Pow2(w)
    ensures Shr(x, k) < Pow2(w - k)
  {
    Pow2Sum(w, w - k, k);
    DivBelow(x, Pow2(k), Pow2(w - k));
  }

  /** A word already below `Pow2(k)` is its own `k` low bits. */
  lemma LowSmall(x: nat, k: nat)
    requires x < Pow2(k)
    ensures Low(x, k) == x
  {
    DivModUnique(x, Pow2(k), 0, x);
  }

  // ---------------------------------------------------------------------
  // Shifts of the all-ones word

  /** `!0 >> (w - n)` on a `w`-bit word keeps `n` ones: it is `Pow2(n) - 1`. */
  lemma OnesShr(w: nat, n: nat)
    requires n <= w
    ensures Shr(Not(0, w), w - n) == Pow2(n) - 1
  {
    var p, q := Pow2(n), Pow2(w - n);
    Pow2Sum(w, n, w - n);
    OnesTimes(p, q);
    DivModUnique(Not(0, w), q, p - 1, q - 1);
  }

  // ---------------------------------------------------------------------
  // Bitwise operators

  lemma AndZero(x: nat)
    ensures And(x, 0) == 0
  {
    if x > 0 {
      AndZero(x / 2);
    }
  }

  lemma OrZero(x: nat)
    ensures Or(x, 0) == x && Or(0, x) == x
  {
    if x > 0 {
      OrZero(x / 2);
    }
  }

  /** One unfolding of `And`, valid also when the first operand is 0. */
  lemma AndStep(x: nat, y: nat)
    ensures And(x, y) == 2 * And(x / 2, y / 2) + (if x % 2 == 1 && y % 2 == 1 then 1 else 0)
  {}

  /** One unfolding of `Or`, valid also when both operands are 0. */
  lemma OrStep(x: nat, y: nat)
    ensures Or(x, y) == 2 * Or(x / 2, y / 2) + (if x % 2 == 1 || y % 2 == 1 then 1 else 0)
  {}

  /** The `n` low bits of `x` are its lowest digit and the `n - 1` low bits of `x / 2`. */
  lemma LowHalf(x: nat, n: nat)
    requires n > 0
    ensures Low(x, n) == 2 * Low(x / 2, n - 1) + x % 2
  {
    assert Shr(x, 1) == x / 2 && Low(x, 1) == x % 2;
    LowSplit(x, n, 1, n - 1);
  }

  /** Masking with `n` low ones keeps the `n` low bits. */
  lemma {:induction false} AndLowOnes(x: nat, n: nat)
    ensures And(x, Pow2(n) - 1) == Low(x, n)
  {
    if n == 0 {
      AndZero(x);
    } else {
      var m := Pow2(n) - 1;
      assert m / 2 == Pow2(n - 1) - 1 && m % 2 == 1;
      AndStep(x, m);
      AndLowOnes(x / 2, n - 1);
      LowHalf(x, n);
    }
  }

  lemma JoinSucc(a: nat, b: nat, k: nat)
    requires k > 0
    ensures Join(a, b, k) == 2 * Join(a, 0, k - 1) + b
  {
    assert Pow2(k) == 2 * Pow2(k - 1);
  }

  /** Halving a word split at digit `k > 0` halves its low part. */
  lemma HalfSplit(a: nat, b: nat, k: nat)
    requires k > 0 && b < Pow2(k)
    ensures Join(a, b, k) / 2 == Join(a, b / 2, k - 1)
    ensures Join(a, b, k) % 2 == b % 2
  {
    JoinSucc(a, b, k);
    DivModUnique(Join(a, b, k), 2, Join(a, b / 2, k - 1), b % 2);
  }

  /** Halving a `k`-digit word leaves a `k - 1`-digit word. */
  lemma HalfBelow(b: nat, k: nat)
    requires k > 0 && b < Pow2(k)
    ensures b / 2 < Pow2(k - 1)
  {}

  /** `&` works on the parts of two words split at the same digit independently. */
  lemma {:induction false} AndSplit(a: nat, b: nat, c: nat, d: nat, k: nat)
    requires b < Pow2(k) && d < Pow2(k)
    ensures And(Join(a, b, k), Join(c, d, k)) == Join(And(a, c), And(b, d), k)
  {
    if k > 0 {
      HalfBelow(b, k);
      HalfBelow(d, k);
      AndSplit(a, b / 2, c, d / 2, k - 1);
      AndSplitStep(a, b, c, d, k);
    } else {
      JoinAtZero(a, b);
      JoinAtZero(c, d);
      JoinAtZero(And(a, c), And(b, d));
    }
  }

  /** The inductive step of `AndSplit`: from digit `k - 1` to digit `k`. */
  lemma AndSplitStep(a: nat, b: nat, c: nat, d: nat, k: nat)
    requires k > 0 && b < Pow2(k) && d < Pow2(k)
    requires And(Join(a, b / 2, k - 1), Join(c, d / 2, k - 1)) == Join(And(a, c), And(b / 2, d / 2), k - 1)
    ensures And(Join(a, b, k), Join(c, d, k)) == Join(And(a, c), And(b, d), k)
  {
    HalfSplit(a, b, k);
    HalfSplit(c, d, k);
    AndStep(Join(a, b, k), Join(c, d, k));
    AndStep(b, d);
    JoinSucc(And(a, c), And(b, d), k);
  }

  /** `|` works on the parts of two words split at the same digit independently. */
  lemma {:induction false} OrSplit(a: nat, b: nat, c: nat, d: nat, k: nat)
    requires b < Pow2(k) && d < Pow2(k)
    ensures Or(Join(a, b, k), Join(c, d, k)) == Join(Or(a, c), Or(b, d), k)
  {
    if k > 0 {
      HalfBelow(b, k);
      HalfBelow(d, k);
      OrSplit(a, b / 2, c, d / 2, k - 1);
      OrSplitStep(a, b, c, d, k);
    } else {
      JoinAtZero(a, b);
      JoinAtZero(c, d);
      JoinAtZero(Or(a, c), Or(b, d));
    }
  }

  /** The inductive step of `OrSplit`: from digit `k - 1` to digit `k`. */
  lemma OrSplitStep(a: nat, b: nat, c: nat, d: nat, k: nat)
    requires k > 0 && b < Pow2(k) && d < Pow2(k)
    requires Or(Join(a, b / 2, k - 1), Join(c, d / 2, k - 1)) == Join(Or(a, c), Or(b / 2, d / 2), k - 1)
    ensures Or(Join(a, b, k), Join(c, d, k)) == Join(Or(a, c), Or(b, d), k)
  {
    HalfSplit(a, b, k);
    HalfSplit(c, d, k);
    OrStep(Join(a, b, k), Join(c, d, k));
    OrStep(b, d);
    JoinSucc(Or(a, c), Or(b, d), k);
  }

  /** Digit 0 is the parity; digit `i + 1` of `x` is digit `i` of `x / 2`. */
  lemma BitHalf(x: nat, i: nat)
    ensures Bit(x, 0) <==> x % 2 == 1
    ensures Bit(x, i + 1) <==> Bit(x / 2, i)
  {
    assert Shr(x, 1) == x / 2;
    ShrShr(x, 1, i);
  }

  /** Halving a word given by its lowest digit `d` and the rest `h`. */
  lemma Halve(x: nat, h: nat, d: nat)
    requires d < 2 && x == 2 * h + d
    ensures x / 2 == h && x % 2 == d
  {
    DivModUnique(x, 2, h, d);
  }

  /** Digit `i` of `x & y` is set iff it is set in both. */
  lemma {:induction false} AndBit(x: nat, y: nat, i: nat)
    ensures Bit(And(x, y), i) <==> Bit(x, i) && Bit(y, i)
  {
    AndStep(x, y);
    Halve(And(x, y), And(x / 2, y / 2), if x % 2 == 1 && y % 2 == 1 then 1 else 0);
    BitHalf(x, 0);
    BitHalf(y, 0);
    BitHalf(And(x, y), 0);
    if i > 0 {
      BitHalf(x, i - 1);
      BitHalf(y, i - 1);
      BitHalf(And(x, y), i - 1);
      AndBit(x / 2, y / 2, i - 1);
    }
  }

  /** Digit `i` of `x | y` is set iff it is set in either. */
  lemma {:induction false} OrBit(x: nat, y: nat, i: nat)
    ensures Bit(Or(x, y), i) <==> Bit(x, i) || Bit(y, i)
  {
    OrStep(x, y);
    Halve(Or(x, y), Or(x / 2, y / 2), if x % 2 == 1 || y % 2 == 1 then 1 else 0);
    BitHalf(x, 0);
    BitHalf(y, 0);
    BitHalf(Or(x, y), 0);
    if i > 0 {
      BitHalf(x, i - 1);
      BitHalf(y, i - 1);
      BitHalf(Or(x, y), i - 1);
      OrBit(x / 2, y / 2, i - 1);
    }
  }
}
