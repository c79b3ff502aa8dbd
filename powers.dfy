/** Integer powers of a real base, and the period count that the engine obtains
    from `Math.ceil(Math.log(x) / Math.log(b))`, stated without logarithms. */
module Powers {

  /** `Math.pow(b, n)` for the natural exponents the engine uses. */
  function Pow(b: real, n: nat): real
    decreases n
  {
    if n == 0 then 1.0 else b * Pow(b, n - 1)
  }

  /** An amount `x` after `i` multiplications by `f`: `x * f^i`. */
  function Grown(x: real, f: real, i: nat): real {
    x * Pow(f, i)
  }

  lemma {:induction false} GrownShift(x: real, f: real, i: nat)
    requires i > 0
    ensures Grown(x * f, f, i - 1) == Grown(x, f, i)
  {
    assert Pow(f, i) == f * Pow(f, i - 1);
  }

  lemma {:induction false} MulNonNegative(a: real, c: real)
    requires a >= 0.0 && c >= 0.0
    ensures a * c >= 0.0
  {
  }

  lemma {:induction false} MulPositive(a: real, c: real)
    requires a > 0.0 && c > 0.0
    ensures a * c > 0.0
  {
  }

  lemma {:induction false} PowAtLeastOne(b: real, n: nat)
    requires b >= 1.0
    ensures Pow(b, n) >= 1.0
  {
    if n > 0 {
      PowAtLeastOne(b, n - 1);
      assert b * Pow(b, n - 1) >= Pow(b, n - 1) by {
        assert (b - 1.0) * Pow(b, n - 1) >= 0.0;
      }
    }
  }

  lemma {:induction false} PowOne(n: nat)
    ensures Pow(1.0, n) == 1.0
  {
    if n > 0 {
      PowOne(n - 1);
    }
  }

  /** For a positive scale `c`: `q < x / c` exactly when `c * q < x`. */
  lemma {:induction false} ScaleBelow(c: real, q: real, x: real)
    requires c > 0.0
    ensures q < x / c <==> c * q < x
  {
    assert x / c * c == x;
    if q < x / c {
      MulPositive(x / c - q, c);
    } else {
      MulNonNegative(q - x / c, c);
    }
  }

  /** `LogPeriods(target / init, b)` for a positive `init` and a base of at least 1, stated
      on the scaled powers `init * b^k`: the power at the count reaches `target` ... */
  lemma {:induction false} ScaledLogReaches(init: real, b: real, target: real)
    requires init > 0.0 && b >= 1.0 && (b != 1.0 || target / init <= 1.0)
    ensures init * Pow(b, LogPeriods(target / init, b)) >= target
  {
    var c := LogPeriods(target / init, b);
    assert Pow(b, c) >= target / init;
    ScaleBelow(init, Pow(b, c), target);
  }

  /** ... and every power below the count stays below it. */
  lemma {:induction false} ScaledLogBelow(init: real, b: real, target: real, k: nat)
    requires init > 0.0 && b >= 1.0 && (b != 1.0 || target / init <= 1.0)
    requires k < LogPeriods(target / init, b)
    ensures init * Pow(b, k) < target
  {
    assert Pow(b, k) < target / init;
    ScaleBelow(init, Pow(b, k), target);
  }

  /** A base above one raised to a positive power is above one. */
  lemma {:induction false} PowAboveOne(b: real, n: nat)
    requires b > 1.0 && n >= 1
    ensures Pow(b, n) > 1.0
  {
    PowAtLeastOne(b, n - 1);
    assert b * Pow(b, n - 1) > Pow(b, n - 1) by {
      assert (b - 1.0) * Pow(b, n - 1) > 0.0;
    }
  }

  lemma {:induction false} PowMonotone(b: real, m: nat, n: nat)
    requires b >= 1.0 && m <= n
    ensures Pow(b, m) <= Pow(b, n)
    decreases n - m
  {
    if m < n {
      PowMonotone(b, m, n - 1);
      PowAtLeastOne(b, n - 1);
      assert b * Pow(b, n - 1) >= Pow(b, n - 1) by {
        assert (b - 1.0) * Pow(b, n - 1) >= 0.0;
      }
    }
  }

  /** Bernoulli's inequality, which bounds the period count of `CeilLog`. */
  lemma {:induction false} Bernoulli(r: real, n: nat)
    requires r >= 0.0
    ensures Pow(1.0 + r, n) >= 1.0 + (n as real) * r
  {
    if n > 0 {
      Bernoulli(r, n - 1);
      var p := Pow(1.0 + r, n - 1);
      var q := 1.0 + ((n - 1) as real) * r;
      assert (1.0 + r) * p >= (1.0 + r) * q by {
        MulNonNegative(1.0 + r, p - q);
      }
      assert (1.0 + r) * q == 1.0 + (n as real) * r + ((n - 1) as real) * r * r;
      assert ((n - 1) as real) * r * r >= 0.0;
    }
  }

  /** The search behind `CeilLog`: the first exponent from `n` on whose power reaches `x`,
      or `bound` if none below it does. */
  function ExponentSearch(x: real, b: real, n: nat, bound: nat): nat
    requires n <= bound
    decreases bound - n
  {
    if n == bound || Pow(b, n) >= x then n else ExponentSearch(x, b, n + 1, bound)
  }

  lemma {:induction false} ExponentSearchLeast(x: real, b: real, n: nat, bound: nat)
    requires n <= bound && Pow(b, bound) >= x
    requires forall k: nat :: k < n ==> Pow(b, k) < x
    ensures var m := ExponentSearch(x, b, n, bound);
            Pow(b, m) >= x && forall k: nat :: k < m ==> Pow(b, k) < x
    decreases bound - n
  {
    if n < bound && Pow(b, n) < x {
      ExponentSearchLeast(x, b, n + 1, bound);
    }
  }

  /** An exponent at which a base above one is known, by Bernoulli's inequality, to reach `x`. */
  function ExponentBound(x: real, b: real): (n: nat)
    requires b > 1.0
    ensures Pow(b, n) >= x
  {
    if x <= 1.0 then 0
    else
      var q := (x - 1.0) / (b - 1.0);
      var n := q.Floor + 1;
      assert (n as real) * (b - 1.0) > x - 1.0 by {
        assert n as real > q;
        assert q * (b - 1.0) == x - 1.0;
        MulPositive(n as real - q, b - 1.0);
      }
      Bernoulli(b - 1.0, n);
      n
  }

  /** The least number of periods n with b^n >= x, for a base above one (or an `x` already
      reached at n = 0). */
  function CeilLog(x: real, b: real): (n: nat)
    requires b > 1.0 || x <= 1.0
    ensures Pow(b, n) >= x
    ensures forall k: nat :: k < n ==> Pow(b, k) < x
  {
    if x <= 1.0 then 0
    else
      var bound := ExponentBound(x, b);
      ExponentSearchLeast(x, b, 0, bound);
      ExponentSearch(x, b, 0, bound)
  }

  lemma {:induction false} PowPositive(b: real, n: nat)
    requires b > 0.0
    ensures Pow(b, n) > 0.0
  {
    if n > 0 {
      PowPositive(b, n - 1);
      MulPositive(b, Pow(b, n - 1));
    }
  }

  /** The powers of `1 / b` are the reciprocals of the powers of `b`. */
  lemma {:induction false} PowReciprocal(b: real, n: nat)
    requires b > 0.0
    ensures Pow(1.0 / b, n) * Pow(b, n) == 1.0
  {
    if n > 0 {
      PowReciprocal(b, n - 1);
      var u, v := Pow(b, n - 1), Pow(1.0 / b, n - 1);
      assert Pow(1.0 / b, n) * Pow(b, n) == (1.0 / b * b) * (v * u);
    }
  }

  /** For a positive base and a positive `x`: `(1 / b)^k >= 1 / x` exactly when `b^k <= x`. */
  lemma {:induction false} ReciprocalReaches(b: real, x: real, k: nat)
    requires b > 0.0 && x > 0.0
    ensures Pow(1.0 / b, k) >= 1.0 / x <==> Pow(b, k) <= x
  {
    var u, v := Pow(b, k), Pow(1.0 / b, k);
    PowPositive(b, k);
    PowReciprocal(b, k);
    assert v == 1.0 / u;
    if u <= x {
      assert 1.0 / u >= 1.0 / x by {
        MulNonNegative(x - u, 1.0 / (u * x));
        assert (x - u) * (1.0 / (u * x)) == 1.0 / u - 1.0 / x;
      }
    } else {
      assert 1.0 / u < 1.0 / x by {
        MulPositive(u - x, 1.0 / (u * x));
        assert (u - x) * (1.0 / (u * x)) == 1.0 / x - 1.0 / u;
      }
    }
  }

  /** `Math.ceil(Math.log(x) / Math.log(b))` as the engine uses it, for a base other than 1
      (or an `x` of at most 1, for which the quotient is not positive or not a number). The
      engine feeds the value to `for (period = 1; period <= n; ...)`, which runs zero times
      whenever it is zero, negative or `NaN`; those cases are 0 here.
      - A base above 1: the least n with b^n >= x.
      - A base between 0 and 1 and a positive `x`: both logarithms are negative for x < 1,
        and the value is the least n with b^n <= x.
      - Otherwise (a base of at most 0, whose logarithm is `NaN` or `-Infinity`; a base
        of 1; a non-positive `x`): 0. */
  function LogPeriods(x: real, b: real): (n: nat)
    requires b != 1.0 || x <= 1.0
    ensures b >= 1.0 ==> Pow(b, n) >= x && forall k: nat :: k < n ==> Pow(b, k) < x
    ensures 0.0 < b < 1.0 && x > 0.0 ==> Pow(b, n) <= x && forall k: nat :: k < n ==> Pow(b, k) > x
    ensures b <= 0.0 || x <= 0.0 ==> n == 0
  {
    if b > 1.0 then CeilLog(x, b)
    else if 0.0 < b < 1.0 && x > 0.0 then
      var n := CeilLog(1.0 / x, 1.0 / b);
      ReciprocalReaches(b, x, n);
      forall k: nat | k < n ensures Pow(b, k) > x {
        ReciprocalReaches(b, x, k);
      }
      n
    else 0
  }
}
