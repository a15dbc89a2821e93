/** The float64 quotient of two integers that a float64 holds exactly: 53 significant binary digits, rounded to the
    nearest value and to an even last digit in a tie. */
module Floats {
  import opened Powers

  const TWO52 := 0x10_0000_0000_0000

  const TWO53 := 0x20_0000_0000_0000

  /** The integer nearest to a fraction, the even one in a tie. */
  function Nearest(num: nat, den: nat): nat
    requires den > 0
  {
    var q, r := num / den, num % den;
    if 2 * r < den || (2 * r == den && q % 2 == 0) then q else q + 1
  }

  lemma Division(num: nat, den: nat)
    requires den > 0
    ensures num == (num / den) * den + num % den
  {
  }

  lemma NearestIsNear(num: nat, den: nat)
    requires den > 0
    ensures 2 * num <= 2 * (Nearest(num, den) * den) + den
    ensures 2 * (Nearest(num, den) * den) <= 2 * num + den
  {
    Division(num, den);
    var q := num / den;
    assert (q + 1) * den == q * den + den;
  }

  lemma OneMoreTimes(x: nat, y: nat, den: nat)
    requires x < y
    ensures x * den + den <= y * den
  {
    assert y * den == x * den + (y - x) * den;
    Times(1, y - x, den);
  }

  /** It is the integer within one half of the fraction, and in a tie the even one. */
  lemma NearestIff(num: nat, den: nat, k: nat)
    requires den > 0
    ensures Nearest(num, den) == k
       <==> var d: int := 2 * num - 2 * (k * den);
            (d < den && -d < den) || ((d == den || -d == den) && k % 2 == 0)
  {
    Division(num, den);
    var q := num / den;
    assert (q + 1) * den == q * den + den;
    if k < q {
      OneMoreTimes(k, q, den);
    } else if k > q + 1 {
      OneMoreTimes(q + 1, k, den);
    }
  }

  /** Rounding keeps the order to integers. */
  lemma NearestBounds(num: nat, den: nat, m: nat)
    requires den > 0
    ensures num >= m * den ==> Nearest(num, den) >= m
    ensures num <= m * den ==> Nearest(num, den) <= m
  {
    var k := Nearest(num, den);
    NearestIsNear(num, den);
    if k < m {
      OneMoreTimes(k, m, den);
    } else if k > m {
      OneMoreTimes(m, k, den);
    }
  }

  /** How often `a` has to be doubled to reach `b`. */
  function Doublings(a: nat, b: nat): (n: nat)
    requires a > 0
    ensures a * Pow2(n) >= b && (n > 0 ==> a * Pow2(n) < 2 * b) && (n == 0 <==> a >= b)
    decreases b - a
  {
    if a >= b then 0
    else
      var n := Doublings(2 * a, b);
      assert a * Pow2(n + 1) == 2 * a * Pow2(n);
      n + 1
  }

  /** How often `b` can be doubled without exceeding `a`. */
  function Halvings(a: nat, b: nat): (n: nat)
    requires b > 0
    ensures a < 2 * b * Pow2(n) && (n > 0 ==> a >= b * Pow2(n)) && (n == 0 <==> a < 2 * b)
    decreases a - b
  {
    if a < 2 * b then 0
    else
      var n := Halvings(a, 2 * b);
      assert b * Pow2(n + 1) == 2 * b * Pow2(n);
      n + 1
  }

  /** The 53-digit integer of the quotient: `a / b`, scaled to lie between 1 and 2, times 2^52. */
  function Digits(a: nat, b: nat): nat
    requires a > 0 && b > 0
  {
    Nearest(a * Pow2(Doublings(a, b)) * TWO52, b * Pow2(Halvings(a, b)))
  }

  /** float64(a) / float64(b) */
  function Quotient(a: nat, b: nat): (q: real)
    requires b > 0
    ensures q >= 0.0
  {
    if a == 0 then 0.0
    else
      var up, down := Pow2(Doublings(a, b)) * TWO52, Pow2(Halvings(a, b));
      NotNegative(Digits(a, b) * down, up);
      (Digits(a, b) * down) as real / up as real
  }

  lemma NotNegative(n: nat, u: nat)
    requires u > 0
    ensures n as real / u as real >= 0.0
  {
  }

  /** Numerator and denominator that Digits rounds, and the unit that Quotient divides by. */
  lemma ScaledBounds(a: nat, b: nat)
    requires a > 0 && b > 0
    ensures TWO52 <= Digits(a, b) <= TWO53
    ensures a < b ==> Halvings(a, b) == 0 && Doublings(a, b) > 0
    ensures a >= b ==> Doublings(a, b) == 0
  {
    var num, den := a * Pow2(Doublings(a, b)), b * Pow2(Halvings(a, b));
    assert den <= num < 2 * den;
    Times(den, num, TWO52);
    Times(num, 2 * den, TWO52);
    NearestBounds(num * TWO52, den, TWO52);
    NearestBounds(num * TWO52, den, TWO53);
  }

  lemma Times(x: nat, y: nat, t: nat)
    requires x <= y
    ensures x * t <= y * t
  {
  }

  /** Comparing a quotient of reals with a constant. */
  lemma QuotientOrder(m: real, n: real, c: real)
    requires n > 0.0
    ensures m >= c * n <==> m / n >= c
    ensures m > c * n <==> m / n > c
  {
    var x := m / n;
    assert x * n == m;
    assert (x - c) * n == m - c * n;
    assert x - c > 0.0 ==> (x - c) * n > 0.0;
    assert x - c < 0.0 ==> (x - c) * n < 0.0;
  }

  lemma CompareQuotient(n: nat, u: nat)
    requires u > 0
    ensures var q := n as real / u as real;
            (q < 1.0 <==> n < u) && (q == 1.0 <==> n == u) && (q > 0.5 <==> 2 * n > u) && (q == 0.5 <==> 2 * n == u)
  {
    QuotientOrder(n as real, u as real, 1.0);
    QuotientOrder(n as real, u as real, 0.5);
  }

  // ---------------------------------------------------------------- comparison with 0, 1/2 and 1

  lemma PositiveQuotient(a: nat, b: nat)
    requires b > 0
    ensures Quotient(a, b) == 0.0 <==> a == 0
  {
    if a > 0 {
      ScaledBounds(a, b);
      var up, down := Pow2(Doublings(a, b)) * TWO52, Pow2(Halvings(a, b));
      Times(1, down, Digits(a, b));
      QuotientOrder((Digits(a, b) * down) as real, up as real, 0.0);
    }
  }

  /** Below one exactly when the fraction is, for denominators that float64 holds. */
  lemma BelowOneIff(a: nat, b: nat)
    requires 0 < b <= TWO53
    ensures Quotient(a, b) < 1.0 <==> a < b
  {
    if a > 0 {
      ScaledBounds(a, b);
      var up, down := Pow2(Doublings(a, b)) * TWO52, Pow2(Halvings(a, b));
      CompareQuotient(Digits(a, b) * down, up);
      if a < b {
        FractionBelowOne(a, b, up);
      } else {
        Times(1, down, Digits(a, b));
      }
    }
  }

  lemma FractionBelowOne(a: nat, b: nat, up: nat)
    requires 0 < a < b <= TWO53 && up == Pow2(Doublings(a, b)) * TWO52
    ensures Digits(a, b) < up
  {
    assert up >= TWO53 by {
      ScaledBounds(a, b);
      Times(2, Pow2(Doublings(a, b)), TWO52);
    }
    assert 2 * (Digits(a, b) * b) <= 2 * (a * up) + b by {
      DigitsAreNear(a, b);
    }
    NotAsLarge(Digits(a, b), a, b, up);
  }

  lemma NotAsLarge(k: nat, a: nat, b: nat, up: nat)
    requires a < b <= TWO53 <= up && 2 * (k * b) <= 2 * (a * up) + b
    ensures k < up
  {
    OneMoreTimes(a, b, up);
    assert up * b == b * up;
    if k >= up {
      Times(up, k, b);
    }
  }

  /** One exactly for equal numbers. */
  lemma IsOneIff(a: nat, b: nat)
    requires 0 < b < TWO53
    ensures Quotient(a, b) == 1.0 <==> a == b
  {
    BelowOneIff(a, b);
    if a >= b {
      ScaledBounds(a, b);
      var k, down := Digits(a, b), Pow2(Halvings(a, b));
      assert Pow2(Doublings(a, b)) * TWO52 == TWO52 && a * Pow2(Doublings(a, b)) == a;
      CompareQuotient(k * down, TWO52);
      if Halvings(a, b) > 0 {
        assert down == 2 * Pow2(Halvings(a, b) - 1);
        Times(2, down, k);
      } else {
        assert b * down == b && k * down == k;
        if a == b {
          NearestBounds(a * TWO52, b, TWO52);
        } else {
          NearestIsNear(a * TWO52, b);
          OneMoreTimes(b, a, TWO52);
          assert k > TWO52;
        }
      }
    }
  }

  /** Above one half exactly when the fraction is. */
  lemma AboveHalfIff(a: nat, b: nat)
    requires 0 < a < b < TWO53
    ensures Quotient(a, b) > 0.5 <==> 2 * a > b
    ensures 2 * a == b ==> Quotient(a, b) == 0.5
  {
    ScaledBounds(a, b);
    var k, n, down := Digits(a, b), Doublings(a, b), Pow2(Halvings(a, b));
    assert k * down == k && b * down == b;
    CompareQuotient(k, Pow2(n) * TWO52);
    assert Pow2(n) == 2 * Pow2(n - 1);
    if 2 * a >= b {
      OneDoubling(a, b);
      assert a * Pow2(n) * TWO52 == 2 * a * TWO52;
      if 2 * a == b {
        NearestBounds(b * TWO52, b, TWO52);
      } else {
        NearestIsNear(2 * a * TWO52, b);
        OneMoreTimes(b, 2 * a, TWO52);
        assert k > TWO52;
      }
    } else {
      assert n >= 2;
      assert Pow2(n) == 4 * Pow2(n - 2);
    }
  }

  lemma OneDoubling(a: nat, b: nat)
    requires 0 < a < b <= 2 * a
    ensures Doublings(a, b) == 1 && Pow2(1) == 2
  {
    assert Doublings(2 * a, b) == 0;
  }

  // ---------------------------------------------------------------- distance

  /** Within half a unit in the last place, and exact on the values that the classification compares with. */
  predicate IsClose(q: real, x: real) {
    && -1.0 <= (q - x) * 9007199254740992.0 <= 1.0
    && (x == 0.0 || x == 0.5 || x == 1.0 ==> q == x)
  }

  lemma QuotientIsClose(a: nat, b: nat)
    requires a <= b && 0 < b < TWO53
    ensures IsClose(Quotient(a, b), a as real / b as real)
  {
    CompareQuotient(a, b);
    PositiveQuotient(a, b);
    IsOneIff(a, b);
    QuotientOrder(a as real, b as real, 0.0);
    if 0 < a < b {
      AboveHalfIff(a, b);
      QuotientDistance(a, b);
    }
  }

  /** The unit by which the digits of a quotient below one are scaled. */
  function Unit(a: nat, b: nat): nat
    requires 0 < a < b
  {
    Pow2(Doublings(a, b)) * TWO52
  }

  lemma DigitsAreNear(a: nat, b: nat)
    requires 0 < a < b
    ensures Digits(a, b) == Nearest(a * Unit(a, b), b)
    ensures Unit(a, b) >= TWO52 && Quotient(a, b) == Digits(a, b) as real / Unit(a, b) as real
    ensures 2 * (a * Unit(a, b)) <= 2 * (Digits(a, b) * b) + b
    ensures 2 * (Digits(a, b) * b) <= 2 * (a * Unit(a, b)) + b
  {
    ScaledBounds(a, b);
    assert Pow2(Halvings(a, b)) == 1;
    assert b * 1 == b && Digits(a, b) * 1 == Digits(a, b);
    assert a * Pow2(Doublings(a, b)) * TWO52 == a * Unit(a, b);
    NearestIsNear(a * Unit(a, b), b);
    Times(1, Pow2(Doublings(a, b)), TWO52);
  }

  lemma QuotientDistance(a: nat, b: nat)
    requires 0 < a < b
    ensures -1.0 <= (Quotient(a, b) - a as real / b as real) * 9007199254740992.0 <= 1.0
  {
    DigitsAreNear(a, b);
    FractionDistance(Digits(a, b), Unit(a, b), a, b);
  }

  lemma FractionDistance(k: nat, u: nat, a: nat, b: nat)
    requires b > 0 && u >= TWO52 && 2 * (a * u) <= 2 * (k * b) + b && 2 * (k * b) <= 2 * (a * u) + b
    ensures -1.0 <= (k as real / u as real - a as real / b as real) * 9007199254740992.0 <= 1.0
  {
    var p, r := k * b, a * u;
    assert p as real == k as real * b as real && r as real == a as real * u as real;
    var q, x := k as real / u as real, a as real / b as real;
    assert q * u as real == k as real && x * b as real == a as real;
    Distance(q, x, k as real, u as real, a as real, b as real, p as real - r as real);
  }

  lemma Distance(q: real, x: real, k: real, u: real, a: real, b: real, d: real)
    requires q * u == k && x * b == a && d == k * b - a * u
    requires b > 0.0 && u >= 4503599627370496.0 && -b <= 2.0 * d <= b
    ensures -1.0 <= (q - x) * 9007199254740992.0 <= 1.0
  {
    var f := (q - x) * u;
    calc {
      f * b;
      (q * u) * b - (x * b) * u;
      d;
    }
    WithinUnit(f, b, d);
    HalfUnit(q - x, u);
  }

  lemma WithinUnit(f: real, b: real, d: real)
    requires b > 0.0 && d == f * b && -b <= 2.0 * d <= b
    ensures -1.0 <= 2.0 * f <= 1.0
  {
    assert 2.0 * f - 1.0 > 0.0 ==> (2.0 * f - 1.0) * b > 0.0;
    assert -1.0 - 2.0 * f > 0.0 ==> (-1.0 - 2.0 * f) * b > 0.0;
  }

  lemma HalfUnit(e: real, u: real)
    requires u >= 4503599627370496.0 && -1.0 <= 2.0 * (e * u) <= 1.0
    ensures -1.0 <= e * 9007199254740992.0 <= 1.0
  {
    if e >= 0.0 {
      assert e * (u - 4503599627370496.0) >= 0.0;
    } else {
      assert e * (u - 4503599627370496.0) <= 0.0;
    }
  }

  // ---------------------------------------------------------------- decimal ties

  lemma NearestSide(num: nat, den: nat)
    requires den > 0
    ensures 2 * (num % den) > den ==> Nearest(num, den) * den > num
    ensures 0 < 2 * (num % den) < den ==> Nearest(num, den) * den < num
  {
    Division(num, den);
    var q := num / den;
    assert (q + 1) * den == q * den + den;
  }

  /** To which side of the fraction the quotient falls. */
  lemma QuotientSide(a: nat, b: nat, r: nat)
    requires 0 < a < b && r == (a * Unit(a, b)) % b
    ensures 2 * r > b ==> Quotient(a, b) > a as real / b as real
    ensures 0 < 2 * r < b ==> Quotient(a, b) < a as real / b as real
  {
    DigitsAreNear(a, b);
    NearestSide(a * Unit(a, b), b);
    CompareFractions(Digits(a, b), Unit(a, b), a, b);
  }

  lemma CompareFractions(k: nat, u: nat, a: nat, b: nat)
    requires u > 0 && b > 0
    ensures k * b > a * u ==> k as real / u as real > a as real / b as real
    ensures k * b < a * u ==> k as real / u as real < a as real / b as real
  {
    var q, x := k as real / u as real, a as real / b as real;
    var p, r := k * b, a * u;
    assert p as real == k as real * b as real && r as real == a as real * u as real;
    SameSign(q, x, k as real, u as real, a as real, b as real, p as real - r as real);
  }

  lemma SameSign(q: real, x: real, k: real, u: real, a: real, b: real, d: real)
    requires q * u == k && x * b == a && d == k * b - a * u && u > 0.0 && b > 0.0
    ensures (d > 0.0 ==> q > x) && (d < 0.0 ==> q < x)
  {
    var f := (q - x) * u;
    calc {
      f * b;
      (q * u) * b - (x * b) * u;
      d;
    }
    assert q - x <= 0.0 ==> f <= 0.0;
    assert q - x >= 0.0 ==> f >= 0.0;
    assert f <= 0.0 ==> f * b <= 0.0;
    assert f >= 0.0 ==> f * b >= 0.0;
  }

  lemma NotTwice(a: nat, p: nat, q: nat, b: nat)
    requires 2 * p <= q && a * p >= b
    ensures a * q >= 2 * b
  {
    Times(2 * p, q, a);
    assert 2 * p * a == 2 * (a * p) && q * a == a * q;
  }

  lemma DoublingsAre(a: nat, b: nat, n: nat)
    requires 0 < a < b && b <= a * Pow2(n) < 2 * b
    ensures Doublings(a, b) == n
  {
    var m := Doublings(a, b);
    if m < n {
      Pow2Grows(m + 1, n);
      NotTwice(a, Pow2(m), Pow2(n), b);
    } else if n < m {
      Pow2Grows(n + 1, m);
      NotTwice(a, Pow2(n), Pow2(m), b);
    }
  }

  /** The three ratios with the maximum 200000 that lie exactly between two five-digit decimals on the border of two
      classes: their float64 values fall to the right side. */
  lemma TieAt200000(a: nat, b: nat)
    requires b == 200000 && (a == 1 || a == 100001 || a == 199999)
    ensures if a == 199999 then Quotient(a, b) < a as real / b as real else Quotient(a, b) > a as real / b as real
  {
    var n, p := if a == 1 then 18 else 1, if a == 1 then 262144 else 2;
    assert Pow2(1) == 2 && Pow2(9) == 512;
    Pow2Sum(9, 9);
    DoublingsAre(a, b, n);
    assert Unit(a, b) == p * TWO52;
    TieRemainder(a, Unit(a, b));
    QuotientSide(a, b, if a == 1 then 103424 else if a == 100001 then 140992 else 59008);
  }

  lemma TieRemainder(a: nat, u: nat)
    requires (a == 1 && u == 262144 * TWO52) || ((a == 100001 || a == 199999) && u == 2 * TWO52)
    ensures (a * u) % 200000 == if a == 1 then 103424 else if a == 100001 then 140992 else 59008
  {
  }
}
