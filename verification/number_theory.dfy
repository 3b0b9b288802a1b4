/**
 * Euclid's gcd and the lcm fold shared by the network walk (8p2.py:102-107)
 * and the pulse-counting solver (20p2.py).
 */
module NumberTheory {

  /** `d` divides `n`. */
  ghost predicate Divides(d: nat, n: nat)
  {
    exists k: nat :: d * k == n
  }

  /** `while b: a, b = b, a % b; return a` on non-negative operands, where
      Python's floored `%` agrees with Dafny's. */
  function Gcd(a: nat, b: nat): (r: nat)
    ensures a > 0 || b > 0 ==> r > 0
    decreases b
  {
    if b == 0 then a else Gcd(b, a % b)
  }

  /** `a * b // gcd(a, b)` (8p2.py:107). */
  function Lcm(a: nat, b: nat): (r: nat)
    requires a > 0 && b > 0
    ensures r > 0
  {
    LcmIsProduct(a, b);
    a * b / Gcd(a, b)
  }

  /** With `a == g * p` for the gcd `g`, the lcm is `p * b`. */
  lemma LcmIsProduct(a: nat, b: nat)
    requires a > 0 && b > 0
    ensures exists p: nat :: Gcd(a, b) * p == a && a * b / Gcd(a, b) == p * b && p * b > 0
  {
    GcdDividesBoth(a, b);
    var g := Gcd(a, b);
    var p: nat :| g * p == a;
    assert a * b == g * (p * b) by {
      calc {
        a * b;
        (g * p) * b;
        g * (p * b);
      }
    }
    DivideExact(a * b, g, p * b);
    MulSign(b, p);
    assert p > 0 by {
      MulSign(g, p);
    }
  }

  /** With a positive factor, the product has the other factor's sign. */
  lemma MulSign(d: nat, m: int)
    requires d > 0
    ensures d * m >= 0 <==> m >= 0
    ensures d * m > 0 <==> m > 0
  {
  }

  /** Dividing a multiple of `g` by `g` is exact. */
  lemma DivideExact(a: nat, g: nat, p: nat)
    requires g > 0 && g * p == a
    ensures a / g == p
  {
    var q, r := a / g, a % g;
    assert g * (p - q) == r by {
      calc {
        g * (p - q);
        g * p - g * q;
      }
    }
    MulSign(g, p - q);
    assert p - q < 1 by {
      MulAtLeast(g, p - q);
    }
  }

  lemma MulAtLeast(g: nat, m: int)
    requires g > 0
    ensures m >= 1 ==> g * m >= g
  {
    if m >= 1 {
      assert g * m == g + g * (m - 1);
      MulSign(g, m - 1);
    }
  }

  lemma DividesLinear(d: nat, x: nat, y: nat, q: nat)
    requires Divides(d, x) && Divides(d, y)
    ensures Divides(d, q * x + y)
  {
    var kx: nat :| d * kx == x;
    var ky: nat :| d * ky == y;
    assert d * (q * kx + ky) == q * x + y by {
      calc {
        d * (q * kx + ky);
        q * (d * kx) + d * ky;
      }
    }
  }

  lemma DividesDifference(d: nat, x: nat, y: nat, q: nat)
    requires Divides(d, q * x + y) && Divides(d, x)
    ensures Divides(d, y)
  {
    var kn: nat :| d * kn == q * x + y;
    var kx: nat :| d * kx == x;
    if d == 0 {
      assert y == 0 && d * 0 == y;
    } else {
      var m := kn - q * kx;
      assert d * m == y by {
        calc {
          d * m;
          d * kn - q * (d * kx);
        }
      }
      MulSign(d, m);
      assert d * (m as nat) == y;
    }
  }

  /** The gcd divides both operands. */
  lemma {:induction false} GcdDividesBoth(a: nat, b: nat)
    ensures Divides(Gcd(a, b), a) && Divides(Gcd(a, b), b)
    decreases b
  {
    if b == 0 {
      assert a * 1 == a && a * 0 == 0;
    } else {
      GcdDividesBoth(b, a % b);
      DividesLinear(Gcd(a, b), b, a % b, a / b);
    }
  }

  /** Every common divisor divides the gcd: it is the greatest one. */
  lemma {:induction false} CommonDivisorDividesGcd(d: nat, a: nat, b: nat)
    requires Divides(d, a) && Divides(d, b)
    ensures Divides(d, Gcd(a, b))
    decreases b
  {
    if b > 0 {
      DividesDifference(d, b, a % b, a / b);
      CommonDivisorDividesGcd(d, b, a % b);
    }
  }

  lemma DividesTransitive(a: nat, b: nat, c: nat)
    requires Divides(a, b) && Divides(b, c)
    ensures Divides(a, c)
  {
    var k: nat :| a * k == b;
    var m: nat :| b * m == c;
    assert a * (k * m) == c;
  }

  /** The lcm is a multiple of both operands. */
  lemma LcmMultipleOfBoth(a: nat, b: nat)
    requires a > 0 && b > 0
    ensures Divides(a, Lcm(a, b)) && Divides(b, Lcm(a, b))
  {
    GcdDividesBoth(a, b);
    LcmIsProduct(a, b);
    var g := Gcd(a, b);
    var p: nat :| g * p == a && a * b / g == p * b;
    var q: nat :| g * q == b;
    assert Lcm(a, b) == p * b;
    assert b * p == Lcm(a, b);
    assert a * q == Lcm(a, b) by {
      calc {
        a * q;
        (g * p) * q;
        p * (g * q);
        p * b;
      }
    }
  }

  /** `reduce(lambda a, b: a * b // gcd(a, b), steps)` on a non-empty list
      of positive numbers (8p2.py:107). */
  function LcmAll(s: seq<nat>): (r: nat)
    requires |s| > 0 && forall i :: 0 <= i < |s| ==> s[i] > 0
    ensures r > 0
  {
    if |s| == 1 then s[0] else Lcm(LcmAll(s[..|s| - 1]), s[|s| - 1])
  }

  /** The fold is a multiple of every value folded. */
  lemma {:induction false} LcmAllMultipleOfEach(s: seq<nat>, i: nat)
    requires |s| > 0 && forall k :: 0 <= k < |s| ==> s[k] > 0
    requires i < |s|
    ensures Divides(s[i], LcmAll(s))
    decreases |s|
  {
    if |s| == 1 {
      assert s[0] * 1 == s[0];
    } else {
      var init := s[..|s| - 1];
      LcmMultipleOfBoth(LcmAll(init), s[|s| - 1]);
      if i < |s| - 1 {
        LcmAllMultipleOfEach(init, i);
        DividesTransitive(s[i], LcmAll(init), LcmAll(s));
      }
    }
  }

  /** Division with remainder is unique: a representation `n * q + r` with
      `0 <= r < n` is the quotient and remainder. */
  lemma DivModUnique(x: nat, n: nat, q: int, r: int)
    requires n > 0 && 0 <= r < n && x == n * q + r
    ensures x / n == q && x % n == r
  {
    var q2, r2 := x / n, x % n;
    assert n * (q - q2) == r2 - r by {
      calc {
        n * (q - q2);
        n * q - n * q2;
      }
    }
    MulAtLeast(n, q - q2);
    MulAtLeast(n, q2 - q);
    assert n * (q2 - q) == -(n * (q - q2));
  }

  /** Adding the modulus does not change the remainder. */
  lemma ModShift(a: nat, n: nat)
    requires n > 0
    ensures (a + n) % n == a % n
  {
    DivModUnique(a + n, n, a / n + 1, a % n);
  }
}
