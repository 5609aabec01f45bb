/** Divisibility and rounding division, as far as timestamps need them. */
module Arithmetic {
  import opened Timestamps

  predicate Divides(d: Positive, n: int) {
    n % d == 0
  }

  /** A multiple of `d` that lies strictly between -d and d is 0. */
  lemma OnlyZero(d: Positive, j: int)
    requires 0 < d * j + d < 2 * d
    ensures j == 0
  {
    assert d * (j + 1) == d * j + d;
    assert j + 1 <= 0 ==> d * (j + 1) <= 0;
    assert j >= 1 ==> d * j >= d;
  }

  lemma Quotient(d: Positive, n: int) returns (q: int)
    requires Divides(d, n)
    ensures n == d * q
  {
    q := n / d;
  }

  lemma MultipleOf(d: Positive, k: int)
    ensures Divides(d, d * k) && d * k / d == k
  {
    var q, r := d * k / d, d * k % d;
    assert d * (k - q) == r;
    OnlyZero(d, k - q);
  }

  function Gcd(a: Positive, b: nat): Positive
    decreases b
  {
    if b == 0 then a else Gcd(b, a % b)
  }

  lemma DividesTrans(a: Positive, b: Positive, n: int)
    requires Divides(a, b) && Divides(b, n)
    ensures Divides(a, n)
  {
    var p := Quotient(a, b);
    var q := Quotient(b, n);
    assert n == a * (p * q) by {
      assert n == (a * p) * q;
    }
    MultipleOf(a, p * q);
  }

  lemma DividesDividend(g: Positive, a: int, b: Positive)
    requires Divides(g, b) && Divides(g, a % b)
    ensures Divides(g, a)
  {
    var p := Quotient(g, b);
    var q := Quotient(g, a % b);
    DividesCombination(g, a, b, a / b, a % b, p, q);
  }

  lemma DividesCombination(g: Positive, a: int, b: int, t: int, r: int, p: int, q: int)
    requires a == b * t + r && b == g * p && r == g * q
    ensures Divides(g, a)
  {
    assert a == g * (p * t + q);
    MultipleOf(g, p * t + q);
  }

  lemma {:induction false} GcdDivides(a: Positive, b: nat)
    ensures Divides(Gcd(a, b), a) && Divides(Gcd(a, b), b)
    decreases b
  {
    if b == 0 {
      MultipleOf(a, 1);
      MultipleOf(a, 0);
    } else {
      GcdDivides(b, a % b);
      DividesDividend(Gcd(a, b), a, b);
    }
  }

  lemma {:induction false} Bezout(a: Positive, b: nat) returns (x: int, y: int)
    ensures a * x + b * y == Gcd(a, b)
    decreases b
  {
    if b == 0 {
      x, y := 1, 0;
    } else {
      var u, v := Bezout(b, a % b);
      x, y := v, u - (a / b) * v;
      assert a % b == a - b * (a / b);
      calc {
        a * x + b * y;
        a * v + b * u - b * ((a / b) * v);
        b * u + (a - b * (a / b)) * v;
        b * u + (a % b) * v;
      }
    }
  }

  function Lcm(a: Positive, b: Positive): int {
    a / Gcd(a, b) * b
  }

  lemma LcmFacts(a: Positive, b: Positive)
    ensures 0 < a / Gcd(a, b) && b <= Lcm(a, b) && a * b == Gcd(a, b) * Lcm(a, b)
    ensures Divides(a, Lcm(a, b)) && Divides(b, Lcm(a, b))
  {
    var g := Gcd(a, b);
    GcdDivides(a, b);
    LcmByParts(a, b, g, a / g, b / g);
  }

  lemma LcmByParts(a: Positive, b: Positive, g: Positive, u: int, v: int)
    requires a == g * u && b == g * v
    ensures 0 < u && b <= u * b && a * b == g * (u * b) && Divides(a, u * b) && Divides(b, u * b)
  {
    assert u <= 0 ==> g * u <= 0;
    assert u * b == b + (u - 1) * b;
    assert u * b == a * v;
    assert u * b == b * u;
    MultipleOf(a, v);
    MultipleOf(b, u);
  }

  /** `Lcm` is a common multiple, and divides every other one. */
  lemma LcmIsLeast(a: Positive, b: Positive, m: int)
    requires Divides(a, m) && Divides(b, m)
    ensures 0 < Lcm(a, b) && Divides(Lcm(a, b), m)
  {
    var p := Quotient(a, m);
    var q := Quotient(b, m);
    LcmOf(a, b, p, q);
  }

  lemma LcmOf(a: Positive, b: Positive, p: int, q: int)
    requires a * p == b * q
    ensures 0 < Lcm(a, b) && Divides(Lcm(a, b), a * p)
  {
    LcmFacts(a, b);
    var x, y := Bezout(a, b);
    CommonMultiple(a, b, p, q, x, y, Gcd(a, b), Lcm(a, b));
  }

  lemma CommonMultiple(a: Positive, b: Positive, p: int, q: int, x: int, y: int, g: Positive, l: Positive)
    requires a * p == b * q && a * x + b * y == g && a * b == g * l
    ensures Divides(l, a * p)
  {
    var k := q * x + p * y;
    calc {
      g * (a * p);
      (a * x + b * y) * (a * p);
      (a * p) * (a * x) + (a * p) * (b * y);
      (b * q) * (a * x) + (a * p) * (b * y);
      (a * b) * (q * x) + (a * b) * (p * y);
      (a * b) * k;
      g * l * k;
      g * (l * k);
    }
    Cancel(g, a * p, l * k);
    MultipleOf(l, k);
  }

  lemma Cancel(g: Positive, x: int, y: int)
    requires g * x == g * y
    ensures x == y
  {
    assert g * (x - y) == 0;
    OnlyZero(g, x - y);
  }

  // ----- rescaling

  /** `n / d` rounded to the nearest integer, halves away from zero. */
  function Nearest(n: int, d: Positive): int {
    if n >= 0 then (n + d / 2) / d else -((-n + d / 2) / d)
  }

  /** It is no more than half a unit away. */
  lemma NearestIsNear(n: int, d: Positive)
    ensures -(d as int) <= 2 * (d * Nearest(n, d) - n) <= d
  {
    if n >= 0 {
      Halves(n, d);
    } else {
      Halves(-n, d);
      assert d * -((-n + d / 2) / d) == -(d * ((-n + d / 2) / d));
    }
  }

  lemma Halves(n: nat, d: Positive)
    ensures -(d as int) <= 2 * (d * ((n + d / 2) / d) - n) <= d
  {
    var m := n + d / 2;
    assert m == d * (m / d) + m % d;
  }

  lemma NearestExact(k: int, d: Positive)
    ensures Nearest(d * k, d) == k
  {
    if k >= 0 {
      NearestOfMultiple(k, d);
    } else {
      NearestOfMultiple(-k, d);
      assert d * -k == -(d * k);
      assert d * k < 0;
    }
  }

  lemma NearestOfMultiple(k: nat, d: Positive)
    ensures (d * k + d / 2) / d == k
  {
    var q, r := (d * k + d / 2) / d, (d * k + d / 2) % d;
    assert d * (k - q) == r - d / 2;
    OnlyZero(d, k - q);
  }

  /** `av_rescale_q` between the time bases 1/from and 1/to. */
  function Rescale(ts: int, from: Positive, to: Positive): int {
    Nearest(ts * to, from)
  }

  /** Going to a finer time base loses nothing. */
  lemma RescaleExact(ts: int, from: Positive, to: Positive)
    requires Divides(from, to)
    ensures Rescale(ts, from, to) == ts * (to / from)
    ensures Rescale(ts, from, to) as real / to as real == ts as real / from as real
  {
    var k := to / from;
    assert to == from * k;
    assert ts * to == from * (ts * k);
    NearestExact(ts * k, from);
    Fraction(ts, from, k);
  }

  lemma Fraction(ts: int, d: Positive, k: int)
    requires d * k > 0
    ensures (ts * k) as real / (d * k) as real == ts as real / d as real
  {
    var q := ts as real / d as real;
    assert q * d as real == ts as real;
    assert (ts * k) as real == ts as real * k as real;
    assert (d * k) as real == d as real * k as real;
    assert q * (d * k) as real == (ts * k) as real;
  }
}
