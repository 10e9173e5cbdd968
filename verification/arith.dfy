/** Facts about Euclidean division by a positive modulus that the solver does not find alone. */
module Arith {

  lemma MulAtLeast(k: int, n: int)
    requires n > 0
    ensures k >= 1 ==> k * n >= n
    ensures k <= -1 ==> k * n <= -n
  {
    if k >= 1 {
      assert k * n == n + (k - 1) * n;
    } else if k <= -1 {
      assert k * n == -n + (k + 1) * n;
      assert (k + 1) * n <= 0 by {
        assert (k + 1) * n == -((-(k + 1)) * n);
      }
    }
  }

  /** Quotient and remainder are unique. */
  lemma DivModUnique(y: int, c: int, b: int, n: int)
    requires n > 0 && 0 <= b < n && y == c * n + b
    ensures y % n == b && y / n == c
  {
    var q, m := y / n, y % n;
    assert y == q * n + m;
    assert (c - q) * n == m - b;
    MulAtLeast(c - q, n);
  }

  /** Adding a multiple of the modulus does not change the remainder. */
  lemma ModShift(x: int, k: int, n: int)
    requires n > 0
    ensures (x + k * n) % n == x % n
  {
    DivModUnique(x + k * n, x / n + k, x % n, n);
  }

  /** Two values whose remainders agree differ by a multiple of the modulus. */
  lemma SameRemainder(x: int, y: int, n: int)
    requires n > 0 && x % n == y % n
    ensures (x - y) % n == 0
  {
    DivModUnique(x - y, x / n - y / n, 0, n);
  }

  /** Two different values closer than the modulus have different remainders. */
  lemma CloseValuesDiffer(x: int, y: int, n: int)
    requires n > 0 && y < x < y + n
    ensures x % n != y % n
  {
    if x % n == y % n {
      var k := x / n - y / n;
      assert x - y == k * n;
      MulAtLeast(k, n);
    }
  }

  /** The offset that walks from `start` to `j` modulo `n`. */
  lemma WalkTo(start: int, j: int, n: int)
    requires n > 0 && 0 <= j < n
    ensures 0 <= (j - start) % n < n
    ensures (start + (j - start) % n) % n == j
  {
    var m := (j - start) % n;
    var q := (j - start) / n;
    assert j - start == q * n + m;
    DivModUnique(start + m, -q, j, n);
  }

  /** One full turn of the modulus changes nothing. */
  lemma ModAddModulus(x: int, y: int, n: int)
    requires n > 0 && y == x + n
    ensures y % n == x % n
  {
    DivModUnique(y, x / n + 1, x % n, n);
  }

  /** 2^k. */
  function Pow2(k: nat): (r: nat)
    ensures r > 0
  {
    if k == 0 then 1 else 2 * Pow2(k - 1)
  }

  /** Dividing by a positive number never increases a natural number. */
  lemma DivAtMost(x: nat, p: nat)
    requires p > 0
    ensures 0 <= x / p <= x
  {
    DivModUnique(x, x / p, x % p, p);
    if x / p < 0 {
      MulAtLeast(x / p, p);
    }
    if x / p > 0 {
      MulAtLeast(p, x / p);
    }
  }

  /** Dividing by `a` and then by `b` is dividing by `a * b`. */
  lemma DivDiv(x: nat, a: nat, b: nat)
    requires a > 0 && b > 0
    ensures (x / a) / b == x / (a * b)
  {
    var q1, r1 := x / a, x % a;
    var q2, r2 := q1 / b, q1 % b;
    assert x == a * q1 + r1;
    assert q1 == b * q2 + r2;
    assert x == (a * b) * q2 + (a * r2 + r1) by {
      assert a * q1 == a * (b * q2) + a * r2;
      assert a * (b * q2) == (a * b) * q2;
    }
    assert a * r2 + r1 < a * b by {
      assert r2 <= b - 1;
      MulMono(a, r2, b - 1);
      assert a * (b - 1) == a * b - a;
    }
    DivModUnique(x, q2, a * r2 + r1, a * b);
  }

  lemma MulMono(a: nat, x: nat, y: nat)
    requires x <= y
    ensures a * x <= a * y
  {
    assert a * y == a * x + a * (y - x);
  }
}
