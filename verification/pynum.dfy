/** The two pieces of Python integer arithmetic the scripts rely on. */
module PyNum {

  /** Python's `int(x)` on a float: truncation toward zero. */
  function Trunc(x: real): (n: int)
    ensures 0.0 <= x ==> 0 <= n && n as real <= x < n as real + 1.0
    ensures x < 0.0 ==> n <= 0 && n as real - 1.0 < x <= n as real
  {
    if x >= 0.0 then x.Floor else -((-x).Floor)
  }

  /** Python's `a % b`: the remainder takes the sign of the divisor. */
  function Mod(a: int, b: int): (r: int)
    requires b != 0
    ensures b > 0 ==> 0 <= r < b
    ensures b < 0 ==> b < r <= 0
    ensures b > 0 && 0 <= a < b ==> r == a
    ensures b < 0 && b < a <= 0 ==> r == a
  {
    if b > 0 then a % b else -((-a) % (-b))
  }

  lemma MulAtLeast(m: int, k: int)
    requires m > 0 && k >= 1
    ensures m * k >= m
  {
  }

  /** Euclidean division has one remainder: any x == m * q + r with 0 <= r < m has x % m == r. */
  lemma ModUnique(x: int, m: int, q: int, r: int)
    requires m > 0 && 0 <= r < m && x == m * q + r
    ensures x % m == r
  {
    var q', r' := x / m, x % m;
    assert x == m * q' + r';
    assert m * (q - q') == r' - r;
    if q > q' {
      MulAtLeast(m, q - q');
    } else if q < q' {
      MulAtLeast(m, q' - q);
    }
  }

  /** Shifting the dividend by one divisor does not change the remainder. */
  lemma ModPeriodic(a: int, b: int)
    requires b != 0
    ensures Mod(a + b, b) == Mod(a, b)
  {
    var m, x := if b > 0 then b else -b, if b > 0 then a else -a;
    assert x == m * (x / m) + x % m;
    ModUnique(x + m, m, x / m + 1, x % m);
  }

  /**
   * Python's `%` is the r with a == b * q + r for some q and r on the
   * divisor's side of zero: any such r is what `Mod` returns.
   */
  lemma ModCharacterised(a: int, b: int, q: int, r: int)
    requires b != 0 && a == b * q + r
    requires b > 0 ==> 0 <= r < b
    requires b < 0 ==> b < r <= 0
    ensures Mod(a, b) == r
  {
    if b > 0 {
      ModUnique(a, b, q, r);
    } else {
      assert -a == (-b) * q + (-r);
      ModUnique(-a, -b, q, -r);
    }
  }
}
