/** Division by a positive number. */
module Division {

  type positive = n: nat | 0 < n witness 1

  /** Division rounding up. */
  function CeilDiv(a: int, b: positive): int {
    -(-a / b)
  }

  lemma CeilDivBounds(a: int, b: positive, q: int)
    ensures CeilDiv(a, b) <= q <==> a <= b * q
  {
    var c := -a / b;
    assert b * c <= -a < b * (c + 1);
    if -c <= q { assert b * -c <= b * q; }
    if q < -c { assert b * (q + 1) <= b * -c; }
  }

  lemma DivisionIsUnique(a: int, b: positive, q: int, r: nat)
    requires a == b * q + r && r < b
    ensures a / b == q && a % b == r
  {
    var quotient := a / b;
    assert a == b * quotient + a % b;
    assert b * (q - quotient) == b * q - b * quotient;
    Multiple(b, q - quotient);
  }

  lemma Multiple(b: positive, d: int)
    ensures d >= 1 ==> b * d >= b
    ensures d <= -1 ==> b * d + b <= 0
  {
  }

  /** Whole multiples do not change a remainder. */
  lemma RemainderOfSum(whole: int, a: int, b: positive)
    requires whole % b == 0
    ensures (whole + a) % b == a % b
  {
    var p, q := whole / b, a / b;
    assert whole == b * p && a == b * q + a % b;
    assert b * (p + q) == b * p + b * q;
    DivisionIsUnique(whole + a, b, p + q, a % b);
  }

  /** The length of n items cut to whole units. */
  function WholeLength(n: nat, unit: positive): (length: nat)
    ensures length <= n < length + unit && length % unit == 0
  {
    DivisionIsUnique(unit * (n / unit), unit, n / unit, 0);
    n - n % unit
  }

  lemma WholeLengthGrows(n: nat, more: nat, unit: positive)
    ensures WholeLength(n + more, unit) == WholeLength(n, unit) + WholeLength(n - WholeLength(n, unit) + more, unit)
  {
    var whole := WholeLength(n, unit);
    RemainderOfSum(whole, n - whole + more, unit);
  }
}
