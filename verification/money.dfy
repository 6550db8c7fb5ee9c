/**
  `halfCents`: the displayed price is half the stored one, rounded the way
  `Math.round` rounds.
 */
module Money {

  /**
    `Math.round(n / d)` for a positive divisor: the integer nearest to n/d,
    ties going toward +infinity, i.e. the r with r - 1/2 <= n/d < r + 1/2.
   */
  function RoundDiv(n: int, d: int): (r: int)
    requires d > 0
    ensures 2 * d * r - d <= 2 * n < 2 * d * r + d
  {
    var r := (2 * n + d) / (2 * d);
    assert 2 * d * r <= 2 * n + d < 2 * d * r + 2 * d;
    r
  }

  lemma MulAtLeastOnce(m: int, a: int)
    requires m > 0 && a >= 1
    ensures m * a >= m
  {
    assert m * a == m * (a - 1) + m;
  }

  /** Only one integer lies within half a unit (below inclusive, above exclusive) of n/d. */
  lemma RoundDivUnique(n: int, d: int, r: int)
    requires d > 0
    requires 2 * d * r - d <= 2 * n < 2 * d * r + d
    ensures r == RoundDiv(n, d)
  {
    var q := RoundDiv(n, d);
    var m := 2 * d;
    if r < q {
      MulAtLeastOnce(m, q - r);
    } else if r > q {
      MulAtLeastOnce(m, r - q);
    }
  }

  /** `halfCents`: half the amount, a half cent rounding up. */
  function HalfCents(cents: int): (h: int)
    ensures 0 <= 2 * h - cents <= 1
  {
    RoundDiv(cents, 2)
  }

  /** The half rounded up is floor((c + 1) / 2), Dafny's `/` with divisor 2. */
  lemma HalfCentsIsFloorOfSuccessorHalf(cents: int)
    ensures HalfCents(cents) == (cents + 1) / 2
  {
    RoundDivUnique(cents, 2, (cents + 1) / 2);
  }

  /** Even amounts halve exactly. */
  lemma HalfCentsEven(cents: int)
    requires cents % 2 == 0
    ensures HalfCents(cents) == cents / 2
  {
  }

  /** A non-negative amount halves to something between zero and itself. */
  lemma HalfCentsBounds(cents: int)
    requires cents >= 0
    ensures 0 <= HalfCents(cents) <= cents
  {
  }

  /** Halving preserves order. */
  lemma HalfCentsMonotone(a: int, b: int)
    requires a <= b
    ensures HalfCents(a) <= HalfCents(b)
  {
  }
}
