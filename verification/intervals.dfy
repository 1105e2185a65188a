// Whole multiples: the remainder test of the calendar and of recurrence rules, counted step by step so
// that it can be shifted and compared, and its agreement with `%`.
module Intervals {
  /** `distance` is a whole number of intervals. */
  predicate Due(distance: int, interval: int)
    requires interval >= 1
    decreases if distance < 0 then interval - distance else distance
  {
    if distance < 0 then Due(distance + interval, interval)
    else if distance < interval then distance == 0
    else Due(distance - interval, interval)
  }

  // ------------------------------------------------------------------ whole intervals

  lemma {:induction false} MulAtLeast(n: int, d: int)
    requires n >= 1 && d >= 0
    ensures n * d >= 0
    ensures d >= 1 ==> n * d >= n
  {
    if d > 0 {
      MulAtLeast(n, d - 1);
      assert n * d == n * (d - 1) + n;
    }
  }

  lemma MulMonotone(n: int, x: int, y: int)
    requires n >= 1 && x <= y
    ensures n * x <= n * y
    ensures x < y ==> n * x + n <= n * y
  {
    MulAtLeast(n, y - x);
    assert n * y == n * x + n * (y - x);
  }

  lemma DivUnique(a: int, n: int, q: int, r: int)
    requires n >= 1 && a == n * q + r && 0 <= r < n
    ensures a / n == q && a % n == r
  {
    var q' := a / n;
    assert a == n * q' + a % n;
    if q' <= q { MulMonotone(n, q', q); }
    if q <= q' { MulMonotone(n, q, q'); }
  }

  lemma {:induction false} DueIsRemainder(distance: int, interval: int)
    requires interval >= 1
    ensures Due(distance, interval) <==> distance % interval == 0
    decreases if distance < 0 then interval - distance else distance
  {
    if distance < 0 {
      DueIsRemainder(distance + interval, interval);
      DivUnique(distance + interval, interval, distance / interval + 1, distance % interval);
    } else if distance < interval {
      DivUnique(distance, interval, 0, distance);
    } else {
      DueIsRemainder(distance - interval, interval);
      DivUnique(distance - interval, interval, distance / interval - 1, distance % interval);
    }
  }

  lemma {:induction false} DueApart(a: int, b: int, n: int)
    requires n >= 1 && Due(a, n) && Due(b, n) && a < b
    ensures a + n <= b
    decreases if b < 0 then n - b else b
  {
    if b < 0 {
      DueShift(a, a + n, n);
      DueApart(a + n, b + n, n);
    } else if b >= n {
      DueShift(a - n, a, n);
      DueApart(a - n, b - n, n);
    }
  }

  lemma DueShift(a: int, later: int, n: int)
    requires n >= 1 && later == a + n
    ensures Due(later, n) == Due(a, n)
  {
  }

  /** Whole years in the same month, counted in months. */
  lemma {:induction false} MonthsOfYears(years: int, m: int, start: int, n: int)
    requires n >= 1 && 0 <= m < 12 && 0 <= start < 12
    ensures Due(12 * years + m - start, 12 * n) <==> Due(years, n) && m == start
    decreases if years < 0 then n - years else years
  {
    if years < 0 {
      MonthsOfYears(years + n, m, start, n);
      DueShift(12 * years + m - start, 12 * (years + n) + m - start, 12 * n);
    } else if years >= n {
      MonthsOfYears(years - n, m, start, n);
      DueShift(12 * (years - n) + m - start, 12 * years + m - start, 12 * n);
    }
  }
}
