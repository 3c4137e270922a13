/**
 Truncation of times to a bucket (stdlib/time.go:159-181), in 64-bit integers: division truncates toward zero,
 results that leave the range wrap around, and the code corrects the quotient of negative times.
 */
module Truncation {
  import opened Wrappers
  import opened Values

  const MS_PER_DAY: Int64 := 86_400_000
  const MIN_INT64 := -TWO_TO_THE_63

  datatype TruncateError = NotPositive | ExceedsDay | DoesNotDivideDay

  /** q is a / b rounded toward negative infinity. */
  predicate IsFloor(q: int, a: int, b: int) {
    if b > 0 then q * b <= a < (q + 1) * b else q * b >= a > (q + 1) * b
  }

  /**
   A quotient as the machine computes it, corrected to the floor: right for every divisor but one pair, whose
   quotient does not fit and wraps around.
   */
  method FloorDiv(a: Int64, b: Int64) returns (q: Int64)
    requires b != 0
    ensures IsFloor(q, a, b) <==> !(a == MIN_INT64 && b == -1)
  {
    hide TruncDiv, TruncMod, Wrap64, IsFloor;
    ghost var quotient, remainder := TruncDiv(a, b), TruncMod(a, b);
    TruncatedQuotient(a, b);
    q := Wrap64(TruncDiv(a, b));
    if a == MIN_INT64 && b == -1 {
      SmallestByMinusOne();
    } else {
      InRange(quotient);
    }
    if TruncMod(a, b) != 0 && (a < 0) != (b < 0) {
      InRange(quotient - 1);
      FloorBelow(a, b, quotient, remainder);
      q := Wrap64(q - 1);
    } else if !(a == MIN_INT64 && b == -1) {
      FloorHere(a, b, quotient, remainder);
    }
  }

  lemma InRange(n: int)
    ensures -TWO_TO_THE_63 <= n < TWO_TO_THE_63 ==> Wrap64(n) == n
  {
  }

  lemma SmallestByMinusOne()
    ensures TruncMod(MIN_INT64, -1) == 0 && Wrap64(TruncDiv(MIN_INT64, -1)) == MIN_INT64
    ensures !IsFloor(MIN_INT64, MIN_INT64, -1)
  {
    assert TWO_TO_THE_63 / -1 == -TWO_TO_THE_63;
  }

  lemma FloorBelow(a: int, b: int, q: int, r: int)
    requires b != 0 && a == q * b + r && if b > 0 then -b < r < 0 else 0 < r < -b
    ensures IsFloor(q - 1, a, b)
  {
    assert (q - 1) * b == q * b - b;
  }

  lemma FloorHere(a: int, b: int, q: int, r: int)
    requires b != 0 && a == q * b + r && if b > 0 then 0 <= r < b else b < r <= 0
    ensures IsFloor(q, a, b)
  {
    assert (q + 1) * b == q * b + b;
  }

  /**
   Division toward zero: the remainder has the sign of a, and the quotient fits in the integer, also after the
   correction, except for the one pair.
   */
  lemma TruncatedQuotient(a: int, b: int)
    requires MIN_INT64 <= a < TWO_TO_THE_63 && b != 0
    ensures var q, r := TruncDiv(a, b), TruncMod(a, b);
      && a == q * b + r && (if b > 0 then -b < r < b else b < r < -b) && (a >= 0 ==> r >= 0) && (a <= 0 ==> r <= 0)
      && (!(a == MIN_INT64 && b == -1) ==> MIN_INT64 <= q < TWO_TO_THE_63)
      && (r != 0 && (a < 0) != (b < 0) ==> MIN_INT64 < q)
  {
    var m, d := Magnitude(a), Magnitude(b);
    Quotient(m, d);
    Signed(m, d);
    if d > 1 {
      QuotientIsHalf(m, d);
    }
  }

  function Magnitude(n: int): nat {
    if n >= 0 then n else -n
  }

  /** Division of m by -d, in terms of division by d. */
  lemma Signed(m: int, d: int)
    requires m >= 0 && d > 0
    ensures m / -d == -(m / d)
    ensures (-(m / d)) * d == -((m / d) * d) == (m / d) * -d && (-(m / d)) * -d == (m / d) * d
  {
  }

  lemma Quotient(m: int, b: int)
    requires m >= 0 && b > 0
    ensures m == (m / b) * b + m % b && 0 <= m % b < b
    ensures 0 <= m / b <= m && (m % b != 0 ==> m / b < m)
  {
    assert m == (m / b) * b + m % b;
    QuotientIsSmall(m, b, m / b, m % b);
  }

  lemma QuotientIsSmall(m: int, b: int, q: int, r: int)
    requires m >= 0 && b > 0 && m == q * b + r && 0 <= r < b
    ensures 0 <= q <= m && (r != 0 ==> q < m)
  {
    if q < 0 {
      assert (q + 1) * b == q * b + b;
      NotPositiveTimes(q + 1, b);
    } else {
      AtLeast(q, b);
    }
  }

  lemma QuotientIsHalf(m: int, b: int)
    requires m >= 0 && b > 1
    ensures m > 0 ==> m / b < m
  {
    var q := m / b;
    Quotient(m, b);
    assert q * b == q * (b - 1) + q;
    AtLeast(q, b - 1);
  }

  lemma AtLeast(q: int, b: int)
    requires q >= 0 && b > 0
    ensures q * b >= q
  {
    assert q * b - q == q * (b - 1);
    assert q * (b - 1) >= 0;
  }

  lemma Negated(q: int, b: int)
    ensures (-q) * b == -(q * b)
  {
  }

  predicate ValidBucket(b: Int64) {
    0 < b <= MS_PER_DAY && MS_PER_DAY % b == 0
  }

  /** m is a boundary of the buckets of length b. */
  predicate Boundary(m: int, b: int)
    requires b > 0
  {
    m % b == 0
  }

  /** m is the start of the bucket that t is in. */
  predicate StartsBucketOf(m: int, t: int, b: int)
    requires b > 0
  {
    Boundary(m, b) && m <= t < m + b
  }

  /** The floor of t to the buckets of length b. */
  function BucketStart(t: int, b: int): (m: int)
    requires b > 0
    ensures StartsBucketOf(m, t, b)
  {
    MultipleIsBoundary(t / b, b);
    (t / b) * b
  }

  lemma MultipleIsBoundary(q: int, b: int)
    requires b > 0
    ensures Boundary(q * b, b)
  {
    var m := q * b;
    assert m == (m / b) * b + m % b;
    assert (q - m / b) * b == m % b;
    if m % b != 0 {
      if q - m / b <= 0 {
        NotPositiveTimes(q - m / b, b);
      } else {
        AtLeast(b, q - m / b);
      }
      assert false;
    }
  }

  lemma NotPositiveTimes(x: int, b: int)
    requires x <= 0 && b > 0
    ensures x * b <= 0
  {
  }

  /** A time has one bucket. */
  lemma OneBucket(m: int, n: int, t: int, b: int)
    requires b > 0 && StartsBucketOf(m, t, b) && StartsBucketOf(n, t, b)
    ensures m == n
  {
    assert m == (m / b) * b && n == (n / b) * b;
    var d := m / b - n / b;
    assert m - n == d * b;
    if d >= 1 {
      AtLeast(b, d);
    } else if d <= -1 {
      AtLeast(b, -d);
      Negated(d, b);
    }
  }

  /**
   Truncation: an error for a bucket that does not divide a day, otherwise the start of t's bucket, wrapped around.
   The wrapping shows exactly for the times before the first boundary that is an integer of the machine.
   */
  method EvalTruncate(t: Int64, bucket: Int64) returns (r: Result<Int64, TruncateError>)
    ensures bucket <= 0 ==> r == Failure(NotPositive)
    ensures bucket > MS_PER_DAY ==> r == Failure(ExceedsDay)
    ensures 0 < bucket <= MS_PER_DAY && MS_PER_DAY % bucket != 0 ==> r == Failure(DoesNotDivideDay)
    ensures ValidBucket(bucket) ==> r == Success(Wrap64(BucketStart(t, bucket)))
    ensures ValidBucket(bucket) ==> (r == Success(BucketStart(t, bucket)) <==> t >= FirstBoundary(bucket))
  {
    if bucket <= 0 {
      return Failure(NotPositive);
    }
    if bucket > MS_PER_DAY {
      return Failure(ExceedsDay);
    }
    if TruncMod(MS_PER_DAY, bucket) != 0 {
      return Failure(DoesNotDivideDay);
    }
    var q := FloorDiv(t, bucket);
    FitsFrom(t, bucket);
    MultipleIsBoundary(q, bucket);
    OneBucket(q * bucket, BucketStart(t, bucket), t, bucket);
    r := Success(Wrap64(q * bucket));
  }

  /** The smallest boundary the machine can represent. */
  function FirstBoundary(b: int): int
    requires b > 0
  {
    MIN_INT64 + TWO_TO_THE_63 % b
  }

  /** The bucket of t starts in range exactly from the first boundary on. */
  lemma FitsFrom(t: int, b: int)
    requires b > 0
    ensures Boundary(FirstBoundary(b), b)
    ensures BucketStart(t, b) >= MIN_INT64 <==> t >= FirstBoundary(b)
  {
    var q := TWO_TO_THE_63 / b;
    var first := FirstBoundary(b);
    Quotient(TWO_TO_THE_63, b);
    assert first == -(q * b) == (-q) * b by { Negated(q, b); }
    MultipleIsBoundary(-q, b);
    var m := BucketStart(t, b);
    if t >= first {
      OneBucket(BucketStart(first, b), first, first, b);
      Monotone(first, t, b);
    } else if m >= MIN_INT64 {
      assert m == (m / b) * b;
      NextMultiple(m / b, -q, b);
      assert false;
    }
  }

  /** No multiple lies strictly between two neighbouring ones. */
  lemma NextMultiple(k: int, n: int, b: int)
    requires b > 0 && k * b < n * b
    ensures k * b <= n * b - b
  {
    assert (n - k) * b == n * b - k * b;
    if k >= n {
      NotPositiveTimes(n - k, b);
      assert false;
    } else {
      AtLeast(b, n - k);
    }
  }

  /** From one day above the smallest integer on, no bucket can start below it. */
  lemma NoOverflow(t: Int64, b: Int64)
    requires ValidBucket(b) && t >= MIN_INT64 + MS_PER_DAY
    ensures MIN_INT64 <= BucketStart(t, b) < TWO_TO_THE_63
  {
  }

  /** A bound is needed: with buckets of a day the smallest integer overflows, and the result is after the time. */
  lemma SmallestOverflows()
    ensures ValidBucket(MS_PER_DAY) && Wrap64(BucketStart(MIN_INT64, MS_PER_DAY)) > MIN_INT64
    ensures BucketStart(MIN_INT64, MS_PER_DAY) < MIN_INT64
  {
  }

  /** Truncating twice changes nothing: boundaries are kept. */
  lemma Idempotent(t: int, b: int)
    requires b > 0
    ensures BucketStart(BucketStart(t, b), b) == BucketStart(t, b)
  {
    var m := BucketStart(t, b);
    OneBucket(BucketStart(m, b), m, m, b);
  }

  lemma Monotone(t: int, u: int, b: int)
    requires b > 0 && t <= u
    ensures BucketStart(t, b) <= BucketStart(u, b)
  {
    var m, n := BucketStart(t, b), BucketStart(u, b);
    if n < m {
      OneBucket(m, n, t, b);
    }
  }

  /** Truncating to a bucket and then to a multiple of it is truncating to the multiple. */
  lemma Coarsens(t: int, b: int, k: int)
    requires b > 0 && k > 0
    ensures k * b > 0 && BucketStart(BucketStart(t, b), k * b) == BucketStart(t, k * b)
  {
    AtLeast(b, k);
    var m, n := BucketStart(t, b), BucketStart(t, k * b);
    var q := n / (k * b);
    assert n == q * (k * b) == (q * k) * b;
    MultipleIsBoundary(q * k, b);
    assert BucketStart(n, b) == n by { OneBucket(BucketStart(n, b), n, n, b); }
    Monotone(n, t, b);
    OneBucket(BucketStart(m, k * b), n, m, k * b);
  }
}
