/**
 * The retry policy declared on borrowBook and returnBook: which exceptions
 * are retried, how many attempts are made, how long the pauses between them
 * are, and how the last failure is turned into what callers see.
 */
module RetryPolicy {
  import opened Failures

  /** Attempts made in all, the first included. */
  const MaxAttempts: nat := 3
  /** First back-off interval, in milliseconds. */
  const InitialDelay: nat := 1000
  /** Longest pause, in milliseconds. */
  const MaxDelay: nat := 4000
  /** Growth factor of the interval from one pause to the next. */
  const Multiplier: nat := 2

  /** Number of distinct values of a uniform random float in [0, 1): it is u / DrawRange for a 24-bit u. */
  const DrawRange: nat := 0x100_0000

  /** A random draw of the jitter: the 24-bit numerator of a float in [0, 1). */
  type Draw = u: nat | u < DrawRange

  /** Only lock and data-access failures are retried; a service decision never is. */
  predicate Retryable(e: Exception)
    ensures Retryable(e) ==> !ClientFacing(e)
  {
    e.Storage? && (e.error.PessimisticLockingFailure? || e.error.DataAccessFailure?)
  }

  /**
   * The recovery step run once the retries are over (recoverBorrowOperation and
   * recoverReturnOperation): the service's own exceptions pass through, anything
   * else becomes a conflict asking the caller to try again later.
   */
  function Recover(op: Operation, e: Exception): (r: Exception)
    ensures ClientFacing(r)
    ensures ClientFacing(e) ==> r == e
    ensures !ClientFacing(e) ==> r == Conflict(TryAgainLater(op))
  {
    if e.ResourceNotFound? || e.Conflict? then e else Conflict(TryAgainLater(op))
  }

  function Min(a: nat, b: nat): nat {
    if a <= b then a else b
  }

  /** The back-off interval before jitter for the pause after the (k+1)-th failed attempt. */
  function Interval(k: nat): (r: nat)
    ensures InitialDelay <= r <= MaxDelay
  {
    if k == 0 then InitialDelay else Min(Interval(k - 1) * Multiplier, MaxDelay)
  }

  /** Intervals follow the capped exponential schedule and never decrease. */
  lemma {:induction false} IntervalBounds(k: nat)
    ensures Interval(k) <= Interval(k + 1)
    ensures Interval(k) == Min(InitialDelay * Power(Multiplier, k), MaxDelay)
  {
    if k > 0 {
      IntervalBounds(k - 1);
    }
  }

  function Power(b: nat, n: nat): nat {
    if n == 0 then 1 else b * Power(b, n - 1)
  }

  /**
   * The randomised pause after the (k+1)-th failed attempt: the interval
   * stretched by a random factor in [1, multiplier), truncated to whole
   * milliseconds, then capped.
   */
  function BackoffDelay(k: nat, u: Draw): (d: nat)
    ensures Interval(k) <= d <= MaxDelay
    ensures d < Multiplier * Interval(k)
  {
    JitterBelowInterval(Interval(k), u);
    Min(Interval(k) + Interval(k) * (Multiplier - 1) * u / DrawRange, MaxDelay)
  }

  /** The jitter added to an interval is less than the interval itself. */
  lemma JitterBelowInterval(i: nat, u: Draw)
    requires 0 < i
    ensures i * u / DrawRange < i
  {
    assert i * u < i * DrawRange;
  }

  /**
   * A draw whose jitter on interval i is exactly j milliseconds: the smallest
   * u with i * u >= j * DrawRange.
   */
  function DrawFor(i: nat, j: nat): (u: Draw)
    requires 0 < i <= DrawRange && j < i
    ensures i * u / DrawRange == j
  {
    var n := j * DrawRange + i - 1;
    QuotientBounds(n, i);
    var u := n / i;
    assert j * DrawRange <= i * u < (j + 1) * DrawRange;
    assert n < i * DrawRange by {
      assert j * DrawRange <= (i - 1) * DrawRange;
    }
    ScaleCancels(i, u, DrawRange);
    u
  }

  /** Integer division by a positive divisor rounds down by less than one divisor. */
  lemma QuotientBounds(n: nat, i: nat)
    requires 0 < i
    ensures i * (n / i) <= n < i * (n / i) + i
  {
  }

  /** Scaling by a positive factor keeps strict order. */
  lemma ScaleCancels(i: nat, u: nat, m: nat)
    requires 0 < i && i * u < i * m
    ensures u < m
  {
  }


  /**
   * Every whole number of milliseconds in a pause's window is the pause for
   * some draw; with BackoffDelay's bounds this is the whole set of pauses.
   */
  lemma DelayReachable(k: nat, d: nat)
    requires Interval(k) <= d < Multiplier * Interval(k) && d <= MaxDelay
    ensures exists u: Draw :: BackoffDelay(k, u) == d
  {
    var u := DrawFor(Interval(k), d - Interval(k));
    assert BackoffDelay(k, u) == d;
  }

  /** The jitter drawn for the (k+1)-th pause; draws past the end of the sequence are taken as 0. */
  function DrawAt(draws: seq<Draw>, k: nat): Draw {
    if k < |draws| then draws[k] else 0
  }

  /**
   * With three attempts there are at most two pauses: the first is a whole
   * number of milliseconds in [1000, 2000), the second in [2000, 4000), and
   * every such number is the pause for some draw.
   */
  lemma PauseWindows(u: Draw, v: Draw, d: nat)
    ensures 1000 <= BackoffDelay(0, u) < 2000
    ensures 2000 <= BackoffDelay(1, v) < 4000
    ensures 1000 <= d < 2000 ==> exists w: Draw :: BackoffDelay(0, w) == d
    ensures 2000 <= d < 4000 ==> exists w: Draw :: BackoffDelay(1, w) == d
  {
    assert Interval(0) == 1000 && Interval(1) == 2000;
    if d < 2000 {
      if 1000 <= d { DelayReachable(0, d); }
    } else if d < 4000 {
      DelayReachable(1, d);
    }
  }

}
