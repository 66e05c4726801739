/** The reconnect loop of the tunnel client (Run in internal/tunnel/client.go). Delays are whole
    nanoseconds, the multiplier is a real number, and the outcomes of the connection attempts and
    the jitter draws are parameters. */
module Backoff {

  /** maxRetries below zero means no limit. */
  datatype Config = Config(base: int, maxDelay: int, multiplier: real, maxRetries: int)

  const SECOND := 1_000_000_000
  const DEFAULT := Config(SECOND, 60 * SECOND, 2.0, -1)

  function Times(a: real, b: real): real { a * b }

  /** Conversion to whole nanoseconds, toward zero. */
  function Truncate(x: real): int {
    if x >= 0.0 then x.Floor else -((-x).Floor)
  }

  /** The next delay: multiplied, clamped and truncated to whole nanoseconds. */
  function Grow(c: Config, delay: int): int {
    var x := Times(delay as real, c.multiplier);
    if c.maxDelay as real <= x then c.maxDelay else Truncate(x)
  }

  /** The next delay is the largest whole number of nanoseconds within the product, or the maximum if
      the product reaches it. */
  lemma GrowExact(c: Config, delay: nat)
    requires c.multiplier >= 0.0
    ensures var x, y := Times(delay as real, c.multiplier), Grow(c, delay);
            if x >= c.maxDelay as real then y == c.maxDelay else y as real <= x < y as real + 1.0
  {
    assert Times(delay as real, c.multiplier) >= 0.0;
  }

  /** The delay after k consecutive failures. */
  function Delay(c: Config, k: nat): int {
    if k == 0 then c.base else Grow(c, Delay(c, k - 1))
  }

  // ----- closed form -----

  function Pow(m: nat, k: nat): nat {
    if k == 0 then 1 else m * Pow(m, k - 1)
  }

  function Min(a: int, b: int): int { if a <= b then a else b }

  lemma {:induction false} TimesWhole(a: int, m: nat)
    ensures Times(a as real, m as real) == (a * m) as real
  {
    if m > 0 {
      TimesWhole(a, m - 1);
      assert Times(a as real, m as real) == Times(a as real, (m - 1) as real) + a as real;
      assert a * m == a * (m - 1) + a;
    }
  }

  lemma GrowWhole(c: Config, delay: int, m: nat)
    requires c.multiplier == m as real
    ensures Grow(c, delay) == Min(c.maxDelay, delay * m)
  {
    TimesWhole(delay, m);
    hide Times;
  }

  lemma MinScaled(top: nat, x: int, m: nat)
    ensures Min(top, Min(top, x) * m) == Min(top, x * m)
  {
    if x > top && m > 0 {
      assert top * m >= top && x * m >= top by { assert top * (m - 1) >= 0 && x * (m - 1) >= 0; }
    }
  }

  lemma Regroup(a: int, p: nat, m: nat)
    ensures a * p * m == a * (m * p)
  {
  }

  /** For a whole multiplier the delays after the first are the geometric sequence clamped at the
      maximum, whatever the base. */
  lemma {:induction false} ClosedForm(c: Config, m: nat, k: nat)
    requires c.multiplier == m as real && c.maxDelay >= 0
    ensures Delay(c, k) == if k == 0 then c.base else Min(c.maxDelay, c.base * Pow(m, k))
  {
    if k > 0 {
      ClosedForm(c, m, k - 1);
      GrowWhole(c, Delay(c, k - 1), m);
      if k > 1 {
        MinScaled(c.maxDelay, c.base * Pow(m, k - 1), m);
      }
      Regroup(c.base, Pow(m, k - 1), m);
      hide Grow, Min;
    }
  }

  /** The documented schedule: 1, 2, 4, 8, ... seconds, up to 60. */
  lemma DefaultSchedule(k: nat)
    ensures Delay(DEFAULT, k) == Min(60 * SECOND, SECOND * Pow(2, k))
  {
    ClosedForm(DEFAULT, 2, k);
  }

  lemma TimesGrows(x: real, m: real)
    requires x >= 0.0 && m >= 1.0
    ensures Times(x, m) >= x
  {
    assert x * (m - 1.0) >= 0.0;
    assert x * m == x + x * (m - 1.0);
  }

  lemma GrowBounds(c: Config, delay: int)
    requires c.multiplier >= 1.0 && c.maxDelay >= 0 && delay >= 0
    ensures 0 <= Grow(c, delay) <= c.maxDelay
    ensures if delay <= c.maxDelay then delay <= Grow(c, delay) else Grow(c, delay) == c.maxDelay
  {
    var x := delay as real;
    TimesGrows(x, c.multiplier);
    hide Times;
  }

  /** For any multiplier of at least one, delays never shrink and never pass the maximum, but for
      the first if it is configured above the maximum. */
  lemma {:induction false} DelaysGrow(c: Config, j: nat, k: nat)
    requires c.multiplier >= 1.0 && c.base >= 0 && c.maxDelay >= 0 && j <= k
    ensures 1 <= j ==> 0 <= Delay(c, j) <= Delay(c, k) <= c.maxDelay
    ensures c.base <= c.maxDelay ==> c.base <= Delay(c, j) <= Delay(c, k) <= c.maxDelay
    ensures c.base > c.maxDelay && k >= 1 ==> Delay(c, k) == c.maxDelay
    decreases k
  {
    if k > 0 {
      DelaysGrow(c, if j < k then j else k - 1, k - 1);
      DelaysGrow(c, k - 1, k - 1);
      GrowBounds(c, Delay(c, k - 1));
      hide Grow;
    }
  }

  // ----- the loop -----

  /** How many failures in a row the attempts end with. */
  function Streak(attempts: seq<bool>): nat {
    if attempts == [] || attempts[|attempts| - 1] then 0 else 1 + Streak(attempts[..|attempts| - 1])
  }

  /** One pause: how many failures in a row preceded the failed attempt, and its length. */
  datatype Pause = Pause(failures: nat, length: int)

  datatype End = Running | GaveUp | Panicked

  /** A pause is its delay plus a jitter below a quarter of it; delays that are not positive get no
      jitter and do not wait. */
  predicate Proper(c: Config, p: Pause) {
    var d := Delay(c, p.failures);
    !(0 < d < 4) && if d <= 0 then p.length == d else d <= p.length < d + d / 4
  }

  /** For each failed attempt, how many failures in a row came right before it. */
  function FailureRanks(attempts: seq<bool>): seq<nat> {
    if attempts == [] then []
    else
      var init := attempts[..|attempts| - 1];
      FailureRanks(init) + (if attempts[|attempts| - 1] then [] else [Streak(init)])
  }

  /** One pause per failed attempt, in order. */
  predicate PausesFollow(pauses: seq<Pause>, ranks: seq<nat>) {
    |pauses| == |ranks| && forall i :: 0 <= i < |ranks| ==> pauses[i].failures == ranks[i]
  }

  predicate WithinRetries(c: Config, failures: nat) {
    c.maxRetries < 0 || failures <= c.maxRetries
  }

  /** The jitter drawn for a delay of d; the draw from an empty range panics. */
  function Jitter(d: int, draw: nat): (j: nat)
    requires d <= 0 || d >= 4
    ensures if d <= 0 then j == 0 else j < d / 4
  {
    if d <= 0 then 0 else draw % (d / 4)
  }

  /** Run on a finite prefix of connection attempts (true = connected). It gives up at the first
      run of maxRetries + 1 failures in a row and not before; each failed attempt but a last one is
      followed by one pause, the delay for the failures so far plus jitter, a success starting the
      count over; and the jitter draw panics exactly when a delay of 1 to 3 ns comes up. */
  method Run(c: Config, attempts: seq<bool>, draw: nat -> nat) returns (end: End, pauses: seq<Pause>, tried: nat)
    ensures tried <= |attempts| && (end.Running? ==> tried == |attempts|)
    ensures end.GaveUp? ==> c.maxRetries >= 0 && Streak(attempts[..tried]) == c.maxRetries + 1
    ensures end.Panicked? ==> Streak(attempts[..tried]) > 0 && 0 < Delay(c, Streak(attempts[..tried]) - 1) < 4
    ensures forall i :: 0 <= i < tried || (i == tried && end.Running?) ==> WithinRetries(c, Streak(attempts[..i]))
    ensures forall i :: 0 <= i < |pauses| ==> Proper(c, pauses[i])
    ensures end.Running? || tried > 0
    ensures PausesFollow(pauses, FailureRanks(attempts[..if end.Running? then tried else tried - 1]))
  {
    var backoff, attempt := c.base, 0;
    pauses, tried := [], 0;
    while tried < |attempts|
      invariant 0 <= tried <= |attempts|
      invariant attempt == Streak(attempts[..tried]) && backoff == Delay(c, attempt)
      invariant forall i :: 0 <= i <= tried ==> WithinRetries(c, Streak(attempts[..i]))
      invariant forall i :: 0 <= i < |pauses| ==> Proper(c, pauses[i])
      invariant PausesFollow(pauses, FailureRanks(attempts[..tried]))
    {
      var connected := attempts[tried];
      assert attempts[..tried + 1][..tried] == attempts[..tried];
      tried := tried + 1;
      if connected {
        backoff, attempt := c.base, 0;
      } else {
        if c.maxRetries >= 0 && attempt >= c.maxRetries {
          return GaveUp, pauses, tried;
        }
        if 0 < backoff < 4 {
          return Panicked, pauses, tried;
        }
        pauses := pauses + [Pause(attempt, backoff + Jitter(backoff, draw(tried)))];
        backoff := Grow(c, backoff);
        attempt := attempt + 1;
      }
    }
    end := Running;
  }
}
