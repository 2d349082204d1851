/** The reconnect delay (app/lib/core/realtime/convoy_socket_client.dart, `_scheduleReconnect`). */
module Backoff {
  import opened Wire
  import opened Rounding
  import opened ConvoySocketClient

  const BACKOFF_EXPONENT_CAP: nat := 5

  function Pow2(n: nat): nat {
    if n == 0 then 1 else 2 * Pow2(n - 1)
  }

  function Exponent(retryAttempt: nat): nat
    requires retryAttempt > 0
  {
    if retryAttempt - 1 <= BACKOFF_EXPONENT_CAP then retryAttempt - 1 else BACKOFF_EXPONENT_CAP
  }

  /** The delay before jitter. */
  function Capped(base: nat, cap: nat, retryAttempt: nat): nat
    requires retryAttempt > 0
  {
    var grown := base * Pow2(Exponent(retryAttempt));
    if grown > cap then cap else grown
  }

  /** A draw of `nextDouble`. */
  predicate IsDraw(r: real) { 0.0 <= r < 1.0 }

  function JitterMs(capped: nat, r: real): int {
    Round(Scale(capped as real * 0.25, r * 2.0 - 1.0))
  }

  function Scale(amount: real, factor: real): real { amount * factor }

  function Delay(base: nat, cap: nat, retryAttempt: nat, r: real): int
    requires retryAttempt > 0
  {
    Capped(base, cap, retryAttempt) + JitterMs(Capped(base, cap, retryAttempt), r)
  }

  /** The ladder, rung by rung: doubling five times, then staying, and never above the cap. */
  lemma LadderIsPlain(base: nat, cap: nat, n: nat)
    requires n > 0
    ensures var factor := if n == 1 then 1 else if n == 2 then 2 else if n == 3 then 4 else if n == 4 then 8
                          else if n == 5 then 16 else 32;
            Capped(base, cap, n) == if base * factor > cap then cap else base * factor
  {
    assert Pow2(1) == 2 && Pow2(2) == 4 && Pow2(3) == 8 && Pow2(4) == 16 && Pow2(5) == 32;
  }

  /** The n-th consecutive failure waits within a quarter, rounded, of the capped doubling. */
  lemma DelayWithinQuarter(base: nat, cap: nat, n: nat, r: real)
    requires n > 0 && IsDraw(r)
    ensures var c := Capped(base, cap, n);
            c - Round(c as real * 0.25) <= Delay(base, cap, n, r) <= c + Round(c as real * 0.25)
    ensures 0 <= Delay(base, cap, n, r)
  {
    var c := Capped(base, cap, n);
    QuarterBounds(c, r);
    RoundMonotone(c as real * 0.25, c as real);
    RoundWhole(c);
  }

  lemma QuarterBounds(c: nat, r: real)
    requires IsDraw(r)
    ensures -Round(c as real * 0.25) <= JitterMs(c, r) <= Round(c as real * 0.25)
  {
    var q := c as real * 0.25;
    var j := Scale(q, r * 2.0 - 1.0);
    Scaled(q, r * 2.0 - 1.0);
    RoundMonotone(-q, j);
    RoundMonotone(j, q);
    RoundNearest(q);
  }

  /** A draw stays strictly below 1, so the largest upward jitter stays strictly below a quarter. */
  lemma JitterBelowQuarter(c: nat, r: real)
    requires IsDraw(r)
    ensures 4 * JitterMs(c, r) <= c + 2
    ensures c > 0 ==> 4 * JitterMs(c, r) < c + 2
    ensures 0 <= 4 * JitterMs(c, r) + c + 2
  {
    var q := c as real * 0.25;
    var t := r * 2.0 - 1.0;
    Scaled(q, t);
    NearQuarter(c, Scale(q, t));
  }

  lemma Scaled(q: real, t: real)
    requires 0.0 <= q && -1.0 <= t < 1.0
    ensures -q <= Scale(q, t) <= q
    ensures 0.0 < q ==> Scale(q, t) < q
  {
    assert q * (1.0 - t) >= 0.0 && (0.0 < q ==> q * (1.0 - t) > 0.0);
    assert q * (t + 1.0) >= 0.0;
  }

  lemma NearQuarter(c: nat, j: real)
    requires -(c as real) <= 4.0 * j <= c as real && (c > 0 ==> 4.0 * j < c as real)
    ensures 0 <= 4 * Round(j) + c + 2
    ensures 4 * Round(j) <= c + 2 && (c > 0 ==> 4 * Round(j) < c + 2)
  {
    RoundNearest(j);
    var k := Round(j);
    assert 4.0 * (k as real) <= 4.0 * j + 2.0;
    assert 4.0 * (k as real) >= 4.0 * j - 2.0;
    assert (4 * k) as real == 4.0 * (k as real);
    assert (c + 2) as real == c as real + 2.0;
  }

  /**
   Doubling beats jitter: with delay b before and 2b after, every draw waits strictly longer the second
   time, unless b is 0, 1 or 3 milliseconds, where some draws do not.
   */
  lemma DoublingBeatsJitter(base: nat, cap: nat, n: nat)
    requires 0 < n <= BACKOFF_EXPONENT_CAP && base * Pow2(n) <= cap
    ensures (forall r1: real, r2: real | IsDraw(r1) && IsDraw(r2) :: Delay(base, cap, n, r1) < Delay(base, cap, n + 1, r2))
            <==> base * Pow2(n - 1) !in {0, 1, 3}
  {
    var b := base * Pow2(n - 1);
    DoubleStep(base, n);
    assert Capped(base, cap, n) == b && Capped(base, cap, n + 1) == 2 * b;
    if b !in {0, 1, 3} {
      forall r1: real, r2: real | IsDraw(r1) && IsDraw(r2) ensures Delay(base, cap, n, r1) < Delay(base, cap, n + 1, r2) {
        JitterBelowQuarter(b, r1);
        JitterBelowQuarter(2 * b, r2);
      }
    } else {
      TinyDelaysCollide(b);
      assert IsDraw(0.9) && IsDraw(0.0);
      assert !(Delay(base, cap, n, 0.9) < Delay(base, cap, n + 1, 0.0));
    }
  }

  lemma DoubleStep(base: nat, n: nat)
    requires n > 0
    ensures base * Pow2(n) == 2 * (base * Pow2(n - 1))
  {
    assert Pow2(n) == 2 * Pow2(n - 1);
  }

  lemma TinyDelaysCollide(b: nat)
    requires b in {0, 1, 3}
    ensures b + JitterMs(b, 0.9) >= 2 * b + JitterMs(2 * b, 0.0)
  {
    assert Scale(3.0 * 0.25, 0.9 * 2.0 - 1.0) == 0.6;
    assert Scale(6.0 * 0.25, 0.0 * 2.0 - 1.0) == -1.5;
    assert Scale(1.0 * 0.25, 0.9 * 2.0 - 1.0) == 0.2;
    assert Scale(2.0 * 0.25, 0.0 * 2.0 - 1.0) == -0.5;
  }

  /** How often the reconnect timer has been armed since the channel was last opened. */
  function Failures(r: Trace, n: nat): nat
    requires n <= |r.events| < |r.states|
  {
    if n == 0 || Reopens(r, n) then 0
    else Failures(r, n - 1) + if !r.states[n - 1].reconnectTimer && r.states[n].reconnectTimer then 1 else 0
  }

  /** The counter behind the exponent counts consecutive failures, and a success resets it. */
  lemma {:induction false} RetryAttemptCountsFailures(r: Trace, n: nat)
    requires IsRun(r) && n <= |r.events|
    ensures r.states[n].retryAttempt == Failures(r, n)
    ensures r.states[n].reconnectTimer ==> r.states[n].retryAttempt > 0
  {
    if n > 0 {
      RetryAttemptCountsFailures(r, n - 1);
      RetryAt(r, n);
    }
  }

  /** What one step of a run does to the counter. */
  lemma RetryAt(r: Trace, n: nat)
    requires IsRun(r) && 0 < n <= |r.events|
    ensures var c, c' := r.states[n - 1], r.states[n];
            && c'.retryAttempt == (if Reopens(r, n) then 0
                                   else c.retryAttempt + if !c.reconnectTimer && c'.reconnectTimer then 1 else 0)
            && (Reopens(r, n) ==> !c'.reconnectTimer)
  {
    RunStaysSound(r, n - 1);
    assert Follows(r, n - 1);
    RetryStep(r.states[n - 1], r.events[n - 1], r.maxLength);
  }

  lemma RetryStep(c: Client, e: Event, maxLength: nat)
    requires Sound(c) && Enabled(c, e)
    ensures var c' := Next(c, e, maxLength);
            && c'.retryAttempt == (if c.channel.None? && c'.channel.Some? then 0
                                   else c.retryAttempt + if !c.reconnectTimer && c'.reconnectTimer then 1 else 0)
            && (c.channel.None? && c'.channel.Some? ==> !c'.reconnectTimer)
  {
  }
}
