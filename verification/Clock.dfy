/** struct timeval arithmetic and the retransmission schedule. */
module Clock {
  const MICROS := 1_000_000

  datatype Time = Time(sec: nat, usec: nat) {
    ghost predicate Normal() { usec < MICROS }

    ghost function Micros(): nat { sec * MICROS + usec }
  }

  /** ares__timedout: seconds first, then the sub-second parts. */
  function TimedOut(now: Time, check: Time): bool {
    if now.sec > check.sec then true
    else if now.sec < check.sec then false
    else now.usec >= check.usec
  }

  lemma TimedOutIsOrder(now: Time, check: Time)
    requires now.Normal() && check.Normal()
    ensures TimedOut(now, check) <==> now.Micros() >= check.Micros()
  {
  }

  /** ares__timeadd: one carry is enough because both sub-second parts are below a second. */
  function TimeAdd(t: Time, ms: nat): Time {
    var sec, usec := t.sec + ms / 1000, t.usec + ms % 1000 * 1000;
    if usec >= MICROS then Time(sec + 1, usec - MICROS) else Time(sec, usec)
  }

  lemma TimeAddExact(t: Time, ms: nat)
    requires t.Normal()
    ensures TimeAdd(t, ms).Normal() && TimeAdd(t, ms).Micros() == t.Micros() + ms * 1000
  {
    assert ms == ms / 1000 * 1000 + ms % 1000;
  }

  function Pow2(n: nat): (p: nat)
    ensures p >= 1
  {
    if n == 0 then 1 else 2 * Pow2(n - 1)
  }

  /** k sixteenths of the full wait, rounded down. */
  function Sixteenths(full: nat, k: nat): nat { full * k / 16 }

  /** The wait after the transmission of attempt tryCount, in milliseconds. */
  function Wait(timeout: nat, tryCount: nat, nservers: nat, jitter: nat): nat
    requires nservers > 0
  {
    Sixteenths(timeout * Pow2(tryCount / nservers), 9 + jitter % 8)
  }

  /** Every wait is floor(base * k / 16) for some k in 9..16, where the base doubles each round of servers. */
  lemma WaitBounds(timeout: nat, tryCount: nat, nservers: nat, jitter: nat)
    requires nservers > 0
    ensures var full := timeout * Pow2(tryCount / nservers);
      && Wait(timeout, tryCount, nservers, jitter) <= full
      && full * 9 / 16 <= Wait(timeout, tryCount, nservers, jitter)
      && (timeout >= 2 ==> Wait(timeout, tryCount, nservers, jitter) >= 1)
  {
    var p, k := Pow2(tryCount / nservers), 9 + jitter % 8;
    var full := timeout * p;
    assert full * 9 <= full * k <= full * 16 by {
      MulMono(full, 9, k);
      MulMono(full, k, 16);
    }
    if timeout >= 2 { MulMono(timeout, 1, p); }
  }

  lemma MulMono(a: nat, x: nat, y: nat)
    requires x <= y
    ensures a * x <= a * y
  {
  }

  /** Sum of the unjittered waits of attempts 0 .. n-1. */
  ghost function Schedule(timeout: nat, nservers: nat, n: nat): nat
    requires nservers > 0
  {
    if n == 0 then 0 else Schedule(timeout, nservers, n - 1) + timeout * Pow2((n - 1) / nservers)
  }

  lemma {:induction false} ScheduleMono(timeout: nat, nservers: nat, m: nat, n: nat)
    requires nservers > 0 && m <= n
    ensures Schedule(timeout, nservers, m) <= Schedule(timeout, nservers, n)
    decreases n
  {
    if m < n { ScheduleMono(timeout, nservers, m, n - 1); }
  }

  /** All rounds together: a geometric series. */
  lemma {:induction false} ScheduleClosed(timeout: nat, nservers: nat, rounds: nat)
    requires nservers > 0
    ensures Schedule(timeout, nservers, nservers * rounds) == nservers * (timeout * (Pow2(rounds) - 1))
    decreases rounds
  {
    if rounds > 0 {
      var p := Pow2(rounds - 1);
      var base := timeout * p;
      ScheduleClosed(timeout, nservers, rounds - 1);
      ScheduleRound(timeout, nservers, rounds - 1, nservers);
      Distrib(nservers, rounds - 1, 1);
      Distrib(nservers, timeout * (p - 1), base);
      Distrib(timeout, p - 1, p);
      assert Pow2(rounds) - 1 == (p - 1) + p;
    }
  }

  lemma Distrib(n: int, a: int, b: int)
    ensures n * (a + b) == n * a + n * b
  {
  }

  /** Within one round every wait has the same base. */
  lemma {:induction false} ScheduleRound(timeout: nat, nservers: nat, round: nat, k: nat)
    requires nservers > 0 && k <= nservers
    ensures Schedule(timeout, nservers, nservers * round + k)
      == Schedule(timeout, nservers, nservers * round) + k * (timeout * Pow2(round))
    decreases k
  {
    if k > 0 {
      ScheduleRound(timeout, nservers, round, k - 1);
      RoundOf(nservers, round, k - 1);
      var base := timeout * Pow2(round);
      assert (k - 1) * base + base == k * base;
    }
  }

  lemma RoundOf(nservers: nat, round: nat, r: nat)
    requires r < nservers
    ensures (nservers * round + r) / nservers == round
  {
    var x := nservers * round + r;
    var q := x / nservers;
    assert x == nservers * q + x % nservers;
    Distrib(nservers, q, 1);
    Distrib(nservers, round, 1);
    if q < round { MulMono(nservers, q + 1, round); }
    if q > round { MulMono(nservers, round + 1, q); }
  }
}
