/** How long the retry policy makes an execution wait. */
module Backoff {
  import opened Tables
  import opened Retry

  /** The shape of every policy of the default matrix. */
  ghost predicate IsDoubling(p: PhasePolicy) {
    p.multiplier == 2.0 && p.jitter == 0.1 && p.baseDelay > 0.0 && p.maxDelay > 0.0
  }

  lemma DefaultsAreDoubling(phase: RunnerPhase)
    ensures IsDoubling(GetPolicy(DEFAULT_MATRIX, phase))
  {
  }

  ghost predicate IsDraw(x: real) {
    0.0 <= x < 1.0
  }

  lemma {:induction false} PowerOfTwoGrows(n: nat)
    ensures Power(2.0, n) >= 1.0 && Power(2.0, 0) == 1.0
    ensures Power(2.0, n + 1) == 2.0 * Power(2.0, n)
  {
    if n > 0 { PowerOfTwoGrows(n - 1); }
  }

  lemma NominalIsPositive(p: PhasePolicy, attempt: nat)
    requires IsDoubling(p) && attempt >= 1
    ensures Nominal(p, attempt) > 0.0
  {
    PowerOfTwoGrows(attempt - 1);
    Scale(p.baseDelay, 1.0, Power(2.0, attempt - 1));
  }

  lemma Scale(x: real, a: real, b: real)
    requires x > 0.0
    ensures a <= b ==> x * a <= x * b
    ensures a < b ==> x * a < x * b
  {
  }

  /** Jitter moves the delay by at most a tenth either way; the floor at zero never acts. */
  lemma DelayWithinTenth(p: PhasePolicy, attempt: nat, draw: real)
    requires IsDoubling(p) && attempt >= 1 && IsDraw(draw)
    ensures 0.9 * Nominal(p, attempt) <= Delay(p, attempt, draw) < 1.1 * Nominal(p, attempt)
  {
    var d := Nominal(p, attempt);
    NominalIsPositive(p, attempt);
    Scale(d * 0.1, -1.0, 2.0 * draw - 1.0);
    Scale(d * 0.1, 2.0 * draw - 1.0, 1.0);
  }

  lemma Doubles(x: real, y: real)
    ensures x * (2.0 * y) == 2.0 * (x * y)
  {
  }

  /** The sum of the waits before attempts 2, 3, .., n + 1. */
  function TotalWait(p: PhasePolicy, draws: seq<real>): real {
    if draws == [] then 0.0 else
      TotalWait(p, draws[..|draws| - 1]) + Delay(p, |draws|, draws[|draws| - 1])
  }

  lemma Distribute(x: real, y: real)
    ensures x * (2.0 * y - 1.0) == x * (y - 1.0) + x * y
  {
  }

  lemma {:induction false} WaitsBelowGeometric(p: PhasePolicy, draws: seq<real>)
    requires IsDoubling(p) && forall i :: 0 <= i < |draws| ==> IsDraw(draws[i])
    ensures TotalWait(p, draws) <= 1.1 * (p.baseDelay * (Power(2.0, |draws|) - 1.0))
  {
    var n := |draws|;
    if n > 0 {
      WaitsBelowGeometric(p, draws[..n - 1]);
      DelayWithinTenth(p, n, draws[n - 1]);
      PowerOfTwoGrows(n - 1);
      Distribute(p.baseDelay, Power(2.0, n - 1));
    }
  }

  lemma {:induction false} WaitsBelowCap(p: PhasePolicy, draws: seq<real>)
    requires IsDoubling(p) && forall i :: 0 <= i < |draws| ==> IsDraw(draws[i])
    ensures TotalWait(p, draws) <= 1.1 * (|draws| as real * p.maxDelay)
  {
    var n := |draws|;
    if n > 0 {
      WaitsBelowCap(p, draws[..n - 1]);
      DelayWithinTenth(p, n, draws[n - 1]);
      OneMore(n, p.maxDelay);
    }
  }

  lemma OneMore(n: nat, x: real)
    requires n >= 1
    ensures n as real * x == (n - 1) as real * x + x
  {
  }

  /** n retries from the first attempt wait at most 1.1 * min(base * (2^n - 1), n * cap). */
  lemma TotalWaitIsBounded(p: PhasePolicy, draws: seq<real>)
    requires IsDoubling(p) && forall i :: 0 <= i < |draws| ==> IsDraw(draws[i])
    ensures TotalWait(p, draws) <= 1.1 * (p.baseDelay * (Power(2.0, |draws|) - 1.0))
    ensures TotalWait(p, draws) <= 1.1 * (|draws| as real * p.maxDelay)
  {
    WaitsBelowGeometric(p, draws);
    WaitsBelowCap(p, draws);
  }

  /** What the delay before jitter is, in terms of x = base * 2^(attempt - 1). */
  lemma NominalOf(p: PhasePolicy, attempt: nat, x: real)
    requires IsDoubling(p) && attempt >= 1 && x == p.baseDelay * Power(2.0, attempt - 1)
    ensures x > 0.0
    ensures Nominal(p, attempt) == Min(x, p.maxDelay) && Nominal(p, attempt + 1) == Min(2.0 * x, p.maxDelay)
  {
    PowerOfTwoGrows(attempt - 1);
    Doubles(p.baseDelay, Power(2.0, attempt - 1));
    Scale(p.baseDelay, 1.0, Power(2.0, attempt - 1));
  }

  ghost predicate NextIsLonger(p: PhasePolicy, attempt: nat, draw: real, next: real)
    requires attempt >= 1
  {
    Delay(p, attempt, draw) < Delay(p, attempt + 1, next)
  }

  lemma JitteredDelay(p: PhasePolicy, attempt: nat, draw: real)
    requires IsDoubling(p) && attempt >= 1 && IsDraw(draw)
    ensures Delay(p, attempt, draw) == Nominal(p, attempt) * (0.9 + 0.2 * draw)
  {
    DelayWithinTenth(p, attempt, draw);
  }

  /** Past the threshold some draw makes the wait at least the shortest next one. */
  lemma SomeDrawIsLong(m: real, cap: real) returns (draw: real)
    requires 0.0 < m <= cap && 11.0 * m > 9.0 * cap
    ensures IsDraw(draw) && m * (0.9 + 0.2 * draw) == 0.9 * cap
  {
    var q := cap / m;
    assert m * q == cap;
    assert q >= 1.0 by { Scale(m, q, 1.0); }
    assert 9.0 * q < 11.0 by { Scale(m, 11.0, 9.0 * q); }
    draw := 4.5 * (q - 1.0);
  }

  /** Each wait exceeds the one before, for every pair of draws, exactly while 11 * base * 2^(attempt - 1) is at most
      9 * cap: some way below the cap already, two draws can turn the order. */
  lemma DelaysIncreaseIff(p: PhasePolicy, attempt: nat)
    requires IsDoubling(p) && attempt >= 1
    ensures (forall draw, next :: IsDraw(draw) && IsDraw(next) ==> NextIsLonger(p, attempt, draw, next))
            <==> 11.0 * (p.baseDelay * Power(2.0, attempt - 1)) <= 9.0 * p.maxDelay
  {
    var x := p.baseDelay * Power(2.0, attempt - 1);
    NominalOf(p, attempt, x);
    if 11.0 * x <= 9.0 * p.maxDelay {
      forall draw, next | IsDraw(draw) && IsDraw(next) ensures NextIsLonger(p, attempt, draw, next) {
        DelayWithinTenth(p, attempt, draw);
        DelayWithinTenth(p, attempt + 1, next);
      }
    } else {
      var draw := SomeDrawIsLong(Min(x, p.maxDelay), p.maxDelay);
      JitteredDelay(p, attempt, draw);
      JitteredDelay(p, attempt + 1, 0.0);
      assert !NextIsLonger(p, attempt, draw, 0.0);
    }
  }

  /** In particular while the cap is not reached. */
  lemma DelaysIncrease(p: PhasePolicy, attempt: nat, draw: real, next: real)
    requires IsDoubling(p) && attempt >= 1 && IsDraw(draw) && IsDraw(next)
    requires 2.0 * (p.baseDelay * Power(2.0, attempt - 1)) <= p.maxDelay
    ensures Delay(p, attempt, draw) < Delay(p, attempt + 1, next)
  {
    var x := p.baseDelay * Power(2.0, attempt - 1);
    NominalOf(p, attempt, x);
    DelaysIncreaseIff(p, attempt);
    assert NextIsLonger(p, attempt, draw, next);
  }
}
