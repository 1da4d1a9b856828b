/** The fee split between worker and platform, on exact reals, shared by the settlement
    service and the web front end. */
module Fees {

  /** `Math.round`: the nearest integer, halves rounded up. */
  function Round(x: real): (r: int)
    ensures r as real <= x + 0.5 < r as real + 1.0
  {
    (x + 0.5).Floor
  }

  /** A whole number of cents in dollars. */
  function Dollars(cents: int): real {
    cents as real / 100.0
  }

  /** Rounding a whole number of cents expressed in dollars, times 100, gives the cents back. */
  lemma RoundCents(cents: int)
    ensures Round(Dollars(cents) * 100.0) == cents
  {
  }

  /** `amount * (1 - p / 100)`: what the worker receives. */
  function WorkerShare(amount: real, percent: real): real {
    amount * (1.0 - percent / 100.0)
  }

  /** `amount * (p / 100)`: what the platform keeps. */
  function PlatformShare(amount: real, percent: real): real {
    amount * (percent / 100.0)
  }

  /** The two shares always add up to the amount. */
  lemma SharesSum(amount: real, percent: real)
    ensures WorkerShare(amount, percent) + PlatformShare(amount, percent) == amount
  {
    calc {
      WorkerShare(amount, percent) + PlatformShare(amount, percent);
      amount * (1.0 - percent / 100.0) + amount * (percent / 100.0);
      amount * (1.0 - percent / 100.0 + percent / 100.0);
    }
  }

  /** For a non-negative amount and a percentage between 0 and 100 neither share is negative,
      and neither exceeds the amount. */
  lemma SharesBounded(amount: real, percent: real)
    requires amount >= 0.0 && 0.0 <= percent <= 100.0
    ensures 0.0 <= WorkerShare(amount, percent) <= amount
    ensures 0.0 <= PlatformShare(amount, percent) <= amount
  {
    SharesSum(amount, percent);
    assert 0.0 <= 1.0 - percent / 100.0;
    assert 0.0 <= percent / 100.0;
  }
}
