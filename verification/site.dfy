/** The web front end's fee helpers: the platform's percentage as configured for the site, and
    the payout and fee shown for a budget in dollars. */
module Site {
  import opened Decimal
  import Fees
  import Store

  /** The site's copy of the platform fee, which is meant to match the API's. */
  const PlatformFeePercent: nat := 1

  /** `getPlatformFeeDisplay`: the percentage followed by a percent sign. */
  function FeeDisplay(): (r: string)
    ensures |r| >= 2 && r[|r| - 1] == '%' && AllDigits(r[..|r| - 1])
    ensures DigitsValue(r[..|r| - 1]) == PlatformFeePercent
  {
    var digits := NatToDecimal(PlatformFeePercent);
    DigitsValueOfDecimal(PlatformFeePercent);
    assert (digits + "%")[..|digits|] == digits;
    digits + "%"
  }

  /** The display reads "1%". */
  lemma FeeDisplayText()
    ensures FeeDisplay() == "1%"
  {
    assert NatToDecimal(1) == "1";
  }

  /** `getWorkerPayout`: the budget less the platform's percentage. */
  function WorkerPayout(budget: real): (r: real)
    ensures r == Fees.WorkerShare(budget, PlatformFeePercent as real)
    ensures budget >= 0.0 ==> 0.0 <= r <= budget
  {
    Fees.SharesBounded(if budget >= 0.0 then budget else 0.0, PlatformFeePercent as real);
    budget * (1.0 - PlatformFeePercent as real / 100.0)
  }

  /** `getPlatformFeeAmount`: the platform's percentage of the budget. */
  function PlatformFeeAmount(budget: real): (r: real)
    ensures r == Fees.PlatformShare(budget, PlatformFeePercent as real)
    ensures budget >= 0.0 ==> 0.0 <= r <= budget
  {
    Fees.SharesBounded(if budget >= 0.0 then budget else 0.0, PlatformFeePercent as real);
    budget * (PlatformFeePercent as real / 100.0)
  }

  /** Payout and fee always add up to the budget. */
  lemma PayoutPlusFee(budget: real)
    ensures WorkerPayout(budget) + PlatformFeeAmount(budget) == budget
  {
    Fees.SharesSum(budget, PlatformFeePercent as real);
  }

  /** The site's percentage agrees with the API's default, so the amounts it shows are the ones
      the settlement computes when the deployment leaves the fee unset. */
  lemma SiteMatchesApiDefault()
    ensures PlatformFeePercent == Store.DefaultFeePercent
    ensures forall b :: WorkerPayout(b) == Fees.WorkerShare(b, Store.DefaultFeePercent as real)
  {
  }
}
