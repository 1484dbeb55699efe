/** What the host is told about the fee of a swap. */
module Fees {
  import opened Types
  import opened Amounts

  const NO_ADDRESS: Address := 0

  datatype FeeConfig = FeeConfig(feeBps: uint16, referrerShare: uint16, referrer: Address)

  datatype FeeResult = FeeResult(totalFee: int, platformShare: int, referralShare: int, referrer: Address, feeBps: uint16)

  function ComputeFeeResult(amountIn: int, cfg: Option<FeeConfig>): FeeResult {
    if cfg.None? || cfg.value.feeBps == 0 then FeeResult(0, 0, 0, NO_ADDRESS, 0)
    else
      var totalFee := MulBps(amountIn, cfg.value.feeBps);
      var referralShare :=
        if cfg.value.referrerShare > 0 && cfg.value.referrer != NO_ADDRESS then MulBps(totalFee, cfg.value.referrerShare) else 0;
      FeeResult(totalFee, totalFee - referralShare, referralShare, cfg.value.referrer, cfg.value.feeBps)
  }

  /**
   The fee is the floor of its part of the amount, and the shares add up to it exactly; the referrer's is the
   floor of its part of the fee. Neither is negative unless a referrer's share above 10000, which nothing rules
   out, exceeds the fee by a whole unit. Without a fee nobody is told of a referrer.
   */
  lemma FeeSplitsExactly(amountIn: nat, cfg: Option<FeeConfig>)
    ensures var r := ComputeFeeResult(amountIn, cfg);
      var feeBps := if cfg.Some? then cfg.value.feeBps else 0;
      10000 * r.totalFee <= amountIn * feeBps < 10000 * (r.totalFee + 1) &&
      r.platformShare + r.referralShare == r.totalFee && 0 <= r.totalFee && 0 <= r.referralShare &&
      r.feeBps == feeBps && r.referrer == (if feeBps > 0 then cfg.value.referrer else NO_ADDRESS) &&
      (if feeBps > 0 && cfg.value.referrer != NO_ADDRESS
       then 10000 * r.referralShare <= r.totalFee * cfg.value.referrerShare < 10000 * (r.referralShare + 1)
       else r.referralShare == 0) &&
      (r.platformShare >= 0 <==>
        cfg.None? || cfg.value.referrer == NO_ADDRESS || r.totalFee * (cfg.value.referrerShare - 10000) < 10000)
  {
    if cfg.Some? && cfg.value.feeBps > 0 {
      MulBpsFloor(amountIn, cfg.value.feeBps);
      var total, share := MulBps(amountIn, cfg.value.feeBps), cfg.value.referrerShare;
      MulBpsFloor(total, share);
      ClampDiscardsExactlyWhen(total, share);
    }
  }
}
