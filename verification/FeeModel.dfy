/**
  The pool fee model (accountant/src/config.rs): basis-point fees with integer truncation and
  checked 64-bit arithmetic. The rebate ratios are parameters; the shipped constants are zero.
 */
module FeeModel {
  const I64_MAX := 0x7FFF_FFFF_FFFF_FFFF
  const MAX_TOPLINE_BPS := 1_000
  const BPS := 10_000

  datatype Tier = Standard | Elite

  /** A configuration that `FeeConfig::new` accepts, with rebate ratios of at most 100%. */
  datatype FeeConfig = FeeConfig(toplineBps: nat, standardRebateBps: nat, eliteRebateBps: nat) {
    predicate Valid() {
      toplineBps <= MAX_TOPLINE_BPS && standardRebateBps <= BPS && eliteRebateBps <= BPS
    }

    function RebateBps(tier: Tier): nat {
      match tier
      case Standard => standardRebateBps
      case Elite => eliteRebateBps
    }
  }

  datatype Allocation = Allocation(gross: int, poolFee: int, accrual: int, net: int,
                                   toplineBps: nat, rebateBps: nat, tier: Tier) {
    predicate IsBalanced() {
      gross == poolFee + accrual + net
    }
  }

  datatype Result = Ok(allocation: Allocation) | NegativeGross | Overflow

  /** `a` is `n * bps / 10_000` rounded down. */
  ghost predicate IsShare(a: int, n: int, bps: nat) {
    10_000 * a <= n * bps < 10_000 * a + 10_000
  }

  /**
    One wallet's breakdown. It succeeds exactly when the gross is not negative and the topline
    product fits 64 bits; then the parts are nonnegative, add up to the gross, and the fee and
    the rebate on it are the rounded-down shares, the pool keeping every dropped fraction. The
    ratios applied, by tier, are returned with it.
   */
  function ComputeAllocation(cfg: FeeConfig, gross: int, tier: Tier): (r: Result)
    requires cfg.Valid()
    ensures r.Ok? <==> gross >= 0 && gross * cfg.toplineBps <= 0x7FFF_FFFF_FFFF_FFFF
    ensures r.NegativeGross? <==> gross < 0
    ensures r.Ok? ==> var a := r.allocation;
              && a.gross == gross && a.gross == a.poolFee + a.accrual + a.net
              && a.poolFee >= 0 && a.accrual >= 0 && a.net >= 0
              && IsShare(a.poolFee + a.accrual, gross, cfg.toplineBps)
              && IsShare(a.accrual, a.poolFee + a.accrual,
                         if tier == Elite then cfg.eliteRebateBps else cfg.standardRebateBps)
    ensures r.Ok? ==> var a := r.allocation;
              && a.tier == tier && a.toplineBps == cfg.toplineBps
              && a.rebateBps == if tier == Elite then cfg.eliteRebateBps else cfg.standardRebateBps
  {
    if gross < 0 then NegativeGross
    else
      var topline, rebate := cfg.toplineBps, cfg.RebateBps(tier);
      if gross * topline > I64_MAX then Overflow
      else
        var feeShare := gross * topline / BPS;
        ShareBounds(gross, topline, feeShare);
        ProductFits(gross, topline, feeShare, rebate);
        if feeShare * rebate > I64_MAX then assert false; Overflow
        else
          var accrual := feeShare * rebate / BPS;
          ShareBounds(feeShare, rebate, accrual);
          Ok(Allocation(gross, feeShare - accrual, accrual, gross - feeShare, topline, rebate, tier))
  }

  /** A share of at most 100% is at most the whole. */
  lemma ShareBounds(n: nat, bps: nat, a: int)
    requires bps <= BPS && a == n * bps / BPS
    ensures 0 <= a <= n && IsShare(a, n, bps)
  {
    assert n * bps <= n * BPS;
  }

  /** A share of a share needs no more room than the first one did. */
  lemma ProductFits(n: nat, bps: nat, a: nat, rebate: nat)
    requires IsShare(a, n, bps) && rebate <= BPS
    ensures a * rebate <= n * bps
  {
    assert a * rebate <= a * BPS;
  }
}
