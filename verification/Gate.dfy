// The profitability gate: `should_liquidate` as the strategies inherit it, and
// the repay the caller feeds it (the safety buffer taken off again).

module Gate {
  import opened Foundations
  import opened Sizing

  function SaturatingMul(a: nat, b: nat): u128 {
    Min(a * b, U128_MAX)
  }

  function ShouldLiquidate(cost: u128, value: u128, gas: u128, marginBps: nat): bool {
    var total := SaturatingAdd(cost, gas);
    var factor := 10_000 + marginBps;
    if total * factor > U128_MAX then false
    else value >= CeilDiv(total * factor, 10_000)
  }

  /** The offer with its buffer removed, as the caller computes it. */
  function Unbuffered(offer: u128): nat {
    SaturatingMul(offer, 10_000) / (10_000 + SAFETY_BUFFER_BPS)
  }

  /** The gate accepts exactly when the value covers cost plus gas with the
      margin, in exact arithmetic, and that arithmetic fits u128. */
  lemma GateExact(cost: u128, value: u128, gas: u128, marginBps: nat)
    ensures ShouldLiquidate(cost, value, gas, marginBps)
       <==> && (cost + gas) * (10_000 + marginBps) <= U128_MAX
            && 10_000 * value >= (cost + gas) * (10_000 + marginBps)
  {
    var total := SaturatingAdd(cost, gas);
    var factor := 10_000 + marginBps;
    CeilIsLeastAbove(total * factor, 10_000, value);
    if total == cost + gas {
    } else {
      BothTimes(1, U128_MAX, 1);
      assert U128_MAX * factor >= U128_MAX * 10_000;
      assert (cost + gas) * factor >= U128_MAX * factor by {
        BothTimes(U128_MAX, cost + gas, factor);
      }
    }
  }

  /** Taking the buffer off an offer the product of which fits gives back the
      repay it was built from when that is a multiple of 200, else one less. */
  lemma UnbufferedExact(repay: u128)
    requires WithBuffer(repay) * 10_000 <= U128_MAX
    ensures Unbuffered(WithBuffer(repay)) == if repay % 200 == 0 then repay else repay - 1
  {
    var q, r := repay / 200, repay % 200;
    assert repay * SAFETY_BUFFER_BPS / 10_000 == q;
    assert WithBuffer(repay) == 201 * q + r;
    assert SaturatingMul(WithBuffer(repay), 10_000) == 50 * (200 * (201 * q + r));
    QuotientUnique((201 * q + r) * 10_000, 10_050, if r == 0 then repay else repay - 1);
  }

  /** Above that range the multiplication saturates and the gate is fed one
      constant, below the repay by more than any rounding. */
  lemma UnbufferedSaturates(offer: u128)
    requires offer * 10_000 > U128_MAX
    ensures Unbuffered(offer) == U128_MAX / 10_050
    ensures Unbuffered(offer) < offer
  {
  }

  /** Taking the buffer off never leaves more than the repay. */
  lemma UnbufferedBelow(repay: u128)
    ensures Unbuffered(WithBuffer(repay)) <= repay
  {
    if WithBuffer(repay) * 10_000 <= U128_MAX {
      UnbufferedExact(repay);
    } else {
      var offer := WithBuffer(repay);
      assert 10_000 * offer <= 10_050 * repay;
    }
  }

  /** What the gate makes of a sized percentage decision whose repay is R: a
      plan that earns the margin on R and gas is accepted whenever that can be
      scaled; an accepted plan earns it on at least R - 1 when the offer is at
      most u128::MAX / 10,000, and beyond that on u128::MAX / 10,050, which
      happens only for margins of at most 50 basis points. */
  lemma GateOnSizedOffer(p: Position, percentage: Percentage, available: u128, value: u128, gas: u128, marginBps: nat)
    requires PercentageSize(p, percentage, available).Sized?
    ensures var s := PercentageSize(p, percentage, available);
            var repay := CollateralToBorrow(s.collateral, p.rate).value;
            var factor := 10_000 + marginBps;
            var accepts := ShouldLiquidate(Unbuffered(s.repay), value, gas, marginBps);
            && repay > 0
            && (10_000 * value >= (repay + gas) * factor && (repay + gas) * factor <= U128_MAX ==> accepts)
            && (accepts && s.repay <= U128_MAX / 10_000 ==> 10_000 * value >= (repay - 1 + gas) * factor)
            && (accepts && s.repay > U128_MAX / 10_000 ==>
                  10_000 * value >= (U128_MAX / 10_050 + gas) * factor && marginBps <= 50)
  {
    PercentageSizedSound(p, percentage, available);
    var s := PercentageSize(p, percentage, available);
    var repay := CollateralToBorrow(s.collateral, p.rate).value;
    CostPositive(s.collateral, p.rate);
    assert s.repay == WithBuffer(repay);
    UnbufferedBelow(repay);
    GateOnOffer(repay, s.repay, value, gas, marginBps);
  }

  lemma GateOnOffer(repay: u128, offer: u128, value: u128, gas: u128, marginBps: nat)
    requires repay > 0 && offer == WithBuffer(repay)
    ensures var factor := 10_000 + marginBps;
            var accepts := ShouldLiquidate(Unbuffered(offer), value, gas, marginBps);
            && (10_000 * value >= (repay + gas) * factor && (repay + gas) * factor <= U128_MAX ==> accepts)
            && (accepts && offer <= U128_MAX / 10_000 ==> 10_000 * value >= (repay - 1 + gas) * factor)
            && (accepts && offer > U128_MAX / 10_000 ==>
                  10_000 * value >= (U128_MAX / 10_050 + gas) * factor && marginBps <= 50)
  {
    var factor := 10_000 + marginBps;
    UnbufferedBelow(repay);
    GateExact(Unbuffered(offer), value, gas, marginBps);
    BothTimes(Unbuffered(offer) + gas, repay + gas, factor);
    if offer <= U128_MAX / 10_000 {
      UnbufferedExact(repay);
      BothTimes(repay - 1 + gas, Unbuffered(offer) + gas, factor);
    } else {
      UnbufferedSaturates(offer);
      BothTimes(U128_MAX / 10_050, U128_MAX / 10_050 + gas, factor);
      if marginBps > 50 {
        BothTimes(10_051, factor, U128_MAX / 10_050);
      }
    }
  }

  /** What the gate is fed of a fixed-amount offer for a cost: never more than the
      cost; all but one unit of it when the budget does not cap the offer, and
      200/201 of it when it does, as far as the product fits. */
  lemma UnbufferedFixed(cost: nat, offer: u128)
    requires 0 < cost <= offer <= cost + Max(cost / 200, 1)
    ensures Unbuffered(offer) <= cost
    ensures offer * 10_000 <= U128_MAX ==> Unbuffered(offer) >= cost * 200 / 201
    ensures offer * 10_000 <= U128_MAX && offer == cost + Max(cost / 200, 1) ==> Unbuffered(offer) >= cost - 1
  {
    if offer * 10_000 <= U128_MAX {
      assert Unbuffered(offer) == offer * 10_000 / 10_050;
    } else {
      assert cost >= 200 && 10_000 * offer <= 10_050 * cost;
    }
  }

  /** What the gate makes of a sized fixed-amount decision whose collateral costs
      R at least: a plan that earns the margin on R and gas is accepted whenever
      that can be scaled; an accepted plan earns it on R - 1, or on 200/201 of R
      when the budget caps the offer, or beyond the range on u128::MAX / 10,050. */
  lemma GateOnFixedOffer(p: Position, budget: u128, available: u128, value: u128, gas: u128, marginBps: nat) returns (cost: nat)
    requires FixedSize(p, budget, available).Sized?
    ensures CostsLeast(cost, FixedSize(p, budget, available).collateral, p.rate) && cost > 0
    ensures var offer := FixedSize(p, budget, available).repay;
            var factor := 10_000 + marginBps;
            var accepts := ShouldLiquidate(Unbuffered(offer), value, gas, marginBps);
            && (10_000 * value >= (cost + gas) * factor && (cost + gas) * factor <= U128_MAX ==> accepts)
            && (accepts && offer <= U128_MAX / 10_000 && offer < budget ==> 10_000 * value >= (cost - 1 + gas) * factor)
            && (accepts && offer <= U128_MAX / 10_000 ==> 10_000 * value >= (cost * 200 / 201 + gas) * factor)
            && (accepts && offer > U128_MAX / 10_000 ==> 10_000 * value >= (U128_MAX / 10_050 + gas) * factor)
  {
    var offer := FixedSize(p, budget, available).repay;
    var factor := 10_000 + marginBps;
    cost := FixedOfferExact(p, budget, available);
    FixedCostPositive(p, budget, available, cost);
    UnbufferedFixed(cost, offer);
    GateExact(Unbuffered(offer), value, gas, marginBps);
    BothTimes(Unbuffered(offer) + gas, cost + gas, factor);
    if offer <= U128_MAX / 10_000 {
      BothTimes(cost * 200 / 201 + gas, Unbuffered(offer) + gas, factor);
      if offer < budget {
        BothTimes(cost - 1 + gas, Unbuffered(offer) + gas, factor);
      }
    } else {
      UnbufferedSaturates(offer);
    }
  }

  lemma FixedCostPositive(p: Position, budget: u128, available: u128, cost: nat)
    requires FixedSize(p, budget, available).Sized?
    requires CostsLeast(cost, FixedSize(p, budget, available).collateral, p.rate)
    ensures cost > 0
  {
    FixedSizedSound(p, budget, available);
    var collateral := FixedSize(p, budget, available).collateral;
    BothTimes(1, collateral, p.rate.n);
  }
}
