// When a strategy declines, would more inventory have helped? The doc of
// `DeclineReason` promises that it would exactly when inventory is blamed.
// Here: the balances the percentage strategy sizes, in closed form; when some
// larger balance is one of them; and exit by exit, for every input, when the
// stated reason is right.

module SizingHonesty {
  import opened Foundations
  import opened Sizing

  /** Some larger balance makes the same call size the position. */
  ghost predicate TopUpHelps(p: Position, percentage: Percentage, available: u128) {
    exists b: u128 :: available < b && PercentageSize(p, percentage, b).Sized?
  }

  /** The promise of the two reasons. */
  ghost predicate Honest(p: Position, percentage: Percentage, available: u128)
    requires PercentageSize(p, percentage, available).Decline?
  {
    PercentageSize(p, percentage, available).reason == InsufficientInventory <==> TopUpHelps(p, percentage, available)
  }

  // ---------- the balances that are sized ----------

  function Cost(collateral: nat, rate: Rate): nat {
    CeilDiv(collateral * rate.n, rate.d)
  }

  /** The collateral a balance's target buys. */
  function Bought(p: Position, percentage: Percentage, b: nat): nat {
    Target(b, percentage) * p.rate.d / p.rate.n
  }

  /** The part of it within the buffered cap. */
  function Slice(p: Position, percentage: Percentage, b: nat): nat {
    Min(Bought(p, percentage, b), CapBuffer(p.deposit))
  }

  /** What the whole buffered cap, or the whole deposit, costs, before any u128 limit. */
  function CapCost(p: Position): nat {
    Cost(CapBuffer(p.deposit), p.rate)
  }

  function FullCost(p: Position): nat {
    Cost(p.deposit, p.rate)
  }

  /** What a balance must do to be sized: stay in range, buy something, and
      reach the minimum; on a full market, cover the whole offer. */
  predicate Sizes(p: Position, percentage: Percentage, b: nat) {
    && !DiscountOverflows(b)
    && Bought(p, percentage, b) <= U128_MAX
    && if p.requiresFull then
         && Target(b, percentage) > 0
         && p.deposit > 0 && FullCost(p) <= U128_MAX && !BufferOverflows(FullCost(p))
         && p.minimum <= WithBuffer(FullCost(p)) <= b
       else
         && !CapOverflows(p.deposit)
         && Slice(p, percentage, b) > 0
         && p.minimum <= WithBuffer(Cost(Slice(p, percentage, b), p.rate))
  }

  /** The slice of a balance is affordable, so nothing else can stop it. */
  lemma SliceAffordable(p: Position, percentage: Percentage, b: u128)
    requires !DiscountOverflows(b)
    ensures Cost(Slice(p, percentage, b), p.rate) <= U128_MAX
    ensures !BufferOverflows(Cost(Slice(p, percentage, b), p.rate))
    ensures WithBuffer(Cost(Slice(p, percentage, b), p.rate)) <= b
  {
    PartialOfferCovered(b, percentage, Slice(p, percentage, b), p.rate);
    TargetBounds(b, percentage);
  }

  /** Exactly which balances are sized, for every input. */
  lemma SizedIff(p: Position, percentage: Percentage, b: u128)
    ensures PercentageSize(p, percentage, b).Sized? <==> Sizes(p, percentage, b)
  {
    if !DiscountOverflows(b) {
      SliceAffordable(p, percentage, b);
      if Target(b, percentage) == 0 {
        assert Bought(p, percentage, b) == 0;
      }
    }
  }

  lemma TargetMonotone(a: nat, b: nat, percentage: Percentage)
    requires a <= b
    ensures Target(a, percentage) <= Target(b, percentage)
  {
    assert Discounted(a) <= Discounted(b);
    BothTimes(Discounted(a), Discounted(b), percentage);
  }

  /** More balance buys no less. */
  lemma SliceMonotone(p: Position, percentage: Percentage, a: nat, b: nat)
    requires a <= b
    ensures Target(a, percentage) <= Target(b, percentage)
    ensures Bought(p, percentage, a) <= Bought(p, percentage, b)
    ensures Slice(p, percentage, a) <= Slice(p, percentage, b) <= CapBuffer(p.deposit)
    ensures WithBuffer(Cost(Slice(p, percentage, a), p.rate)) <= WithBuffer(Cost(Slice(p, percentage, b), p.rate)) <= WithBuffer(CapCost(p))
  {
    TargetMonotone(a, b, percentage);
    YieldMonotone(Target(a, percentage), Target(b, percentage), p.rate);
    CostsMonotone(Slice(p, percentage, a), Slice(p, percentage, b), p.rate);
    CostsMonotone(Slice(p, percentage, b), CapBuffer(p.deposit), p.rate);
  }

  lemma CostsMonotone(c: nat, c': nat, rate: Rate)
    requires c <= c'
    ensures WithBuffer(Cost(c, rate)) <= WithBuffer(Cost(c', rate))
  {
    CostMonotone(c, c', rate);
    WithBufferMonotone(Cost(c, rate), Cost(c', rate));
  }

  // ---------- the best balance ----------

  /** The least balance whose target reaches a repay. */
  function TopUp(repay: nat, percentage: Percentage): nat {
    CeilDiv(CeilDiv(repay * 100, percentage) * 10_000, 9_950)
  }

  lemma TopUpIsLeast(b: nat, repay: nat, percentage: Percentage)
    ensures repay <= Target(b, percentage) <==> TopUp(repay, percentage) <= b
  {
    var kept, needed := Discounted(b), CeilDiv(repay * 100, percentage);
    FloorIsGreatestBelow(kept * percentage, 100, repay);
    CeilIsLeastAbove(repay * 100, percentage, kept);
    FloorIsGreatestBelow(b * 9_950, 10_000, needed);
    CeilIsLeastAbove(needed * 10_000, 9_950, b);
  }

  lemma ShareRoundTrip(whole: nat, part: nat, x: nat)
    requires 0 < part <= whole
    ensures CeilDiv(x * whole, part) * part / whole == x
  {
    var y := CeilDiv(x * whole, part);
    CeilIsLeastAbove(x * whole, part, y);
    if y > 0 {
      CeilIsLeastAbove(x * whole, part, y - 1);
      assert (y - 1) * part == y * part - part;
    }
    assert (x + 1) * whole == x * whole + whole;
    QuotientUnique(y * part, whole, x);
  }

  lemma TopUpHitsTarget(repay: nat, percentage: Percentage)
    ensures Target(TopUp(repay, percentage), percentage) == repay
    ensures repay <= TopUp(repay, percentage)
  {
    ShareRoundTrip(10_000, 9_950, CeilDiv(repay * 100, percentage));
    ShareRoundTrip(100, percentage, repay);
    TargetBounds(TopUp(repay, percentage), percentage);
  }

  /** The balance that would buy the whole cap stays within u128 arithmetic. */
  predicate TopUpFits(p: Position, percentage: Percentage) {
    !DiscountOverflows(TopUp(CapCost(p), percentage))
  }

  /** The largest balance whose discount stays within u128. */
  const MOST: u128 := U128_MAX / 9_950

  /** The balance to try: on a partial market the one that buys the whole cap,
      or the largest there is; on a full market the least that covers the offer
      with a target above zero. */
  function BestBalance(p: Position, percentage: Percentage): nat {
    if p.requiresFull then Max(WithBuffer(FullCost(p)), TopUp(1, percentage))
    else if TopUpFits(p, percentage) then TopUp(CapCost(p), percentage)
    else MOST
  }

  /** On a partial market the best balance buys the whole cap, or is the largest
      there is and buys less than that. */
  lemma BestBuys(p: Position, percentage: Percentage)
    requires !p.requiresFull
    ensures var best := BestBalance(p, percentage);
            && best <= MOST
            && if TopUpFits(p, percentage)
               then Slice(p, percentage, best) == CapBuffer(p.deposit) && Target(best, percentage) == CapCost(p)
               else best == MOST && Bought(p, percentage, best) < CapBuffer(p.deposit)
  {
    var cap := CapBuffer(p.deposit);
    if TopUpFits(p, percentage) {
      TopUpHitsTarget(CapCost(p), percentage);
      ConversionsAdjoint(cap, CapCost(p), p.rate);
    } else {
      TopUpIsLeast(MOST, CapCost(p), percentage);
      ConversionsAdjoint(cap, Target(MOST, percentage), p.rate);
    }
  }

  /** A repay of the cap's cost buys less than two caps, once one unit of
      target buys less than one. */
  lemma CapCostBuysUnderTwoCaps(p: Position, target: nat)
    requires target > 0 && target * p.rate.d / p.rate.n < CapBuffer(p.deposit)
    ensures CapCost(p) * p.rate.d / p.rate.n < 2 * CapBuffer(p.deposit)
  {
    var cap := CapBuffer(p.deposit);
    FloorIsGreatestBelow(target * p.rate.d, p.rate.n, cap);
    assert p.rate.d <= target * p.rate.d by {
      BothTimes(1, target, p.rate.d);
    }
    UnderTwice(cap * p.rate.n, p.rate.d);
    FloorIsGreatestBelow(CapCost(p) * p.rate.d, p.rate.n, 2 * cap);
    Regroup(2, cap, p.rate.n);
  }

  lemma UnderTwice(a: nat, d: nat)
    requires 0 < d < a
    ensures CeilDiv(a, d) * d < 2 * a
  {
    var q := CeilDiv(a, d);
    CeilIsLeastAbove(a, d, q - 1);
    assert (q - 1) * d == q * d - d;
  }

  /** If some balance's purchase converts, so does the cap's cost. */
  lemma CapCostConverts(p: Position, percentage: Percentage, b: nat)
    requires Target(b, percentage) > 0 && Bought(p, percentage, b) <= U128_MAX && !CapOverflows(p.deposit)
    ensures CapCost(p) * p.rate.d / p.rate.n <= U128_MAX
  {
    var target := Target(b, percentage);
    if CapCost(p) <= target {
      YieldMonotone(CapCost(p), target, p.rate);
    } else {
      ConversionsAdjoint(CapBuffer(p.deposit), target, p.rate);
      CapCostBuysUnderTwoCaps(p, target);
    }
  }

  lemma BestSizesPartly(p: Position, percentage: Percentage, b: nat)
    requires !p.requiresFull && Sizes(p, percentage, b)
    ensures Sizes(p, percentage, BestBalance(p, percentage))
  {
    var best := BestBalance(p, percentage);
    BestBuys(p, percentage);
    if TopUpFits(p, percentage) {
      SliceMonotone(p, percentage, b, b);
      CapCostConverts(p, percentage, b);
    } else {
      SliceMonotone(p, percentage, b, best);
    }
  }

  lemma BestSizesWholly(p: Position, percentage: Percentage, b: nat)
    requires p.requiresFull && Sizes(p, percentage, b)
    ensures BestBalance(p, percentage) <= b
    ensures Sizes(p, percentage, BestBalance(p, percentage))
  {
    var best := BestBalance(p, percentage);
    TopUpIsLeast(b, 1, percentage);
    TopUpIsLeast(best, 1, percentage);
    SliceMonotone(p, percentage, best, b);
  }

  /** Between the best balance and one that is sized everything is sized. */
  lemma SizedBetween(p: Position, percentage: Percentage, available: nat, b: nat)
    requires BestBalance(p, percentage) <= available < b
    requires Sizes(p, percentage, b) && Sizes(p, percentage, BestBalance(p, percentage))
    ensures Sizes(p, percentage, available)
  {
    SliceMonotone(p, percentage, BestBalance(p, percentage), available);
    SliceMonotone(p, percentage, available, b);
  }

  /** For every input that is not sized: more inventory helps exactly when the
      one best balance is more, and sizes. */
  lemma TopUpHelpsIff(p: Position, percentage: Percentage, available: u128)
    requires !PercentageSize(p, percentage, available).Sized?
    ensures TopUpHelps(p, percentage, available) <==>
              available < BestBalance(p, percentage) && Sizes(p, percentage, BestBalance(p, percentage))
  {
    var best := BestBalance(p, percentage);
    SizedIff(p, percentage, available);
    forall b: u128 | available < b && PercentageSize(p, percentage, b).Sized?
      ensures available < best && Sizes(p, percentage, best)
    {
      SizedIff(p, percentage, b);
      if p.requiresFull {
        BestSizesWholly(p, percentage, b);
      } else {
        BestSizesPartly(p, percentage, b);
      }
      if best <= available {
        SizedBetween(p, percentage, available, b);
      }
    }
    if available < best && Sizes(p, percentage, best) {
      var b: u128 := best;
      SizedIff(p, percentage, b);
    }
  }

  // ---------- the reasons, exit by exit ----------

  /** The whole cap is priced within u128 and its offer reaches the minimum. */
  predicate CapReaches(p: Position) {
    CapCost(p) <= U128_MAX && p.minimum <= WithBuffer(CapCost(p))
  }

  /** The most that any balance in range can offer reaches the minimum. */
  predicate SliceReaches(p: Position, percentage: Percentage) {
    p.minimum <= WithBuffer(Cost(Slice(p, percentage, BestBalance(p, percentage)), p.rate))
  }

  /** The below-minimum exit, for every input: right on full markets, and on
      partial ones exactly when what the cap promises is what the best balance
      can offer. */
  lemma BelowMinimumHonestIff(p: Position, percentage: Percentage, available: u128)
    requires PercentageSize(p, percentage, available).Decline?
    requires PercentageSize(p, percentage, available).exit == BelowMinimum
    ensures Honest(p, percentage, available) <==> p.requiresFull || (CapReaches(p) <==> SliceReaches(p, percentage))
  {
    TopUpHelpsIff(p, percentage, available);
    if !p.requiresFull {
      BlamesIffCapReaches(p, percentage, available);
      HelpsIffSliceReaches(p, percentage, available);
    }
  }

  lemma BlamesIffCapReaches(p: Position, percentage: Percentage, available: u128)
    requires !p.requiresFull && PercentageSize(p, percentage, available).Decline?
    requires PercentageSize(p, percentage, available).exit == BelowMinimum
    ensures PercentageSize(p, percentage, available).reason == InsufficientInventory <==> CapReaches(p)
  {
    SliceAffordable(p, percentage, available);
  }

  lemma HelpsIffSliceReaches(p: Position, percentage: Percentage, available: u128)
    requires !p.requiresFull && PercentageSize(p, percentage, available).Decline?
    requires PercentageSize(p, percentage, available).exit == BelowMinimum
    ensures SliceReaches(p, percentage) <==>
              available < BestBalance(p, percentage) && Sizes(p, percentage, BestBalance(p, percentage))
  {
    var best := BestBalance(p, percentage);
    BestBuys(p, percentage);
    if best <= available {
      SliceMonotone(p, percentage, best, available);
    } else if SliceReaches(p, percentage) {
      SliceMonotone(p, percentage, available, best);
      CapCostConverts(p, percentage, available);
    }
  }

  /** Right on every input whose cap can be bought within u128. */
  lemma BelowMinimumHonest(p: Position, percentage: Percentage, available: u128)
    requires PercentageSize(p, percentage, available).Decline?
    requires PercentageSize(p, percentage, available).exit == BelowMinimum
    requires p.requiresFull || TopUpFits(p, percentage)
    ensures Honest(p, percentage, available)
  {
    BelowMinimumHonestIff(p, percentage, available);
    if !p.requiresFull {
      BestBuys(p, percentage);
      TopUpHitsTarget(CapCost(p), percentage);
    }
  }

  /** Beyond, it fails two ways only: a cap whose own cost leaves u128 while a
      slice of it would do, or a priced cap no balance in range can reach. */
  lemma BelowMinimumFailsTwoWays(p: Position, percentage: Percentage, available: u128)
    requires PercentageSize(p, percentage, available).Decline?
    requires PercentageSize(p, percentage, available).exit == BelowMinimum
    requires !Honest(p, percentage, available)
    ensures !p.requiresFull && !TopUpFits(p, percentage)
    ensures if TopUpHelps(p, percentage, available)
            then PercentageSize(p, percentage, available).reason == NotViable && CapCost(p) > U128_MAX
            else PercentageSize(p, percentage, available).reason == InsufficientInventory && CapCost(p) <= U128_MAX
  {
    BelowMinimumHonestIff(p, percentage, available);
    if !p.requiresFull && TopUpFits(p, percentage) {
      BelowMinimumHonest(p, percentage, available);
    }
    TopUpHelpsIff(p, percentage, available);
    BlamesIffCapReaches(p, percentage, available);
    HelpsIffSliceReaches(p, percentage, available);
    SliceMonotone(p, percentage, BestBalance(p, percentage), BestBalance(p, percentage));
  }

  /** The zero-target exit always blames inventory; it is right exactly when the
      best balance sizes. */
  lemma ZeroTargetHonestIff(p: Position, percentage: Percentage, available: u128)
    requires PercentageSize(p, percentage, available) == Decline(InsufficientInventory, ZeroTarget)
    ensures Honest(p, percentage, available) <==> Sizes(p, percentage, BestBalance(p, percentage))
  {
    var best := BestBalance(p, percentage);
    TopUpHelpsIff(p, percentage, available);
    if best <= available {
      SliceMonotone(p, percentage, best, available);
      NoTargetBuysNothing(p, percentage, best);
    }
  }

  lemma NoTargetBuysNothing(p: Position, percentage: Percentage, b: nat)
    requires Target(b, percentage) == 0
    ensures Bought(p, percentage, b) == 0
  {
  }

  /** The zero-collateral exit always calls the position not viable; it is right
      exactly when the best balance does not size. */
  lemma ZeroCollateralHonestIff(p: Position, percentage: Percentage, available: u128)
    requires PercentageSize(p, percentage, available) == Decline(NotViable, ZeroCollateral)
    ensures Honest(p, percentage, available) <==> !Sizes(p, percentage, BestBalance(p, percentage))
  {
    var best := BestBalance(p, percentage);
    TopUpHelpsIff(p, percentage, available);
    if Sizes(p, percentage, best) && best <= available {
      SliceMonotone(p, percentage, best, available);
    }
  }

  /** A conversion that leaves u128 leaves it for every larger balance too. */
  lemma ConversionDeclinesAreHonest(p: Position, percentage: Percentage, available: u128)
    requires PercentageSize(p, percentage, available).Decline?
    requires PercentageSize(p, percentage, available).exit in {NoCollateralConversion, NoRepayConversion}
    ensures Honest(p, percentage, available)
  {
    TopUpHelpsIff(p, percentage, available);
    SliceAffordable(p, percentage, available);
    if available < BestBalance(p, percentage) {
      SliceMonotone(p, percentage, available, BestBalance(p, percentage));
    }
  }

  /** What the short-balance exit says about its inputs. */
  lemma ShortBalanceMeans(p: Position, percentage: Percentage, available: u128)
    requires PercentageSize(p, percentage, available) == Decline(InsufficientInventory, ShortBalance)
    ensures p.requiresFull && p.deposit > 0 && Target(available, percentage) > 0
    ensures FullCost(p) <= U128_MAX && !BufferOverflows(FullCost(p))
    ensures available < WithBuffer(FullCost(p)) == BestBalance(p, percentage)
  {
    if !p.requiresFull {
      PartialNeverShort(p, percentage, available);
    }
    TopUpIsLeast(available, 1, percentage);
  }

  /** On a full market the offer itself, used as the balance, has a target
      that buys less than the deposit. */
  lemma OfferBuysLess(p: Position, percentage: Percentage)
    requires 0 < FullCost(p) <= U128_MAX
    ensures Bought(p, percentage, WithBuffer(FullCost(p))) < p.deposit
  {
    TargetBounds(WithBuffer(FullCost(p)), percentage);
    ConversionsAdjoint(p.deposit, Target(WithBuffer(FullCost(p)), percentage), p.rate);
  }

  /** The short-balance exit blames inventory; it is right exactly when the
      required offer reaches the minimum and, as a balance, stays in range. */
  lemma ShortBalanceHonestIff(p: Position, percentage: Percentage, available: u128)
    requires PercentageSize(p, percentage, available) == Decline(InsufficientInventory, ShortBalance)
    ensures Honest(p, percentage, available) <==>
              p.minimum <= WithBuffer(FullCost(p)) && !DiscountOverflows(WithBuffer(FullCost(p)))
    ensures p.minimum <= available ==> p.minimum <= WithBuffer(FullCost(p))
  {
    ShortBalanceMeans(p, percentage, available);
    CostPositive(p.deposit, p.rate);
    OfferBuysLess(p, percentage);
    TopUpHelpsIff(p, percentage, available);
    SliceMonotone(p, percentage, available, BestBalance(p, percentage));
  }

  /** Every decline of the percentage strategy, for every input: its reason is
      right exactly under its exit's condition. */
  lemma DeclineHonestIff(p: Position, percentage: Percentage, available: u128)
    requires PercentageSize(p, percentage, available).Decline?
    ensures Honest(p, percentage, available) <==>
              match PercentageSize(p, percentage, available).exit
              case ZeroTarget => Sizes(p, percentage, BestBalance(p, percentage))
              case ZeroCollateral => !Sizes(p, percentage, BestBalance(p, percentage))
              case ShortBalance => p.minimum <= WithBuffer(FullCost(p)) && !DiscountOverflows(WithBuffer(FullCost(p)))
              case BelowMinimum => p.requiresFull || (CapReaches(p) <==> SliceReaches(p, percentage))
              case _ => true
  {
    match PercentageSize(p, percentage, available).exit
    case ZeroTarget => ZeroTargetHonestIff(p, percentage, available);
    case ZeroCollateral => ZeroCollateralHonestIff(p, percentage, available);
    case ShortBalance => ShortBalanceHonestIff(p, percentage, available);
    case BelowMinimum => BelowMinimumHonestIff(p, percentage, available);
    case _ => ConversionDeclinesAreHonest(p, percentage, available);
  }

  // ---------- where the promise fails ----------

  /** One collateral unit and a balance of one: the decline says inventory, and
      no balance would ever do. */
  lemma ZeroTargetMisreports()
    ensures var dust := Position(1, false, 1, Rate(1, 1));
            && PercentageSize(dust, 100, 1) == Decline(InsufficientInventory, ZeroTarget)
            && !TopUpHelps(dust, 100, 1)
  {
    TopUpHelpsIff(Position(1, false, 1, Rate(1, 1)), 100, 1);
  }

  /** A balance of 5 buys no unit at 10 each: the decline says not viable, though
      the caller's early check let it through and 100 would be sized. */
  lemma ZeroCollateralMisreports()
    ensures var coarse := Position(100, false, 1, Rate(10, 1));
            && coarse.minimum <= 5
            && PercentageSize(coarse, 100, 5) == Decline(NotViable, ZeroCollateral)
            && PercentageSize(coarse, 100, 100) == Sized(90, 9)
            && TopUpHelps(coarse, 100, 5)
  {
    assert PercentageSize(Position(100, false, 1, Rate(10, 1)), 100, 100).Sized?;
  }

  /** A whole deposit of 100 against a minimum of 200; and one whose offer is more
      than any balance in range, past the early check. Both blame inventory and
      no balance is sized. */
  lemma ShortBalanceMisreports()
    ensures var small := Position(100, true, 200, Rate(1, 1));
            PercentageSize(small, 100, 90) == Decline(InsufficientInventory, ShortBalance) && !TopUpHelps(small, 100, 90)
    ensures var huge := Position(MOST, true, 1, Rate(1, 1));
            PercentageSize(huge, 100, MOST) == Decline(InsufficientInventory, ShortBalance) && !TopUpHelps(huge, 100, MOST)
  {
    SmallOfferDeclines();
    HugeOfferDeclines();
    ShortBalanceHonestIff(Position(100, true, 200, Rate(1, 1)), 100, 90);
    ShortBalanceHonestIff(Position(MOST, true, 1, Rate(1, 1)), 100, MOST);
  }

  lemma SmallOfferDeclines()
    ensures PercentageSize(Position(100, true, 200, Rate(1, 1)), 100, 90) == Decline(InsufficientInventory, ShortBalance)
    ensures WithBuffer(FullCost(Position(100, true, 200, Rate(1, 1)))) < 200
  {
  }

  lemma HugeOfferDeclines()
    ensures PercentageSize(Position(MOST, true, 1, Rate(1, 1)), 100, MOST) == Decline(InsufficientInventory, ShortBalance)
    ensures DiscountOverflows(WithBuffer(FullCost(Position(MOST, true, 1, Rate(1, 1)))))
  {
  }

  const STEEP := Position(67_563, false, 0x2_0000_0000_0000_0000_0000_0000_0000, Rate(0x1_0000_0000_0000_0000_0000_0000_0000, 1))

  lemma SteepDeclines()
    ensures PercentageSize(STEEP, 100, 0x1_0800_0000_0000_0000_0000_0000_0000) == Decline(NotViable, BelowMinimum)
  {
  }

  lemma SteepSizes()
    ensures PercentageSize(STEEP, 100, 0x2_0800_0000_0000_0000_0000_0000_0000).Sized?
  {
  }

  /** One collateral unit costs 2^112, the cap 2^128, the minimum 2^113. The
      below-minimum exit answers `NotViable`, a larger balance is sized. */
  lemma UnpricedCapMisreports()
    ensures PercentageSize(STEEP, 100, 0x1_0800_0000_0000_0000_0000_0000_0000) == Decline(NotViable, BelowMinimum)
    ensures TopUpHelps(STEEP, 100, 0x1_0800_0000_0000_0000_0000_0000_0000)
  {
    SteepDeclines();
    SteepSizes();
    var b: u128 := 0x2_0800_0000_0000_0000_0000_0000_0000;
    assert PercentageSize(STEEP, 100, b).Sized?;
  }

  const FAR := Position(MOST * 9 / 10 * 10_000 / 9_700, false, MOST * 6 / 10, Rate(1, 1))

  lemma FarDeclines()
    ensures PercentageSize(FAR, 50, MOST * 7 / 10) == Decline(InsufficientInventory, BelowMinimum)
  {
  }

  lemma FarNeverSizes()
    ensures BestBalance(FAR, 50) == MOST && !Sizes(FAR, 50, MOST)
  {
  }

  /** Nine tenths of the largest balance would buy the cap, but half of any
      balance is the target. The exit blames inventory past the early check, and
      no balance is sized. */
  lemma FarCapMisreports()
    ensures FAR.minimum <= MOST * 7 / 10 && CapCost(FAR) <= U128_MAX
    ensures PercentageSize(FAR, 50, MOST * 7 / 10) == Decline(InsufficientInventory, BelowMinimum)
    ensures !TopUpHelps(FAR, 50, MOST * 7 / 10)
  {
    FarDeclines();
    FarNeverSizes();
    TopUpHelpsIff(FAR, 50, MOST * 7 / 10);
  }

  // ---------- the fixed-amount strategy ----------

  /** What a fixed budget adds to a repay: its buffer, at least one unit. */
  function WithMinimumBuffer(repay: nat): u128 {
    SaturatingAdd(repay, Max(repay * SAFETY_BUFFER_BPS / 10_000, 1))
  }

  function FixedRequest(p: Position, budget: nat): nat {
    if p.requiresFull then p.deposit
    else Min(Discounted(budget * p.rate.d / p.rate.n), CapBuffer(p.deposit))
  }

  /** What a budget must do to be sized, whatever the balance: stay in range,
      buy something, reach the minimum and, on a full market, fund it all. */
  predicate FixedSizes(p: Position, budget: nat) {
    var bought, cost := budget * p.rate.d / p.rate.n, Cost(FixedRequest(p, budget), p.rate);
    && bought <= U128_MAX && FixedRequest(p, budget) > 0
    && cost <= U128_MAX && !BufferOverflows(cost)
    && p.minimum <= Min(WithMinimumBuffer(cost), budget)
    && if p.requiresFull then WithMinimumBuffer(cost) <= budget
       else !DiscountOverflows(bought) && !CapOverflows(p.deposit)
  }

  lemma FixedSizedIff(p: Position, budget: u128, available: u128)
    ensures FixedSize(p, budget, available).Sized? <==> budget <= available && FixedSizes(p, budget)
  {
  }

  ghost predicate FixedTopUpHelps(p: Position, budget: u128, available: u128) {
    exists b: u128 :: available < b && FixedSize(p, budget, b).Sized?
  }

  /** Every decline of the fixed-amount strategy: inventory is blamed below the
      budget only, and rightly exactly when the budget would be sized; above it
      the balance is not looked at and the reason is always right. */
  lemma FixedDeclineHonestIff(p: Position, budget: u128, available: u128)
    requires FixedSize(p, budget, available).Decline?
    ensures FixedSize(p, budget, available).reason == InsufficientInventory <==> available < budget
    ensures (FixedSize(p, budget, available).reason == InsufficientInventory <==> FixedTopUpHelps(p, budget, available))
       <==> (available < budget ==> FixedSizes(p, budget))
  {
    FixedNeverShort(p, budget, available);
    FixedSizedIff(p, budget, available);
    forall b: u128 | available < b && FixedSize(p, budget, b).Sized?
      ensures FixedSizes(p, budget)
    {
      FixedSizedIff(p, budget, b);
    }
    if available < budget && FixedSizes(p, budget) {
      FixedSizedIff(p, budget, budget);
    }
  }

  /** One collateral unit has no buffered cap: the decline says inventory, and
      no balance would do. */
  lemma FixedBudgetMisreports()
    ensures var dust := Position(1, false, 1, Rate(1, 1));
            && FixedSize(dust, 50, 20) == Decline(InsufficientInventory, OverBudget)
            && !FixedTopUpHelps(dust, 50, 20)
  {
    FixedDeclineHonestIff(Position(1, false, 1, Rate(1, 1)), 50, 20);
  }

  // ---------- the caller ----------

  /** The caller's early check (balance below the market minimum) turns away
      no position that either strategy would have sized. */
  lemma EarlyCheckLosesNothing(p: Position, percentage: Percentage, budget: u128, available: u128)
    requires available < p.minimum
    ensures !PercentageSize(p, percentage, available).Sized?
    ensures !FixedSize(p, budget, available).Sized?
  {
    if PercentageSize(p, percentage, available).Sized? {
      PercentageSizedSound(p, percentage, available);
    }
    if FixedSize(p, budget, available).Sized? {
      FixedSizedSound(p, budget, available);
    }
  }

  /** Each exit spoken of above is reachable, and so are sized decisions. */
  lemma ExitsAreReachable()
    ensures PercentageSize(Position(100, false, 1, Rate(1, 1)), 100, 1_000) == Sized(97, 97)
    ensures PercentageSize(Position(100, false, 50, Rate(1, 1)), 100, 20) == Decline(InsufficientInventory, BelowMinimum)
    ensures PercentageSize(Position(100, false, 98, Rate(1, 1)), 100, 1_000) == Decline(NotViable, BelowMinimum)
    ensures PercentageSize(Position(100, true, 1, Rate(1, 1)), 50, 90) == Decline(InsufficientInventory, ShortBalance)
    ensures FixedSize(Position(100, false, 1, Rate(1, 1)), 50, 60) == Sized(50, 49)
  {
  }
}
