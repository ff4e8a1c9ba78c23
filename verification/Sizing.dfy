// How much of a position to repay: the two built-in strategies of
// src/liquidation_strategy.rs and the caller's check of what they answer.
//
// `Rate(n, d)` is price times (1 - spread) as an exact fraction: n/d borrow
// units for one collateral unit. A plain u128 product that leaves its range
// aborts the process (the release profile checks overflow), which is `Abort`
// here, so no statement about a decision speaks of a wrapped number.

module Sizing {
  import opened Foundations

  const SAFETY_BUFFER_BPS: nat := 50
  const LIQUIDATABLE_CAP_BUFFER_BPS: nat := 300

  datatype Fraction = Rate(n: nat, d: nat)
  type Rate = r: Fraction | r.n > 0 && r.d > 0 witness Rate(1, 1)

  /** A liquidation percentage, 1 to 100. */
  type Percentage = p: nat | 1 <= p <= 100 witness 100

  /** The part of a market and position that sizing reads. `deposit` is already
      narrowed to the liquidatable portion on markets with partial support. */
  datatype Position = Position(deposit: u128, requiresFull: bool, minimum: u128, rate: Rate)

  datatype DeclineReason = InsufficientInventory | NotViable

  /** Which return statement a decline left by. */
  datatype Exit =
    | ZeroTarget
    | OverBudget
    | NoCollateralConversion
    | ZeroCollateral
    | NoRepayConversion
    | ShortBalance
    | BelowMinimum

  datatype Decision =
    | Sized(repay: u128, collateral: u128)
    | Decline(reason: DeclineReason, exit: Exit)
    | Abort

  // ---------- conversions ----------

  function BorrowToCollateral(borrow: nat, rate: Rate): Option<u128> {
    ToU128(borrow * rate.d / rate.n)
  }

  function CollateralToBorrow(collateral: nat, rate: Rate): Option<u128> {
    ToU128(CeilDiv(collateral * rate.n, rate.d))
  }

  /** The two conversions are adjoint: a repay buys at least `c` collateral
      exactly when it covers what `c` costs. */
  lemma ConversionsAdjoint(c: nat, t: nat, rate: Rate)
    ensures c <= t * rate.d / rate.n <==> CeilDiv(c * rate.n, rate.d) <= t
  {
    FloorIsGreatestBelow(t * rate.d, rate.n, c);
    CeilIsLeastAbove(c * rate.n, rate.d, t);
  }

  /** Asking for more collateral never costs less. */
  lemma CostMonotone(c: nat, c': nat, rate: Rate)
    requires c <= c'
    ensures CeilDiv(c * rate.n, rate.d) <= CeilDiv(c' * rate.n, rate.d)
  {
    var t := CeilDiv(c' * rate.n, rate.d);
    ConversionsAdjoint(c', t, rate);
    ConversionsAdjoint(c, t, rate);
  }

  /** Offering more never buys less. */
  lemma YieldMonotone(t: nat, t': nat, rate: Rate)
    requires t <= t'
    ensures t * rate.d / rate.n <= t' * rate.d / rate.n
  {
    var c := t * rate.d / rate.n;
    ConversionsAdjoint(c, t, rate);
    ConversionsAdjoint(c, t', rate);
  }

  lemma CostPositive(c: nat, rate: Rate)
    requires c > 0
    ensures CeilDiv(c * rate.n, rate.d) > 0
  {
    CeilIsLeastAbove(c * rate.n, rate.d, 0);
    assert c * rate.n > 0;
  }

  // ---------- buffers ----------

  /** The eligibility cap with its headroom, where the product fits. */
  function CapBuffer(liquidatable: nat): nat {
    liquidatable * (10_000 - LIQUIDATABLE_CAP_BUFFER_BPS) / 10_000
  }

  predicate CapOverflows(liquidatable: nat) {
    liquidatable * (10_000 - LIQUIDATABLE_CAP_BUFFER_BPS) > U128_MAX
  }

  /** A repay with the safety buffer added. */
  function WithBuffer(repay: nat): u128 {
    SaturatingAdd(repay, repay * SAFETY_BUFFER_BPS / 10_000)
  }

  predicate BufferOverflows(amount: nat) {
    amount * SAFETY_BUFFER_BPS > U128_MAX
  }

  /** An amount less the safety buffer, where the product fits. */
  function Discounted(amount: nat): nat {
    amount * (10_000 - SAFETY_BUFFER_BPS) / 10_000
  }

  predicate DiscountOverflows(amount: nat) {
    amount * (10_000 - SAFETY_BUFFER_BPS) > U128_MAX
  }

  lemma WithBufferMonotone(a: nat, b: nat)
    requires a <= b
    ensures WithBuffer(a) <= WithBuffer(b)
  {
  }

  /** The buffers, as inequalities: a cap keeps 97 %, a balance 99.5 %, and a
      repay grows by half a percent. */
  lemma BuffersExact(x: nat, c: nat)
    ensures c <= CapBuffer(x) <==> 10_000 * c <= 9_700 * x
    ensures c <= Discounted(x) <==> 10_000 * c <= 9_950 * x
    ensures x + x / 200 <= U128_MAX ==> WithBuffer(x) == x + x / 200
  {
  }

  /** The least repay that covers what collateral costs, rounded up. */
  predicate CostsLeast(repay: nat, collateral: nat, rate: Rate) {
    repay * rate.d >= collateral * rate.n && (repay > 0 ==> (repay - 1) * rate.d < collateral * rate.n)
  }

  lemma CostIsLeast(c: nat, rate: Rate)
    ensures CostsLeast(CeilDiv(c * rate.n, rate.d), c, rate)
  {
    var cost := CeilDiv(c * rate.n, rate.d);
    CeilIsLeastAbove(c * rate.n, rate.d, cost);
    if cost > 0 {
      CeilIsLeastAbove(c * rate.n, rate.d, cost - 1);
    }
  }

  // ---------- the percentage strategy ----------

  function Target(available: nat, percentage: nat): nat {
    Discounted(available) * percentage / 100
  }

  /** `below_minimum_decline_reason`: none when its own buffer product overflows. */
  function BelowMinimumReason(p: Position, collateral: nat): Option<DeclineReason> {
    var cap := CapBuffer(p.deposit);
    var inventoryBound := !p.requiresFull && collateral < cap;
    match CollateralToBorrow(cap, p.rate)
    case None => Some(NotViable)
    case Some(repay) =>
      if BufferOverflows(repay) then None
      else if inventoryBound && WithBuffer(repay) >= p.minimum then Some(InsufficientInventory)
      else Some(NotViable)
  }

  function PercentageSize(p: Position, percentage: Percentage, available: u128): Decision {
    if DiscountOverflows(available) then Abort else
    var target := Target(available, percentage);
    if target == 0 then Decline(InsufficientInventory, ZeroTarget) else
    match BorrowToCollateral(target, p.rate)
    case None => Decline(NotViable, NoCollateralConversion)
    case Some(collateral) =>
      if !p.requiresFull && CapOverflows(p.deposit) then Abort else
      var request := if p.requiresFull then p.deposit else Min(collateral, CapBuffer(p.deposit));
      if request == 0 then Decline(NotViable, ZeroCollateral) else
      match CollateralToBorrow(request, p.rate)
      case None => Decline(NotViable, NoRepayConversion)
      case Some(repay) =>
        if BufferOverflows(repay) then Abort else
        var offer := WithBuffer(repay);
        if offer > available then Decline(InsufficientInventory, ShortBalance)
        else if offer < p.minimum then
          if CapOverflows(p.deposit) then Abort else
          match BelowMinimumReason(p, collateral)
          case None => Abort
          case Some(reason) => Decline(reason, BelowMinimum)
        else Sized(offer, request)
  }

  // ---------- the fixed-amount strategy ----------

  /** `budget` is the fixed USD amount already in raw units. */
  function FixedSize(p: Position, budget: u128, available: u128): Decision {
    if budget > available then Decline(InsufficientInventory, OverBudget) else
    match BorrowToCollateral(budget, p.rate)
    case None => Decline(NotViable, NoCollateralConversion)
    case Some(most) =>
      if !p.requiresFull && (DiscountOverflows(most) || CapOverflows(p.deposit)) then Abort else
      var request :=
        if p.requiresFull then p.deposit
        else Min(Discounted(most), CapBuffer(p.deposit));
      if request == 0 then Decline(NotViable, ZeroCollateral) else
      match CollateralToBorrow(request, p.rate)
      case None => Decline(NotViable, NoRepayConversion)
      case Some(expected) =>
        if BufferOverflows(expected) then Abort else
        var withBuffer := SaturatingAdd(expected, Max(expected * SAFETY_BUFFER_BPS / 10_000, 1));
        if p.requiresFull && withBuffer > budget then Decline(NotViable, OverBudget) else
        var offer := Min(withBuffer, budget);
        if offer < p.minimum then Decline(NotViable, BelowMinimum)
        else if p.requiresFull && offer > available then Decline(InsufficientInventory, ShortBalance)
        else Sized(offer, request)
  }

  // ---------- the caller's check ----------

  datatype Violation =
    | ZeroAmount
    | InvalidDeclaredPercentage(declared: nat)
    | ExceedsDeclaredMax(cap: nat)

  function ValidateSizing(repay: u128, collateral: u128, available: u128, declared: nat): Option<Violation> {
    if repay == 0 || collateral == 0 then Some(ZeroAmount)
    else if declared > 100 then Some(InvalidDeclaredPercentage(declared))
    else
      var cap := (available / 100) * declared + (available % 100) * declared / 100;
      if repay > cap then Some(ExceedsDeclaredMax(cap)) else None
  }

  /** Splitting a balance into quotient and remainder gives the exact share,
      and every intermediate product stays within u128. */
  lemma QuotientRemainderShare(available: u128, declared: nat)
    requires declared <= 100
    ensures (available / 100) * declared + (available % 100) * declared / 100 == available * declared / 100
    ensures (available / 100) * declared <= U128_MAX
    ensures (available % 100) * declared <= U128_MAX
    ensures (available / 100) * declared + (available % 100) * declared / 100 <= available
  {
    ShareOfParts(available / 100, available % 100, declared);
  }

  lemma ShareOfParts(q: nat, r: nat, declared: nat)
    requires r < 100 && declared <= 100
    ensures q * declared + r * declared / 100 == (100 * q + r) * declared / 100
    ensures q * declared <= 100 * q && r * declared <= 100 * r
  {
    var x, y := q * declared, r * declared;
    assert x <= 100 * q && y <= 100 * r by {
      assert q * (100 - declared) >= 0 && r * (100 - declared) >= 0;
    }
    assert (100 * q + r) * declared == 100 * x + y;
  }

  /** The caller accepts exactly the nonzero amounts within the declared share. */
  lemma ValidationExact(repay: u128, collateral: u128, available: u128, declared: nat)
    ensures ValidateSizing(repay, collateral, available, declared).None?
       <==> repay > 0 && collateral > 0 && declared <= 100 && repay <= available * declared / 100
  {
    if declared <= 100 {
      QuotientRemainderShare(available, declared);
    }
  }

  // ---------- what the percentage strategy promises ----------

  /** The partial-market offer is covered by the balance: what `request`
      collateral costs is at most the target, and the two buffers together
      shrink, never grow. */
  lemma PartialOfferCovered(available: nat, percentage: Percentage, request: nat, rate: Rate)
    requires request <= Target(available, percentage) * rate.d / rate.n
    ensures CeilDiv(request * rate.n, rate.d) <= Target(available, percentage)
    ensures WithBuffer(CeilDiv(request * rate.n, rate.d)) <= available
  {
    var target := Target(available, percentage);
    ConversionsAdjoint(request, target, rate);
    TargetBounds(available, percentage);
  }

  lemma TargetBounds(available: nat, percentage: Percentage)
    ensures 10_000 * Target(available, percentage) <= 9_950 * available
  {
    var kept := Discounted(available);
    FloorIsGreatestBelow(kept * percentage, 100, Target(available, percentage));
    assert kept * percentage <= kept * 100;
  }

  /** On markets with partial liquidation the short-balance exit is unreachable. */
  lemma PartialNeverShort(p: Position, percentage: Percentage, available: u128)
    requires !p.requiresFull
    ensures PercentageSize(p, percentage, available) != Decline(InsufficientInventory, ShortBalance)
  {
    var target := Target(available, percentage);
    if !DiscountOverflows(available) && target > 0 {
      match BorrowToCollateral(target, p.rate)
      case None =>
      case Some(collateral) =>
        PartialOfferCovered(available, percentage, Min(collateral, CapBuffer(p.deposit)), p.rate);
    }
  }

  /** A sized percentage decision: the offer pays for the collateral it asks
      for, is within the balance, reaches the market's minimum, asks for the
      whole deposit or at most the buffered cap, and passes the caller. */
  lemma PercentageSizedSound(p: Position, percentage: Percentage, available: u128)
    requires PercentageSize(p, percentage, available).Sized?
    ensures var s := PercentageSize(p, percentage, available);
            && CollateralToBorrow(s.collateral, p.rate).Some?
            && CollateralToBorrow(s.collateral, p.rate).value <= s.repay <= available
            && p.minimum <= s.repay
            && (if p.requiresFull then s.collateral == p.deposit else s.collateral <= CapBuffer(p.deposit))
            && (!p.requiresFull ==> s.repay <= WithBuffer(Target(available, percentage)))
            && ValidateSizing(s.repay, s.collateral, available, 100) == None
  {
    var s := PercentageSize(p, percentage, available);
    CostPositive(s.collateral, p.rate);
    ValidationExact(s.repay, s.collateral, available, 100);
    if !p.requiresFull {
      var target := Target(available, percentage);
      PartialOfferCovered(available, percentage, s.collateral, p.rate);
      WithBufferMonotone(CeilDiv(s.collateral * p.rate.n, p.rate.d), target);
    }
  }

  /** On a partial market no larger request was possible: the collateral is the
      most that fits the buffered cap and whose cost fits the target, and the
      offer is that cost with the buffer. */
  lemma PercentageTakesMost(p: Position, percentage: Percentage, available: u128, c: nat)
    requires !p.requiresFull && PercentageSize(p, percentage, available).Sized?
    ensures var s := PercentageSize(p, percentage, available);
            && (c <= s.collateral <==> c <= CapBuffer(p.deposit) && CeilDiv(c * p.rate.n, p.rate.d) <= Target(available, percentage))
            && s.repay == WithBuffer(CeilDiv(s.collateral * p.rate.n, p.rate.d))
  {
    ConversionsAdjoint(c, Target(available, percentage), p.rate);
  }

  /** On every market the offer is the least repay that covers the collateral,
      and half a percent of it. */
  lemma PercentageOfferExact(p: Position, percentage: Percentage, available: u128) returns (cost: nat)
    requires PercentageSize(p, percentage, available).Sized?
    ensures CostsLeast(cost, PercentageSize(p, percentage, available).collateral, p.rate)
    ensures PercentageSize(p, percentage, available).repay == cost + cost / 200
  {
    cost := CollateralToBorrow(PercentageSize(p, percentage, available).collateral, p.rate).value;
    CostIsLeast(PercentageSize(p, percentage, available).collateral, p.rate);
    BuffersExact(cost, 0);
  }

  // ---------- what the fixed-amount strategy promises ----------

  /** Required repay <= offer <= budget <= balance, and the caller agrees. */
  lemma FixedSizedSound(p: Position, budget: u128, available: u128)
    requires FixedSize(p, budget, available).Sized?
    ensures var s := FixedSize(p, budget, available);
            && CollateralToBorrow(s.collateral, p.rate).Some?
            && CollateralToBorrow(s.collateral, p.rate).value <= s.repay <= budget <= available
            && p.minimum <= s.repay
            && (if p.requiresFull then s.collateral == p.deposit else s.collateral <= CapBuffer(p.deposit))
            && ValidateSizing(s.repay, s.collateral, available, 100) == None
  {
    var s := FixedSize(p, budget, available);
    CostPositive(s.collateral, p.rate);
    ValidationExact(s.repay, s.collateral, available, 100);
    if !p.requiresFull {
      var most := budget * p.rate.d / p.rate.n;
      assert Discounted(most) <= most;
      ConversionsAdjoint(s.collateral, budget, p.rate);
    }
  }

  /** What the offer adds to the required repay: half a percent of it and one unit
      at least, exactly, or what is left of the budget if that is less. */
  lemma FixedOfferHeadroom(p: Position, budget: u128, available: u128)
    requires FixedSize(p, budget, available).Sized?
    ensures var s := FixedSize(p, budget, available);
            var added := s.repay - CollateralToBorrow(s.collateral, p.rate).value;
            var headroom := Max(CollateralToBorrow(s.collateral, p.rate).value / 200, 1);
            && 0 <= added <= headroom
            && (s.repay == budget || added == headroom)
  {
    FixedSizedSound(p, budget, available);
  }

  /** The offer is the least repay that covers the collateral, and half a percent
      of it but one unit at least, capped at the budget. */
  lemma FixedOfferExact(p: Position, budget: u128, available: u128) returns (cost: nat)
    requires FixedSize(p, budget, available).Sized?
    ensures CostsLeast(cost, FixedSize(p, budget, available).collateral, p.rate)
    ensures FixedSize(p, budget, available).repay == Min(cost + Max(cost / 200, 1), budget)
    ensures cost <= FixedSize(p, budget, available).repay
  {
    cost := CollateralToBorrow(FixedSize(p, budget, available).collateral, p.rate).value;
    CostIsLeast(FixedSize(p, budget, available).collateral, p.rate);
    FixedSizedSound(p, budget, available);
  }

  /** With m the most the budget buys, the request on a partial market is exactly
      99.5 % of m within the buffered cap. */
  lemma FixedTakesExactly(p: Position, budget: u128, available: u128, m: nat, c: nat)
    requires !p.requiresFull && FixedSize(p, budget, available).Sized?
    requires CeilDiv(m * p.rate.n, p.rate.d) <= budget < CeilDiv((m + 1) * p.rate.n, p.rate.d)
    ensures c <= FixedSize(p, budget, available).collateral <==>
              10_000 * c <= 9_700 * p.deposit && 10_000 * c <= 9_950 * m
  {
    ConversionsAdjoint(m, budget, p.rate);
    ConversionsAdjoint(m + 1, budget, p.rate);
    BuffersExact(p.deposit, c);
    BuffersExact(m, c);
  }

  /** On a partial market the collateral is the most that fits the buffered cap
      and half a percent less than what the budget buys. */
  lemma FixedTakesMost(p: Position, budget: u128, available: u128, m: nat)
    requires !p.requiresFull && FixedSize(p, budget, available).Sized?
    requires CeilDiv(m * p.rate.n, p.rate.d) <= budget
    ensures FixedSize(p, budget, available).collateral >= Min(Discounted(m), CapBuffer(p.deposit))
    ensures FixedSize(p, budget, available).collateral <= CapBuffer(p.deposit)
  {
    ConversionsAdjoint(m, budget, p.rate);
    DiscountedMonotone(m, budget * p.rate.d / p.rate.n);
  }

  lemma DiscountedMonotone(a: nat, b: nat)
    requires a <= b
    ensures Discounted(a) <= Discounted(b)
  {
  }

  /** The last insufficient-balance exit of the fixed strategy is unreachable. */
  lemma FixedNeverShort(p: Position, budget: u128, available: u128)
    ensures FixedSize(p, budget, available) != Decline(InsufficientInventory, ShortBalance)
  {
  }

  /** The fixed strategy blames inventory exactly when the balance is below
      its budget. */
  lemma FixedBlamesInventoryIff(p: Position, budget: u128, available: u128)
    ensures (FixedSize(p, budget, available).Decline?
             && FixedSize(p, budget, available).reason == InsufficientInventory)
       <==> available < budget
  {
    FixedNeverShort(p, budget, available);
  }
}
