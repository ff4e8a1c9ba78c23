// From a liquidatable position to a plan: `size_position` and
// `assess_profitability` of src/liquidator.rs around the strategies, and what
// a plan that reaches execution is worth.

module Evaluation {
  import opened Foundations
  import opened Sizing
  import opened Gate
  import opened Inventory
  import opened Execution

  const DECLARED_MAX: nat := 100   // both built-in strategies

  datatype Strategy = ByPercentage(percentage: Percentage) | ByFixedAmount(budget: u128)

  function Size(s: Strategy, p: Position, available: u128): Decision {
    match s
    case ByPercentage(percentage) => PercentageSize(p, percentage, available)
    case ByFixedAmount(budget) => FixedSize(p, budget, available)
  }

  /** Below the market's minimum the strategy is not asked at all. */
  predicate Answers(s: Strategy, p: Position, available: u128) {
    available >= p.minimum ==> !Size(s, p, available).Abort?
  }

  function SizePosition(s: Strategy, p: Position, available: u128): SizingAnswer
    requires Answers(s, p, available)
  {
    if available < p.minimum then InventoryBelowMinimum else
    match Size(s, p, available)
    case Decline(reason, _) => Declined(reason)
    case Sized(repay, collateral) =>
      if ValidateSizing(repay, collateral, available, DECLARED_MAX) != None then Declined(NotViable)
      else SizedAt(repay)
  }

  /** Both conversions must succeed; there is no fallback. */
  function Assess(repay: u128, value: Option<u128>, gas: Option<u128>, marginBps: nat): Assessment {
    if value == None || gas == None then Unpriceable
    else if ShouldLiquidate(Unbuffered(repay), value.value, gas.value, marginBps) then Plan
    else GateRefused
  }

  /** The assessment, in closed form: without both conversions there is no
      price; with them the gate judges the offer less its buffer. */
  lemma AssessExact(repay: u128, value: Option<u128>, gas: Option<u128>, marginBps: nat)
    ensures Assess(repay, value, gas, marginBps) == Unpriceable <==> value.None? || gas.None?
    ensures Assess(repay, value, gas, marginBps) == Plan <==>
              && value.Some? && gas.Some?
              && (Min(repay * 10_000, U128_MAX) / 10_050 + gas.value) * (10_000 + marginBps) <= U128_MAX
              && 10_000 * value.value >= (Min(repay * 10_000, U128_MAX) / 10_050 + gas.value) * (10_000 + marginBps)
    ensures !Assess(repay, value, gas, marginBps).AssessmentFailed?
  {
    if value.Some? && gas.Some? {
      GateExact(Unbuffered(repay), value.value, gas.value, marginBps);
    }
  }

  /** Exactly when a liquidatable position comes to a plan: within the iteration
      budget, funded to the minimum, sized, and worth its margin. */
  lemma PlannedIff(round: Round, iteration: nat, maxIterations: nat, s: Strategy, p: Position, available: u128,
                   value: Option<u128>, gas: Option<u128>, marginBps: nat, repay: u128)
    requires Answers(s, p, available) && round.status.StatusLiquidatable?
    requires round.sizing == SizePosition(s, p, available)
    requires round.sizing.SizedAt? ==> round.assessment == Assess(round.sizing.repay, value, gas, marginBps)
    ensures Decided(round, iteration, maxIterations) == Some(repay) <==>
              && iteration <= maxIterations
              && Size(s, p, available).Sized? && Size(s, p, available).repay == repay
              && Assess(repay, value, gas, marginBps) == Plan
  {
    CallerNeverOverrules(s, p, available);
    DecidedExactly(round, iteration, maxIterations, repay);
  }

  lemma SizedSound(s: Strategy, p: Position, available: u128)
    requires Size(s, p, available).Sized?
    ensures var d := Size(s, p, available);
            && CollateralToBorrow(d.collateral, p.rate).Some?
            && 0 < CollateralToBorrow(d.collateral, p.rate).value <= d.repay <= available
            && p.minimum <= d.repay
            && d.collateral <= p.deposit
            && ValidateSizing(d.repay, d.collateral, available, DECLARED_MAX) == None
  {
    var d := Size(s, p, available);
    match s {
      case ByPercentage(percentage) => PercentageSizedSound(p, percentage, available);
      case ByFixedAmount(budget) => FixedSizedSound(p, budget, available);
    }
    ValidationExact(d.repay, d.collateral, available, DECLARED_MAX);
    CostPositive(d.collateral, p.rate);
  }

  /** The caller's check never vetoes a built-in strategy, and its early check
      never skips a position the strategy would have sized: a position is sized
      exactly when the strategy sizes it. */
  lemma CallerNeverOverrules(s: Strategy, p: Position, available: u128)
    requires Answers(s, p, available)
    ensures SizePosition(s, p, available).SizedAt? <==> Size(s, p, available).Sized?
    ensures SizePosition(s, p, available).SizedAt? ==> SizePosition(s, p, available).repay == Size(s, p, available).repay
  {
    if Size(s, p, available).Sized? {
      SizedSound(s, p, available);
    }
  }

  /** What was sized against an entry can be reserved from it, as long as
      nobody got in between. */
  lemma SizedCanBeReserved(s: Strategy, p: Position, e: Entry)
    requires Answers(s, p, Available(e))
    requires SizePosition(s, p, Available(e)).SizedAt?
    ensures ReserveIn(e, SizePosition(s, p, Available(e)).repay).Some?
  {
  }

  /** A plan that is executed offers at least what its collateral costs, at
      most the balance it was sized against, no less than the market's minimum,
      and earns its margin on the unbuffered repay and the gas. */
  lemma PlanIsSound(round: Round, iteration: nat, maxIterations: nat,
                    s: Strategy, p: Position, available: u128, value: Option<u128>, gas: Option<u128>, marginBps: nat)
    requires Answers(s, p, available)
    requires round.sizing == SizePosition(s, p, available)
    requires round.sizing.SizedAt? ==> round.assessment == Assess(round.sizing.repay, value, gas, marginBps)
    requires EvaluatePosition(round, iteration, maxIterations).Some?
    requires EvaluatePosition(round, iteration, maxIterations).value.Proceed?
    ensures iteration <= maxIterations
    ensures value.Some? && gas.Some?
    ensures var repay := EvaluatePosition(round, iteration, maxIterations).value.repay;
            var d := Size(s, p, available);
            && d == Sized(repay, d.collateral)
            && 0 < CollateralToBorrow(d.collateral, p.rate).value <= repay <= available
            && p.minimum <= repay
            && d.collateral <= p.deposit
            && 10_000 * value.value >= (Unbuffered(repay) + gas.value) * (10_000 + marginBps)
  {
    CallerNeverOverrules(s, p, available);
    SizedSound(s, p, available);
    GateExact(Unbuffered(round.sizing.repay), value.value, gas.value, marginBps);
  }

  /** A liquidatable position is reported unfunded, when its first iteration
      executes nothing and no race was lost, exactly when the balance is below
      the market's minimum or the strategy blames the inventory. */
  lemma UnfundedIff(round: Round, maxIterations: nat, s: Strategy, p: Position, available: u128)
    requires Answers(s, p, available) && maxIterations >= 1
    requires round.status.StatusLiquidatable? && round.sizing == SizePosition(s, p, available)
    ensures EvaluatePosition(round, 1, maxIterations) == Some(Skip(Unfunded)) <==>
              || available < p.minimum
              || (Size(s, p, available).Decline? && Size(s, p, available).reason == InsufficientInventory)
  {
  }

  /** What one iteration was evaluated on: the position then, the balance read
      then, and the two converted amounts. */
  datatype Basis = Basis(position: Position, available: u128, value: Option<u128>, gas: Option<u128>)

  ghost predicate EvaluatedOn(round: Round, s: Strategy, basis: Basis, marginBps: nat) {
    && Answers(s, basis.position, basis.available)
    && round.sizing == SizePosition(s, basis.position, basis.available)
    && (round.sizing.SizedAt? ==> round.assessment == Assess(round.sizing.repay, basis.value, basis.gas, marginBps))
  }

  /** Covers its collateral's cost, fits the balance, reaches the minimum and
      earns its margin. */
  predicate Sound(amount: u128, s: Strategy, basis: Basis, marginBps: nat) {
    var d := Size(s, basis.position, basis.available);
    && d.Sized? && d.repay == amount
    && CollateralToBorrow(d.collateral, basis.position.rate).Some?
    && 0 < CollateralToBorrow(d.collateral, basis.position.rate).value <= amount <= basis.available
    && basis.position.minimum <= amount
    && basis.value.Some? && basis.gas.Some?
    && 10_000 * basis.value.value >= (Unbuffered(amount) + basis.gas.value) * (10_000 + marginBps)
  }

  /** Over a whole run of the loop, whose record of attempts is `attempts`: every
      amount it submitted was sound for what its own iteration was evaluated on. */
  lemma EveryAttemptIsSound(attempts: seq<Attempt>, script: nat -> Round, maxIterations: nat,
                            s: Strategy, bases: nat -> Basis, marginBps: nat)
    requires Answered(attempts, script, maxIterations)
    requires forall i :: 1 <= i <= |attempts| ==> EvaluatedOn(script(i), s, bases(i), marginBps)
    ensures forall k :: 0 <= k < |attempts| ==>
              attempts[k].amount <= U128_MAX && Sound(attempts[k].amount, s, bases(k + 1), marginBps)
  {
    forall k | 0 <= k < |attempts|
      ensures attempts[k].amount <= U128_MAX && Sound(attempts[k].amount, s, bases(k + 1), marginBps)
    {
      var basis := bases(k + 1);
      assert Meets(attempts[k], script(k + 1), k + 1, maxIterations);
      assert EvaluatedOn(script(k + 1), s, basis, marginBps);
      PlanIsSound(script(k + 1), k + 1, maxIterations, s, basis.position, basis.available, basis.value, basis.gas, marginBps);
    }
  }
}
