// One position's run: `liquidate`, `execute_plan` and `map_evaluation` of
// src/liquidator.rs over `execute_liquidation` of src/executor.rs. What the
// chain, the oracles and the gateway answer are arguments; between any two
// awaited steps the other tasks may do anything to the shared inventory except
// settle this run's tokens.

module Execution {
  import opened Foundations
  import opened Ledger
  import opened Inventory
  import opened Sizing

  datatype Outcome = Liquidated | Healthy | Skipped | SkippedUnfunded | Unprofitable

  datatype Error =
    | EvaluationError          // status, price pair or strategy failure
    | StrategyError            // the executor's own refusals
    | TransactionError         // the gateway call or the receipt read failed
    | TransactionFailed
    | MissingTransactionHash

  datatype Result = Ok(outcome: Outcome) | Err(error: Error)

  // ---------- the executor ----------

  datatype Settlement = Live(token: Reservation) | DryRun

  datatype Receipts = NoHash | Unreadable | SomeFailed | AllSucceeded

  datatype GatewayAnswer =
    | CallFailed
    | EndedFailed
    | EndedUnfinished                // Pending or InProgress
    | OperationSucceeded(receipts: Receipts)

  const LANDED_CLEAN := OperationSucceeded(AllSucceeded)

  function ErrorOf(g: GatewayAnswer): Error
    requires g != LANDED_CLEAN
  {
    match g
    case CallFailed => TransactionError
    case EndedFailed => TransactionFailed
    case EndedUnfinished => TransactionFailed
    case OperationSucceeded(NoHash) => MissingTransactionHash
    case OperationSucceeded(Unreadable) => TransactionError
    case OperationSucceeded(_) => TransactionFailed
  }

  /** Each error of a submission names one kind of answer. */
  lemma ErrorsNameTheirCause(g: GatewayAnswer)
    requires g != LANDED_CLEAN
    ensures ErrorOf(g) == TransactionFailed <==> g.EndedFailed? || g.EndedUnfinished? || g == OperationSucceeded(SomeFailed)
    ensures ErrorOf(g) == MissingTransactionHash <==> g == OperationSucceeded(NoHash)
    ensures ErrorOf(g) == TransactionError <==> g.CallFailed? || g == OperationSucceeded(Unreadable)
  {
  }

  predicate Covers(r: Reservation, asset: Asset, amount: u128) {
    r.asset == asset && r.amount == amount
  }

  ghost predicate Settled(inventory: InventoryManager, task: nat)
    reads inventory
  {
    && inventory.Valid()
    && forall i :: 0 <= i < |inventory.owners| && inventory.owners[i] == task ==> inventory.ledger[i].phase !in HELD
  }

  /** The other tasks, for as long as an await takes: they may reserve, settle
      their own tokens, refresh and discover. Callers know only this contract;
      doing nothing is one way to meet it. */
  method OtherTasks(inventory: InventoryManager, ghost task: nat)
    requires inventory.Valid()
    modifies inventory
    ensures inventory.Valid()
    ensures old(inventory.owners) <= inventory.owners
    ensures old(inventory.inventory).Keys <= inventory.inventory.Keys
    ensures forall i :: 0 <= i < |old(inventory.owners)| && old(inventory.owners)[i] == task ==>
              inventory.ledger[i] == old(inventory.ledger)[i]
    ensures forall i :: |old(inventory.owners)| <= i < |inventory.owners| ==> inventory.owners[i] != task
  {
  }

  class Executor {
    const inventory: InventoryManager
    const dryRun: bool

    constructor (inventory: InventoryManager, dryRun: bool)
      ensures this.inventory == inventory && this.dryRun == dryRun
    {
      this.inventory, this.dryRun := inventory, dryRun;
    }

    /** How an own live token ends: consumed exactly when it was submitted and
        the operation succeeded with readable receipts none of which failed. */
    ghost function EndOf(token: Reservation, asset: Asset, amount: u128, answer: GatewayAnswer): Phase {
      if !dryRun && Covers(token, asset, amount) && answer == LANDED_CLEAN then Consumed else Released
    }

    /** Executes against one gateway answer. `swapRead` is the balance read
        after a successful collateral swap, if there was one. */
    method ExecuteLiquidation(asset: Asset, amount: u128, settlement: Settlement, answer: GatewayAnswer,
                              swapped: bool, swapRead: Option<u128>, ghost task: nat) returns (r: Result)
      requires inventory.Valid()
      requires settlement.Live? && settlement.token.managerId == inventory.id ==>
                 inventory.Open(settlement.token) && inventory.owners[settlement.token.serial] == task
      modifies inventory
      ensures inventory.Valid()
      ensures old(inventory.owners) <= inventory.owners
      ensures forall i :: |old(inventory.owners)| <= i < |inventory.owners| ==> inventory.owners[i] != task
      ensures forall i :: 0 <= i < |old(inventory.owners)| && old(inventory.owners)[i] == task ==>
                inventory.ledger[i] ==
                if settlement.Live? && settlement.token.managerId == inventory.id && i == settlement.token.serial
                then Token(settlement.token.asset, settlement.token.amount, EndOf(settlement.token, asset, amount, answer))
                else old(inventory.ledger)[i]
      ensures settlement.DryRun? ==> unchanged(inventory) && r == if dryRun then Ok(Liquidated) else Err(StrategyError)
      ensures settlement.Live? ==>
                r == if settlement.token.managerId != inventory.id || dryRun || !Covers(settlement.token, asset, amount)
                     then Err(StrategyError)
                     else if answer == LANDED_CLEAN then Ok(Liquidated) else Err(ErrorOf(answer))
      ensures settlement.Live? && r.Ok? && swapped && swapRead.Some? ==>
                asset in inventory.inventory && inventory.inventory[asset].balance == swapRead.value
    {
      if settlement == DryRun {
        return if dryRun then Ok(Liquidated) else Err(StrategyError);
      }
      var token := settlement.token;
      OtherTasks(inventory, task);
      if token.managerId != inventory.id {
        return Err(StrategyError);
      }
      if dryRun || !Covers(token, asset, amount) {
        inventory.Release(token);
        return Err(StrategyError);
      }
      r := Submit(token, answer, task);
      if r.Ok? && swapped {
        assert inventory.ledger[token.serial] in inventory.ledger;
        var _ := inventory.RefreshAsset(asset, swapRead);
      }
    }

    /** The gateway call and, on success, the receipt read, both awaited; then
        the token is settled by what they answered. */
    method Submit(token: Reservation, answer: GatewayAnswer, ghost task: nat) returns (r: Result)
      requires inventory.Valid() && inventory.Open(token) && inventory.owners[token.serial] == task
      modifies inventory
      ensures inventory.Valid()
      ensures old(inventory.owners) <= inventory.owners
      ensures forall i :: |old(inventory.owners)| <= i < |inventory.owners| ==> inventory.owners[i] != task
      ensures forall i :: 0 <= i < |old(inventory.owners)| && old(inventory.owners)[i] == task && i != token.serial ==>
                inventory.ledger[i] == old(inventory.ledger)[i]
      ensures inventory.ledger[token.serial] ==
                Token(token.asset, token.amount, if answer == LANDED_CLEAN then Consumed else Released)
      ensures r == if answer == LANDED_CLEAN then Ok(Liquidated) else Err(ErrorOf(answer))
    {
      OtherTasks(inventory, task);
      if answer != LANDED_CLEAN {
        inventory.Release(token);
        return Err(ErrorOf(answer));
      }
      inventory.Consume(token);
      OtherTasks(inventory, task);
      r := Ok(Liquidated);
    }
  }

  // ---------- one evaluation and what it means ----------

  datatype Status = StatusError | StatusHealthy | StatusMaintenance | StatusLiquidatable

  datatype SizingAnswer =
    | SizingFailed
    | InventoryBelowMinimum
    | Declined(reason: DeclineReason)
    | SizedAt(repay: u128)

  datatype Assessment = AssessmentFailed | Unpriceable | GateRefused | Plan

  datatype SkipCause = Unfunded | StrategyDeclined | CannotPrice

  datatype Evaluation =
    | EvaluatedHealthy
    | SkipTerminal
    | MaxedOut
    | Skip(cause: SkipCause)
    | NotProfitable
    | Proceed(repay: u128)

  /** What the chain, prices and gateway answer in one loop iteration. */
  datatype Round = Round(
    status: Status,
    sizing: SizingAnswer,
    assessment: Assessment,
    pushOk: bool,
    answer: GatewayAnswer,
    swapped: bool,
    swapRead: Option<u128>,
    refetched: bool)

  function EvaluatePosition(round: Round, iteration: nat, maxIterations: nat): Option<Evaluation> {
    match round.status
    case StatusError => None
    case StatusHealthy => Some(EvaluatedHealthy)
    case StatusMaintenance => Some(SkipTerminal)
    case StatusLiquidatable =>
      if iteration > maxIterations then Some(MaxedOut) else
      match round.sizing
      case SizingFailed => None
      case InventoryBelowMinimum => Some(Skip(Unfunded))
      case Declined(InsufficientInventory) => Some(Skip(Unfunded))
      case Declined(NotViable) => Some(Skip(StrategyDeclined))
      case SizedAt(repay) =>
        match round.assessment
        case AssessmentFailed => None
        case Unpriceable => Some(Skip(CannotPrice))
        case GateRefused => Some(NotProfitable)
        case Plan => Some(Proceed(repay))
  }

  datatype Control = Break(outcome: Outcome) | Continue(repay: u128)

  function MapEvaluation(e: Evaluation, afterSuccess: bool): Control {
    match e
    case EvaluatedHealthy => Break(if afterSuccess then Liquidated else Healthy)
    case SkipTerminal => Break(if afterSuccess then Liquidated else Skipped)
    case MaxedOut => Break(if afterSuccess then Liquidated else Skipped)
    case Skip(cause) =>
      Break(if afterSuccess then Liquidated else if cause == Unfunded then SkippedUnfunded else Skipped)
    case NotProfitable => Break(if afterSuccess then Liquidated else Unprofitable)
    case Proceed(repay) => Continue(repay)
  }

  /** A stop reports `Liquidated` exactly when something was liquidated before
      it, whatever stopped the loop. */
  lemma StopReportsLiquidatedIff(e: Evaluation, afterSuccess: bool)
    ensures MapEvaluation(e, afterSuccess).Break? <==> !e.Proceed?
    ensures MapEvaluation(e, afterSuccess).Break? ==>
              (MapEvaluation(e, afterSuccess).outcome == Liquidated <==> afterSuccess)
  {
  }

  /** The result of an iteration that executes nothing. A plan that comes to
      nothing lost an inventory race: unfunded, unless something was liquidated
      before. */
  function StopWithout(round: Round, iteration: nat, maxIterations: nat): Result {
    match EvaluatePosition(round, iteration, maxIterations)
    case None => Err(EvaluationError)
    case Some(Proceed(_)) => Ok(if iteration > 1 then Liquidated else SkippedUnfunded)
    case Some(e) => Ok(MapEvaluation(e, iteration > 1).outcome)
  }

  lemma StopReports(round: Round, iteration: nat, maxIterations: nat)
    requires iteration > 0
    ensures StopWithout(round, iteration, maxIterations).Ok? ==>
              (StopWithout(round, iteration, maxIterations).outcome == Liquidated <==> iteration > 1)
  {
  }

  /** A liquidatable position that is sized and whose price assessment is this. */
  predicate AssessedAs(round: Round, assessment: Assessment) {
    round.status.StatusLiquidatable? && round.sizing.SizedAt? && round.assessment == assessment
  }

  predicate SizingIs(round: Round, sizing: SizingAnswer) {
    round.status.StatusLiquidatable? && round.sizing == sizing
  }

  /** On a first iteration that executes nothing each outcome has one cause,
      named by what the chain, the sizing and the gate answered. */
  lemma FirstStopNamesItsCause(round: Round, maxIterations: nat)
    requires maxIterations >= 1
    ensures var r := StopWithout(round, 1, maxIterations);
            && (r == Ok(Healthy) <==> round.status.StatusHealthy?)
            && (r == Ok(Unprofitable) <==> AssessedAs(round, GateRefused))
            && (r == Ok(SkippedUnfunded) <==>
                  || SizingIs(round, InventoryBelowMinimum) || SizingIs(round, Declined(InsufficientInventory))
                  || AssessedAs(round, Plan))
            && (r == Ok(Skipped) <==>
                  round.status.StatusMaintenance? || SizingIs(round, Declined(NotViable)) || AssessedAs(round, Unpriceable))
            && (r == Err(EvaluationError) <==>
                  round.status.StatusError? || SizingIs(round, SizingFailed) || AssessedAs(round, AssessmentFailed))
            && r != Ok(Liquidated)
    ensures Decided(round, 1, maxIterations).Some? <==> AssessedAs(round, Plan)
    ensures EvaluatePosition(round, 1, maxIterations) != Some(MaxedOut)
  {
  }

  /** What this iteration decided to repay, if it came to a plan. */
  function Decided(round: Round, iteration: nat, maxIterations: nat): Option<u128> {
    match EvaluatePosition(round, iteration, maxIterations)
    case Some(Proceed(repay)) => Some(repay)
    case _ => None
  }

  /** A plan is made within the iteration budget only, for what was sized. */
  lemma DecidedExactly(round: Round, iteration: nat, maxIterations: nat, repay: u128)
    ensures Decided(round, iteration, maxIterations) == Some(repay) <==>
              iteration <= maxIterations && AssessedAs(round, Plan) && round.sizing == SizedAt(repay)
  {
  }

  // ---------- the loop ----------

  /** One reservation this run made and what the gateway then answered. */
  datatype Attempt = Attempt(serial: nat, amount: u128, answer: GatewayAnswer)

  datatype Move = Halt(result: Result) | Go(repay: u128)

  datatype Executed = LostRace | Finished(result: Result)

  /** The inventory does not cover the amount: what a refused reservation means. */
  ghost predicate Short(inventory: InventoryManager, asset: Asset, amount: u128)
    reads inventory
  {
    asset !in inventory.inventory || amount > Available(inventory.inventory[asset])
  }

  type NonZeroU32 = n: nat | 0 < n < 0x1_0000_0000 witness 1

  class Liquidator {
    const executor: Executor
    const asset: Asset
    const loopLiquidation: bool
    const maxLoopIterations: NonZeroU32

    constructor (executor: Executor, asset: Asset, loopLiquidation: bool, maxLoopIterations: NonZeroU32)
      ensures this.executor == executor && this.asset == asset
      ensures this.loopLiquidation == loopLiquidation && this.maxLoopIterations == maxLoopIterations
    {
      this.executor, this.asset := executor, asset;
      this.loopLiquidation, this.maxLoopIterations := loopLiquidation, maxLoopIterations;
    }

    /** What one executed or simulated plan reports. */
    ghost function ResultOf(answer: GatewayAnswer): Result {
      if executor.dryRun || answer == LANDED_CLEAN then Ok(Liquidated) else Err(ErrorOf(answer))
    }

    /** Reserve, push once, execute. `LostRace` means the reservation was refused,
        for want of inventory, and nothing moved. The run's record grows by the
        reservation this call made, if it made one. */
    method ExecutePlan(repay: u128, round: Round, pushed: bool, ghost task: nat, ghost before: set<nat>, ghost attempts: seq<Attempt>)
      returns (e: Executed, pushedAfter: bool, ghost made: seq<Attempt>)
      requires Recorded(executor.inventory, task, before, attempts)
      modifies executor.inventory
      ensures Recorded(executor.inventory, task, before, attempts + made)
      ensures e.LostRace? ==> pushedAfter == pushed && made == [] && !executor.dryRun
      ensures e.LostRace? ==> Short(executor.inventory, asset, repay)
      ensures e.Finished? ==> pushedAfter == (pushed || !executor.dryRun)
      ensures e.Finished? ==> e.result == ResultOf(round.answer)
      ensures e.Finished? && executor.dryRun ==> made == []
      ensures e.Finished? && !executor.dryRun ==>
                |made| == 1 && made[0].answer == round.answer && made[0].amount == repay && made[0].serial !in Serials(attempts)
      ensures e == Finished(Ok(Liquidated)) && !executor.dryRun && round.swapped && round.swapRead.Some? ==>
                asset in executor.inventory.inventory && executor.inventory.inventory[asset].balance == round.swapRead.value
    {
      var inventory := executor.inventory;
      made, pushedAfter := [], pushed;
      assert attempts + [] == attempts;
      if executor.dryRun {
        var simulated := executor.ExecuteLiquidation(asset, repay, DryRun, round.answer, false, None, task);
        return Finished(simulated), pushedAfter, [];
      }
      OtherTasks(inventory, task);
      ghost var ledger, owners := inventory.ledger, inventory.owners;
      RecordKept(old(inventory.ledger), old(inventory.owners), ledger, owners, task, before, attempts);
      var granted := inventory.Reserve(asset, repay, task);
      if granted.Refused? {
        return LostRace, pushedAfter, [];
      }
      var result;
      result, pushedAfter := RunReserved(granted.token, repay, round, pushed, task);
      ghost var attempt := Attempt(granted.token.serial, repay, round.answer);
      RecordGrows(ledger, owners, inventory.ledger, inventory.owners, task, before, attempts, attempt);
      made := [attempt];
      e := Finished(result);
    }

    /** The part after the reservation: push prices, unless that was tried, and
        execute. */
    method RunReserved(token: Reservation, repay: u128, round: Round, pushed: bool, ghost task: nat)
      returns (result: Result, pushedAfter: bool)
      requires !executor.dryRun && Covers(token, asset, repay)
      requires executor.inventory.Valid() && executor.inventory.Open(token) && executor.inventory.owners[token.serial] == task
      modifies executor.inventory
      ensures executor.inventory.Valid() && pushedAfter && result == ResultOf(round.answer)
      ensures old(executor.inventory.owners) <= executor.inventory.owners
      ensures forall i :: |old(executor.inventory.owners)| <= i < |executor.inventory.owners| ==> executor.inventory.owners[i] != task
      ensures forall i :: 0 <= i < |old(executor.inventory.owners)| && old(executor.inventory.owners)[i] == task && i != token.serial ==>
                executor.inventory.ledger[i] == old(executor.inventory.ledger)[i]
      ensures executor.inventory.ledger[token.serial] ==
                Token(asset, repay, if round.answer == LANDED_CLEAN then Consumed else Released)
      ensures result.Ok? && round.swapped && round.swapRead.Some? ==>
                asset in executor.inventory.inventory && executor.inventory.inventory[asset].balance == round.swapRead.value
    {
      pushedAfter := pushed;
      if !pushed {
        OtherTasks(executor.inventory, task);
        pushedAfter := RecordPriceUpdateAttempt(round.pushOk);
      }
      result := executor.ExecuteLiquidation(asset, repay, Live(token), round.answer, round.swapped, round.swapRead, task);
    }

    /** Evaluates one iteration: the plan to execute, or the result to stop with. */
    method Decide(round: Round, iteration: nat, maxIterations: nat) returns (m: Move)
      requires iteration > 0
      ensures m.Go? <==> Decided(round, iteration, maxIterations).Some?
      ensures m.Go? ==> Decided(round, iteration, maxIterations) == Some(m.repay)
      ensures m.Halt? ==> m.result == StopWithout(round, iteration, maxIterations)
    {
      var evaluation := EvaluatePosition(round, iteration, maxIterations);
      if evaluation == None {
        return Halt(Err(EvaluationError));
      }
      StopReportsLiquidatedIff(evaluation.value, iteration > 1);
      match MapEvaluation(evaluation.value, iteration > 1) {
        case Break(outcome) => m := Halt(Ok(outcome));
        case Continue(repay) => m := Go(repay);
      }
    }

    /** One turn of the loop. `ok`: the plan was executed or simulated. */
    method Iterate(round: Round, iteration: nat, maxIterations: nat, loopEnabled: bool, pushed: bool,
                   ghost task: nat, ghost before: set<nat>, ghost attempts: seq<Attempt>)
      returns (stop: Option<Result>, executed: bool, ok: bool, pushedAfter: bool, ghost made: seq<Attempt>)
      requires iteration > 0
      requires Recorded(executor.inventory, task, before, attempts)
      modifies executor.inventory
      ensures Recorded(executor.inventory, task, before, attempts + made)
      ensures Turned(round, iteration, maxIterations, loopEnabled, executor.dryRun, pushed, stop, executed, ok, pushedAfter, made)
      ensures !executed && Decided(round, iteration, maxIterations).Some? ==>
                !executor.dryRun && Short(executor.inventory, asset, Decided(round, iteration, maxIterations).value)
    {
      made, pushedAfter, executed, ok := [], pushed, false, false;
      assert attempts + [] == attempts;
      IdleTurn(round, iteration, maxIterations, loopEnabled, executor.dryRun, pushed);
      var move := Decide(round, iteration, maxIterations);
      if move.Halt? {
        stop := Some(move.result);
        return;
      }
      var e;
      e, pushedAfter, made := ExecutePlan(move.repay, round, pushed, task, before, attempts);
      if e.LostRace? {
        stop := Some(Ok(if iteration > 1 then Liquidated else SkippedUnfunded));
        return;
      }
      executed, ok := true, e.result.Ok?;
      if !ok || !loopEnabled {
        stop := Some(e.result);
      } else if !round.refetched {
        // The position is gone or could not be read again.
        stop := Some(Ok(Liquidated));
      } else {
        stop := None;
      }
      ExecutedTurn(round, iteration, maxIterations, loopEnabled, executor.dryRun, pushed, move.repay, e.result, stop, made);
    }

    /** One turn, counted: after `done` clean executions it either stops the run
        with its report, or adds one more. */
    method CountedTurn(script: nat -> Round, done: nat, maxIterations: nat, loopEnabled: bool, pushed: bool, pushesBefore: nat,
                       ghost task: nat, ghost before: set<nat>, ghost attempts: seq<Attempt>)
      returns (stop: Option<Result>, executions: nat, succeeded: nat, pushedAfter: bool, pushes: nat, ghost all: seq<Attempt>)
      requires Recorded(executor.inventory, task, before, attempts)
      requires AtHead(script, done, maxIterations, loopEnabled, executor.dryRun, pushed, pushesBefore, attempts)
      modifies executor.inventory
      ensures Recorded(executor.inventory, task, before, all)
      ensures stop.None? ==> AtHead(script, done + 1, maxIterations, loopEnabled, executor.dryRun, pushedAfter, pushes, all)
      ensures stop.Some? ==> Reported(script, executor.dryRun, loopEnabled, maxIterations, stop.value, executions, succeeded, pushes, all)
      ensures stop.Some? ==> StoppedShort(executor, asset, script, maxIterations, loopEnabled, executions, succeeded)
    {
      var executed, ok;
      ghost var made;
      stop, executed, ok, pushedAfter, made :=
        Iterate(script(done + 1), done + 1, maxIterations, loopEnabled, pushed, task, before, attempts);
      executions := if executed then done + 1 else done;
      succeeded := if ok then done + 1 else done;
      pushes := pushesBefore + if pushedAfter && !pushed then 1 else 0;
      all := attempts + made;
      if stop.None? {
        TurnContinues(script, done, maxIterations, loopEnabled, executor.dryRun, pushed, pushesBefore, attempts, executed, ok, pushedAfter, made);
      } else if executed {
        TurnStopsExecuted(script, done, maxIterations, loopEnabled, executor.dryRun, pushed, pushesBefore, attempts, stop.value, ok, pushedAfter, made);
      } else {
        TurnStopsIdle(script, done, maxIterations, loopEnabled, executor.dryRun, pushed, pushesBefore, attempts, stop.value, ok, pushedAfter, made);
      }
    }

    /** Repeats evaluate and execute until something stops the loop. `script`
        gives each iteration's answers; `executions` counts the plans handed to
        the executor, `succeeded` those it executed or simulated. */
    method Liquidate(script: nat -> Round, ghost task: nat)
      returns (r: Result, executions: nat, succeeded: nat, pushes: nat, ghost attempts: seq<Attempt>)
      requires Settled(executor.inventory, task)
      modifies executor.inventory
      ensures Recorded(executor.inventory, task, OwnTokens(old(executor.inventory.owners), task), attempts)
      ensures Reported(script, executor.dryRun, loopLiquidation && !executor.dryRun,
                       if executor.dryRun then 1 else maxLoopIterations, r, executions, succeeded, pushes, attempts)
      ensures StoppedShort(executor, asset, script, if executor.dryRun then 1 else maxLoopIterations,
                           loopLiquidation && !executor.dryRun, executions, succeeded)
    {
      var loopEnabled := loopLiquidation && !executor.dryRun;
      var maxIterations := if executor.dryRun then 1 else maxLoopIterations;
      var iteration, pricesPushed := 0, false;
      ghost var before := OwnTokens(executor.inventory.owners, task);
      pushes, attempts := 0, [];
      while true
        invariant Recorded(executor.inventory, task, before, attempts)
        invariant AtHead(script, iteration, maxIterations, loopEnabled, executor.dryRun, pricesPushed, pushes, attempts)
        decreases maxIterations - iteration
      {
        var stop;
        stop, executions, succeeded, pricesPushed, pushes, attempts :=
          CountedTurn(script, iteration, maxIterations, loopEnabled, pricesPushed, pushes, task, before, attempts);
        if stop.Some? {
          r := stop.value;
          return;
        }
        iteration := iteration + 1;
      }
    }
  }

  /** If the run went on to an evaluation that came to a plan, it stopped because
      the inventory did not cover the plan. */
  ghost predicate StoppedShort(executor: Executor, asset: Asset, script: nat -> Round, maxIterations: nat,
                               loopEnabled: bool, executions: nat, succeeded: nat)
    reads executor.inventory
  {
    var last := Decided(script(executions + 1), executions + 1, maxIterations);
    GoesOn(script, loopEnabled, executions, succeeded) && last.Some? ==>
      !executor.dryRun && Short(executor.inventory, asset, last.value)
  }

  /** Where the loop stands after `done` executions. */
  ghost predicate AtHead(script: nat -> Round, done: nat, maxIterations: nat, loopEnabled: bool, dryRun: bool,
                         pushed: bool, pushes: nat, attempts: seq<Attempt>) {
    && pushed == (done > 0) && pushes == (if done > 0 then 1 else 0)
    && |attempts| == done <= maxIterations && maxIterations >= 1
    && (done > 0 ==> loopEnabled) && (loopEnabled ==> !dryRun)
    && Answered(attempts, script, maxIterations) && Clean(attempts)
    && Continued(script, done, maxIterations)
  }

  /** What one turn of the loop reports. It executes only what was decided; a
      failure stops the run with its error; after a success the run goes on
      exactly when looping is on and the position was read again. */
  ghost predicate Turned(round: Round, iteration: nat, maxIterations: nat, loopEnabled: bool, dryRun: bool, pushed: bool,
                         stop: Option<Result>, executed: bool, ok: bool, pushedAfter: bool, made: seq<Attempt>) {
    && (!executed ==>
          made == [] && pushedAfter == pushed && stop == Some(StopWithout(round, iteration, maxIterations)))
    && (executed ==> Decided(round, iteration, maxIterations).Some? && pushedAfter == (pushed || !dryRun))
    && (executed ==> |made| == (if dryRun then 0 else 1))
    && (forall a :: a in made ==> Meets(a, round, iteration, maxIterations))
    && (ok <==> executed && (dryRun || round.answer == LANDED_CLEAN))
    && (executed && !ok ==> stop == Some(Err(ErrorOf(round.answer))))
    && (ok ==> stop == if loopEnabled && round.refetched then None else Some(Ok(Liquidated)))
  }

  lemma IdleTurn(round: Round, iteration: nat, maxIterations: nat, loopEnabled: bool, dryRun: bool, pushed: bool)
    ensures Turned(round, iteration, maxIterations, loopEnabled, dryRun, pushed,
                   Some(StopWithout(round, iteration, maxIterations)), false, false, pushed, [])
  {
  }

  lemma ExecutedTurn(round: Round, iteration: nat, maxIterations: nat, loopEnabled: bool, dryRun: bool, pushed: bool,
                     repay: u128, result: Result, stop: Option<Result>, made: seq<Attempt>)
    requires Decided(round, iteration, maxIterations) == Some(repay)
    requires result == if dryRun || round.answer == LANDED_CLEAN then Ok(Liquidated) else Err(ErrorOf(round.answer))
    requires if dryRun then made == [] else |made| == 1 && made[0].answer == round.answer && made[0].amount == repay
    requires stop == if result.Err? || !loopEnabled then Some(result) else if !round.refetched then Some(Ok(Liquidated)) else None
    ensures Turned(round, iteration, maxIterations, loopEnabled, dryRun, pushed, stop, true, result.Ok?, pushed || !dryRun, made)
  {
  }

  /** Another iteration is evaluated: the first, or one after a success that
      read the position again with looping on. */
  ghost predicate GoesOn(script: nat -> Round, loopEnabled: bool, executions: nat, succeeded: nat) {
    executions == 0 || (loopEnabled && succeeded == executions && script(executions).refetched)
  }

  /** The first n iterations each decided on a plan, which landed clean, and
      read the position again. */
  ghost predicate Continued(script: nat -> Round, n: nat, maxIterations: nat) {
    forall k :: 1 <= k <= n ==>
      Decided(script(k), k, maxIterations).Some? && script(k).answer == LANDED_CLEAN && script(k).refetched
  }

  /** What a run reports. Every plan but possibly the last was executed and gone
      on from; the last failed exactly by its answer. If the run went on from
      it, the next evaluation, or a refused reservation, stopped it; if not, the
      last plan's own result is reported. `Liquidated` means exactly that a plan
      was executed; prices are pushed once at most; each live attempt is what its
      iteration decided and met. */
  ghost predicate Reported(script: nat -> Round, dryRun: bool, loopEnabled: bool, maxIterations: nat, r: Result,
                           executions: nat, succeeded: nat, pushes: nat, attempts: seq<Attempt>) {
    && executions <= (if loopEnabled then maxIterations else 1)
    && (executions > 0 ==>
          && Continued(script, executions - 1, maxIterations)
          && Decided(script(executions), executions, maxIterations).Some?
          && succeeded == executions - (if dryRun || script(executions).answer == LANDED_CLEAN then 0 else 1))
    && (executions == 0 ==> succeeded == 0)
    && r == (if GoesOn(script, loopEnabled, executions, succeeded) then StopWithout(script(executions + 1), executions + 1, maxIterations)
             else if succeeded == executions then Ok(Liquidated)
             else Err(ErrorOf(script(executions).answer)))
    && (r.Ok? ==> executions == succeeded && (r.outcome == Liquidated <==> succeeded > 0))
    && pushes == (if dryRun || executions == 0 then 0 else 1)
    && |attempts| == (if dryRun then 0 else executions)
    && Answered(attempts, script, maxIterations)
    && (!dryRun ==> Clean(attempts[..succeeded]))
  }

  lemma TurnContinues(script: nat -> Round, done: nat, maxIterations: nat, loopEnabled: bool, dryRun: bool, pushed: bool, pushes: nat,
                      attempts: seq<Attempt>, executed: bool, ok: bool, pushedAfter: bool, made: seq<Attempt>)
    requires AtHead(script, done, maxIterations, loopEnabled, dryRun, pushed, pushes, attempts)
    requires Turned(script(done + 1), done + 1, maxIterations, loopEnabled, dryRun, pushed, None, executed, ok, pushedAfter, made)
    ensures AtHead(script, done + 1, maxIterations, loopEnabled, dryRun, pushedAfter,
                   pushes + (if pushedAfter && !pushed then 1 else 0), attempts + made)
  {
    AnsweredAppend(attempts, made, script, maxIterations);
    DecidedExactly(script(done + 1), done + 1, maxIterations, Decided(script(done + 1), done + 1, maxIterations).value);
  }

  lemma TurnStopsIdle(script: nat -> Round, done: nat, maxIterations: nat, loopEnabled: bool, dryRun: bool, pushed: bool, pushes: nat,
                      attempts: seq<Attempt>, stop: Result, ok: bool, pushedAfter: bool, made: seq<Attempt>)
    requires AtHead(script, done, maxIterations, loopEnabled, dryRun, pushed, pushes, attempts)
    requires Turned(script(done + 1), done + 1, maxIterations, loopEnabled, dryRun, pushed, Some(stop), false, ok, pushedAfter, made)
    ensures !ok && pushedAfter == pushed && attempts + made == attempts
    ensures Reported(script, dryRun, loopEnabled, maxIterations, stop, done, done, pushes, attempts)
  {
    StopReports(script(done + 1), done + 1, maxIterations);
    assert attempts[..done] == attempts;
  }

  lemma TurnStopsExecuted(script: nat -> Round, done: nat, maxIterations: nat, loopEnabled: bool, dryRun: bool, pushed: bool, pushes: nat,
                          attempts: seq<Attempt>, stop: Result, ok: bool, pushedAfter: bool, made: seq<Attempt>)
    requires AtHead(script, done, maxIterations, loopEnabled, dryRun, pushed, pushes, attempts)
    requires Turned(script(done + 1), done + 1, maxIterations, loopEnabled, dryRun, pushed, Some(stop), true, ok, pushedAfter, made)
    ensures Reported(script, dryRun, loopEnabled, maxIterations, stop, done + 1, if ok then done + 1 else done,
                     pushes + (if pushedAfter && !pushed then 1 else 0), attempts + made)
    ensures !GoesOn(script, loopEnabled, done + 1, if ok then done + 1 else done)
  {
    AnsweredAppend(attempts, made, script, maxIterations);
    DecidedExactly(script(done + 1), done + 1, maxIterations, Decided(script(done + 1), done + 1, maxIterations).value);
    assert (attempts + made)[..|attempts + made|] == attempts + made;
  }

  /** Either way the one attempt per run is spent; a failure is only logged. */
  function RecordPriceUpdateAttempt(ok: bool): bool {
    true
  }

  ghost function OwnTokens(owners: seq<nat>, task: nat): set<nat> {
    set i | 0 <= i < |owners| && owners[i] == task
  }

  ghost function Serials(attempts: seq<Attempt>): set<nat> {
    set a | a in attempts :: a.serial
  }

  /** The attempt submitted what this iteration's evaluation decided to repay,
      and met its answer. */
  ghost predicate Meets(a: Attempt, round: Round, iteration: nat, maxIterations: nat) {
    a.amount <= U128_MAX && a.answer == round.answer && Decided(round, iteration, maxIterations) == Some(a.amount)
  }

  /** Attempt k is that of iteration k + 1. */
  ghost predicate Answered(attempts: seq<Attempt>, script: nat -> Round, maxIterations: nat) {
    forall k :: 0 <= k < |attempts| ==> Meets(attempts[k], script(k + 1), k + 1, maxIterations)
  }

  ghost predicate Clean(attempts: seq<Attempt>) {
    forall a :: a in attempts ==> a.answer == LANDED_CLEAN
  }

  lemma AnsweredAppend(attempts: seq<Attempt>, made: seq<Attempt>, script: nat -> Round, maxIterations: nat)
    requires Answered(attempts, script, maxIterations) && Clean(attempts)
    requires |made| <= 1
    requires forall a :: a in made ==> Meets(a, script(|attempts| + 1), |attempts| + 1, maxIterations)
    ensures Answered(attempts + made, script, maxIterations)
    ensures (attempts + made)[..|attempts|] == attempts
    ensures (forall a :: a in made ==> a.answer == LANDED_CLEAN) ==> Clean(attempts + made)
  {
    var all := attempts + made;
    forall k | 0 <= k < |all| ensures Meets(all[k], script(k + 1), k + 1, maxIterations) {
      if k == |attempts| {
        assert all[k] in made;
      }
    }
  }

  lemma SerialsAppend(attempts: seq<Attempt>, attempt: Attempt)
    ensures Serials(attempts + [attempt]) == Serials(attempts) + {attempt.serial}
  {
  }

  /** A run's record: the tokens its task owns beyond those it had `before`
      are exactly the attempts', none of its task's tokens is unsettled, and
      each attempt's was consumed exactly when its operation succeeded with its
      receipts read and none failed. */
  ghost predicate Recorded(inventory: InventoryManager, task: nat, before: set<nat>, attempts: seq<Attempt>)
    reads inventory
  {
    inventory.Valid() && RecordedIn(inventory.ledger, inventory.owners, task, before, attempts)
  }

  ghost predicate RecordedIn(ledger: seq<Token>, owners: seq<nat>, task: nat, before: set<nat>, attempts: seq<Attempt>) {
    && |ledger| == |owners|
    && (forall i :: 0 <= i < |owners| && owners[i] == task ==> ledger[i].phase !in HELD)
    && OwnTokens(owners, task) == before + Serials(attempts)
    && forall a :: a in attempts ==> a.serial < |owners| && owners[a.serial] == task && AttemptEnded(ledger[a.serial], a)
  }

  ghost predicate AttemptEnded(token: Token, a: Attempt) {
    token.amount == a.amount && token.phase == if a.answer == LANDED_CLEAN then Consumed else Released
  }

  /** What other tasks do leaves a record as it was. */
  lemma RecordKept(ledger: seq<Token>, owners: seq<nat>, ledger': seq<Token>, owners': seq<nat>,
                   task: nat, before: set<nat>, attempts: seq<Attempt>)
    requires RecordedIn(ledger, owners, task, before, attempts)
    requires |ledger'| == |owners'| && owners <= owners'
    requires forall i :: 0 <= i < |owners| && owners[i] == task ==> ledger'[i] == ledger[i]
    requires forall i :: |owners| <= i < |owners'| ==> owners'[i] != task
    ensures RecordedIn(ledger', owners', task, before, attempts)
  {
  }

  /** One more reservation, settled, is one more attempt. */
  lemma RecordGrows(ledger: seq<Token>, owners: seq<nat>, ledger': seq<Token>, owners': seq<nat>,
                    task: nat, before: set<nat>, attempts: seq<Attempt>, attempt: Attempt)
    requires RecordedIn(ledger, owners, task, before, attempts)
    requires |ledger'| == |owners'| && owners + [task] <= owners'
    requires attempt.serial == |owners| && AttemptEnded(ledger'[|owners|], attempt)
    requires forall i :: 0 <= i < |owners| && owners[i] == task ==> ledger'[i] == ledger[i]
    requires forall i :: |owners| < i < |owners'| ==> owners'[i] != task
    ensures RecordedIn(ledger', owners', task, before, attempts + [attempt])
    ensures attempt.serial !in Serials(attempts)
  {
    assert OwnTokens(owners', task) == OwnTokens(owners, task) + {attempt.serial} by {
      assert owners'[|owners|] == (owners + [task])[|owners|];
      assert forall i :: 0 <= i < |owners| ==> owners'[i] == (owners + [task])[i];
    }
    SerialsAppend(attempts, attempt);
  }
}
