# A verified model of the liquidation bot

The bot watches lending-market positions, decides how much of an unhealthy one to repay, commits
borrow-asset inventory to it, pushes fresh oracle prices on-chain, submits the liquidation and may
swap the collateral it receives. This project models the parts of it where a wrong step costs money
or goes unnoticed, and proves what they keep. `dafny verify dfyconfig.toml` checks all of it.

| file | what it models |
|---|---|
| `Sizing.dfy`, `SizingHonesty.dfy`, `Gate.dfy` | the two sizing strategies, their typed declines, the caller's check and the profitability gate |
| `Evaluation.dfy` | from a liquidatable position to a plan, across strategy, caller and gate |
| `Ledger.dfy`, `Inventory.dfy` | the inventory manager's balances, reservations and refreshes, updated in place |
| `Commitment.dfy` | every interleaving of reserve, land, refund, consume, release, refresh and outside spending, with the true chain balance |
| `Refinement.dfy` | the manager's methods are the steps of that model |
| `Execution.dfy` | one position's run: evaluate, reserve, push, execute, settle, loop |
| `DecimalText.dfy`, `DecimalSpelling.dfy`, `Bytes.dfy`, `Payload.dfy` | the decimal scaler and a grammar of the texts it reads, the byte-exact package serializer, signer selection and the on-chain payload |
| `PushMemo.dfy` | the memo that keeps concurrent callers from pushing one feed twice |
| `GatewayCache.dfy` | the shared gateway client with its widening fetch, snapshot and failure backoff |
| `ScanMedian.dfy` | scan-time prices: the median over distinct signers and its guards |
| `Composition.dfy` | batched price composition with the transformer-input cache |
| `Swap.dfy` | the 1-Click swap's phases and the retry loop around it |
| `Notifier.dfy` | failure alerts: cooldown dedup, in-flight limit, drain |

How the source's forms are carried over:

- An object whose methods update fields is a class (`InventoryManager`, `Executor`, `Liquidator`,
  `PushMemory`, `GatewayClient`, `OneClick`, `FailureNotifier`); its methods say their whole new
  state, and what that implies over runs is proved about event sequences.
- An `await` during which other tasks may run is a call of a method about which only its contract is
  known (`OtherTasks`, `OtherCallers`): it may change the shared state arbitrarily, short of what
  ownership of a token forbids.
- Answers of the chain, the gateways, the oracles, the swap venue and the clock are parameters.
  Signature recovery is an unknown function of the signed bytes and the signature.
- Prices are exact positive fractions: a price with the spread taken off is `n/d`, so selling
  converts with `floor(b*d/n)` and buying with `ceil(c*n/d)`.
- The release profile checks integer overflow (`Cargo.toml:107-114`), so a plain `u128` operation
  that leaves its range aborts the process: `Abort` in the sizing functions and in the scan.
- `Reservation` is moved by value in the source and so settles once. Here each token has a serial,
  and a ghost ledger records what became of it and which task owns it.

## Findings

Where the code and a promise of its documentation or design part, the code is modelled as it is and
the exact condition is proved.

- A landed transfer whose receipts cannot be read is settled by `release` (`src/executor.rs:297-310`),
  which counts the spent amount as available until the next refresh. `Commitment.LandedReleaseOvercommits`
  reaches, for any amount, a state that promises it all over an empty account;
  `Commitment.LandedReleaseOvercommitsIff` says exactly when a release does this, whatever drifted before.
- The same `release` settles an operation that did not reach finality and a gateway call that failed
  (`src/executor.rs:391-427`), whose transfer may still land afterwards; to the manager that is outside
  spending. `Commitment.LateLandingOvercommits` is such a run, `Commitment.SpendOvercommitsIff` the exact
  condition. A quiet refresh takes back nothing that is out, but after it no more than that is promised
  beyond the chain (`Commitment.RefreshRestoresCover`, `Commitment.RefreshForgetsDrift`); neither run arises when every answer is final and readable (`Refinement.ToldRunsAreCovered`).
- An `InsufficientInventory` decline promises that topping up clears it, a `NotViable` one that nothing does
  (`src/liquidation_strategy.rs:293-305`). `SizingHonesty.DeclineHonestIff` says for every decline of the
  percentage strategy, on every input, exactly when its reason is right. It fails at four exits:
  zero target, for positions too small at any balance (`SizingHonesty.ZeroTargetMisreports`); zero collateral,
  `NotViable` for a balance that buys no unit although a larger one is sized
  (`SizingHonesty.ZeroCollateralMisreports`); below minimum, both for a cap whose own cost leaves u128
  (`SizingHonesty.UnpricedCapMisreports`) and for a priced cap that no balance in range can buy
  (`SizingHonesty.FarCapMisreports`); and short balance, for an offer below the minimum, which the caller's
  early check turns away, or beyond the largest balance (`SizingHonesty.ShortBalanceMisreports`).
- The fixed-amount strategy blames inventory exactly below its budget, which is right exactly when the
  budget would be sized (`SizingHonesty.FixedDeclineHonestIff`); it need not be
  (`SizingHonesty.FixedBudgetMisreports`).
- The push memo excludes concurrent pushes of a feed exactly as long as nobody asks for a feed that has
  been held for its whole interval (`PushMemo.ExclusiveIffNeverLate`). Nothing in the code bounds a push, and
  for every interval a run in which two callers hold a feed exists (`PushMemo.LatePushesOverlap`).
- A drain counts permits in 32 bits, so being drained means being idle exactly for capacities of at most
  2^32-1 (`Notifier.DrainMeansIdleIff`, `Notifier.LargeCapacityDrainsEarly`).

## Model

| member | source | states |
|---|---|---|
| Sizing.ConversionsAdjoint | src/liquidation_strategy.rs:63-126 | the rounded-down and rounded-up conversions are adjoint: a repay buys at least c collateral iff it covers what c costs |
| Sizing.CostIsLeast | src/liquidation_strategy.rs:111-126 | the cost charged for collateral is the least repay that covers it |
| Sizing.BuffersExact | src/liquidation_strategy.rs:31-61 | the three buffers as inequalities: a cap keeps 97 %, a balance 99.5 %, a repay grows by half a percent |
| Sizing.QuotientRemainderShare | src/liquidator.rs:711-735 | the quotient-and-remainder cap equals floor(balance * percent / 100), and none of its products overflows |
| Sizing.ValidationExact | src/liquidator.rs:722-742 | the caller accepts exactly nonzero amounts within the declared share of the balance |
| Sizing.PartialNeverShort | src/liquidation_strategy.rs:426-536 | on partial markets the percentage strategy never leaves by its insufficient-balance exit |
| Sizing.PercentageSizedSound | src/liquidation_strategy.rs:418-536 | a sized decision pays what its collateral costs, stays within the balance, reaches the minimum, asks within the buffered cap, and passes the caller |
| Sizing.PercentageTakesMost | src/liquidation_strategy.rs:463-492 | on partial markets the request is the largest that fits both the buffered cap and the target, and the offer is its cost with the buffer |
| Sizing.PercentageOfferExact | src/liquidation_strategy.rs:479-492 | on every market the offer is the least repay that covers the collateral, and half a percent of it |
| Sizing.FixedSizedSound | src/liquidation_strategy.rs:617-739 | required repay <= offer <= budget <= balance for every sized fixed-amount decision, which passes the caller |
| Sizing.FixedOfferHeadroom | src/liquidation_strategy.rs:695-712 | the offer exceeds the required repay by exactly half a percent, one unit at least, unless the budget caps it, and never by more |
| Sizing.FixedOfferExact | src/liquidation_strategy.rs:695-712 | with cost the least repay that covers the collateral, the offer is exactly min(cost + max(cost / 200, 1), budget) |
| Sizing.FixedTakesMost | src/liquidation_strategy.rs:661-670 | on partial markets the request is at least what the cap and the discounted budget allow, and never above the cap |
| Sizing.FixedTakesExactly | src/liquidation_strategy.rs:661-672 | on partial markets the request is exactly 99.5 % of the most the budget buys, within 97 % of the cap |
| Sizing.FixedNeverShort | src/liquidation_strategy.rs:722-738 | the fixed strategy's last insufficient-balance exit is unreachable |
| Sizing.FixedBlamesInventoryIff | src/liquidation_strategy.rs:625-739 | the fixed strategy blames inventory iff the balance is below its budget |
| SizingHonesty.SizedIff | src/liquidation_strategy.rs:418-536 | exactly which balances the percentage strategy sizes, in closed form, for every input |
| SizingHonesty.TopUpHelpsIff | src/liquidation_strategy.rs:293-305 | for every input that is not sized, some larger balance is sized iff one computed balance is larger and meets the closed form |
| SizingHonesty.DeclineHonestIff | src/liquidation_strategy.rs:293-305 | for every decline and every input, when the stated reason is right, exit by exit |
| SizingHonesty.BelowMinimumHonestIff | src/liquidation_strategy.rs:75-104 | the below-minimum exit is right iff the market is full, or the cap is priced and reaches the minimum exactly when the best balance's slice of it does |
| SizingHonesty.BelowMinimumHonest | src/liquidation_strategy.rs:75-104 | so it is right whenever the balance that buys the cap stays within u128 |
| SizingHonesty.BelowMinimumFailsTwoWays | src/liquidation_strategy.rs:84-103 | beyond, a wrong NotViable has a cap whose cost leaves u128, and a wrong InsufficientInventory has a priced cap |
| SizingHonesty.UnpricedCapMisreports | src/liquidation_strategy.rs:84-103 | an input of the first kind |
| SizingHonesty.FarCapMisreports | src/liquidation_strategy.rs:84-103 | an input of the second kind, past the caller's early check |
| SizingHonesty.TopUpIsLeast | src/liquidation_strategy.rs:428-430 | the top-up balance is the least whose target reaches a repay |
| SizingHonesty.ZeroTargetHonestIff | src/liquidation_strategy.rs:432-441 | the zero-target decline is right iff the best balance sizes |
| SizingHonesty.ZeroTargetMisreports | src/liquidation_strategy.rs:432-441 | an input that no balance would ever help |
| SizingHonesty.ZeroCollateralHonestIff | src/liquidation_strategy.rs:471-477 | the zero-collateral decline is right iff the best balance does not size |
| SizingHonesty.ZeroCollateralMisreports | src/liquidation_strategy.rs:471-477 | an input, past the early check, called not viable and sized at a larger balance |
| SizingHonesty.ConversionDeclinesAreHonest | src/liquidation_strategy.rs:450-489 | a failed conversion fails for every larger balance too |
| SizingHonesty.ShortBalanceHonestIff | src/liquidation_strategy.rs:491-513 | the short-balance decline is right iff the offer reaches the minimum and, as a balance, stays in range |
| SizingHonesty.ShortBalanceMisreports | src/liquidation_strategy.rs:491-513 | inputs of both kinds, the second past the early check |
| SizingHonesty.EarlyCheckLosesNothing | src/liquidator.rs:1036-1047 | a balance below the market minimum is never sized by either strategy |
| SizingHonesty.FixedSizedIff | src/liquidation_strategy.rs:617-739 | exactly which budgets and balances the fixed strategy sizes, in closed form |
| SizingHonesty.FixedDeclineHonestIff | src/liquidation_strategy.rs:617-739 | for every decline and input: inventory is blamed iff the balance is below the budget, and rightly iff the budget would be sized |
| SizingHonesty.FixedBudgetMisreports | src/liquidation_strategy.rs:632-644 | an input where it is blamed wrongly |
| SizingHonesty.ExitsAreReachable | src/liquidation_strategy.rs:418-739 | concrete inputs that are sized and that leave by the exits spoken of |
| Gate.GateExact | src/liquidation_strategy.rs:233-251 | the gate accepts iff 10,000 * value >= (cost + gas) * (10,000 + margin) and that product fits, for every input |
| Gate.UnbufferedExact | src/liquidator.rs:1150-1153 | taking the buffer off gives back the repay when it is a multiple of 200, one unit less otherwise |
| Gate.UnbufferedSaturates | src/liquidator.rs:1150-1153 | above u128::MAX / 10,000 the gate is fed one constant below the offer |
| Gate.UnbufferedBelow | src/liquidator.rs:1150-1153 | taking the buffer off never leaves more than the repay, saturated or not |
| Gate.GateOnSizedOffer | src/liquidator.rs:1124-1175 | for every sized offer: a plan that earns the margin on the whole repay and can be scaled is accepted; an accepted one earns it on all but one unit, or, for offers above u128::MAX / 10,000, on u128::MAX / 10,050 and only for margins up to 50 |
| Gate.UnbufferedFixed | src/liquidator.rs:1150-1153 | of a fixed-amount offer the gate is fed at most the cost, and at least all but one unit of it, or 200/201 of it when the budget caps the offer |
| Gate.GateOnFixedOffer | src/liquidator.rs:1124-1175 | the same bracket for every sized fixed-amount offer |
| Evaluation.CallerNeverOverrules | src/liquidator.rs:1009-1121 | a position is sized for execution iff the built-in strategy sizes it, with the same repay |
| Evaluation.SizedCanBeReserved | src/liquidator.rs:1029-1034 | what was sized against an entry can be reserved from that entry |
| Evaluation.PlanIsSound | src/liquidator.rs:1292-1340 | a plan reaching execution covers its collateral's cost, fits the balance, reaches the minimum and earns its margin |
| Evaluation.AssessExact | src/liquidator.rs:1124-1175 | unpriceable iff a conversion is missing; a plan iff the value covers the unbuffered offer and the gas with the margin, in exact arithmetic that fits |
| Evaluation.PlannedIff | src/liquidator.rs:1292-1340 | a liquidatable position comes to a plan iff the budget of iterations allows it, the strategy sizes it and the gate accepts |
| Evaluation.UnfundedIff | src/liquidator.rs:1315-1325 | a first iteration is unfunded iff the balance is below the minimum or the strategy blames inventory |
| Evaluation.EveryAttemptIsSound | src/liquidator.rs:1564-1677 | over a whole run of the loop, every amount submitted was sized and gated soundly for what its own iteration was evaluated on |
| Inventory.ReserveThenRelease | src/inventory.rs:54-91 | reserving never saturates, lowers the available amount exactly, and release or consume undoes it exactly |
| Inventory.InventoryManager.constructor | src/inventory.rs:138-150 | a new manager tracks nothing and owes nothing |
| Inventory.InventoryManager.DiscoverAssets | src/inventory.rs:166-195 | unknown assets start empty, known entries are untouched |
| Inventory.InventoryManager.Reserve | src/inventory.rs:406-426 | granted iff the asset is tracked and the amount available; the whole new state, and the error's figures |
| Inventory.InventoryManager.Release | src/inventory.rs:449-457 | the token's amount leaves the reserved total, a foreign token changes nothing, totals stay the sums of unsettled tokens |
| Inventory.InventoryManager.Consume | src/inventory.rs:464-472 | balance and reservation fall together, the balance stopping at zero; totals stay the sums |
| Inventory.InventoryManager.RefreshAsset | src/inventory.rs:335-348 | a readable tracked asset takes the read balance and keeps its reservations |
| Inventory.InventoryManager.RefreshAll | src/inventory.rs:257-292 | every tracked asset is updated from its own answer or left, and the count is of those that answered |
| Inventory.InventoryManager.Refresh | src/inventory.rs:238-324 | a full refresh, or nothing at all within the minimum interval |
| Commitment.StepKeepsBooks | src/inventory.rs:54-97 | any event keeps the reserved totals equal to the sums of the unsettled tokens |
| Commitment.StepKeepsCover | src/inventory.rs:54-97 | any event keeps reservations and recorded balances covered, up to what it does behind the accounting's back |
| Commitment.EveryRunAccounted | src/inventory.rs:238-347 | in every interleaving the books are kept, and the cover is lost by at most the run's own drift |
| Commitment.CommitmentsCovered | src/inventory.rs:406-472 | with the bot the only spender and only unlanded tokens released, unlanded reservations never exceed the chain balance |
| Commitment.OvercommitIff | src/inventory.rs:406-426 | the manager can promise more than the chain holds iff unlanded plus available exceeds it |
| Commitment.OvercommitIffUncovered | src/inventory.rs:406-426 | that is, iff the cover is not whole |
| Commitment.LandedReleaseOvercommitsIff | src/executor.rs:297-310 | releasing a landed token lets it overcommit iff too much was out already or the recorded balance has not caught up with the landing |
| Commitment.SpendOvercommitsIff | src/executor.rs:391-427 | so does a late landing, iff it takes more than the chain holds beyond what is out or than what backs the recorded balance |
| Commitment.LandedReleaseOvercommits | src/executor.rs:297-310 | a run, for any asset and amount, that promises all of it over an empty account |
| Commitment.LateLandingOvercommits | src/executor.rs:391-427 | another, through a token released before its transfer landed |
| Commitment.RefreshRestoresCover | src/inventory.rs:238-324 | after an undisturbed refresh nothing beyond the chain can be promised unless more was already out |
| Commitment.RefreshForgetsDrift | src/inventory.rs:238-324 | drift does not outlive such a refresh, whatever ran before |
| Refinement.Reserve | src/inventory.rs:406-426 | the manager grants exactly the reservations the interleaving model allows, and ends in its next state |
| Refinement.Release | src/inventory.rs:449-457 | a release is the model's release event |
| Refinement.Consume | src/inventory.rs:464-472 | a consume is the model's consume event |
| Refinement.Update | src/inventory.rs:335-348 | the update half of a refresh is the model's update event |
| Refinement.Discover | src/inventory.rs:166-189 | discovery is the model's discovery event |
| Refinement.OutsideEventsKeep | src/inventory.rs:255-292 | landings, chain reads and other spending between them leave the manager in step with the model |
| Refinement.ToldRunsAreClean | src/executor.rs:276-429 | a run whose tokens are settled by their answers is clean if every answer is final and readable |
| Refinement.ToldRunsAreCovered | src/executor.rs:276-429 | and then its unlanded reservations are covered by the chain |
| Execution.Executor.ExecuteLiquidation | src/executor.rs:160-429 | on every path a run's own token ends settled, consumed iff submitted and landed clean; other own tokens untouched; the exact result; the balance read after a swap recorded |
| Execution.Executor.Submit | src/executor.rs:262-429 | gateway and receipt answers decide between consume and release whatever other tasks do meanwhile |
| Execution.StopReportsLiquidatedIff | src/liquidator.rs:639-694 | a stop reports Liquidated iff something was liquidated before it |
| Execution.FirstStopNamesItsCause | src/liquidator.rs:639-694 | on a first iteration each outcome holds iff a named answer of the chain, the sizing or the gate came, and the spent-budget exit cannot occur |
| Execution.DecidedExactly | src/liquidator.rs:1292-1340 | an iteration comes to a plan iff it is within the budget, liquidatable, sized and accepted, and for what was sized |
| Execution.ErrorsNameTheirCause | src/executor.rs:276-429 | each error of a submission iff one kind of gateway or receipt answer |
| Execution.Liquidator.ExecutePlan | src/liquidator.rs:1344-1422 | reserve, push at most once, execute; the race is lost only to an inventory that does not cover the amount, and moves nothing; the record grows by exactly the reservation made; the balance read after a swap is recorded |
| Execution.Liquidator.RunReserved | src/liquidator.rs:1380-1419 | a reserved plan pushes if nobody has, executes, and leaves its token settled by the answer |
| Execution.Liquidator.Decide | src/liquidator.rs:1506-1544 | a plan iff one was decided, for its amount, or the mapped stop |
| Execution.Liquidator.Iterate | src/liquidator.rs:1586-1676 | what one turn executes and reports: after a success it goes on iff looping is on and the position was read again; a plan is left unexecuted only when the inventory does not cover it |
| Execution.Liquidator.Liquidate | src/liquidator.rs:1564-1677 | terminates within the budget; after every clean execution that read the position again another iteration is evaluated, and whatever follows decides the report, which is determined; Ok is Liquidated iff something was executed; no own reservation is left unsettled and each was consumed iff it landed clean; one push at most |
| Execution.RecordGrows | src/liquidator.rs:1684-1688 | a settled reservation of this run extends the record; nothing another task does can |
| Execution.Liquidator.CountedTurn | src/liquidator.rs:1586-1676 | one turn of the loop ends the run with its exact report or adds one clean execution that goes on |
| DecimalText.ScaledIsRounded | src/redstone_push.rs:79-110 | whenever the scaler answers, the answer is the denoted number times 10^8 rounded half up |
| DecimalText.EqualNumbersScaleEqually | src/redstone_push.rs:79-110 | two texts that denote one number scale alike |
| DecimalText.PaddingDenotesTheSame | src/redstone_push.rs:81-110 | leading and trailing zeros do not change what is denoted |
| DecimalText.PointMovesWithExponent | src/redstone_push.rs:81-110 | moving the point is changing the exponent |
| DecimalText.PlainTextAnswers | src/redstone_push.rs:81-110 | a plain decimal of at most eight places whose scaled value fits is answered, exactly |
| DecimalText.PrintedScalesBack | src/redstone_push.rs:79-110 | printing n at eight decimals and scaling returns n, for every u128 |
| DecimalText.CharacterClasses | src/redstone_push.rs:82-100 | which characters count as digits and as white space, listed |
| DecimalSpelling.SpellingParses | src/redstone_push.rs:81-100 | every number as written (white space, digits around one point, an exponent with its mark and sign) is read as what it means |
| DecimalSpelling.ParsedIsSpelled | src/redstone_push.rs:81-100 | every text that is read is one of these |
| DecimalSpelling.ParseIff | src/redstone_push.rs:81-100 | so the parser accepts exactly the grammar, each text as what it means |
| DecimalSpelling.ScaledSpelling | src/redstone_push.rs:79-110 | an answer is the written number times 10^8, rounded half up |
| DecimalSpelling.EqualSpellingsScaleEqually | src/redstone_push.rs:79-110 | one number written plainly, with zeros or with an exponent scales alike |
| DecimalSpelling.AnsweredIff | src/redstone_push.rs:97-110 | a written number is answered iff its digits, raised or lowered to eight decimals, stay within u128 |
| DecimalSpelling.OnlySpellingsScale | src/redstone_push.rs:79-100 | a text outside the grammar is refused |
| DecimalSpelling.ExponentMeans | src/redstone_push.rs:84-89 | n with an exponent k, in either case and with any sign, denotes n * 10^k, or n over 10^k after a minus |
| DecimalSpelling.ExponentScales | src/redstone_push.rs:79-110 | such a text is answered iff its shifted digits fit, with n * 10^(8+k) or n * 10^(8-k) rounded half up |
| DecimalSpelling.KnownExponents | src/redstone_push.rs:400 | 1e-7 scales to 10, and 25E-1 to 250,000,000 |
| Payload.SerializePackage | src/redstone_push.rs:182-200 | the signed bytes, 77 of them, or nothing for a long id or an unscalable value |
| Payload.PackageRoundTrip | src/redstone_push.rs:184-200 | decoding one package gives its padded id, scaled value, timestamp and signature |
| Payload.PayloadRoundTrip | src/redstone_push.rs:264-281 | reading a payload backwards from its marker gives the packages written, in order |
| Payload.TimestampKept | src/redstone_push.rs:194 | a timestamp below 2^48 loses nothing |
| Payload.UsableSigner | src/redstone_push.rs:239-253 | the signer is counted iff the package is in the window, recovers to its claim and the claim is in the set |
| Payload.UsableExactly | src/redstone_push.rs:239-253 | usable iff at most the delay old, at most the allowance ahead, writable, signed by its claimed signer over its own bytes, and that signer in the set |
| Payload.AcceptPackages | src/redstone_push.rs:236-258 | a feed contributes candidates in order, distinct usable signers, as many as there are up to the threshold |
| Payload.AppendPackages | src/redstone_push.rs:266-276 | one feed's packages are appended; refused iff the 16-bit count overflows |
| Payload.BuildPayload | src/redstone_push.rs:219-281 | succeeds iff every feed is supplied and the count fits; the payload decodes to what each feed contributed; a refusal names the first feed that is missing or short, with its figures, or a count that overflows |
| Payload.BuildableExactly | src/redstone_push.rs:219-281 | for a threshold of at least one: buildable iff every feed has a threshold of usable signers and threshold times feeds fits 16 bits, then exactly threshold packages each |
| PushMemo.PushMemory.ReserveDue | src/redstone_push.rs:305-322 | grants the due feeds, stamps exactly those, and leaves none of the asked feeds due |
| PushMemo.DueFeedsInOrder | src/redstone_push.rs:283-304 | the due feeds keep the caller's order |
| PushMemo.PushMemory.Release | src/redstone_push.rs:324-334 | forgets exactly the given feeds of the adapter |
| PushMemo.PushMemory.UpdateRedstonePrices | src/oracle.rs:530-617 | writes iff the payload for the due feeds can be built, and then exactly that payload; ends by stamping them with the landing or forgetting them, whatever others did |
| PushMemo.StepKeepsExclusive | src/oracle.rs:554-617 | one event keeps holders exclusive iff it does not ask for a key held for the interval |
| PushMemo.ExclusiveIffNeverLate | src/oracle.rs:554-617 | in any run at most one caller holds a feed at every moment iff no reservation is ever late |
| PushMemo.LatePushesOverlap | src/oracle.rs:554-617 | for every adapter, feed and interval, a run in which two callers hold the feed |
| PushMemo.PromptPushesExclude | src/oracle.rs:554-617 | if pushes end within the adapter's interval, at most one caller holds a feed at a time |
| PushMemo.GrantedAgain | src/redstone_push.rs:283-334 | a feed is granted again only after its push was settled, and the interval after its landing |
| GatewayCache.GatewayClient.Fetch | src/redstone.rs:390-414 | the first gateway to answer decides; failing takes all of them, in order |
| GatewayCache.GatewayClient.Packages | src/redstone.rs:348-388 | reply and whole new state of a call |
| GatewayCache.StateRemembers | src/redstone.rs:248-263 | the state is exactly the last success, the last fetch if it failed, and every feed ever asked for |
| GatewayCache.CallsDecideReplies | src/redstone.rs:348-388 | the calls decide every reply and state |
| GatewayCache.FetchesExactlyWhen | src/redstone.rs:348-388 | a call fetches iff the last success does not serve it and no recent failure is replayed to it, and then asks for every feed ever wanted |
| GatewayCache.CachedAnswersAreFresh | src/redstone.rs:359-366 | an answer without a fetch is the last success's, younger than the TTL and covering the caller |
| GatewayCache.OnlyScansSeeReplayedErrors | src/redstone.rs:334-346 | a replayed error goes only to scans, within the backoff of the last fetch |
| GatewayCache.RefetchAsksMore | src/redstone.rs:359-371 | a fetch within the TTL of the last success asks for strictly more |
| ScanMedian.SortedUnique | src/redstone.rs:514-515 | sorting has one result |
| ScanMedian.CollectSamples | src/redstone.rs:497-510 | one value and one timestamp per signer, the first readable |
| ScanMedian.CountedOncePerSigner | src/redstone.rs:497-510 | no signer counts twice and every signer with a readable package counts |
| ScanMedian.CountedAreFirst | src/redstone.rs:497-510 | what counts of a signer is its first readable package |
| ScanMedian.ScanOne | src/redstone.rs:497-549 | one feed's price, reason for skipping, or abort |
| ScanMedian.ScanPrices | src/redstone.rs:486-560 | exactly the asked, served and priced symbols appear, each with its own feed's price |
| ScanMedian.GuardsExact | src/redstone.rs:525-549 | which medians and timestamps the guards let through, exactly |
| ScanMedian.SkipsExact | src/redstone.rs:525-549 | and for each reason which ones it turns away, and which abort on a clock far before the epoch |
| ScanMedian.MiddleOfMajority | src/redstone.rs:516-524 | in a sorted list, an element with at most half on either side lies where a strict majority lies |
| ScanMedian.OddMedianRank | src/redstone.rs:516-519 | for odd counts the median value is the least with half the values at or below it |
| ScanMedian.StampRank | src/redstone.rs:532 | a quote's stamp is at most t iff half the counted stamps are |
| ScanMedian.PriceFollowsMajority | src/redstone.rs:469-473 | a price lies in any interval that holds a strict majority of the counted values, even counts and rounding included |
| ScanMedian.TimeFollowsMajority | src/redstone.rs:469-473 | so does its publish time for the timestamps |
| ScanMedian.MajorityIsPriced | src/redstone.rs:486-560 | a majority of usable values and one of timely stamps suffice for a price |
| ScanMedian.StaleMajorityIsNotPriced | src/redstone.rs:475-480 | a stale majority is never priced |
| ScanMedian.HalfStaleIsNotPriced | src/redstone.rs:475-480 | nor is a feed exactly half of whose stamps are stale |
| ScanMedian.FutureMajorityIsNotPriced | src/redstone.rs:475-480 | nor is a majority dated beyond the allowed skew |
| ScanMedian.EvenMedianRoundsHalfUp | src/redstone.rs:516-524 | for even counts the median is the middle two's mean rounded half up |
| ScanMedian.OrderIndependent | src/redstone.rs:497-549 | with one package per signer the result does not depend on their order |
| Composition.FreshIffWithinBounds | src/oracle.rs:83-101 | fresh iff between max_age old and 30 seconds ahead; the overflow guard never changes that |
| Composition.LegsDecide | src/oracle.rs:142-155 | a source is worth something only through its own configured leg, and then what that leg answers, put through its transformer if it has one |
| Composition.CollectOffchainWants | src/oracle.rs:157-186 | the want-lists hold exactly the requests of some candidate |
| Composition.BatchServes | src/oracle.rs:1065-1079 | the batched reads answer every candidate as asking alone would |
| Composition.PriceOneCandidate | src/oracle.rs:981-1040 | a candidate's price through the cache is its price alone; the cache stays truthful and free of repeats |
| Composition.ComposeFeed | src/oracle.rs:1084-1117 | one feed's loop is the first fresh candidate |
| Composition.ComposeProxyPricesOffchain | src/oracle.rs:1042-1135 | the batched round gives every feed what trying its configured sources one by one gives, for any clock, with no view call made twice |
| Composition.PlansAgree | src/oracle.rs:188-215 | planning drops only sources that could not have been priced |
| Composition.FirstFreshIsFirst | src/oracle.rs:1042-1047 | that price is the first configured source's that is priced and fresh when judged; none iff there is none |
| Composition.CoveredMarketsAreAdmitted | src/oracle.rs:217-232 | a market whose round covers every feed is one registration admits |
| Swap.OneClick.RequestQuote | src/swap/oneclick.rs:487-528 | a quote or a pre-deposit error, which one by status and body, retryable iff sending failed or the venue was busy or broken |
| Swap.OneClick.FundAccount | src/swap/oneclick.rs:689-752 | an implicit account must be funded; which error each answer gives; only an on-chain failure is not retryable |
| Swap.OneClick.EnsureStorageDeposit | src/swap/oneclick.rs:567-641 | registration needs reasonable bounds and an answered submission, whatever its status; which error each answer gives |
| Swap.OneClick.CheckDepositRefunded | src/swap/oneclick.rs:911-968 | a refund is reported iff some transfer event goes to the deposit address and some comes from it to us |
| Swap.OneClick.DepositTokens | src/swap/oneclick.rs:646-904 | exactly one transfer is submitted iff every earlier step passed; errors are pre-deposit iff none was; Definitive iff reverted or refunded |
| Swap.OneClick.PollSwapStatus | src/swap/oneclick.rs:1051-1233 | the first terminal status among the polls that fit 240 seconds, or none |
| Swap.OneClick.Run | src/swap/oneclick.rs:1308-1376 | pre-deposit iff no transfer was submitted, with the error of the first failed step; Ok iff the deposit stands and settled as a success; Definitive iff reverted, refunded in the logs or refunded by the venue |
| Swap.OneClick.SwapWithRetry | src/swap/retry.rs:300-341 | over the whole loop at most one transfer is submitted, and none iff the result is pre-deposit; only retryable errors are retried |
| Swap.ExplainedOutcomesAgree | src/swap/mod.rs:114-130 | the classification leaves no choice: what venue, gateway and chain answer determines the outcome |
| Swap.FirstErrorRetryable | src/swap/retry.rs:71-78 | the first step that fails before the transfer decides whether to retry |
| Swap.SettledOnce | src/swap/oneclick.rs:1051-1233 | at most one status is the first terminal one |
| Swap.DoneNeedsSettlement | src/swap/mod.rs:84-103 | Ok is never a partial, failed or refunded settlement |
| Swap.ScanMeetsOrderIff | src/swap/oneclick.rs:931-966 | the scan and its comment's order, out and later back, agree except iff both are seen and the last transfer back is not later than the first one out |
| Swap.OneShotAddressKeepsOrder | src/swap/oneclick.rs:931-966 | for a deposit address that begins empty and pays only what it holds they always agree |
| Swap.EarlierReturnCountsAsRefund | src/swap/oneclick.rs:931-966 | logs outside that bookkeeping on which they differ |
| Notifier.FailureNotifier.constructor | src/notifier.rs:424-437 | a capacity of zero is taken as one |
| Notifier.FailureNotifier.SpawnSend | src/notifier.rs:616-629 | queued iff there is room or no channel, taking one permit |
| Notifier.FailureNotifier.ShouldSendFailure | src/notifier.rs:549-569 | sends iff no unexpired entry of the key remains after collection, and then records it |
| Notifier.FailureNotifier.NotifyLiquidationFailed | src/notifier.rs:502-535 | suppressed, queued or dropped, with a dropped alert leaving no entry |
| Notifier.FailureNotifier.ClearFailureDedupFor | src/notifier.rs:540-544 | forgets every kind of one borrower on one market and nothing else |
| Notifier.FailureNotifier.Drain | src/notifier.rs:458-469 | with a channel, drained iff the capacity, counted in 32 bits, is free |
| Notifier.DrainMeansIdleIff | src/notifier.rs:458-469 | that means nothing is in flight iff the capacity is at most 2^32-1 |
| Notifier.LargeCapacityDrainsEarly | src/notifier.rs:458-469 | a capacity and a send in flight that is reported drained |
| Notifier.SuppressedExactlyWhen | src/notifier.rs:496-569 | an alert is suppressed iff one of its key was accepted within the cooldown with no recovery of the borrower since |
| Notifier.AcceptedAlertsAreApart | src/notifier.rs:496-569 | accepted alerts of one key are a cooldown apart unless the borrower recovered between |
| Notifier.InFlightIsOutstanding | src/notifier.rs:616-629 | sends in flight are the queued messages not yet done, never above the capacity |
| Notifier.DroppedExactlyWhenFull | src/notifier.rs:616-629 | a message is dropped iff the capacity's worth is outstanding |

## Left out

- SizingHonesty.BelowMinimumHonest: the special case of `BelowMinimumHonestIff`, which has no range condition.
- Swap.OneShotAddressKeepsOrder: takes the gateway's log entries to be in execution order and the deposit address to begin empty; neither is checked by the code.
- Execution.Liquidator.Liquidate: takes each iteration's answers as given, linked to sizing and gate by `Evaluation.EveryAttemptIsSound`; the loop counter's overflow past 2^32-1 iterations and the cumulative totals, which only feed logs, are not modelled.
- Swap.OneClick.CheckDepositRefunded: says whether a refund is seen; its amount only appears in a message, and adding up a transfer's amounts cannot overflow here.
- Notifier.FailureNotifier.NotifyLiquidationFailed: is one step; alerts of one key come one after the other from one market's loop, so a rollback cannot meet another call with its key.
- `templar_common`'s decimals, status and liquidatable-collateral computations: prices are exact fractions and their results are given.
- Floating-point code (USD conversions, profitability estimates, formatting): converted amounts are given.
- JSON, base64 and hex parsing: packages, log events and status answers start parsed.
- Keccak and ECDSA: `Recovery` is an unknown function, so nothing is said about forging signatures.
- A task cancelled in mid-await and a poisoned lock: tasks run to completion and locks are taken.
- A transfer landing after its token was released is not an event of its own in `Commitment`: it is a `Spend`.
- Collateral holdings, metrics, health, configuration, scanning and pagination, registry admission, message texts, and pushes to Pyth adapters: plumbing, or only easy facts.
- The wait inside a drain: it is judged by the sends done when its timeout ends, not by the order of waiting senders.
