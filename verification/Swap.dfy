// A 1-Click swap of src/swap/oneclick.rs and the retry loop of
// src/swap/retry.rs around it. What the venue, the gateway and the chain answer
// is a script; the provider's counter of submitted token transfers is what the
// phase split is about.

module Swap {
  import opened Foundations

  type AccountId = nat

  const POLL_INTERVAL_SECONDS: nat := 10
  const MAX_SWAP_WAIT_SECONDS: nat := 240

  datatype PreKind =
    | AmountTooLow
    | QuoteFailed
    | NetworkError
    | ServerError
    | RateLimited
    | ValidationError
    | Timeout
    | Unknown

  datatype PostKind = Indeterminate | Definitive

  datatype Result = Done | Pre(pre: PreKind) | Post(post: PostKind)

  predicate PreRetryable(k: PreKind) {
    k.NetworkError? || k.ServerError? || k.RateLimited? || k.Timeout?
  }

  predicate Retryable(r: Result) {
    r.Pre? && PreRetryable(r.pre)
  }

  // ---------- what the world answers ----------

  datatype OperationStatus = Succeeded | Failed | Pending | InProgress

  datatype Execution = NoAnswer(timeout: bool) | Ended(status: OperationStatus)

  datatype QuoteAnswer =
    | Unsent
    | Status(code: nat, tooLow: bool, noQuote: bool)
    | Unparseable
    | Quoted(amountParses: bool, addressParses: bool, address: AccountId)

  datatype AccountType = Named | NearImplicit | EthImplicit | Deterministic

  datatype Bounds = Unread(timeout: bool) | Minimum(deposit: nat)

  datatype Transfer = Transfer(from: Option<AccountId>, to: Option<AccountId>, amount: nat)

  /** A parsed log event; `isTransfer` for the two transfer standards. */
  datatype Event = Event(isTransfer: bool, transfers: seq<Transfer>)

  /** A log that is no event envelope is `None`. */
  type Logs = seq<Option<Event>>

  datatype SwapStatus =
    | Success
    | FailedSwap
    | Refunded
    | IncompleteDeposit
    | PendingDeposit
    | KnownDepositTx
    | Processing

  datatype Script = Script(
    quote: QuoteAnswer,
    accountType: AccountType,
    funding: Execution,
    nep141: bool,
    bounds: Bounds,
    storage: Execution,
    transfer: Execution,
    txHash: bool,
    logs: Option<Logs>,
    notified: bool,
    polls: nat -> Option<SwapStatus>)

  const MAX_REASONABLE_DEPOSIT: nat := 100_000_000_000_000_000_000_000

  function FromResponse(code: nat, tooLow: bool, noQuote: bool): PreKind {
    if tooLow then AmountTooLow
    else if noQuote then QuoteFailed
    else if code == 429 then RateLimited
    else if 400 <= code <= 499 then ValidationError
    else if 500 <= code <= 599 then ServerError
    else Unknown
  }

  // ---------- what the outcome should be ----------

  predicate QuoteUsable(s: Script) {
    s.quote.Quoted? && s.quote.amountParses
  }

  predicate AddressUsable(s: Script) {
    s.quote.Quoted? && s.quote.addressParses && s.accountType != Deterministic
  }

  predicate AccountReady(s: Script) {
    s.accountType.NearImplicit? ==> s.funding == Ended(Succeeded)
  }

  predicate StorageReady(s: Script) {
    s.nep141 ==> s.bounds.Minimum? && s.bounds.deposit <= MAX_REASONABLE_DEPOSIT && s.storage.Ended?
  }

  /** Every step before the token transfer went through. */
  predicate TransferReached(s: Script) {
    QuoteUsable(s) && AddressUsable(s) && AccountReady(s) && StorageReady(s)
  }

  predicate Sends(t: Transfer, deposit: AccountId) {
    t.to == Some(deposit)
  }

  predicate Returns(t: Transfer, deposit: AccountId, us: AccountId) {
    t.from == Some(deposit) && t.to == Some(us)
  }

  ghost predicate SomeTransfer(logs: Logs, test: Transfer -> bool) {
    exists i, j :: 0 <= i < |logs| && logs[i].Some? && logs[i].value.isTransfer
                   && 0 <= j < |logs[i].value.transfers| && test(logs[i].value.transfers[j])
  }

  /** The logs show the deposit going out and something coming back. */
  ghost predicate RefundSeen(logs: Logs, deposit: AccountId, us: AccountId) {
    && SomeTransfer(logs, t => Sends(t, deposit))
    && SomeTransfer(logs, t => Returns(t, deposit, us))
  }

  /** Statuses from which a swap does not move on. */
  const TERMINAL: set<SwapStatus> := {Success, FailedSwap, Refunded, IncompleteDeposit}

  predicate Settles(poll: Option<SwapStatus>) {
    match poll
    case None => false
    case Some(status) => !(status.PendingDeposit? || status.KnownDepositTx? || status.Processing?)
  }

  const POLLS: nat := MAX_SWAP_WAIT_SECONDS / POLL_INTERVAL_SECONDS

  /** The first terminal status among the polls within the longest wait is this one. */
  ghost predicate SettledAs(polls: nat -> Option<SwapStatus>, status: SwapStatus) {
    exists k :: 1 <= k && k * POLL_INTERVAL_SECONDS <= MAX_SWAP_WAIT_SECONDS && polls(k) == Some(status) && status in TERMINAL
                && forall j :: 1 <= j < k ==> polls(j).None? || polls(j).value !in TERMINAL
  }

  /** The transfer ran and moved the tokens, as far as a final status and a
      transaction hash can say. */
  predicate TransferTracked(s: Script) {
    s.transfer == Ended(Succeeded) && s.txHash
  }

  ghost predicate RefundInLogs(s: Script, us: AccountId) {
    s.quote.Quoted? && s.logs.Some? && RefundSeen(s.logs.value, s.quote.address, us)
  }

  /** The deposit stands and the venue knows of it. */
  ghost predicate DepositStands(s: Script, us: AccountId) {
    TransferReached(s) && TransferTracked(s) && !RefundInLogs(s, us) && s.notified
  }

  /** What the first step that did not go through says, when the transfer was not
      reached: quote, deposit address, account, then storage. */
  function FirstError(s: Script): PreKind
    requires !TransferReached(s)
  {
    match s.quote
    case Unsent => NetworkError
    case Status(code, tooLow, noQuote) => FromResponse(code, tooLow, noQuote)
    case Unparseable => ValidationError
    case Quoted(_, _, _) =>
      if !QuoteUsable(s) || !AddressUsable(s) then ValidationError
      else if !AccountReady(s) then
        if s.funding == Ended(Failed) then Unknown else if s.funding.Ended? then Timeout else NetworkError
      else if s.bounds.Unread? then TimeoutOr(s.bounds.timeout)
      else if s.bounds.deposit > MAX_REASONABLE_DEPOSIT then ValidationError
      else TimeoutOr(s.storage.timeout)
  }

  function TimeoutOr(timeout: bool): PreKind {
    if timeout then Timeout else NetworkError
  }

  /** Which of these are worth retrying. */
  lemma FirstErrorRetryable(s: Script)
    requires !TransferReached(s)
    ensures PreRetryable(FirstError(s)) <==> Transient(s)
  {
  }

  /** What one run may report: `Pre` exactly when no transfer was submitted, with
      the first error;
      `Done` exactly on a standing deposit that settled as a success;
      `Definitive` exactly when the transfer reverted, its refund is in the
      logs, or the venue says it refunded. */
  ghost predicate Explains(s: Script, us: AccountId, r: Result) {
    && (r.Pre? <==> !TransferReached(s))
    && (r.Pre? ==> r.pre == FirstError(s))
    && (r.Done? <==> DepositStands(s, us) && SettledAs(s.polls, Success))
    && (r == Post(Definitive) <==>
          && TransferReached(s)
          && (|| s.transfer == Ended(Failed)
              || (TransferTracked(s) && RefundInLogs(s, us))
              || (DepositStands(s, us) && SettledAs(s.polls, Refunded))))
    && (Retryable(r) <==> !TransferReached(s) && Transient(s))
  }

  /** The first step that stopped a run before its transfer is worth retrying. */
  predicate Transient(s: Script) {
    match s.quote
    case Unsent => true
    case Status(code, tooLow, noQuote) => !tooLow && !noQuote && (code == 429 || 500 <= code <= 599)
    case Unparseable => false
    case Quoted(_, _, _) =>
      && QuoteUsable(s) && AddressUsable(s)
      && if !AccountReady(s) then s.funding != Ended(Failed)
         else s.bounds.Unread? || (s.bounds.deposit <= MAX_REASONABLE_DEPOSIT && s.storage.NoAnswer?)
  }

  function ClassifySwapStatus(status: SwapStatus): Option<PostKind> {
    match status
    case Success => None
    case Refunded => Some(Definitive)
    case _ => Some(Indeterminate)
  }

  // ---------- the provider ----------

  class OneClick {
    const us: AccountId
    var submitted: nat   // token transfers handed to the gateway

    constructor (us: AccountId)
      ensures this.us == us && submitted == 0
    {
      this.us, submitted := us, 0;
    }

    static method RequestQuote(q: QuoteAnswer) returns (stop: Option<PreKind>)
      ensures stop.None? <==> q.Quoted?
      ensures q.Unsent? ==> stop == Some(NetworkError)
      ensures q.Unparseable? ==> stop == Some(ValidationError)
      ensures q.Status? ==>
                && (stop == Some(AmountTooLow) <==> q.tooLow)
                && (stop == Some(QuoteFailed) <==> !q.tooLow && q.noQuote)
                && (!q.tooLow && !q.noQuote ==>
                      && (stop == Some(RateLimited) <==> q.code == 429)
                      && (stop == Some(ValidationError) <==> 400 <= q.code <= 499 && q.code != 429)
                      && (stop == Some(ServerError) <==> 500 <= q.code <= 599)
                      && (stop == Some(Unknown) <==> q.code < 400 || q.code > 599))
      ensures stop.Some? ==> (PreRetryable(stop.value) <==>
                q.Unsent? || (q.Status? && !q.tooLow && !q.noQuote && (q.code == 429 || 500 <= q.code <= 599)))
    {
      match q {
        case Unsent => stop := Some(NetworkError);
        case Status(code, tooLow, noQuote) => stop := Some(FromResponse(code, tooLow, noQuote));
        case Unparseable => stop := Some(ValidationError);
        case Quoted(_, _, _) => stop := None;
      }
    }

    /** Sends an implicit account its one yoctoNEAR; other accounts need none. */
    static method FundAccount(s: Script) returns (stop: Option<PreKind>)
      ensures stop.None? <==> AccountReady(s)
      ensures stop == Some(Unknown) <==> s.accountType.NearImplicit? && s.funding == Ended(Failed)
      ensures stop == Some(NetworkError) <==> s.accountType.NearImplicit? && s.funding.NoAnswer?
      ensures stop == Some(Timeout) <==>
                s.accountType.NearImplicit? && s.funding.Ended? && s.funding.status != Succeeded && s.funding.status != Failed
      ensures stop.Some? ==> (PreRetryable(stop.value) <==> s.funding != Ended(Failed))
    {
      if s.accountType != NearImplicit {
        return None;
      }
      match s.funding {
        case Ended(Succeeded) => stop := None;
        case Ended(Failed) => stop := Some(Unknown);
        case Ended(_) => stop := Some(Timeout);
        case NoAnswer(_) => stop := Some(NetworkError);
      }
    }

    /** A registration that does not succeed is only logged. */
    static method EnsureStorageDeposit(bounds: Bounds, storage: Execution) returns (stop: Option<PreKind>)
      ensures stop.None? <==> bounds.Minimum? && bounds.deposit <= MAX_REASONABLE_DEPOSIT && storage.Ended?
      ensures stop == Some(ValidationError) <==> bounds.Minimum? && bounds.deposit > MAX_REASONABLE_DEPOSIT
      ensures stop == Some(Timeout) <==>
                || (bounds.Unread? && bounds.timeout)
                || (bounds.Minimum? && bounds.deposit <= MAX_REASONABLE_DEPOSIT && storage.NoAnswer? && storage.timeout)
      ensures stop == Some(NetworkError) <==>
                || (bounds.Unread? && !bounds.timeout)
                || (bounds.Minimum? && bounds.deposit <= MAX_REASONABLE_DEPOSIT && storage.NoAnswer? && !storage.timeout)
      ensures stop.Some? ==> (PreRetryable(stop.value) <==> bounds.Unread? || bounds.deposit <= MAX_REASONABLE_DEPOSIT)
    {
      match bounds {
        case Unread(timeout) =>
          return Some(if timeout then Timeout else NetworkError);
        case Minimum(deposit) =>
          if deposit > MAX_REASONABLE_DEPOSIT {
            return Some(ValidationError);
          }
      }
      match storage {
        case Ended(_) => stop := None;
        case NoAnswer(timeout) => stop := Some(if timeout then Timeout else NetworkError);
      }
    }

    /** Scans the logs for the deposit and for a transfer back, in either order;
        the last one back gives the amount. */
    method CheckDepositRefunded(logs: Logs, deposit: AccountId) returns (refund: Option<nat>)
      ensures refund.Some? <==> RefundSeen(logs, deposit, us)
      ensures RefundFollows(logs, deposit, us) ==> refund.Some?
      ensures refund.Some? <==>
                && (exists i :: 0 <= i < |Transfers(logs)| && Transfers(logs)[i].to == Some(deposit))
                && (exists j :: 0 <= j < |Transfers(logs)| && Transfers(logs)[j].from == Some(deposit) && Transfers(logs)[j].to == Some(us))
    {
      var sends := t => Sends(t, deposit);
      var returns' := t => Returns(t, deposit, us);
      var tokensSent := false;
      var refundAmount: Option<nat> := None;
      for i := 0 to |logs|
        invariant tokensSent <==> SomeTransfer(logs[..i], sends)
        invariant refundAmount.Some? <==> SomeTransfer(logs[..i], returns')
      {
        LogsGrow(logs, i, sends);
        LogsGrow(logs, i, returns');
        if logs[i] == None || !logs[i].value.isTransfer {
          continue;
        }
        var transfers := logs[i].value.transfers;
        var sentHere, refundHere := ScanTransfers(transfers, deposit);
        tokensSent := tokensSent || sentHere;
        refundAmount := if refundHere.Some? then refundHere else refundAmount;
      }
      assert logs[..|logs|] == logs;
      ScanMeetsOrderIff(logs, deposit, us);
      RefundListed(logs, deposit, us);
      refund := if tokensSent then refundAmount else None;
    }

    method ScanTransfers(transfers: seq<Transfer>, deposit: AccountId) returns (sent: bool, refund: Option<nat>)
      ensures sent <==> exists j :: 0 <= j < |transfers| && Sends(transfers[j], deposit)
      ensures refund.Some? <==> exists j :: 0 <= j < |transfers| && Returns(transfers[j], deposit, us)
      ensures refund.Some? ==> exists j :: 0 <= j < |transfers| && Returns(transfers[j], deposit, us) && refund.value == transfers[j].amount
    {
      sent, refund := false, None;
      for j := 0 to |transfers|
        invariant sent <==> exists k :: 0 <= k < j && Sends(transfers[k], deposit)
        invariant refund.Some? <==> exists k :: 0 <= k < j && Returns(transfers[k], deposit, us)
        invariant refund.Some? ==> exists k :: 0 <= k < j && Returns(transfers[k], deposit, us) && refund.value == transfers[k].amount
      {
        if Sends(transfers[j], deposit) {
          sent := true;
        }
        if Returns(transfers[j], deposit, us) {
          refund := Some(transfers[j].amount);
        }
      }
    }

    /** Everything from the deposit address to the accepted deposit. */
    method DepositTokens(s: Script) returns (stop: Option<Result>)
      requires QuoteUsable(s)
      modifies this`submitted
      ensures submitted == old(submitted) + if TransferReached(s) then 1 else 0
      ensures stop.Some? && stop.value.Pre? <==> !TransferReached(s)
      ensures stop.Some? && stop.value.Pre? ==> stop.value.pre == FirstError(s)
      ensures stop.Some? && Retryable(stop.value) <==> !TransferReached(s) && Transient(s)
      ensures stop.None? <==> TransferReached(s) && TransferTracked(s) && !RefundInLogs(s, us)
      ensures stop == Some(Post(Definitive)) <==>
                TransferReached(s) && (s.transfer == Ended(Failed) || (TransferTracked(s) && RefundInLogs(s, us)))
      ensures stop != Some(Done)
    {
      if !s.quote.addressParses || s.accountType == Deterministic {
        return Some(Pre(ValidationError));
      }
      var fund := FundAccount(s);
      if fund.Some? {
        return Some(Pre(fund.value));
      }
      if s.nep141 {
        var storage := EnsureStorageDeposit(s.bounds, s.storage);
        if storage.Some? {
          return Some(Pre(storage.value));
        }
      }
      submitted := submitted + 1;
      if s.transfer == Ended(Failed) {
        return Some(Post(Definitive));
      }
      if s.transfer != Ended(Succeeded) || !s.txHash {
        return Some(Post(Indeterminate));
      }
      if s.logs.Some? {
        var refund := CheckDepositRefunded(s.logs.value, s.quote.address);
        if refund.Some? {
          return Some(Post(Definitive));
        }
      }
      stop := None;
    }

    /** Polls at most `POLLS` times, to the first terminal status. */
    static method PollSwapStatus(polls: nat -> Option<SwapStatus>) returns (status: Option<SwapStatus>)
      ensures forall st :: status == Some(st) <==> SettledAs(polls, st)
    {
      for attempt := 1 to POLLS + 1
        invariant forall j :: 1 <= j < attempt ==> polls(j).None? || polls(j).value !in TERMINAL
      {
        if Settles(polls(attempt)) {
          return polls(attempt);
        }
      }
      status := None;
    }

    method Run(s: Script) returns (r: Result)
      modifies this`submitted
      ensures Explains(s, us, r)
      ensures submitted == old(submitted) + if r.Pre? then 0 else 1
    {
      var quote := RequestQuote(s.quote);
      if quote.Some? {
        return Pre(quote.value);
      }
      if !s.quote.amountParses {
        return Pre(ValidationError);
      }
      var deposit := DepositTokens(s);
      if deposit.Some? {
        return deposit.value;
      }
      if !s.notified {
        return Post(Indeterminate);
      }
      var status := PollSwapStatus(s.polls);
      if status == None {
        return Post(Indeterminate);
      }
      var post := ClassifySwapStatus(status.value);
      r := if post == None then Done else Post(post.value);
    }

    /** Runs until something other than a retryable error, or the attempts run
        out. Over the whole loop at most one transfer is submitted, by the last
        run, and the result says which: none exactly when it is `Pre`. */
    method SwapWithRetry(maxAttempts: nat, script: nat -> Script) returns (r: Result, ghost results: seq<Result>)
      modifies this`submitted
      ensures submitted == old(submitted) + if r.Pre? then 0 else 1
      ensures |results| <= maxAttempts
      ensures forall k :: 0 <= k < |results| ==> Explains(script(k + 1), us, results[k])
      ensures forall k :: 0 <= k < |results| - 1 ==> Retryable(results[k])
      ensures if maxAttempts == 0 then r == Pre(Unknown) && results == [] else results != [] && r == results[|results| - 1]
      ensures Retryable(r) ==> |results| == maxAttempts
    {
      results := [];
      var lastError := Pre(Unknown);
      for attempt := 1 to maxAttempts + 1
        invariant |results| == attempt - 1
        invariant forall k :: 0 <= k < |results| ==> Explains(script(k + 1), us, results[k]) && Retryable(results[k])
        invariant attempt > 1 ==> attempt <= maxAttempts
        invariant attempt == 1 ==> lastError == Pre(Unknown)
        invariant submitted == old(submitted)
      {
        r := Run(script(attempt));
        results := results + [r];
        if !Retryable(r) || attempt >= maxAttempts {
          return;
        }
        lastError := r;
      }
      r := lastError;
    }
  }

  lemma LogsGrow(logs: Logs, i: nat, test: Transfer -> bool)
    requires i < |logs|
    ensures SomeTransfer(logs[..i + 1], test) <==>
              || SomeTransfer(logs[..i], test)
              || (logs[i].Some? && logs[i].value.isTransfer
                  && exists j :: 0 <= j < |logs[i].value.transfers| && test(logs[i].value.transfers[j]))
  {
  }

  // ---------- what the classification promises ----------

  /** One script has one outcome. */
  lemma ExplainedOutcomesAgree(s: Script, us: AccountId, a: Result, b: Result)
    requires Explains(s, us, a) && Explains(s, us, b)
    ensures a == b
  {
    match (a, b)
    case (Post(Indeterminate), Post(Indeterminate)) =>
    case _ =>
  }

  /** Success and refusal never overlap: at most one status is the first
      terminal one. */
  lemma SettledOnce(polls: nat -> Option<SwapStatus>, a: SwapStatus, b: SwapStatus)
    requires SettledAs(polls, a) && SettledAs(polls, b)
    ensures a == b
  {
  }

  /** `Done` needs a transfer that succeeded, no refund and a success status;
      a partial or failed settlement is never `Done`. */
  lemma DoneNeedsSettlement(s: Script, us: AccountId, r: Result)
    requires Explains(s, us, r) && r.Done?
    ensures s.transfer == Ended(Succeeded) && !RefundInLogs(s, us)
    ensures forall status :: SettledAs(s.polls, status) ==> status == Success
  {
    forall status | SettledAs(s.polls, status) ensures status == Success {
      SettledOnce(s.polls, status, Success);
    }
  }

  // ---------- the order of a refund ----------

  /** Every transfer entry of the logs, in order. */
  function Transfers(logs: Logs): seq<Transfer> {
    if logs == [] then [] else
    var last := logs[|logs| - 1];
    Transfers(logs[..|logs| - 1]) + if last.Some? && last.value.isTransfer then last.value.transfers else []
  }

  /** What the scan's comment describes: tokens out, and later tokens back. */
  ghost predicate RefundFollows(logs: Logs, deposit: AccountId, us: AccountId) {
    exists i, j :: 0 <= i < j < |Transfers(logs)|
                   && Sends(Transfers(logs)[i], deposit) && Returns(Transfers(logs)[j], deposit, us)
  }

  function FirstSend(ts: seq<Transfer>, deposit: AccountId): (k: nat)
    ensures k <= |ts| && (k < |ts| ==> Sends(ts[k], deposit))
    ensures forall i :: 0 <= i < k ==> !Sends(ts[i], deposit)
  {
    if ts == [] then 0 else
    var last := |ts| - 1;
    var k := FirstSend(ts[..last], deposit);
    assert forall i :: 0 <= i < last ==> ts[..last][i] == ts[i];
    if k < last || Sends(ts[last], deposit) then k else |ts|
  }

  /** One past the last transfer back; 0 if there is none. */
  function AfterLastReturn(ts: seq<Transfer>, deposit: AccountId, us: AccountId): (k: nat)
    ensures k <= |ts| && (k > 0 ==> Returns(ts[k - 1], deposit, us))
    ensures forall i :: k <= i < |ts| ==> !Returns(ts[i], deposit, us)
  {
    if ts == [] then 0
    else if Returns(ts[|ts| - 1], deposit, us) then |ts|
    else AfterLastReturn(ts[..|ts| - 1], deposit, us)
  }

  ghost predicate SomeIn(ts: seq<Transfer>, test: Transfer -> bool) {
    exists i :: 0 <= i < |ts| && test(ts[i])
  }

  /** The entries of the logs, as one list, hold the same transfers. */
  lemma {:induction false} SomeTransferListed(logs: Logs, test: Transfer -> bool)
    ensures SomeTransfer(logs, test) <==> SomeIn(Transfers(logs), test)
  {
    if logs != [] {
      var n := |logs| - 1;
      SomeTransferListed(logs[..n], test);
      LogsGrow(logs, n, test);
      assert logs[..n + 1] == logs;
      var added := if logs[n].Some? && logs[n].value.isTransfer then logs[n].value.transfers else [];
      SomeInEither(Transfers(logs[..n]), added, test);
      assert Transfers(logs) == Transfers(logs[..n]) + added;
      assert SomeTransfer(logs, test) <==> SomeTransfer(logs[..n], test) || SomeIn(added, test);
    }
  }

  lemma SomeInEither(a: seq<Transfer>, b: seq<Transfer>, test: Transfer -> bool)
    ensures SomeIn(a + b, test) <==> SomeIn(a, test) || SomeIn(b, test)
  {
    if SomeIn(a, test) {
      var i :| 0 <= i < |a| && test(a[i]);
      assert (a + b)[i] == a[i];
    }
    if SomeIn(b, test) {
      var i :| 0 <= i < |b| && test(b[i]);
      assert (a + b)[|a| + i] == b[i];
    }
  }

  /** The scan sees a refund and the comment's order holds together, except
      exactly when the logs show both and the last transfer back is not later
      than the first transfer out. */
  lemma ScanMeetsOrderIff(logs: Logs, deposit: AccountId, us: AccountId)
    ensures (RefundSeen(logs, deposit, us) <==> RefundFollows(logs, deposit, us)) <==>
              !(FirstSend(Transfers(logs), deposit) < |Transfers(logs)|
                && 0 < AfterLastReturn(Transfers(logs), deposit, us) <= FirstSend(Transfers(logs), deposit) + 1)
  {
    var ts := Transfers(logs);
    var first, after := FirstSend(ts, deposit), AfterLastReturn(ts, deposit, us);
    RefundListed(logs, deposit, us);
    if first + 1 < after {
      assert Sends(ts[first], deposit) && Returns(ts[after - 1], deposit, us);
    }
  }

  lemma RefundListed(logs: Logs, deposit: AccountId, us: AccountId)
    ensures RefundSeen(logs, deposit, us) <==>
              FirstSend(Transfers(logs), deposit) < |Transfers(logs)| && AfterLastReturn(Transfers(logs), deposit, us) > 0
  {
    SomeTransferListed(logs, t => Sends(t, deposit));
    SomeTransferListed(logs, t => Returns(t, deposit, us));
    var ts := Transfers(logs);
    var first, after := FirstSend(ts, deposit), AfterLastReturn(ts, deposit, us);
    assert first < |ts| ==> Sends(ts[first], deposit);
    assert after > 0 ==> Returns(ts[after - 1], deposit, us);
  }

  /** What the deposit address holds after the first k transfers, if it began empty. */
  function Holding(ts: seq<Transfer>, deposit: AccountId, k: nat): int
    requires k <= |ts|
  {
    if k == 0 then 0 else
    Holding(ts, deposit, k - 1)
    + (if ts[k - 1].to == Some(deposit) then ts[k - 1].amount else 0)
    - (if ts[k - 1].from == Some(deposit) then ts[k - 1].amount else 0)
  }

  lemma {:induction false} NothingBeforeFirstSend(ts: seq<Transfer>, deposit: AccountId, k: nat)
    requires k <= |ts| && forall i :: 0 <= i < k ==> !Sends(ts[i], deposit)
    ensures Holding(ts, deposit, k) <= 0
  {
    if k > 0 {
      NothingBeforeFirstSend(ts, deposit, k - 1);
    }
  }

  lemma HoldingNeedsSend(ts: seq<Transfer>, deposit: AccountId, k: nat)
    requires k <= |ts| && Holding(ts, deposit, k) > 0
    ensures FirstSend(ts, deposit) < k
  {
    if k <= FirstSend(ts, deposit) {
      NothingBeforeFirstSend(ts, deposit, k);
    }
  }

  lemma ReturnNeedsSend(ts: seq<Transfer>, deposit: AccountId, us: AccountId, r: nat)
    requires deposit != us && r < |ts| && Returns(ts[r], deposit, us) && ts[r].amount > 0
    requires Holding(ts, deposit, r + 1) >= 0
    ensures FirstSend(ts, deposit) < r
  {
    HoldingNeedsSend(ts, deposit, r);
  }

  /** A one-shot address begins empty, never pays what it does not hold, and
      what it pays back is something. */
  ghost predicate OneShot(ts: seq<Transfer>, deposit: AccountId, us: AccountId) {
    && (forall k :: 0 <= k <= |ts| ==> Holding(ts, deposit, k) >= 0)
    && forall i :: 0 <= i < |ts| && Returns(ts[i], deposit, us) ==> ts[i].amount > 0
  }

  lemma OneShotReturnsLate(ts: seq<Transfer>, deposit: AccountId, us: AccountId)
    requires deposit != us && OneShot(ts, deposit, us)
    requires AfterLastReturn(ts, deposit, us) > 0
    ensures FirstSend(ts, deposit) + 1 < AfterLastReturn(ts, deposit, us)
  {
    ReturnNeedsSend(ts, deposit, us, AfterLastReturn(ts, deposit, us) - 1);
  }

  /** At such an address the exception cannot arise, so the scan is the
      comment's order. */
  lemma OneShotAddressKeepsOrder(logs: Logs, deposit: AccountId, us: AccountId)
    requires deposit != us && OneShot(Transfers(logs), deposit, us)
    ensures RefundSeen(logs, deposit, us) <==> RefundFollows(logs, deposit, us)
  {
    ScanMeetsOrderIff(logs, deposit, us);
    if AfterLastReturn(Transfers(logs), deposit, us) > 0 {
      OneShotReturnsLate(Transfers(logs), deposit, us);
    }
  }

  /** Logs that break the address's bookkeeping do make the two differ. */
  lemma EarlierReturnCountsAsRefund(deposit: AccountId, us: AccountId, amount: nat, later: nat)
    requires deposit != us
    ensures var back := Transfer(Some(deposit), Some(us), amount);
            var out := Transfer(Some(us), Some(deposit), later);
            var logs := [Some(Event(true, [back])), Some(Event(true, [out]))];
            RefundSeen(logs, deposit, us) && !RefundFollows(logs, deposit, us)
  {
    var back := Transfer(Some(deposit), Some(us), amount);
    var out := Transfer(Some(us), Some(deposit), later);
    var logs: Logs := [Some(Event(true, [back])), Some(Event(true, [out]))];
    assert logs[0].value.transfers[0] == back && logs[1].value.transfers[0] == out;
    assert Sends(logs[1].value.transfers[0], deposit);
    assert Returns(logs[0].value.transfers[0], deposit, us);
    assert logs[..1] == [logs[0]] && logs[..1][..0] == [];
    assert Transfers(logs[..1]) == [back];
    assert Transfers(logs) == [back, out];
  }
}
