// The inventory manager's methods are the steps of the commitment model: each
// call, made while no refresh holds the lock, is exactly the event of its name,
// and what happens outside the manager does not touch it. So what is proved of
// every run of events holds of every interleaving of calls.

module Refinement {
  import opened Foundations
  import opened Ledger
  import opened Inventory
  import opened Commitment
  import opened Execution

  /** The manager knows the same tokens, and which are unsettled; whether an
      unsettled one has landed only the chain knows. */
  ghost predicate SameTokens(tokens: seq<Token>, ledger: seq<Token>) {
    && |tokens| == |ledger|
    && forall i :: 0 <= i < |tokens| ==>
         && tokens[i].asset == ledger[i].asset && tokens[i].amount == ledger[i].amount
         && (tokens[i].phase in HELD <==> ledger[i].phase in HELD)
  }

  ghost predicate Abstracts(w: World, m: InventoryManager)
    reads m
  {
    m.Valid() && w.inventory == m.inventory && SameTokens(w.tokens, m.ledger)
  }

  method Discover(m: InventoryManager, asset: Asset, ghost w: World)
    requires Abstracts(w, m) && w.lock == Free
    modifies m
    ensures Step(w, Event.Discover(asset)).Some? && Abstracts(Step(w, Event.Discover(asset)).value, m)
  {
    m.DiscoverAssets([asset]);
    assert m.inventory.Keys == w.inventory.Keys + {asset};
    assert m.inventory == Step(w, Event.Discover(asset)).value.inventory;
  }

  /** The manager grants exactly the reservations the model allows. */
  method Reserve(m: InventoryManager, asset: Asset, amount: u128, ghost task: nat, ghost w: World) returns (r: ReserveResult)
    requires Abstracts(w, m) && w.lock == Free
    modifies m
    ensures r.Granted? <==> Step(w, Event.Reserve(asset, amount)).Some?
    ensures Abstracts(if r.Granted? then Step(w, Event.Reserve(asset, amount)).value else w, m)
    ensures r.Granted? ==> m.Open(r.token) && r.token.serial == |w.tokens|
  {
    r := m.Reserve(asset, amount, task);
    if r.Granted? {
      ReserveThenRelease(w.inventory[asset], amount);
    }
  }

  lemma SettledSame(tokens: seq<Token>, ledger: seq<Token>, i: nat, t: Token)
    requires SameTokens(tokens, ledger) && i < |tokens|
    requires t.asset == tokens[i].asset && t.amount == tokens[i].amount && t.phase !in HELD
    ensures SameTokens(Moved(tokens, i, t.phase), ledger[i := t])
  {
  }

  method Release(m: InventoryManager, r: Reservation, ghost w: World)
    requires Abstracts(w, m) && w.lock == Free && m.Open(r)
    modifies m
    ensures Step(w, Event.Release(r.serial)).Some? && Abstracts(Step(w, Event.Release(r.serial)).value, m)
  {
    SettledSame(w.tokens, m.ledger, r.serial, Token(r.asset, r.amount, Released));
    assert m.ledger[r.serial] in m.ledger;
    m.Release(r);
  }

  method Consume(m: InventoryManager, r: Reservation, ghost w: World)
    requires Abstracts(w, m) && w.lock == Free && m.Open(r)
    modifies m
    ensures Step(w, Event.Consume(r.serial)).Some? && Abstracts(Step(w, Event.Consume(r.serial)).value, m)
  {
    SettledSame(w.tokens, m.ledger, r.serial, Token(r.asset, r.amount, Consumed));
    assert m.ledger[r.serial] in m.ledger;
    m.Consume(r);
  }

  /** The update half of a refresh; the read half is the chain's. */
  method Update(m: InventoryManager, ghost w: World, asset: Asset, read: u128)
    requires Abstracts(w, m) && w.lock == Refreshing(Some(ChainRead(asset, read)))
    modifies m
    ensures Step(w, Event.Update).Some? && Abstracts(Step(w, Event.Update).value, m)
  {
    var _ := m.RefreshAsset(asset, Some(read));
  }

  predicate Outside(e: Event) {
    e.Land? || e.Refund? || e.BeginRefresh? || e.Read? || e.EndRefresh? || e.Credit? || e.Spend?
  }

  /** Landings, refunds, chain reads and other spending do not touch the manager. */
  lemma OutsideEventsKeep(w: World, e: Event, m: InventoryManager)
    requires Abstracts(w, m) && Outside(e) && Step(w, e).Some?
    ensures Abstracts(Step(w, e).value, m)
  {
  }

  // ---------- what the gateway's answers say of the chain ----------

  /** The answer is final and readable: it says whether the tokens left. */
  predicate TellsFate(g: GatewayAnswer) {
    g.EndedFailed? || g == OperationSucceeded(SomeFailed) || g == LANDED_CLEAN
  }

  /** A run whose tokens are settled as the executor settles them, by their
      answers. Where an answer tells, it is true: what failed or was refunded
      has not left the account. Only what an answer does not tell can be spent
      unseen, by landing later. */
  ghost predicate Driven(w: World, events: seq<Event>, answers: map<nat, GatewayAnswer>)
    decreases |events|
  {
    events == [] ||
    (&& Step(w, events[0]).Some?
     && (match events[0]
         case Release(i) =>
           i in answers && answers[i] != LANDED_CLEAN && (TellsFate(answers[i]) ==> w.tokens[i].phase == Pending)
         case Consume(i) => i in answers && answers[i] == LANDED_CLEAN
         case Spend(_, units) => units > 0 ==> exists i :: i in answers && !TellsFate(answers[i])
         case _ => true)
     && Driven(Step(w, events[0]).value, events[1..], answers))
  }

  /** Such a run is clean, and so covered, unless some answer was unreadable,
      not final, or missing. */
  lemma {:induction false} ToldRunsAreClean(w: World, events: seq<Event>, answers: map<nat, GatewayAnswer>)
    requires Driven(w, events, answers)
    requires forall i :: i in answers ==> TellsFate(answers[i])
    ensures Commitment.Clean(w, events)
    decreases |events|
  {
    if events != [] {
      ToldRunsAreClean(Step(w, events[0]).value, events[1..], answers);
    }
  }

  lemma ToldRunsAreCovered(events: seq<Event>, answers: map<nat, GatewayAnswer>, a: Asset)
    requires Driven(START, events, answers)
    requires forall i :: i in answers ==> TellsFate(answers[i])
    ensures Run(START, events).Some?
    ensures Unlanded(Run(START, events).value.tokens, a) <= At(Run(START, events).value.chain, a)
  {
    ToldRunsAreClean(START, events, answers);
    CommitmentsCovered(events, a);
  }
}
