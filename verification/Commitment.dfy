// Capital commitment under concurrency: position tasks reserve, settle and
// land transfers while a refresh holds the inventory's write lock across its
// chain read and its update. The chain balance is part of the state; nothing
// but the read looks at it.

module Commitment {
  import opened Foundations
  import opened Ledger
  import opened Inventory

  datatype Lock =
    | Free
    | Refreshing(read: Option<ChainRead>)

  datatype ChainRead = ChainRead(asset: Asset, value: u128)

  datatype World = World(
    inventory: map<Asset, Entry>,
    tokens: seq<Token>,
    chain: map<Asset, nat>,
    lock: Lock)

  datatype Event =
    | Discover(asset: Asset)
    | Reserve(asset: Asset, amount: u128)
    | Land(serial: nat)          // the transfer leaves the account
    | Refund(serial: nat)        // a landed transfer is rejected and comes back
    | Consume(serial: nat)
    | Release(serial: nat)
    | BeginRefresh
    | Read(asset: Asset)
    | Update
    | EndRefresh
    | Credit(asset: Asset, units: nat)
    | Spend(asset: Asset, units: nat)

  const START := World(map[], [], map[], Free)

  function At(m: map<Asset, nat>, a: Asset): nat {
    if a in m then m[a] else 0
  }

  function Moved(tokens: seq<Token>, i: nat, phase: Phase): seq<Token>
    requires i < |tokens|
  {
    tokens[i := tokens[i].(phase := phase)]
  }

  predicate InPhase(w: World, i: nat, phases: set<Phase>) {
    i < |w.tokens| && w.tokens[i].phase in phases && w.tokens[i].amount <= U128_MAX
  }

  /** One event, or nothing when it is not possible: reserve, consume, release
      and discovery need the lock that a refresh holds; landings do not. */
  function Step(w: World, e: Event): Option<World> {
    match e
    case Discover(a) =>
      if w.lock != Free then None
      else if a in w.inventory then Some(w)
      else Some(w.(inventory := w.inventory[a := Entry(0, 0)]))
    case Reserve(a, amount) =>
      if w.lock != Free || a !in w.inventory then None else
      (match ReserveIn(w.inventory[a], amount)
       case None => None
       case Some(entry) => Some(w.(inventory := w.inventory[a := entry], tokens := w.tokens + [Token(a, amount, Pending)])))
    case Land(i) =>
      if !InPhase(w, i, {Pending}) then None else
      var t := w.tokens[i];
      if t.amount > At(w.chain, t.asset) then None
      else Some(w.(tokens := Moved(w.tokens, i, Landed), chain := w.chain[t.asset := At(w.chain, t.asset) - t.amount]))
    case Refund(i) =>
      if !InPhase(w, i, {Landed}) then None else
      var t := w.tokens[i];
      Some(w.(tokens := Moved(w.tokens, i, Pending), chain := w.chain[t.asset := At(w.chain, t.asset) + t.amount]))
    case Consume(i) =>
      if w.lock != Free || !InPhase(w, i, HELD) || w.tokens[i].asset !in w.inventory then None else
      var t := w.tokens[i];
      Some(w.(inventory := w.inventory[t.asset := ConsumeIn(w.inventory[t.asset], t.amount)], tokens := Moved(w.tokens, i, Consumed)))
    case Release(i) =>
      if w.lock != Free || !InPhase(w, i, HELD) || w.tokens[i].asset !in w.inventory then None else
      var t := w.tokens[i];
      Some(w.(inventory := w.inventory[t.asset := ReleaseIn(w.inventory[t.asset], t.amount)], tokens := Moved(w.tokens, i, Released)))
    case BeginRefresh =>
      if w.lock == Free then Some(w.(lock := Refreshing(None))) else None
    case Read(a) =>
      if w.lock != Refreshing(None) || At(w.chain, a) > U128_MAX then None
      else Some(w.(lock := Refreshing(Some(ChainRead(a, At(w.chain, a))))))
    case Update =>
      if w.lock.Free? || w.lock.read == None then None else
      var r := w.lock.read.value;
      Some(w.(inventory := if r.asset in w.inventory then w.inventory[r.asset := w.inventory[r.asset].(balance := r.value)] else w.inventory,
              lock := Refreshing(None)))
    case EndRefresh =>
      if w.lock == Refreshing(None) then Some(w.(lock := Free)) else None
    case Credit(a, amount) =>
      Some(w.(chain := w.chain[a := At(w.chain, a) + amount]))
    case Spend(a, amount) =>
      if amount > At(w.chain, a) then None
      else Some(w.(chain := w.chain[a := At(w.chain, a) - amount]))
  }

  function Run(w: World, events: seq<Event>): Option<World>
    decreases |events|
  {
    if events == [] then Some(w) else
    match Step(w, events[0])
    case None => None
    case Some(w') => Run(w', events[1..])
  }

  // ---------- the accounting ----------

  /** The reserved totals are the sums of the unsettled tokens. */
  ghost predicate Books(w: World) {
    && (forall t :: t in w.tokens ==> t.asset in w.inventory)
    && forall a :: a in w.inventory ==> w.inventory[a].reserved == Held(w.tokens, a)
  }

  /** What is behind an asset: the chain, and what left it without being settled yet. */
  function Backing(w: World, a: Asset): nat {
    At(w.chain, a) + Unsettled(w.tokens, a)
  }

  /** Up to a margin, the unlanded reservations are covered by the chain, and
      the recorded balance and a balance just read by what is behind them. */
  ghost predicate Covered(w: World, a: Asset, margin: nat) {
    && Unlanded(w.tokens, a) <= At(w.chain, a) + margin
    && (a in w.inventory ==> w.inventory[a].balance <= Backing(w, a) + margin)
    && (w.lock.Refreshing? && w.lock.read.Some? && w.lock.read.value.asset == a ==> w.lock.read.value.value <= Backing(w, a) + margin)
  }

  /** What an event does behind the accounting's back: a landed token released
      as if it had not left, or spending by anyone else on the account. */
  function Drift(w: World, e: Event, a: Asset): nat {
    match e
    case Release(i) => if i < |w.tokens| && w.tokens[i].asset == a && w.tokens[i].phase == Landed then w.tokens[i].amount else 0
    case Spend(b, amount) => if a == b then amount else 0
    case _ => 0
  }

  function DriftOf(w: World, events: seq<Event>, a: Asset): nat
    decreases |events|
  {
    if events == [] then 0 else
    match Step(w, events[0])
    case None => 0
    case Some(w') => Drift(w, events[0], a) + DriftOf(w', events[1..], a)
  }

  /** A token changing phase moves each asset's sums by its own amount. */
  lemma PhaseChange(tokens: seq<Token>, i: nat, phase: Phase, a: Asset)
    requires i < |tokens|
    ensures var t, t' := tokens[i], tokens[i].(phase := phase);
            var tokens' := Moved(tokens, i, phase);
            && Unlanded(tokens', a) == Unlanded(tokens, a) - Weight(t, a, {Pending}) + Weight(t', a, {Pending})
            && Unsettled(tokens', a) == Unsettled(tokens, a) - Weight(t, a, {Landed}) + Weight(t', a, {Landed})
            && Held(tokens', a) == Held(tokens, a) - Weight(t, a, HELD) + Weight(t', a, HELD)
            && Weight(t, a, HELD) <= Held(tokens, a)
            && forall x :: x in tokens' ==> x == t' || x in tokens
  {
    var t' := tokens[i].(phase := phase);
    SumUpdate(tokens, i, t', a, {Pending});
    SumUpdate(tokens, i, t', a, {Landed});
    SumUpdate(tokens, i, t', a, HELD);
    SumCovers(tokens, i, a, HELD);
  }

  function PhaseAfter(e: Event): Phase
    requires e.Land? || e.Refund? || e.Consume? || e.Release?
  {
    match e
    case Land(_) => Landed
    case Refund(_) => Pending
    case Consume(_) => Consumed
    case Release(_) => Released
  }

  lemma SettlingKeepsBooks(w: World, e: Event)
    requires Books(w) && Step(w, e).Some?
    requires e.Land? || e.Refund? || e.Consume? || e.Release?
    ensures Books(Step(w, e).value)
  {
    var w' := Step(w, e).value;
    forall a ensures a in w'.inventory ==> w'.inventory[a].reserved == Held(w'.tokens, a) {
      PhaseChange(w.tokens, e.serial, PhaseAfter(e), a);
    }
    PhaseChange(w.tokens, e.serial, PhaseAfter(e), "");
  }

  lemma ReserveKeepsBooks(w: World, e: Event)
    requires Books(w) && e.Reserve? && Step(w, e).Some?
    ensures Books(Step(w, e).value)
  {
    var token := Token(e.asset, e.amount, Pending);
    ReserveThenRelease(w.inventory[e.asset], e.amount);
    forall a ensures Held(w.tokens + [token], a) == Held(w.tokens, a) + Weight(token, a, HELD) {
      SumAppend(w.tokens, token, a, HELD);
    }
  }

  /** Every event keeps the books. */
  lemma StepKeepsBooks(w: World, e: Event)
    requires Books(w) && Step(w, e).Some?
    ensures Books(Step(w, e).value)
  {
    match e
    case Reserve(_, _) => ReserveKeepsBooks(w, e);
    case Land(_) => SettlingKeepsBooks(w, e);
    case Refund(_) => SettlingKeepsBooks(w, e);
    case Consume(_) => SettlingKeepsBooks(w, e);
    case Release(_) => SettlingKeepsBooks(w, e);
    case Discover(a) =>
      if a !in w.inventory {
        SumOfAbsentAsset(w.tokens, a, HELD);
      }
    case _ =>
  }

  lemma ReserveFits(e: Entry, amount: u128, unlanded: nat, unsettled: nat, chain: nat, margin: nat)
    requires e.reserved == unlanded + unsettled && amount <= Available(e)
    requires e.balance <= chain + unsettled + margin && unlanded <= chain + margin
    ensures unlanded + amount <= chain + margin
  {
  }

  lemma ReserveKeepsCover(w: World, e: Event, a: Asset, margin: nat)
    requires Books(w) && Covered(w, a, margin) && e.Reserve? && Step(w, e).Some?
    ensures Covered(Step(w, e).value, a, margin)
  {
    var token := Token(e.asset, e.amount, Pending);
    SumAppend(w.tokens, token, a, {Pending});
    SumAppend(w.tokens, token, a, {Landed});
    if a == e.asset {
      HeldSplits(w.tokens, a);
      ReserveFits(w.inventory[a], e.amount, Unlanded(w.tokens, a), Unsettled(w.tokens, a), At(w.chain, a), margin);
    }
  }

  lemma TransferKeepsCover(w: World, e: Event, a: Asset, margin: nat)
    requires Covered(w, a, margin) && (e.Land? || e.Refund?) && Step(w, e).Some?
    ensures Covered(Step(w, e).value, a, margin)
  {
    PhaseChange(w.tokens, e.serial, PhaseAfter(e), a);
  }

  lemma SettlementKeepsCover(w: World, e: Event, a: Asset, margin: nat)
    requires Covered(w, a, margin) && (e.Consume? || e.Release?) && Step(w, e).Some?
    ensures Covered(Step(w, e).value, a, margin + Drift(w, e, a))
  {
    PhaseChange(w.tokens, e.serial, PhaseAfter(e), a);
  }

  /** Every event keeps the cover, up to its own drift. */
  lemma StepKeepsCover(w: World, e: Event, a: Asset, margin: nat)
    requires Books(w) && Covered(w, a, margin) && Step(w, e).Some?
    ensures Covered(Step(w, e).value, a, margin + Drift(w, e, a))
  {
    match e
    case Reserve(_, _) => ReserveKeepsCover(w, e, a, margin);
    case Land(_) => TransferKeepsCover(w, e, a, margin);
    case Refund(_) => TransferKeepsCover(w, e, a, margin);
    case Consume(_) => SettlementKeepsCover(w, e, a, margin);
    case Release(_) => SettlementKeepsCover(w, e, a, margin);
    case _ =>
  }

  /** In every interleaving, whatever is spent elsewhere and whatever is
      released, the reserved totals are the sums of the unsettled tokens, and
      the cover is lost by at most what drifted during the run. */
  lemma {:induction false} EveryRunAccounted(w: World, events: seq<Event>, a: Asset, margin: nat)
    requires Books(w) && Covered(w, a, margin) && Run(w, events).Some?
    ensures Books(Run(w, events).value)
    ensures Covered(Run(w, events).value, a, margin + DriftOf(w, events, a))
    decreases |events|
  {
    if events != [] {
      StepKeepsBooks(w, events[0]);
      StepKeepsCover(w, events[0], a, margin);
      EveryRunAccounted(Step(w, events[0]).value, events[1..], a, margin + Drift(w, events[0], a));
    }
  }

  /** The bot is the only spender and only unlanded tokens are released. */
  ghost predicate Clean(w: World, events: seq<Event>)
    decreases |events|
  {
    events == [] ||
    (&& Step(w, events[0]).Some?
     && (events[0].Spend? ==> events[0].units == 0)
     && (events[0].Release? ==> w.tokens[events[0].serial].phase == Pending)
     && Clean(Step(w, events[0]).value, events[1..]))
  }

  lemma {:induction false} CleanRunsDoNotDrift(w: World, events: seq<Event>, a: Asset)
    requires Clean(w, events)
    ensures Run(w, events).Some?
    ensures DriftOf(w, events, a) == 0
    decreases |events|
  {
    if events != [] {
      CleanRunsDoNotDrift(Step(w, events[0]).value, events[1..], a);
    }
  }

  /** The safety of the design: from an empty inventory, over every clean
      interleaving, all unlanded reservations together are covered by the
      chain balance of their asset. */
  lemma CommitmentsCovered(events: seq<Event>, a: Asset)
    requires Clean(START, events)
    ensures Run(START, events).Some?
    ensures var w := Run(START, events).value;
            && Unlanded(w.tokens, a) <= At(w.chain, a)
            && (a in w.inventory ==> w.inventory[a].reserved == Unlanded(w.tokens, a) + Unsettled(w.tokens, a))
  {
    CleanRunsDoNotDrift(START, events, a);
    EveryRunAccounted(START, events, a, 0);
    HeldSplits(Run(START, events).value.tokens, a);
  }

  // ---------- when the cover is lost ----------

  /** Some reservation the manager would accept is not covered by the chain. */
  ghost predicate CanOvercommit(w: World, a: Asset) {
    exists amount: u128 ::
      && Step(w, Reserve(a, amount)).Some?
      && Unlanded(Step(w, Reserve(a, amount)).value.tokens, a) > At(w.chain, a)
  }

  lemma OvercommitIff(w: World, a: Asset)
    requires a in w.inventory && w.lock == Free
    ensures CanOvercommit(w, a) <==> Unlanded(w.tokens, a) + Available(w.inventory[a]) > At(w.chain, a)
  {
    forall amount: u128 | Step(w, Reserve(a, amount)).Some?
      ensures Unlanded(Step(w, Reserve(a, amount)).value.tokens, a) == Unlanded(w.tokens, a) + amount
    {
      SumAppend(w.tokens, Token(a, amount, Pending), a, {Pending});
    }
    assert Step(w, Reserve(a, Available(w.inventory[a]))).Some?;
  }

  /** The manager can overcommit exactly when the cover is not whole. */
  lemma OvercommitIffUncovered(w: World, a: Asset)
    requires Books(w) && a in w.inventory && w.lock == Free
    ensures CanOvercommit(w, a) <==> !Covered(w, a, 0)
  {
    OvercommitIff(w, a);
    HeldSplits(w.tokens, a);
  }

  /** Releasing a landed token lets the manager overcommit exactly when more
      than the chain is out already, or the recorded balance has not caught up
      with that landing. */
  lemma LandedReleaseOvercommitsIff(w: World, i: nat, a: Asset)
    requires Books(w) && Step(w, Release(i)).Some?
    requires w.tokens[i].asset == a && w.tokens[i].phase == Landed
    ensures CanOvercommit(Step(w, Release(i)).value, a) <==>
              || Unlanded(w.tokens, a) > At(w.chain, a)
              || w.inventory[a].balance > Backing(w, a) - w.tokens[i].amount
  {
    var w' := Step(w, Release(i)).value;
    PhaseChange(w.tokens, i, Released, a);
    StepKeepsBooks(w, Release(i));
    OvercommitIffUncovered(w', a);
  }

  /** So does spending from outside, a late landing among it: exactly when it
      takes more than the chain holds beyond what is out, or beyond what the
      recorded balance says. */
  lemma SpendOvercommitsIff(w: World, units: nat, a: Asset)
    requires Books(w) && a in w.inventory && w.lock == Free
    requires Step(w, Spend(a, units)).Some?
    ensures CanOvercommit(Step(w, Spend(a, units)).value, a) <==>
              || Unlanded(w.tokens, a) + units > At(w.chain, a)
              || w.inventory[a].balance + units > Backing(w, a)
  {
    StepKeepsBooks(w, Spend(a, units));
    OvercommitIffUncovered(Step(w, Spend(a, units)).value, a);
  }

  lemma {:induction false} RunConcat(w: World, x: seq<Event>, y: seq<Event>)
    requires Run(w, x).Some?
    ensures Run(w, x + y) == Run(Run(w, x).value, y)
    decreases |x|
  {
    if x == [] {
      assert x + y == y;
    } else {
      RunConcat(Step(w, x[0]).value, x[1..], y);
      assert (x + y)[1..] == x[1..] + y;
    }
  }

  lemma RunOne(w: World, e: Event)
    ensures Run(w, [e]) == Step(w, e)
  {
  }

  lemma RunTwo(w: World, e: Event, e': Event)
    requires Step(w, e).Some?
    ensures Run(w, [e, e']) == Step(Step(w, e).value, e')
  {
    RunOne(Step(w, e).value, e');
    assert [e, e'][1..] == [e'];
  }

  lemma RunFour(ws: seq<World>, e1: Event, e2: Event, e3: Event, e4: Event)
    requires |ws| == 5
    requires Step(ws[0], e1) == Some(ws[1]) && Step(ws[1], e2) == Some(ws[2])
    requires Step(ws[2], e3) == Some(ws[3]) && Step(ws[3], e4) == Some(ws[4])
    ensures Run(ws[0], [e1, e2] + [e3, e4]) == Some(ws[4])
  {
    RunTwo(ws[0], e1, e2);
    RunConcat(ws[0], [e1, e2], [e3, e4]);
    RunTwo(ws[2], e3, e4);
  }

  function RefreshOf(a: Asset): seq<Event> {
    [BeginRefresh, Read(a)] + [Update, EndRefresh]
  }

  /** A refresh whose read nothing lands behind leaves the chain's balance. */
  lemma RefreshRuns(w: World, a: Asset)
    requires a in w.inventory && w.lock == Free && At(w.chain, a) <= U128_MAX
    ensures Run(w, RefreshOf(a)) == Some(w.(inventory := w.inventory[a := w.inventory[a].(balance := At(w.chain, a))]))
  {
    var v: u128 := At(w.chain, a);
    var updated := w.(inventory := w.inventory[a := w.inventory[a].(balance := v)], lock := Refreshing(None));
    UpdateStep(w, a, v);
    RunFour([w, w.(lock := Refreshing(None)), w.(lock := Refreshing(Some(ChainRead(a, v)))), updated, updated.(lock := Free)],
            BeginRefresh, Read(a), Update, EndRefresh);
  }

  lemma UpdateStep(w: World, a: Asset, v: u128)
    requires a in w.inventory
    ensures Step(w.(lock := Refreshing(Some(ChainRead(a, v)))), Update)
         == Some(w.(inventory := w.inventory[a := w.inventory[a].(balance := v)], lock := Refreshing(None)))
  {
  }

  /** Whatever has drifted, after such a refresh the manager promises nothing
      beyond the chain, unless more than the chain was already out; the cover is
      lost by no more than that. */
  lemma RefreshRestoresCover(w: World, a: Asset)
    requires Books(w) && a in w.inventory && w.lock == Free && At(w.chain, a) <= U128_MAX
    ensures Run(w, RefreshOf(a)).Some? && Books(Run(w, RefreshOf(a)).value)
    ensures CanOvercommit(Run(w, RefreshOf(a)).value, a) <==> Unlanded(w.tokens, a) > At(w.chain, a)
    ensures Covered(Run(w, RefreshOf(a)).value, a, SaturatingSub(Unlanded(w.tokens, a), At(w.chain, a)))
  {
    RefreshRuns(w, a);
    OvercommitIffUncovered(Run(w, RefreshOf(a)).value, a);
  }

  /** Drift does not outlive a refresh: whatever happened before it, a run after
      it is covered up to what was too much out at the refresh and what drifts
      afterwards. */
  lemma RefreshForgetsDrift(before: seq<Event>, after: seq<Event>, a: Asset)
    requires Run(START, before).Some?
    requires var w := Run(START, before).value; a in w.inventory && w.lock == Free && At(w.chain, a) <= U128_MAX
    requires Run(START, before + (RefreshOf(a) + after)).Some?
    ensures Run(Run(START, before).value, RefreshOf(a)).Some?
    ensures var w := Run(START, before).value;
            var refreshed := Run(w, RefreshOf(a)).value;
            Covered(Run(START, before + (RefreshOf(a) + after)).value, a,
                    SaturatingSub(Unlanded(w.tokens, a), At(w.chain, a)) + DriftOf(refreshed, after, a))
  {
    var w := Run(START, before).value;
    EveryRunAccounted(START, before, a, 0);
    RunConcat(START, before, RefreshOf(a) + after);
    RefreshRestoresCover(w, a);
    RunConcat(w, RefreshOf(a), after);
    EveryRunAccounted(Run(w, RefreshOf(a)).value, after, a, SaturatingSub(Unlanded(w.tokens, a), At(w.chain, a)));
  }

  // ---------- two runs that lose it ----------

  /** Money arrives and is read, and all of it is reserved. */
  function Funded(a: Asset, n: u128, rest: seq<Event>): seq<Event> {
    [Discover(a), Credit(a, n)] + (RefreshOf(a) + ([Reserve(a, n)] + rest))
  }

  lemma FundedRuns(a: Asset, n: u128, rest: seq<Event>)
    ensures Run(START, Funded(a, n, rest)) ==
            Run(World(map[a := Entry(n, n)], [Token(a, n, Pending)], map[a := n], Free), rest)
  {
    RunTwo(START, Discover(a), Credit(a, n));
    var funded := Run(START, [Discover(a), Credit(a, n)]).value;
    RefreshRuns(funded, a);
    var readOut := Run(funded, RefreshOf(a)).value;
    RunConcat(START, [Discover(a), Credit(a, n)], RefreshOf(a) + ([Reserve(a, n)] + rest));
    RunConcat(funded, RefreshOf(a), [Reserve(a, n)] + rest);
    assert readOut.inventory == map[a := Entry(n, 0)] && readOut.chain == map[a := n];
    RunOne(readOut, Reserve(a, n));
    RunConcat(readOut, [Reserve(a, n)], rest);
    assert readOut.inventory[a := Entry(n, n)] == map[a := Entry(n, n)];
    assert [] + [Token(a, n, Pending)] == [Token(a, n, Pending)];
    assert Run(readOut, [Reserve(a, n)]) == Some(World(map[a := Entry(n, n)], [Token(a, n, Pending)], map[a := n], Free));
  }

  /** The account is empty and all of the amount is promised. */
  ghost predicate PromisedOverNothing(w: Option<World>, a: Asset, n: u128) {
    w.Some? && Unlanded(w.value.tokens, a) == n && At(w.value.chain, a) == 0
  }

  lemma PromisedAgain(w: World, a: Asset, n: u128)
    requires w.tokens == [Token(a, n, Released), Token(a, n, Pending)] && At(w.chain, a) == 0
    ensures PromisedOverNothing(Some(w), a, n)
  {
    assert w.tokens == [Token(a, n, Released)] + [Token(a, n, Pending)];
    SumAppend([Token(a, n, Released)], Token(a, n, Pending), a, {Pending});
    assert [Token(a, n, Released)][..0] == [];
  }

  /** It is spent, but the receipts cannot be read and the token is released;
      all of it is promised again. */
  lemma LandedReleaseOvercommits(a: Asset, n: u128)
    ensures PromisedOverNothing(Run(START, Funded(a, n, [Land(0), Release(0)] + [Reserve(a, n)])), a, n)
  {
    FundedRuns(a, n, [Land(0), Release(0)] + [Reserve(a, n)]);
    var w := World(map[a := Entry(n, n)], [Token(a, n, Pending)], map[a := n], Free);
    RunTwo(w, Land(0), Release(0));
    var spent := Run(w, [Land(0), Release(0)]).value;
    RunConcat(w, [Land(0), Release(0)], [Reserve(a, n)]);
    RunOne(spent, Reserve(a, n));
    PromisedAgain(Run(spent, [Reserve(a, n)]).value, a, n);
  }

  /** The operation has not reached finality and its token is released; all of
      it is promised again, and then the first transfer lands after all. */
  lemma LateLandingOvercommits(a: Asset, n: u128)
    ensures PromisedOverNothing(Run(START, Funded(a, n, [Release(0), Reserve(a, n)] + [Spend(a, n)])), a, n)
  {
    FundedRuns(a, n, [Release(0), Reserve(a, n)] + [Spend(a, n)]);
    var w := World(map[a := Entry(n, n)], [Token(a, n, Pending)], map[a := n], Free);
    RunTwo(w, Release(0), Reserve(a, n));
    var promised := Run(w, [Release(0), Reserve(a, n)]).value;
    RunConcat(w, [Release(0), Reserve(a, n)], [Spend(a, n)]);
    RunOne(promised, Spend(a, n));
    PromisedAgain(Run(promised, [Spend(a, n)]).value, a, n);
  }
}
