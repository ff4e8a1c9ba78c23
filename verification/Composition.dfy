// Off-chain price composition of src/oracle.rs: sources become candidates,
// their backends are read in one batch, transformer inputs are cached for the
// round, and each feed takes its first fresh price. The reference tries every
// configured source by itself, one after the other.

module Composition {
  import opened Foundations

  type Symbol = string
  type Account = nat
  type PriceId = nat
  type ViewCall = nat
  type Action = nat
  type Decimal = nat

  const SKEW_SECONDS: nat := 30

  datatype Quote = Quote(mantissa: int, publishTime: int)

  datatype OracleRequest = Pyth | RedStone(symbol: Symbol) | Lazer(oracleId: Account, feedId: nat)

  datatype Source = Request(request: OracleRequest) | Transformer(request: OracleRequest, call: ViewCall, action: Action)

  datatype OffchainRequest = GatewayRead(symbol: Symbol) | PriceApi(oracleId: Account, feedId: nat)

  datatype Candidate = Direct(read: OffchainRequest) | Transformed(read: OffchainRequest, call: ViewCall, action: Action)

  datatype Legs = Legs(redstone: bool, pythPro: bool)

  type Plan = (PriceId, seq<Candidate>)

  /** What the round would be told about any one thing it asked, and the clock's
      successive readings. A proxy entry that cannot be read is `None`. */
  datatype World = World(
    sources: PriceId -> Option<seq<Source>>,
    redstone: Symbol -> Option<Quote>,
    lazer: nat -> Option<Quote>,
    view: ViewCall -> Option<Decimal>,
    applied: (Action, Quote, Decimal) -> Option<Quote>,
    clock: nat -> int,
    legs: Legs,
    maxAge: nat)

  // ---------- freshness ----------

  function CheckedSub(a: int, b: int): Option<int> {
    if I64_MIN <= a - b <= I64_MAX then Some(a - b) else None
  }

  predicate PublishTimeIsFresh(publishTime: int, now: int, maxAge: nat) {
    match CheckedSub(now, publishTime)
    case None => false
    case Some(age) => age <= maxAge && age >= 0 - SKEW_SECONDS
  }

  /** The overflow guard never changes the answer. */
  lemma FreshIffWithinBounds(publishTime: int, now: int, maxAge: nat)
    requires maxAge < 0x1_0000_0000
    ensures PublishTimeIsFresh(publishTime, now, maxAge) <==> now - maxAge <= publishTime <= now + SKEW_SECONDS
  {
  }

  // ---------- one source at a time ----------

  function Classify(request: OracleRequest, legs: Legs): Option<OffchainRequest> {
    match request
    case RedStone(symbol) => if legs.redstone then Some(GatewayRead(symbol)) else None
    case Lazer(oracleId, feedId) => if legs.pythPro then Some(PriceApi(oracleId, feedId)) else None
    case Pyth => None
  }

  function Underlying(request: OffchainRequest, w: World): Option<Quote> {
    match request
    case GatewayRead(symbol) => w.redstone(symbol)
    case PriceApi(_, feedId) => w.lazer(feedId)
  }

  /** What a source alone is worth: its underlying price, put through its
      transformer if it has one. */
  function PriceOfSource(source: Source, w: World): Option<Quote> {
    match Classify(source.request, w.legs)
    case None => None
    case Some(request) =>
      match Underlying(request, w)
      case None => None
      case Some(quote) =>
        if source.Request? then Some(quote) else
        match w.view(source.call)
        case None => None
        case Some(input) => w.applied(source.action, quote, input)
  }

  /** A source is worth something only through its own leg, when that is
      configured: RedStone by the gateways, Pyth Pro by its price API, Pyth Core
      never; a transformer needs its input as well. */
  lemma LegsDecide(source: Source, w: World)
    ensures PriceOfSource(source, w).Some? ==>
              || (source.request.RedStone? && w.legs.redstone && w.redstone(source.request.symbol).Some?)
              || (source.request.Lazer? && w.legs.pythPro && w.lazer(source.request.feedId).Some?)
    ensures source.Request? && source.request.RedStone? && w.legs.redstone ==> PriceOfSource(source, w) == w.redstone(source.request.symbol)
    ensures source.Request? && source.request.Lazer? && w.legs.pythPro ==> PriceOfSource(source, w) == w.lazer(source.request.feedId)
    ensures source.Transformer? && PriceOfSource(source, w).Some? ==>
              exists quote, input :: w.view(source.call) == Some(input)
                && PriceOfSource(Request(source.request), w) == Some(quote)
                && PriceOfSource(source, w) == w.applied(source.action, quote, input)
    ensures source.Transformer? && PriceOfSource(Request(source.request), w).Some? && w.view(source.call).Some? ==>
              PriceOfSource(source, w) == w.applied(source.action, PriceOfSource(Request(source.request), w).value, w.view(source.call).value)
  {
    if source.Transformer? && PriceOfSource(source, w).Some? {
      var quote, input := PriceOfSource(Request(source.request), w).value, w.view(source.call).value;
      assert w.view(source.call) == Some(input) && PriceOfSource(Request(source.request), w) == Some(quote);
    }
  }

  /** The first priced and fresh source, and how many clock readings it took:
      one for each priced source tried. */
  function FirstFresh(sources: seq<Source>, w: World, tick: nat): (Option<Quote>, nat) {
    if sources == [] then (None, tick) else
    match PriceOfSource(sources[0], w)
    case None => FirstFresh(sources[1..], w, tick)
    case Some(quote) =>
      if PublishTimeIsFresh(quote.publishTime, w.clock(tick), w.maxAge) then (Some(quote), tick + 1)
      else FirstFresh(sources[1..], w, tick + 1)
  }

  /** Every feed in turn, from a clock reading on; later entries of one id win. */
  function ComposeOneByOne(ids: seq<PriceId>, w: World, tick: nat, response: map<PriceId, Quote>): (map<PriceId, Quote>, nat) {
    if ids == [] then (response, tick) else
    match w.sources(ids[0])
    case None => ComposeOneByOne(ids[1..], w, tick, response)
    case Some(sources) =>
      var (price, next) := FirstFresh(sources, w, tick);
      ComposeOneByOne(ids[1..], w, next, if price.Some? then response[ids[0] := price.value] else response)
  }

  // ---------- plans ----------

  function PlanSources(sources: seq<Source>, legs: Legs): seq<Candidate> {
    if sources == [] then [] else
    (match Classify(sources[0].request, legs)
     case None => []
     case Some(request) =>
       if sources[0].Request? then [Direct(request)] else [Transformed(request, sources[0].call, sources[0].action)])
    + PlanSources(sources[1..], legs)
  }

  function PlanOf(id: PriceId, w: World): seq<Plan> {
    match w.sources(id)
    case None => []
    case Some(sources) =>
      var candidates := PlanSources(sources, w.legs);
      if candidates == [] then [] else [(id, candidates)]
  }

  function Resolve(ids: seq<PriceId>, w: World): seq<Plan> {
    if ids == [] then [] else PlanOf(ids[0], w) + Resolve(ids[1..], w)
  }

  method ResolveOffchainPlans(ids: seq<PriceId>, w: World) returns (plans: seq<Plan>)
    ensures plans == Resolve(ids, w)
  {
    plans := [];
    for i := 0 to |ids|
      invariant plans + Resolve(ids[i..], w) == Resolve(ids, w)
    {
      ResolveStep(plans, ids, i, w);
      match w.sources(ids[i]) {
        case None =>
          continue;
        case Some(sources) =>
          var candidates := PlanSources(sources, w.legs);
          if candidates != [] {
            plans := plans + [(ids[i], candidates)];
          }
      }
    }
  }

  lemma ResolveStep(plans: seq<Plan>, ids: seq<PriceId>, i: nat, w: World)
    requires i < |ids|
    ensures plans + Resolve(ids[i..], w) == (plans + PlanOf(ids[i], w)) + Resolve(ids[i + 1..], w)
    ensures PlanOf(ids[i], w) == [] ==> plans + PlanOf(ids[i], w) == plans
  {
  }

  function Candidates(plans: seq<Plan>): seq<Candidate> {
    if plans == [] then [] else Candidates(plans[..|plans| - 1]) + plans[|plans| - 1].1
  }

  ghost predicate Asks(candidates: seq<Candidate>, request: OffchainRequest) {
    exists c :: c in candidates && c.read == request
  }

  /** One want-list per backend: every request of some candidate, no other. */
  method CollectOffchainWants(plans: seq<Plan>) returns (symbols: set<Symbol>, lazer: map<Account, set<nat>>)
    ensures forall s :: s in symbols <==> Asks(Candidates(plans), GatewayRead(s))
    ensures forall a, f :: a in lazer && f in lazer[a] <==> Asks(Candidates(plans), PriceApi(a, f))
  {
    var candidates := Candidates(plans);
    symbols, lazer := {}, map[];
    for i := 0 to |candidates|
      invariant forall s :: s in symbols <==> Asks(candidates[..i], GatewayRead(s))
      invariant forall a, f :: a in lazer && f in lazer[a] <==> Asks(candidates[..i], PriceApi(a, f))
    {
      AsksGrows(candidates, i);
      match candidates[i].read {
        case GatewayRead(symbol) =>
          symbols := symbols + {symbol};
        case PriceApi(oracleId, feedId) =>
          var known := if oracleId in lazer then lazer[oracleId] else {};
          lazer := lazer[oracleId := known + {feedId}];
      }
    }
    assert candidates[..|candidates|] == candidates;
  }

  lemma AsksGrows(candidates: seq<Candidate>, i: nat)
    requires i < |candidates|
    ensures forall r :: Asks(candidates[..i + 1], r) <==> Asks(candidates[..i], r) || r == candidates[i].read
  {
  }

  // ---------- the batched round ----------

  datatype Backends = Backends(redstone: map<Symbol, Quote>, lazer: map<(Account, nat), Quote>)

  /** One read of each backend, for what is wanted and nothing else. */
  function FetchBackends(symbols: set<Symbol>, lazer: map<Account, set<nat>>, w: World): Backends {
    Backends(
      map s | s in symbols && w.redstone(s).Some? :: w.redstone(s).value,
      map a, f | a in lazer && f in lazer[a] && w.lazer(f).Some? :: (a, f) := w.lazer(f).value)
  }

  function Lookup(request: OffchainRequest, backends: Backends): Option<Quote> {
    match request
    case GatewayRead(symbol) => if symbol in backends.redstone then Some(backends.redstone[symbol]) else None
    case PriceApi(oracleId, feedId) =>
      if (oracleId, feedId) in backends.lazer then Some(backends.lazer[(oracleId, feedId)]) else None
  }

  /** The batch answers every candidate as asking for it alone would. */
  ghost predicate Serves(backends: Backends, candidates: seq<Candidate>, w: World) {
    forall c :: c in candidates ==> Lookup(c.read, backends) == Underlying(c.read, w)
  }

  lemma BatchServes(plans: seq<Plan>, symbols: set<Symbol>, lazer: map<Account, set<nat>>, w: World)
    requires forall s :: s in symbols <==> Asks(Candidates(plans), GatewayRead(s))
    requires forall a, f :: a in lazer && f in lazer[a] <==> Asks(Candidates(plans), PriceApi(a, f))
    ensures Serves(FetchBackends(symbols, lazer, w), Candidates(plans), w)
  {
  }

  type Inputs = seq<(ViewCall, Option<Decimal>)>

  /** Cached inputs are what the calls answer, and no call was made twice. */
  ghost predicate Sound(inputs: Inputs, w: World) {
    && (forall i :: 0 <= i < |inputs| ==> inputs[i].1 == w.view(inputs[i].0))
    && forall i, j :: 0 <= i < j < |inputs| ==> inputs[i].0 != inputs[j].0
  }

  method FindInput(inputs: Inputs, call: ViewCall) returns (cached: Option<Option<Decimal>>)
    ensures cached.None? <==> forall i :: 0 <= i < |inputs| ==> inputs[i].0 != call
    ensures cached.Some? ==> (call, cached.value) in inputs
  {
    for i := 0 to |inputs|
      invariant forall k :: 0 <= k < i ==> inputs[k].0 != call
    {
      if inputs[i].0 == call {
        return Some(inputs[i].1);
      }
    }
    cached := None;
  }

  function PriceOfCandidate(c: Candidate, w: World): Option<Quote> {
    match Underlying(c.read, w)
    case None => None
    case Some(quote) =>
      if c.Direct? then Some(quote) else
      match w.view(c.call)
      case None => None
      case Some(input) => w.applied(c.action, quote, input)
  }

  method PriceOneCandidate(c: Candidate, backends: Backends, inputs: Inputs, w: World) returns (price: Option<Quote>, inputs': Inputs)
    requires Lookup(c.read, backends) == Underlying(c.read, w) && Sound(inputs, w)
    ensures price == PriceOfCandidate(c, w)
    ensures Sound(inputs', w) && inputs <= inputs'
    ensures c.Direct? || Underlying(c.read, w).None? ==> inputs' == inputs
  {
    inputs' := inputs;
    var underlying := Lookup(c.read, backends);
    if underlying == None {
      return None, inputs';
    }
    if c.Direct? {
      return underlying, inputs';
    }
    var cached := FindInput(inputs, c.call);
    var input: Option<Decimal>;
    if cached.Some? {
      input := cached.value;
    } else {
      input := w.view(c.call);
      inputs' := inputs + [(c.call, input)];
    }
    price := if input == None then None else w.applied(c.action, underlying.value, input.value);
  }

  function FirstFreshCandidate(candidates: seq<Candidate>, w: World, tick: nat): (Option<Quote>, nat) {
    if candidates == [] then (None, tick) else
    match PriceOfCandidate(candidates[0], w)
    case None => FirstFreshCandidate(candidates[1..], w, tick)
    case Some(quote) =>
      if PublishTimeIsFresh(quote.publishTime, w.clock(tick), w.maxAge) then (Some(quote), tick + 1)
      else FirstFreshCandidate(candidates[1..], w, tick + 1)
  }

  method ComposeFeed(candidates: seq<Candidate>, backends: Backends, inputs: Inputs, w: World, tick: nat)
    returns (composed: Option<Quote>, inputs': Inputs, tick': nat)
    requires Serves(backends, candidates, w) && Sound(inputs, w)
    ensures (composed, tick') == FirstFreshCandidate(candidates, w, tick)
    ensures Sound(inputs', w)
  {
    inputs', tick' := inputs, tick;
    for i := 0 to |candidates|
      invariant Sound(inputs', w)
      invariant FirstFreshCandidate(candidates[i..], w, tick') == FirstFreshCandidate(candidates, w, tick)
    {
      assert candidates[i..][1..] == candidates[i + 1..];
      var price;
      price, inputs' := PriceOneCandidate(candidates[i], backends, inputs', w);
      if price == None {
        continue;
      }
      var now := w.clock(tick');
      tick' := tick' + 1;
      if PublishTimeIsFresh(price.value.publishTime, now, w.maxAge) {
        return price, inputs', tick';
      }
    }
    composed := None;
  }

  function ComposePlans(plans: seq<Plan>, w: World, tick: nat, response: map<PriceId, Quote>): (map<PriceId, Quote>, nat) {
    if plans == [] then (response, tick) else
    var (price, next) := FirstFreshCandidate(plans[0].1, w, tick);
    ComposePlans(plans[1..], w, next, if price.Some? then response[plans[0].0 := price.value] else response)
  }

  /** The whole round. It prices each feed as trying the configured sources one
      by one would, whatever the clock reads, and makes no view call twice. */
  method ComposeProxyPricesOffchain(ids: seq<PriceId>, w: World) returns (response: map<PriceId, Quote>, ticks: nat, inputs: Inputs)
    ensures (response, ticks) == ComposeOneByOne(ids, w, 0, map[])
    ensures Sound(inputs, w)
  {
    response, ticks, inputs := map[], 0, [];
    var plans := ResolveOffchainPlans(ids, w);
    PlansAgree(ids, w, 0, map[]);
    if plans == [] {
      return;
    }
    var symbols, lazer := CollectOffchainWants(plans);
    var backends := FetchBackends(symbols, lazer, w);
    BatchServes(plans, symbols, lazer, w);
    for i := 0 to |plans|
      invariant Sound(inputs, w)
      invariant ComposePlans(plans[i..], w, ticks, response) == ComposePlans(plans, w, 0, map[])
    {
      assert plans[i..][1..] == plans[i + 1..];
      CandidatesOfPlan(plans, i);
      var composed;
      composed, inputs, ticks := ComposeFeed(plans[i].1, backends, inputs, w, ticks);
      if composed.Some? {
        response := response[plans[i].0 := composed.value];
      }
    }
  }

  lemma {:induction false} CandidatesOfPlan(plans: seq<Plan>, i: nat)
    requires i < |plans|
    ensures forall c :: c in plans[i].1 ==> c in Candidates(plans)
  {
    var last := |plans| - 1;
    if i < last {
      CandidatesOfPlan(plans[..last], i);
    }
  }

  // ---------- agreement ----------

  lemma {:induction false} CandidatesAgree(sources: seq<Source>, w: World, tick: nat)
    ensures FirstFreshCandidate(PlanSources(sources, w.legs), w, tick) == FirstFresh(sources, w, tick)
  {
    if sources != [] {
      var rest := PlanSources(sources[1..], w.legs);
      CandidatesAgree(sources[1..], w, tick);
      CandidatesAgree(sources[1..], w, tick + 1);
      match Classify(sources[0].request, w.legs)
      case None =>
        assert PlanSources(sources, w.legs) == rest;
      case Some(request) =>
        var c := if sources[0].Request? then Direct(request) else Transformed(request, sources[0].call, sources[0].action);
        assert PlanSources(sources, w.legs) == [c] + rest;
        assert ([c] + rest)[1..] == rest;
        assert PriceOfCandidate(c, w) == PriceOfSource(sources[0], w);
    }
  }

  lemma ComposeFirstPlan(plan: Plan, rest: seq<Plan>, w: World, tick: nat, response: map<PriceId, Quote>)
    ensures var (price, next) := FirstFreshCandidate(plan.1, w, tick);
            ComposePlans([plan] + rest, w, tick, response) ==
            ComposePlans(rest, w, next, if price.Some? then response[plan.0 := price.value] else response)
  {
  }

  /** Planning loses nothing: what no leg can price would not have been priced. */
  lemma {:induction false} PlansAgree(ids: seq<PriceId>, w: World, tick: nat, response: map<PriceId, Quote>)
    ensures ComposePlans(Resolve(ids, w), w, tick, response) == ComposeOneByOne(ids, w, tick, response)
  {
    if ids != [] {
      var rest := Resolve(ids[1..], w);
      match w.sources(ids[0])
      case None =>
        PlansAgree(ids[1..], w, tick, response);
        assert Resolve(ids, w) == rest;
      case Some(sources) =>
        CandidatesAgree(sources, w, tick);
        var (price, next) := FirstFresh(sources, w, tick);
        PlansAgree(ids[1..], w, next, if price.Some? then response[ids[0] := price.value] else response);
        var candidates := PlanSources(sources, w.legs);
        if candidates == [] {
          assert Resolve(ids, w) == rest;
        } else {
          ComposeFirstPlan((ids[0], candidates), rest, w, tick, response);
        }
    }
  }

  // ---------- what the reference means ----------

  /** The clock reading at which source k is judged: one per priced source before it. */
  function ReadingOf(sources: seq<Source>, w: World, tick: nat, k: nat): nat
    requires k <= |sources|
  {
    if k == 0 then tick else ReadingOf(sources, w, tick, k - 1) + if PriceOfSource(sources[k - 1], w).Some? then 1 else 0
  }

  ghost predicate Wins(sources: seq<Source>, w: World, tick: nat, k: nat)
    requires k < |sources|
  {
    && PriceOfSource(sources[k], w).Some?
    && PublishTimeIsFresh(PriceOfSource(sources[k], w).value.publishTime, w.clock(ReadingOf(sources, w, tick, k)), w.maxAge)
  }

  lemma {:induction false} ReadingShifts(sources: seq<Source>, w: World, tick: nat, k: nat)
    requires k < |sources|
    ensures ReadingOf(sources, w, tick, k + 1)
         == ReadingOf(sources[1..], w, tick + if PriceOfSource(sources[0], w).Some? then 1 else 0, k)
  {
    if k > 0 {
      ReadingShifts(sources, w, tick, k - 1);
    }
  }

  /** A feed's price is that of the first source, in configured order, that is
      priced and fresh when judged; it has none exactly when no source is. */
  lemma {:induction false} FirstFreshIsFirst(sources: seq<Source>, w: World, tick: nat)
    ensures FirstFresh(sources, w, tick).0 == None <==> forall k :: 0 <= k < |sources| ==> !Wins(sources, w, tick, k)
    ensures forall k :: 0 <= k < |sources| && Wins(sources, w, tick, k) && (forall j :: 0 <= j < k ==> !Wins(sources, w, tick, j)) ==>
              FirstFresh(sources, w, tick).0 == PriceOfSource(sources[k], w)
  {
    if sources != [] {
      var next := tick + if PriceOfSource(sources[0], w).Some? then 1 else 0;
      FirstFreshIsFirst(sources[1..], w, next);
      forall k | 0 <= k < |sources| - 1
        ensures Wins(sources, w, tick, k + 1) <==> Wins(sources[1..], w, next, k)
      {
        ReadingShifts(sources, w, tick, k);
      }
      if !Wins(sources, w, tick, 0) {
        WinsShift(sources, w, tick, next);
      }
    }
  }

  lemma WinsShift(sources: seq<Source>, w: World, tick: nat, next: nat)
    requires sources != []
    requires !Wins(sources, w, tick, 0)
    requires forall k :: 0 <= k < |sources| - 1 ==> (Wins(sources, w, tick, k + 1) <==> Wins(sources[1..], w, next, k))
    ensures (forall k :: 0 <= k < |sources| ==> !Wins(sources, w, tick, k))
       <==> (forall k :: 0 <= k < |sources| - 1 ==> !Wins(sources[1..], w, next, k))
    ensures forall k :: 0 < k < |sources| && Wins(sources, w, tick, k) && (forall j :: 0 <= j < k ==> !Wins(sources, w, tick, j)) ==>
              Wins(sources[1..], w, next, k - 1) && forall j :: 0 <= j < k - 1 ==> !Wins(sources[1..], w, next, j)
  {
    forall k | 0 < k < |sources| ensures Wins(sources, w, tick, k) <==> Wins(sources[1..], w, next, k - 1) {
      assert k == (k - 1) + 1;
    }
    forall j | 0 <= j < |sources| - 1 ensures Wins(sources[1..], w, next, j) <==> Wins(sources, w, tick, j + 1) {
    }
  }

  // ---------- admission ----------

  /** Registration admits a market whose every feed has a plan. */
  predicate Admitted(ids: seq<PriceId>, plans: seq<Plan>) {
    forall id :: id in ids ==> exists p :: p in plans && p.0 == id && p.1 != []
  }

  lemma {:induction false} PricedFeedsArePlanned(ids: seq<PriceId>, w: World, tick: nat, response: map<PriceId, Quote>)
    ensures forall id :: id in ComposeOneByOne(ids, w, tick, response).0 && id !in response ==>
              exists p :: p in Resolve(ids, w) && p.0 == id && p.1 != []
  {
    if ids != [] {
      match w.sources(ids[0])
      case None =>
        PricedFeedsArePlanned(ids[1..], w, tick, response);
      case Some(sources) =>
        var (price, next) := FirstFresh(sources, w, tick);
        CandidatesAgree(sources, w, tick);
        PricedFeedsArePlanned(ids[1..], w, next, if price.Some? then response[ids[0] := price.value] else response);
        if price.Some? {
          assert (ids[0], PlanSources(sources, w.legs)) in Resolve(ids, w);
        }
    }
  }

  /** A market whose round covers every feed is one registration admits. */
  lemma CoveredMarketsAreAdmitted(ids: seq<PriceId>, w: World)
    requires forall id :: id in ids ==> id in ComposeOneByOne(ids, w, 0, map[]).0
    ensures Admitted(ids, Resolve(ids, w))
  {
    PricedFeedsArePlanned(ids, w, 0, map[]);
  }
}
