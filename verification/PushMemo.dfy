// The memo that keeps concurrent liquidations from pushing one RedStone feed
// twice: `due_feeds`, `reserve_due` and `release` of src/redstone_push.rs as
// `update_redstone_prices` of src/oracle.rs uses them, then every interleaving
// of callers.

module PushMemo {
  import opened Foundations
  import opened Bytes
  import opened Payload

  type Adapter = nat
  type Instant = nat
  type Key = (Adapter, Feed)
  type Memo = map<Key, Instant>

  // ---------- the memo ----------

  predicate Due(memo: Memo, key: Key, interval: nat, now: Instant) {
    key in memo ==> SaturatingSub(now, memo[key]) >= interval
  }

  /** The due feeds. */
  function DueFeeds(memo: Memo, adapter: Adapter, feeds: seq<Feed>, interval: nat, now: Instant): (due: seq<Feed>)
    ensures forall f :: f in due <==> f in feeds && Due(memo, (adapter, f), interval, now)
    ensures |due| <= |feeds|
  {
    if feeds == [] then [] else
    var last := feeds[|feeds| - 1];
    DueFeeds(memo, adapter, feeds[..|feeds| - 1], interval, now)
    + if Due(memo, (adapter, last), interval, now) then [last] else []
  }

  lemma SubsequenceStep<T>(s: seq<T>, t: seq<T>, x: T, keep: bool)
    requires Subsequence(s, t)
    ensures Subsequence(s + if keep then [x] else [], t + [x])
  {
    if keep {
      SubsequenceExtends(s, t, x);
    } else {
      SubsequenceSkips(s, t, x);
      assert s + [] == s;
    }
  }

  /** They keep the caller's order. */
  lemma {:induction false} DueFeedsInOrder(memo: Memo, adapter: Adapter, feeds: seq<Feed>, interval: nat, now: Instant)
    ensures Subsequence(DueFeeds(memo, adapter, feeds, interval, now), feeds)
    decreases |feeds|
  {
    if feeds != [] {
      var init, last := feeds[..|feeds| - 1], feeds[|feeds| - 1];
      DueFeedsInOrder(memo, adapter, init, interval, now);
      SubsequenceStep(DueFeeds(memo, adapter, init, interval, now), init, last, Due(memo, (adapter, last), interval, now));
      assert init + [last] == feeds;
    }
  }

  function Keys(adapter: Adapter, feeds: seq<Feed>): set<Key> {
    set f | f in feeds :: (adapter, f)
  }

  function Stamped(memo: Memo, keys: set<Key>, at: Instant): Memo {
    map k | k in memo.Keys + keys :: if k in keys then at else memo[k]
  }

  lemma KeysAppend(adapter: Adapter, feeds: seq<Feed>, i: nat)
    requires i < |feeds|
    ensures Keys(adapter, feeds[..i + 1]) == Keys(adapter, feeds[..i]) + {(adapter, feeds[i])}
  {
  }

  datatype WriteAnswer = WriteFailed | WriteNotSucceeded | WriteSucceeded(landed: Instant)

  class PushMemory {
    var memo: Memo

    constructor ()
      ensures memo == map[]
    {
      memo := map[];
    }

    /** Records one instant for every feed. */
    method Record(adapter: Adapter, feeds: seq<Feed>, at: Instant)
      modifies this
      ensures memo == Stamped(old(memo), Keys(adapter, feeds), at)
    {
      for i := 0 to |feeds|
        invariant memo == Stamped(old(memo), Keys(adapter, feeds[..i]), at)
      {
        KeysAppend(adapter, feeds, i);
        memo := memo[(adapter, feeds[i]) := at];
      }
      assert feeds[..|feeds|] == feeds;
    }

    /** Grants the due feeds and stamps them, so that nobody else is granted
        them for the interval. */
    method ReserveDue(adapter: Adapter, feeds: seq<Feed>, interval: nat, now: Instant) returns (due: seq<Feed>)
      modifies this
      ensures due == DueFeeds(old(memo), adapter, feeds, interval, now)
      ensures memo == Stamped(old(memo), Keys(adapter, due), now)
      ensures interval > 0 ==> forall f :: f in feeds ==> !Due(memo, (adapter, f), interval, now)
    {
      due := DueFeeds(memo, adapter, feeds, interval, now);
      Record(adapter, due, now);
    }

    method Release(adapter: Adapter, feeds: seq<Feed>)
      modifies this
      ensures memo == old(memo) - Keys(adapter, feeds)
    {
      for i := 0 to |feeds|
        invariant memo == old(memo) - Keys(adapter, feeds[..i])
      {
        KeysAppend(adapter, feeds, i);
        memo := memo - {(adapter, feeds[i])};
      }
      assert feeds[..|feeds|] == feeds;
    }

    /** Other callers, for as long as an await takes: anything, as far as this
        caller knows. */
    method OtherCallers()
      modifies this
    {
    }

    /** One adapter's push. `rules` is what the config read answered. What is
        written is the payload built for exactly the due feeds. Whatever
        happens after the grant, the last thing this caller does to the memo is
        stamp its due feeds with the landing or forget them. */
    method UpdateRedstonePrices(adapter: Adapter, feeds: seq<Feed>, packages: map<Feed, seq<SignedPackage>>,
                                rules: Option<AdapterRules>, interval: nat, now: Instant, nowMs: u64,
                                recovery: Recovery, write: WriteAnswer)
      returns (updated: bool, due: seq<Feed>, written: Option<bytes>,
               ghost groups: seq<seq<SignedPackage>>, ghost granted: Memo, ghost settled: Memo)
      modifies this
      ensures rules == None ==> !updated && due == [] && written == None && memo == old(memo)
      ensures rules.Some? ==> due == DueFeeds(old(memo), adapter, feeds, interval, now)
      ensures rules.Some? ==> granted == Stamped(old(memo), Keys(adapter, due), now)
      ensures due == [] ==> !updated && written == None && memo == old(memo)
      ensures rules.Some? && due != [] ==>
                && (written.Some? <==> Buildable(packages, due, rules.value, IsUsable(rules.value, nowMs, recovery)))
                && (written.Some? ==>
                      && Groups(groups, packages, due, rules.value, IsUsable(rules.value, nowMs, recovery))
                      && (forall p :: p in Concat(groups) ==> Encodable(p))
                      && written.value == Encoded(Concat(groups)) + Trailer(|Concat(groups)|)
                      && Decode(written.value) == Some(Records(Concat(groups))))
                && (updated <==> written.Some? && write.WriteSucceeded?)
                && memo == if updated then Stamped(settled, Keys(adapter, due), write.landed) else settled - Keys(adapter, due)
    {
      updated, due, written, groups, granted, settled := false, [], None, [], memo, memo;
      if rules == None {
        return;
      }
      due := ReserveDue(adapter, feeds, interval, now);
      granted, settled := memo, memo;
      if due == [] {
        assert Keys(adapter, due) == {};
        return;
      }
      var built;
      built, groups := BuildPayload(packages, due, rules.value, nowMs, recovery);
      if built.Refused? {
        Release(adapter, due);
        return;
      }
      written := Some(built.payload);
      OtherCallers();
      settled := memo;
      match write {
        case WriteSucceeded(landed) =>
          Record(adapter, due, landed);
          updated := true;
        case _ =>
          Release(adapter, due);
      }
    }
  }

  // ---------- every interleaving ----------

  /** A caller's push between its grant and its settlement. */
  datatype Push = Push(adapter: Adapter, due: seq<Feed>, since: Instant)
  {
    function Held(): set<Key> {
      Keys(adapter, due)
    }
  }

  datatype World = World(clock: Instant, memo: Memo, pushes: map<nat, Push>)

  /** `now` and `at` are sampled before the lock is taken, so they may lag. */
  datatype Event =
    | Tick
    | Reserve(caller: nat, adapter: Adapter, feeds: seq<Feed>, interval: nat, now: Instant)
    | Land(caller: nat, at: Instant)
    | Fail(caller: nat)

  function Granted(w: World, e: Event): seq<Feed>
    requires e.Reserve?
  {
    DueFeeds(w.memo, e.adapter, e.feeds, e.interval, e.now)
  }

  predicate Grants(w: World, e: Event, k: Key) {
    e.Reserve? && k in Keys(e.adapter, Granted(w, e))
  }

  /** The event that settles a push holding the key. */
  predicate Ends(w: World, e: Event, k: Key) {
    (e.Land? || e.Fail?) && e.caller in w.pushes && k in w.pushes[e.caller].Held()
  }

  function Step(w: World, e: Event): Option<World> {
    match e
    case Tick => Some(w.(clock := w.clock + 1))
    case Reserve(caller, adapter, feeds, interval, now) =>
      if caller in w.pushes || now > w.clock then None else
      var due := Granted(w, e);
      Some(w.(memo := Stamped(w.memo, Keys(adapter, due), now),
              pushes := if due == [] then w.pushes else w.pushes[caller := Push(adapter, due, now)]))
    case Land(caller, at) =>
      if caller !in w.pushes || at > w.clock then None else
      Some(w.(memo := Stamped(w.memo, w.pushes[caller].Held(), at), pushes := w.pushes - {caller}))
    case Fail(caller) =>
      if caller !in w.pushes then None else
      Some(w.(memo := w.memo - w.pushes[caller].Held(), pushes := w.pushes - {caller}))
  }

  ghost predicate Run(worlds: seq<World>, events: seq<Event>) {
    && |worlds| == |events| + 1
    && worlds[0] == World(0, map[], map[])
    && forall i :: 0 <= i < |events| ==> Step(worlds[i], events[i]) == Some(worlds[i + 1])
  }

  ghost predicate HeldBy(w: World, caller: nat, k: Key) {
    caller in w.pushes && k in w.pushes[caller].Held()
  }

  /** At most one caller holds an (adapter, feed). */
  ghost predicate Exclusive(w: World) {
    forall c, d, k :: HeldBy(w, c, k) && HeldBy(w, d, k) ==> c == d
  }

  /** A held key's stamp is its holder's grant. */
  ghost predicate Stamps(w: World) {
    forall c, k :: HeldBy(w, c, k) ==> k in w.memo && w.memo[k] == w.pushes[c].since
  }

  /** The event asks for a key that some push has held for the whole interval. */
  ghost predicate Late(w: World, e: Event) {
    && e.Reserve?
    && exists c, k :: HeldBy(w, c, k) && k in Keys(e.adapter, e.feeds)
                      && SaturatingSub(e.now, w.pushes[c].since) >= e.interval
  }

  lemma StampsKept(w: World, e: Event, w': World)
    requires Stamps(w) && Exclusive(w) && Step(w, e) == Some(w')
    requires !Late(w, e)
    ensures Stamps(w')
  {
    forall c, k | HeldBy(w', c, k)
      ensures k in w'.memo && w'.memo[k] == w'.pushes[c].since
    {
      if e.Reserve? && c == e.caller {
      } else {
        assert HeldBy(w, c, k);
        if e.Land? || e.Fail? {
          assert !HeldBy(w, e.caller, k);
        }
      }
    }
  }

  /** One event keeps holders exclusive exactly when it does not ask for a key
      held for the interval or longer. */
  lemma StepKeepsExclusive(w: World, e: Event, w': World)
    requires Stamps(w) && Exclusive(w) && Step(w, e) == Some(w')
    ensures Exclusive(w') <==> !Late(w, e)
  {
    if Late(w, e) {
      var c, k :| HeldBy(w, c, k) && k in Keys(e.adapter, e.feeds) && SaturatingSub(e.now, w.pushes[c].since) >= e.interval;
      assert k.1 in Granted(w, e);
      assert HeldBy(w', c, k) && HeldBy(w', e.caller, k);
      assert !Exclusive(w');
    } else {
      forall c, d, k | HeldBy(w', c, k) && HeldBy(w', d, k)
        ensures c == d
      {
        if e.Reserve? && (c == e.caller || d == e.caller) {
          var other := if c == e.caller then d else c;
          assert other != e.caller ==> HeldBy(w, other, k);
        } else {
          assert HeldBy(w, c, k) && HeldBy(w, d, k);
        }
      }
    }
  }

  ghost predicate NeverLate(worlds: seq<World>, events: seq<Event>)
    requires |worlds| == |events| + 1
  {
    forall i :: 0 <= i < |events| ==> !Late(worlds[i], events[i])
  }

  lemma {:induction false} NeverLateKeeps(worlds: seq<World>, events: seq<Event>, n: nat)
    requires Run(worlds, events) && n <= |events|
    requires forall i :: 0 <= i < n ==> !Late(worlds[i], events[i])
    ensures Stamps(worlds[n]) && Exclusive(worlds[n])
  {
    if n > 0 {
      NeverLateKeeps(worlds, events, n - 1);
      StampsKept(worlds[n - 1], events[n - 1], worlds[n]);
      StepKeepsExclusive(worlds[n - 1], events[n - 1], worlds[n]);
    }
  }

  /** In any run, at most one caller holds a key at every moment exactly when no
      reservation ever asks for a key that has been held for its interval. */
  lemma ExclusiveIffNeverLate(worlds: seq<World>, events: seq<Event>)
    requires Run(worlds, events)
    ensures (forall i :: 0 <= i < |worlds| ==> Exclusive(worlds[i])) <==> NeverLate(worlds, events)
  {
    if NeverLate(worlds, events) {
      forall i | 0 <= i < |worlds| ensures Exclusive(worlds[i]) {
        NeverLateKeeps(worlds, events, i);
      }
    } else {
      var n := FirstLate(worlds, events);
      NeverLateKeeps(worlds, events, n);
      StepKeepsExclusive(worlds[n], events[n], worlds[n + 1]);
    }
  }

  lemma FirstLate(worlds: seq<World>, events: seq<Event>) returns (n: nat)
    requires |worlds| == |events| + 1 && !NeverLate(worlds, events)
    ensures n < |events| && Late(worlds[n], events[n])
    ensures forall i :: 0 <= i < n ==> !Late(worlds[i], events[i])
  {
    n := 0;
    while !Late(worlds[n], events[n])
      invariant n < |events|
      invariant forall i :: 0 <= i < n ==> !Late(worlds[i], events[i])
      decreases |events| - n
    {
      if n + 1 == |events| {
        assert NeverLate(worlds, events);
      }
      n := n + 1;
    }
  }

  /** Two callers, the second asking when the first's push is an interval old. */
  function Overlap(adapter: Adapter, feed: Feed, interval: nat): seq<Event> {
    [Reserve(0, adapter, [feed], interval, 0)] + seq(interval, i => Tick) + [Reserve(1, adapter, [feed], interval, interval)]
  }

  lemma FirstGrant(adapter: Adapter, feed: Feed, interval: nat)
    ensures Step(World(0, map[], map[]), Reserve(0, adapter, [feed], interval, 0))
         == Some(World(0, map[(adapter, feed) := 0], map[0 := Push(adapter, [feed], 0)]))
  {
    assert DueFeeds(map[], adapter, [feed][..0], interval, 0) == [];
    assert DueFeeds(map[], adapter, [feed], interval, 0) == [feed];
    assert Keys(adapter, [feed]) == {(adapter, feed)};
    assert Stamped(map[], {(adapter, feed)}, 0) == map[(adapter, feed) := 0];
  }

  lemma LateGrant(adapter: Adapter, feed: Feed, interval: nat)
    ensures Step(World(interval, map[(adapter, feed) := 0], map[0 := Push(adapter, [feed], 0)]),
                 Reserve(1, adapter, [feed], interval, interval))
         == Some(World(interval, map[(adapter, feed) := interval],
                       map[0 := Push(adapter, [feed], 0), 1 := Push(adapter, [feed], interval)]))
  {
    var memo: Memo := map[(adapter, feed) := 0];
    assert DueFeeds(memo, adapter, [feed][..0], interval, interval) == [];
    assert DueFeeds(memo, adapter, [feed], interval, interval) == [feed];
    assert Keys(adapter, [feed]) == {(adapter, feed)};
    assert Stamped(memo, {(adapter, feed)}, interval) == map[(adapter, feed) := interval];
  }

  /** The worlds of that run: before, while the first push ages, and after. */
  function OverlapWorld(adapter: Adapter, feed: Feed, interval: nat, i: nat): World {
    var key, first := (adapter, feed), Push(adapter, [feed], 0);
    if i == 0 then World(0, map[], map[])
    else if i <= interval + 1 then World(i - 1, map[key := 0], map[0 := first])
    else World(interval, map[key := interval], map[0 := first, 1 := Push(adapter, [feed], interval)])
  }

  lemma OverlapStep(adapter: Adapter, feed: Feed, interval: nat, i: nat)
    requires i <= interval + 1
    ensures Step(OverlapWorld(adapter, feed, interval, i), Overlap(adapter, feed, interval)[i])
         == Some(OverlapWorld(adapter, feed, interval, i + 1))
  {
    if i == 0 {
      FirstGrant(adapter, feed, interval);
    } else if i == interval + 1 {
      LateGrant(adapter, feed, interval);
    } else {
      assert Overlap(adapter, feed, interval)[i] == Tick;
    }
  }

  lemma OverlapHolds(adapter: Adapter, feed: Feed, interval: nat)
    ensures var end := OverlapWorld(adapter, feed, interval, interval + 2);
            HeldBy(end, 0, (adapter, feed)) && HeldBy(end, 1, (adapter, feed)) && !Exclusive(end)
  {
    var end := OverlapWorld(adapter, feed, interval, interval + 2);
    assert HeldBy(end, 0, (adapter, feed)) && HeldBy(end, 1, (adapter, feed));
  }

  /** Nothing bounds a push, so a late reservation can be reached: for every
      adapter, feed and interval, a run after which two callers hold the feed. */
  lemma LatePushesOverlap(adapter: Adapter, feed: Feed, interval: nat) returns (worlds: seq<World>)
    ensures Run(worlds, Overlap(adapter, feed, interval))
    ensures var end := worlds[|worlds| - 1];
            HeldBy(end, 0, (adapter, feed)) && HeldBy(end, 1, (adapter, feed)) && !Exclusive(end)
  {
    worlds := seq(interval + 3, i requires 0 <= i => OverlapWorld(adapter, feed, interval, i));
    forall i | 0 <= i < interval + 2
      ensures Step(worlds[i], Overlap(adapter, feed, interval)[i]) == Some(worlds[i + 1])
    {
      OverlapStep(adapter, feed, interval, i);
    }
    OverlapHolds(adapter, feed, interval);
  }

  /** Every push in flight when an adapter's feeds are asked for has been held
      for less than the adapter's interval. */
  ghost predicate Prompt(w: World, e: Event) {
    e.Reserve? ==> forall c :: c in w.pushes && w.pushes[c].adapter == e.adapter ==> w.clock - w.pushes[c].since < e.interval
  }

  /** Pushes that end within the interval keep holders exclusive. */
  lemma PromptPushesExclude(worlds: seq<World>, events: seq<Event>)
    requires Run(worlds, events)
    requires forall i :: 0 <= i < |events| ==> Prompt(worlds[i], events[i])
    ensures NeverLate(worlds, events)
    ensures forall i :: 0 <= i < |worlds| ==> Exclusive(worlds[i])
  {
    forall i | 0 <= i < |events| ensures !Late(worlds[i], events[i]) {
      SinceIsPast(worlds, events, i);
      assert Step(worlds[i], events[i]) == Some(worlds[i + 1]);
      assert forall c, k :: HeldBy(worlds[i], c, k) ==> worlds[i].pushes[c].adapter == k.0;
    }
    ExclusiveIffNeverLate(worlds, events);
  }

  lemma {:induction false} SinceIsPast(worlds: seq<World>, events: seq<Event>, n: nat)
    requires Run(worlds, events) && n <= |events|
    ensures forall c :: c in worlds[n].pushes ==> worlds[n].pushes[c].since <= worlds[n].clock
  {
    if n > 0 {
      SinceIsPast(worlds, events, n - 1);
      assert Step(worlds[n - 1], events[n - 1]) == Some(worlds[n]);
    }
  }

  /** Where a granted key stands later: still held, or ended at some event that
      left the key forgotten or stamped with the landing. */
  ghost predicate Since(worlds: seq<World>, events: seq<Event>, i: nat, end: nat, n: nat, k: Key)
    requires |worlds| == |events| + 1
    requires i < n <= |events| && events[i].Reserve?
  {
    if end == i then HeldBy(worlds[n], events[i].caller, k)
    else
      && i < end < n
      && Ends(worlds[end], events[end], k)
      && (forall c :: !HeldBy(worlds[n], c, k))
      && (events[end].Fail? ==> k !in worlds[n].memo)
      && (events[end].Land? ==> k in worlds[n].memo && worlds[n].memo[k] == events[end].at)
  }

  lemma StillHeld(w: World, e: Event, w': World, caller: nat, k: Key)
    requires Step(w, e) == Some(w') && HeldBy(w, caller, k)
    requires (e.Land? || e.Fail?) ==> e.caller != caller
    ensures HeldBy(w', caller, k)
  {
  }

  lemma JustEnded(w: World, e: Event, w': World, k: Key)
    requires Step(w, e) == Some(w') && Exclusive(w) && Ends(w, e, k)
    ensures forall c :: !HeldBy(w', c, k)
    ensures e.Fail? ==> k !in w'.memo
    ensures e.Land? ==> k in w'.memo && w'.memo[k] == e.at
  {
    assert HeldBy(w, e.caller, k);
    forall c | HeldBy(w', c, k) ensures false {
      assert HeldBy(w, c, k);
    }
  }

  /** A key nobody holds keeps its stamp until it is granted. */
  lemma StaysFree(w: World, e: Event, w': World, k: Key)
    requires Step(w, e) == Some(w') && !Grants(w, e, k)
    requires forall c :: !HeldBy(w, c, k)
    ensures forall c :: !HeldBy(w', c, k)
    ensures k in w'.memo <==> k in w.memo
    ensures k in w.memo ==> w'.memo[k] == w.memo[k]
  {
    forall c ensures !HeldBy(w', c, k) {
      assert !HeldBy(w, c, k);
    }
    if e.Land? || e.Fail? {
      assert !HeldBy(w, e.caller, k);
    }
  }

  lemma {:induction false} AfterGrant(worlds: seq<World>, events: seq<Event>, i: nat, n: nat, k: Key) returns (end: nat)
    requires Run(worlds, events) && NeverLate(worlds, events)
    requires i < n <= |events| && Grants(worlds[i], events[i], k)
    requires forall m :: i < m < n ==> !Grants(worlds[m], events[m], k)
    ensures Since(worlds, events, i, end, n, k)
  {
    var m := n - 1;
    var w, e, w' := worlds[m], events[m], worlds[n];
    assert Step(w, e) == Some(w');
    if m == i {
      return i;
    }
    end := AfterGrant(worlds, events, i, m, k);
    NeverLateKeeps(worlds, events, m);
    if end != i {
      StaysFree(w, e, w', k);
    } else if Ends(w, e, k) {
      JustEnded(w, e, w', k);
      end := m;
    } else {
      StillHeld(w, e, w', events[i].caller, k);
    }
  }

  lemma GrantedWasFree(w: World, e: Event, caller: nat, k: Key)
    requires Stamps(w) && !Late(w, e) && Grants(w, e, k)
    ensures !HeldBy(w, caller, k)
  {
  }

  /** A granted feed is granted again only after its push was settled, and if
      that was by a landing, only the interval after it. */
  lemma GrantedAgain(worlds: seq<World>, events: seq<Event>, i: nat, j: nat, k: Key) returns (end: nat)
    requires Run(worlds, events) && NeverLate(worlds, events)
    requires i < j < |events| && Grants(worlds[i], events[i], k) && Grants(worlds[j], events[j], k)
    requires forall m :: i < m < j ==> !Grants(worlds[m], events[m], k)
    ensures i < end < j && Ends(worlds[end], events[end], k)
    ensures events[end].Land? ==> SaturatingSub(events[j].now, events[end].at) >= events[j].interval
  {
    end := AfterGrant(worlds, events, i, j, k);
    NeverLateKeeps(worlds, events, j);
    GrantedWasFree(worlds[j], events[j], events[i].caller, k);
  }
}
