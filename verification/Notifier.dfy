// The failure alerts of src/notifier.rs: deduplicated within a cooldown,
// limited in flight by a semaphore, forgotten when a borrower recovers. Each
// call is one step.

module Notifier {
  import opened Foundations

  type Instant = nat
  type Market = string
  type Borrower = string
  type Kind = nat

  datatype Key = Key(market: Market, borrower: Borrower, kind: Kind)

  datatype Verdict =
    | Suppressed
    | Dropped    // the semaphore was full
    | Queued     // accepted; with no channel, silently

  const U32_MAX: nat := 0xFFFF_FFFF

  predicate Concerns(k: Key, market: Market, borrower: Borrower) {
    k.market == market && k.borrower == borrower
  }

  predicate Within(last: Instant, now: Instant, cooldown: nat) {
    SaturatingSub(now, last) < cooldown
  }

  function Retained(dedup: map<Key, Instant>, now: Instant, cooldown: nat): map<Key, Instant> {
    map k | k in dedup && Within(dedup[k], now, cooldown) :: dedup[k]
  }

  function Forgotten(dedup: map<Key, Instant>, market: Market, borrower: Borrower): map<Key, Instant> {
    map k | k in dedup && !Concerns(k, market, borrower) :: dedup[k]
  }

  /** `acquire_many` of the capacity, counted in 32 bits, would succeed. */
  predicate Drained(enabled: bool, capacity: nat, inflight: nat) {
    enabled ==> inflight + Min(capacity, U32_MAX) <= capacity
  }

  /** A drained notifier has nothing in flight, whatever is sent, exactly when
      its capacity fits 32 bits. */
  lemma DrainMeansIdleIff(capacity: nat)
    requires capacity > 0
    ensures (forall inflight: nat :: inflight <= capacity ==> (Drained(true, capacity, inflight) <==> inflight == 0)) <==>
              capacity <= U32_MAX
  {
    assert capacity > U32_MAX ==> Drained(true, capacity, 1);
  }

  /** With room for 2^32 messages and one of them being sent, a drain is over. */
  lemma LargeCapacityDrainsEarly()
    ensures Drained(true, 0x1_0000_0000, 1)
  {
  }

  datatype Limits = Limits(cooldown: nat, capacity: nat, enabled: bool)

  datatype State = State(dedup: map<Key, Instant>, inflight: nat)

  const START := State(map[], 0)

  datatype Event =
    | Failure(key: Key, now: Instant)
    | Recovery(market: Market, borrower: Borrower)
    | OtherMessage
    | SendFinished

  /** Whether a message finds room; without a channel nothing is sent. */
  predicate Accepts(s: State, l: Limits) {
    l.enabled ==> s.inflight < l.capacity
  }

  function Sent(s: State, l: Limits): State {
    if l.enabled && s.inflight < l.capacity then s.(inflight := s.inflight + 1) else s
  }

  /** How an event moves the state and what becomes of its message. */
  ghost predicate Moves(s: State, e: Event, l: Limits, s': State, v: Option<Verdict>) {
    match e
    case Failure(key, now) =>
      var kept := s.(dedup := Retained(s.dedup, now, l.cooldown));
      if key in kept.dedup then s' == kept && v == Some(Suppressed)
      else if Accepts(s, l) then s' == Sent(kept.(dedup := kept.dedup[key := now]), l) && v == Some(Queued)
      else s' == kept && v == Some(Dropped)
    case Recovery(market, borrower) => s' == s.(dedup := Forgotten(s.dedup, market, borrower)) && v == None
    case OtherMessage => s' == Sent(s, l) && v == Some(if Accepts(s, l) then Queued else Dropped)
    case SendFinished => s.inflight > 0 && s' == s.(inflight := s.inflight - 1) && v == None
  }

  class FailureNotifier {
    const cooldown: nat
    const maxInflight: nat
    const enabled: bool
    var failureDedup: map<Key, Instant>
    var inflight: nat

    ghost function Current(): State
      reads this
    {
      State(failureDedup, inflight)
    }

    ghost function Settings(): Limits {
      Limits(cooldown, maxInflight, enabled)
    }

    ghost predicate Valid()
      reads this
    {
      inflight <= maxInflight && 0 < maxInflight
    }

    /** A capacity of zero is taken as one. */
    constructor (enabled: bool, cooldown: nat, maxInflight: nat)
      ensures Valid() && Current() == START
      ensures Settings() == Limits(cooldown, Max(maxInflight, 1), enabled)
    {
      this.enabled, this.cooldown, this.maxInflight := enabled, cooldown, Max(maxInflight, 1);
      failureDedup, inflight := map[], 0;
    }

    method SpawnSend() returns (queued: bool)
      requires Valid()
      modifies this`inflight
      ensures Valid()
      ensures queued == Accepts(old(Current()), Settings())
      ensures Current() == Sent(old(Current()), Settings())
    {
      if !enabled {
        return true;
      }
      if inflight == maxInflight {
        return false;
      }
      inflight := inflight + 1;
      queued := true;
    }

    /** Collects what is stale, then records the key unless it is there. */
    method ShouldSendFailure(key: Key, now: Instant) returns (send: bool)
      modifies this`failureDedup
      ensures send <==> !(key in old(failureDedup) && SaturatingSub(now, old(failureDedup)[key]) < cooldown)
      ensures failureDedup == if send then Retained(old(failureDedup), now, cooldown)[key := now]
                              else Retained(old(failureDedup), now, cooldown)
    {
      failureDedup := Retained(failureDedup, now, cooldown);
      if key in failureDedup && Within(failureDedup[key], now, cooldown) {
        return false;
      }
      failureDedup := failureDedup[key := now];
      send := true;
    }

    method RollbackFailureDedup(key: Key)
      modifies this`failureDedup
      ensures failureDedup == old(failureDedup) - {key}
    {
      failureDedup := failureDedup - {key};
    }

    method NotifyLiquidationFailed(key: Key, now: Instant) returns (v: Verdict)
      requires Valid()
      modifies this`failureDedup, this`inflight
      ensures Valid()
      ensures Moves(old(Current()), Failure(key, now), Settings(), Current(), Some(v))
    {
      var send := ShouldSendFailure(key, now);
      if !send {
        return Suppressed;
      }
      var queued := SpawnSend();
      if !queued {
        RollbackFailureDedup(key);
        assert failureDedup == Retained(old(failureDedup), now, cooldown);
        return Dropped;
      }
      v := Queued;
    }

    method ClearFailureDedupFor(market: Market, borrower: Borrower)
      requires Valid()
      modifies this`failureDedup
      ensures Valid()
      ensures Moves(old(Current()), Recovery(market, borrower), Settings(), Current(), None)
      ensures forall k :: k in failureDedup <==> k in old(failureDedup) && (k.market != market || k.borrower != borrower)
      ensures forall k :: k in failureDedup ==> failureDedup[k] == old(failureDedup)[k]
    {
      failureDedup := Forgotten(failureDedup, market, borrower);
    }

    /** A background send is done and gives its permit back. */
    method FinishSend()
      requires Valid() && inflight > 0
      modifies this`inflight
      ensures Valid()
      ensures Moves(old(Current()), SendFinished, Settings(), Current(), None)
    {
      inflight := inflight - 1;
    }

    /** Drains within a timeout by which `finished` of the sends are done. */
    method Drain(finished: nat) returns (drained: bool)
      requires Valid() && finished <= inflight
      modifies this`inflight
      ensures Valid() && inflight == old(inflight) - finished
      ensures drained <==> Drained(enabled, maxInflight, inflight)
    {
      inflight := inflight - finished;
      if !enabled {
        return true;
      }
      var allPermits := if maxInflight <= U32_MAX then maxInflight else U32_MAX;
      drained := allPermits <= maxInflight - inflight;
    }
  }

  // ---------- any run ----------

  /** Times are read under the map's lock, so they never go back. */
  ghost predicate Run(states: seq<State>, events: seq<Event>, verdicts: seq<Option<Verdict>>, l: Limits) {
    && |states| == |events| + 1 == |verdicts| + 1
    && states[0] == START
    && (forall i :: 0 <= i < |events| ==> Moves(states[i], events[i], l, states[i + 1], verdicts[i]))
    && forall i, j :: 0 <= i < j < |events| && events[i].Failure? && events[j].Failure? ==> events[i].now <= events[j].now
  }

  ghost predicate AcceptedAt(events: seq<Event>, verdicts: seq<Option<Verdict>>, m: nat, k: Key)
    requires m < |events| == |verdicts|
  {
    events[m].Failure? && events[m].key == k && verdicts[m] == Some(Queued)
  }

  /** No recovery of the key's borrower strictly between two events. */
  ghost predicate NotCleared(events: seq<Event>, m: nat, n: nat, k: Key)
    requires m < n <= |events|
  {
    forall j :: m < j < n && events[j].Recovery? ==> events[j].market != k.market || events[j].borrower != k.borrower
  }

  /** An accepted alert still remembered before event n: neither cleared nor
      aged out at any failure since. */
  ghost predicate Live(events: seq<Event>, verdicts: seq<Option<Verdict>>, l: Limits, m: nat, n: nat, k: Key)
    requires m < n <= |events| == |verdicts|
  {
    && AcceptedAt(events, verdicts, m, k)
    && NotCleared(events, m, n, k)
    && forall j :: m < j < n && events[j].Failure? ==> Within(events[m].now, events[j].now, l.cooldown)
  }

  ghost predicate Remembers(dedup: map<Key, Instant>, events: seq<Event>, verdicts: seq<Option<Verdict>>, l: Limits, n: nat)
    requires n <= |events| == |verdicts|
  {
    && (forall k :: k in dedup ==> exists m :: 0 <= m < n && Live(events, verdicts, l, m, n, k) && events[m].now == dedup[k])
    && forall m, k :: 0 <= m < n && Live(events, verdicts, l, m, n, k) ==> k in dedup && dedup[k] == events[m].now
  }

  /** A remembered alert stays remembered over one more event exactly when that
      event neither clears nor ages it. */
  lemma LiveStep(events: seq<Event>, verdicts: seq<Option<Verdict>>, l: Limits, m: nat, n: nat, k: Key)
    requires m < n < |events| == |verdicts|
    ensures Live(events, verdicts, l, m, n + 1, k) <==>
              && Live(events, verdicts, l, m, n, k)
              && (events[n].Recovery? ==> !Concerns(k, events[n].market, events[n].borrower))
              && (events[n].Failure? ==> Within(events[m].now, events[n].now, l.cooldown))
  {
  }

  lemma RememberedBefore(states: seq<State>, events: seq<Event>, verdicts: seq<Option<Verdict>>, l: Limits, n: nat, k: Key)
    requires Run(states, events, verdicts, l) && n < |events|
    requires Remembers(states[n].dedup, events, verdicts, l, n)
    requires k in states[n + 1].dedup
    ensures exists m :: 0 <= m < n + 1 && Live(events, verdicts, l, m, n + 1, k) && events[m].now == states[n + 1].dedup[k]
  {
    assert Moves(states[n], events[n], l, states[n + 1], verdicts[n]);
    if AcceptedAt(events, verdicts, n, k) {
      assert Live(events, verdicts, l, n, n + 1, k);
    } else {
      var m :| 0 <= m < n && Live(events, verdicts, l, m, n, k) && events[m].now == states[n].dedup[k];
      LiveStep(events, verdicts, l, m, n, k);
    }
  }

  lemma StillRemembered(states: seq<State>, events: seq<Event>, verdicts: seq<Option<Verdict>>, l: Limits, n: nat, m: nat, k: Key)
    requires Run(states, events, verdicts, l) && m <= n < |events|
    requires Remembers(states[n].dedup, events, verdicts, l, n)
    requires Live(events, verdicts, l, m, n + 1, k)
    ensures k in states[n + 1].dedup && states[n + 1].dedup[k] == events[m].now
  {
    assert Moves(states[n], events[n], l, states[n + 1], verdicts[n]);
    if m < n {
      LiveStep(events, verdicts, l, m, n, k);
    }
  }

  lemma {:induction false} StateRemembers(states: seq<State>, events: seq<Event>, verdicts: seq<Option<Verdict>>, l: Limits, n: nat)
    requires Run(states, events, verdicts, l) && n <= |events|
    ensures Remembers(states[n].dedup, events, verdicts, l, n)
  {
    if n > 0 {
      StateRemembers(states, events, verdicts, l, n - 1);
      forall k | k in states[n].dedup
        ensures exists m :: 0 <= m < n && Live(events, verdicts, l, m, n, k) && events[m].now == states[n].dedup[k]
      {
        RememberedBefore(states, events, verdicts, l, n - 1, k);
      }
      forall m, k | 0 <= m < n && Live(events, verdicts, l, m, n, k)
        ensures k in states[n].dedup && states[n].dedup[k] == events[m].now
      {
        StillRemembered(states, events, verdicts, l, n - 1, m, k);
      }
    }
  }

  /** An alert is suppressed exactly when one with its key was accepted within
      the cooldown and its borrower has not recovered since. So a dropped or
      suppressed alert never suppresses another. */
  lemma SuppressedExactlyWhen(states: seq<State>, events: seq<Event>, verdicts: seq<Option<Verdict>>, l: Limits, n: nat)
    requires Run(states, events, verdicts, l) && n < |events| && events[n].Failure?
    ensures verdicts[n] == Some(Suppressed) <==>
              exists m :: 0 <= m < n && AcceptedAt(events, verdicts, m, events[n].key) && NotCleared(events, m, n, events[n].key)
                          && events[n].now - events[m].now < l.cooldown
  {
    StateRemembers(states, events, verdicts, l, n);
    assert Moves(states[n], events[n], l, states[n + 1], verdicts[n]);
    var k := events[n].key;
    if verdicts[n] == Some(Suppressed) {
      var m :| 0 <= m < n && Live(events, verdicts, l, m, n, k) && events[m].now == states[n].dedup[k];
    }
    forall m | 0 <= m < n && AcceptedAt(events, verdicts, m, k) && NotCleared(events, m, n, k)
               && events[n].now - events[m].now < l.cooldown
      ensures verdicts[n] == Some(Suppressed)
    {
      assert Live(events, verdicts, l, m, n, k);
    }
  }

  /** Two accepted alerts of one key are a cooldown apart, unless the borrower
      recovered in between. */
  lemma AcceptedAlertsAreApart(states: seq<State>, events: seq<Event>, verdicts: seq<Option<Verdict>>, l: Limits, m: nat, n: nat, k: Key)
    requires Run(states, events, verdicts, l) && m < n < |events|
    requires AcceptedAt(events, verdicts, m, k) && AcceptedAt(events, verdicts, n, k) && NotCleared(events, m, n, k)
    ensures events[n].now - events[m].now >= l.cooldown
  {
    SuppressedExactlyWhen(states, events, verdicts, l, n);
    assert !(events[n].now - events[m].now < l.cooldown);
  }

  // ---------- in flight ----------

  /** Messages handed to the channel minus those done. */
  function Outstanding(events: seq<Event>, verdicts: seq<Option<Verdict>>): int
    requires |events| == |verdicts|
  {
    if events == [] then 0 else
    var n := |events| - 1;
    Outstanding(events[..n], verdicts[..n])
    + if verdicts[n] == Some(Queued) then 1 else if events[n].SendFinished? then -1 else 0
  }

  lemma OutstandingAfter(events: seq<Event>, verdicts: seq<Option<Verdict>>, n: nat)
    requires n < |events| == |verdicts|
    ensures Outstanding(events[..n + 1], verdicts[..n + 1]) ==
              Outstanding(events[..n], verdicts[..n])
              + if verdicts[n] == Some(Queued) then 1 else if events[n].SendFinished? then -1 else 0
  {
    assert events[..n + 1][..n] == events[..n] && verdicts[..n + 1][..n] == verdicts[..n];
  }

  /** Sends in flight are exactly the queued messages not yet done, and never
      more than the capacity. */
  lemma {:induction false} InFlightIsOutstanding(states: seq<State>, events: seq<Event>, verdicts: seq<Option<Verdict>>, l: Limits, n: nat)
    requires Run(states, events, verdicts, l) && n <= |events| && l.enabled
    ensures states[n].inflight == Outstanding(events[..n], verdicts[..n]) <= l.capacity
  {
    if n > 0 {
      InFlightIsOutstanding(states, events, verdicts, l, n - 1);
      assert Moves(states[n - 1], events[n - 1], l, states[n], verdicts[n - 1]);
      OutstandingAfter(events, verdicts, n - 1);
    }
  }

  /** A message that is not suppressed is dropped exactly when the channel is
      full: the capacity's worth of messages is outstanding. */
  lemma DroppedExactlyWhenFull(states: seq<State>, events: seq<Event>, verdicts: seq<Option<Verdict>>, l: Limits, n: nat)
    requires Run(states, events, verdicts, l) && n < |events| && l.enabled
    requires verdicts[n].Some? && verdicts[n] != Some(Suppressed)
    ensures verdicts[n] == Some(Dropped) <==> Outstanding(events[..n], verdicts[..n]) == l.capacity
  {
    InFlightIsOutstanding(states, events, verdicts, l, n);
    assert Moves(states[n], events[n], l, states[n + 1], verdicts[n]);
  }
}
