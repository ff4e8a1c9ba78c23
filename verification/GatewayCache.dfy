// The shared RedStone gateway client of src/redstone.rs: one fetch asks for
// every feed ever wanted, its snapshot serves callers for a while, and its
// failure is replayed to scans but never to a push. The client's lock is held
// across a fetch, so calls take effect one after another.

module GatewayCache {
  import opened Foundations
  import opened Payload

  type Instant = nat

  const PACKAGE_TTL: nat := 10_000
  const FAILURE_BACKOFF: nat := 10_000

  type PackageMap = map<Feed, seq<SignedPackage>>

  /** One gateway's answer; a service that tracks no requested feed (status
      513) is an empty answer, not a failure. */
  datatype GatewayAnswer = Served(packages: PackageMap) | NoTrackedFeeds | Broke(reason: nat)

  datatype Result = Ok(packages: PackageMap) | Err(reasons: seq<nat>)

  datatype Snapshot = Snapshot(fetchedAt: Instant, requested: set<Feed>, packages: PackageMap)

  datatype Failure = Failure(at: Instant, reasons: seq<nat>)

  datatype FetchState = FetchState(wanted: set<Feed>, last: Option<Snapshot>, lastFailure: Option<Failure>)

  const START := FetchState({}, None, None)

  /** A call: what a scan or a push asks for, when it got the lock, what each
      gateway would answer, and when a fetch would be done. */
  datatype Call = Call(feeds: seq<Feed>, replayFailure: bool, now: Instant, answers: seq<GatewayAnswer>, doneAt: Instant)

  /** `asked`: the feeds of the fetch the call made, if it made one. */
  datatype Reply = Reply(result: Result, asked: Option<set<Feed>>)

  /** The first gateway to answer decides; all must break to fail. */
  ghost predicate IsFirstAnswer(answers: seq<GatewayAnswer>, r: Result) {
    match r
    case Ok(packages) =>
      exists i :: 0 <= i < |answers|
                  && (answers[i] == Served(packages) || (answers[i] == NoTrackedFeeds && packages == map[]))
                  && forall j :: 0 <= j < i ==> answers[j].Broke?
    case Err(reasons) =>
      |reasons| == |answers| && forall i :: 0 <= i < |answers| ==> answers[i] == Broke(reasons[i])
  }

  lemma FirstAnswerUnique(answers: seq<GatewayAnswer>, a: Result, b: Result)
    requires IsFirstAnswer(answers, a) && IsFirstAnswer(answers, b)
    ensures a == b
  {
  }

  predicate FreshFor(last: Option<Snapshot>, c: Call) {
    && last.Some?
    && SaturatingSub(c.now, last.value.fetchedAt) < PACKAGE_TTL
    && forall f :: f in c.feeds ==> f in last.value.requested
  }

  predicate Replayed(lastFailure: Option<Failure>, c: Call) {
    c.replayFailure && lastFailure.Some? && SaturatingSub(c.now, lastFailure.value.at) < FAILURE_BACKOFF
  }

  function Widened(wanted: set<Feed>, feeds: seq<Feed>): set<Feed> {
    wanted + set f | f in feeds
  }

  /** How a call moves the state and what it replies. */
  ghost predicate Responds(s: FetchState, c: Call, s': FetchState, r: Reply) {
    if c.feeds == [] then s' == s && r == Reply(Ok(map[]), None)
    else
      var wanted := Widened(s.wanted, c.feeds);
      if FreshFor(s.last, c) then s' == s.(wanted := wanted) && r == Reply(Ok(s.last.value.packages), None)
      else if Replayed(s.lastFailure, c) then s' == s.(wanted := wanted) && r == Reply(Err(s.lastFailure.value.reasons), None)
      else
        && r.asked == Some(wanted)
        && IsFirstAnswer(c.answers, r.result)
        && s' == match r.result
                 case Ok(packages) => FetchState(wanted, Some(Snapshot(c.doneAt, wanted, packages)), None)
                 case Err(reasons) => FetchState(wanted, s.last, Some(Failure(c.doneAt, reasons)))
  }

  class GatewayClient {
    var wanted: set<Feed>
    var last: Option<Snapshot>
    var lastFailure: Option<Failure>

    ghost function State(): FetchState
      reads this
    {
      FetchState(wanted, last, lastFailure)
    }

    constructor ()
      ensures State() == START
    {
      wanted, last, lastFailure := {}, None, None;
    }

    /** Tries each gateway in order until one answers. */
    static method Fetch(answers: seq<GatewayAnswer>) returns (r: Result)
      ensures IsFirstAnswer(answers, r)
    {
      var reasons: seq<nat> := [];
      for i := 0 to |answers|
        invariant |reasons| == i
        invariant forall j :: 0 <= j < i ==> answers[j] == Broke(reasons[j])
      {
        match answers[i] {
          case Served(packages) => return Ok(packages);
          case NoTrackedFeeds => return Ok(map[]);
          case Broke(reason) => reasons := reasons + [reason];
        }
      }
      r := Err(reasons);
    }

    method Packages(c: Call) returns (r: Reply)
      modifies this
      ensures Responds(old(State()), c, State(), r)
    {
      if c.feeds == [] {
        return Reply(Ok(map[]), None);
      }
      wanted := Widened(wanted, c.feeds);
      if last.Some? && SaturatingSub(c.now, last.value.fetchedAt) < PACKAGE_TTL
         && (forall f :: f in c.feeds ==> f in last.value.requested) {
        return Reply(Ok(last.value.packages), None);
      }
      if lastFailure.Some? && c.replayFailure && SaturatingSub(c.now, lastFailure.value.at) < FAILURE_BACKOFF {
        return Reply(Err(lastFailure.value.reasons), None);
      }
      var requested := wanted;
      var fetched := Fetch(c.answers);
      match fetched {
        case Ok(packages) =>
          last := Some(Snapshot(c.doneAt, requested, packages));
          lastFailure := None;
        case Err(reasons) =>
          lastFailure := Some(Failure(c.doneAt, reasons));
      }
      r := Reply(fetched, Some(requested));
    }
  }

  // ---------- any sequence of calls, seen from outside ----------

  ghost predicate Run(states: seq<FetchState>, calls: seq<Call>, replies: seq<Reply>) {
    && |states| == |calls| + 1 == |replies| + 1
    && states[0] == START
    && forall i :: 0 <= i < |calls| ==> Responds(states[i], calls[i], states[i + 1], replies[i])
  }

  /** The latest call before n that fetched. */
  function LastFetch(replies: seq<Reply>, n: nat): (m: Option<nat>)
    requires n <= |replies|
    ensures m.Some? ==> m.value < n && replies[m.value].asked.Some?
    ensures forall i :: (if m.Some? then m.value else -1) < i < n ==> replies[i].asked.None?
  {
    if n == 0 then None
    else if replies[n - 1].asked.Some? then Some(n - 1)
    else LastFetch(replies, n - 1)
  }

  /** The latest call before n whose own fetch succeeded. */
  function LastSuccess(replies: seq<Reply>, n: nat): (m: Option<nat>)
    requires n <= |replies|
    ensures m.Some? ==> m.value < n && replies[m.value].asked.Some? && replies[m.value].result.Ok?
    ensures forall i :: (if m.Some? then m.value else -1) < i < n ==> replies[i].asked.None? || replies[i].result.Err?
  {
    if n == 0 then None
    else if replies[n - 1].asked.Some? && replies[n - 1].result.Ok? then Some(n - 1)
    else LastSuccess(replies, n - 1)
  }

  /** Every feed asked for in the first n calls. */
  function EverAsked(calls: seq<Call>, n: nat): set<Feed>
    requires n <= |calls|
  {
    set i, f | 0 <= i < n && f in calls[i].feeds :: f
  }

  /** The state holds the last success, the last fetch if it failed, and every
      feed asked for; nothing else of the past matters. */
  ghost predicate Remembers(s: FetchState, calls: seq<Call>, replies: seq<Reply>, n: nat)
    requires n <= |calls| == |replies|
  {
    && s.wanted == EverAsked(calls, n)
    && s.last == (match LastSuccess(replies, n)
                  case None => None
                  case Some(m) => Some(Snapshot(calls[m].doneAt, replies[m].asked.value, replies[m].result.packages)))
    && s.lastFailure == (match LastFetch(replies, n)
                         case None => None
                         case Some(m) =>
                           if replies[m].result.Ok? then None else Some(Failure(calls[m].doneAt, replies[m].result.reasons)))
  }

  lemma EverAskedGrows(calls: seq<Call>, n: nat)
    requires n < |calls|
    ensures EverAsked(calls, n + 1) == Widened(EverAsked(calls, n), calls[n].feeds)
  {
  }

  lemma LatestAfter(replies: seq<Reply>, n: nat)
    requires n < |replies|
    ensures LastFetch(replies, n + 1) == if replies[n].asked.Some? then Some(n) else LastFetch(replies, n)
    ensures LastSuccess(replies, n + 1) == if replies[n].asked.Some? && replies[n].result.Ok? then Some(n) else LastSuccess(replies, n)
  {
  }

  lemma RemembersAfter(s: FetchState, s': FetchState, calls: seq<Call>, replies: seq<Reply>, n: nat)
    requires n < |calls| == |replies|
    requires Remembers(s, calls, replies, n) && Responds(s, calls[n], s', replies[n])
    ensures Remembers(s', calls, replies, n + 1)
  {
    EverAskedGrows(calls, n);
    LatestAfter(replies, n);
    if replies[n].asked.None? {
      assert s' == s.(wanted := Widened(s.wanted, calls[n].feeds));
    }
  }

  lemma {:induction false} StateRemembers(states: seq<FetchState>, calls: seq<Call>, replies: seq<Reply>, n: nat)
    requires Run(states, calls, replies) && n <= |calls|
    ensures Remembers(states[n], calls, replies, n)
  {
    if n > 0 {
      StateRemembers(states, calls, replies, n - 1);
      RemembersAfter(states[n - 1], states[n], calls, replies, n - 1);
    } else {
      assert EverAsked(calls, 0) == {};
    }
  }

  /** The calls decide everything: two runs of the same calls give the same
      replies and states. */
  lemma {:induction false} CallsDecideReplies(states: seq<FetchState>, states': seq<FetchState>, calls: seq<Call>,
                                              replies: seq<Reply>, replies': seq<Reply>, n: nat)
    requires Run(states, calls, replies) && Run(states', calls, replies') && n <= |calls|
    ensures states[..n + 1] == states'[..n + 1] && replies[..n] == replies'[..n]
  {
    if n > 0 {
      CallsDecideReplies(states, states', calls, replies, replies', n - 1);
      assert states[n - 1] == states[..n][n - 1] == states'[..n][n - 1] == states'[n - 1];
      ReplyDecided(states[n - 1], calls[n - 1], states[n], replies[n - 1], states'[n], replies'[n - 1]);
      assert states[..n + 1] == states[..n] + [states[n]] && states'[..n + 1] == states'[..n] + [states'[n]];
      assert replies[..n] == replies[..n - 1] + [replies[n - 1]] && replies'[..n] == replies'[..n - 1] + [replies'[n - 1]];
    }
  }

  lemma ReplyDecided(s: FetchState, c: Call, t: FetchState, r: Reply, t': FetchState, r': Reply)
    requires Responds(s, c, t, r) && Responds(s, c, t', r')
    ensures r == r' && t == t'
  {
    if r.asked.Some? {
      FirstAnswerUnique(c.answers, r.result, r'.result);
    }
  }

  /** A successful fetch younger than the TTL that asked for all of the call's feeds. */
  ghost predicate ServedBy(calls: seq<Call>, replies: seq<Reply>, n: nat, m: nat)
    requires m < n < |calls| == |replies|
  {
    && replies[m].asked.Some? && replies[m].result.Ok?
    && SaturatingSub(calls[n].now, calls[m].doneAt) < PACKAGE_TTL
    && forall f :: f in calls[n].feeds ==> f in replies[m].asked.value
  }

  /** A failed fetch within the backoff. */
  ghost predicate BackedOffBy(calls: seq<Call>, replies: seq<Reply>, n: nat, m: nat)
    requires m < n < |calls| == |replies|
  {
    && replies[m].asked.Some? && replies[m].result.Err?
    && SaturatingSub(calls[n].now, calls[m].doneAt) < FAILURE_BACKOFF
  }

  /** Exactly when a call fetches: it asks for something, the last successful
      fetch does not serve it, and it is a push or the last fetch did not fail
      within the backoff. */
  lemma FetchesExactlyWhen(states: seq<FetchState>, calls: seq<Call>, replies: seq<Reply>, n: nat)
    requires Run(states, calls, replies) && n < |calls|
    ensures replies[n].asked.Some? <==>
              && calls[n].feeds != []
              && !(LastSuccess(replies, n).Some? && ServedBy(calls, replies, n, LastSuccess(replies, n).value))
              && !(calls[n].replayFailure && LastFetch(replies, n).Some? && BackedOffBy(calls, replies, n, LastFetch(replies, n).value))
    ensures replies[n].asked.Some? ==> replies[n].asked.value == EverAsked(calls, n + 1)
    ensures replies[n].asked.Some? ==> IsFirstAnswer(calls[n].answers, replies[n].result)
  {
    StateRemembers(states, calls, replies, n);
    EverAskedGrows(calls, n);
    assert Responds(states[n], calls[n], states[n + 1], replies[n]);
  }

  /** An answer without a fetch is the last successful fetch's, younger than
      the TTL and covering the caller's feeds. */
  lemma CachedAnswersAreFresh(states: seq<FetchState>, calls: seq<Call>, replies: seq<Reply>, n: nat)
    requires Run(states, calls, replies) && n < |calls|
    requires calls[n].feeds != [] && replies[n].asked.None? && replies[n].result.Ok?
    ensures LastSuccess(replies, n).Some? && ServedBy(calls, replies, n, LastSuccess(replies, n).value)
    ensures replies[n].result == replies[LastSuccess(replies, n).value].result
  {
    StateRemembers(states, calls, replies, n);
    assert Responds(states[n], calls[n], states[n + 1], replies[n]);
  }

  /** A replayed error went to a scan and is the last fetch's, from within the
      backoff; so a push only ever reports its own fetch's error. */
  lemma OnlyScansSeeReplayedErrors(states: seq<FetchState>, calls: seq<Call>, replies: seq<Reply>, n: nat)
    requires Run(states, calls, replies) && n < |calls|
    requires replies[n].asked.None? && replies[n].result.Err?
    ensures calls[n].replayFailure
    ensures LastFetch(replies, n).Some? && BackedOffBy(calls, replies, n, LastFetch(replies, n).value)
    ensures replies[n].result == replies[LastFetch(replies, n).value].result
  {
    StateRemembers(states, calls, replies, n);
    assert Responds(states[n], calls[n], states[n + 1], replies[n]);
  }

  /** A fetch while the last success is within the TTL asks for strictly more. */
  lemma RefetchAsksMore(states: seq<FetchState>, calls: seq<Call>, replies: seq<Reply>, n: nat)
    requires Run(states, calls, replies) && n < |calls|
    requires replies[n].asked.Some? && LastSuccess(replies, n).Some?
    requires SaturatingSub(calls[n].now, calls[LastSuccess(replies, n).value].doneAt) < PACKAGE_TTL
    ensures replies[LastSuccess(replies, n).value].asked.value < replies[n].asked.value
  {
    var m := LastSuccess(replies, n).value;
    FetchesExactlyWhen(states, calls, replies, n);
    FetchesExactlyWhen(states, calls, replies, m);
    assert EverAsked(calls, m + 1) <= EverAsked(calls, n + 1);
    var f :| f in calls[n].feeds && f !in replies[m].asked.value;
    assert f in EverAsked(calls, n + 1);
  }
}
