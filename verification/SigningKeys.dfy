/** The signing-key cache of `AccessIdentity` (backend/core/access_identity.py), over any
    run of requests on a monotone clock with arbitrary key ids and fetch outcomes. */
module SigningKeys {
  import opened Wrappers

  type Key = string
  type Keys = map<string, Key>

  const JWKS_REFETCH_MIN_INTERVAL_SECONDS := 60.0
  const JWKS_GRACE_SECONDS := 21600.0
  const JWKS_RETRY_INTERVAL_SECONDS := 30.0
  const JWKS_WARN_INTERVAL_SECONDS := 60.0

  type Duration = t: real | t >= 0.0 witness 0.0

  /** How a fetch ends and how long it took. `Escaped` is any exception `_FETCH_ERRORS`
      does not name, a cancelled request among them: nothing is remembered of it. */
  datatype Fetch =
    | Fetched(keys: Keys, took: Duration)
    | Failed(error: string, took: Duration)
    | Escaped(took: Duration)

  /** The object's fields; None for a time of minus infinity. */
  datatype Cache = Cache(
    ttl: real, jwks: Option<Keys>, fetchedAt: real,
    failedAt: Option<real>, lastError: Option<string>, warnedAt: Option<real>)

  function Fresh(ttl: real): Cache {
    Cache(ttl, None, 0.0, None, None, None)
  }

  /** `now - at >= interval`, where `at` may be minus infinity. */
  predicate Elapsed(now: real, at: Option<real>, interval: real) {
    at.None? || now - at.value >= interval
  }

  // ── the pieces ────────────────────────────────────────────────────────────

  /** `_try_refresh`: the cache afterwards. */
  function TryRefresh(c: Cache, now: real, fetch: Fetch): Cache {
    match fetch
    case Fetched(keys, took) => c.(jwks := Some(keys), fetchedAt := now + took, lastError := None)
    case Failed(error, _) => c.(failedAt := Some(now), lastError := Some(error))
    case Escaped(_) => c
  }

  /** `_warn_outage`: one line per interval. */
  function WarnOutage(c: Cache, now: real): Cache {
    if Elapsed(now, c.warnedAt, JWKS_WARN_INTERVAL_SECONDS) then c.(warnedAt := Some(now)) else c
  }

  predicate NeedsRefresh(c: Cache, now: real) {
    c.jwks.None? || now - c.fetchedAt > c.ttl
  }

  /** `_usable_keys` asks for the keys. */
  predicate RefreshesFirst(c: Cache, now: real) {
    NeedsRefresh(c, now) && Elapsed(now, c.failedAt, JWKS_RETRY_INTERVAL_SECONDS)
  }

  predicate PastGrace(c: Cache, now: real) {
    c.jwks.None? || now - c.fetchedAt > c.ttl + JWKS_GRACE_SECONDS
  }

  datatype Answer =
    | NoKeyId                  // the token names no key: refused before the lock
    | Unavailable              // _KeysUnavailable
    | Unknown                  // judged: not among the keys
    | Found(key: Key)          // judged: the key
    | Raised                   // an escaped exception

  /** What one request did: its answer, when each fetch it made started, and the fetch time
      of the key set it was judged against. */
  datatype Effect = Effect(cache: Cache, answer: Answer, fetches: seq<real>, judgedBy: Option<real>, end: real)

  /** One request: the time it entered the lock, the key id its token names, and how the
      fetch of `_usable_keys` and that of `_signing_key` would end. */
  datatype Request = Request(now: real, kid: string, first: Fetch, second: Fetch)

  function Judge(c: Cache, kid: string): Answer
    requires c.jwks.Some?
  {
    if kid in c.jwks.value then Found(c.jwks.value[kid]) else Unknown
  }

  predicate Judged(answer: Answer) {
    answer.Found? || answer.Unknown?
  }

  /** `_usable_keys`, and then `_signing_key` on the keys it returned. */
  function Handle(c: Cache, r: Request): Effect {
    if r.kid == "" then Effect(c, NoKeyId, [], None, r.now)
    else if !NeedsRefresh(c, r.now) then LookUp(c, r, [], r.now)
    else if RefreshesFirst(c, r.now) then
      var after := TryRefresh(c, r.now, r.first);
      var end := r.now + r.first.took;
      match r.first
      case Fetched(_, _) => LookUp(after, r, [r.now], end)
      case Failed(_, _) => FallBack(after, r, [r.now], end)
      case Escaped(_) => Effect(after, Raised, [r.now], None, end)
    else FallBack(c, r, [], r.now)
  }

  /** No fresh set to be had: the held one within its grace, or a refusal. */
  function FallBack(c: Cache, r: Request, fetches: seq<real>, end: real): Effect {
    var warned := WarnOutage(c, r.now);
    if PastGrace(c, r.now) then Effect(warned, Unavailable, fetches, None, end)
    else LookUp(warned, r, fetches, end)
  }

  /** The lookup, refetching once if the key id is new and a fetch is not floored. */
  function LookUp(c: Cache, r: Request, fetches: seq<real>, end: real): Effect
    requires c.jwks.Some?
  {
    if r.kid in c.jwks.value
       || r.now - c.fetchedAt < JWKS_REFETCH_MIN_INTERVAL_SECONDS
       || !Elapsed(r.now, c.failedAt, JWKS_RETRY_INTERVAL_SECONDS)
    then Effect(c, Judge(c, r.kid), fetches, Some(c.fetchedAt), end)
    else
      var after := TryRefresh(c, r.now, r.second);
      var asked, later := fetches + [end], end + r.second.took;
      match r.second
      case Fetched(_, _) => Effect(after, Judge(after, r.kid), asked, Some(after.fetchedAt), later)
      case Failed(_, _) => Effect(after, Unknown, asked, Some(after.fetchedAt), later)
      case Escaped(_) => Effect(after, Raised, asked, None, later)
  }

  // ── the class ─────────────────────────────────────────────────────────────

  class AccessIdentity {
    const ttl: real
    var jwks: Option<Keys>
    var fetchedAt: real
    var failedAt: Option<real>
    var lastError: Option<string>
    var warnedAt: Option<real>

    constructor (ttl: real)
      ensures Model() == Fresh(ttl)
    {
      this.ttl := ttl;
      jwks, fetchedAt, failedAt, lastError, warnedAt := None, 0.0, None, None, None;
    }

    function Model(): Cache
      reads this
    {
      Cache(ttl, jwks, fetchedAt, failedAt, lastError, warnedAt)
    }

    /** True on a new key set, false on a remembered failure, None where it raises. */
    method TryRefreshKeys(now: real, fetch: Fetch) returns (ok: Option<bool>)
      modifies this
      ensures Model() == TryRefresh(old(Model()), now, fetch)
      ensures ok == match fetch
                    case Fetched(_, _) => Some(true)
                    case Failed(_, _) => Some(false)
                    case Escaped(_) => None
    {
      match fetch
      case Fetched(keys, took) =>
        jwks, fetchedAt, lastError := Some(keys), now + took, None;
        ok := Some(true);
      case Failed(error, _) =>
        failedAt, lastError := Some(now), Some(error);
        ok := Some(false);
      case Escaped(_) =>
        ok := None;
    }

    method Warn(now: real)
      modifies this
      ensures Model() == WarnOutage(old(Model()), now)
    {
      if !Elapsed(now, warnedAt, JWKS_WARN_INTERVAL_SECONDS) { return; }
      warnedAt := Some(now);
    }

    /** The set to use is the one held, unless `stop` says how the request ends instead. */
    method UsableKeys(r: Request) returns (stop: Option<Answer>, fetches: seq<real>, end: real)
      requires r.kid != ""
      modifies this
      ensures stop.Some? ==> Effect(Model(), stop.value, fetches, None, end) == Handle(old(Model()), r)
      ensures stop.None? ==> jwks.Some? && LookUp(Model(), r, fetches, end) == Handle(old(Model()), r)
    {
      stop, fetches, end := None, [], r.now;
      if jwks.Some? && r.now - fetchedAt <= ttl { return; }
      if Elapsed(r.now, failedAt, JWKS_RETRY_INTERVAL_SECONDS) {
        fetches, end := [r.now], r.now + r.first.took;
        var ok := TryRefreshKeys(r.now, r.first);
        if ok.None? { return Some(Raised), fetches, end; }
        if ok.value { return; }
      }
      Warn(r.now);
      if jwks.None? || r.now - fetchedAt > ttl + JWKS_GRACE_SECONDS { stop := Some(Unavailable); }
    }

    method SigningKey(r: Request) returns (effect: Effect)
      modifies this
      ensures effect == Handle(old(Model()), r) && Model() == effect.cache
    {
      if r.kid == "" { return Effect(Model(), NoKeyId, [], None, r.now); }
      var stop, fetches, end := UsableKeys(r);
      if stop.Some? { return Effect(Model(), stop.value, fetches, None, end); }
      if r.kid in jwks.value { return Effect(Model(), Found(jwks.value[r.kid]), fetches, Some(fetchedAt), end); }
      if r.now - fetchedAt < JWKS_REFETCH_MIN_INTERVAL_SECONDS || !Elapsed(r.now, failedAt, JWKS_RETRY_INTERVAL_SECONDS) {
        return Effect(Model(), Unknown, fetches, Some(fetchedAt), end);
      }
      fetches := fetches + [end];
      end := end + r.second.took;
      var ok := TryRefreshKeys(r.now, r.second);
      if ok.None? { return Effect(Model(), Raised, fetches, None, end); }
      if !ok.value { return Effect(Model(), Unknown, fetches, Some(fetchedAt), end); }
      effect := Effect(Model(), Judge(Model(), r.kid), fetches, Some(fetchedAt), end);
    }
  }

  // ── one request ───────────────────────────────────────────────────────────

  /** A request makes at most one fetch, and it starts when the request does. */
  lemma OneFetchPerRequest(c: Cache, r: Request)
    ensures Handle(c, r).fetches == [] || Handle(c, r).fetches == [r.now]
    ensures Handle(c, r).end >= r.now
  {
  }

  /** A judged request answers what the set held afterwards says of its key id: the key, if the
      set has one, and otherwise that it is unknown. A set the request fetched is that set. */
  lemma AnswersFromTheSetHeld(c: Cache, r: Request)
    ensures var e := Handle(c, r);
            e.answer.Found? || e.answer.Unknown? ==>
              && e.cache.jwks.Some? && e.judgedBy == Some(e.cache.fetchedAt)
              && forall key :: e.answer == Found(key) <==> r.kid in e.cache.jwks.value && e.cache.jwks.value[r.kid] == key
    ensures r.kid == "" <==> Handle(c, r).answer == NoKeyId
  {
  }

  /** A rotated key is found by the very request that learns of it, whichever of its two fetches
      that was. */
  lemma LearntKeyAnswers(c: Cache, r: Request)
    requires Asks(c, r) && Asked(c, r).Fetched? && r.kid in Asked(c, r).keys
    ensures Handle(c, r).answer == Found(Asked(c, r).keys[r.kid])
  {
    FetchLeavesItsMark(c, r);
    AnswersFromTheSetHeld(c, r);
  }

  /** Only a fetch changes what is remembered: a set is dated when its fetch ended, a failure when
      the request began, and an escaped exception leaves nothing. */
  lemma FetchLeavesItsMark(c: Cache, r: Request)
    ensures var e := Handle(c, r);
            if Asks(c, r) && Asked(c, r).Fetched? then
              && e.cache.jwks == Some(Asked(c, r).keys) && e.cache.fetchedAt == e.end
              && e.cache.failedAt == c.failedAt && e.cache.lastError.None?
            else
              && e.cache.jwks == c.jwks && e.cache.fetchedAt == c.fetchedAt
              && if Asks(c, r) && Asked(c, r).Failed? then
                   e.cache.failedAt == Some(r.now) && e.cache.lastError == Some(Asked(c, r).error)
                 else e.cache.failedAt == c.failedAt && e.cache.lastError == c.lastError
  {
  }

  /** A request fetches exactly when 30 s have passed since the last remembered failure, and the
      set held is absent, older than its time to live, or a minute old without the key id. */
  lemma FetchesExactlyWhenDue(c: Cache, r: Request)
    requires c.ttl >= 0.0
    ensures Handle(c, r).fetches != []
        <==> r.kid != ""
             && (c.failedAt.None? || r.now - c.failedAt.value >= 30.0)
             && (c.jwks.None? || r.now - c.fetchedAt > c.ttl
                 || (r.kid !in c.jwks.value && r.now - c.fetchedAt >= 60.0))
  {
  }

  /** A request is refused for lack of keys exactly when the set held, if any, is past its
      time to live and 6 h, and the fetch it would take to replace it is floored or fails. */
  lemma RefusedExactlyWithoutUsableKeys(c: Cache, r: Request)
    requires r.kid != "" && c.ttl >= 0.0
    ensures Handle(c, r).answer == Unavailable
        <==> (c.jwks.None? || r.now - c.fetchedAt > c.ttl + 21600.0)
             && ((c.failedAt.Some? && r.now - c.failedAt.value < 30.0) || r.first.Failed?)
    ensures Judged(Handle(c, r).answer) <==> Handle(c, r).judgedBy.Some?
  {
  }

  /** Every set a request is judged against was fetched at most `ttl` and the grace before the
      request began, and so before its own fetch, if it waited for one. */
  lemma JudgedByYoungKeys(c: Cache, r: Request)
    requires c.ttl >= 0.0 && Handle(c, r).judgedBy.Some?
    ensures r.now - Handle(c, r).judgedBy.value <= c.ttl + JWKS_GRACE_SECONDS
    ensures var e := Handle(c, r); e.end - e.judgedBy.value <= c.ttl + JWKS_GRACE_SECONDS + (e.end - r.now)
  {
  }

  /** The held set outlives its grace while the request waits for a fetch that fails. */
  predicate Overstays(c: Cache, r: Request) {
    Asks(c, r) && Asked(c, r).Failed? && r.now + Asked(c, r).took - c.fetchedAt > c.ttl + JWKS_GRACE_SECONDS
  }

  /** At the moment it is used a set is at most `ttl` and the grace old, but for exactly that. */
  lemma UsedInGraceExactlyUnlessOverstaying(c: Cache, r: Request)
    requires c.ttl >= 0.0 && Handle(c, r).judgedBy.Some?
    ensures Handle(c, r).end - Handle(c, r).judgedBy.value <= c.ttl + JWKS_GRACE_SECONDS <==> !Overstays(c, r)
  {
    FetchesExactlyWhenAsking(c, r);
  }

  /** Keys of 300 s fetched at 0, judged against at 21910: the request came at 21900 and waited
      10 s for a fetch that failed. */
  lemma KeysUsedPastTheirGrace() returns (c: Cache, r: Request)
    ensures c.ttl == 300.0 && r.kid != "" && Overstays(c, r)
    ensures Handle(c, r).answer == Found("key") && Handle(c, r).judgedBy == Some(0.0) && Handle(c, r).end == 21910.0
  {
    c := Cache(300.0, Some(map["kid" := "key"]), 0.0, None, None, None);
    r := Request(21900.0, "kid", Failed("down", 10.0), Failed("down", 0.0));
  }

  // ── runs ──────────────────────────────────────────────────────────────────

  /** Requests one at a time, as the lock makes them: none starts before the last ended. */
  predicate Serial(requests: seq<Request>, from: real, c: Cache)
    decreases |requests|
  {
    requests == [] ||
    (requests[0].now >= from && Serial(requests[1..], Handle(c, requests[0]).end, Handle(c, requests[0]).cache))
  }

  /** When every fetch of the run started. */
  function Fetches(c: Cache, requests: seq<Request>): seq<real>
    decreases |requests|
  {
    if requests == [] then []
    else
      var e := Handle(c, requests[0]);
      e.fetches + Fetches(e.cache, requests[1..])
  }

  /** Every time the run sets `_warned_at`: when the request that warns began. */
  function Stamps(c: Cache, requests: seq<Request>): seq<real>
    decreases |requests|
  {
    if requests == [] then []
    else
      var e := Handle(c, requests[0]);
      (if e.cache.warnedAt != c.warnedAt then [requests[0].now] else []) + Stamps(e.cache, requests[1..])
  }

  /** When every outage line of the run was logged: once any refresh it waited for had failed. */
  function Warnings(c: Cache, requests: seq<Request>): seq<real>
    decreases |requests|
  {
    if requests == [] then []
    else
      var e := Handle(c, requests[0]);
      (if e.cache.warnedAt != c.warnedAt then [e.end] else []) + Warnings(e.cache, requests[1..])
  }

  function After(c: Cache, requests: seq<Request>): Cache
    decreases |requests|
  {
    if requests == [] then c else After(Handle(c, requests[0]).cache, requests[1..])
  }

  /** `_signing_key` asks again: the key id is new and nothing floors the question. */
  predicate Refetches(c: Cache, r: Request) {
    && c.jwks.Some? && !PastGrace(c, r.now) && r.kid !in c.jwks.value
    && r.now - c.fetchedAt >= JWKS_REFETCH_MIN_INTERVAL_SECONDS
    && Elapsed(r.now, c.failedAt, JWKS_RETRY_INTERVAL_SECONDS)
  }

  predicate Asks(c: Cache, r: Request) {
    r.kid != "" && (RefreshesFirst(c, r.now) || Refetches(c, r))
  }

  /** The fetch this request makes, if it makes one. */
  function Asked(c: Cache, r: Request): Fetch {
    if RefreshesFirst(c, r.now) then r.first else r.second
  }

  /** The request fetches, and in under 30 s that fetch ends in an exception no one names. */
  predicate Escapes(c: Cache, r: Request) {
    Asks(c, r) && Asked(c, r).Escaped? && Asked(c, r).took < JWKS_RETRY_INTERVAL_SECONDS
  }

  lemma FetchesExactlyWhenAsking(c: Cache, r: Request)
    ensures Handle(c, r).fetches != [] <==> Asks(c, r)
    ensures Handle(c, r).answer == Raised <==> Asks(c, r) && Asked(c, r).Escaped?
    ensures Asks(c, r) ==> Handle(c, r).end == r.now + Asked(c, r).took
  {
  }

  /** No request of the run escapes. */
  predicate Calm(c: Cache, requests: seq<Request>)
    decreases |requests|
  {
    requests == [] || (!Escapes(c, requests[0]) && Calm(Handle(c, requests[0]).cache, requests[1..]))
  }

  /** The first no earlier than `from`, and each at least `gap` after the one before. */
  predicate Spaced(times: seq<real>, gap: real, from: real) {
    times == [] || (times[0] >= from && Spaced(times[1..], gap, times[0] + gap))
  }

  lemma {:induction false} SpacedSooner(times: seq<real>, gap: real, from: real, sooner: real)
    requires Spaced(times, gap, from) && sooner <= from
    ensures Spaced(times, gap, sooner)
  {
  }

  /** The cache remembers an attempt no older than `lastFetch`, failed or not. */
  predicate Floors(c: Cache, lastFetch: real) {
    || (c.failedAt.Some? && c.failedAt.value >= lastFetch)
    || (c.jwks.Some? && c.fetchedAt >= lastFetch)
  }

  /** A fetch that is remembered, either way, holds the next one off for 30 s. */
  lemma FlooredRequest(c: Cache, r: Request, lastFetch: real)
    requires c.ttl >= JWKS_RETRY_INTERVAL_SECONDS && Floors(c, lastFetch) && Handle(c, r).fetches != []
    ensures r.now - lastFetch >= JWKS_RETRY_INTERVAL_SECONDS
  {
  }

  lemma CaughtFetchFloors(c: Cache, r: Request)
    requires Handle(c, r).fetches != [] && Handle(c, r).answer != Raised
    ensures Floors(Handle(c, r).cache, r.now)
  {
  }

  /** A fetch that does not escape holds the next off, by what it leaves or by how long it took. */
  ghost predicate Holding(c: Cache, from: real, lastFetch: real) {
    from >= lastFetch && (Floors(c, lastFetch) || from >= lastFetch + JWKS_RETRY_INTERVAL_SECONDS)
  }

  lemma FetchHolds(c: Cache, r: Request)
    requires Handle(c, r).fetches != [] && !Escapes(c, r)
    ensures Holding(Handle(c, r).cache, Handle(c, r).end, r.now)
  {
    FetchesExactlyWhenAsking(c, r);
    if Handle(c, r).answer != Raised { CaughtFetchFloors(c, r); }
  }

  lemma FloorsStay(c: Cache, r: Request, lastFetch: real)
    requires Floors(c, lastFetch) && r.now >= lastFetch
    ensures Floors(Handle(c, r).cache, lastFetch)
  {
  }

  lemma {:induction false} FetchesAfter(c: Cache, requests: seq<Request>, from: real, lastFetch: real)
    requires c.ttl >= JWKS_RETRY_INTERVAL_SECONDS && Serial(requests, from, c) && Calm(c, requests)
    requires Holding(c, from, lastFetch)
    ensures Spaced(Fetches(c, requests), JWKS_RETRY_INTERVAL_SECONDS, lastFetch + JWKS_RETRY_INTERVAL_SECONDS)
    decreases |requests|
  {
    if requests != [] {
      var r := requests[0];
      var e := Handle(c, r);
      OneFetchPerRequest(c, r);
      assert Fetches(c, requests) == e.fetches + Fetches(e.cache, requests[1..]);
      if e.fetches == [] {
        QuietRequestHolds(c, r, from, lastFetch);
        FetchesAfter(e.cache, requests[1..], e.end, lastFetch);
        NoneBefore(Fetches(e.cache, requests[1..]));
      } else {
        HeldRequestIsLate(c, r, from, lastFetch);
        FetchHolds(c, r);
        FetchesAfter(e.cache, requests[1..], e.end, r.now);
        OneBefore(r.now, Fetches(e.cache, requests[1..]), JWKS_RETRY_INTERVAL_SECONDS,
                  lastFetch + JWKS_RETRY_INTERVAL_SECONDS);
      }
    }
  }

  lemma QuietRequestHolds(c: Cache, r: Request, from: real, lastFetch: real)
    requires Holding(c, from, lastFetch) && r.now >= from
    ensures Holding(Handle(c, r).cache, Handle(c, r).end, lastFetch)
  {
    OneFetchPerRequest(c, r);
    if Floors(c, lastFetch) { FloorsStay(c, r, lastFetch); }
  }

  lemma HeldRequestIsLate(c: Cache, r: Request, from: real, lastFetch: real)
    requires c.ttl >= JWKS_RETRY_INTERVAL_SECONDS && Holding(c, from, lastFetch) && r.now >= from
    requires Handle(c, r).fetches != []
    ensures r.now - lastFetch >= JWKS_RETRY_INTERVAL_SECONDS
  {
    if Floors(c, lastFetch) { FlooredRequest(c, r, lastFetch); }
  }

  lemma NoneBefore(times: seq<real>)
    ensures [] + times == times
  {
  }

  lemma OneBefore(first: real, times: seq<real>, gap: real, from: real)
    requires first >= from && Spaced(times, gap, first + gap)
    ensures Spaced([first] + times, gap, from)
  {
    assert ([first] + times)[1..] == times;
  }

  lemma {:induction false} FetchesAreSpaced(ttl: real, c: Cache, requests: seq<Request>, from: real)
    requires ttl >= JWKS_RETRY_INTERVAL_SECONDS && c.ttl == ttl
    requires Serial(requests, from, c) && Calm(c, requests)
    ensures Spaced(Fetches(c, requests), JWKS_RETRY_INTERVAL_SECONDS, from)
    decreases |requests|
  {
    if requests != [] {
      var r := requests[0];
      var e := Handle(c, r);
      OneFetchPerRequest(c, r);
      assert Fetches(c, requests) == e.fetches + Fetches(e.cache, requests[1..]);
      if e.fetches == [] {
        FetchesAreSpaced(ttl, e.cache, requests[1..], e.end);
        SpacedSooner(Fetches(e.cache, requests[1..]), JWKS_RETRY_INTERVAL_SECONDS, e.end, from);
        NoneBefore(Fetches(e.cache, requests[1..]));
      } else {
        FetchHolds(c, r);
        FetchesAfter(e.cache, requests[1..], e.end, r.now);
        OneBefore(r.now, Fetches(e.cache, requests[1..]), JWKS_RETRY_INTERVAL_SECONDS, from);
      }
    }
  }

  lemma {:induction false} NthIsLate(times: seq<real>, from: real, k: nat)
    requires Spaced(times, JWKS_RETRY_INTERVAL_SECONDS, from) && k < |times|
    ensures times[k] >= from + 30.0 * k as real
    decreases k
  {
    if k > 0 { NthIsLate(times[1..], times[0] + JWKS_RETRY_INTERVAL_SECONDS, k - 1); }
  }

  lemma {:induction false} SpanOfSpaced(times: seq<real>, from: real, i: nat, j: nat)
    requires Spaced(times, JWKS_RETRY_INTERVAL_SECONDS, from) && i <= j < |times|
    ensures times[j] - times[i] >= 30.0 * (j - i) as real
    decreases i
  {
    if i > 0 {
      SpanOfSpaced(times[1..], times[0] + JWKS_RETRY_INTERVAL_SECONDS, i - 1, j - 1);
    } else if j > 0 {
      NthIsLate(times[1..], times[0] + JWKS_RETRY_INTERVAL_SECONDS, j - 1);
    }
  }

  /** Over a run in which no exception escapes a fetch early, any two fetches start at least 30 s
      apart, so `n` of them span at least 30 (n - 1) seconds. */
  lemma FetchRateIsBounded(ttl: real, requests: seq<Request>, i: nat, j: nat)
    requires ttl >= JWKS_RETRY_INTERVAL_SECONDS && Calm(Fresh(ttl), requests) && requests != []
    requires Serial(requests, requests[0].now, Fresh(ttl))
    requires i <= j < |Fetches(Fresh(ttl), requests)|
    ensures Fetches(Fresh(ttl), requests)[j] - Fetches(Fresh(ttl), requests)[i] >= 30.0 * (j - i) as real
  {
    FetchesAreSpaced(ttl, Fresh(ttl), requests, requests[0].now);
    SpanOfSpaced(Fetches(Fresh(ttl), requests), requests[0].now, i, j);
  }

  /** The one exception: a fetch whose exception escapes leaves the cache as it was, so the
      same request made again, at any later moment, fetches again. */
  lemma EscapedFetchIsNotFloored(c: Cache, r: Request, again: Request)
    requires Asks(c, r) && Asked(c, r).Escaped?
    requires again.kid == r.kid && again.now >= r.now
    ensures Handle(c, r).fetches == [r.now]
    ensures Handle(Handle(c, r).cache, again).fetches == [again.now]
  {
  }

  predicate HeldOff(c: Cache, again: Request, fetched: real) {
    Handle(c, again).fetches == [] || again.now - fetched >= JWKS_RETRY_INTERVAL_SECONDS
  }

  /** Whatever request comes next, from the moment the lock is free, fetches no sooner than
      30 s after this one did. */
  ghost predicate HoldsOff(c: Cache, r: Request) {
    Asks(c, r) ==>
      forall again: Request :: again.now >= Handle(c, r).end ==> HeldOff(Handle(c, r).cache, again, r.now)
  }

  /** A fetch holds the next one off for 30 s exactly when no exception escapes it in less. */
  lemma FlooredExactlyUnlessEscaped(c: Cache, r: Request)
    requires c.ttl >= JWKS_RETRY_INTERVAL_SECONDS
    ensures HoldsOff(c, r) <==> !Escapes(c, r)
  {
    var e := Handle(c, r);
    FetchesExactlyWhenAsking(c, r);
    if Escapes(c, r) {
      var again := r.(now := e.end);
      EscapedFetchIsNotFloored(c, r, again);
      assert !HeldOff(e.cache, again, r.now);
    } else if Asks(c, r) {
      FetchHolds(c, r);
      TtlStays(c, [r]);
      forall again: Request | again.now >= e.end ensures HeldOff(e.cache, again, r.now) {
        if Handle(e.cache, again).fetches != [] { HeldRequestIsLate(e.cache, again, e.end, r.now); }
      }
    }
  }

  /** Every fetch of a run holds the next one off. */
  ghost predicate AlwaysHoldsOff(c: Cache, requests: seq<Request>)
    decreases |requests|
  {
    requests == [] || (HoldsOff(c, requests[0]) && AlwaysHoldsOff(Handle(c, requests[0]).cache, requests[1..]))
  }

  /** So every fetch of a run, whatever follows it, is 30 s before the next if and only if no
      exception escapes a fetch of the run in less. */
  lemma {:induction false} HeldOffExactlyWhenCalm(c: Cache, requests: seq<Request>)
    requires c.ttl >= JWKS_RETRY_INTERVAL_SECONDS
    ensures AlwaysHoldsOff(c, requests) <==> Calm(c, requests)
    decreases |requests|
  {
    if requests != [] {
      FlooredExactlyUnlessEscaped(c, requests[0]);
      TtlStays(c, [requests[0]]);
      HeldOffExactlyWhenCalm(Handle(c, requests[0]).cache, requests[1..]);
    }
  }

  /** Once a key set is held, one is held for ever after. */
  lemma {:induction false} KeysStayHeld(c: Cache, requests: seq<Request>)
    requires c.jwks.Some?
    ensures After(c, requests).jwks.Some?
    decreases |requests|
  {
    if requests != [] { KeysStayHeld(Handle(c, requests[0]).cache, requests[1..]); }
  }

  /** However refreshes fail, while the held set is within its grace every request naming a
      key is judged against keys, or raises what escaped; none is refused for lack of
      them. */
  lemma {:induction false} HeldKeysAreUsed(c: Cache, requests: seq<Request>, r: Request)
    requires c.jwks.Some? && c.ttl >= 0.0 && r.kid != ""
    requires var later := After(c, requests); r.now - later.fetchedAt <= c.ttl + JWKS_GRACE_SECONDS
    ensures var e := Handle(After(c, requests), r);
            Judged(e.answer) || (e.answer == Raised && Asked(After(c, requests), r).Escaped?)
    decreases |requests|
  {
    FetchesExactlyWhenAsking(After(c, requests), r);
    KeysStayHeld(c, requests);
    TtlStays(c, requests);
    RefusedExactlyWithoutUsableKeys(After(c, requests), r);
  }

  lemma {:induction false} TtlStays(c: Cache, requests: seq<Request>)
    ensures After(c, requests).ttl == c.ttl
    decreases |requests|
  {
    if requests != [] { TtlStays(Handle(c, requests[0]).cache, requests[1..]); }
  }

  /** The earliest the next outage line can come. */
  function NextWarning(c: Cache, from: real): real {
    if c.warnedAt.Some? && c.warnedAt.value + JWKS_WARN_INTERVAL_SECONDS > from
    then c.warnedAt.value + JWKS_WARN_INTERVAL_SECONDS else from
  }

  lemma WarnsRarely(c: Cache, r: Request, from: real)
    requires r.now >= from
    ensures var later := Handle(c, r).cache;
            if later.warnedAt == c.warnedAt then NextWarning(later, Handle(c, r).end) >= NextWarning(c, from)
            else r.now >= NextWarning(c, from)
                 && NextWarning(later, Handle(c, r).end) >= r.now + JWKS_WARN_INTERVAL_SECONDS
  {
  }

  /** The stamps are at least 60 s apart over any run, whatever the fetches do. */
  lemma {:induction false} StampsAreSpaced(c: Cache, requests: seq<Request>, from: real)
    requires Serial(requests, from, c)
    ensures Spaced(Stamps(c, requests), JWKS_WARN_INTERVAL_SECONDS, NextWarning(c, from))
    decreases |requests|
  {
    if requests != [] {
      var r, rest := requests[0], requests[1..];
      var e := Handle(c, r);
      WarnsRarely(c, r, from);
      StampsAreSpaced(e.cache, rest, e.end);
      if e.cache.warnedAt == c.warnedAt {
        SpacedSooner(Stamps(e.cache, rest), JWKS_WARN_INTERVAL_SECONDS, NextWarning(e.cache, e.end), NextWarning(c, from));
        NoneBefore(Stamps(e.cache, rest));
      } else {
        SpacedSooner(Stamps(e.cache, rest), JWKS_WARN_INTERVAL_SECONDS,
                     NextWarning(e.cache, e.end), r.now + JWKS_WARN_INTERVAL_SECONDS);
        OneBefore(r.now, Stamps(e.cache, rest), JWKS_WARN_INTERVAL_SECONDS, NextWarning(c, from));
      }
    }
  }

  // ── when the lines come ───────────────────────────────────────────────────

  /** The request finds no fresh keys and no line in the last 60 s. */
  predicate Warns(c: Cache, r: Request) {
    && r.kid != "" && NeedsRefresh(c, r.now) && Elapsed(r.now, c.warnedAt, JWKS_WARN_INTERVAL_SECONDS)
    && (RefreshesFirst(c, r.now) ==> r.first.Failed?)
  }

  /** How long after its stamp the line comes: the refresh that failed first. */
  function Delay(c: Cache, r: Request): Duration {
    if RefreshesFirst(c, r.now) then r.first.took else 0.0
  }

  lemma LinesExactlyWhenWarning(c: Cache, r: Request)
    ensures Handle(c, r).cache.warnedAt != c.warnedAt <==> Warns(c, r)
    ensures Warns(c, r) ==> Handle(c, r).end == r.now + Delay(c, r) && Handle(c, r).cache.warnedAt == Some(r.now)
  {
  }

  /** Any later request's line comes no sooner after this one's than 60 s less the slack. */
  ghost predicate HoldsLinesOff(c: Cache, r: Request, slack: real) {
    Warns(c, r) ==>
      forall again: Request :: again.now >= Handle(c, r).end ==> LineHeldOff(Handle(c, r), again, slack)
  }

  predicate LineHeldOff(e: Effect, again: Request, slack: real) {
    Warns(e.cache, again) ==> Handle(e.cache, again).end - e.end >= JWKS_WARN_INTERVAL_SECONDS - slack
  }

  /** What the source means by an interval is from stamp to stamp; from line to line it is short
      by exactly what the first of them waited. */
  lemma LinesHeldOffExactlyWhenPrompt(c: Cache, r: Request, slack: real)
    requires 0.0 <= slack < JWKS_WARN_INTERVAL_SECONDS
    ensures HoldsLinesOff(c, r, slack) <==> (Warns(c, r) ==> Delay(c, r) <= slack)
  {
    var e := Handle(c, r);
    LinesExactlyWhenWarning(c, r);
    if Warns(c, r) {
      if Delay(c, r) <= slack {
        forall again: Request | again.now >= e.end ensures LineHeldOff(e, again, slack) {
          LinesExactlyWhenWarning(e.cache, again);
        }
      } else {
        var soonest := r.now + JWKS_WARN_INTERVAL_SECONDS;
        var again := Request(if e.end > soonest then e.end else soonest, r.kid, Failed("", 0.0), Failed("", 0.0));
        LinesExactlyWhenWarning(e.cache, again);
        assert !LineHeldOff(e, again, slack);
      }
    }
  }

  /** No line of the run waits longer for its refresh than the slack. */
  predicate Prompt(c: Cache, requests: seq<Request>, slack: real)
    decreases |requests|
  {
    requests == [] ||
    ((Warns(c, requests[0]) ==> Delay(c, requests[0]) <= slack)
     && Prompt(Handle(c, requests[0]).cache, requests[1..], slack))
  }

  ghost predicate AlwaysHoldsLinesOff(c: Cache, requests: seq<Request>, slack: real)
    decreases |requests|
  {
    requests == [] ||
    (HoldsLinesOff(c, requests[0], slack) && AlwaysHoldsLinesOff(Handle(c, requests[0]).cache, requests[1..], slack))
  }

  /** Every line of a run is 60 s less the slack before the next, whatever request that is, if
      and only if no line of the run waited longer than the slack; 60 s itself if and only if
      none waited at all. */
  lemma {:induction false} LinesApartExactlyWhenPrompt(c: Cache, requests: seq<Request>, slack: real)
    requires 0.0 <= slack < JWKS_WARN_INTERVAL_SECONDS
    ensures AlwaysHoldsLinesOff(c, requests, slack) <==> Prompt(c, requests, slack)
    decreases |requests|
  {
    if requests != [] {
      LinesHeldOffExactlyWhenPrompt(c, requests[0], slack);
      LinesApartExactlyWhenPrompt(Handle(c, requests[0]).cache, requests[1..], slack);
    }
  }

  /** Over any run whose refreshes fail within the slack, lines are 60 s less the slack apart:
      50 s with the client's own timeout of 10 s. */
  lemma {:induction false} WarningsAreSpaced(c: Cache, requests: seq<Request>, from: real, slack: real)
    requires Serial(requests, from, c) && Prompt(c, requests, slack) && slack >= 0.0
    ensures Spaced(Warnings(c, requests), JWKS_WARN_INTERVAL_SECONDS - slack, NextWarning(c, from))
    decreases |requests|
  {
    if requests != [] {
      var r, rest := requests[0], requests[1..];
      var e := Handle(c, r);
      var gap := JWKS_WARN_INTERVAL_SECONDS - slack;
      WarnsRarely(c, r, from);
      LinesExactlyWhenWarning(c, r);
      WarningsAreSpaced(e.cache, rest, e.end, slack);
      if e.cache.warnedAt == c.warnedAt {
        SpacedSooner(Warnings(e.cache, rest), gap, NextWarning(e.cache, e.end), NextWarning(c, from));
        NoneBefore(Warnings(e.cache, rest));
      } else {
        SpacedSooner(Warnings(e.cache, rest), gap, NextWarning(e.cache, e.end), e.end + gap);
        OneBefore(e.end, Warnings(e.cache, rest), gap, NextWarning(c, from));
      }
    }
  }

  /** Lines 50 s apart: a refresh that fails after 10 s, and one 60 s later that fails at once. */
  lemma LinesFiftySecondsApart() returns (requests: seq<Request>)
    ensures Serial(requests, 100.0, Fresh(300.0)) && Calm(Fresh(300.0), requests)
    ensures Warnings(Fresh(300.0), requests) == [110.0, 160.0]
  {
    var slow := Request(100.0, "kid", Failed("timeout", 10.0), Failed("timeout", 0.0));
    var quick := Request(160.0, "kid", Failed("refused", 0.0), Failed("refused", 0.0));
    requests := [slow, quick];
    var after := Handle(Fresh(300.0), slow).cache;
    assert requests[1..] == [quick] && [quick][1..] == [];
    assert Warnings(after, [quick]) == [160.0] + Warnings(Handle(after, quick).cache, []);
    assert Serial([quick], 110.0, after) && Calm(after, [quick]);
  }
}
