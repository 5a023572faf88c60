/** The sign-in admission limiter of backend/routes/auth.py: a table pruned on every call,
    held against the full history it throws away. */
module LinkQuota {

  const WINDOW_S := 60.0
  const MAX_PER_SOURCE := 5
  const MAX_SOURCES := 4096

  /** One admission. */
  datatype Entry = Entry(source: string, at: real)

  // ── the unbounded history ─────────────────────────────────────────────────

  /** When this source was admitted after some moment, oldest first. */
  function Since(log: seq<Entry>, source: string, after: real): seq<real> {
    if log == [] then []
    else
      var rest, e := Since(log[..|log| - 1], source, after), log[|log| - 1];
      if e.source == source && e.at > after then rest + [e.at] else rest
  }

  function Sources(log: seq<Entry>, after: real): set<string> {
    if log == [] then {}
    else
      var rest, e := Sources(log[..|log| - 1], after), log[|log| - 1];
      if e.at > after then rest + {e.source} else rest
  }

  lemma {:induction false} SourcesAreThoseSeen(log: seq<Entry>, after: real, source: string)
    ensures source in Sources(log, after) <==> Since(log, source, after) != []
  {
    if log != [] { SourcesAreThoseSeen(log[..|log| - 1], after, source); }
  }

  /** A recount of the whole history. */
  predicate Admits(log: seq<Entry>, source: string, now: real) {
    var recent := |Since(log, source, now - WINDOW_S)|;
    recent < MAX_PER_SOURCE && (recent == 0 ==> |Sources(log, now - WINDOW_S)| < MAX_SOURCES)
  }

  /** Where in the history this source was admitted after some moment. */
  function Places(log: seq<Entry>, source: string, after: real): set<nat> {
    set i: nat | i < |log| && log[i].source == source && log[i].at > after
  }

  lemma {:induction false} SinceCountsPlaces(log: seq<Entry>, source: string, after: real)
    ensures |Since(log, source, after)| == |Places(log, source, after)|
  {
    if log != [] {
      var before, e := log[..|log| - 1], log[|log| - 1];
      SinceCountsPlaces(before, source, after);
      var here := if e.source == source && e.at > after then {|before|} else {};
      assert Places(log, source, after) == Places(before, source, after) + here;
    }
  }

  lemma {:induction false} SourcesAreThoseLogged(log: seq<Entry>, after: real)
    ensures Sources(log, after) == set i: nat | i < |log| && log[i].at > after :: log[i].source
  {
    if log != [] {
      var before, e := log[..|log| - 1], log[|log| - 1];
      SourcesAreThoseLogged(before, after);
      assert forall i :: 0 <= i < |before| ==> before[i] == log[i];
      assert log[|before|] == e;
    }
  }

  /** A source is admitted exactly when fewer than five of its admissions are less than a minute old,
      and, if none of them is, fewer than 4096 sources have one that is. */
  lemma AdmittedExactlyWithRoom(log: seq<Entry>, source: string, now: real)
    ensures var recent := set i: nat | i < |log| && log[i].source == source && log[i].at > now - 60.0;
            var sources := set i: nat | i < |log| && log[i].at > now - 60.0 :: log[i].source;
            Admits(log, source, now) <==> |recent| < 5 && (recent == {} ==> |sources| < 4096)
  {
    SinceCountsPlaces(log, source, now - WINDOW_S);
    SourcesAreThoseLogged(log, now - WINDOW_S);
    assert Places(log, source, now - WINDOW_S)
        == set i: nat | i < |log| && log[i].source == source && log[i].at > now - 60.0;
  }

  function Logged(log: seq<Entry>, source: string, now: real): seq<Entry> {
    if Admits(log, source, now) then log + [Entry(source, now)] else log
  }

  /** The pruned table: the admissions of the last minute, and no source without one. */
  function Window(log: seq<Entry>, now: real): map<string, seq<real>> {
    Held(log, now - WINDOW_S)
  }

  function Held(log: seq<Entry>, after: real): map<string, seq<real>> {
    map s | s in Sources(log, after) :: Since(log, s, after)
  }

  function Fresh(times: seq<real>, after: real): seq<real> {
    if times == [] then []
    else
      var rest, t := Fresh(times[..|times| - 1], after), times[|times| - 1];
      if t > after then rest + [t] else rest
  }

  /** Pruning twice is pruning once, from the later moment. */
  lemma {:induction false} PruningForgetsNothing(log: seq<Entry>, source: string, before: real, after: real)
    requires before <= after
    ensures Fresh(Since(log, source, before), after) == Since(log, source, after)
  {
    if log != [] {
      var rest, e := log[..|log| - 1], log[|log| - 1];
      PruningForgetsNothing(rest, source, before, after);
      var kept := Since(rest, source, before);
      if e.source == source && e.at > before { assert (kept + [e.at])[..|kept|] == kept; }
    }
  }

  /** What pruning makes of a table. */
  function Pruned(table: map<string, seq<real>>, after: real): map<string, seq<real>> {
    map s | s in table && Fresh(table[s], after) != [] :: Fresh(table[s], after)
  }

  /** A table of which these keys are still to be pruned. */
  ghost function PartlyPruned(table: map<string, seq<real>>, keys: set<string>, after: real): map<string, seq<real>> {
    map s | s in table && (s in keys || Fresh(table[s], after) != []) ::
      if s in keys then table[s] else Fresh(table[s], after)
  }

  lemma PruneOne(table: map<string, seq<real>>, keys: set<string>, after: real, key: string)
    requires key in keys && keys <= table.Keys
    ensures var m, recent := PartlyPruned(table, keys, after), Fresh(table[key], after);
            PartlyPruned(table, keys - {key}, after) == (if recent != [] then m[key := recent] else m - {key})
  {
  }

  lemma PrunedWindow(log: seq<Entry>, before: real, after: real)
    requires before <= after
    ensures Pruned(Held(log, before), after) == Held(log, after)
  {
    LaterSourcesAreFewer(log, before, after);
    forall s ensures s in Sources(log, after) <==> Since(log, s, after) != [] {
      SourcesAreThoseSeen(log, after, s);
    }
    forall s ensures Fresh(Since(log, s, before), after) == Since(log, s, after) {
      PruningForgetsNothing(log, s, before, after);
    }
  }

  lemma WindowSize(log: seq<Entry>, now: real)
    ensures |Window(log, now)| == |Sources(log, now - WINDOW_S)|
  {
    assert Window(log, now).Keys == Sources(log, now - WINDOW_S);
  }

  predicate HasRoom(table: map<string, seq<real>>, source: string) {
    if source in table then |table[source]| < MAX_PER_SOURCE else |table| < MAX_SOURCES
  }

  /** Counting in the pruned table is recounting the history. */
  lemma TableAdmits(log: seq<Entry>, source: string, now: real)
    ensures Admits(log, source, now) <==> HasRoom(Window(log, now), source)
  {
    SourcesAreThoseSeen(log, now - WINDOW_S, source);
    WindowSize(log, now);
  }

  // ── the table ─────────────────────────────────────────────────────────────

  class Quota {
    var requests: map<string, seq<real>>
    ghost var log: seq<Entry>
    ghost var clock: real

    ghost predicate Valid()
      reads this
    {
      requests == Window(log, clock)
    }

    constructor (now: real)
      ensures Valid() && log == [] && clock == now
    {
      requests, log, clock := map[], [], now;
    }

    method Prune(now: real)
      modifies this`requests
      ensures requests == Pruned(old(requests), now - WINDOW_S)
    {
      var keys := requests.Keys;
      ghost var stale, after := requests, now - WINDOW_S;
      assert requests == PartlyPruned(stale, keys, after);
      while keys != {}
        invariant keys <= stale.Keys && requests == PartlyPruned(stale, keys, after)
      {
        var key :| key in keys;
        var recent := FreshTimes(requests[key], now - WINDOW_S);
        PruneOne(stale, keys, after, key);
        if recent != [] {
          requests := requests[key := recent];
        } else {
          requests := requests - {key};
        }
        keys := keys - {key};
      }
    }

    /** The verdict is what recounting the whole history would give, and the table is the last
        minute of it. */
    method QuotaAvailable(source: string, now: real) returns (admitted: bool)
      requires Valid() && now >= clock
      modifies this
      ensures Valid() && clock == now
      ensures admitted == Admits(old(log), source, now) && log == Logged(old(log), source, now)
      ensures log == if admitted then old(log) + [Entry(source, now)] else old(log)
    {
      Prune(now);
      PrunedWindow(log, clock - WINDOW_S, now - WINDOW_S);
      TableAdmits(log, source, now);
      clock := now;
      if source !in requests {
        if |requests| >= MAX_SOURCES { return false; }
      } else if |requests[source]| >= MAX_PER_SOURCE {
        return false;
      }
      AdmittingExtendsTheWindow(log, source, now);
      log := log + [Entry(source, now)];
      requests := Appended(requests, source, now);
      admitted := true;
    }
  }

  lemma LoggedSince(log: seq<Entry>, e: Entry, source: string, after: real)
    ensures var times := Since(log, source, after);
            Since(log + [e], source, after) == (if e.source == source && e.at > after then times + [e.at] else times)
    ensures var sources := Sources(log, after);
            Sources(log + [e], after) == (if e.at > after then sources + {e.source} else sources)
  {
  }

  function Appended(table: map<string, seq<real>>, source: string, now: real): map<string, seq<real>> {
    table[source := (if source in table then table[source] else []) + [now]]
  }

  lemma AdmittingExtendsTheWindow(log: seq<Entry>, source: string, now: real)
    ensures Window(log + [Entry(source, now)], now) == Appended(Window(log, now), source, now)
  {
    var after := now - WINDOW_S;
    SourcesAreThoseSeen(log, after, source);
    forall s ensures Since(log + [Entry(source, now)], s, after)
                  == if s == source then Since(log, s, after) + [now] else Since(log, s, after) {
      LoggedSince(log, Entry(source, now), s, after);
    }
    LoggedSince(log, Entry(source, now), source, after);
  }

  method FreshTimes(times: seq<real>, after: real) returns (kept: seq<real>)
    ensures kept == Fresh(times, after)
  {
    kept := [];
    for i := 0 to |times|
      invariant kept == Fresh(times[..i], after)
    {
      assert times[..i + 1][..i] == times[..i];
      if times[i] > after { kept := kept + [times[i]]; }
    }
    assert times[..|times|] == times;
  }

  // ── runs ──────────────────────────────────────────────────────────────────

  datatype Call = Call(source: string, now: real)

  /** The admissions a run of calls leaves in the history. */
  function Log(calls: seq<Call>): seq<Entry> {
    if calls == [] then []
    else Logged(Log(calls[..|calls| - 1]), calls[|calls| - 1].source, calls[|calls| - 1].now)
  }

  /** A clock that never runs back, and has reached `now`. */
  predicate Monotone(calls: seq<Call>, now: real) {
    calls == [] || (calls[|calls| - 1].now <= now && Monotone(calls[..|calls| - 1], calls[|calls| - 1].now))
  }

  /** Where the history has admissions of a source in the minute after some moment, that moment
      excluded. */
  function InMinute(log: seq<Entry>, source: string, start: real): set<nat> {
    set i: nat | i < |log| && log[i].source == source && start < log[i].at <= start + 60.0
  }

  lemma FewerPlaces(small: set<nat>, large: set<nat>)
    requires small <= large
    ensures |small| <= |large|
  {
    assert large == small + (large - small);
  }

  lemma InMinuteOneMore(log: seq<Entry>, e: Entry, source: string, start: real)
    ensures InMinute(log + [e], source, start)
         == InMinute(log, source, start) + if e.source == source && start < e.at <= start + 60.0 then {|log|} else {}
  {
  }

  /** No source is admitted six times within any minute. */
  lemma {:induction false} NoSixInAMinute(calls: seq<Call>, source: string, start: real)
    ensures |InMinute(Log(calls), source, start)| <= 5
  {
    if calls != [] {
      var before, call := calls[..|calls| - 1], calls[|calls| - 1];
      NoSixInAMinute(before, source, start);
      if Admits(Log(before), call.source, call.now) {
        var e := Entry(call.source, call.now);
        InMinuteOneMore(Log(before), e, source, start);
        if e.source == source && start < e.at <= start + 60.0 {
          SinceCountsPlaces(Log(before), source, call.now - WINDOW_S);
          FewerPlaces(InMinute(Log(before), source, start), Places(Log(before), source, call.now - WINDOW_S));
        }
      }
    }
  }

  lemma FewerThan(small: set<string>, large: set<string>)
    requires small <= large
    ensures |small| <= |large|
  {
    assert large == small + (large - small);
  }

  lemma LaterSourcesAreFewer(log: seq<Entry>, before: real, after: real)
    requires before <= after
    ensures Sources(log, after) <= Sources(log, before)
  {
  }

  lemma OneMoreSource(log: seq<Entry>, call: Call, before: real, after: real)
    requires before == call.now - WINDOW_S <= after && |Sources(log, before)| <= MAX_SOURCES
    ensures |Sources(Logged(log, call.source, call.now), after)| <= MAX_SOURCES
  {
    LaterSourcesAreFewer(log, before, after);
    if Admits(log, call.source, call.now) {
      LoggedSince(log, Entry(call.source, call.now), call.source, after);
      SourcesAreThoseSeen(log, before, call.source);
      FewerThan(Sources(log + [Entry(call.source, call.now)], after), Sources(log, before) + {call.source});
    } else {
      FewerThan(Sources(log, after), Sources(log, before));
    }
  }

  /** Never are more than 4096 sources held, at the last call or any later moment. */
  lemma {:induction false} SourcesAreBounded(calls: seq<Call>, now: real)
    requires Monotone(calls, now)
    ensures |Window(Log(calls), now)| <= MAX_SOURCES
  {
    if calls != [] {
      var before, call := calls[..|calls| - 1], calls[|calls| - 1];
      SourcesAreBounded(before, call.now);
      WindowSize(Log(before), call.now);
      OneMoreSource(Log(before), call, call.now - WINDOW_S, now - WINDOW_S);
    }
    WindowSize(Log(calls), now);
  }
}
