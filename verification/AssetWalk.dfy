/** `Verifier._walk` (deploy/verify-deploy.py): every script and stylesheet a page names,
    and every chunk those reach, read level by level up to a bound. */
module AssetWalk {

  type Url = string

  datatype Reply = Resolved(text: string) | Broken(why: string)

  /** What each URL answers, which of them are scripts, and what a script's text names, as
      absolute URLs in the order they occur. */
  datatype Host = Host(asset: Url -> Reply, isScript: Url -> bool, chunkRefs: (Url, string) -> seq<Url>)

  const MAX_ASSETS := 400

  // ── what one URL leads to ─────────────────────────────────────────────────

  /** The URLs an asset names: none unless it is a script that resolved. */
  function Names(host: Host, url: Url): seq<Url> {
    match host.asset(url)
    case Resolved(text) => if host.isScript(url) then host.chunkRefs(url, text) else []
    case Broken(_) => []
  }

  type Naming = Url -> seq<Url>

  function NamedBy(host: Host): Naming {
    url => Names(host, url)
  }

  function NamesOfAll(names: Naming, urls: seq<Url>): seq<Url> {
    if urls == [] then []
    else NamesOfAll(names, urls[..|urls| - 1]) + names(urls[|urls| - 1])
  }

  /** The first occurrence of each URL not in `seen`, in order. */
  function Fresh(urls: seq<Url>, seen: set<Url>): seq<Url> {
    if urls == [] then []
    else
      var before, last := Fresh(urls[..|urls| - 1], seen), urls[|urls| - 1];
      if last in seen || last in before then before else before + [last]
  }

  function Members(urls: seq<Url>): set<Url> {
    set u | u in urls
  }

  predicate Distinct(urls: seq<Url>) {
    forall i, j :: 0 <= i < j < |urls| ==> urls[i] != urls[j]
  }

  lemma MembersOfConcat(a: seq<Url>, b: seq<Url>)
    ensures Members(a + b) == Members(a) + Members(b)
  {
  }

  lemma DistinctConcat(a: seq<Url>, b: seq<Url>)
    requires Distinct(a) && Distinct(b) && Members(a) !! Members(b)
    ensures Distinct(a + b)
  {
    forall i, j | 0 <= i < j < |a + b| ensures (a + b)[i] != (a + b)[j] {
      if i < |a| <= j { assert a[i] in Members(a) && b[j - |a|] in Members(b); }
    }
  }

  lemma {:induction false} FreshIsExact(urls: seq<Url>, seen: set<Url>)
    ensures Distinct(Fresh(urls, seen)) && Members(Fresh(urls, seen)) == Members(urls) - seen
  {
    if urls != [] {
      var before, last := urls[..|urls| - 1], urls[|urls| - 1];
      FreshIsExact(before, seen);
      assert urls == before + [last];
      MembersOfConcat(before, [last]);
      MembersOfConcat(Fresh(before, seen), [last]);
      assert last in Fresh(before, seen) <==> last in Members(Fresh(before, seen));
      if last !in seen && last !in Fresh(before, seen) { DistinctConcat(Fresh(before, seen), [last]); }
    }
  }

  lemma {:induction false} DistinctCount(urls: seq<Url>)
    requires Distinct(urls)
    ensures |Members(urls)| == |urls|
  {
    if urls != [] {
      var before, last := urls[..|urls| - 1], urls[|urls| - 1];
      DistinctCount(before);
      assert urls == before + [last];
      assert Members(urls) == Members(before) + {last};
      assert last !in before;
    }
  }

  // ── reachability ──────────────────────────────────────────────────────────

  /** A chain from the page: it names the first, and each asset names the next. */
  predicate Chain(names: Naming, named: seq<Url>, chain: seq<Url>) {
    var last := |chain| - 1;
    && chain != []
    && if last == 0 then chain[0] in named
       else Chain(names, named, chain[..last]) && chain[last] in names(chain[last - 1])
  }

  ghost predicate Reachable(names: Naming, named: seq<Url>, url: Url) {
    exists chain :: Chain(names, named, chain) && chain[|chain| - 1] == url
  }

  lemma NamedIsReachable(names: Naming, named: seq<Url>, url: Url)
    requires url in named
    ensures Reachable(names, named, url)
  {
    assert Chain(names, named, [url]) && [url][|[url]| - 1] == url;
  }

  lemma NextIsReachable(names: Naming, named: seq<Url>, url: Url, next: Url)
    requires Reachable(names, named, url) && next in names(url)
    ensures Reachable(names, named, next)
  {
    var chain :| Chain(names, named, chain) && chain[|chain| - 1] == url;
    var longer := chain + [next];
    assert longer[..|chain|] == chain;
    assert Chain(names, named, longer) && longer[|longer| - 1] == next;
  }

  lemma {:induction false} ChainStaysInside(names: Naming, named: seq<Url>, inside: set<Url>, chain: seq<Url>)
    requires Chain(names, named, chain) && Members(named) <= inside
    requires forall url :: url in inside ==> Members(names(url)) <= inside
    ensures chain[|chain| - 1] in inside
    decreases |chain|
  {
    var last := |chain| - 1;
    if last == 0 {
      assert chain[0] in Members(named);
    } else {
      ChainStaysInside(names, named, inside, chain[..last]);
      assert chain[last] in Members(names(chain[last - 1]));
    }
  }

  // ── the order, and the budget ─────────────────────────────────────────────

  /** The URLs read from one level on, with room for `room` more. */
  function Order(names: Naming, level: seq<Url>, seen: set<Url>, room: nat): seq<Url>
    decreases room
  {
    if level == [] then []
    else if |level| > room then level[..room]
    else
      var following := Fresh(NamesOfAll(names, level), seen);
      level + Order(names, following, seen + Members(following), room - |level|)
  }

  /** The bound only truncates: a walk allowed less reads the same URLs in the same order,
      and stops sooner. */
  lemma {:induction false} SmallerBudgetIsPrefix(names: Naming, level: seq<Url>, seen: set<Url>, less: nat, more: nat)
    requires less <= more
    ensures Order(names, level, seen, less) <= Order(names, level, seen, more)
    ensures |Order(names, level, seen, less)| == less || Order(names, level, seen, less) == Order(names, level, seen, more)
    decreases less
  {
    if level != [] && |level| <= less {
      var following := Fresh(NamesOfAll(names, level), seen);
      SmallerBudgetIsPrefix(names, following, seen + Members(following), less - |level|, more - |level|);
    }
  }

  /** Everything named by the page or by what was read. */
  function Discovered(names: Naming, named: seq<Url>, read: seq<Url>): set<Url> {
    Members(named) + Members(NamesOfAll(names, read))
  }

  lemma {:induction false} NamesOfConcat(names: Naming, a: seq<Url>, b: seq<Url>)
    ensures NamesOfAll(names, a + b) == NamesOfAll(names, a) + NamesOfAll(names, b)
  {
    if b == [] {
      assert a + b == a;
    } else {
      assert (a + b)[..|a + b| - 1] == a + b[..|b| - 1];
      NamesOfConcat(names, a, b[..|b| - 1]);
    }
  }

  lemma {:induction false} InNamesOfAll(names: Naming, urls: seq<Url>, next: Url)
    ensures next in NamesOfAll(names, urls) <==> exists k :: 0 <= k < |urls| && next in names(urls[k])
  {
    if urls != [] {
      var before := urls[..|urls| - 1];
      InNamesOfAll(names, before, next);
      if k :| 0 <= k < |urls| && next in names(urls[k]) {
        if k < |before| { assert next in names(before[k]); }
      }
    }
  }

  // ── one batch ─────────────────────────────────────────────────────────────

  /** The answers of the URLs read: each in exactly one of the two tables. */
  predicate Recorded(host: Host, read: seq<Url>, sources: map<Url, string>, broken: map<Url, string>) {
    && sources.Keys + broken.Keys == Members(read)
    && (forall url :: url in sources ==> host.asset(url) == Resolved(sources[url]))
    && (forall url :: url in broken ==> host.asset(url) == Broken(broken[url]))
  }

  lemma RecordedApart(host: Host, read: seq<Url>, sources: map<Url, string>, broken: map<Url, string>)
    requires Recorded(host, read, sources, broken) && Distinct(read)
    ensures sources.Keys !! broken.Keys && |sources| + |broken| == |read|
  {
    DistinctCount(read);
    assert sources.Keys !! broken.Keys;
    assert |sources.Keys + broken.Keys| == |sources.Keys| + |broken.Keys|;
  }

  lemma FreshOneMore(urls: seq<Url>, url: Url, start: set<Url>)
    ensures Fresh(urls + [url], start)
         == if url in start || url in Fresh(urls, start) then Fresh(urls, start) else Fresh(urls, start) + [url]
    ensures url in start + Members(Fresh(urls, start)) <==> url in start || url in Fresh(urls, start)
    ensures start + Members(Fresh(urls, start) + [url]) == start + Members(Fresh(urls, start)) + {url}
  {
    assert (urls + [url])[..|urls|] == urls;
  }

  method Follow(refs: seq<Url>, seen0: set<Url>, following0: seq<Url>, ghost start: set<Url>, ghost before: seq<Url>)
      returns (seen: set<Url>, following: seq<Url>)
    requires following0 == Fresh(before, start) && seen0 == start + Members(following0)
    ensures following == Fresh(before + refs, start) && seen == start + Members(following)
  {
    seen, following := seen0, following0;
    assert before + refs[..0] == before;
    for i := 0 to |refs|
      invariant following == Fresh(before + refs[..i], start) && seen == start + Members(following)
    {
      assert before + refs[..i + 1] == (before + refs[..i]) + [refs[i]];
      FreshOneMore(before + refs[..i], refs[i], start);
      if refs[i] !in seen {
        seen := seen + {refs[i]};
        following := following + [refs[i]];
      }
    }
    assert before + refs[..|refs|] == before + refs;
  }

  method ReadOne(host: Host, ghost names: Naming, url: Url, sources0: map<Url, string>, broken0: map<Url, string>, seen0: set<Url>,
                 following0: seq<Url>, ghost read: seq<Url>, ghost start: set<Url>, ghost before: seq<Url>)
      returns (sources: map<Url, string>, broken: map<Url, string>, seen: set<Url>, following: seq<Url>)
    requires names == NamedBy(host)
    requires Recorded(host, read, sources0, broken0)
    requires following0 == Fresh(before, start) && seen0 == start + Members(following0)
    ensures Recorded(host, read + [url], sources, broken)
    ensures following == Fresh(before + names(url), start) && seen == start + Members(following)
  {
    sources, broken, seen, following := sources0, broken0, seen0, following0;
    MembersOfConcat(read, [url]);
    assert before + [] == before;
    match host.asset(url)
    case Broken(why) =>
      broken := broken[url := why];
    case Resolved(text) =>
      sources := sources[url := text];
      if host.isScript(url) { seen, following := Follow(host.chunkRefs(url, text), seen, following, start, before); }
  }

  method ReadBatch(host: Host, ghost names: Naming, batch: seq<Url>, sources0: map<Url, string>, broken0: map<Url, string>,
                   seen0: set<Url>, ghost read: seq<Url>)
      returns (sources: map<Url, string>, broken: map<Url, string>, seen: set<Url>, following: seq<Url>)
    requires names == NamedBy(host)
    requires Recorded(host, read, sources0, broken0)
    ensures Recorded(host, read + batch, sources, broken)
    ensures following == Fresh(NamesOfAll(names, batch), seen0) && seen == seen0 + Members(following)
  {
    sources, broken, seen, following := sources0, broken0, seen0, [];
    ghost var done, listed := read, [];
    NothingReadYet(names, read, batch);
    for i := 0 to |batch|
      invariant done == read + batch[..i] && listed == NamesOfAll(names, batch[..i])
      invariant Recorded(host, done, sources, broken)
      invariant following == Fresh(listed, seen0) && seen == seen0 + Members(following)
    {
      sources, broken, seen, following :=
        ReadOne(host, names, batch[i], sources, broken, seen, following, done, seen0, listed);
      NamesOneMore(names, read, batch, i);
      done, listed := done + [batch[i]], listed + names(batch[i]);
    }
  }

  lemma NothingReadYet(names: Naming, read: seq<Url>, batch: seq<Url>)
    ensures read + batch[..0] == read && NamesOfAll(names, batch[..0]) == [] && batch[..|batch|] == batch
  {
  }

  lemma NamesOneMore(names: Naming, read: seq<Url>, batch: seq<Url>, i: nat)
    requires i < |batch|
    ensures (read + batch[..i]) + [batch[i]] == read + batch[..i + 1]
    ensures NamesOfAll(names, batch[..i + 1]) == NamesOfAll(names, batch[..i]) + names(batch[i])
  {
    assert batch[..i + 1][..i] == batch[..i];
  }

  // ── the walk ──────────────────────────────────────────────────────────────

  /** Everything the page reaches. */
  ghost function Reach(names: Naming, named: seq<Url>): iset<Url> {
    iset url | Reachable(names, named, url)
  }

  /** Between levels: `level` is what is discovered and not yet read. */
  ghost predicate Between(names: Naming, named: seq<Url>, read: seq<Url>, level: seq<Url>, seen: set<Url>) {
    && Distinct(read + level)
    && Members(read + level) == seen == Discovered(names, named, read)
  }

  lemma Starts(names: Naming, named: seq<Url>)
    ensures Between(names, named, [], Fresh(named, {}), Members(named))
  {
    FreshIsExact(named, {});
    assert [] + Fresh(named, {}) == Fresh(named, {});
  }

  lemma NewlyNamedAreReachable(names: Naming, named: seq<Url>, batch: seq<Url>, urls: seq<Url>)
    requires forall url :: url in batch ==> url in Reach(names, named)
    requires Members(urls) <= Members(NamesOfAll(names, batch))
    ensures forall url :: url in Members(urls) ==> url in Reach(names, named)
  {
    forall url | url in Members(urls) ensures Reachable(names, named, url) {
      assert url in Members(NamesOfAll(names, batch));
      InNamesOfAll(names, batch, url);
      var k :| 0 <= k < |batch| && url in names(batch[k]);
      assert batch[k] in batch;
      NextIsReachable(names, named, batch[k], url);
    }
  }

  lemma Requeued(read: seq<Url>, batch: seq<Url>, rest: seq<Url>, following: seq<Url>)
    requires Distinct(read + (batch + rest)) && Distinct(following)
    requires Members(read + (batch + rest)) !! Members(following)
    ensures Distinct(read + batch + (rest + following))
    ensures Members(read + batch + (rest + following)) == Members(read + (batch + rest)) + Members(following)
  {
    var all := read + (batch + rest);
    DistinctConcat(all, following);
    MembersOfConcat(all, following);
    assert read + batch + (rest + following) == all + following;
  }

  lemma DiscoveredGrows(names: Naming, named: seq<Url>, read: seq<Url>, batch: seq<Url>, seen: set<Url>)
    requires seen == Discovered(names, named, read)
    ensures Discovered(names, named, read + batch) == seen + Members(Fresh(NamesOfAll(names, batch), seen))
  {
    FreshIsExact(NamesOfAll(names, batch), seen);
    NamesOfConcat(names, read, batch);
    MembersOfConcat(NamesOfAll(names, read), NamesOfAll(names, batch));
  }

  /** Reading a batch off the level and queueing what it newly names. */
  lemma Reads(names: Naming, named: seq<Url>, read: seq<Url>, batch: seq<Url>, rest: seq<Url>, seen: set<Url>)
    requires Between(names, named, read, batch + rest, seen)
    ensures var following := Fresh(NamesOfAll(names, batch), seen);
            Between(names, named, read + batch, rest + following, seen + Members(following))
  {
    var following := Fresh(NamesOfAll(names, batch), seen);
    FreshIsExact(NamesOfAll(names, batch), seen);
    Requeued(read, batch, rest, following);
    DiscoveredGrows(names, named, read, batch, seen);
  }

  /** Nothing is read that the page does not reach. */
  lemma {:induction false} OrderIsReachable(names: Naming, named: seq<Url>, level: seq<Url>, seen: set<Url>, room: nat)
    requires forall url :: url in level ==> url in Reach(names, named)
    ensures forall url :: url in Order(names, level, seen, room) ==> url in Reach(names, named)
    decreases room
  {
    if level != [] && |level| <= room {
      var following := Fresh(NamesOfAll(names, level), seen);
      FreshIsExact(NamesOfAll(names, level), seen);
      NewlyNamedAreReachable(names, named, level, following);
      forall url | url in following ensures url in Reach(names, named) { assert url in Members(following); }
      OrderIsReachable(names, named, following, seen + Members(following), room - |level|);
    }
  }

  lemma WalkIsReachable(names: Naming, named: seq<Url>, read: seq<Url>)
    requires read == WholeWalk(names, named)
    ensures forall url :: url in read ==> url in Reach(names, named)
    ensures forall url :: url in Discovered(names, named, read) ==> url in Reach(names, named)
  {
    FreshIsExact(named, {});
    forall url | url in named ensures url in Reach(names, named) { NamedIsReachable(names, named, url); }
    forall url | url in Fresh(named, {}) ensures url in Reach(names, named) { assert url in Members(Fresh(named, {})); }
    OrderIsReachable(names, named, Fresh(named, {}), Members(named), MAX_ASSETS);
    NewlyNamedAreReachable(names, named, read, NamesOfAll(names, read));
  }

  lemma ReadIsClosed(names: Naming, named: seq<Url>, read: seq<Url>)
    requires Members(read) == Discovered(names, named, read)
    ensures forall url :: Reachable(names, named, url) ==> url in read
  {
    forall url | url in Members(read) ensures Members(names(url)) <= Members(read) {
      var k :| 0 <= k < |read| && read[k] == url;
      forall next | next in Members(names(url)) ensures next in Members(read) {
        assert next in names(read[k]);
        InNamesOfAll(names, read, next);
      }
    }
    forall url | Reachable(names, named, url) ensures url in read {
      var chain :| Chain(names, named, chain) && chain[|chain| - 1] == url;
      ChainStaysInside(names, named, Members(read), chain);
    }
  }

  lemma CountRead(host: Host, names: Naming, named: seq<Url>, read: seq<Url>, level: seq<Url>, seen: set<Url>,
                  sources: map<Url, string>, broken: map<Url, string>)
    requires Between(names, named, read, level, seen) && Recorded(host, read, sources, broken)
    ensures |sources| + |broken| == |read| && Distinct(read)
    ensures |seen| == |read| + |level|
  {
    assert forall i :: 0 <= i < |read| ==> read[i] == (read + level)[i];
    RecordedApart(host, read, sources, broken);
    DistinctCount(read + level);
  }

  /** What a finished walk promises. Each URL is asked for once, at most MAX_ASSETS of
      them, all reachable from the page; the count returned is everything discovered less
      what was read; it is 0 exactly when nothing the page reaches was left out, and
      otherwise the bound was used up. */
  ghost predicate Honest(host: Host, names: Naming, named: seq<Url>, read: seq<Url>,
                         sources: map<Url, string>, broken: map<Url, string>, unread: nat) {
    && Distinct(read) && |read| <= MAX_ASSETS
    && Recorded(host, read, sources, broken)
    && (forall url :: url in read ==> url in Reach(names, named))
    && Members(read) <= Discovered(names, named, read)
    && unread == |Discovered(names, named, read)| - |sources| - |broken|
    && (unread == 0 <==> forall url :: url in Reach(names, named) ==> url in read)
    && (unread > 0 ==> |read| == MAX_ASSETS)
  }

  lemma LeavesReachable(names: Naming, named: seq<Url>, read: seq<Url>, left: seq<Url>, seen: set<Url>)
    requires Between(names, named, read, left, seen) && left != []
    requires forall url :: url in Discovered(names, named, read) ==> url in Reach(names, named)
    ensures left[0] in Reach(names, named) && left[0] !in read
  {
    var url := left[0];
    assert (read + left)[|read|] == url && url in Members(read + left);
    forall i | 0 <= i < |read| ensures read[i] != url { assert (read + left)[i] == read[i]; }
  }

  lemma EndsHonest(host: Host, names: Naming, named: seq<Url>, read: seq<Url>, left: seq<Url>, seen: set<Url>,
                   sources: map<Url, string>, broken: map<Url, string>)
    requires Between(names, named, read, left, seen) && Recorded(host, read, sources, broken)
    requires read == WholeWalk(names, named)
    requires |read| <= MAX_ASSETS && (left != [] ==> |read| == MAX_ASSETS)
    ensures Honest(host, names, named, read, sources, broken, |left|)
  {
    CountRead(host, names, named, read, left, seen, sources, broken);
    MembersOfConcat(read, left);
    WalkIsReachable(names, named, read);
    if left == [] {
      assert Members(left) == {};
      ReadIsClosed(names, named, read);
    } else {
      LeavesReachable(names, named, read, left, seen);
    }
  }

  ghost predicate Looping(host: Host, names: Naming, named: seq<Url>, read: seq<Url>, level: seq<Url>, seen: set<Url>,
                          sources: map<Url, string>, broken: map<Url, string>)
  {
    && Between(names, named, read, level, seen)
    && Recorded(host, read, sources, broken)
    && |read| <= MAX_ASSETS
  }

  /** `level[:room], level[room:]`. */
  method Cut(level: seq<Url>, room: nat) returns (batch: seq<Url>, rest: seq<Url>)
    ensures batch + rest == level && (rest == [] ==> batch == level)
    ensures |batch| <= room && (rest != [] ==> |batch| == room < |level|)
  {
    var size := if room < |level| then room else |level|;
    batch, rest := level[..size], level[size..];
    assert batch + rest == level;
  }

  /** One level: as many of it as there is room for, and what those newly name. */
  method ReadLevel(host: Host, ghost names: Naming, ghost named: seq<Url>, ghost read: seq<Url>, level: seq<Url>,
                   sources0: map<Url, string>, broken0: map<Url, string>, seen0: set<Url>)
      returns (batch: seq<Url>, rest: seq<Url>, sources: map<Url, string>, broken: map<Url, string>,
               seen: set<Url>, following: seq<Url>)
    requires names == NamedBy(host)
    requires Looping(host, names, named, read, level, seen0, sources0, broken0)
    requires level != []
    ensures batch + rest == level && (rest == [] ==> batch == level)
    ensures Looping(host, names, named, read + batch, rest + following, seen, sources, broken)
    ensures rest != [] ==> |read + batch| == MAX_ASSETS && |level| > MAX_ASSETS - |read|
    ensures following == Fresh(NamesOfAll(names, batch), seen0) && seen == seen0 + Members(following)
  {
    CountRead(host, names, named, read, level, seen0, sources0, broken0);
    var room := MAX_ASSETS - |sources0| - |broken0|;
    batch, rest := Cut(level, room);
    Reads(names, named, read, batch, rest, seen0);
    sources, broken, seen, following := ReadBatch(host, names, batch, sources0, broken0, seen0, read);
  }

  /** The walk so far, and what is left of it, are the whole walk. */
  predicate OnCourse(names: Naming, whole: seq<Url>, read: seq<Url>, level: seq<Url>, seen: set<Url>) {
    |read| <= MAX_ASSETS && whole == read + Order(names, level, seen, MAX_ASSETS - |read|)
  }

  lemma StaysOnCourse(names: Naming, whole: seq<Url>, read: seq<Url>, level: seq<Url>, seen: set<Url>,
                      batch: seq<Url>, rest: seq<Url>, following: seq<Url>, after: set<Url>)
    requires OnCourse(names, whole, read, level, seen) && level != [] && batch + rest == level
    requires following == Fresh(NamesOfAll(names, batch), seen) && after == seen + Members(following)
    requires |read + batch| <= MAX_ASSETS
    requires rest != [] ==> |read + batch| == MAX_ASSETS && |level| > MAX_ASSETS - |read|
    ensures rest != [] ==> whole == read + batch
    ensures rest == [] ==> OnCourse(names, whole, read + batch, following, after)
  {
    var room := MAX_ASSETS - |read|;
    if rest != [] {
      TruncatedOrder(names, level, seen, room, batch, rest);
    } else {
      assert batch == level;
      MovesOn(read, batch, Order(names, following, after, room - |level|));
    }
  }

  lemma MovesOn(read: seq<Url>, batch: seq<Url>, later: seq<Url>)
    ensures read + (batch + later) == (read + batch) + later
  {
  }

  lemma TruncatedOrder(names: Naming, level: seq<Url>, seen: set<Url>, room: nat, batch: seq<Url>, rest: seq<Url>)
    requires batch + rest == level && |batch| == room && rest != []
    ensures Order(names, level, seen, room) == batch
  {
  }

  /** The URLs a walk from the page asks for. */
  function WholeWalk(names: Naming, named: seq<Url>): seq<Url> {
    Order(names, Fresh(named, {}), Members(named), MAX_ASSETS)
  }

  /** The loop; `whole` is the walk it has to follow. */
  method ReadLevels(host: Host, ghost names: Naming, ghost named: seq<Url>, ghost whole: seq<Url>, level0: seq<Url>, seen0: set<Url>)
      returns (sources: map<Url, string>, broken: map<Url, string>, unread: nat, read: seq<Url>,
               ghost left: seq<Url>, ghost seen: set<Url>)
    requires names == NamedBy(host)
    requires Looping(host, names, named, [], level0, seen0, map[], map[]) && OnCourse(names, whole, [], level0, seen0)
    ensures Looping(host, names, named, read, left, seen, sources, broken)
    ensures unread == |left| && (left != [] ==> |read| == MAX_ASSETS)
    ensures read == whole
  {
    sources, broken, read := map[], map[], [];
    var level, known := level0, seen0;
    while level != []
      invariant Looping(host, names, named, read, level, known, sources, broken)
      invariant OnCourse(names, whole, read, level, known)
      decreases MAX_ASSETS - |read| + 1
    {
      ghost var start := known;
      var batch, rest, following;
      batch, rest, sources, broken, known, following :=
        ReadLevel(host, names, named, read, level, sources, broken, known);
      StaysOnCourse(names, whole, read, level, start, batch, rest, following, known);
      read := read + batch;
      if rest != [] {
        return sources, broken, |rest| + |following|, read, rest + following, known;
      }
      assert rest + following == following;
      level := following;
    }
    assert whole == read + [];
    return sources, broken, 0, read, [], known;
  }

  // ── links ─────────────────────────────────────────────────────────────────

  /** The page leads on from a script that resolved to whatever its text names. */
  predicate Leads(host: Host, url: Url, next: Url) {
    host.asset(url).Resolved? && host.isScript(url) && next in host.chunkRefs(url, host.asset(url).text)
  }

  predicate Linked(host: Host, named: seq<Url>, chain: seq<Url>) {
    chain != [] && chain[0] in named && forall i :: 0 < i < |chain| ==> Leads(host, chain[i - 1], chain[i])
  }

  lemma {:induction false} ChainsAreLinked(host: Host, named: seq<Url>, chain: seq<Url>)
    ensures Chain(NamedBy(host), named, chain) <==> Linked(host, named, chain)
    decreases |chain|
  {
    if |chain| > 1 {
      var last := |chain| - 1;
      ChainsAreLinked(host, named, chain[..last]);
      if Chain(NamedBy(host), named, chain) {
        forall i | 0 < i < |chain| ensures Leads(host, chain[i - 1], chain[i]) {
          if i < last { assert Leads(host, chain[..last][i - 1], chain[..last][i]); }
        }
      }
    }
  }

  ghost predicate LinkedTo(host: Host, named: seq<Url>, url: Url) {
    exists chain :: Linked(host, named, chain) && chain[|chain| - 1] == url
  }

  lemma ReachIsLinked(host: Host, named: seq<Url>, url: Url)
    ensures url in Reach(NamedBy(host), named) <==> LinkedTo(host, named, url)
  {
    forall chain ensures Chain(NamedBy(host), named, chain) <==> Linked(host, named, chain) {
      ChainsAreLinked(host, named, chain);
    }
  }

  /** A walk reads only what the page is linked to, and all of it exactly when nothing is left
      unread. */
  lemma WalkReadsWhatIsLinked(
      host: Host, named: seq<Url>, read: seq<Url>, sources: map<Url, string>, broken: map<Url, string>, unread: nat)
    requires Honest(host, NamedBy(host), named, read, sources, broken, unread)
    ensures forall url :: url in read ==> LinkedTo(host, named, url)
    ensures unread == 0 <==> forall url :: LinkedTo(host, named, url) ==> url in read
    ensures |read| <= 400 && (unread > 0 ==> |read| == 400)
  {
    AllReachIsLinked(host, named);
  }

  lemma AllReachIsLinked(host: Host, named: seq<Url>)
    ensures forall url :: url in Reach(NamedBy(host), named) <==> LinkedTo(host, named, url)
  {
    forall url ensures url in Reach(NamedBy(host), named) <==> LinkedTo(host, named, url) {
      ReachIsLinked(host, named, url);
    }
  }

  /** What it discovered is what the page names and what the scripts it read lead to. */
  lemma DiscoveredIsLedTo(host: Host, named: seq<Url>, read: seq<Url>, url: Url)
    ensures url in Discovered(NamedBy(host), named, read)
        <==> url in named || exists k :: 0 <= k < |read| && Leads(host, read[k], url)
  {
    InNamesOfAll(NamedBy(host), read, url);
    forall k | 0 <= k < |read| ensures url in NamedBy(host)(read[k]) <==> Leads(host, read[k], url) { }
  }

  // ── the order of mention ──────────────────────────────────────────────────

  lemma {:induction false} FreshConcat(a: seq<Url>, b: seq<Url>, seen: set<Url>)
    ensures Fresh(a + b, seen) == Fresh(a, seen) + Fresh(b, seen + Members(Fresh(a, seen)))
  {
    if b == [] {
      assert a + b == a;
    } else {
      var before, last := b[..|b| - 1], b[|b| - 1];
      FreshConcat(a, before, seen);
      assert (a + b)[..|a + b| - 1] == a + before;
      assert last in Fresh(a, seen) <==> last in Members(Fresh(a, seen));
    }
  }

  /** Every mention of a later URL has one of each earlier URL before it. */
  ghost predicate InOrderOfMention(mentions: seq<Url>, urls: seq<Url>) {
    forall i, j, q :: 0 <= i < j < |urls| && 0 <= q < |mentions| && mentions[q] == urls[j] ==>
      Mentioned(mentions, urls[i], q)
  }

  predicate Mentioned(mentions: seq<Url>, url: Url, before: nat) {
    exists p :: 0 <= p < before <= |mentions| && mentions[p] == url
  }

  lemma {:induction false} FreshIsInOrder(mentions: seq<Url>)
    ensures InOrderOfMention(mentions, Fresh(mentions, {}))
  {
    if mentions != [] {
      var before, last := mentions[..|mentions| - 1], mentions[|mentions| - 1];
      FreshIsInOrder(before);
      FreshIsExact(before, {});
      var urls, firsts := Fresh(mentions, {}), Fresh(before, {});
      forall i, j, q | 0 <= i < j < |urls| && 0 <= q < |mentions| && mentions[q] == urls[j]
        ensures Mentioned(mentions, urls[i], q)
      {
        assert urls[i] == firsts[i];
        if q < |before| {
          assert before[q] == urls[j] && urls[j] in Members(before) && urls[j] in Members(firsts);
          assert j < |firsts|;
          assert Mentioned(before, firsts[i], q);
        } else {
          assert firsts[i] in Members(firsts) && firsts[i] in Members(before);
        }
      }
    }
  }

  /** What was read and what is queued are the first mentions so far, in order. */
  lemma {:induction false} OrderIsOfMention(
      names: Naming, named: seq<Url>, read: seq<Url>, level: seq<Url>, seen: set<Url>, room: nat)
    requires read + level == Fresh(named + NamesOfAll(names, read), {}) && seen == Members(read + level)
    ensures var whole := read + Order(names, level, seen, room); whole <= Fresh(named + NamesOfAll(names, whole), {})
    decreases room
  {
    var taken := if |level| > room then level[..room] else level;
    var mentions, more := named + NamesOfAll(names, read), NamesOfAll(names, taken);
    NamesOfConcat(names, read, taken);
    assert named + NamesOfAll(names, read + taken) == mentions + more;
    FreshConcat(mentions, more, {});
    if level == [] {
      assert read + [] == read && taken == [];
    } else if |level| > room {
      assert read + taken <= read + level;
    } else {
      assert {} + Members(read + level) == seen;
      var following := Fresh(more, seen);
      MembersOfConcat(read + level, following);
      OrderIsOfMention(names, named, read + level, following, seen + Members(following), room - |level|);
      MovesOn(read, level, Order(names, following, seen + Members(following), room - |level|));
    }
  }

  /** The walk is breadth first: assets are read in the order the page and the assets already read
      first mention them. */
  lemma WalkIsInOrderOfMention(names: Naming, named: seq<Url>)
    ensures InOrderOfMention(named + NamesOfAll(names, WholeWalk(names, named)), WholeWalk(names, named))
  {
    var read := WholeWalk(names, named);
    assert named + NamesOfAll(names, []) == named && [] + Fresh(named, {}) == Fresh(named, {});
    FreshIsExact(named, {});
    OrderIsOfMention(names, named, [], Fresh(named, {}), Members(named), MAX_ASSETS);
    assert [] + read == read;
    FreshIsInOrder(named + NamesOfAll(names, read));
  }

  /** The walk; `read` is the URLs it asked for, in the order it asked. */
  method Walk(host: Host, named: seq<Url>)
      returns (sources: map<Url, string>, broken: map<Url, string>, unread: nat, read: seq<Url>)
    ensures Honest(host, NamedBy(host), named, read, sources, broken, unread)
    ensures read == WholeWalk(NamedBy(host), named)
  {
    ghost var names := NamedBy(host);
    Starts(names, named);
    ghost var left, seen;
    assert [] + WholeWalk(names, named) == WholeWalk(names, named);
    sources, broken, unread, read, left, seen :=
      ReadLevels(host, names, named, WholeWalk(names, named), Fresh(named, {}), Members(named));
    EndsHonest(host, names, named, read, left, seen, sources, broken);
  }
}
