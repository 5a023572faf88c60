/** The per-area aircraft cache of backend/clients/adsb_lol.py, held against the full history
    of what was configured and what was fetched. */
module AdsbCache {
  import opened Selections
  import opened Wrappers

  const MIN_POLL_INTERVAL := 5.0
  const CACHE_MAX_AGE_S := 600.0

  /** An aircraft as the API tells it. */
  datatype Told = Told(hex: string, lat: Option<real>, lon: Option<real>, seenPos: Option<real>)

  /** An aircraft as served, its position dated by an absolute time. */
  datatype Row = Row(hex: string, lat: real, lon: real, capturedAt: real)

  datatype Reply = Aircraft(fetchedAt: real, told: seq<Told>) | Failed

  /** An entry of the assigned list; anything but a mapping is malformed. */
  datatype Spec = NotMapping | Mapping(name: Option<string>, hasLat: bool, hasLon: bool)

  /** One turn at an area: the clock before asking, the answer if asked, the clock after. */
  datatype Visit = Visit(now: real, reply: Reply, later: real)

  function Rows(fetchedAt: real, told: seq<Told>): seq<Row> {
    if told == [] then []
    else
      var rest, ac := Rows(fetchedAt, told[..|told| - 1]), told[|told| - 1];
      if ac.lat.None? || ac.lon.None? then rest
      else
        rest + [Row(ac.hex, ac.lat.value, ac.lon.value,
                    if ac.seenPos.Some? then fetchedAt - ac.seenPos.value else fetchedAt)]
  }

  /** Which of the aircraft told have a position. */
  function HasPosition(told: seq<Told>): nat -> bool {
    (k: nat) => k < |told| && told[k].lat.Some? && told[k].lon.Some?
  }

  /** The k-th as a row: the position it told, dated by its age before the fetch. */
  function ReadsAs(fetchedAt: real, told: seq<Told>): (nat, Row) -> bool {
    (k: nat, r: Row) =>
      && k < |told| && r.hex == told[k].hex && told[k].lat == Some(r.lat) && told[k].lon == Some(r.lon)
      && r.capturedAt + (if told[k].seenPos.Some? then told[k].seenPos.value else 0.0) == fetchedAt
  }

  /** The rows of an answer are its aircraft with a position, in order, each where and when it
      was told to be. */
  lemma {:induction false} RowsAreThePositions(fetchedAt: real, told: seq<Told>, n: nat)
    requires n <= |told|
    ensures Picks(n, HasPosition(told), ReadsAs(fetchedAt, told), Rows(fetchedAt, told[..n]))
  {
    if n == 0 {
      PicksNothing(HasPosition(told), ReadsAs(fetchedAt, told));
    } else {
      RowsAreThePositions(fetchedAt, told, n - 1);
      assert told[..n][..n - 1] == told[..n - 1];
      var before, rows := Rows(fetchedAt, told[..n - 1]), Rows(fetchedAt, told[..n]);
      if HasPosition(told)(n - 1) {
        PicksOneMore(n - 1, HasPosition(told), ReadsAs(fetchedAt, told), before, rows[|before|]);
      } else {
        PicksOn(n - 1, HasPosition(told), ReadsAs(fetchedAt, told), before);
      }
    }
  }

  predicate Usable(spec: Spec) {
    spec.Mapping? && spec.name.Some? && spec.name.value != "" && spec.hasLat && spec.hasLon
  }

  function Names(specs: seq<Spec>): seq<string> {
    if specs == [] then []
    else
      var rest, spec := Names(specs[..|specs| - 1]), specs[|specs| - 1];
      if Usable(spec) then rest + [spec.name.value] else rest
  }

  function WellFormed(specs: seq<Spec>): nat -> bool {
    (k: nat) => k < |specs| && specs[k].Mapping? && specs[k].name.Some? && specs[k].name.value != ""
         && specs[k].hasLat && specs[k].hasLon
  }

  function IsNamed(specs: seq<Spec>): (nat, string) -> bool {
    (k: nat, name: string) => k < |specs| && specs[k].Mapping? && specs[k].name == Some(name)
  }

  /** The areas are the entries with a name, a latitude and a longitude, in order. */
  lemma {:induction false} NamesAreTheWellFormed(specs: seq<Spec>, n: nat)
    requires n <= |specs|
    ensures Picks(n, WellFormed(specs), IsNamed(specs), Names(specs[..n]))
  {
    if n == 0 {
      PicksNothing(WellFormed(specs), IsNamed(specs));
    } else {
      NamesAreTheWellFormed(specs, n - 1);
      assert specs[..n][..n - 1] == specs[..n - 1];
      var before := Names(specs[..n - 1]);
      if WellFormed(specs)(n - 1) {
        PicksOneMore(n - 1, WellFormed(specs), IsNamed(specs), before, specs[n - 1].name.value);
      } else {
        PicksOn(n - 1, WellFormed(specs), IsNamed(specs), before);
      }
    }
  }

  function Members(names: seq<string>): set<string> {
    set n | n in names
  }

  // ── what happened ─────────────────────────────────────────────────────────

  datatype Fact =
    | Configured(names: set<string>)
    | Good(name: string, at: real, rows: seq<Row>)

  /** The last successful fetch of a name since it was last configured anew. */
  function Latest(history: seq<Fact>, name: string): (good: Option<Fact>)
    ensures good.Some? ==> good.value.Good? && good.value.name == name
  {
    if history == [] then None
    else
      match history[|history| - 1]
      case Good(n, _, _) => if n == name then Some(history[|history| - 1]) else Latest(history[..|history| - 1], name)
      case Configured(names) => if name in names then Latest(history[..|history| - 1], name) else None
  }

  /** What may be shown for a name at a moment: its latest good rows, while young enough. */
  function Served(history: seq<Fact>, name: string, when: real): seq<Row> {
    match Latest(history, name)
    case None => []
    case Some(good) => if when - good.at <= CACHE_MAX_AGE_S then good.rows else []
  }

  /** Whether the network is asked: five seconds after the last success, or after the clock's
      own start. A failure does not count. */
  predicate Asks(history: seq<Fact>, name: string, now: real) {
    now - (if Latest(history, name).Some? then Latest(history, name).value.at else 0.0) >= MIN_POLL_INTERVAL
  }

  predicate Succeeds(history: seq<Fact>, name: string, v: Visit) {
    Asks(history, name, v.now) && v.reply.Aircraft?
  }

  function Visited(history: seq<Fact>, name: string, v: Visit): seq<Fact> {
    if Succeeds(history, name, v) then history + [Good(name, v.now, Rows(v.reply.fetchedAt, v.reply.told))]
    else history
  }

  /** The moment the rows of a visit are judged at. */
  function When(history: seq<Fact>, name: string, v: Visit): real {
    if Succeeds(history, name, v) then v.now else v.later
  }

  /** A name's latest good fetch is one of its fetches, with no assignment since that left the
      name out and no later success. */
  predicate Unbroken(history: seq<Fact>, name: string, i: nat) {
    forall j :: i < j < |history| ==>
      match history[j]
      case Configured(names) => name in names
      case Good(n, _, _) => n != name
  }

  lemma {:induction false} LatestIsUnbroken(history: seq<Fact>, name: string) returns (i: nat)
    requires Latest(history, name).Some?
    ensures i < |history| && history[i] == Latest(history, name).value && Unbroken(history, name, i)
  {
    var last := |history| - 1;
    if history[last].Good? && history[last].name == name {
      i := last;
    } else {
      i := LatestIsUnbroken(history[..last], name);
      forall j | i < j < |history| ensures match history[j]
                                           case Configured(names) => name in names
                                           case Good(n, _, _) => n != name {
        if j < last { assert history[..last][j] == history[j]; }
      }
    }
  }

  lemma Learns(history: seq<Fact>, name: string, at: real, rows: seq<Row>)
    ensures forall n :: Latest(history + [Good(name, at, rows)], n)
                     == if n == name then Some(Good(name, at, rows)) else Latest(history, n)
  {
  }

  lemma {:induction false} UnbrokenIsLatest(history: seq<Fact>, name: string, i: nat)
    requires i < |history| && history[i].Good? && history[i].name == name && Unbroken(history, name, i)
    ensures Latest(history, name) == Some(history[i])
  {
    var last := |history| - 1;
    if i < last {
      forall j | i < j < last ensures history[..last][j] == history[j] { }
      UnbrokenIsLatest(history[..last], name, i);
    }
  }

  /** A name's latest good rows are served for 600 s and no longer, and its next fetch is made once
      5 s have passed since, and not before. */
  lemma UnbrokenIsServed(history: seq<Fact>, name: string, i: nat, v: Visit)
    requires i < |history| && history[i].Good? && history[i].name == name && Unbroken(history, name, i)
    ensures Served(history, name, v.later) == if v.later - history[i].at <= 600.0 then history[i].rows else []
    ensures Succeeds(history, name, v) <==> v.now - history[i].at >= 5.0 && v.reply.Aircraft?
  {
    UnbrokenIsLatest(history, name, i);
  }

  /** A name without one is shown nothing, and is fetched once the clock itself has read 5 s. */
  lemma NothingUnbrokenIsServed(history: seq<Fact>, name: string, v: Visit)
    requires forall i: nat :: i < |history| && history[i].Good? && history[i].name == name ==> !Unbroken(history, name, i)
    ensures Served(history, name, v.later) == []
    ensures Succeeds(history, name, v) <==> v.now >= 5.0 && v.reply.Aircraft?
  {
    if Latest(history, name).Some? {
      var i := LatestIsUnbroken(history, name);
    }
  }

  // ── merging ───────────────────────────────────────────────────────────────

  /** The first row offering a hex. */
  function FirstOf(rows: seq<Row>, hex: string): Option<Row> {
    if rows == [] then None
    else
      var earlier, r := FirstOf(rows[..|rows| - 1], hex), rows[|rows| - 1];
      if earlier.None? && r.hex == hex then Some(r) else earlier
  }

  /** The first row of each hex, in order, and none without a hex. */
  function Merge(rows: seq<Row>): seq<Row> {
    if rows == [] then []
    else
      var merged, r := Merge(rows[..|rows| - 1]), rows[|rows| - 1];
      if r.hex != "" && FirstOf(merged, r.hex).None? then merged + [r] else merged
  }

  lemma {:induction false} FirstOfMore(rows: seq<Row>, more: seq<Row>, hex: string)
    ensures FirstOf(rows + more, hex) == if FirstOf(rows, hex).Some? then FirstOf(rows, hex) else FirstOf(more, hex)
  {
    if more == [] {
      assert rows + more == rows;
    } else {
      var last := |more| - 1;
      FirstOfMore(rows, more[..last], hex);
      assert (rows + more)[..|rows| + last] == rows + more[..last];
    }
  }

  lemma {:induction false} FirstOfIsThere(rows: seq<Row>, hex: string)
    ensures FirstOf(rows, hex).Some? ==> FirstOf(rows, hex).value in rows && FirstOf(rows, hex).value.hex == hex
    ensures FirstOf(rows, hex).None? ==> forall i :: 0 <= i < |rows| ==> rows[i].hex != hex
  {
    if rows != [] {
      var before := rows[..|rows| - 1];
      FirstOfIsThere(before, hex);
      assert forall i :: 0 <= i < |before| ==> rows[i] == before[i];
    }
  }

  /** Merging keeps, of every hex but the empty one, the first row that offers it. */
  lemma {:induction false} MergeKeepsTheFirst(rows: seq<Row>, hex: string)
    ensures FirstOf(Merge(rows), hex) == if hex == "" then None else FirstOf(rows, hex)
  {
    if rows != [] {
      var r := rows[|rows| - 1];
      MergeKeepsTheFirst(rows[..|rows| - 1], hex);
      FirstOfMore(Merge(rows[..|rows| - 1]), [r], hex);
    }
  }

  /** And nothing else: no hex twice. */
  lemma {:induction false} MergeRepeatsNoHex(rows: seq<Row>)
    ensures forall i, j :: 0 <= i < j < |Merge(rows)| ==> Merge(rows)[i].hex != Merge(rows)[j].hex
  {
    if rows != [] {
      MergeRepeatsNoHex(rows[..|rows| - 1]);
      FirstOfIsThere(Merge(rows[..|rows| - 1]), rows[|rows| - 1].hex);
    }
  }

  /** Which rows are the first to offer their hex. */
  function FirstOffers(rows: seq<Row>): nat -> bool {
    (k: nat) => k < |rows| && rows[k].hex != "" && forall j :: 0 <= j < k ==> rows[j].hex != rows[k].hex
  }

  function IsRow(rows: seq<Row>): (nat, Row) -> bool {
    (k: nat, r: Row) => k < |rows| && r == rows[k]
  }

  lemma OffersFirst(rows: seq<Row>, k: nat)
    requires k < |rows|
    ensures FirstOffers(rows)(k) <==> rows[k].hex != "" && FirstOf(Merge(rows[..k]), rows[k].hex).None?
  {
    var hex := rows[k].hex;
    MergeKeepsTheFirst(rows[..k], hex);
    FirstOfIsThere(rows[..k], hex);
    if FirstOf(rows[..k], hex).Some? {
      var j :| 0 <= j < k && rows[..k][j] == FirstOf(rows[..k], hex).value;
      assert rows[j].hex == hex;
    } else {
      assert forall j :: 0 <= j < k ==> rows[j] == rows[..k][j];
    }
  }

  /** Merging keeps exactly the first row of each hex but the empty one, in the order offered. */
  lemma {:induction false} MergeIsTheFirstOffers(rows: seq<Row>, n: nat)
    requires n <= |rows|
    ensures Picks(n, FirstOffers(rows), IsRow(rows), Merge(rows[..n]))
  {
    if n == 0 {
      PicksNothing(FirstOffers(rows), IsRow(rows));
    } else {
      var merged := Merge(rows[..n - 1]);
      MergeIsTheFirstOffers(rows, n - 1);
      assert rows[..n][..n - 1] == rows[..n - 1];
      OffersFirst(rows, n - 1);
      if FirstOffers(rows)(n - 1) {
        PicksOneMore(n - 1, FirstOffers(rows), IsRow(rows), merged, rows[n - 1]);
      } else {
        PicksOn(n - 1, FirstOffers(rows), IsRow(rows), merged);
      }
    }
  }

  // ── one cycle ─────────────────────────────────────────────────────────────

  /** What is known after a turn at each area, in order. */
  function Heard(history: seq<Fact>, areas: seq<string>, visits: seq<Visit>): seq<Fact>
    requires |visits| <= |areas|
  {
    if visits == [] then history
    else
      var last := |visits| - 1;
      Visited(Heard(history, areas, visits[..last]), areas[last], visits[last])
  }

  function Offered(history: seq<Fact>, areas: seq<string>, visits: seq<Visit>): seq<Row>
    requires |visits| <= |areas|
  {
    if visits == [] then []
    else
      var last := |visits| - 1;
      Offered(history, areas, visits[..last])
      + Served(Heard(history, areas, visits), areas[last],
               When(Heard(history, areas, visits[..last]), areas[last], visits[last]))
  }

  /** The clock reads on through a cycle. */
  predicate Timely(visits: seq<Visit>, clock: real) {
    visits == [] || (clock <= visits[0].now <= visits[0].later && Timely(visits[1..], visits[0].later))
  }

  lemma {:induction false} MergedIsFirst(rows: seq<Row>, r: Row)
    requires r in Merge(rows)
    ensures r.hex != "" && FirstOf(rows, r.hex) == Some(r)
  {
    var rest := rows[..|rows| - 1];
    if r in Merge(rest) { MergedIsFirst(rest, r); } else { MergeKeepsTheFirst(rest, r.hex); }
  }

  /** A successful fetch of area k, at most 600 s before its turn, reported r, with the area
      configured ever since; and no area before it offered that hex. */
  ghost predicate VouchedFor(history: seq<Fact>, areas: seq<string>, visits: seq<Visit>, r: Row, k: nat, i: nat)
    requires k < |visits| <= |areas|
  {
    var before, heard := Heard(history, areas, visits[..k]), Heard(history, areas, visits[..k + 1]);
    && i < |heard| && heard[i].Good? && heard[i].name == areas[k] && r in heard[i].rows
    && Unbroken(heard, areas[k], i)
    && When(before, areas[k], visits[k]) - heard[i].at <= CACHE_MAX_AGE_S
    && FirstOf(Offered(history, areas, visits[..k]), r.hex).None?
  }

  lemma {:induction false} FirstIsVouchedFor(history: seq<Fact>, areas: seq<string>, visits: seq<Visit>, r: Row)
      returns (k: nat, i: nat)
    requires |visits| <= |areas| && FirstOf(Offered(history, areas, visits), r.hex) == Some(r)
    ensures k < |visits| && VouchedFor(history, areas, visits, r, k, i)
  {
    var last := |visits| - 1;
    var earlier, heard := Offered(history, areas, visits[..last]), Heard(history, areas, visits);
    var served := Served(heard, areas[last], When(Heard(history, areas, visits[..last]), areas[last], visits[last]));
    FirstOfMore(earlier, served, r.hex);
    if FirstOf(earlier, r.hex).Some? {
      k, i := FirstIsVouchedFor(history, areas, visits[..last], r);
      assert visits[..last][..k + 1] == visits[..k + 1] && visits[..last][..k] == visits[..k];
    } else {
      k := last;
      assert visits[..last + 1] == visits;
      FirstOfIsThere(served, r.hex);
      i := LatestIsUnbroken(heard, areas[last]);
    }
  }

  /** Every aircraft a cycle returns was reported by a successful fetch of one of its areas, at
      most 600 s before that area's turn, with the area configured ever since, and comes from
      the first area in order that offers its hex. */
  lemma ServedIsVouchedFor(history: seq<Fact>, areas: seq<string>, visits: seq<Visit>, r: Row)
      returns (k: nat, i: nat)
    requires |visits| <= |areas| && r in Merge(Offered(history, areas, visits))
    ensures k < |visits| && VouchedFor(history, areas, visits, r, k, i)
  {
    MergedIsFirst(Offered(history, areas, visits), r);
    k, i := FirstIsVouchedFor(history, areas, visits, r);
  }

  /** What the k-th area's turn gives. */
  function Turn(history: seq<Fact>, areas: seq<string>, visits: seq<Visit>, k: nat): seq<Row>
    requires k < |visits| <= |areas|
  {
    var before := Heard(history, areas, visits[..k]);
    Served(Heard(history, areas, visits[..k + 1]), areas[k], When(before, areas[k], visits[k]))
  }

  lemma {:induction false} TurnIsOffered(history: seq<Fact>, areas: seq<string>, visits: seq<Visit>, k: nat, r: Row)
    requires k < |visits| <= |areas|
    requires r in Turn(history, areas, visits, k)
    ensures r in Offered(history, areas, visits)
    decreases |visits|
  {
    var last := |visits| - 1;
    if k < last {
      assert visits[..last][..k + 1] == visits[..k + 1] && visits[..last][..k] == visits[..k];
      TurnIsOffered(history, areas, visits[..last], k, r);
    } else {
      assert visits[..k + 1] == visits;
    }
  }

  /** And nothing an area's turn gives is lost: each hex but the empty one is served, once. */
  lemma EveryHexIsServed(history: seq<Fact>, areas: seq<string>, visits: seq<Visit>, k: nat, r: Row) returns (s: Row)
    requires k < |visits| <= |areas| && r.hex != ""
    requires r in Turn(history, areas, visits, k)
    ensures s in Merge(Offered(history, areas, visits)) && s.hex == r.hex
  {
    var offered := Offered(history, areas, visits);
    TurnIsOffered(history, areas, visits, k, r);
    FirstOfIsThere(offered, r.hex);
    MergeKeepsTheFirst(offered, r.hex);
    FirstOfIsThere(Merge(offered), r.hex);
    s := FirstOf(Merge(offered), r.hex).value;
  }

  // ── the client ────────────────────────────────────────────────────────────

  class AdsbLolClient {
    var areas: seq<string>
    var lastPoll: map<string, real>
    var cache: map<string, seq<Row>>
    var cacheTs: map<string, real>
    var lastStatus: map<string, bool>
    ghost var history: seq<Fact>
    ghost var clock: real

    ghost predicate Valid()
      reads this
    {
      cache.Keys == cacheTs.Keys && AllAgree(lastPoll, cache, cacheTs, history, clock)
    }

    constructor (specs: seq<Spec>, now: real)
      ensures Valid() && areas == Names(specs) && history == [Configured(Members(areas))] && clock == now
    {
      lastPoll, cache, cacheTs, lastStatus, areas := map[], map[], map[], map[], [];
      history, clock := [], now;
      new;
      SetAreas(specs);
    }

    method SetAreas(specs: seq<Spec>)
      requires Valid()
      modifies this
      ensures Valid() && areas == Names(specs) && clock == old(clock)
      ensures history == old(history) + [Configured(Members(areas))]
      ensures lastStatus == map n | n in old(lastStatus) && n in Members(areas) :: old(lastStatus)[n]
    {
      var good := ReadNames(specs);
      areas := good;
      var kept := Members(good);
      ForgettingAgrees(lastPoll, cache, cacheTs, history, clock, kept);
      lastPoll := lastPoll - (lastPoll.Keys - kept);
      cache := cache - (cache.Keys - kept);
      cacheTs := cacheTs - (cacheTs.Keys - kept);
      lastStatus := lastStatus - (lastStatus.Keys - kept);
      history := history + [Configured(kept)];
    }

    method LastGood(name: string, when: real) returns (rows: seq<Row>)
      requires Valid() && when >= clock
      modifies this`cache, this`cacheTs, this`clock
      ensures Valid() && clock == when && rows == Served(history, name, when)
    {
      clock := when;
      if name !in cacheTs || when - cacheTs[name] > CACHE_MAX_AGE_S {
        cache := cache - {name};
        cacheTs := cacheTs - {name};
        return [];
      }
      rows := if name in cache then cache[name] else [];
    }

    method Keep(name: string, now: real, rows: seq<Row>)
      requires Valid() && now >= clock
      modifies this`lastPoll, this`cache, this`cacheTs, this`lastStatus, this`history, this`clock
      ensures Valid() && clock == now && history == old(history) + [Good(name, now, rows)]
      ensures Latest(history, name) == Some(Good(name, now, rows)) && lastStatus == old(lastStatus)[name := true]
    {
      LearningAgrees(lastPoll, cache, cacheTs, history, clock, name, now, rows);
      cache, cacheTs := cache[name := rows], cacheTs[name := now];
      lastPoll, lastStatus := lastPoll[name := now], lastStatus[name := true];
      history, clock := history + [Good(name, now, rows)], now;
    }

    /** Rows of a fresh answer, or of the name's latest good one while young enough. */
    method FetchArea(name: string, v: Visit) returns (rows: seq<Row>)
      requires Valid() && clock <= v.now <= v.later
      modifies this`lastPoll, this`cache, this`cacheTs, this`lastStatus, this`history, this`clock
      ensures Valid() && clock <= v.later
      ensures history == Visited(old(history), name, v)
      ensures rows == Served(history, name, When(old(history), name, v))
      ensures if Succeeds(old(history), name, v) then
                history == old(history) + [Good(name, v.now, rows)] && rows == Rows(v.reply.fetchedAt, v.reply.told)
              else history == old(history) && rows == Served(history, name, v.later)
      ensures lastStatus == if Asks(old(history), name, v.now) then old(lastStatus)[name := v.reply.Aircraft?]
                            else old(lastStatus)
    {
      if v.now - (if name in lastPoll then lastPoll[name] else 0.0) < MIN_POLL_INTERVAL {
        rows := LastGood(name, v.later);
        return;
      }
      match v.reply
      case Aircraft(fetchedAt, told) =>
        rows := ReadRows(fetchedAt, told);
        Keep(name, v.now, rows);
      case Failed =>
        lastStatus := lastStatus[name := false];
        rows := LastGood(name, v.later);
    }

    /** One cycle: each configured area has its turn, and each hex is served once, from the
        first area in order that offers it. */
    method FetchAll(visits: seq<Visit>) returns (rows: seq<Row>)
      requires Valid() && |visits| == |areas| && Timely(visits, clock)
      modifies this`lastPoll, this`cache, this`cacheTs, this`lastStatus, this`history, this`clock
      ensures Valid() && history == Heard(old(history), areas, visits)
      ensures rows == Merge(Offered(old(history), areas, visits))
    {
      rows := [];
      var seen := {};
      for i := 0 to |areas|
        invariant Valid() && history == Heard(old(history), areas, visits[..i])
        invariant Timely(visits[i..], clock)
        invariant rows == Merge(Offered(old(history), areas, visits[..i])) && seen == Hexes(rows)
      {
        assert visits[..i + 1][..i] == visits[..i];
        var batch := FetchArea(areas[i], visits[i]);
        rows, seen := AddUnseen(rows, seen, batch, Offered(old(history), areas, visits[..i]));
      }
      assert visits[..|areas|] == visits;
    }
  }

  /** The three tables hold a name's latest good fetch, its rows until they have been too old. */
  ghost predicate Agrees(lastPoll: map<string, real>, cache: map<string, seq<Row>>, cacheTs: map<string, real>,
                         latest: Option<Fact>, n: string, clock: real)
    requires latest.Some? ==> latest.value.Good?
  {
    match latest
    case None => n !in lastPoll && n !in cache && n !in cacheTs
    case Some(good) =>
      && n in lastPoll && lastPoll[n] == good.at
      && (if n in cache && n in cacheTs then cache[n] == good.rows && cacheTs[n] == good.at
          else clock - good.at > CACHE_MAX_AGE_S)
  }

  /** The tables agree with the history on every name. */
  ghost predicate AllAgree(lastPoll: map<string, real>, cache: map<string, seq<Row>>, cacheTs: map<string, real>,
                           history: seq<Fact>, clock: real)
  {
    forall n :: Agrees(lastPoll, cache, cacheTs, Latest(history, n), n, clock)
  }

  lemma LearningAgrees(lastPoll: map<string, real>, cache: map<string, seq<Row>>, cacheTs: map<string, real>,
                       history: seq<Fact>, clock: real, name: string, now: real, rows: seq<Row>)
    requires AllAgree(lastPoll, cache, cacheTs, history, clock) && clock <= now
    ensures AllAgree(lastPoll[name := now], cache[name := rows], cacheTs[name := now],
                     history + [Good(name, now, rows)], now)
    ensures Latest(history + [Good(name, now, rows)], name) == Some(Good(name, now, rows))
  {
    Learns(history, name, now, rows);
  }

  lemma ForgettingAgrees(lastPoll: map<string, real>, cache: map<string, seq<Row>>, cacheTs: map<string, real>,
                         history: seq<Fact>, clock: real, kept: set<string>)
    requires AllAgree(lastPoll, cache, cacheTs, history, clock)
    ensures AllAgree(lastPoll - (lastPoll.Keys - kept), cache - (cache.Keys - kept), cacheTs - (cacheTs.Keys - kept),
                     history + [Configured(kept)], clock)
  {
    assert (history + [Configured(kept)])[..|history|] == history;
  }

  method ReadNames(specs: seq<Spec>) returns (good: seq<string>)
    ensures good == Names(specs)
  {
    good := [];
    for i := 0 to |specs|
      invariant good == Names(specs[..i])
    {
      assert specs[..i + 1][..i] == specs[..i];
      if Usable(specs[i]) { good := good + [specs[i].name.value]; }
    }
    assert specs[..|specs|] == specs;
  }

  method ReadRows(fetchedAt: real, told: seq<Told>) returns (rows: seq<Row>)
    ensures rows == Rows(fetchedAt, told)
  {
    rows := [];
    for i := 0 to |told|
      invariant rows == Rows(fetchedAt, told[..i])
    {
      assert told[..i + 1][..i] == told[..i];
      var ac := told[i];
      if ac.lat.None? || ac.lon.None? { continue; }
      var capturedAt := if ac.seenPos.Some? then fetchedAt - ac.seenPos.value else fetchedAt;
      rows := rows + [Row(ac.hex, ac.lat.value, ac.lon.value, capturedAt)];
    }
    assert told[..|told|] == told;
  }

  method AddUnseen(rows0: seq<Row>, seen0: set<string>, batch: seq<Row>, ghost offered: seq<Row>)
      returns (rows: seq<Row>, seen: set<string>)
    requires rows0 == Merge(offered) && seen0 == Hexes(rows0)
    ensures rows == Merge(offered + batch) && seen == Hexes(rows)
  {
    rows, seen := rows0, seen0;
    assert offered + batch[..0] == offered;
    for i := 0 to |batch|
      invariant rows == Merge(offered + batch[..i]) && seen == Hexes(rows)
    {
      var r := batch[i];
      MergeOneMore(offered, batch, i);
      if r.hex != "" && r.hex !in seen {
        HexesOfMore(rows, r);
        seen := seen + {r.hex};
        rows := rows + [r];
      }
    }
    assert batch[..|batch|] == batch;
  }

  function Hexes(rows: seq<Row>): set<string> {
    set r | r in rows :: r.hex
  }

  lemma HexesOfMore(rows: seq<Row>, r: Row)
    ensures Hexes(rows + [r]) == Hexes(rows) + {r.hex}
  {
  }

  lemma MergeOneMore(offered: seq<Row>, batch: seq<Row>, i: nat)
    requires i < |batch|
    ensures var merged, r := Merge(offered + batch[..i]), batch[i];
            Merge(offered + batch[..i + 1]) == if r.hex != "" && r.hex !in Hexes(merged) then merged + [r] else merged
  {
    assert (offered + batch[..i + 1])[..|offered| + i] == offered + batch[..i];
    FirstOfIsThere(Merge(offered + batch[..i]), batch[i].hex);
  }
}
