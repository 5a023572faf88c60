/** The two whole-frame validators of backend/routes/node_schemas.py: a frame's arrays are one
    table, and its tracks account for its detections. */
module FrameTracks {
  import opened Wrappers

  datatype Standing = Active | Coasting | Deleted

  datatype Track = Track(id: string, state: Standing, hit: Option<nat>)

  /** The columns by their lengths, the correlation columns by their hexes. */
  datatype Frame = Frame(
    delay: nat, doppler: nat, snr: nat,
    adsbHex: Option<seq<Option<string>>>, tags: Option<seq<Option<string>>>,
    tracker: Option<string>, tracks: Option<seq<Track>>)

  // ── parallel arrays ───────────────────────────────────────────────────────

  datatype Mismatch = Lengths | HexLength | TagLength | TagDiffers(i: nat)

  /** One row per detection in every column sent, and no tag beside another hex. */
  ghost predicate OneTable(f: Frame) {
    && f.doppler == f.delay && f.snr == f.delay
    && (f.adsbHex.Some? ==> |f.adsbHex.value| == f.delay)
    && (f.tags.Some? ==> |f.tags.value| == f.delay)
    && (f.adsbHex.Some? && f.tags.Some? ==> forall i :: 0 <= i < f.delay ==> TagAgrees(f, i))
  }

  predicate TagAgrees(f: Frame, i: nat)
    requires f.adsbHex.Some? && f.tags.Some? && i < |f.tags.value| && i < |f.adsbHex.value|
  {
    f.tags.value[i].Some? ==> f.tags.value[i] == f.adsbHex.value[i]
  }

  method ArraysAreParallel(f: Frame) returns (r: Result<Frame, Mismatch>)
    ensures r.Ok? <==> OneTable(f)
    ensures r.Ok? ==> r.value == f
    ensures r.Err? ==> match r.error
                       case Lengths => f.doppler != f.delay || f.snr != f.delay
                       case HexLength => f.doppler == f.delay == f.snr && f.adsbHex.Some? && |f.adsbHex.value| != f.delay
                       case TagLength =>
                         && f.doppler == f.delay == f.snr && (f.adsbHex.Some? ==> |f.adsbHex.value| == f.delay)
                         && f.tags.Some? && |f.tags.value| != f.delay
                       case TagDiffers(i) =>
                         && f.doppler == f.delay == f.snr
                         && f.tags.Some? && f.adsbHex.Some? && |f.tags.value| == |f.adsbHex.value| == f.delay
                         && i < f.delay && !TagAgrees(f, i) && forall j :: 0 <= j < i ==> TagAgrees(f, j)
  {
    var n := f.delay;
    if f.doppler != n || f.snr != n { return Err(Lengths); }
    if f.adsbHex.Some? && |f.adsbHex.value| != n { return Err(HexLength); }
    if f.tags.Some? {
      if |f.tags.value| != n { return Err(TagLength); }
      if f.adsbHex.Some? {
        for i := 0 to n
          invariant forall j :: 0 <= j < i ==> TagAgrees(f, j)
        {
          var tag := f.tags.value[i];
          assert TagAgrees(f, i) <==> !(tag.Some? && tag != f.adsbHex.value[i]);
          if tag.Some? && tag != f.adsbHex.value[i] { return Err(TagDiffers(i)); }
        }
      }
    }
    r := Ok(f);
  }

  // ── tracks ────────────────────────────────────────────────────────────────

  datatype Fault = RepeatsId | ActiveWithoutHit | IdleWithHit | HitOutside | HitTaken

  datatype Refusal = NoTracker | Faulty(i: nat, fault: Fault)

  function Ids(tracks: seq<Track>): set<string> {
    set t | t in tracks :: t.id
  }

  function Hits(tracks: seq<Track>): set<nat> {
    set t | t in tracks && t.hit.Some? :: t.hit.value
  }

  /** What is wrong with a track beside those before it, in the order it is looked for. */
  function FaultOf(earlier: seq<Track>, track: Track, n: nat): Option<Fault> {
    if track.id in Ids(earlier) then Some(RepeatsId)
    else if track.state.Active? && track.hit.None? then Some(ActiveWithoutHit)
    else if !track.state.Active? && track.hit.Some? then Some(IdleWithHit)
    else if track.hit.None? then None
    else if track.hit.value >= n then Some(HitOutside)
    else if track.hit.value in Hits(earlier) then Some(HitTaken)
    else None
  }

  /** Distinct ids, and hits that map the active tracks one to one into the detections. */
  ghost predicate Accounts(tracks: seq<Track>, n: nat) {
    && (forall i, j :: 0 <= i < j < |tracks| ==> tracks[i].id != tracks[j].id)
    && (forall i :: 0 <= i < |tracks| ==> (tracks[i].hit.Some? <==> tracks[i].state.Active?))
    && (forall i :: 0 <= i < |tracks| && tracks[i].hit.Some? ==> tracks[i].hit.value < n)
    && (forall i, j :: 0 <= i < j < |tracks| && tracks[i].hit.Some? && tracks[j].hit.Some? ==>
          tracks[i].hit != tracks[j].hit)
  }

  ghost predicate RepeatsAnId(tracks: seq<Track>, i: nat)
    requires i < |tracks|
  {
    exists j :: 0 <= j < i && tracks[j].id == tracks[i].id
  }

  /** What each fault says of the track; a repeated id outranks the others. */
  ghost predicate FaultIs(tracks: seq<Track>, i: nat, n: nat, fault: Fault)
    requires i < |tracks|
  {
    var track := tracks[i];
    match fault
    case RepeatsId => RepeatsAnId(tracks, i)
    case ActiveWithoutHit => !RepeatsAnId(tracks, i) && track.state.Active? && track.hit.None?
    case IdleWithHit => !RepeatsAnId(tracks, i) && !track.state.Active? && track.hit.Some?
    case HitOutside => !RepeatsAnId(tracks, i) && track.state.Active? && track.hit.Some? && track.hit.value >= n
    case HitTaken =>
      && !RepeatsAnId(tracks, i) && track.state.Active? && track.hit.Some? && track.hit.value < n
      && exists j :: 0 <= j < i && tracks[j].hit == track.hit
  }

  lemma FaultMeans(tracks: seq<Track>, i: nat, n: nat, fault: Fault)
    requires i < |tracks|
    ensures FaultOf(tracks[..i], tracks[i], n) == Some(fault) <==> FaultIs(tracks, i, n, fault)
  {
    assert forall j :: 0 <= j < i ==> tracks[..i][j] == tracks[j];
    assert tracks[i].id in Ids(tracks[..i]) <==> RepeatsAnId(tracks, i);
    assert tracks[i].hit.Some? ==>
      (tracks[i].hit.value in Hits(tracks[..i]) <==> exists j :: 0 <= j < i && tracks[j].hit == tracks[i].hit);
  }

  method TracksNameThisFramesDetections(f: Frame) returns (r: Result<Frame, Refusal>)
    ensures r.Ok? <==> f.tracks.Some? ==> f.tracker.Some? && Accounts(f.tracks.value, f.delay)
    ensures r.Ok? ==> r.value == f
    ensures r.Err? && r.error.NoTracker? ==> f.tracks.Some? && f.tracker.None?
    ensures r.Err? && r.error.Faulty? ==>
              && f.tracks.Some? && f.tracker.Some? && r.error.i < |f.tracks.value|
              && Accounts(f.tracks.value[..r.error.i], f.delay)
              && FaultIs(f.tracks.value, r.error.i, f.delay, r.error.fault)
  {
    if f.tracks.None? { return Ok(f); }
    if f.tracker.None? { return Err(NoTracker); }
    var tracks, n := f.tracks.value, f.delay;
    var ids: set<string>, hits: set<nat> := {}, {};
    for i := 0 to |tracks|
      invariant ids == Ids(tracks[..i]) && hits == Hits(tracks[..i]) && Accounts(tracks[..i], n)
    {
      var track := tracks[i];
      OneMore(tracks, i, n);
      forall fault ensures FaultOf(tracks[..i], track, n) == Some(fault) <==> FaultIs(tracks, i, n, fault) {
        FaultMeans(tracks, i, n, fault);
      }
      if track.id in ids { return Err(Faulty(i, RepeatsId)); }
      ids := ids + {track.id};
      if track.state.Active? {
        if track.hit.None? { return Err(Faulty(i, ActiveWithoutHit)); }
      } else if track.hit.Some? {
        return Err(Faulty(i, IdleWithHit));
      }
      if track.hit.None? { continue; }
      if track.hit.value >= n { return Err(Faulty(i, HitOutside)); }
      if track.hit.value in hits { return Err(Faulty(i, HitTaken)); }
      hits := hits + {track.hit.value};
    }
    assert tracks[..|tracks|] == tracks;
    r := Ok(f);
  }

  /** A track adds up beside those before it exactly when they all account for the frame. */
  lemma OneMore(tracks: seq<Track>, i: nat, n: nat)
    requires i < |tracks| && Accounts(tracks[..i], n)
    ensures Accounts(tracks[..i + 1], n) <==> FaultOf(tracks[..i], tracks[i], n).None?
    ensures FaultOf(tracks[..i], tracks[i], n).Some? ==> !Accounts(tracks, n)
    ensures Ids(tracks[..i + 1]) == Ids(tracks[..i]) + {tracks[i].id}
    ensures Hits(tracks[..i + 1])
         == Hits(tracks[..i]) + if tracks[i].hit.Some? then {tracks[i].hit.value} else {}
  {
  }

  // ── pigeonhole ────────────────────────────────────────────────────────────

  function ActiveCount(tracks: seq<Track>): nat {
    if tracks == [] then 0
    else ActiveCount(tracks[..|tracks| - 1]) + if tracks[|tracks| - 1].state.Active? then 1 else 0
  }

  function Below(n: nat): (below: set<nat>)
    ensures |below| == n && forall k: nat :: k in below <==> k < n
  {
    if n == 0 then {}
    else
      assert n - 1 !in Below(n - 1);
      Below(n - 1) + {n - 1}
  }

  lemma AccountsForFewer(tracks: seq<Track>, k: nat, n: nat)
    requires Accounts(tracks, n) && k <= |tracks|
    ensures Accounts(tracks[..k], n)
  {
  }

  /** The active tracks of a frame that adds up and the detections they took are equally many. */
  lemma {:induction false} ActiveTracksAreTheirHits(tracks: seq<Track>, n: nat)
    requires Accounts(tracks, n)
    ensures |Hits(tracks)| == ActiveCount(tracks) && Hits(tracks) <= Below(n)
  {
    if tracks != [] {
      var last := |tracks| - 1;
      assert tracks[..last + 1] == tracks;
      AccountsForFewer(tracks, last, n);
      ActiveTracksAreTheirHits(tracks[..last], n);
      OneMore(tracks, last, n);
      if tracks[last].state.Active? {
        assert tracks[last].hit.value !in Hits(tracks[..last]);
      } else {
        assert Hits(tracks) == Hits(tracks[..last]);
      }
    }
  }

  /** An accepted frame has no more active tracks than detections. */
  lemma NoMoreActiveTracksThanDetections(f: Frame)
    requires f.tracks.Some? && Accounts(f.tracks.value, f.delay)
    ensures ActiveCount(f.tracks.value) <= f.delay
  {
    ActiveTracksAreTheirHits(f.tracks.value, f.delay);
    assert Below(f.delay) == Hits(f.tracks.value) + (Below(f.delay) - Hits(f.tracks.value));
  }
}
