/**
 * The home page's state and its updates: the trail recorder (start, the
 * periodic sample, stop), saving an entry, importing a file, changing
 * preferences, the save-on-change effect, and the newest-first orderings
 * used by the lists.
 *
 * Position fixes, ids, clock readings, file contents and photo encoding
 * results are inputs; the messages passed to the toast are kept as a log.
 */
module Page {
  import opened Types
  import Geo
  import Storage

  // ---------------------------------------------------------------------
  // Newest-first ordering (an insertion sort on a numeric key, descending)
  // ---------------------------------------------------------------------

  ghost predicate NewestFirstBy<T>(s: seq<T>, key: T -> int) {
    forall i, j :: 0 <= i < j < |s| ==> key(s[i]) >= key(s[j])
  }

  /** Puts `x` before the first element whose key is not larger than its own. */
  function InsertByKey<T>(x: T, s: seq<T>, key: T -> int): (r: seq<T>)
    requires NewestFirstBy(s, key)
    ensures NewestFirstBy(r, key)
    ensures multiset(r) == multiset(s) + multiset{x}
    ensures |r| == |s| + 1
  {
    if s == [] then [x]
    else if key(s[0]) > key(x) then
      var rest := InsertByKey(x, s[1..], key);
      assert s == [s[0]] + s[1..];
      HeadKeyBounds(s, x, rest, key);
      [s[0]] + rest
    else [x] + s
  }

  /** Whatever is inserted behind the head of a newest-first sequence is not newer than it. */
  lemma HeadKeyBounds<T>(s: seq<T>, x: T, rest: seq<T>, key: T -> int)
    requires NewestFirstBy(s, key) && |s| > 0 && key(x) < key(s[0])
    requires multiset(rest) == multiset(s[1..]) + multiset{x}
    ensures forall k :: 0 <= k < |rest| ==> key(rest[k]) <= key(s[0])
  {
    forall k | 0 <= k < |rest| ensures key(rest[k]) <= key(s[0]) {
      var y := rest[k];
      assert y in multiset(rest);
      if y != x {
        assert y in multiset(s[1..]);
        assert y in s[1..];
        var i :| 0 <= i < |s[1..]| && s[1..][i] == y;
        assert s[i + 1] == y;
      }
    }
  }

  /** `[...s].sort((a, b) => key(b) - key(a))` */
  function SortNewestFirst<T>(s: seq<T>, key: T -> int): (r: seq<T>)
    ensures NewestFirstBy(r, key)
    ensures multiset(r) == multiset(s)
    ensures |r| == |s|
  {
    if s == [] then []
    else
      assert s == [s[0]] + s[1..];
      InsertByKey(s[0], SortNewestFirst(s[1..], key), key)
  }

  function EntryTime(e: Entry): int { e.ts }

  /** `startedAt || 0`: a start time is always present here, so this is the start time. */
  function TrailStart(t: Trail): int { t.startedAt }

  /** The entries list, newest first. */
  function SortedEntries(entries: seq<Entry>): (r: seq<Entry>)
    ensures multiset(r) == multiset(entries)
    ensures forall i, j :: 0 <= i < j < |r| ==> r[i].ts >= r[j].ts
  {
    SortNewestFirst(entries, EntryTime)
  }

  /** The trails list, most recently started first. */
  function SortedTrails(trails: seq<Trail>): (r: seq<Trail>)
    ensures multiset(r) == multiset(trails)
    ensures forall i, j :: 0 <= i < j < |r| ==> r[i].startedAt >= r[j].startedAt
  {
    SortNewestFirst(trails, TrailStart)
  }

  // ---------------------------------------------------------------------
  // Inputs from the host
  // ---------------------------------------------------------------------

  /** A single position request: no geolocation capability, a failure, or a fix. */
  datatype GeoReading = Unsupported | Failed | Fix(lat: real, lng: real, acc: real)

  /** The outcome of resizing the chosen photo, when there is one. */
  datatype PhotoOutcome = NoPhoto | Encoded(dataUrl: string) | EncodeFailed

  /** The chosen import file: none, one whose text cannot be read, or its parsed text. */
  datatype ImportFile = NoFile | Unreadable | FileText(doc: Storage.Json)

  /** The messages the page shows. */
  datatype Notice =
    | LocationUnavailable   // the device has no geolocation
    | LocationFailed        // the position could not be acquired
    | EntrySaved
    | EntrySaveFailed
    | RecordingStarted
    | TrailTooShort         // fewer than two points: no distance measured
    | TrailSaved
    | ImportSucceeded
    | ImportFailed

  /** The message captureLocation shows for a reading. */
  function LocationNotices(reading: GeoReading): seq<Notice> {
    match reading
    case Unsupported => [LocationUnavailable]
    case Failed => [LocationFailed]
    case Fix(_, _, _) => []
  }

  // ---------------------------------------------------------------------
  // Specification functions for the state updates
  // ---------------------------------------------------------------------

  /** The trail as it is stored at stop: end time set, distance recomputed from its points. */
  function Finalize(dist: Geo.PairDistance, t: Trail, now: int): Trail {
    t.(endedAt := Some(now), distanceM := Some(Geo.PathDistance(dist, t.points)))
  }

  /** An active trail: no end time, and a distance (once it has points) that matches its points. */
  ghost predicate ActiveTrailConsistent(dist: Geo.PairDistance, t: Trail) {
    && t.endedAt.None?
    && t.distanceM == (if t.points == [] then None else Some(Geo.PathDistance(dist, t.points)))
  }

  /**
   * Import validation: the parsed text must be an object that has `entries`,
   * `trails` and `prefs`; it then becomes the whole state.
   */
  function ValidateImport(doc: Storage.Json): (r: Option<AppState>)
    ensures r.Some? <==> doc.JsonObject? && doc.rec.entries.Some? && doc.rec.trails.Some? && doc.rec.prefs.Some?
    ensures r.Some? ==> r.value.entries == doc.rec.entries.value && r.value.trails == doc.rec.trails.value
    ensures r.Some? ==> r.value.prefs == OverlayPrefs(DefaultPrefs, doc.rec.prefs.value)
  {
    match doc
    case JsonObject(rec) =>
      if rec.entries.Some? && rec.trails.Some? && rec.prefs.Some? then
        Some(AppState(rec.entries.value, rec.trails.value, OverlayPrefs(DefaultPrefs, rec.prefs.value)))
      else None
    case _ => None
  }

  /** Importing an exported state gives that state back. */
  lemma ImportExportRoundTrip(s: AppState)
    ensures ValidateImport(Storage.JsonObject(Storage.Encode(s))) == Some(s)
  {
    OverlayCompletePatch(DefaultPrefs, s.prefs);
  }

  /** A stopped trail with fewer than two points is still stored, with a distance of 0. */
  lemma ShortTrailHasZeroDistance(dist: Geo.PairDistance, t: Trail, now: int)
    requires |t.points| < 2
    ensures Finalize(dist, t, now).distanceM == Some(0.0)
    ensures Finalize(dist, t, now).points == t.points
  {
  }

  /** The distance recomputed at stop is the one the active trail already carried. */
  lemma FinalDistanceMatchesActive(dist: Geo.PairDistance, t: Trail, now: int)
    requires ActiveTrailConsistent(dist, t) && t.points != []
    ensures Finalize(dist, t, now).distanceM == t.distanceM
  {
  }

  // ---------------------------------------------------------------------
  // The page
  // ---------------------------------------------------------------------

  class HomePage {
    /** The pairwise distance used by the distance engine. */
    const dist: Geo.PairDistance
    /** The persistent slot. */
    const store: Storage.Store

    var state: AppState
    var isRecording: bool
    var activeTrail: Option<Trail>
    /** Whether the 20-second sampling interval is scheduled. */
    var timerArmed: bool
    /** Every showToast call, in order (the toast itself displays only the latest). */
    var notices: seq<Notice>

    ghost predicate Valid()
      reads this
    {
      && (isRecording <==> activeTrail.Some?)
      && (timerArmed ==> isRecording)
      && (activeTrail.Some? ==> ActiveTrailConsistent(dist, activeTrail.value))
    }

    /** Mounting the page: the state is whatever loadState returns. */
    constructor (dist: Geo.PairDistance, store: Storage.Store, readFails: bool)
      ensures Valid()
      ensures this.dist == dist && this.store == store
      ensures state == Storage.LoadFrom(store.hasWindow, readFails, store.slot)
      ensures !isRecording && activeTrail.None? && !timerArmed && notices == []
    {
      this.dist := dist;
      this.store := store;
      var loaded := store.Load(readFails);
      state := loaded;
      isRecording := false;
      activeTrail := None;
      timerArmed := false;
      notices := [];
    }

    /** The effect that saves the state after every change. */
    method Persist(writeFails: bool)
      modifies store
      ensures store.slot == (if store.hasWindow && !writeFails then Some(Storage.Saved(state)) else old(store.slot))
    {
      store.Save(state, writeFails);
    }

    /** captureLocation: a fix becomes a position; a failure shows its message and gives none. */
    method CaptureLocation(reading: GeoReading) returns (pos: Option<(real, real, real)>)
      modifies this`notices
      ensures notices == old(notices) + LocationNotices(reading)
      ensures pos.Some? <==> reading.Fix?
      ensures reading.Fix? ==> pos.value == (reading.lat, reading.lng, reading.acc)
    {
      match reading
      case Unsupported =>
        notices := notices + [LocationUnavailable];
        pos := None;
      case Failed =>
        notices := notices + [LocationFailed];
        pos := None;
      case Fix(lat, lng, acc) =>
        pos := Some((lat, lng, acc));
    }

    /**
     * The recorder's sample: without a fix, or without an active trail (the
     * recording was stopped), nothing changes; otherwise one point is
     * appended and the distance recomputed over all points.
     */
    method Sample(reading: GeoReading, now: int)
      requires Valid()
      modifies this`notices, this`activeTrail
      ensures Valid()
      ensures notices == old(notices) + LocationNotices(reading)
      ensures !reading.Fix? || old(activeTrail).None? ==> activeTrail == old(activeTrail)
      ensures reading.Fix? && old(activeTrail).Some? ==>
        && activeTrail.Some?
        && activeTrail.value.points == old(activeTrail).value.points + [TrailPoint(reading.lat, reading.lng, now)]
        && activeTrail.value.distanceM == Some(Geo.PathDistance(dist, activeTrail.value.points))
        && activeTrail.value.id == old(activeTrail).value.id
        && activeTrail.value.startedAt == old(activeTrail).value.startedAt
        && activeTrail.value.endedAt == old(activeTrail).value.endedAt
    {
      var pos := CaptureLocation(reading);
      if pos.None? {
        return;
      }
      if activeTrail.None? {
        return;
      }
      var current := activeTrail.value;
      var nextPoints := current.points + [TrailPoint(pos.value.0, pos.value.1, now)];
      var d := Geo.HaversineDistanceMeters(dist, nextPoints);
      activeTrail := Some(current.(points := nextPoints, distanceM := Some(d)));
    }

    /**
     * Start: a new active trail with the given id and start time and no
     * points, one immediate sample, then the interval is scheduled.
     */
    method Start(id: string, startedAt: int, reading: GeoReading, sampledAt: int)
      requires Valid() && !isRecording
      modifies this`notices, this`activeTrail, this`isRecording, this`timerArmed
      ensures Valid()
      ensures isRecording && timerArmed && activeTrail.Some?
      ensures activeTrail.value.id == id && activeTrail.value.startedAt == startedAt
      ensures activeTrail.value.endedAt.None?
      ensures activeTrail.value.points == (if reading.Fix? then [TrailPoint(reading.lat, reading.lng, sampledAt)] else [])
      ensures notices == old(notices) + LocationNotices(reading) + [RecordingStarted]
    {
      activeTrail := Some(Trail(id, startedAt, None, [], None));
      isRecording := true;
      Sample(reading, sampledAt);
      timerArmed := true;
      notices := notices + [RecordingStarted];
    }

    /**
     * Stop: cancels the interval, leaves recording, and stores the active
     * trail, finalized, in front of the stored trails; a trail with fewer
     * than two points gets the "too short" message before the "saved" one.
     */
    method Stop(now: int)
      requires Valid()
      modifies this`notices, this`activeTrail, this`isRecording, this`timerArmed, this`state
      ensures Valid()
      ensures !isRecording && !timerArmed && activeTrail.None?
      ensures old(activeTrail).None? ==> state == old(state) && notices == old(notices)
      ensures old(activeTrail).Some? ==>
        && state == old(state).(trails := [Finalize(dist, old(activeTrail).value, now)] + old(state).trails)
        && notices == old(notices)
                      + (if |old(activeTrail).value.points| < 2 then [TrailTooShort] else [])
                      + [TrailSaved]
    {
      timerArmed := false;
      isRecording := false;
      if activeTrail.None? {
        return;
      }
      var current := activeTrail.value;
      var d := Geo.HaversineDistanceMeters(dist, current.points);
      var finalized := current.(endedAt := Some(now), distanceM := Some(d));
      if |finalized.points| < 2 {
        notices := notices + [TrailTooShort];
      }
      state := state.(trails := [finalized] + state.trails);
      notices := notices + [TrailSaved];
      activeTrail := None;
    }

    /** The record button: stops a recording in progress, otherwise starts one. */
    method ToggleRecording(id: string, now: int, reading: GeoReading, sampledAt: int)
      requires Valid()
      modifies this`notices, this`activeTrail, this`isRecording, this`timerArmed, this`state
      ensures Valid()
      ensures isRecording == !old(isRecording) && timerArmed == isRecording
      ensures old(isRecording) ==>
        && state == old(state).(trails := [Finalize(dist, old(activeTrail).value, now)] + old(state).trails)
        && notices == old(notices)
                      + (if |old(activeTrail).value.points| < 2 then [TrailTooShort] else [])
                      + [TrailSaved]
      ensures !old(isRecording) ==>
        && state == old(state)
        && activeTrail.value.id == id && activeTrail.value.startedAt == now
        && activeTrail.value.endedAt.None?
        && activeTrail.value.points == (if reading.Fix? then [TrailPoint(reading.lat, reading.lng, sampledAt)] else [])
        && notices == old(notices) + LocationNotices(reading) + [RecordingStarted]
    {
      if isRecording {
        Stop(now);
      } else {
        Start(id, now, reading, sampledAt);
      }
    }

    /** Unmounting the page cancels the interval. */
    method Teardown()
      requires Valid()
      modifies this`timerArmed
      ensures Valid() && !timerArmed
    {
      timerArmed := false;
    }

    /**
     * Saving a note: a failed photo resize aborts with a message and no
     * change; otherwise the location is captured and the new entry goes in
     * front of the existing ones.
     */
    method SaveEntry(id: string, ts: int, text: string, photo: PhotoOutcome, reading: GeoReading)
      requires Valid()
      modifies this`notices, this`state
      ensures Valid()
      ensures photo.EncodeFailed? ==> state == old(state) && notices == old(notices) + [EntrySaveFailed]
      ensures !photo.EncodeFailed? ==>
        && state.trails == old(state).trails && state.prefs == old(state).prefs
        && |state.entries| == |old(state).entries| + 1
        && state.entries[1..] == old(state).entries
        && state.entries[0].id == id && state.entries[0].ts == ts && state.entries[0].text == text
        && state.entries[0].photoBase64 == (if photo.Encoded? then Some(photo.dataUrl) else None)
        && state.entries[0].loc == (if reading.Fix? then Some(Location(reading.lat, reading.lng, Some(reading.acc))) else None)
        && notices == old(notices) + LocationNotices(reading) + [EntrySaved]
    {
      if photo.EncodeFailed? {
        notices := notices + [EntrySaveFailed];
        return;
      }
      var photoBase64 := if photo.Encoded? then Some(photo.dataUrl) else None;
      var pos := CaptureLocation(reading);
      var loc := if pos.Some? then Some(Location(pos.value.0, pos.value.1, Some(pos.value.2))) else None;
      var entry := Entry(id, ts, text, photoBase64, loc);
      state := state.(entries := [entry] + state.entries);
      notices := notices + [EntrySaved];
    }

    /**
     * Importing a file: nothing happens without a file; an unreadable or
     * invalid file shows a failure and leaves the state alone; a valid one
     * replaces the whole state.
     */
    method Import(file: ImportFile)
      requires Valid()
      modifies this`notices, this`state
      ensures Valid()
      ensures file.NoFile? ==> state == old(state) && notices == old(notices)
      ensures file.Unreadable? ==> state == old(state) && notices == old(notices) + [ImportFailed]
      ensures file.FileText? ==>
        match ValidateImport(file.doc)
        case None => state == old(state) && notices == old(notices) + [ImportFailed]
        case Some(s) => state == s && notices == old(notices) + [ImportSucceeded]
    {
      match file
      case NoFile =>
        return;
      case Unreadable =>
        notices := notices + [ImportFailed];
      case FileText(doc) =>
        var imported := ValidateImport(doc);
        if imported.None? {
          notices := notices + [ImportFailed];
        } else {
          state := imported.value;
          notices := notices + [ImportSucceeded];
        }
    }

    /** A settings change: the supplied preference fields are overwritten, nothing else. */
    method ChangePrefs(changes: PrefsPatch)
      requires Valid()
      modifies this`state
      ensures Valid()
      ensures state.entries == old(state).entries && state.trails == old(state).trails
      ensures state.prefs.unit == (if changes.unit.Some? then changes.unit.value else old(state).prefs.unit)
      ensures state.prefs.photoMaxPx == (if changes.photoMaxPx.Some? then changes.photoMaxPx.value else old(state).prefs.photoMaxPx)
    {
      state := state.(prefs := OverlayPrefs(state.prefs, changes));
    }
  }

  /**
   * A walk of three fixes: the stored trail carries both legs, in order,
   * and the distance is the sum of the two legs.
   */
  method ThreeFixWalk(page: HomePage, id: string, a: GeoReading, b: GeoReading, c: GeoReading, t0: int, t1: int, t2: int, t3: int)
    requires page.Valid() && !page.isRecording
    requires a.Fix? && b.Fix? && c.Fix?
    modifies page
    ensures page.Valid() && !page.isRecording
    ensures |page.state.trails| == |old(page.state.trails)| + 1
    ensures page.state.trails[0].points
         == [TrailPoint(a.lat, a.lng, t0), TrailPoint(b.lat, b.lng, t1), TrailPoint(c.lat, c.lng, t2)]
    ensures page.state.trails[0].distanceM
         == Some(page.dist(page.state.trails[0].points[0], page.state.trails[0].points[1])
                 + page.dist(page.state.trails[0].points[1], page.state.trails[0].points[2]))
  {
    page.Start(id, t0, a, t0);
    page.Sample(b, t1);
    page.Sample(c, t2);
    page.Stop(t3);
    var pts := page.state.trails[0].points;
    assert pts[..2] == [pts[0], pts[1]];
    assert pts[..2][..1] == [pts[0]];
  }

  /** Stopping right after a single fix stores a one-point trail of distance 0 and says it was too short. */
  method OneFixWalk(page: HomePage, id: string, a: GeoReading, t0: int, t1: int)
    requires page.Valid() && !page.isRecording
    requires a.Fix?
    modifies page
    ensures |page.state.trails| > 0 && |page.notices| >= 2
    ensures |page.state.trails[0].points| == 1
    ensures page.state.trails[0].distanceM == Some(0.0)
    ensures page.notices[|page.notices| - 2..] == [TrailTooShort, TrailSaved]
  {
    page.Start(id, t0, a, t0);
    page.Stop(t1);
  }
}
