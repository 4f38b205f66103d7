/**
 * What the map shows: its centre, the entries that get a marker and the
 * trails that get a polyline.
 */
module MapView {
  import opened Types
  import Geo

  datatype LatLng = LatLng(lat: real, lng: real)

  /** Tokyo Station, used when nothing has a position. */
  const DefaultPosition := LatLng(35.681236, 139.767125)

  /** The position of the element Array.prototype.find returns: the first one satisfying `p`. */
  function FindIndex<T>(s: seq<T>, p: T -> bool): (r: Option<nat>)
    ensures r.Some? ==> r.value < |s| && p(s[r.value]) && forall j :: 0 <= j < r.value ==> !p(s[j])
    ensures r.None? ==> forall j :: 0 <= j < |s| ==> !p(s[j])
  {
    if s == [] then None
    else if p(s[0]) then Some(0)
    else
      var r := FindIndex(s[1..], p);
      if r.Some? then Some(r.value + 1) else None
  }

  /** Array.prototype.filter: the elements satisfying `p`, in their order. */
  function Filter<T(!new)>(s: seq<T>, p: T -> bool): (r: seq<T>)
    ensures |r| <= |s|
    ensures forall x :: x in r <==> x in s && p(x)
  {
    if s == [] then []
    else if p(s[0]) then [s[0]] + Filter(s[1..], p)
    else Filter(s[1..], p)
  }

  /** Filtering a concatenation filters each part and keeps them in that order. */
  lemma {:induction false} FilterAppend<T(!new)>(s: seq<T>, t: seq<T>, p: T -> bool)
    ensures Filter(s + t, p) == Filter(s, p) + Filter(t, p)
    decreases |s|
  {
    if s == [] {
      assert s + t == t;
    } else {
      assert (s + t)[1..] == s[1..] + t;
      FilterAppend(s[1..], t, p);
    }
  }

  /** Each element satisfying `p` is kept as many times as it occurs; no other element is. */
  lemma {:induction false} FilterCounts<T(!new)>(s: seq<T>, p: T -> bool, x: T)
    ensures multiset(Filter(s, p))[x] == if p(x) then multiset(s)[x] else 0
    decreases |s|
  {
    if s != [] {
      FilterCounts(s[1..], p, x);
      assert s == [s[0]] + s[1..];
    }
  }

  predicate HasLocation(e: Entry) { e.loc.Some? }

  predicate HasPoints(t: Trail) { |t.points| > 0 }

  predicate IsLine(t: Trail) { |t.points| > 1 }

  function EntryPosition(e: Entry): LatLng
    requires e.loc.Some?
  {
    LatLng(e.loc.value.lat, e.loc.value.lng)
  }

  function PointPosition(p: TrailPoint): LatLng {
    LatLng(p.lat, p.lng)
  }

  /**
   * The map centre: the first entry with a location; else the active
   * trail's first point; else the first point of the first stored trail
   * that has points; else the default position.
   */
  function Center(entries: seq<Entry>, trails: seq<Trail>, active: Option<Trail>): (r: LatLng)
    ensures || (exists i :: 0 <= i < |entries| && entries[i].loc.Some? && r == EntryPosition(entries[i]))
            || (active.Some? && |active.value.points| > 0 && r == PointPosition(active.value.points[0]))
            || (exists i :: 0 <= i < |trails| && |trails[i].points| > 0 && r == PointPosition(trails[i].points[0]))
            || r == DefaultPosition
  {
    var firstEntry := FindIndex(entries, HasLocation);
    var firstTrail := FindIndex(trails, HasPoints);
    var hasLocation := firstEntry.Some? || firstTrail.Some? || (active.Some? && |active.value.points| > 0);
    if !hasLocation then DefaultPosition
    else if firstEntry.Some? then EntryPosition(entries[firstEntry.value])
    else if active.Some? && |active.value.points| > 0 then PointPosition(active.value.points[0])
    else if firstTrail.Some? then PointPosition(trails[firstTrail.value].points[0])
    else DefaultPosition
  }

  lemma CenterOnFirstLocatedEntry(entries: seq<Entry>, trails: seq<Trail>, active: Option<Trail>, i: nat)
    requires i < |entries| && entries[i].loc.Some?
    requires forall j :: 0 <= j < i ==> entries[j].loc.None?
    ensures Center(entries, trails, active) == LatLng(entries[i].loc.value.lat, entries[i].loc.value.lng)
  {
  }

  lemma CenterOnActiveTrail(entries: seq<Entry>, trails: seq<Trail>, active: Trail)
    requires forall j :: 0 <= j < |entries| ==> entries[j].loc.None?
    requires |active.points| > 0
    ensures Center(entries, trails, Some(active)) == PointPosition(active.points[0])
  {
  }

  lemma CenterOnFirstStoredTrail(entries: seq<Entry>, trails: seq<Trail>, active: Option<Trail>, i: nat)
    requires forall j :: 0 <= j < |entries| ==> entries[j].loc.None?
    requires active.None? || |active.value.points| == 0
    requires i < |trails| && |trails[i].points| > 0
    requires forall j :: 0 <= j < i ==> |trails[j].points| == 0
    ensures Center(entries, trails, active) == PointPosition(trails[i].points[0])
  {
  }

  lemma CenterDefault(entries: seq<Entry>, trails: seq<Trail>, active: Option<Trail>)
    requires forall j :: 0 <= j < |entries| ==> entries[j].loc.None?
    requires active.None? || |active.value.points| == 0
    requires forall j :: 0 <= j < |trails| ==> |trails[j].points| == 0
    ensures Center(entries, trails, active) == DefaultPosition
  {
  }

  /** The entries that get a marker. */
  function Markers(entries: seq<Entry>): (r: seq<Entry>)
    ensures forall e :: e in r <==> e in entries && e.loc.Some?
  {
    Filter(entries, HasLocation)
  }

  function ActiveList(active: Option<Trail>): seq<Trail> {
    if active.Some? then [active.value] else []
  }

  /** The trails drawn as lines: stored ones, then the active one, each with more than one point. */
  function Polylines(trails: seq<Trail>, active: Option<Trail>): (r: seq<Trail>)
    ensures forall t :: t in r <==> (t in trails || active == Some(t)) && |t.points| > 1
  {
    Filter(trails + ActiveList(active), IsLine)
  }

  /** The active trail's line, if drawn, comes after every stored trail's line. */
  lemma ActiveLineDrawnLast(trails: seq<Trail>, active: Trail)
    ensures Polylines(trails, Some(active))
         == Polylines(trails, None) + (if |active.points| > 1 then [active] else [])
  {
    FilterAppend(trails, [active], IsLine);
    FilterAppend(trails, [], IsLine);
    assert trails + [] == trails;
    assert [active][1..] == [];
  }

  /** A line's popup: shown only when the trail has a non-zero distance. */
  function LineLabel(t: Trail, unit: DistanceUnit): (r: Option<Geo.Rendering>)
    ensures r.Some? <==> t.distanceM.Some? && t.distanceM.value != 0.0
    ensures r.Some? ==> r.value.value * Geo.Divisor(unit) == t.distanceM.value
  {
    if t.distanceM.Some? && t.distanceM.value != 0.0 then Some(Geo.FormatDistance(t.distanceM.value, unit))
    else None
  }
}
