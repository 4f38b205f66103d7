/**
 * The walking diary's data model: entries, trail points, trails,
 * preferences and the aggregate application state, plus the optional
 * value used wherever the program has an absent (undefined) field.
 */
module Types {

  datatype Option<+T> = None | Some(value: T) {
    function GetOr(default: T): T {
      match this
      case Some(v) => v
      case None => default
    }
  }

  /** A position attached to an entry; `acc` is the reported accuracy in meters. */
  datatype Location = Location(lat: real, lng: real, acc: Option<real>)

  /** A diary note; `ts` is an epoch-milliseconds time stamp. */
  datatype Entry = Entry(
    id: string,
    ts: int,
    text: string,
    photoBase64: Option<string>,
    loc: Option<Location>)

  datatype TrailPoint = TrailPoint(lat: real, lng: real, ts: int)

  /** A recorded walk; `endedAt` and `distanceM` are absent until they are set. */
  datatype Trail = Trail(
    id: string,
    startedAt: int,
    endedAt: Option<int>,
    points: seq<TrailPoint>,
    distanceM: Option<real>)

  datatype DistanceUnit = Metric | Imperial

  datatype Preferences = Preferences(unit: DistanceUnit, photoMaxPx: int)

  datatype AppState = AppState(entries: seq<Entry>, trails: seq<Trail>, prefs: Preferences)

  /** A partial preferences object: each field may be missing. */
  datatype PrefsPatch = PrefsPatch(unit: Option<DistanceUnit>, photoMaxPx: Option<int>)

  const DefaultPrefs := Preferences(Metric, 800)

  /** The state used when nothing usable is stored. */
  const DefaultState := AppState([], [], DefaultPrefs)

  const NoChanges := PrefsPatch(None, None)

  /** `{...base, ...patch}`: every field the patch supplies wins, the others are kept. */
  function OverlayPrefs(base: Preferences, patch: PrefsPatch): Preferences {
    Preferences(patch.unit.GetOr(base.unit), patch.photoMaxPx.GetOr(base.photoMaxPx))
  }

  /** The preferences written out as an object that has both fields. */
  function AsPatch(p: Preferences): PrefsPatch {
    PrefsPatch(Some(p.unit), Some(p.photoMaxPx))
  }

  /** A patch that supplies every field replaces the base entirely. */
  lemma OverlayCompletePatch(base: Preferences, p: Preferences)
    ensures OverlayPrefs(base, AsPatch(p)) == p
  {
  }

  /** Applying the same patch twice is the same as applying it once. */
  lemma OverlayIdempotent(base: Preferences, patch: PrefsPatch)
    ensures OverlayPrefs(OverlayPrefs(base, patch), patch) == OverlayPrefs(base, patch)
  {
  }

  /** An empty patch changes nothing. */
  lemma OverlayNoChanges(base: Preferences)
    ensures OverlayPrefs(base, NoChanges) == base
  {
  }
}
