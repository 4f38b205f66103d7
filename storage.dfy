/**
 * Persistence of the application state in one named slot of the browser's
 * key-value storage, with tolerant per-field defaulting on load.
 *
 * The slot's text is represented by what JSON parsing makes of it.
 */
module Storage {
  import opened Types

  /** The top-level fields a parsed object carries; a missing key is `None`. */
  datatype StateRecord = StateRecord(
    entries: Option<seq<Entry>>,
    trails: Option<seq<Trail>>,
    prefs: Option<PrefsPatch>)

  /** The outcome of parsing a text as JSON. */
  datatype Json =
    | Unparseable                 // parsing throws
    | JsonNull                    // the text `null`
    | JsonOther                   // a number, string, boolean or array: no fields to merge
    | JsonObject(rec: StateRecord)

  /** The contents of the slot when it exists. */
  datatype RawText = EmptyText | Text(doc: Json)

  const StorageKey := "walking-diary-state-v1"

  /** An object that has none of the three fields. */
  const NoFields := StateRecord(None, None, None)

  /** `{...defaultState, ...parsed, prefs: {...defaultState.prefs, ...parsed.prefs}}` */
  function Merge(rec: StateRecord): (s: AppState)
    ensures rec.entries.Some? ==> s.entries == rec.entries.value
    ensures rec.entries.None? ==> s.entries == []
    ensures rec.trails.Some? ==> s.trails == rec.trails.value
    ensures rec.trails.None? ==> s.trails == []
    ensures s.prefs.unit == (if rec.prefs.Some? && rec.prefs.value.unit.Some? then rec.prefs.value.unit.value else Metric)
    ensures s.prefs.photoMaxPx == (if rec.prefs.Some? && rec.prefs.value.photoMaxPx.Some? then rec.prefs.value.photoMaxPx.value else 800)
  {
    AppState(
      rec.entries.GetOr(DefaultState.entries),
      rec.trails.GetOr(DefaultState.trails),
      OverlayPrefs(DefaultState.prefs, rec.prefs.GetOr(NoChanges)))
  }

  /** True when the slot holds a text that parses to an object. */
  predicate HoldsObject(slot: Option<RawText>) {
    slot.Some? && slot.value.Text? && slot.value.doc.JsonObject?
  }

  /**
   * loadState: the default state without a window, when reading the slot
   * throws, when the slot is missing or empty, or when its text does not
   * parse or parses to `null`; otherwise the per-field merge of what was
   * parsed over the default.
   */
  function LoadFrom(hasWindow: bool, readFails: bool, slot: Option<RawText>): (s: AppState)
    ensures !hasWindow || readFails || !HoldsObject(slot) ==> s == DefaultState
    ensures hasWindow && !readFails && HoldsObject(slot) ==> s == Merge(slot.value.doc.rec)
  {
    if !hasWindow then DefaultState
    else if readFails then DefaultState
    else match slot
      case None => DefaultState
      case Some(EmptyText) => DefaultState
      case Some(Text(doc)) =>
        match doc
        case Unparseable => DefaultState
        case JsonNull => DefaultState
        case JsonOther => Merge(NoFields)
        case JsonObject(rec) => Merge(rec)
  }

  /** JSON.stringify of a state, as its parse sees it: every field is present. */
  function Encode(s: AppState): StateRecord {
    StateRecord(Some(s.entries), Some(s.trails), Some(AsPatch(s.prefs)))
  }

  /** What a successful save leaves in the slot. */
  function Saved(s: AppState): RawText {
    Text(JsonObject(Encode(s)))
  }

  /** A complete state that was saved loads back unchanged. */
  lemma SaveLoadRoundTrip(s: AppState)
    ensures LoadFrom(true, false, Some(Saved(s))) == s
  {
    OverlayCompletePatch(DefaultPrefs, s.prefs);
  }

  /** A stored object that lacks `photoMaxPx` keeps everything else and gets 800. */
  lemma MissingPhotoMaxPxGetsDefault(entries: seq<Entry>, trails: seq<Trail>, unit: DistanceUnit)
    ensures LoadFrom(true, false, Some(Text(JsonObject(StateRecord(Some(entries), Some(trails), Some(PrefsPatch(Some(unit), None)))))))
         == AppState(entries, trails, Preferences(unit, 800))
  {
  }

  /** Loading, saving what was loaded and loading again gives the same state. */
  lemma LoadSaveLoadStable(hasWindow: bool, readFails: bool, slot: Option<RawText>)
    ensures LoadFrom(true, false, Some(Saved(LoadFrom(hasWindow, readFails, slot)))) == LoadFrom(hasWindow, readFails, slot)
  {
    SaveLoadRoundTrip(LoadFrom(hasWindow, readFails, slot));
  }

  /** The browser storage slot named `StorageKey`, with the environment's window flag. */
  class Store {
    const hasWindow: bool
    var slot: Option<RawText>

    constructor (hasWindow: bool, slot: Option<RawText>)
      ensures this.hasWindow == hasWindow && this.slot == slot
    {
      this.hasWindow := hasWindow;
      this.slot := slot;
    }

    /** loadState; `readFails` says whether reading the storage throws. */
    method Load(readFails: bool) returns (s: AppState)
      ensures s == LoadFrom(hasWindow, readFails, slot)
    {
      s := LoadFrom(hasWindow, readFails, slot);
    }

    /**
     * saveState: writes the whole state; `writeFails` says whether the write
     * throws (a full quota, say), in which case the failure is swallowed and
     * the slot keeps its old contents.
     */
    method Save(state: AppState, writeFails: bool)
      modifies this
      ensures slot == (if hasWindow && !writeFails then Some(Saved(state)) else old(slot))
    {
      if !hasWindow {
        return;
      }
      if !writeFails {
        slot := Some(Saved(state));
      }
    }

    /**
     * clearState: removes the slot. The removal is not guarded, so when it
     * throws (`removeFails`) the slot is left as it was and the error
     * reaches the caller (`raised`).
     */
    method Clear(removeFails: bool) returns (raised: bool)
      modifies this
      ensures raised == (hasWindow && removeFails)
      ensures slot == (if hasWindow && !removeFails then None else old(slot))
    {
      raised := false;
      if !hasWindow {
        return;
      }
      if removeFails {
        raised := true;
        return;
      }
      slot := None;
    }
  }

  /** After a clear that completes, loading gives the default state. */
  method ClearThenLoad(store: Store, readFails: bool) returns (s: AppState)
    modifies store
    ensures s == DefaultState
  {
    var raised := store.Clear(false);
    s := store.Load(readFails);
  }

  /** A save that succeeds is read back unchanged by the next load. */
  method SaveThenLoad(store: Store, state: AppState) returns (s: AppState)
    requires store.hasWindow
    modifies store
    ensures s == state
  {
    store.Save(state, false);
    s := store.Load(false);
    SaveLoadRoundTrip(state);
  }
}
