# Walking diary: a Dafny model of its core

The walking diary is a browser client. It keeps location-tagged notes ("entries") and records GPS trails of a walk. It stores everything in one local-storage slot and draws it on a map. This project models the parts of the client that have behaviour worth stating:

- **Distance engine** (`Geo`). A trail's length is the sum of the pairwise distances between consecutive points, accumulated by a loop. Displaying a distance picks kilometers or miles, one or two decimal places, and a suffix. The pairwise great-circle metric is a library call, so every operation takes it as a function parameter `dist`.
- **Persistence** (`Storage`). A `Store` class owns the single slot. Loading falls back to the default state `{entries: [], trails: [], prefs: {metric, 800}}` and merges what it parsed field by field, with `prefs` merged per field. Saving writes the whole state and swallows write failures. Clearing removes the slot; unlike saving, a failure to remove is not caught and reaches the caller. The slot's text is represented by what JSON parsing makes of it.
- **Home page** (`Page`). A `HomePage` class holds the application state, the recording flag, the active trail, the sampling timer and a log of every message passed to the toast, in order. Its methods are:
  - `Start`, `Sample` and `Stop`, and `ToggleRecording`, which picks between start and stop;
  - `SaveEntry`;
  - `Import`, which validates all-or-nothing and then replaces the state;
  - `ChangePrefs`, a partial merge;
  - `Persist`, the save the page performs after a change, called explicitly by the caller;
  - `Teardown`, which cancels the timer.

  Position fixes, ids, clock readings, photo-encoding outcomes and file contents are method inputs. The newest-first list orderings are a pure sort.
- **Map view** (`MapView`). The map centre comes from a priority chain. Markers are the entries that have a location. Polylines are the stored trails followed by the active trail, keeping those with more than one point.
- **Entry card** (`EntryCard`). The preview is the note after JavaScript's `trim`, cut to 120 characters, or a placeholder when nothing is left.
- **Image resize** (`Image`). The downscale ratio is `min(1, maxSize / max(w, h))`. Both sides are rounded with `Round(x) = Floor(x + 0.5)`. Creating the canvas fails when no 2D context is available.

Three behaviours of the code that are easy to misread:

- A stopped trail is put in FRONT of the stored trails, not appended (`src/app/page.tsx:186-189`).
- Loading does no shape checking: the values under `entries` and `trails`, and the fields of `prefs` (laid over the default preferences), are taken unchecked (`src/lib/storage.ts:26-33`).
- A recording's first sample is taken before the interval is scheduled, and the "recording started" message follows it (`src/app/page.tsx:224-226`).

## Model

| member | source | states |
|---|---|---|
| Types.OverlayCompletePatch | src/lib/storage.ts:29-32 | a prefs object that supplies both fields overrides the base entirely |
| Types.OverlayIdempotent | src/app/page.tsx:256-264 | applying the same partial prefs change twice equals applying it once |
| Types.OverlayNoChanges | src/app/page.tsx:256-264 | a change that supplies no field leaves the preferences as they were |
| Geo.HaversineDistanceMeters | src/lib/geo.ts:4-13 | the accumulating loop returns 0 for fewer than two points and otherwise the path length over all consecutive pairs (loop invariant: the total so far is the length of the prefix) |
| Geo.PathDistanceIsLegSum | src/lib/geo.ts:8-12 | the total equals the sum of `dist(p[i-1], p[i])` over all consecutive pairs, summed from the front as well as from the back |
| Geo.AppendAddsLeg | src/lib/geo.ts:9-11 | appending a point adds exactly the distance from the old last point to the new one |
| Geo.AppendIsMonotone | src/lib/geo.ts:9-11 | with a non-negative pairwise distance, appending a point never decreases the total |
| Geo.PathDistanceNonNegative | src/lib/geo.ts:8-12 | with a non-negative pairwise distance, the total is never negative |
| Geo.ReversalKeepsDistance | src/lib/geo.ts:8-12 | with a symmetric pairwise distance, the reversed trail has the same total |
| Geo.FormatDistance | src/lib/geo.ts:15-22 | the displayed value times the divisor (1609.34 for imperial, 1000 otherwise) is the distance; the suffix is " mi" for imperial, " km" otherwise; the precision is 1 or 2 places |
| Geo.FormatPrecisionThreshold | src/lib/geo.ts:16-21 | one decimal place if and only if the distance is at least ten display units, two otherwise |
| Geo.FormatExamples | src/lib/geo.ts:15-22 | 0 m metric gives 0 km with 2 places; 12345 m metric gives 12.345 km with 1 place; 1609.34 m imperial gives 1 mi with 2 places |
| Storage.Merge | src/lib/storage.ts:26-33 | each top-level field present in the parsed object wins and an absent one takes the default; `unit` and `photoMaxPx` are defaulted one by one |
| Storage.LoadFrom | src/lib/storage.ts:16-38 | no window, a read that throws, a missing or empty slot, unparseable text or non-object JSON all load the default state; a stored object loads as its merge over the default |
| Storage.SaveLoadRoundTrip | src/lib/storage.ts:25-45 | a complete state that was saved loads back unchanged |
| Storage.MissingPhotoMaxPxGetsDefault | src/lib/storage.ts:29-32 | a stored object whose prefs lack `photoMaxPx` keeps its entries, trails and unit and gets 800 |
| Storage.LoadSaveLoadStable | src/lib/storage.ts:16-48 | loading, saving the loaded state and loading again gives the same state, whatever the slot held |
| Storage.Store.Load | src/lib/storage.ts:16-38 | reading the slot gives exactly the load function's state for the window flag, read outcome and slot |
| Storage.Store.Save | src/lib/storage.ts:40-49 | with a window and a write that succeeds, the slot holds the whole state; without a window, or on a write error, the slot is unchanged and nothing is raised |
| Storage.Store.Clear | src/lib/storage.ts:51-56 | with a window the slot is removed unless the removal throws, in which case the slot is unchanged and the error is raised to the caller; without a window nothing happens and nothing is raised |
| Storage.ClearThenLoad | src/lib/storage.ts:51-56 | a load after a clear that completes returns the default state |
| Storage.SaveThenLoad | src/lib/storage.ts:40-48 | a load after a successful save returns the saved state |
| Image.Ratio | src/lib/image.ts:38 | the ratio never exceeds 1; it is exactly 1 when the long edge fits; for any larger non-empty image it maps the long edge onto the bound, including a bound of 0 (an emptied size field), which gives ratio 0 |
| Image.TargetSize | src/lib/image.ts:38-40 | neither output dimension exceeds the input dimension: the image is never upscaled |
| Image.SmallImageKeepsSize | src/lib/image.ts:38-40 | an image whose long edge is at most the bound keeps its exact size |
| Image.LongEdgeClamped | src/lib/image.ts:38-40 | a non-empty image larger than the bound gets its long edge set to the bound, for every bound |
| Image.AspectKept | src/lib/image.ts:38-40 | both sides are scaled by the one ratio and rounded separately, so the canvas keeps the image's aspect up to rounding: `width * h - height * w` lies within `(w + h) / 2` either way |
| Image.LandscapeExample | src/lib/image.ts:38-40 | 2000 x 1000 with a bound of 800 becomes 800 x 400 |
| Image.CreateCanvas | src/lib/image.ts:32-42 | without a 2D context it fails with the context error, before any size is computed; with a context it always succeeds, returning a new canvas sized to the target size |
| EntryCard.TrimStart | src/components/EntryCard.tsx:13 | the result is a suffix of the text; everything dropped is white space or a line terminator; the result does not start with one |
| EntryCard.TrimEnd | src/components/EntryCard.tsx:13 | the result is a prefix of the text; everything dropped is white space or a line terminator; the result does not end with one |
| EntryCard.TrimIsSlice | src/components/EntryCard.tsx:13 | the trimmed text is a contiguous slice of the note with only trimmable characters around it |
| EntryCard.TrimEmptyIff | src/components/EntryCard.tsx:13 | trimming leaves nothing if and only if every character is trimmable |
| EntryCard.Preview | src/components/EntryCard.tsx:13 | the preview is never empty; a blank note shows the placeholder; otherwise it is the whole trimmed text when that has at most 120 characters, and exactly its first 120 characters when it is longer |
| MapView.FindIndex | src/components/Map.tsx:25-26 | the found element is the first one satisfying the predicate; none is found only when no element satisfies it |
| MapView.Center | src/components/Map.tsx:25-37 | the centre is always the location of some entry, the first point of the active trail, the first point of some stored trail, or the default position; which one is stated by the four `Center*` lemmas below |
| MapView.CenterOnFirstLocatedEntry | src/components/Map.tsx:25-31 | if some entry has a location, the centre is the location of the first such entry |
| MapView.CenterOnActiveTrail | src/components/Map.tsx:32-33 | otherwise, if the active trail has points, the centre is its first point |
| MapView.CenterOnFirstStoredTrail | src/components/Map.tsx:26-35 | otherwise the centre is the first point of the first stored trail that has points |
| MapView.CenterDefault | src/components/Map.tsx:22-37 | with no position anywhere, the centre is (35.681236, 139.767125) |
| MapView.Markers | src/components/Map.tsx:45-47 | an entry is marked if and only if it is one of the entries and has a location |
| MapView.FilterCounts | src/components/Map.tsx:45-47 | filtering keeps each satisfying element exactly as often as it occurs and no other element |
| MapView.FilterAppend | src/components/Map.tsx:57-58 | filtering a concatenation is the concatenation of the filtered parts, so the original order is kept |
| MapView.Polylines | src/components/Map.tsx:57-58 | a trail is drawn if and only if it is stored or active and has more than one point |
| MapView.ActiveLineDrawnLast | src/components/Map.tsx:57-58 | the active trail's line, if drawn, comes after every stored trail's line |
| MapView.LineLabel | src/components/Map.tsx:65-71 | a line has a distance popup if and only if its distance is present and non-zero, and the popup shows that distance |
| Page.InsertByKey | src/app/page.tsx:92-100 | inserting into a newest-first sequence keeps it newest first and adds exactly that element |
| Page.SortNewestFirst | src/app/page.tsx:92-100 | the result is a permutation of the input ordered by key, largest first |
| Page.SortedEntries | src/app/page.tsx:92-95 | the entries list is a permutation of the entries ordered by `ts`, newest first |
| Page.SortedTrails | src/app/page.tsx:97-100 | the trails list is a permutation of the trails ordered by `startedAt`, latest first |
| Page.ValidateImport | src/app/page.tsx:242-246 | an import is accepted if and only if the parsed text is an object that has `entries`, `trails` and `prefs`; the accepted state holds exactly those entries and trails, and the supplied prefs fields laid over the defaults |
| Page.ImportExportRoundTrip | src/app/page.tsx:241-246 | importing what an export wrote gives back the exported state |
| Page.ShortTrailHasZeroDistance | src/app/page.tsx:178-185 | a trail stopped with fewer than two points is still stored, with its points and a distance of 0 |
| Page.FinalDistanceMatchesActive | src/app/page.tsx:178-182 | the distance recomputed at stop equals the one the active trail already carried |
| Page.HomePage.constructor | src/app/page.tsx:61-77 | the page starts not recording, with no active trail, no timer, and the state that loading the store gives |
| Page.HomePage.Persist | src/app/page.tsx:79-82 | after a state change the store's slot holds the current state, unless there is no window or the write fails |
| Page.HomePage.CaptureLocation | src/app/page.tsx:114-129 | a fix yields its position; no capability or a failure yields none and shows its own message |
| Page.HomePage.Sample | src/app/page.tsx:203-222 | without a fix, or without an active trail, the active trail is unchanged; otherwise exactly one point is appended, the earlier points are kept, and the distance is the distance of the new point sequence |
| Page.HomePage.Start | src/app/page.tsx:196-226 | start creates an active trail with the given id and start time, takes one immediate sample, schedules the timer, sets recording and shows the start message |
| Page.HomePage.Stop | src/app/page.tsx:170-193 | stop clears the timer, recording and active trail; it puts the finalized trail in front of the stored trails and leaves entries and prefs unchanged; with fewer than two points the "too short" message precedes the "saved" one |
| Page.HomePage.ToggleRecording | src/app/page.tsx:169-227 | the button flips recording; stopping puts the finalized trail in front of the stored trails, keeps entries and prefs, and shows the stop messages as `Stop` does; starting leaves the state as it was and creates the trail with the given id, start time `now`, the immediate sample's point and the start messages |
| Page.HomePage.Teardown | src/app/page.tsx:84-90 | unmounting cancels the sampling timer |
| Page.HomePage.SaveEntry | src/app/page.tsx:131-167 | a failed photo resize aborts with a message and no change; otherwise the new entry, carrying the given id, time, text, photo and location, goes in front and all earlier entries keep their order |
| Page.HomePage.Import | src/app/page.tsx:237-254 | no file changes nothing; an unreadable or invalid file shows a failure and leaves the state; a valid one replaces the whole state |
| Page.HomePage.ChangePrefs | src/app/page.tsx:256-264 | only the supplied preference fields change; entries and trails are untouched |
| Page.ThreeFixWalk | src/app/page.tsx:203-222 | start plus two samples, all with fixes, then stop: the stored trail has the three points in order and a distance equal to the sum of its two legs |
| Page.OneFixWalk | src/app/page.tsx:183-190 | start with a fix, then stop: one point, distance 0, and the "too short" message before the "saved" one |

## Left out

- The pairwise great-circle distance is not modelled: it is the library's floating-point trigonometry, and every operation takes it as the parameter `dist`. Its non-negativity and symmetry are lemma hypotheses.
- Numbers are `real` (coordinates, distances) or `int` (time stamps, `photoMaxPx`, pixel sizes). Floating-point rounding, `NaN` and infinities are not modelled. `toFixed` rendering and locale date formatting are not modelled: the display is the value, the number of decimal places and the suffix.
- Geolocation, timers and the message timeout are host APIs. A position request is a `GeoReading` input. A timer tick is a call to `Page.HomePage.Sample`. The message display with its 4-second timeout is a log of `Notice` values: one per `showToast` call, in call order. The toast itself holds one message (`src/app/page.tsx:37-47`), so when one update calls it twice (the "too short" and "saved" messages of a stop) only the later one is displayed; the log keeps both.
- The race where a stop arrives while the first sample of a start is still awaited is not modelled (`src/app/page.tsx:224-225`). In the source, that race lets the interval be scheduled after the stop. Only the guard against a missing active trail (`src/app/page.tsx:207`) is modelled.
- Page.HomePage.Import: the source installs the parsed object as is. A `prefs` object lacking `unit` or `photoMaxPx` would therefore leave that field undefined in memory until the next load. The model's preferences cannot hold an undefined field, so it fills such a field from the defaults, as a load would.
- Stored and imported fields that are present but hold `null` or a value of the wrong type are not modelled: a field is either absent or well-typed.
- Page.HomePage.Persist: the save-on-change effect (`src/app/page.tsx:79-82`) is an explicit call that the caller makes after each change; no state-changing method calls it. The `isReady` gate that skips the save before the first load is not modelled.
- Page.SortedEntries: ties are ordered as the insertion sort places them (the original order); the contract states the permutation and the ordering but not stability.
- Page.HomePage.SaveEntry: the double-submit guard (`isSavingEntry`) and the modal's open/close flag are UI state and are not modelled. The photo's resize and JPEG encoding are an input outcome: none, an encoded string, or a failure.
- The JSON text, the file reading and the export download (`src/lib/storage.ts:58-68`) are I/O. The export is represented by the record that parsing its text yields.
- Image.CreateCanvas: decoding and encoding the image are not modelled. An image with no pixels gets ratio 1. How the canvas converts a negative width (from a negative bound) is not modelled.
- EntryCard.Preview: characters are Unicode scalar values. JavaScript slices UTF-16 code units, so a character outside the Basic Multilingual Plane counts once here and twice there.
- The JSX rendering, the random "nudge" message, `src/components/Modal.tsx`, `src/app/layout.tsx` and `tailwind.config.js` are presentation and are not part of this model.
