# ZuhlkeMap camera reconciliation, modelled in Dafny

ZuhlkeMap is an Android app that polls Singapore's traffic-images feed every
20 seconds. It shows one map marker per traffic camera. Each time a batch of
cameras arrives, `MapsActivity.parseCameraList` reconciles it with the list
of cameras the activity already tracks:

- **First batch.** The batch becomes the tracked list as it is. Every camera
  gets a marker whose info window is closed.
- **Later batches.** Each incoming camera is handled in batch order.
  - Its id is tracked with the same timestamp: nothing happens.
  - Its id is tracked with another timestamp: the old marker's "info window
    shown" flag is read and the old marker is removed. The first slot with
    that id is overwritten, and the new camera gets a fresh marker, shown if
    and only if the old one was.
  - Its id is not tracked: the camera gets a closed marker and is appended.
- Cameras missing from a batch are never removed.

Camera identity is `Camera.equals`, which compares `camera_id` only. So
`in`, `indexOf` and the `find { it.camera_id == id }` lookup ignore the
timestamp, the image, the location and the marker.

The project has five files:

- `wrappers.dfy`: an `Option` type for Kotlin's nullable references.
- `cameras.dfy` (module `Cameras`): the camera entity, the id-only equality,
  and `indexOf`, `contains` and `find` over the tracked list.
- `reconcile.dfy` (module `Reconcile`): the activity's state as a value
  (initialised flag, feed timestamp, camera list, next marker handle, live
  markers with their info-window flag, and the log of marker operations).
  It defines `parseCameraList` on that value as `Parsed`, built from
  `ParseStep` (one loop turn), `ParseBatch` (a later batch) and `MarkAll`
  (the first batch's marker loop). `Wellformed` is the invariant every call
  keeps: every tracked camera has its own live marker, and the map holds
  exactly the tracked cameras' markers.
- `maps_activity.dfy` (module `Activity`): class `MapsActivity`, whose fields
  are the tracked list and the map. `ParseCameraList` loops over the batch
  and updates the list in place, with a slot assignment or an append. It is
  proved to produce exactly `Parsed(old state, batch)`.
- `properties.dfy` (module `ReconcileProperties`): what the reconciliation
  promises, proved about `Parsed`, `ParseBatch` and `ParseStep`.

Markers are modelled abstractly. A marker is a natural-number handle taken
from a counter. `createMarker` adds the handle to the map with its
info-window flag, and logs `Added(handle, tag = id, title = timestamp,
snippet = image, position, shown)`. `Marker.remove()` drops the handle and
logs `Removed(handle)`. A user opening or closing a popup is modelled by
`ShowInfoWindow` and `HideInfoWindow` on a live marker.

Some behaviour of the code differs from what one might expect of a
camera reconciler. The model follows the code:

- One might expect a changed camera to keep its marker handle. The code
  removes the old marker and creates a new one, shown if and only if the
  old one was shown (`KnownChangedReplacesFirst`).
- One might expect ids to be unique within the tracked list. The code does
  not deduplicate the first batch, so the list may hold the same id twice.
  Lookups then pick the first slot (`IndexOfIsFirst`,
  `FindAgreesWithIndexOf`). A later duplicate is never updated again, and
  its marker goes stale (`ShadowedSlotUntouched`).
- One might expect each id to be handled at most once per call. In the
  code, a batch that repeats an id handles both occurrences in turn: the
  second one sees the first one's effect (`DuplicateInBatchSeesFirst`).
  Afterwards the id's last occurrence in the batch wins
  (`BatchTracksTimestamps`). Such a batch is not stable: fed again, it
  replaces that entry twice more, so its marker is removed and recreated
  on every refresh (`RepeatedIdReparseIsNotNoOp`).
- There are no error results: a second initialisation, a duplicate id and
  a missing id are not reported. Initialisation is an `isInitialized`
  check, and append and overwrite are only reached on the branch where
  they are valid.

## Model

| member | source | states |
|---|---|---|
| `Cameras.SameCamera` | ZuhlkeMap/app/src/main/java/com/example/zuhlkemap/MapsActivity.kt:168-173 | `Camera.equals` holds exactly when the two cameras differ at most in timestamp, image, location, image metadata and marker, so only `camera_id` decides it |
| `Cameras.SameCameraIsEquivalence` | ZuhlkeMap/app/src/main/java/com/example/zuhlkemap/MapsActivity.kt:168-173 | the id-only `equals` is reflexive, symmetric and transitive |
| `Cameras.IndexOf` | ZuhlkeMap/app/src/main/java/com/example/zuhlkemap/MapsActivity.kt:118 | `indexOf` gives -1 exactly when no slot has the camera's id; otherwise it gives a slot with that id and no earlier slot has it |
| `Cameras.Contains` | ZuhlkeMap/app/src/main/java/com/example/zuhlkemap/MapsActivity.kt:106 | `it in cameras` holds exactly when some slot has the camera's id |
| `Cameras.Find` | ZuhlkeMap/app/src/main/java/com/example/zuhlkemap/MapsActivity.kt:108 | `find` returns null exactly when no slot has the id; otherwise it returns the camera in the first slot holding that id |
| `Cameras.IndexOfIsFirst` | ZuhlkeMap/app/src/main/java/com/example/zuhlkemap/MapsActivity.kt:168-173 | with id-only equality, `indexOf` picks exactly the first slot holding the camera's id, even when the list holds duplicate ids |
| `Cameras.FindAgreesWithIndexOf` | ZuhlkeMap/app/src/main/java/com/example/zuhlkemap/MapsActivity.kt:106-119 | the entry `find` returns is the one in the slot `indexOf` reports, so the marker read and the slot overwritten belong to the same entry |
| `Cameras.LookupIsByIdOnly` | ZuhlkeMap/app/src/main/java/com/example/zuhlkemap/MapsActivity.kt:168-173 | `in`, `indexOf` and `find` give the same answers on any two lists with the same ids slot by slot, searched for any two cameras with the same id, whatever their timestamps, payloads and markers |
| `Reconcile.WithMarkerAddsOne` | ZuhlkeMap/app/src/main/java/com/example/zuhlkemap/MapsActivity.kt:150-164 | `createMarker` puts exactly one new marker on the map under a handle not in use, with the requested info-window flag, tagged with the id, titled with the timestamp, with the image as snippet and at the camera's position; it sets the camera's `marker` and leaves every other marker's flag alone |
| `Reconcile.WithoutMarkerDropsOne` | ZuhlkeMap/app/src/main/java/com/example/zuhlkemap/MapsActivity.kt:115 | `remove()` takes exactly that marker off the map, logs it, and leaves every other marker's flag and the tracked list alone |
| `Reconcile.ParseStep` | ZuhlkeMap/app/src/main/java/com/example/zuhlkemap/MapsActivity.kt:103-134 | one loop turn over a later batch keeps the list initialised and keeps the invariant: every tracked camera has its own live marker and the map holds no other marker |
| `Reconcile.ParseBatch` | ZuhlkeMap/app/src/main/java/com/example/zuhlkemap/MapsActivity.kt:103-134 | the whole loop over a later batch keeps the same invariant |
| `Reconcile.MarkAll` | ZuhlkeMap/app/src/main/java/com/example/zuhlkemap/MapsActivity.kt:97-99 | the first batch's `createMarker` loop leaves the list's length unchanged |
| `Reconcile.Parsed` | ZuhlkeMap/app/src/main/java/com/example/zuhlkemap/MapsActivity.kt:91-148 | after any call the list is initialised and the invariant holds, including on the first call |
| `Reconcile.MarkAllCameras` | ZuhlkeMap/app/src/main/java/com/example/zuhlkemap/MapsActivity.kt:96-99 | after marking the first n slots, slot i < n holds its own camera with handle `next + i`, later slots are untouched, and the counter advanced by n |
| `Reconcile.MarkAllMarkers` | ZuhlkeMap/app/src/main/java/com/example/zuhlkemap/MapsActivity.kt:150-163 | the first batch's loop adds exactly the n new handles to the map, all with the info window closed, and leaves earlier markers as they were |
| `Reconcile.MarkAllLog` | ZuhlkeMap/app/src/main/java/com/example/zuhlkemap/MapsActivity.kt:97-99 | the first batch's loop appends one unshown `Added` per slot to the log, in slot order, and keeps the earlier log |
| `Reconcile.ReplaceKeepsWellformed` | ZuhlkeMap/app/src/main/java/com/example/zuhlkemap/MapsActivity.kt:111-121 | removing a slot's marker, overwriting the slot and giving it a fresh marker keeps the marker invariant |
| `Reconcile.AppendKeepsWellformed` | ZuhlkeMap/app/src/main/java/com/example/zuhlkemap/MapsActivity.kt:126-127 | appending a camera with a fresh marker keeps the marker invariant |
| `Reconcile.FirstBatchWellformed` | ZuhlkeMap/app/src/main/java/com/example/zuhlkemap/MapsActivity.kt:94-100 | adopting a batch on an empty map and marking every slot gives a state where the invariant holds |
| `Activity.MapsActivity.constructor` | ZuhlkeMap/app/src/main/java/com/example/zuhlkemap/MapsActivity.kt:34 | a new activity has no tracked list, no markers and an empty log, and the invariant holds |
| `Activity.MapsActivity.CreateMarker` | ZuhlkeMap/app/src/main/java/com/example/zuhlkemap/MapsActivity.kt:150-164 | adds a fresh handle to the map with the requested info-window flag, logs it with the camera's id, timestamp, image and position, and returns the camera with its `marker` set to that handle |
| `Activity.MapsActivity.RemoveMarker` | ZuhlkeMap/app/src/main/java/com/example/zuhlkemap/MapsActivity.kt:115 | drops the handle from the map and logs its removal |
| `Activity.MapsActivity.ShowInfoWindow` | ZuhlkeMap/app/src/main/java/com/example/zuhlkemap/MapsActivity.kt:161-163 | opens a live marker's info window; nothing else changes and the invariant holds |
| `Activity.MapsActivity.HideInfoWindow` | ZuhlkeMap/app/src/main/java/com/example/zuhlkemap/MapsActivity.kt:112 | the user closing a popup, which Google Maps does outside this code, clears the live marker's flag that `isInfoWindowShown` reads; nothing else changes and the invariant holds |
| `Activity.MapsActivity.ParseCameraList` | ZuhlkeMap/app/src/main/java/com/example/zuhlkemap/MapsActivity.kt:91-148 | the in-place update of the tracked list and the map produces exactly `Parsed(old state, batch)` and keeps the invariant |
| `Activity.MapsActivity.AdoptFirstBatch` | ZuhlkeMap/app/src/main/java/com/example/zuhlkemap/MapsActivity.kt:94-100 | taking the batch's cameras as the tracked list, in order, and marking each slot with a closed marker produces exactly the first-call state |
| `Activity.MapsActivity.ParseCamera` | ZuhlkeMap/app/src/main/java/com/example/zuhlkemap/MapsActivity.kt:104-133 | one loop turn on the fields produces exactly `ParseStep` of the old state |
| `Activity.MapsActivity.ReplaceCamera` | ZuhlkeMap/app/src/main/java/com/example/zuhlkemap/MapsActivity.kt:110-122 | overwrites the `indexOf` slot with the incoming camera carrying a fresh handle, removes the old handle, logs the removal and then the addition, and shows the new marker iff the old one was shown |
| `Activity.MapsActivity.AddCamera` | ZuhlkeMap/app/src/main/java/com/example/zuhlkemap/MapsActivity.kt:123-127 | appends the incoming camera with a fresh, unshown marker and logs its addition |
| `ReconcileProperties.FirstCallAdoptsBatch` | ZuhlkeMap/app/src/main/java/com/example/zuhlkemap/MapsActivity.kt:94-100 | on the first call the tracked list equals the batch element for element, in order, each camera carrying its marker; the feed timestamp is the batch's; the map holds exactly one marker per camera, none shown; the log gained exactly one unshown `Added` per camera, in batch order |
| `ReconcileProperties.KnownUnchangedIsNoOp` | ZuhlkeMap/app/src/main/java/com/example/zuhlkemap/MapsActivity.kt:110 | a camera whose id is tracked with an equal timestamp changes nothing: list, markers, log and counter stay as they were |
| `ReconcileProperties.KnownChangedReplacesFirst` | ZuhlkeMap/app/src/main/java/com/example/zuhlkemap/MapsActivity.kt:110-122 | a camera whose id is tracked with another timestamp replaces the first slot with that id and no other; the length is unchanged; the old marker is removed and exactly one new marker is created, shown iff the old one was shown; the feed timestamp is unchanged |
| `ReconcileProperties.UnknownIsAppended` | ZuhlkeMap/app/src/main/java/com/example/zuhlkemap/MapsActivity.kt:123-127 | a camera with an untracked id is appended at the end with one new, unshown marker; all earlier slots and markers are unchanged |
| `ReconcileProperties.StepKeepsSlots` | ZuhlkeMap/app/src/main/java/com/example/zuhlkemap/MapsActivity.kt:103-134 | one loop turn never removes a slot or changes a slot's id; slots with another id keep their whole value; the list grows by one exactly when the id was untracked, and the new slot carries that id |
| `ReconcileProperties.StepIds` | ZuhlkeMap/app/src/main/java/com/example/zuhlkemap/MapsActivity.kt:103-134 | after one loop turn the tracked ids are the old ids plus the incoming id |
| `ReconcileProperties.StepSurplus` | ZuhlkeMap/app/src/main/java/com/example/zuhlkemap/MapsActivity.kt:103-134 | one loop turn never adds a second slot for a tracked id |
| `ReconcileProperties.LaterBatchNeverShrinks` | ZuhlkeMap/app/src/main/java/com/example/zuhlkemap/MapsActivity.kt:130-133 | a later batch never shortens the list, never changes a slot's id, and never changes the feed timestamp |
| `ReconcileProperties.StepKeepsEntry` | ZuhlkeMap/app/src/main/java/com/example/zuhlkemap/MapsActivity.kt:104-133 | a loop turn for another id, or for the same id at the same timestamp, leaves a tracked entry, its marker and that marker's info-window flag as they were |
| `ReconcileProperties.LaterBatchKeepsEntry` | ZuhlkeMap/app/src/main/java/com/example/zuhlkemap/MapsActivity.kt:136-142 | a tracked entry that no batch camera replaces (it is the first entry with its id, and the batch repeats its timestamp or omits its id) keeps its whole value and its marker's info-window flag across the whole batch: a refresh does not close the popup of an unchanged camera, which is why the code does not clear and rebuild the map |
| `ReconcileProperties.StepKeepsShadowed` | ZuhlkeMap/app/src/main/java/com/example/zuhlkemap/MapsActivity.kt:106-121 | a loop turn never touches a slot that an earlier slot with the same id shadows, nor its marker's flag |
| `ReconcileProperties.ShadowedSlotUntouched` | ZuhlkeMap/app/src/main/java/com/example/zuhlkemap/MapsActivity.kt:106-121 | a duplicate entry coming after another entry with its id keeps its value, its marker and that marker's flag across any later batch, because `find` and `indexOf` always pick the earlier slot |
| `ReconcileProperties.LaterBatchLeavesAbsentUntouched` | ZuhlkeMap/app/src/main/java/com/example/zuhlkemap/MapsActivity.kt:130-133 | a tracked camera whose id the batch does not mention keeps its whole entry, its marker, and that marker's info-window flag |
| `ReconcileProperties.LaterBatchIds` | ZuhlkeMap/app/src/main/java/com/example/zuhlkemap/MapsActivity.kt:103-133 | after a later batch the tracked ids are exactly the old ids plus the batch's ids |
| `ReconcileProperties.LengthMinusIds` | ZuhlkeMap/app/src/main/java/com/example/zuhlkemap/MapsActivity.kt:103-133 | a later batch leaves the number of slots beyond one per id unchanged |
| `ReconcileProperties.LaterBatchGrowsByNewIds` | ZuhlkeMap/app/src/main/java/com/example/zuhlkemap/MapsActivity.kt:103-133 | a later batch grows the list by exactly the number of distinct batch ids that were not tracked before |
| `ReconcileProperties.ListTimestampIsFixed` | ZuhlkeMap/app/src/main/java/com/example/zuhlkemap/MapsActivity.kt:167 | once the list is initialised, no call changes its feed-level timestamp |
| `ReconcileProperties.BatchSnoc` | ZuhlkeMap/app/src/main/java/com/example/zuhlkemap/MapsActivity.kt:103 | a batch with one more camera is the shorter batch followed by one more loop turn |
| `ReconcileProperties.DuplicateInBatchSeesFirst` | ZuhlkeMap/app/src/main/java/com/example/zuhlkemap/MapsActivity.kt:103-134 | an untracked id that appears twice in a batch with two timestamps is appended by its first occurrence and then replaced by its second; the log reads add, remove, add, and one unshown marker remains |
| `ReconcileProperties.SecondOccurrenceReplaces` | ZuhlkeMap/app/src/main/java/com/example/zuhlkemap/MapsActivity.kt:110-122 | the second occurrence of a just-appended id with another timestamp replaces that fresh entry and its marker |
| `ReconcileProperties.FindUnaffected` | ZuhlkeMap/app/src/main/java/com/example/zuhlkemap/MapsActivity.kt:108 | handling a camera does not change which entry `find` returns for any other id |
| `ReconcileProperties.StepTracksTimestamp` | ZuhlkeMap/app/src/main/java/com/example/zuhlkemap/MapsActivity.kt:110-127 | after a camera is handled, `find` for its id returns an entry with its timestamp |
| `ReconcileProperties.StepKeepsUpToDate` | ZuhlkeMap/app/src/main/java/com/example/zuhlkemap/MapsActivity.kt:103-134 | handling a camera leaves it, and every other id that was up to date, up to date |
| `ReconcileProperties.BatchTracksTimestamps` | ZuhlkeMap/app/src/main/java/com/example/zuhlkemap/MapsActivity.kt:103-134 | after any later batch, repeated ids included, `find` returns for each batch id an entry with the timestamp of that id's last camera in the batch: the last occurrence wins |
| `ReconcileProperties.DistinctBatchTracksTimestamps` | ZuhlkeMap/app/src/main/java/com/example/zuhlkemap/MapsActivity.kt:103-134 | after a later batch with distinct ids, every batch camera is tracked with its own timestamp |
| `ReconcileProperties.TrackedBatchIsNoOp` | ZuhlkeMap/app/src/main/java/com/example/zuhlkemap/MapsActivity.kt:110 | a batch whose every camera is already tracked with its timestamp changes nothing |
| `ReconcileProperties.RepeatedIdReparseIsNotNoOp` | ZuhlkeMap/app/src/main/java/com/example/zuhlkemap/MapsActivity.kt:103-134 | a batch in which an untracked id appears twice with two timestamps, fed a second time, replaces that entry twice more (two fresh marker handles): reconciling is not idempotent without distinct ids |
| `ReconcileProperties.ReplacedTwice` | ZuhlkeMap/app/src/main/java/com/example/zuhlkemap/MapsActivity.kt:110-122 | two cameras with one id and two timestamps, meeting an entry that carries the second timestamp, each replace that entry in turn |
| `ReconcileProperties.ReparseIsNoOp` | ZuhlkeMap/app/src/main/java/com/example/zuhlkemap/MapsActivity.kt:103-134 | reconciling the same later batch (ids distinct) twice in a row: the second time changes neither the list, nor the map, nor the log |

## Left out

- The HTTP fetch through Volley and the `items[0]` extraction (lines 74-89) are network I/O. The model receives a typed `CameraList`.
- Gson deserialisation (lines 80-81) is a foreign library.
- The periodic `Timer` (lines 61-72) and the Activity lifecycle (lines 41-59) are scheduling and Android plumbing. Each response is one sequential call of `ParseCameraList`, as Volley delivers responses on the main thread.
- Google Maps rendering, `CustomInfoWindowAdapter`, Picasso image loading and the `MarkerCallback` repaint (lines 180-236) are UI and foreign code. Only the create, remove and info-window state of markers is kept. The rule that Google Maps keeps at most one info window open is not modelled.
- Latitude and longitude are doubles in the source (lines 151, 176). Here they are `real` values carried as payload, and nothing computes on them.
- The commented-out clear-and-rebuild alternative (lines 143-147) is dead code.
- Removal of cameras that disappear from the feed is not modelled because the source does not do it (lines 130-133).
- Reconcile.ParseStep: requires the invariant (`Wellformed`) of its input state, which the Kotlin function does not check. Every state reachable from the constructor satisfies it (`Parsed`, `ParseCameraList`). Under it, the tracked camera always has a marker. So the source path where `cameraInList?.marker` is null does not occur. On that path, `showMarker!!` would throw after the slot had been overwritten.
- `Camera.equals` casts its argument to `Camera` and throws on any other type. The source only compares cameras with cameras, so the cast is not modelled. The missing `hashCode` override is not modelled either, because only `ArrayList` lookups use the equality.
- Kotlin cameras are shared objects. `createMarker` sets the `marker` field of the very object stored in the list, and the first batch's list object becomes `mCurrentCameraList` itself. Here cameras are values: the marked camera is written back into its slot, so the effect on the tracked list is the same. The caller's own copy of the batch is not changed.
