/**
 * What `MapsActivity.parseCameraList` does to the tracked camera list and to
 * the map's markers, as functions on an abstract state. The class in
 * maps_activity.dfy is proved to follow these functions step by step, and
 * properties.dfy proves what they promise.
 */
module Reconcile {
  import opened Wrappers
  import opened Cameras

  /** One operation on the map: a marker added (with its info window shown or not), or removed. */
  datatype MarkerOp =
    | Added(handle: Handle, tag: string, title: string, snippet: string, position: LatLong, shown: bool)
    | Removed(handle: Handle)

  /**
   * The activity's state: whether `mCurrentCameraList` is initialised, its
   * feed-level timestamp and camera list, and the map: the next fresh marker
   * handle, the markers on the map with their "info window shown" flag, and
   * the log of marker operations so far.
   */
  datatype State = State(
    initialized: bool,
    listTimestamp: string,
    cameras: seq<Camera>,
    nextHandle: nat,
    markers: map<Handle, bool>,
    log: seq<MarkerOp>)

  /** The marker handles held by a list of cameras. */
  function Handles(cameras: seq<Camera>): set<Handle>
  {
    set i | 0 <= i < |cameras| && cameras[i].marker.Some? :: cameras[i].marker.value
  }

  /**
   * The invariant every call of `parseCameraList` keeps: before the first call
   * nothing is tracked; every tracked camera has its own marker; the markers
   * on the map are exactly those of the tracked cameras; and every handle on
   * the map was handed out before.
   */
  ghost predicate Wellformed(st: State)
  {
    && (!st.initialized ==> st.cameras == [])
    && (forall i :: 0 <= i < |st.cameras| ==> st.cameras[i].marker.Some?)
    && (forall i, j :: 0 <= i < j < |st.cameras| ==> st.cameras[i].marker != st.cameras[j].marker)
    && st.markers.Keys == Handles(st.cameras)
    && (forall h :: h in st.markers ==> h < st.nextHandle)
  }

  /** The log entry `createMarker` produces for camera `cam` under handle `h`. */
  function AddedOp(h: Handle, cam: Camera, shown: bool): MarkerOp
  {
    Added(h, cam.cameraId, cam.timestamp, cam.image, cam.location, shown)
  }

  /**
   * `createMarker(cam, showMarker)`: a marker with a fresh handle goes on the
   * map, tagged with the id and titled with the timestamp, its info window
   * shown when asked; the camera gets that handle in its `marker` field.
   */
  function WithMarker(st: State, cam: Camera, showMarker: bool): (State, Camera)
  {
    var h := st.nextHandle;
    (st.(nextHandle := h + 1,
         markers := st.markers[h := showMarker],
         log := st.log + [AddedOp(h, cam, showMarker)]),
     cam.(marker := Some(h)))
  }

  /** `marker.remove()`: the marker leaves the map. */
  function WithoutMarker(st: State, h: Handle): State
  {
    st.(markers := st.markers - {h}, log := st.log + [Removed(h)])
  }

  /**
   * `createMarker` puts exactly one new marker on the map, under a handle not
   * in use, with the requested info-window flag, tagged with the camera's id,
   * titled with its timestamp, with its image as snippet and at its
   * position; the camera it returns is the same camera with that marker, and
   * no other marker changes.
   */
  lemma WithMarkerAddsOne(st: State, cam: Camera, showMarker: bool)
    requires forall h :: h in st.markers ==> h < st.nextHandle
    ensures var (r, placed) := WithMarker(st, cam, showMarker);
      var h := st.nextHandle;
      && placed == cam.(marker := Some(h)) && SameCamera(cam, placed)
      && h !in st.markers && r.markers.Keys == st.markers.Keys + {h}
      && r.markers[h] == showMarker
      && (forall k :: k in st.markers ==> r.markers[k] == st.markers[k])
      && forall k :: k in r.markers ==> k < r.nextHandle
    ensures var (r, placed) := WithMarker(st, cam, showMarker);
      && |r.log| == |st.log| + 1 && r.log[..|st.log|] == st.log
      && r.log[|st.log|] == Added(st.nextHandle, cam.cameraId, cam.timestamp, cam.image, cam.location, showMarker)
      && r.cameras == st.cameras
  {
  }

  /** `marker.remove()` takes exactly that marker off the map and leaves every other flag as it was. */
  lemma WithoutMarkerDropsOne(st: State, h: Handle)
    ensures var r := WithoutMarker(st, h);
      && r.markers.Keys == st.markers.Keys - {h}
      && (forall k :: k in r.markers ==> r.markers[k] == st.markers[k])
      && r.log == st.log + [Removed(h)]
      && r.cameras == st.cameras && r.nextHandle == st.nextHandle
  {
  }

  /** One turn of the `forEach` over a later batch of `parseCameraList` (MapsActivity.kt lines 103-134); it keeps the invariant. */
  function ParseStep(st: State, incoming: Camera): (r: State)
    requires st.initialized && Wellformed(st)
    ensures r.initialized && Wellformed(r)
  {
    if Contains(st.cameras, incoming) then
      var cameraInList := Find(st.cameras, incoming.cameraId).value;
      if incoming.timestamp != cameraInList.timestamp then
        // read the old marker's state, remove it, overwrite the slot that
        // `indexOf` names, and give the new camera a marker shown as before
        var currentMarker := cameraInList.marker.value;
        var isOldMarkerShown := st.markers[currentMarker];
        var removed := WithoutMarker(st, currentMarker);
        var index := IndexOf(st.cameras, incoming);
        var (created, placed) := WithMarker(removed, incoming, isOldMarkerShown);
        var r := created.(cameras := created.cameras[index := placed]);
        FindAgreesWithIndexOf(st.cameras, incoming);
        ReplaceKeepsWellformed(st, index, placed, isOldMarkerShown, r);
        r
      else
        st
    else
      var (created, placed) := WithMarker(st, incoming, false);
      var r := created.(cameras := created.cameras + [placed]);
      AppendKeepsWellformed(st, r);
      r
  }

  /** The whole `forEach` over a later batch: `ParseStep` on each camera in batch order. */
  function ParseBatch(st: State, batch: seq<Camera>): (r: State)
    requires st.initialized && Wellformed(st)
    ensures r.initialized && Wellformed(r)
    decreases |batch|
  {
    if batch == [] then st
    else
      ParseStep(ParseBatch(st, batch[..|batch| - 1]), batch[|batch| - 1])
  }

  /** The first-call `forEach { createMarker(it) }` over slots 0 .. n-1 of the list. */
  function MarkAll(st: State, n: nat): (r: State)
    requires n <= |st.cameras|
    ensures |r.cameras| == |st.cameras|
  {
    if n == 0 then st
    else
      var prior := MarkAll(st, n - 1);
      var (created, placed) := WithMarker(prior, prior.cameras[n - 1], false);
      created.(cameras := created.cameras[n - 1 := placed])
  }

  /** `parseCameraList(newCameraList)`: adopt the first batch as is, reconcile every later one. */
  function Parsed(st: State, newCameraList: CameraList): (r: State)
    requires Wellformed(st)
    ensures r.initialized && Wellformed(r)
  {
    if !st.initialized then
      var adopted := st.(initialized := true,
                         listTimestamp := newCameraList.timestamp,
                         cameras := newCameraList.cameras);
      var r := MarkAll(adopted, |newCameraList.cameras|);
      assert st.markers.Keys == Handles([]) == {};
      FirstBatchWellformed(adopted);
      r
    else
      ParseBatch(st, newCameraList.cameras)
  }

  // ---------------------------------------------------------------------------
  // Closed form of the first-batch marker loop, and the invariant proofs.

  /** After `MarkAll(st, n)` slot i < n holds its camera with handle `nextHandle + i`; later slots are untouched. */
  lemma {:induction false} MarkAllCameras(st: State, n: nat)
    requires n <= |st.cameras|
    ensures var r := MarkAll(st, n);
      && r.initialized == st.initialized && r.listTimestamp == st.listTimestamp
      && r.nextHandle == st.nextHandle + n
      && (forall i :: 0 <= i < n ==> r.cameras[i] == st.cameras[i].(marker := Some(st.nextHandle + i)))
      && (forall i :: n <= i < |st.cameras| ==> r.cameras[i] == st.cameras[i])
  {
    if n > 0 {
      MarkAllCameras(st, n - 1);
    }
  }

  /** `MarkAll(st, n)` puts n new markers on the map, none shown, and leaves the others as they were. */
  lemma {:induction false} MarkAllMarkers(st: State, n: nat)
    requires n <= |st.cameras|
    requires forall h :: h in st.markers ==> h < st.nextHandle
    ensures var r := MarkAll(st, n);
      && (forall h :: h in r.markers <==> h in st.markers || st.nextHandle <= h < st.nextHandle + n)
      && (forall h :: st.nextHandle <= h < st.nextHandle + n ==> h in r.markers && !r.markers[h])
      && (forall h :: h in st.markers ==> h in r.markers && r.markers[h] == st.markers[h])
  {
    if n > 0 {
      MarkAllMarkers(st, n - 1);
      MarkAllCameras(st, n - 1);
    }
  }

  /** `MarkAll(st, n)` logs one unshown `Added` per slot, in slot order, after the earlier log. */
  lemma {:induction false} MarkAllLog(st: State, n: nat)
    requires n <= |st.cameras|
    ensures var r := MarkAll(st, n);
      && |r.log| == |st.log| + n && r.log[..|st.log|] == st.log
      && (forall j :: 0 <= j < n ==> r.log[|st.log| + j] == AddedOp(st.nextHandle + j, st.cameras[j], false))
  {
    if n > 0 {
      MarkAllLog(st, n - 1);
      MarkAllCameras(st, n - 1);
      var prior := MarkAll(st, n - 1);
      var r := MarkAll(st, n);
      var m := |st.log|;
      assert r.log == prior.log + [AddedOp(st.nextHandle + n - 1, st.cameras[n - 1], false)];
      assert r.log[..m] == prior.log[..m];
      forall j | 0 <= j < n
        ensures r.log[m + j] == AddedOp(st.nextHandle + j, st.cameras[j], false)
      {
        if j < n - 1 {
          assert r.log[m + j] == prior.log[m + j];
        }
      }
    }
  }

  /** The handles of a list whose slot i holds handle h0 + i are h0 .. h0 + |cameras| - 1. */
  lemma HandlesOfFresh(cameras: seq<Camera>, h0: nat)
    requires forall i :: 0 <= i < |cameras| ==> cameras[i].marker == Some(h0 + i)
    ensures forall h :: h in Handles(cameras) <==> h0 <= h < h0 + |cameras|
  {
    forall h: Handle | h0 <= h < h0 + |cameras|
      ensures h in Handles(cameras)
    {
      assert cameras[h - h0].marker.value == h;
    }
  }

  /** Appending one camera adds its handle. */
  lemma HandlesAppend(cameras: seq<Camera>, x: Camera)
    requires x.marker.Some?
    ensures Handles(cameras + [x]) == Handles(cameras) + {x.marker.value}
  {
    var s := cameras + [x];
    assert s[|cameras|] == x;
    forall h | h in Handles(cameras)
      ensures h in Handles(s)
    {
      var i :| 0 <= i < |cameras| && cameras[i].marker.Some? && cameras[i].marker.value == h;
      assert s[i] == cameras[i];
    }
  }

  /** Overwriting slot k trades that slot's handle for the new camera's, when handles are distinct. */
  lemma HandlesReplace(cameras: seq<Camera>, k: int, x: Camera)
    requires 0 <= k < |cameras| && x.marker.Some?
    requires forall i :: 0 <= i < |cameras| ==> cameras[i].marker.Some?
    requires forall i, j :: 0 <= i < j < |cameras| ==> cameras[i].marker != cameras[j].marker
    ensures Handles(cameras[k := x]) == Handles(cameras) - {cameras[k].marker.value} + {x.marker.value}
  {
    var s := cameras[k := x];
    forall h | h in Handles(cameras) && h != cameras[k].marker.value
      ensures h in Handles(s)
    {
      var i :| 0 <= i < |cameras| && cameras[i].marker.Some? && cameras[i].marker.value == h;
      assert s[i] == cameras[i];
    }
    forall h | h in Handles(s)
      ensures h in Handles(cameras) - {cameras[k].marker.value} + {x.marker.value}
    {
      var i :| 0 <= i < |s| && s[i].marker.Some? && s[i].marker.value == h;
      if i != k {
        assert s[i] == cameras[i];
        if i < k {
          assert cameras[i].marker != cameras[k].marker;
        } else {
          assert cameras[k].marker != cameras[i].marker;
        }
      }
    }
    assert s[k] == x;
  }

  lemma ReplaceKeepsWellformed(st: State, index: int, x: Camera, shown: bool, r: State)
    requires Wellformed(st) && st.initialized
    requires 0 <= index < |st.cameras| && x.marker == Some(st.nextHandle)
    requires r.cameras == st.cameras[index := x]
    requires r.markers == (st.markers - {st.cameras[index].marker.value})[st.nextHandle := shown]
    requires r.nextHandle == st.nextHandle + 1 && r.initialized
    ensures Wellformed(r)
  {
    HandlesReplace(st.cameras, index, x);
    forall i, j | 0 <= i < j < |r.cameras|
      ensures r.cameras[i].marker != r.cameras[j].marker
    {
      if i == index {
        assert st.cameras[j].marker.value in st.markers;
      } else if j == index {
        assert st.cameras[i].marker.value in st.markers;
      }
    }
  }

  lemma AppendKeepsWellformed(st: State, r: State)
    requires Wellformed(st) && st.initialized
    requires |r.cameras| == |st.cameras| + 1 && r.cameras[..|st.cameras|] == st.cameras
    requires r.cameras[|st.cameras|].marker == Some(st.nextHandle)
    requires r.markers.Keys == st.markers.Keys + {st.nextHandle}
    requires r.nextHandle == st.nextHandle + 1 && r.initialized
    ensures Wellformed(r)
  {
    assert r.cameras == st.cameras + [r.cameras[|st.cameras|]];
    HandlesAppend(st.cameras, r.cameras[|st.cameras|]);
    forall i, j | 0 <= i < j < |r.cameras|
      ensures r.cameras[i].marker != r.cameras[j].marker
    {
      if j == |st.cameras| {
        assert r.cameras[i] == st.cameras[i];
        assert st.cameras[i].marker.value in st.markers;
      } else {
        assert r.cameras[i] == st.cameras[i] && r.cameras[j] == st.cameras[j];
      }
    }
  }

  /** Marking every slot of a freshly adopted batch on an empty map gives a well-formed state. */
  lemma FirstBatchWellformed(adopted: State)
    requires adopted.initialized && adopted.markers == map[]
    ensures Wellformed(MarkAll(adopted, |adopted.cameras|))
  {
    var n := |adopted.cameras|;
    var r := MarkAll(adopted, n);
    MarkAllCameras(adopted, n);
    HandlesOfFresh(r.cameras, adopted.nextHandle);
    MarkAllMarkers(adopted, n);
    assert r.markers.Keys == Handles(r.cameras);
  }
}
