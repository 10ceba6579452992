/**
 * The part of `MapsActivity` that tracks cameras: the lazily initialised
 * `mCurrentCameraList` (its flag, feed timestamp and camera list) and the
 * markers it puts on the map. `ParseCameraList` is proved to do exactly what
 * `Reconcile.Parsed` describes.
 */
module Activity {
  import opened Wrappers
  import opened Cameras
  import opened Reconcile
  import opened ReconcileProperties

  class MapsActivity {
    /** `this::mCurrentCameraList.isInitialized` */
    var initialized: bool
    /** `mCurrentCameraList.timestamp` */
    var listTimestamp: string
    /** `mCurrentCameraList.cameras` */
    var cameras: seq<Camera>
    /** The map: the next fresh marker handle, live markers with their info-window flag, and the operation log. */
    var nextHandle: nat
    var markers: map<Handle, bool>
    var log: seq<MarkerOp>

    ghost function Model(): State
      reads this
    {
      State(initialized, listTimestamp, cameras, nextHandle, markers, log)
    }

    ghost predicate Valid()
      reads this
    {
      Wellformed(Model())
    }

    constructor ()
      ensures Valid() && !initialized
      ensures cameras == [] && nextHandle == 0 && markers == map[] && log == []
    {
      initialized := false;
      listTimestamp := "";
      cameras := [];
      nextHandle := 0;
      markers := map[];
      log := [];
    }

    /** `createMarker(cameraItem, showMarker)`; the returned camera is `cameraItem` with its `marker` set. */
    method CreateMarker(cameraItem: Camera, showMarker: bool) returns (placed: Camera)
      modifies this`nextHandle, this`markers, this`log
      ensures (Model(), placed) == WithMarker(old(Model()), cameraItem, showMarker)
    {
      var h := nextHandle;
      nextHandle := nextHandle + 1;
      markers := markers[h := showMarker];
      log := log + [AddedOp(h, cameraItem, showMarker)];
      placed := cameraItem.(marker := Some(h));
    }

    /** `Marker.remove()` */
    method RemoveMarker(h: Handle)
      modifies this`markers, this`log
      ensures Model() == WithoutMarker(old(Model()), h)
    {
      markers := markers - {h};
      log := log + [Removed(h)];
    }

    /** `Marker.showInfoWindow()`, also what a tap on a marker does. */
    method ShowInfoWindow(h: Handle)
      requires Valid() && h in markers
      modifies this`markers
      ensures Valid() && markers == old(markers)[h := true]
    {
      markers := markers[h := true];
    }

    /** `Marker.hideInfoWindow()`, also what closing the popup does. */
    method HideInfoWindow(h: Handle)
      requires Valid() && h in markers
      modifies this`markers
      ensures Valid() && markers == old(markers)[h := false]
    {
      markers := markers[h := false];
    }

    /** `parseCameraList(newCameraList)` */
    method ParseCameraList(newCameraList: CameraList)
      requires Valid()
      modifies this
      ensures Valid() && initialized
      ensures Model() == Parsed(old(Model()), newCameraList)
    {
      if !initialized {
        AdoptFirstBatch(newCameraList);
        return;
      }
      ghost var start := Model();
      var batch := newCameraList.cameras;
      var i := 0;
      while i < |batch|
        invariant 0 <= i <= |batch|
        invariant Model() == ParseBatch(start, batch[..i])
      {
        BatchSnoc(start, batch[..i], batch[i]);
        assert batch[..i] + [batch[i]] == batch[..i + 1];
        ParseCamera(batch[i]);
        i := i + 1;
      }
      assert batch[..i] == batch;
    }

    /** `parseCameraList`, first call (MapsActivity.kt lines 94-100): the first batch becomes the tracked list and each camera gets an unshown marker. */
    method AdoptFirstBatch(newCameraList: CameraList)
      requires Valid() && !initialized
      modifies this
      ensures Model() == Parsed(old(Model()), newCameraList)
    {
      initialized := true;
      listTimestamp := newCameraList.timestamp;
      cameras := newCameraList.cameras;
      ghost var adopted := Model();
      var i := 0;
      while i < |cameras|
        invariant 0 <= i <= |cameras| == |newCameraList.cameras|
        invariant Model() == MarkAll(adopted, i)
      {
        var placed := CreateMarker(cameras[i], false);
        cameras := cameras[i := placed];
        i := i + 1;
      }
    }

    /** `parseCameraList` (MapsActivity.kt lines 104-133): one turn of the `forEach` over a later batch. */
    method ParseCamera(it: Camera)
      requires Valid() && initialized
      modifies this
      ensures Model() == ParseStep(old(Model()), it)
    {
      ghost var st := Model();
      if Contains(cameras, it) {
        var id := it.cameraId;
        var cameraInList := Find(cameras, id).value;
        FindAgreesWithIndexOf(cameras, it);
        ghost var k := IndexOf(cameras, it);
        IndexOfIsFirst(cameras, it, k);
        if it.timestamp != cameraInList.timestamp {
          KnownChangedReplacesFirst(st, it, k);
          ReplaceCamera(it, cameraInList);
        } else {
          KnownUnchangedIsNoOp(st, it, k);
        }
      } else {
        UnknownIsAppended(st, it);
        AddCamera(it);
      }
    }

    /** `parseCameraList` (MapsActivity.kt lines 111-121): a tracked camera with a new timestamp takes over its slot with a fresh marker. */
    method ReplaceCamera(it: Camera, cameraInList: Camera)
      requires Valid() && initialized
      requires 0 <= IndexOf(cameras, it) && cameraInList == cameras[IndexOf(cameras, it)]
      modifies this
      ensures var k := old(IndexOf(cameras, it));
        var h := old(cameras[k].marker.value);
        && cameras == old(cameras[k := it.(marker := Some(nextHandle))])
        && markers == old((markers - {h})[nextHandle := markers[h]])
        && log == old(log + [Removed(h), AddedOp(nextHandle, it, markers[h])])
        && nextHandle == old(nextHandle) + 1
        && initialized == old(initialized) && listTimestamp == old(listTimestamp)
    {
      var currentMarker := cameraInList.marker.value;
      var isOldMarkerShown := markers[currentMarker];
      RemoveMarker(currentMarker);
      var index := IndexOf(cameras, it);
      cameras := cameras[index := it];
      // createMarker sets the marker field of the camera now in that slot
      var placed := CreateMarker(it, isOldMarkerShown);
      cameras := cameras[index := placed];
    }

    /** `parseCameraList` (MapsActivity.kt lines 126-127): an untracked camera gets an unshown marker and is appended. */
    method AddCamera(it: Camera)
      modifies this
      ensures cameras == old(cameras + [it.(marker := Some(nextHandle))])
      ensures markers == old(markers[nextHandle := false])
      ensures log == old(log + [AddedOp(nextHandle, it, false)])
      ensures nextHandle == old(nextHandle) + 1
      ensures initialized == old(initialized) && listTimestamp == old(listTimestamp)
    {
      var placed := CreateMarker(it, false);
      cameras := cameras + [placed];
    }
  }
}
