/**
 * The camera entity of the traffic-images feed and the identity rule the
 * tracked list is searched with: `Camera.equals` compares `camera_id` only,
 * so `in`, `indexOf` and the `find { it.camera_id == id }` lookup all ignore
 * the timestamp, the payload and the marker.
 */
module Cameras {
  import opened Wrappers

  /** An opaque marker handle; the map hands out fresh ones from a counter. */
  type Handle = nat

  /** Position of a camera. The source holds two doubles; nothing here computes on them. */
  datatype LatLong = LatLong(latitude: real, longitude: real)

  datatype ImageMetaData = ImageMetaData(height: int, width: int, md5: string)

  /** One camera as deserialised from the feed; `marker` is set by `createMarker`. */
  datatype Camera = Camera(
    timestamp: string,
    image: string,
    location: LatLong,
    cameraId: string,
    imageMetadata: ImageMetaData,
    marker: Option<Handle>)

  /** One fetched batch: the feed-level timestamp and the cameras in feed order. */
  datatype CameraList = CameraList(timestamp: string, cameras: seq<Camera>)

  /**
   * `Camera.equals`: two cameras are equal when their ids are, so equality
   * holds exactly when they differ at most in timestamp, image, location,
   * image metadata and marker.
   */
  predicate SameCamera(self: Camera, other: Camera): (r: bool)
    ensures r <==> self.(timestamp := other.timestamp, image := other.image, location := other.location,
                         imageMetadata := other.imageMetadata, marker := other.marker) == other
  {
    other.cameraId == self.cameraId
  }

  /** The id-only `equals` is an equivalence: reflexive, symmetric and transitive. */
  lemma SameCameraIsEquivalence(a: Camera, b: Camera, c: Camera)
    ensures SameCamera(a, a)
    ensures SameCamera(a, b) <==> SameCamera(b, a)
    ensures SameCamera(a, b) && SameCamera(b, c) ==> SameCamera(a, c)
  {
  }

  /** `ArrayList.indexOf(c)`: the first slot equal to `c` under `Camera.equals`, or -1. */
  function IndexOf(cameras: seq<Camera>, c: Camera): (r: int)
    ensures -1 <= r < |cameras|
    ensures r == -1 <==> forall i :: 0 <= i < |cameras| ==> !SameCamera(c, cameras[i])
    ensures 0 <= r ==> SameCamera(c, cameras[r])
    ensures 0 <= r ==> forall i :: 0 <= i < r ==> !SameCamera(c, cameras[i])
  {
    if cameras == [] then -1
    else if SameCamera(c, cameras[0]) then 0
    else
      var k := IndexOf(cameras[1..], c);
      if k < 0 then -1 else k + 1
  }

  /** `c in cameras`, that is `ArrayList.contains(c)`, which is `indexOf(c) >= 0`. */
  function Contains(cameras: seq<Camera>, c: Camera): (r: bool)
    ensures r <==> exists i :: 0 <= i < |cameras| && cameras[i].cameraId == c.cameraId
  {
    IndexOf(cameras, c) >= 0
  }

  /** `k` is the first slot of `cameras` whose id is `id`. */
  ghost predicate FirstWithId(cameras: seq<Camera>, id: string, k: int)
  {
    0 <= k < |cameras| && cameras[k].cameraId == id
    && forall j :: 0 <= j < k ==> cameras[j].cameraId != id
  }

  /** `cameras.find { it.camera_id == id }`: the first camera carrying `id`, or null. */
  function Find(cameras: seq<Camera>, id: string): (r: Option<Camera>)
    ensures r.None? <==> forall i :: 0 <= i < |cameras| ==> cameras[i].cameraId != id
    ensures r.Some? ==> exists k :: FirstWithId(cameras, id, k) && r.value == cameras[k]
  {
    if cameras == [] then None
    else if cameras[0].cameraId == id then
      assert FirstWithId(cameras, id, 0);
      Some(cameras[0])
    else
      assert forall k :: FirstWithId(cameras[1..], id, k) ==> FirstWithId(cameras, id, k + 1);
      Find(cameras[1..], id)
  }

  /** The set of ids present in a list of cameras. */
  function Ids(cameras: seq<Camera>): set<string>
  {
    set i | 0 <= i < |cameras| :: cameras[i].cameraId
  }

  /**
   * `indexOf` picks exactly the first slot with the camera's id, so with
   * duplicate ids in the list it is always the earliest one.
   */
  lemma IndexOfIsFirst(cameras: seq<Camera>, c: Camera, k: int)
    requires 0 <= k
    ensures IndexOf(cameras, c) == k <==> FirstWithId(cameras, c.cameraId, k)
  {
    if FirstWithId(cameras, c.cameraId, k) {
      assert SameCamera(c, cameras[k]);
    }
  }

  /**
   * `find { it.camera_id == id }` and `indexOf` agree: the entry `find`
   * returns is the one in the slot `indexOf` reports.
   */
  lemma {:induction false} FindAgreesWithIndexOf(cameras: seq<Camera>, c: Camera)
    ensures Find(cameras, c.cameraId) ==
      if IndexOf(cameras, c) < 0 then None else Some(cameras[IndexOf(cameras, c)])
  {
    if cameras != [] && cameras[0].cameraId != c.cameraId {
      FindAgreesWithIndexOf(cameras[1..], c);
    }
  }

  /**
   * Membership, `indexOf` and `find` depend on the ids alone: two lists with
   * the same ids slot by slot, searched for two cameras with the same id,
   * give the same answers whatever the timestamps, payloads and markers.
   */
  lemma {:induction false} LookupIsByIdOnly(s: seq<Camera>, t: seq<Camera>, c: Camera, d: Camera)
    requires |s| == |t| && forall i :: 0 <= i < |s| ==> s[i].cameraId == t[i].cameraId
    requires c.cameraId == d.cameraId
    ensures Contains(s, c) == Contains(t, d)
    ensures IndexOf(s, c) == IndexOf(t, d)
    ensures Find(s, c.cameraId).Some? == Find(t, d.cameraId).Some?
  {
    if s != [] {
      LookupIsByIdOnly(s[1..], t[1..], c, d);
    }
  }
}
