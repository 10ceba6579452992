/**
 * What `parseCameraList` promises, proved about `Reconcile.Parsed`,
 * `Reconcile.ParseBatch` and `Reconcile.ParseStep`.
 */
module ReconcileProperties {
  import opened Wrappers
  import opened Cameras
  import opened Reconcile

  // ---------------------------------------------------------------------------
  // First call

  /**
   * On the first call the tracked list is the batch, slot for slot and in
   * order (each camera now carrying its marker), the feed timestamp is the
   * batch's, and exactly one unshown marker was added per camera, in batch
   * order, with nothing removed.
   */
  lemma FirstCallAdoptsBatch(st: State, newCameraList: CameraList)
    requires Wellformed(st) && !st.initialized
    ensures var r := Parsed(st, newCameraList);
      var batch := newCameraList.cameras;
      && r.listTimestamp == newCameraList.timestamp
      && |r.cameras| == |batch|
      && (forall i :: 0 <= i < |batch| ==> r.cameras[i] == batch[i].(marker := Some(st.nextHandle + i)))
      && (forall h :: h in r.markers <==> st.nextHandle <= h < st.nextHandle + |batch|)
      && (forall h :: h in r.markers ==> !r.markers[h])
      && |r.log| == |st.log| + |batch| && r.log[..|st.log|] == st.log
      && (forall j :: 0 <= j < |batch| ==> r.log[|st.log| + j] == AddedOp(st.nextHandle + j, batch[j], false))
  {
    var adopted := st.(initialized := true,
                       listTimestamp := newCameraList.timestamp,
                       cameras := newCameraList.cameras);
    var n := |newCameraList.cameras|;
    assert st.markers.Keys == Handles([]) == {};
    MarkAllCameras(adopted, n);
    MarkAllMarkers(adopted, n);
    MarkAllLog(adopted, n);
  }

  // ---------------------------------------------------------------------------
  // One incoming camera of a later batch

  /** A tracked id with an equal timestamp: neither the list nor the map changes. */
  lemma KnownUnchangedIsNoOp(st: State, c: Camera, k: int)
    requires Wellformed(st) && st.initialized
    requires FirstWithId(st.cameras, c.cameraId, k)
    requires st.cameras[k].timestamp == c.timestamp
    ensures ParseStep(st, c) == st
  {
    FindAgreesWithIndexOf(st.cameras, c);
    IndexOfIsFirst(st.cameras, c, k);
  }

  /**
   * A tracked id with a different timestamp: the first slot with that id,
   * and no other, now holds the incoming camera with a fresh marker; the old
   * marker was removed and the new one is shown iff the old one was.
   */
  lemma KnownChangedReplacesFirst(st: State, c: Camera, k: int)
    requires Wellformed(st) && st.initialized
    requires FirstWithId(st.cameras, c.cameraId, k)
    requires st.cameras[k].timestamp != c.timestamp
    ensures var r := ParseStep(st, c);
      var was := st.cameras[k].marker.value;
      var shown := st.markers[was];
      && r.cameras == st.cameras[k := c.(marker := Some(st.nextHandle))]
      && |r.cameras| == |st.cameras|
      && r.cameras[k] == c.(marker := Some(st.nextHandle))
      && (forall j :: 0 <= j < |st.cameras| && j != k ==> r.cameras[j] == st.cameras[j])
      && r.markers == (st.markers - {was})[st.nextHandle := shown]
      && r.log == st.log + [Removed(was), AddedOp(st.nextHandle, c, shown)]
      && r.nextHandle == st.nextHandle + 1
      && r.listTimestamp == st.listTimestamp
  {
    FindAgreesWithIndexOf(st.cameras, c);
    IndexOfIsFirst(st.cameras, c, k);
  }

  /** An untracked id: the camera is appended with one new, unshown marker; earlier slots stay. */
  lemma UnknownIsAppended(st: State, c: Camera)
    requires Wellformed(st) && st.initialized
    requires forall i :: 0 <= i < |st.cameras| ==> st.cameras[i].cameraId != c.cameraId
    ensures var r := ParseStep(st, c);
      && r.cameras == st.cameras + [c.(marker := Some(st.nextHandle))]
      && r.markers == st.markers[st.nextHandle := false]
      && r.log == st.log + [AddedOp(st.nextHandle, c, false)]
      && r.nextHandle == st.nextHandle + 1
      && r.listTimestamp == st.listTimestamp
  {
  }

  /**
   * Whatever the case, one camera never removes a slot nor changes a slot's
   * id; slots with another id keep their whole value; the list grows by one
   * exactly when the id was not tracked, and then by a camera with that id.
   */
  lemma {:induction false} StepKeepsSlots(st: State, c: Camera)
    requires Wellformed(st) && st.initialized
    ensures var r := ParseStep(st, c);
      && |st.cameras| <= |r.cameras| <= |st.cameras| + 1
      && (forall i :: 0 <= i < |st.cameras| ==> r.cameras[i].cameraId == st.cameras[i].cameraId)
      && (forall i :: 0 <= i < |st.cameras| && st.cameras[i].cameraId != c.cameraId ==> r.cameras[i] == st.cameras[i])
      && (|r.cameras| == |st.cameras| + 1 <==> c.cameraId !in Ids(st.cameras))
      && (|r.cameras| == |st.cameras| + 1 ==> r.cameras[|st.cameras|].cameraId == c.cameraId)
      && r.listTimestamp == st.listTimestamp
  {
    var k := IndexOf(st.cameras, c);
    if k < 0 {
      UnknownIsAppended(st, c);
      assert c.cameraId !in Ids(st.cameras);
    } else {
      IndexOfIsFirst(st.cameras, c, k);
      assert st.cameras[k].cameraId in Ids(st.cameras);
      if st.cameras[k].timestamp == c.timestamp {
        KnownUnchangedIsNoOp(st, c, k);
      } else {
        KnownChangedReplacesFirst(st, c, k);
      }
    }
  }

  /** One camera adds its id to the tracked ids. */
  lemma StepIds(st: State, c: Camera)
    requires Wellformed(st) && st.initialized
    ensures Ids(ParseStep(st, c).cameras) == Ids(st.cameras) + {c.cameraId}
  {
    var r := ParseStep(st, c);
    StepKeepsSlots(st, c);
    IdsOfGrowth(st.cameras, r.cameras, c.cameraId);
  }

  /** One camera never adds a second slot for an id: the surplus of slots over ids stays. */
  lemma StepSurplus(st: State, c: Camera)
    requires Wellformed(st) && st.initialized
    ensures |ParseStep(st, c).cameras| - |Ids(ParseStep(st, c).cameras)| == |st.cameras| - |Ids(st.cameras)|
  {
    var r := ParseStep(st, c);
    StepKeepsSlots(st, c);
    IdsOfGrowth(st.cameras, r.cameras, c.cameraId);
  }

  /**
   * A list that keeps every slot's id and gains at most one slot, with id
   * `id`, exactly when `id` was absent, has the old ids plus `id`.
   */
  lemma IdsOfGrowth(s: seq<Camera>, t: seq<Camera>, id: string)
    requires |s| <= |t| <= |s| + 1
    requires forall i :: 0 <= i < |s| ==> t[i].cameraId == s[i].cameraId
    requires |t| == |s| + 1 <==> id !in Ids(s)
    requires |t| == |s| + 1 ==> t[|s|].cameraId == id
    ensures Ids(t) == Ids(s) + {id}
    ensures |t| - |Ids(t)| == |s| - |Ids(s)|
  {
    forall x | x in Ids(s)
      ensures x in Ids(t)
    {
      var i :| 0 <= i < |s| && s[i].cameraId == x;
      assert t[i].cameraId == x;
    }
    forall x | x in Ids(t)
      ensures x in Ids(s) + {id}
    {
      var i :| 0 <= i < |t| && t[i].cameraId == x;
      if i < |s| {
        assert s[i].cameraId == x;
      }
    }
    assert Ids(t) == Ids(s) + {id};
    if |t| == |s| {
      assert Ids(t) == Ids(s);
    } else {
      assert |Ids(t)| == |Ids(s)| + 1;
    }
  }

  // ---------------------------------------------------------------------------
  // A whole later batch

  /** The ids of a batch grow by the last camera's id as the prefix grows. */
  lemma IdsOfPrefix(batch: seq<Camera>, n: nat)
    requires 0 < n <= |batch|
    ensures Ids(batch[..n]) == Ids(batch[..n - 1]) + {batch[n - 1].cameraId}
  {
    var p := batch[..n];
    var q := batch[..n - 1];
    forall id | id in Ids(p)
      ensures id in Ids(q) + {batch[n - 1].cameraId}
    {
      var i :| 0 <= i < n && p[i].cameraId == id;
      if i < n - 1 {
        assert q[i] == p[i];
      }
    }
    forall id | id in Ids(q)
      ensures id in Ids(p)
    {
      var i :| 0 <= i < n - 1 && q[i].cameraId == id;
      assert p[i] == q[i];
    }
    assert p[n - 1] == batch[n - 1];
  }

  /**
   * The tracked list never shrinks: every slot keeps its id and the feed
   * timestamp does not change.
   */
  lemma {:induction false} LaterBatchNeverShrinks(st: State, batch: seq<Camera>)
    requires Wellformed(st) && st.initialized
    ensures var r := ParseBatch(st, batch);
      && |r.cameras| >= |st.cameras|
      && (forall i :: 0 <= i < |st.cameras| ==> r.cameras[i].cameraId == st.cameras[i].cameraId)
      && r.listTimestamp == st.listTimestamp
    decreases |batch|
  {
    if batch != [] {
      var n := |batch|;
      var prefix := batch[..n - 1];
      assert prefix + [batch[n - 1]] == batch;
      BatchSnoc(st, prefix, batch[n - 1]);
      LaterBatchNeverShrinks(st, prefix);
      StepKeepsSlots(ParseBatch(st, prefix), batch[n - 1]);
    }
  }

  /**
   * A tracked entry that the incoming camera does not replace (another id,
   * or the same id at the same timestamp with this entry the first holding
   * it) keeps its slot, its marker and that marker's info-window flag: an
   * open popup stays open.
   */
  lemma StepKeepsEntry(st: State, c: Camera, i: int)
    requires Wellformed(st) && st.initialized && 0 <= i < |st.cameras|
    requires c.cameraId == st.cameras[i].cameraId ==>
      FirstWithId(st.cameras, c.cameraId, i) && c.timestamp == st.cameras[i].timestamp
    ensures var r := ParseStep(st, c);
      var h := st.cameras[i].marker.value;
      && i < |r.cameras| && r.cameras[i] == st.cameras[i]
      && h in st.markers && h in r.markers && r.markers[h] == st.markers[h]
  {
    var h := st.cameras[i].marker.value;
    assert h in Handles(st.cameras);
    var k := IndexOf(st.cameras, c);
    if c.cameraId == st.cameras[i].cameraId {
      KnownUnchangedIsNoOp(st, c, i);
    } else if k < 0 {
      UnknownIsAppended(st, c);
    } else {
      IndexOfIsFirst(st.cameras, c, k);
      if st.cameras[k].timestamp == c.timestamp {
        KnownUnchangedIsNoOp(st, c, k);
      } else {
        KnownChangedReplacesFirst(st, c, k);
        assert st.cameras[k].marker != st.cameras[i].marker;
      }
    }
  }

  /**
   * A tracked entry that no camera of the batch replaces (every batch
   * camera with its id carries its timestamp, and it is the first entry
   * with that id) keeps its whole value and its marker's info-window flag
   * across the whole batch: refreshing never closes an open popup of a
   * camera that did not change.
   */
  lemma {:induction false} LaterBatchKeepsEntry(st: State, batch: seq<Camera>, i: int)
    requires Wellformed(st) && st.initialized && 0 <= i < |st.cameras|
    requires forall j :: 0 <= j < |batch| && batch[j].cameraId == st.cameras[i].cameraId ==>
      FirstWithId(st.cameras, st.cameras[i].cameraId, i) && batch[j].timestamp == st.cameras[i].timestamp
    ensures var r := ParseBatch(st, batch);
      var h := st.cameras[i].marker.value;
      && i < |r.cameras| && r.cameras[i] == st.cameras[i]
      && h in st.markers && h in r.markers && r.markers[h] == st.markers[h]
    decreases |batch|
  {
    assert st.cameras[i].marker.value in Handles(st.cameras);
    if batch != [] {
      var n := |batch|;
      var prefix := batch[..n - 1];
      var c := batch[n - 1];
      assert prefix + [c] == batch;
      assert forall j :: 0 <= j < |prefix| ==> prefix[j] == batch[j];
      LaterBatchKeepsEntry(st, prefix, i);
      LaterBatchNeverShrinks(st, prefix);
      BatchSnoc(st, prefix, c);
      var mid := ParseBatch(st, prefix);
      if c.cameraId == st.cameras[i].cameraId {
        assert FirstWithId(mid.cameras, c.cameraId, i);
      }
      StepKeepsEntry(mid, c, i);
    }
  }

  /** A tracked camera whose id the batch does not mention keeps its whole entry, marker and flag included. */
  lemma LaterBatchLeavesAbsentUntouched(st: State, batch: seq<Camera>, i: int)
    requires Wellformed(st) && st.initialized
    requires 0 <= i < |st.cameras| && st.cameras[i].cameraId !in Ids(batch)
    ensures var r := ParseBatch(st, batch);
      var h := st.cameras[i].marker.value;
      && i < |r.cameras| && r.cameras[i] == st.cameras[i]
      && h in r.markers && r.markers[h] == st.markers[h]
  {
    assert forall j :: 0 <= j < |batch| ==> batch[j].cameraId in Ids(batch);
    LaterBatchKeepsEntry(st, batch, i);
  }

  /**
   * A slot shadowed by an earlier slot with the same id is never reached by
   * `find` or `indexOf`, so one loop turn leaves it, its marker and that
   * marker's flag as they were, whatever the incoming camera.
   */
  lemma StepKeepsShadowed(st: State, c: Camera, k: int, i: int)
    requires Wellformed(st) && st.initialized
    requires 0 <= k < i < |st.cameras| && st.cameras[k].cameraId == st.cameras[i].cameraId
    ensures var r := ParseStep(st, c);
      var h := st.cameras[i].marker.value;
      && i < |r.cameras| && r.cameras[i] == st.cameras[i] && r.cameras[k].cameraId == st.cameras[k].cameraId
      && h in st.markers && h in r.markers && r.markers[h] == st.markers[h]
  {
    StepKeepsSlots(st, c);
    if c.cameraId != st.cameras[i].cameraId {
      StepKeepsEntry(st, c, i);
    } else {
      assert st.cameras[i].marker.value in Handles(st.cameras);
      assert SameCamera(c, st.cameras[k]);
      var f := IndexOf(st.cameras, c);
      IndexOfIsFirst(st.cameras, c, f);
      if st.cameras[f].timestamp == c.timestamp {
        KnownUnchangedIsNoOp(st, c, f);
      } else {
        KnownChangedReplacesFirst(st, c, f);
        assert st.cameras[f].marker != st.cameras[i].marker;
      }
    }
  }

  /**
   * A duplicate entry of the first batch that comes after another entry
   * with its id is never updated by any later batch: its value, its marker
   * and that marker's flag stay as they were, so its marker goes stale.
   */
  lemma {:induction false} ShadowedSlotUntouched(st: State, batch: seq<Camera>, k: int, i: int)
    requires Wellformed(st) && st.initialized
    requires 0 <= k < i < |st.cameras| && st.cameras[k].cameraId == st.cameras[i].cameraId
    ensures var r := ParseBatch(st, batch);
      var h := st.cameras[i].marker.value;
      && i < |r.cameras| && r.cameras[i] == st.cameras[i]
      && h in st.markers && h in r.markers && r.markers[h] == st.markers[h]
    decreases |batch|
  {
    assert st.cameras[i].marker.value in Handles(st.cameras);
    if batch != [] {
      var n := |batch|;
      var prefix := batch[..n - 1];
      var c := batch[n - 1];
      assert prefix + [c] == batch;
      ShadowedSlotUntouched(st, prefix, k, i);
      LaterBatchNeverShrinks(st, prefix);
      BatchSnoc(st, prefix, c);
      StepKeepsShadowed(ParseBatch(st, prefix), c, k, i);
    }
  }

  /** The tracked ids after a later batch are the ids before plus the batch's ids. */
  lemma {:induction false} LaterBatchIds(st: State, batch: seq<Camera>)
    requires Wellformed(st) && st.initialized
    ensures Ids(ParseBatch(st, batch).cameras) == Ids(st.cameras) + Ids(batch)
    decreases |batch|
  {
    if batch == [] {
      assert Ids(batch) == {};
    } else {
      var n := |batch|;
      LaterBatchIds(st, batch[..n - 1]);
      StepIds(ParseBatch(st, batch[..n - 1]), batch[n - 1]);
      IdsOfPrefix(batch, n);
      assert batch[..n] == batch;
    }
  }

  /**
   * The list grows by exactly the number of distinct batch ids that were not
   * tracked before (each new id is appended once, at its first occurrence).
   */
  lemma LaterBatchGrowsByNewIds(st: State, batch: seq<Camera>)
    requires Wellformed(st) && st.initialized
    ensures |ParseBatch(st, batch).cameras| == |st.cameras| + |Ids(batch) - Ids(st.cameras)|
  {
    var r := ParseBatch(st, batch);
    LaterBatchIds(st, batch);
    LengthMinusIds(st, batch);
    var held := Ids(st.cameras);
    var gained := Ids(batch) - held;
    assert Ids(r.cameras) == held + gained;
    assert held !! gained;
  }

  /** The number of surplus slots (slots beyond one per id) is what it was before the batch. */
  lemma {:induction false} LengthMinusIds(st: State, batch: seq<Camera>)
    requires Wellformed(st) && st.initialized
    ensures var r := ParseBatch(st, batch);
      |r.cameras| - |Ids(r.cameras)| == |st.cameras| - |Ids(st.cameras)|
    decreases |batch|
  {
    if batch != [] {
      LengthMinusIds(st, batch[..|batch| - 1]);
      StepSurplus(ParseBatch(st, batch[..|batch| - 1]), batch[|batch| - 1]);
    }
  }

  /** `parseCameraList` never changes the feed timestamp once the list is initialised. */
  lemma ListTimestampIsFixed(st: State, newCameraList: CameraList)
    requires Wellformed(st) && st.initialized
    ensures Parsed(st, newCameraList).listTimestamp == st.listTimestamp
  {
    LaterBatchNeverShrinks(st, newCameraList.cameras);
  }

  /** A batch with one more camera is one more turn of the loop. */
  lemma BatchSnoc(st: State, batch: seq<Camera>, c: Camera)
    requires Wellformed(st) && st.initialized
    ensures ParseBatch(st, batch + [c]) == ParseStep(ParseBatch(st, batch), c)
  {
    assert (batch + [c])[..|batch|] == batch;
  }

  /**
   * Duplicate ids in one batch are handled in turn: an untracked id seen
   * twice with two timestamps is appended by its first occurrence and then
   * replaced by its second, whose marker supersedes the first one's.
   */
  lemma DuplicateInBatchSeesFirst(st: State, a: Camera, b: Camera)
    requires Wellformed(st) && st.initialized
    requires a.cameraId == b.cameraId && a.cameraId !in Ids(st.cameras)
    requires a.timestamp != b.timestamp
    ensures var r := ParseBatch(st, [a, b]);
      var h := st.nextHandle;
      && r.cameras == st.cameras + [b.(marker := Some(h + 1))]
      && r.markers == st.markers[h + 1 := false]
      && r.log == st.log + [AddedOp(h, a, false), Removed(h), AddedOp(h + 1, b, false)]
  {
    BatchSnoc(st, [], a);
    assert [] + [a] == [a] && [a] + [b] == [a, b];
    BatchSnoc(st, [a], b);
    var mid := ParseBatch(st, [a]);
    assert forall i :: 0 <= i < |st.cameras| ==> st.cameras[i].cameraId in Ids(st.cameras);
    UnknownIsAppended(st, a);
    SecondOccurrenceReplaces(st, mid, a, b);
  }

  /** The second half of `DuplicateInBatchSeesFirst`: the second occurrence meets the first one's entry. */
  lemma SecondOccurrenceReplaces(st: State, mid: State, a: Camera, b: Camera)
    requires Wellformed(mid) && mid.initialized
    requires forall h :: h in st.markers ==> h < st.nextHandle
    requires a.cameraId == b.cameraId && a.timestamp != b.timestamp
    requires forall i :: 0 <= i < |st.cameras| ==> st.cameras[i].cameraId != a.cameraId
    requires mid.cameras == st.cameras + [a.(marker := Some(st.nextHandle))]
    requires mid.markers == st.markers[st.nextHandle := false]
    requires mid.log == st.log + [AddedOp(st.nextHandle, a, false)]
    requires mid.nextHandle == st.nextHandle + 1
    ensures var r := ParseStep(mid, b);
      var h := st.nextHandle;
      && r.cameras == st.cameras + [b.(marker := Some(h + 1))]
      && r.markers == st.markers[h + 1 := false]
      && r.log == st.log + [AddedOp(h, a, false), Removed(h), AddedOp(h + 1, b, false)]
  {
    var h := st.nextHandle;
    var n := |st.cameras|;
    assert FirstWithId(mid.cameras, b.cameraId, n);
    KnownChangedReplacesFirst(mid, b, n);
    var r := ParseStep(mid, b);
    assert r.cameras == st.cameras + [b.(marker := Some(h + 1))];
    assert mid.markers - {h} == st.markers;
  }

  // ---------------------------------------------------------------------------
  // Re-parsing the same batch

  /** A camera of another id does not change which entry `find` returns for an id. */
  lemma FindUnaffected(st: State, c: Camera, e: Camera)
    requires Wellformed(st) && st.initialized
    requires e.cameraId != c.cameraId
    ensures Find(ParseStep(st, c).cameras, e.cameraId) == Find(st.cameras, e.cameraId)
  {
    var r := ParseStep(st, c);
    StepKeepsSlots(st, c);
    FindAgreesWithIndexOf(st.cameras, e);
    FindAgreesWithIndexOf(r.cameras, e);
    var k := IndexOf(st.cameras, e);
    if k >= 0 {
      IndexOfIsFirst(st.cameras, e, k);
      IndexOfIsFirst(r.cameras, e, k);
    } else {
      assert forall i :: 0 <= i < |r.cameras| ==> r.cameras[i].cameraId != e.cameraId;
    }
  }

  /** The entry `find` returns for `c`'s id carries `c`'s timestamp. */
  ghost predicate UpToDate(cameras: seq<Camera>, c: Camera)
  {
    Find(cameras, c.cameraId).Some? && Find(cameras, c.cameraId).value.timestamp == c.timestamp
  }

  /** After a camera is handled, `find` for its id returns an entry with its timestamp. */
  lemma StepTracksTimestamp(st: State, c: Camera)
    requires Wellformed(st) && st.initialized
    ensures UpToDate(ParseStep(st, c).cameras, c)
  {
    var r := ParseStep(st, c);
    var k := IndexOf(st.cameras, c);
    FindAgreesWithIndexOf(st.cameras, c);
    FindAgreesWithIndexOf(r.cameras, c);
    if k < 0 {
      UnknownIsAppended(st, c);
      IndexOfIsFirst(r.cameras, c, |st.cameras|);
    } else {
      IndexOfIsFirst(st.cameras, c, k);
      if st.cameras[k].timestamp == c.timestamp {
        KnownUnchangedIsNoOp(st, c, k);
      } else {
        KnownChangedReplacesFirst(st, c, k);
        IndexOfIsFirst(r.cameras, c, k);
      }
    }
  }

  /** Handling a camera leaves it and every other id up to date. */
  lemma StepKeepsUpToDate(st: State, c: Camera, others: seq<Camera>)
    requires Wellformed(st) && st.initialized
    requires forall j :: 0 <= j < |others| ==> others[j].cameraId != c.cameraId && UpToDate(st.cameras, others[j])
    ensures UpToDate(ParseStep(st, c).cameras, c)
    ensures forall j :: 0 <= j < |others| ==> UpToDate(ParseStep(st, c).cameras, others[j])
  {
    StepTracksTimestamp(st, c);
    forall j | 0 <= j < |others|
      ensures UpToDate(ParseStep(st, c).cameras, others[j])
    {
      FindUnaffected(st, c, others[j]);
    }
  }

  /** Slot `j` holds the last occurrence of its id in `batch`. */
  ghost predicate LastOf(batch: seq<Camera>, j: int)
  {
    0 <= j < |batch| && forall j' :: j < j' < |batch| ==> batch[j'].cameraId != batch[j].cameraId
  }

  /**
   * The last occurrence of each id wins: after any later batch, repeated ids
   * included, `find` returns for each batch id an entry carrying the
   * timestamp of that id's last camera in the batch.
   */
  lemma {:induction false} BatchTracksTimestamps(st: State, batch: seq<Camera>)
    requires Wellformed(st) && st.initialized
    ensures forall j :: LastOf(batch, j) ==> UpToDate(ParseBatch(st, batch).cameras, batch[j])
    decreases |batch|
  {
    if batch != [] {
      var n := |batch|;
      var prefix := batch[..n - 1];
      var c := batch[n - 1];
      BatchTracksTimestamps(st, prefix);
      assert prefix + [c] == batch;
      BatchSnoc(st, prefix, c);
      var mid := ParseBatch(st, prefix);
      StepTracksTimestamp(mid, c);
      forall j | LastOf(batch, j)
        ensures UpToDate(ParseStep(mid, c).cameras, batch[j])
      {
        if j < n - 1 {
          assert batch[j] == prefix[j];
          assert LastOf(prefix, j);
          FindUnaffected(mid, c, batch[j]);
        }
      }
    }
  }

  /** With distinct ids every camera is the last of its id, so every batch camera is up to date afterwards. */
  lemma DistinctBatchTracksTimestamps(st: State, batch: seq<Camera>)
    requires Wellformed(st) && st.initialized
    requires forall i, j :: 0 <= i < j < |batch| ==> batch[i].cameraId != batch[j].cameraId
    ensures forall j :: 0 <= j < |batch| ==> UpToDate(ParseBatch(st, batch).cameras, batch[j])
  {
    BatchTracksTimestamps(st, batch);
    assert forall j :: 0 <= j < |batch| ==> LastOf(batch, j);
  }

  /** A batch every camera of which is already up to date changes nothing. */
  lemma {:induction false} TrackedBatchIsNoOp(st: State, batch: seq<Camera>)
    requires Wellformed(st) && st.initialized
    requires forall j :: 0 <= j < |batch| ==> UpToDate(st.cameras, batch[j])
    ensures ParseBatch(st, batch) == st
    decreases |batch|
  {
    if batch != [] {
      var n := |batch|;
      var c := batch[n - 1];
      TrackedBatchIsNoOp(st, batch[..n - 1]);
      FindAgreesWithIndexOf(st.cameras, c);
      var k := IndexOf(st.cameras, c);
      IndexOfIsFirst(st.cameras, c, k);
      KnownUnchangedIsNoOp(st, c, k);
    }
  }

  /**
   * Idempotence: reconciling the same later batch (ids distinct) a second
   * time changes neither the tracked list nor the map nor the log.
   */
  lemma ReparseIsNoOp(st: State, batch: seq<Camera>)
    requires Wellformed(st) && st.initialized
    requires forall i, j :: 0 <= i < j < |batch| ==> batch[i].cameraId != batch[j].cameraId
    ensures ParseBatch(ParseBatch(st, batch), batch) == ParseBatch(st, batch)
  {
    DistinctBatchTracksTimestamps(st, batch);
    TrackedBatchIsNoOp(ParseBatch(st, batch), batch);
  }

  /**
   * Without distinct ids, reconciling the same batch again is not a no-op:
   * an untracked id seen twice with two timestamps ends at the second one,
   * so the next identical batch replaces that entry twice more, removing
   * and recreating its marker on every refresh.
   */
  lemma RepeatedIdReparseIsNotNoOp(st: State, a: Camera, b: Camera)
    requires Wellformed(st) && st.initialized
    requires a.cameraId == b.cameraId && a.cameraId !in Ids(st.cameras)
    requires a.timestamp != b.timestamp
    ensures var once := ParseBatch(st, [a, b]);
      ParseBatch(once, [a, b]).nextHandle == once.nextHandle + 2
  {
    var n := |st.cameras|;
    var once := ParseBatch(st, [a, b]);
    DuplicateInBatchSeesFirst(st, a, b);
    assert forall i :: 0 <= i < n ==> st.cameras[i].cameraId in Ids(st.cameras);
    assert once.cameras[n] == b.(marker := Some(st.nextHandle + 1));
    assert FirstWithId(once.cameras, a.cameraId, n);
    ReplacedTwice(once, a, b, n);
  }

  /** The second half of `RepeatedIdReparseIsNotNoOp`: both occurrences meet an entry with the other timestamp. */
  lemma ReplacedTwice(once: State, a: Camera, b: Camera, n: int)
    requires Wellformed(once) && once.initialized
    requires a.cameraId == b.cameraId && a.timestamp != b.timestamp
    requires FirstWithId(once.cameras, a.cameraId, n) && once.cameras[n].timestamp == b.timestamp
    ensures ParseBatch(once, [a, b]).nextHandle == once.nextHandle + 2
  {
    KnownChangedReplacesFirst(once, a, n);
    var mid := ParseStep(once, a);
    assert FirstWithId(mid.cameras, b.cameraId, n);
    KnownChangedReplacesFirst(mid, b, n);
    BatchSnoc(once, [], a);
    BatchSnoc(once, [a], b);
    assert [] + [a] == [a] && [a] + [b] == [a, b];
  }
}
