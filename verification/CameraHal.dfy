/** CameraHalManager: the objects behind the ids. */
module CameraHal {
  import opened Wrappers
  import opened HalIds

  class CameraHalManager {
    var cameraIds: map<string, nat>    // cameraIdsMap_
    var cameras: seq<Device>
    var numInternal: nat
    var nextExternal: nat
    var callbacks: bool
    ghost var state: Manager           // these fields, the order of the ids, and the notifications

    ghost predicate Valid()
      reads this
    {
      && state.ids == cameraIds && state.devices == cameras && state.callbacks == callbacks
      && numInternal == |state.internal| && nextExternal == FIRST_EXTERNAL + |state.external|
    }

    constructor ()
      ensures Valid() && state == Initial()
    {
      cameraIds, cameras, callbacks := map[], [], false;
      numInternal, nextExternal := 0, FIRST_EXTERNAL;
      state := Initial();
    }

    /** `initialized` says whether the new device could be initialized; the result is what is told. */
    method CameraAdded(camera: Camera, initialized: bool) returns (notes: seq<Note>)
      requires Valid()
      modifies this
      ensures Valid() && state == Step(old(state), Added(camera, initialized))
      ensures !initialized ==>
        && cameraIds == old(cameraIds) && cameras == old(cameras) && notes == []
        && numInternal == old(numInternal) && nextExternal == old(nextExternal)
      ensures state.notes == old(state.notes) + notes
    {
      notes := [];
      var id := 0;
      var isCameraExternal, isCameraNew := false, false;
      if camera.name in cameraIds {
        id := cameraIds[camera.name];
      } else {
        isCameraNew := true;
        if camera.external {
          isCameraExternal := true;
          id := nextExternal;
        } else {
          id := numInternal;
        }
      }
      if !initialized {
        return;
      }
      state := Add(state, camera);
      if isCameraNew {
        cameraIds := cameraIds[camera.name := id];
        if isCameraExternal {
          nextExternal := nextExternal + 1;
        } else {
          numInternal := numInternal + 1;
        }
      }
      cameras := cameras + [Device(id, camera)];
      if callbacks {
        notes := [Note(id, true)];
      }
    }

    /** `defined` is false where the source calls through callbacks that nobody has set. */
    method CameraRemoved(camera: Camera) returns (notes: seq<Note>, defined: bool)
      requires Valid()
      modifies this
      ensures Valid() && defined == (NeedsCallbacks(old(state), camera) ==> callbacks)
      ensures state == if defined then Step(old(state), Removed(camera)) else old(state)
      ensures state.notes == old(state.notes) + notes
    {
      notes, defined := [], true;
      var k := FindCamera(camera);
      if k == |cameras| {
        return;
      }
      if cameras[k].id >= FIRST_EXTERNAL {
        if !callbacks {
          defined := false;
          return;
        }
        notes := [Note(cameras[k].id, false)];
      }
      state := Remove(state, camera);
      cameras := cameras[..k] + cameras[k + 1..];
    }

    /** find_if by the camera. */
    method FindCamera(camera: Camera) returns (k: nat)
      ensures k == IndexOf(cameras, camera)
    {
      k := 0;
      while k < |cameras| && cameras[k].camera != camera
        invariant k <= |cameras| && forall j :: 0 <= j < k ==> cameras[j].camera != camera
      {
        k := k + 1;
      }
    }

    method DeviceFromHalId(id: nat) returns (device: Option<Device>)
      ensures device == DeviceFromId(cameras, id)
    {
      var k := 0;
      while k < |cameras| && cameras[k].id != id
        invariant k <= |cameras| && DeviceFromId(cameras[..k], id) == None
      {
        k := k + 1;
        FirstWithId(cameras, k, id);
      }
      if k == |cameras| {
        device := None;
        assert cameras[..k] == cameras;
      } else {
        device := Some(cameras[k]);
        FirstWithId(cameras, k + 1, id);
        FoundStays(cameras, k + 1, id);
      }
    }

    /** The external cameras found before the callbacks were set are announced now. */
    method SetCallbacks() returns (notes: seq<Note>)
      requires Valid()
      modifies this
      ensures Valid() && state == Step(old(state), HalIds.SetCallbacks)
      ensures state.notes == old(state.notes) + notes
    {
      callbacks := true;
      notes := [];
      for k := 0 to |cameras|
        invariant notes == Announced(cameras[..k])
      {
        assert cameras[..k + 1][..k] == cameras[..k];
        if cameras[k].id >= FIRST_EXTERNAL {
          notes := notes + [Note(cameras[k].id, true)];
        }
      }
      assert cameras[..|cameras|] == cameras;
      state := Step(state, HalIds.SetCallbacks);
    }
  }

  lemma FirstWithId(devices: seq<Device>, k: nat, id: nat)
    requires 0 < k <= |devices| && DeviceFromId(devices[..k - 1], id) == None
    ensures DeviceFromId(devices[..k], id) == if devices[k - 1].id == id then Some(devices[k - 1]) else None
  {
    assert devices[..k][..k - 1] == devices[..k - 1];
  }

  lemma {:induction false} FoundStays(devices: seq<Device>, k: nat, id: nat)
    requires k <= |devices| && DeviceFromId(devices[..k], id).Some?
    ensures DeviceFromId(devices, id) == DeviceFromId(devices[..k], id)
  {
    if k == |devices| {
      assert devices[..k] == devices;
    } else {
      var n := |devices| - 1;
      assert devices[..n][..k] == devices[..k];
      FoundStays(devices[..n], k, id);
    }
  }
}
