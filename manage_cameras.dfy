/**
 * frontend/src/pages/ManageCameras.jsx: the camera list page. The search, and the local
 * list updates the page makes before (and whatever the outcome of) its API calls: save
 * (edit or create), toggle and remove. `parseFloat` is an abstract function passed in.
 */
module ManageCameras {
  import opened Common

  /** A camera as the page keeps it. */
  datatype CameraView = CameraView(
    id: int, name: string, location: string, isActive: bool, cameraType: string,
    streamUrl: Option<string>, deviceId: Option<string>,
    latitude: Option<real>, longitude: Option<real>)

  /** The modal's form fields. */
  datatype Form = Form(name: string, location: string, cameraType: string, streamUrl: string,
                       deviceId: string, latitude: string, longitude: string)

  /** `cameraData`, the fields a save writes. */
  datatype CameraData = CameraData(name: string, location: string, cameraType: string,
                                   streamUrl: Option<string>, deviceId: Option<string>,
                                   latitude: Option<real>, longitude: Option<real>)

  /** Whether c matches the normalised query q. */
  predicate Matches(c: CameraView, q: string)
  {
    Contains(Lower(c.name), q) || Contains(Lower(c.location), q)
  }

  /** `filtered`: the whole list for a blank query, else the cameras whose name or location match. */
  function Filtered(cameras: seq<CameraView>, query: string): (r: seq<CameraView>)
    ensures Lower(Trim(query)) == "" ==> r == cameras
    ensures forall c :: c in r <==> c in cameras && (Lower(Trim(query)) == "" || Matches(c, Lower(Trim(query))))
  {
    var q := Lower(Trim(query));
    if q == "" then cameras else FilterMatching(cameras, q)
  }

  function FilterMatching(cameras: seq<CameraView>, q: string): (r: seq<CameraView>)
    ensures |r| <= |cameras|
    ensures forall c :: c in r <==> c in cameras && Matches(c, q)
  {
    if cameras == [] then []
    else
      var init, last := cameras[..|cameras| - 1], cameras[|cameras| - 1];
      assert forall c :: c in cameras <==> c in init || c == last;
      FilterMatching(init, q) + (if Matches(last, q) then [last] else [])
  }

  /**
   * Filtering distributes over concatenation; with the membership and length clauses on a
   * single element, this fixes the matching cameras as the input's matches in input order.
   */
  lemma {:induction false} FilterMatchingAppend(a: seq<CameraView>, b: seq<CameraView>, q: string)
    ensures FilterMatching(a + b, q) == FilterMatching(a, q) + FilterMatching(b, q)
  {
    if b == [] {
      assert a + b == a;
    } else {
      var init, last := b[..|b| - 1], b[|b| - 1];
      var tail := if Matches(last, q) then [last] else [];
      assert (a + b)[..|a + b| - 1] == a + init;
      assert (a + b)[|a + b| - 1] == last;
      assert FilterMatching(b, q) == FilterMatching(init, q) + tail;
      FilterMatchingAppend(a, init, q);
      calc {
        FilterMatching(a + b, q);
        FilterMatching(a + init, q) + tail;
        (FilterMatching(a, q) + FilterMatching(init, q)) + tail;
        FilterMatching(a, q) + (FilterMatching(init, q) + tail);
      }
    }
  }

  /** A query of spaces only shows every camera. */
  lemma BlankQueryShowsAll(cameras: seq<CameraView>, query: string)
    requires forall i :: 0 <= i < |query| ==> IsSpace(query[i])
    ensures Filtered(cameras, query) == cameras
  {
    TrimEmptyIff(query);
  }

  /**
   * saveCamera's payload: trimmed name and location; the stream URL only for an rtsp
   * camera and the device id only for a usb one; empty coordinates become null.
   */
  function Payload(form: Form, parseFloat: string -> real): (d: CameraData)
    ensures d.name == Trim(form.name) && d.location == Trim(form.location) && d.cameraType == form.cameraType
    ensures d.streamUrl.Some? <==> form.cameraType == "rtsp"
    ensures d.deviceId.Some? <==> form.cameraType == "usb"
    ensures d.streamUrl.Some? ==> d.streamUrl.value == form.streamUrl
    ensures d.deviceId.Some? ==> d.deviceId.value == form.deviceId
    ensures d.latitude.None? <==> form.latitude == ""
    ensures d.longitude.None? <==> form.longitude == ""
  {
    CameraData(Trim(form.name), Trim(form.location), form.cameraType,
               if form.cameraType == "rtsp" then Some(form.streamUrl) else None,
               if form.cameraType == "usb" then Some(form.deviceId) else None,
               if form.latitude != "" then Some(parseFloat(form.latitude)) else None,
               if form.longitude != "" then Some(parseFloat(form.longitude)) else None)
  }

  /** `{...c, ...cameraData}`: the payload's fields over the camera's, id and is_active kept. */
  function Merge(c: CameraView, d: CameraData): (r: CameraView)
    ensures r.id == c.id && r.isActive == c.isActive
    ensures r.name == d.name && r.location == d.location && r.cameraType == d.cameraType
    ensures r.streamUrl == d.streamUrl && r.deviceId == d.deviceId
    ensures r.latitude == d.latitude && r.longitude == d.longitude
  {
    CameraView(c.id, d.name, d.location, c.isActive, d.cameraType, d.streamUrl, d.deviceId, d.latitude, d.longitude)
  }

  /** The edit branch: `prev.map(c => c.id === id ? {...c, ...cameraData} : c)`. */
  function EditCameras(cameras: seq<CameraView>, id: int, d: CameraData): (r: seq<CameraView>)
    ensures |r| == |cameras|
    ensures forall i :: 0 <= i < |cameras| && cameras[i].id == id ==> r[i] == Merge(cameras[i], d)
    ensures forall i :: 0 <= i < |cameras| && cameras[i].id != id ==> r[i] == cameras[i]
  {
    if cameras == [] then []
    else [if cameras[0].id == id then Merge(cameras[0], d) else cameras[0]] + EditCameras(cameras[1..], id, d)
  }

  /** `Math.max(0, ...cameras.map(c => c.id)) + 1`. */
  function NewCameraId(cameras: seq<CameraView>): (id: int)
    ensures id >= 1
    ensures forall i :: 0 <= i < |cameras| ==> cameras[i].id < id
  {
    if cameras == [] then 1 else MaxI(cameras[0].id + 1, NewCameraId(cameras[1..]))
  }

  /** The new camera: fresh id, the payload, active. */
  function NewCamera(cameras: seq<CameraView>, d: CameraData): (c: CameraView)
    ensures c.id == NewCameraId(cameras) && c.isActive
    ensures forall i :: 0 <= i < |cameras| ==> cameras[i].id != c.id
  {
    CameraView(NewCameraId(cameras), d.name, d.location, true, d.cameraType, d.streamUrl, d.deviceId,
               d.latitude, d.longitude)
  }

  /** toggleActive: `prev.map(c => c.id === id ? {...c, is_active: !c.is_active} : c)`. */
  function ToggleCameras(cameras: seq<CameraView>, id: int): (r: seq<CameraView>)
    ensures |r| == |cameras|
    ensures forall i :: 0 <= i < |cameras| && cameras[i].id == id ==>
              r[i] == cameras[i].(isActive := !cameras[i].isActive)
    ensures forall i :: 0 <= i < |cameras| && cameras[i].id != id ==> r[i] == cameras[i]
  {
    if cameras == [] then []
    else [if cameras[0].id == id then cameras[0].(isActive := !cameras[0].isActive) else cameras[0]]
         + ToggleCameras(cameras[1..], id)
  }

  /** Toggling the same camera twice restores the list. */
  lemma ToggleTwice(cameras: seq<CameraView>, id: int)
    ensures ToggleCameras(ToggleCameras(cameras, id), id) == cameras
  {
    var r := ToggleCameras(ToggleCameras(cameras, id), id);
    assert forall i :: 0 <= i < |cameras| ==> r[i] == cameras[i];
  }

  /** removeCamera: `prev.filter(c => c.id !== id)`. */
  function WithoutCamera(cameras: seq<CameraView>, id: int): seq<CameraView>
  {
    if cameras == [] then []
    else
      (if cameras[0].id != id then [cameras[0]] else []) + WithoutCamera(cameras[1..], id)
  }

  /** What stays is exactly the cameras with another id. */
  lemma {:induction false} WithoutCameraMembers(cameras: seq<CameraView>, id: int)
    ensures |WithoutCamera(cameras, id)| <= |cameras|
    ensures forall c :: c in WithoutCamera(cameras, id) <==> c in cameras && c.id != id
  {
    if cameras != [] {
      WithoutCameraMembers(cameras[1..], id);
      assert forall c :: c in cameras <==> c == cameras[0] || c in cameras[1..];
    }
  }

  /** Removing distributes over concatenation, so it keeps the order of what stays. */
  lemma {:induction false} WithoutCameraAppend(a: seq<CameraView>, b: seq<CameraView>, id: int)
    ensures WithoutCamera(a + b, id) == WithoutCamera(a, id) + WithoutCamera(b, id)
  {
    if a == [] {
      assert a + b == b;
    } else {
      var head := if a[0].id != id then [a[0]] else [];
      WithoutCameraAppend(a[1..], b, id);
      assert (a + b)[1..] == a[1..] + b;
      assert WithoutCamera(a + b, id) == head + WithoutCamera(a[1..] + b, id);
      assert WithoutCamera(a, id) == head + WithoutCamera(a[1..], id);
    }
  }

  /** Removing an id no camera has leaves the list as it is. */
  lemma {:induction false} WithoutAbsentCamera(cameras: seq<CameraView>, id: int)
    requires forall i :: 0 <= i < |cameras| ==> cameras[i].id != id
    ensures WithoutCamera(cameras, id) == cameras
  {
    if cameras != [] {
      WithoutAbsentCamera(cameras[1..], id);
    }
  }

  /** Removing the one camera with an id cuts it out and keeps the others in their order. */
  lemma WithoutCameraCutsOne(pre: seq<CameraView>, c: CameraView, post: seq<CameraView>)
    requires forall i :: 0 <= i < |pre| ==> pre[i].id != c.id
    requires forall i :: 0 <= i < |post| ==> post[i].id != c.id
    ensures WithoutCamera(pre + [c] + post, c.id) == pre + post
  {
    var front := pre + [c];
    WithoutCameraAppend(front, post, c.id);
    WithoutCameraAppend(pre, [c], c.id);
    assert WithoutCamera([c], c.id) == [] by {
      assert [c][1..] == [];
    }
    WithoutAbsentCamera(pre, c.id);
    WithoutAbsentCamera(post, c.id);
    assert WithoutCamera(front, c.id) == pre by {
      assert pre + [] == pre;
    }
  }

  class CamerasPage {
    var cameras: seq<CameraView>
    var editing: Option<CameraView>
    var modalOpen: bool

    constructor()
      ensures cameras == [] && editing.None? && !modalOpen
    {
      cameras := [];
      editing := None;
      modalOpen := false;
    }

    /**
     * saveCamera: a blank name changes nothing; an edit merges the payload into the
     * cameras with the edited id; a creation prepends an active camera with a fresh id.
     */
    method SaveCamera(form: Form, parseFloat: string -> real)
      modifies this
      ensures Trim(form.name) == "" ==> cameras == old(cameras) && modalOpen == old(modalOpen)
      ensures Trim(form.name) != "" && old(editing).Some? ==>
                cameras == EditCameras(old(cameras), old(editing).value.id, Payload(form, parseFloat))
      ensures Trim(form.name) != "" && old(editing).None? ==>
                && cameras == [NewCamera(old(cameras), Payload(form, parseFloat))] + old(cameras)
      ensures Trim(form.name) != "" ==> !modalOpen
      ensures editing == old(editing)
    {
      var data := Payload(form, parseFloat);
      if data.name == "" {
        return;
      }
      if editing.Some? {
        cameras := EditCameras(cameras, editing.value.id, data);
      } else {
        var newCam := NewCamera(cameras, data);
        cameras := [newCam] + cameras;
      }
      modalOpen := false;
    }

    method ToggleActive(id: int)
      modifies this
      ensures cameras == ToggleCameras(old(cameras), id)
      ensures editing == old(editing) && modalOpen == old(modalOpen)
    {
      cameras := ToggleCameras(cameras, id);
    }

    method RemoveCamera(id: int)
      modifies this
      ensures cameras == WithoutCamera(old(cameras), id)
      ensures editing == old(editing) && modalOpen == old(modalOpen)
    {
      cameras := WithoutCamera(cameras, id);
    }
  }
}
