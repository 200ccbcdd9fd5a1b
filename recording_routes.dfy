/**
 * The recording lifecycle of backend/app/routes/api/recording_routes.py: a recording is
 * registered with status 'recording' against a resolved (or auto-created) camera, becomes
 * 'completed' on upload or completion, may be streamed only once completed, and is listed
 * newest first with filters and offset/limit paging.
 *
 * The camera and recording tables are sequences in primary-key order. The clock is an
 * input: a `Timestamp` carries the instant in seconds and its `%Y-%m-%d` and `%H-%M-%S`
 * renderings.
 */
module RecordingRoutes {
  import opened Common
  import opened Sorting

  datatype Timestamp = Timestamp(seconds: real, ymd: string, hms: string)

  datatype Camera = Camera(
    id: int, name: string, cameraType: string, deviceId: Option<string>, location: Option<string>,
    latitude: Option<real>, longitude: Option<real>, status: bool)

  datatype Recording = Recording(
    id: int, cameraId: int, filename: string, filePath: string, startTime: Timestamp,
    endTime: Option<Timestamp>, duration: Option<int>, fileSize: Option<int>,
    latitude: Option<real>, longitude: Option<real>, locationName: Option<string>,
    status: string, userId: Option<int>)

  const AllowedVideo: set<string> := {"webm", "mp4", "mkv", "avi"}

  /** allowed_file: a dot, and a video extension after the last dot, in any case. */
  function AllowedFile(filename: string): (r: bool)
    ensures r <==> exists i :: 0 <= i < |filename| && filename[i] == '.'
                             && (forall j :: i < j < |filename| ==> filename[j] != '.')
                             && Lower(filename[i + 1..]) in AllowedVideo
  {
    AllowedExtension(filename, AllowedVideo)
  }

  /** The extension is matched case-insensitively, after the last dot only. */
  lemma AllowedFileAccepts()
    ensures AllowedFile("clip.MP4") && AllowedFile("a.b.webm")
  {
    assert "clip.MP4"[4] == '.' && Lower("clip.MP4"[5..]) == "mp4";
    assert "a.b.webm"[3] == '.' && Lower("a.b.webm"[4..]) == "webm";
  }

  /** A bare extension with no dot is refused. */
  lemma BareExtensionRejected()
    ensures !AllowedFile("webm")
  {
  }

  /** A video extension followed by another one is refused. */
  lemma InnerExtensionRejected()
    ensures !AllowedFile("clip.webm.txt")
  {
    var t := "clip.webm.txt";
    forall i | 0 <= i < |t| && t[i] == '.' && (forall j :: i < j < |t| ==> t[j] != '.')
      ensures i == 9
    {
      assert t[9] == '.';
    }
    assert Lower(t[10..]) == "txt";
  }

  /** The JSON `camera_id`: absent or null, an integer, or a string (booleans and floats are not represented). */
  datatype CameraArg = NoCameraId | IntId(n: int) | StrId(s: string)

  /** Python truthiness of the argument: None, 0 and "" are false. */
  predicate Given(arg: CameraArg)
  {
    match arg
    case NoCameraId => false
    case IntId(n) => n != 0
    case StrId(s) => s != ""
  }

  /** `str(camera_id)`. */
  function ArgText(arg: CameraArg): string
  {
    match arg
    case NoCameraId => "None"
    case IntId(n) => IntToString(n)
    case StrId(s) => s
  }

  /** The primary key tried first: an int, or a string of digits converted with int(). */
  function NumericId(arg: CameraArg): (r: Option<int>)
    ensures r.Some? <==> arg.IntId? || (arg.StrId? && IsDigitString(arg.s))
  {
    match arg
    case NoCameraId => None
    case IntId(n) => Some(n)
    case StrId(s) => if IsDigitString(s) then Some(DigitsValue(s)) else None
  }

  /** A camera id sent as the text of a number is read back as that number. */
  lemma DigitTextReadsBack(n: nat)
    ensures NumericId(StrId(NatToString(n))) == Some(n)
  {
    NatToStringDigits(n);
  }

  /** `Camera.query.get(id)`: the index of the row with that primary key. */
  function CameraIndexById(cameras: seq<Camera>, id: int): (r: Option<nat>)
    ensures r.Some? ==> r.value < |cameras| && cameras[r.value].id == id
    ensures r.None? ==> forall i :: 0 <= i < |cameras| ==> cameras[i].id != id
  {
    if cameras == [] then None
    else if cameras[0].id == id then Some(0)
    else
      var t := CameraIndexById(cameras[1..], id);
      if t.None? then None else Some(t.value + 1)
  }

  /** `Camera.query.filter_by(device_id=…).first()`. */
  function CameraIndexByDevice(cameras: seq<Camera>, device: string): (r: Option<nat>)
    ensures r.Some? ==> r.value < |cameras| && cameras[r.value].deviceId == Some(device)
    ensures r.Some? ==> forall i :: 0 <= i < r.value ==> cameras[i].deviceId != Some(device)
    ensures r.None? ==> forall i :: 0 <= i < |cameras| ==> cameras[i].deviceId != Some(device)
  {
    if cameras == [] then None
    else if cameras[0].deviceId == Some(device) then Some(0)
    else
      var t := CameraIndexByDevice(cameras[1..], device);
      if t.None? then None else Some(t.value + 1)
  }

  datatype CameraChoice = Existing(index: nat) | AutoCreate

  /** Which camera start_recording records against: by primary key, then device id, else a new one. */
  function ResolveCamera(cameras: seq<Camera>, arg: CameraArg): (c: CameraChoice)
    ensures c.Existing? ==> c.index < |cameras|
    ensures NumericId(arg).Some? && CameraIndexById(cameras, NumericId(arg).value).Some? ==>
              c.Existing? && cameras[c.index].id == NumericId(arg).value
    ensures (NumericId(arg).None? || CameraIndexById(cameras, NumericId(arg).value).None?) ==>
              (c.Existing? <==> CameraIndexByDevice(cameras, ArgText(arg)).Some?)
    ensures (NumericId(arg).None? || CameraIndexById(cameras, NumericId(arg).value).None?) && c.Existing? ==>
              cameras[c.index].deviceId == Some(ArgText(arg))
  {
    var byId := if NumericId(arg).Some? then CameraIndexById(cameras, NumericId(arg).value) else None;
    if byId.Some? then Existing(byId.value)
    else
      var byDevice := CameraIndexByDevice(cameras, ArgText(arg));
      if byDevice.Some? then Existing(byDevice.value) else AutoCreate
  }

  /** Python `a or b` on optional values: a when it is truthy. */
  function OrReal(a: Option<real>, b: Option<real>): Option<real>
  {
    if a.Some? && a.value != 0.0 then a else b
  }

  function OrText(a: Option<string>, b: Option<string>): Option<string>
  {
    if a.Some? && a.value != "" then a else b
  }

  /** The webcam row auto-created for an unknown camera id. */
  function NewCamera(id: int, arg: CameraArg, cameraName: Option<string>, locationName: Option<string>,
                     latitude: Option<real>, longitude: Option<real>): (c: Camera)
    ensures c.id == id && c.cameraType == "webcam" && c.status
    ensures c.deviceId == Some(ArgText(arg))
    ensures cameraName.Some? && cameraName.value != "" ==> c.name == cameraName.value
    ensures !(cameraName.Some? && cameraName.value != "") ==> c.name == "Webcam " + Take(ArgText(arg), 8)
    ensures c.location == if locationName.Some? && locationName.value != "" then locationName else Some("Local Device")
  {
    Camera(id,
           if cameraName.Some? && cameraName.value != "" then cameraName.value else "Webcam " + Take(ArgText(arg), 8),
           "webcam", Some(ArgText(arg)), OrText(locationName, Some("Local Device")), latitude, longitude, true)
  }

  /** `recording_<camera id>_<HH-MM-SS>.webm`. */
  function RecordingFilename(cameraId: int, now: Timestamp): string
  {
    "recording_" + IntToString(cameraId) + "_" + now.hms + ".webm"
  }

  /** The new recording row, against camera `cam`. */
  function NewRecording(id: int, cam: Camera, now: Timestamp, locationName: Option<string>,
                        latitude: Option<real>, longitude: Option<real>, userId: Option<int>): (r: Recording)
    ensures r.id == id && r.cameraId == cam.id && r.status == "recording"
    ensures r.filename == RecordingFilename(cam.id, now)
    ensures r.filePath == IntToString(cam.id) + "/" + now.ymd + "/" + r.filename
    ensures r.startTime == now && r.endTime.None? && r.duration.None? && r.fileSize.None?
  {
    var filename := RecordingFilename(cam.id, now);
    Recording(id, cam.id, filename, IntToString(cam.id) + "/" + now.ymd + "/" + filename, now,
              None, None, None, OrReal(latitude, cam.latitude), OrReal(longitude, cam.longitude),
              OrText(locationName, cam.location), "recording", userId)
  }

  /** The generated file name passes the upload extension check whatever the time rendering. */
  lemma RecordingFilenameAllowed(cameraId: int, now: Timestamp)
    ensures AllowedFile(RecordingFilename(cameraId, now))
  {
    var f := RecordingFilename(cameraId, now);
    var i := |f| - 5;
    assert f[i..] == ".webm";
    assert f[i] == '.';
    assert forall j :: i < j < |f| ==> f[j] != '.';
    assert Lower(f[i + 1..]) == "webm";
  }

  function NextRecordingId(recordings: seq<Recording>): (id: int)
    ensures forall i :: 0 <= i < |recordings| ==> recordings[i].id < id
  {
    if recordings == [] then 1
    else
      var rest := NextRecordingId(recordings[..|recordings| - 1]);
      MaxI(rest, recordings[|recordings| - 1].id + 1)
  }

  function NextCameraId(cameras: seq<Camera>): (id: int)
    ensures forall i :: 0 <= i < |cameras| ==> cameras[i].id < id
  {
    if cameras == [] then 1
    else
      var rest := NextCameraId(cameras[..|cameras| - 1]);
      MaxI(rest, cameras[|cameras| - 1].id + 1)
  }

  function IndexOfRecording(recordings: seq<Recording>, id: int): (r: Option<nat>)
    ensures r.Some? ==> r.value < |recordings| && recordings[r.value].id == id
    ensures r.None? ==> forall i :: 0 <= i < |recordings| ==> recordings[i].id != id
  {
    if recordings == [] then None
    else if recordings[0].id == id then Some(0)
    else
      var t := IndexOfRecording(recordings[1..], id);
      if t.None? then None else Some(t.value + 1)
  }

  datatype StartResponse = CameraIdRequired | Started(recording: Recording)

  datatype UploadResponse = RecordingNotFound | NoVideoFile | NoSelectedFile | Uploaded(recording: Recording)

  datatype StreamResponse = StreamNotFound | NotComplete | FileMissing | Stream(path: string)

  /** The upload's duration: the form value when truthy, else the whole seconds elapsed. */
  function UploadDuration(form: Option<int>, start: Timestamp, end: Timestamp): (d: int)
    ensures form.Some? && form.value != 0 ==> d == form.value
    ensures !(form.Some? && form.value != 0) && end.seconds >= start.seconds ==>
              d as real <= end.seconds - start.seconds < d as real + 1.0
  {
    if form.Some? && form.value != 0 then form.value else Trunc(end.seconds - start.seconds)
  }

  /** The row after a successful upload. */
  function Completed(r: Recording, fileSize: int, now: Timestamp, durationForm: Option<int>): (c: Recording)
    ensures c.status == "completed" && c.endTime == Some(now) && c.fileSize == Some(fileSize)
    ensures c.duration == Some(UploadDuration(durationForm, r.startTime, now))
    ensures c.(status := r.status, endTime := r.endTime, fileSize := r.fileSize, duration := r.duration) == r
  {
    r.(fileSize := Some(fileSize), endTime := Some(now), status := "completed",
       duration := Some(UploadDuration(durationForm, r.startTime, now)))
  }

  predicate UniqueCameraIds(cameras: seq<Camera>)
  {
    forall i, j :: 0 <= i < j < |cameras| ==> cameras[i].id != cameras[j].id
  }

  predicate UniqueRecordingIds(recordings: seq<Recording>)
  {
    forall i, j :: 0 <= i < j < |recordings| ==> recordings[i].id != recordings[j].id
  }

  /** Cutting out the recording at k keeps the ids distinct. */
  lemma CutRecordingKeepsUnique(recordings: seq<Recording>, k: nat)
    requires UniqueRecordingIds(recordings) && k < |recordings|
    ensures UniqueRecordingIds(recordings[..k] + recordings[k + 1..])
  {
    var after := recordings[..k] + recordings[k + 1..];
    forall i, j | 0 <= i < j < |after| ensures after[i].id != after[j].id {
      var i' := if i < k then i else i + 1;
      var j' := if j < k then j else j + 1;
      assert after[i] == recordings[i'] && after[j] == recordings[j'];
    }
  }

  /** Cutting out the recording at k leaves exactly the recordings with another id. */
  lemma CutRecordingLeavesOthers(recordings: seq<Recording>, k: nat)
    requires UniqueRecordingIds(recordings) && k < |recordings|
    ensures forall x :: x in recordings[..k] + recordings[k + 1..] <==> x in recordings && x.id != recordings[k].id
  {
    var after := recordings[..k] + recordings[k + 1..];
    forall x | x in after ensures x in recordings && x.id != recordings[k].id {
      var j :| 0 <= j < |after| && after[j] == x;
      if j < k { assert recordings[j] == x; } else { assert recordings[j + 1] == x; }
    }
    forall x | x in recordings && x.id != recordings[k].id ensures x in after {
      var j :| 0 <= j < |recordings| && recordings[j] == x;
      if j < k { assert after[j] == x; } else { assert after[j - 1] == x; }
    }
  }

  class RecordingStore {
    var cameras: seq<Camera>
    var recordings: seq<Recording>

    ghost predicate Valid()
      reads this
    {
      UniqueCameraIds(cameras) && UniqueRecordingIds(recordings)
    }

    constructor(cameras: seq<Camera>)
      requires UniqueCameraIds(cameras)
      ensures Valid() && this.cameras == cameras && recordings == []
    {
      this.cameras := cameras;
      recordings := [];
    }

    /** start_recording. */
    method StartRecording(arg: CameraArg, cameraName: Option<string>, locationName: Option<string>,
                          latitude: Option<real>, longitude: Option<real>, now: Timestamp, userId: Option<int>)
      returns (r: StartResponse)
      requires Valid()
      modifies this
      ensures Valid()
      ensures !Given(arg) <==> r == CameraIdRequired
      ensures !Given(arg) ==> cameras == old(cameras) && recordings == old(recordings)
      ensures Given(arg) && ResolveCamera(old(cameras), arg).Existing? ==>
                && cameras == old(cameras)
                && r == Started(NewRecording(NextRecordingId(old(recordings)),
                                             old(cameras)[ResolveCamera(old(cameras), arg).index],
                                             now, locationName, latitude, longitude, userId))
      ensures Given(arg) && ResolveCamera(old(cameras), arg) == AutoCreate ==>
                && cameras == old(cameras) + [NewCamera(NextCameraId(old(cameras)), arg, cameraName,
                                                        locationName, latitude, longitude)]
                && r == Started(NewRecording(NextRecordingId(old(recordings)), cameras[|cameras| - 1],
                                             now, locationName, latitude, longitude, userId))
      ensures r.Started? ==> recordings == old(recordings) + [r.recording] && r.recording.status == "recording"
    {
      if !Given(arg) {
        return CameraIdRequired;
      }
      var cam: Camera;
      var choice := ResolveCamera(cameras, arg);
      if choice.Existing? {
        cam := cameras[choice.index];
      } else {
        cam := NewCamera(NextCameraId(cameras), arg, cameraName, locationName, latitude, longitude);
        cameras := cameras + [cam];
      }
      var rec := NewRecording(NextRecordingId(recordings), cam, now, locationName, latitude, longitude, userId);
      recordings := recordings + [rec];
      r := Started(rec);
    }

    /** upload_recording: 404, then the two 400s, then the row becomes 'completed'. */
    method UploadRecording(id: int, video: Option<string>, durationForm: Option<int>, fileSize: int, now: Timestamp)
      returns (r: UploadResponse)
      requires Valid()
      modifies this
      ensures Valid() && cameras == old(cameras)
      ensures IndexOfRecording(old(recordings), id).None? <==> r == RecordingNotFound
      ensures IndexOfRecording(old(recordings), id).Some? && video.None? ==> r == NoVideoFile
      ensures IndexOfRecording(old(recordings), id).Some? && video == Some("") ==> r == NoSelectedFile
      ensures !r.Uploaded? ==> recordings == old(recordings)
      ensures r.Uploaded? <==> IndexOfRecording(old(recordings), id).Some? && video.Some? && video.value != ""
      ensures r.Uploaded? ==>
                var k := IndexOfRecording(old(recordings), id).value;
                && r.recording == Completed(old(recordings)[k], fileSize, now, durationForm)
                && recordings == old(recordings)[k := r.recording]
    {
      var k := IndexOfRecording(recordings, id);
      if k.None? {
        return RecordingNotFound;
      }
      if video.None? {
        return NoVideoFile;
      }
      if video.value == "" {
        return NoSelectedFile;
      }
      var rec := Completed(recordings[k.value], fileSize, now, durationForm);
      recordings := recordings[k.value := rec];
      r := Uploaded(rec);
    }

    /** complete_recording: mark complete with the reported duration and size, without a file. */
    method CompleteRecording(id: int, duration: Option<int>, fileSize: Option<int>, now: Timestamp)
      returns (found: bool)
      requires Valid()
      modifies this
      ensures Valid() && cameras == old(cameras)
      ensures found <==> IndexOfRecording(old(recordings), id).Some?
      ensures !found ==> recordings == old(recordings)
      ensures found ==>
                var k := IndexOfRecording(old(recordings), id).value;
                recordings == old(recordings)[k := old(recordings)[k].(endTime := Some(now), status := "completed",
                                                                     duration := duration, fileSize := fileSize)]
    {
      var k := IndexOfRecording(recordings, id);
      if k.None? {
        return false;
      }
      var rec := recordings[k.value];
      recordings := recordings[k.value := rec.(endTime := Some(now), status := "completed",
                                               duration := duration, fileSize := fileSize)];
      found := true;
    }

    /** delete_recording: removes exactly that row (the file removal is not modelled). */
    method DeleteRecording(id: int) returns (found: bool)
      requires Valid()
      modifies this
      ensures Valid() && cameras == old(cameras)
      ensures found <==> IndexOfRecording(old(recordings), id).Some?
      ensures !found ==> recordings == old(recordings)
      ensures found ==>
                var k := IndexOfRecording(old(recordings), id).value;
                recordings == old(recordings)[..k] + old(recordings)[k + 1..]
      ensures forall x :: x in recordings <==> x in old(recordings) && x.id != id
    {
      var k := IndexOfRecording(recordings, id);
      if k.None? {
        return false;
      }
      var i := k.value;
      CutRecordingKeepsUnique(recordings, i);
      CutRecordingLeavesOthers(recordings, i);
      recordings := recordings[..i] + recordings[i + 1..];
      found := true;
    }
  }

  /** stream_recording's gate: 404, then only a completed recording whose file exists. */
  function StreamRecording(recordings: seq<Recording>, id: int, fileExists: string -> bool): (r: StreamResponse)
    ensures r.Stream? ==> exists k :: 0 <= k < |recordings| && recordings[k].id == id
                                     && recordings[k].status == "completed" && r.path == recordings[k].filePath
    ensures r == StreamNotFound <==> IndexOfRecording(recordings, id).None?
    ensures IndexOfRecording(recordings, id).Some? && recordings[IndexOfRecording(recordings, id).value].status != "completed" ==>
              r == NotComplete
    ensures var k := IndexOfRecording(recordings, id);
            k.Some? && recordings[k.value].status == "completed" ==>
              r == (if fileExists(recordings[k.value].filePath) then Stream(recordings[k.value].filePath) else FileMissing)
  {
    var k := IndexOfRecording(recordings, id);
    if k.None? then StreamNotFound
    else
      var rec := recordings[k.value];
      if rec.status != "completed" then NotComplete
      else if !fileExists(rec.filePath) then FileMissing
      else Stream(rec.filePath)
  }

  /** A freshly started recording cannot be streamed until it is uploaded or completed. */
  lemma NewRecordingNotStreamable(recordings: seq<Recording>, rec: Recording, fileExists: string -> bool)
    requires UniqueRecordingIds(recordings + [rec])
    requires rec.status == "recording"
    ensures StreamRecording(recordings + [rec], rec.id, fileExists) == NotComplete
  {
    var all := recordings + [rec];
    var k := IndexOfRecording(all, rec.id);
    assert all[|recordings|].id == rec.id;
    assert k.Some?;
    assert k.value == |recordings|;
  }

  /** The query string of list_recordings, after Flask's `type=int` conversions. */
  datatype ListQuery = ListQuery(cameraId: Option<int>, date: Option<string>, status: Option<string>,
                                 limit: int, offset: int)

  /** The date filter in force: a truthy date string that strptime accepts, as its canonical date. */
  function DateFilter(q: ListQuery, parseDate: string -> Option<string>): Option<string>
  {
    if q.date.Some? && q.date.value != "" then parseDate(q.date.value) else None
  }

  predicate Selected(r: Recording, q: ListQuery, parseDate: string -> Option<string>)
  {
    && (q.cameraId.Some? && q.cameraId.value != 0 ==> r.cameraId == q.cameraId.value)
    && (DateFilter(q, parseDate).Some? ==> r.startTime.ymd == DateFilter(q, parseDate).value)
    && (q.status.Some? && q.status.value != "" ==> r.status == q.status.value)
  }

  function Filtered(recordings: seq<Recording>, q: ListQuery, parseDate: string -> Option<string>)
    : (s: seq<Recording>)
    ensures |s| <= |recordings|
    ensures forall x :: x in s ==> x in recordings && Selected(x, q, parseDate)
    ensures forall x :: x in recordings && Selected(x, q, parseDate) ==> x in s
  {
    if recordings == [] then []
    else
      (if Selected(recordings[0], q, parseDate) then [recordings[0]] else [])
        + Filtered(recordings[1..], q, parseDate)
  }

  /** `order_by(start_time.desc())` as an ascending key. */
  function NewestFirst(r: Recording): real
  {
    -r.startTime.seconds
  }

  /** SQLite OFFSET/LIMIT: a negative offset counts as 0 and a negative limit means no limit. */
  function Page<T>(s: seq<T>, limit: int, offset: int): (p: seq<T>)
    ensures limit >= 0 ==> |p| <= limit
    ensures var o := MaxI(offset, 0); o <= |s| ==> p <= s[o..]
    ensures var o := MaxI(offset, 0); o >= |s| ==> p == []
    ensures var o := MaxI(offset, 0); limit < 0 && o <= |s| ==> p == s[o..]
    ensures var o := MaxI(offset, 0); limit >= 0 && o <= |s| ==> |p| == MinI(limit, |s| - o)
  {
    var o := MaxI(offset, 0);
    var rest := if o <= |s| then s[o..] else [];
    if limit < 0 then rest else Take(rest, limit)
  }

  datatype Listing = Listing(recordings: seq<Recording>, total: nat, limit: int, offset: int)

  /** list_recordings. */
  function ListRecordings(recordings: seq<Recording>, q: ListQuery, parseDate: string -> Option<string>)
    : (r: Listing)
    ensures r.total == |Filtered(recordings, q, parseDate)|
    ensures r.limit == q.limit && r.offset == q.offset
    ensures r.recordings == Page(SortByKey(Filtered(recordings, q, parseDate), NewestFirst), q.limit, q.offset)
  {
    var matching := Filtered(recordings, q, parseDate);
    Listing(Page(SortByKey(matching, NewestFirst), q.limit, q.offset), |matching|, q.limit, q.offset)
  }

  /** The page is the run of the sorted list that starts at the offset. */
  lemma PageElements<T>(s: seq<T>, limit: int, offset: int)
    ensures forall i :: 0 <= i < |Page(s, limit, offset)| ==>
              MaxI(offset, 0) + i < |s| && Page(s, limit, offset)[i] == s[MaxI(offset, 0) + i]
  {
    var o := MaxI(offset, 0);
    var p := Page(s, limit, offset);
    if o <= |s| {
      assert p <= s[o..];
      forall i | 0 <= i < |p| ensures o + i < |s| && p[i] == s[o + i] {
        assert p[i] == s[o..][i];
      }
    }
  }

  /** Every listed recording exists and matches the filters. */
  lemma ListedMatchFilters(recordings: seq<Recording>, q: ListQuery, parseDate: string -> Option<string>)
    ensures var l := ListRecordings(recordings, q, parseDate).recordings;
            forall x :: x in l ==> x in recordings && Selected(x, q, parseDate)
  {
    var m := Filtered(recordings, q, parseDate);
    var s := SortByKey(m, NewestFirst);
    SortPermutes(m, NewestFirst);
    PageElements(s, q.limit, q.offset);
    var l := ListRecordings(recordings, q, parseDate).recordings;
    forall x | x in l ensures x in recordings && Selected(x, q, parseDate) {
      var i :| 0 <= i < |l| && l[i] == x;
      assert x in multiset(s);
    }
  }

  /** The page runs newest first. */
  lemma ListedNewestFirst(recordings: seq<Recording>, q: ListQuery, parseDate: string -> Option<string>)
    ensures var l := ListRecordings(recordings, q, parseDate).recordings;
            forall i, j :: 0 <= i < j < |l| ==> l[i].startTime.seconds >= l[j].startTime.seconds
  {
    var m := Filtered(recordings, q, parseDate);
    var s := SortByKey(m, NewestFirst);
    SortSorted(m, NewestFirst);
    PageElements(s, q.limit, q.offset);
    var l := ListRecordings(recordings, q, parseDate).recordings;
    var o := MaxI(q.offset, 0);
    forall i, j | 0 <= i < j < |l| ensures l[i].startTime.seconds >= l[j].startTime.seconds {
      assert NewestFirst(s[o + i]) <= NewestFirst(s[o + j]);
    }
  }

  /** A date that strptime rejects is ignored rather than reported. */
  lemma MalformedDateIgnored(recordings: seq<Recording>, q: ListQuery, parseDate: string -> Option<string>)
    requires q.date.Some? && parseDate(q.date.value).None?
    ensures ListRecordings(recordings, q, parseDate) == ListRecordings(recordings, q.(date := None), parseDate)
  {
    assert forall x :: Selected(x, q, parseDate) == Selected(x, q.(date := None), parseDate);
    FilteredSame(recordings, q, q.(date := None), parseDate);
  }

  lemma {:induction false} FilteredSame(recordings: seq<Recording>, q1: ListQuery, q2: ListQuery,
                                        parseDate: string -> Option<string>)
    requires forall x :: Selected(x, q1, parseDate) == Selected(x, q2, parseDate)
    ensures Filtered(recordings, q1, parseDate) == Filtered(recordings, q2, parseDate)
  {
    if recordings != [] {
      FilteredSame(recordings[1..], q1, q2, parseDate);
    }
  }
}
