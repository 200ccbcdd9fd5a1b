/**
 * frontend/src/pages/LiveMonitoring.jsx: the live camera page. The feed list built from
 * the cameras API, the search and the selected feed, the stream start and stop gates, the
 * capture-and-recognise cycle with its mapping of the server's answer to the result,
 * status line and escaped-inmate alarm, and the alarm dismissal. The browser media API,
 * the canvas, the timers and the sockets are left out: what they deliver is an input.
 */
module LiveMonitoring {
  import opened Common

  // ---------------------------------------------------------------- feeds

  /** A JSON scalar as the page may receive it for a flag. */
  datatype JsonScalar = JBool(b: bool) | JStr(s: string) | JNum(n: real)

  /** JavaScript truthiness of a JSON scalar: false, "" and 0 are falsy (NaN is not modelled). */
  predicate JsTruthy(v: JsonScalar)
  {
    match v
    case JBool(b) => b
    case JStr(s) => s != ""
    case JNum(n) => n != 0.0
  }

  /**
   * A camera object of the `cameras` array the page reads from the `/api/cameras` answer;
   * null or missing fields are None. `is_active` and `status` may arrive as any JSON scalar
   * (backend/app/models/camera.py sends `status` as a boolean).
   */
  datatype CameraRecord = CameraRecord(id: int, name: Option<string>, location: Option<string>,
                                       isActive: Option<JsonScalar>, status: Option<JsonScalar>,
                                       cameraType: Option<string>, streamUrl: Option<string>,
                                       deviceId: Option<string>)

  /** A feed in the page's list. */
  datatype Feed = Feed(id: int, name: string, location: string, online: bool, cameraType: string,
                       streamUrl: string, deviceId: string)

  /** The fallback list before (or without) cameras from the server; "" stands for an absent URL or device. */
  const DefaultFeed: Feed := Feed(1, "Default Webcam", "Local Device", true, "webcam", "", "")

  /** `x || fallback` on an optional string. */
  function OrElse(s: Option<string>, fallback: string): (r: string)
    ensures Truthy(s) ==> r == s.value
    ensures !Truthy(s) ==> r == fallback
  {
    if Truthy(s) then s.value else fallback
  }

  /** `Boolean(c.is_active ?? c.status ?? true)`: `??` skips only null and undefined. */
  function Online(c: CameraRecord): (r: bool)
    ensures c.isActive.Some? ==> (r <==> JsTruthy(c.isActive.value))
    ensures c.isActive.None? && c.status.Some? ==> (r <==> JsTruthy(c.status.value))
    ensures c.isActive.None? && c.status.None? ==> r
  {
    if c.isActive.Some? then JsTruthy(c.isActive.value)
    else if c.status.Some? then JsTruthy(c.status.value)
    else true
  }

  /**
   * A camera the model layer sends with `status: false` and no `is_active` is offline,
   * while a present `is_active` decides alone, even against the status.
   */
  lemma InactiveStatusOffline(c: CameraRecord)
    ensures c.isActive.None? && c.status == Some(JBool(false)) ==> !Online(c)
    ensures c.isActive == Some(JBool(true)) ==> Online(c)
    ensures c.isActive == Some(JNum(0.0)) ==> !Online(c)
  {
  }

  /** The mapping of one camera to a feed, with its defaults. */
  function ToFeed(c: CameraRecord): (f: Feed)
    ensures f.id == c.id && f.online == Online(c)
    ensures f.name == (if Truthy(c.name) then c.name.value else "Camera " + IntToString(c.id))
    ensures f.location == (if Truthy(c.location) then c.location.value else "Unknown")
    ensures f.cameraType == (if Truthy(c.cameraType) then c.cameraType.value else "webcam")
    ensures f.streamUrl == OrElse(c.streamUrl, "") && f.deviceId == OrElse(c.deviceId, "")
  {
    Feed(c.id, OrElse(c.name, "Camera " + IntToString(c.id)), OrElse(c.location, "Unknown"), Online(c),
         OrElse(c.cameraType, "webcam"), OrElse(c.streamUrl, ""), OrElse(c.deviceId, ""))
  }

  /** `cams.map(...)`: one feed per camera, in order. */
  function ToFeeds(cams: seq<CameraRecord>): (r: seq<Feed>)
    ensures |r| == |cams|
    ensures forall i :: 0 <= i < |cams| ==> r[i] == ToFeed(cams[i])
  {
    if cams == [] then [] else [ToFeed(cams[0])] + ToFeeds(cams[1..])
  }

  /** A camera without a name is listed under its id, and one with no state at all is online. */
  lemma UnnamedCameraDefaults(id: int)
    ensures var f := ToFeed(CameraRecord(id, None, Some(""), None, None, None, None, None));
            f.name == "Camera " + IntToString(id) && f.location == "Unknown" && f.online && f.cameraType == "webcam"
  {
  }

  /** The feed search: a blank query keeps all, else name or location contains it. */
  predicate FeedMatches(f: Feed, q: string)
  {
    Contains(Lower(f.name), q) || Contains(Lower(f.location), q)
  }

  function FilteredFeeds(feeds: seq<Feed>, query: string): (r: seq<Feed>)
    ensures Lower(Trim(query)) == "" ==> r == feeds
    ensures forall f :: f in r <==> f in feeds && (Lower(Trim(query)) == "" || FeedMatches(f, Lower(Trim(query))))
  {
    var q := Lower(Trim(query));
    if q == "" then feeds else FeedsMatching(feeds, q)
  }

  function FeedsMatching(feeds: seq<Feed>, q: string): (r: seq<Feed>)
    ensures |r| <= |feeds|
    ensures forall f :: f in r <==> f in feeds && FeedMatches(f, q)
  {
    if feeds == [] then []
    else
      var init, last := feeds[..|feeds| - 1], feeds[|feeds| - 1];
      assert forall f :: f in feeds <==> f in init || f == last;
      FeedsMatching(init, q) + (if FeedMatches(last, q) then [last] else [])
  }

  /**
   * Filtering distributes over concatenation; with the membership and length clauses on a
   * single element, this fixes the feeds that match as the input's matches in input order.
   */
  lemma {:induction false} FeedsMatchingAppend(a: seq<Feed>, b: seq<Feed>, q: string)
    ensures FeedsMatching(a + b, q) == FeedsMatching(a, q) + FeedsMatching(b, q)
  {
    if b == [] {
      assert a + b == a;
    } else {
      var init, last := b[..|b| - 1], b[|b| - 1];
      var tail := if FeedMatches(last, q) then [last] else [];
      assert (a + b)[..|a + b| - 1] == a + init;
      assert (a + b)[|a + b| - 1] == last;
      assert FeedsMatching(b, q) == FeedsMatching(init, q) + tail;
      FeedsMatchingAppend(a, init, q);
      calc {
        FeedsMatching(a + b, q);
        FeedsMatching(a + init, q) + tail;
        (FeedsMatching(a, q) + FeedsMatching(init, q)) + tail;
        FeedsMatching(a, q) + (FeedsMatching(init, q) + tail);
      }
    }
  }

  /** `filteredFeeds.find((f) => f.id === selectedId)`: the first feed with the id. */
  function FindFeed(feeds: seq<Feed>, id: Option<int>): (r: Option<Feed>)
    ensures r.Some? <==> id.Some? && exists i :: 0 <= i < |feeds| && feeds[i].id == id.value
    ensures r.Some? ==> r.value in feeds && r.value.id == id.value
  {
    if feeds == [] || id.None? then None
    else if feeds[0].id == id.value then Some(feeds[0])
    else
      var t := FindFeed(feeds[1..], id);
      assert forall i :: 1 <= i < |feeds| ==> feeds[i] == feeds[1..][i - 1];
      t
  }

  /** `selectedFeed`: the filtered feed with the selected id, else the first, else null. */
  function SelectedFeed(filtered: seq<Feed>, selectedId: Option<int>): (r: Option<Feed>)
    ensures r.None? <==> filtered == []
    ensures r.Some? ==> r.value in filtered
    ensures FindFeed(filtered, selectedId).Some? ==> r == FindFeed(filtered, selectedId)
    ensures FindFeed(filtered, selectedId).None? && filtered != [] ==> r == Some(filtered[0])
  {
    var found := FindFeed(filtered, selectedId);
    if found.Some? then found else if filtered != [] then Some(filtered[0]) else None
  }

  /** A selected id the search has hidden falls back to the first feed shown. */
  lemma HiddenSelectionFallsBack(filtered: seq<Feed>, id: int)
    requires filtered != [] && forall i :: 0 <= i < |filtered| ==> filtered[i].id != id
    ensures SelectedFeed(filtered, Some(id)) == Some(filtered[0])
  {
  }

  /** With no (or a falsy) selection and something shown, the first feed shown is selected. */
  function AutoSelectedId(selectedId: Option<int>, filtered: seq<Feed>): (r: Option<int>)
    ensures (selectedId.None? || selectedId == Some(0)) && filtered != [] ==> r == Some(filtered[0].id)
    ensures !((selectedId.None? || selectedId == Some(0)) && filtered != []) ==> r == selectedId
  {
    if (selectedId.None? || selectedId == Some(0)) && filtered != [] then Some(filtered[0].id) else selectedId
  }

  /** After the effect, a list with feeds always has the selected one among them. */
  lemma AutoSelectionShown(selectedId: Option<int>, filtered: seq<Feed>)
    requires filtered != []
    ensures SelectedFeed(filtered, AutoSelectedId(selectedId, filtered)).Some?
    ensures selectedId.None? ==> SelectedFeed(filtered, AutoSelectedId(selectedId, filtered)) == Some(filtered[0])
  {
  }

  // ---------------------------------------------------------------- streaming

  /** What `getUserMedia` asks for: any camera, or exactly one device. */
  datatype VideoConstraint = AnyCamera | ExactDevice(deviceId: string)

  /** What `getUserMedia` does: grants a stream, or fails with an error name and message. */
  datatype MediaOutcome = Granted | Failed(errorName: string, message: string)

  /** The constraint for a feed: the device only for a usb feed that names one. */
  function ConstraintFor(feed: Feed): (r: VideoConstraint)
    ensures r.ExactDevice? <==> feed.cameraType == "usb" && feed.deviceId != ""
    ensures r.ExactDevice? ==> r.deviceId == feed.deviceId
  {
    if feed.cameraType == "usb" && feed.deviceId != "" then ExactDevice(feed.deviceId) else AnyCamera
  }

  const OfflineMessage: string := "Camera is offline"
  const RtspMessage: string := "RTSP streaming requires server-side proxy (not yet implemented)"

  /** The message for a failed `getUserMedia`. */
  function MediaErrorMessage(errorName: string, message: string): (r: string)
    ensures errorName == "NotAllowedError" ==> r == "Camera access denied. Please allow camera permissions."
    ensures errorName == "NotFoundError" ==> r == "Camera not found. Please check your device."
    ensures errorName != "NotAllowedError" && errorName != "NotFoundError" ==>
              r == "Failed to start camera: " + message
    ensures r != ""
  {
    if errorName == "NotAllowedError" then "Camera access denied. Please allow camera permissions."
    else if errorName == "NotFoundError" then "Camera not found. Please check your device."
    else "Failed to start camera: " + message
  }

  // ---------------------------------------------------------------- recognition

  /** The inmate object the server returns, kept as its fields. */
  datatype InmateInfo = InmateInfo(fields: map<string, string>)

  /** The alarm modal's data. */
  datatype Alarm = Alarm(inmate: Option<InmateInfo>, timestamp: string, requiresAcknowledgment: bool,
                         alertId: Option<int>, detectionLocation: Option<string>)

  /** The JSON body of `/api/recognition/match`. */
  datatype MatchData = MatchData(status: Option<string>, inmate: Option<InmateInfo>, confidence: string,
                                 error: Option<string>)

  /** The outcome of the POST: a network failure, or an HTTP answer. */
  datatype MatchResponse = NetworkError(message: string) | Reply(ok: bool, statusText: string, data: MatchData)

  /** What an answer does to the shown result: leave it, or set it (null clears). */
  datatype ResultUpdate = KeepResult | SetResult(value: Option<InmateInfo>)

  datatype Effect = Effect(result: ResultUpdate, status: string, alarm: Option<Alarm>)

  /** Whether a successful answer carries one of the statuses that clear the result. */
  predicate ClearingStatus(s: Option<string>)
  {
    s == Some("no_match") || s == Some("no_face_detected") || s == Some("low_confidence")
  }

  /** Whether a successful answer carries one of the statuses that show an inmate. */
  predicate MatchStatus(s: Option<string>)
  {
    s == Some("escaped_inmate_detected") || s == Some("match_found")
  }

  /**
   * The handling of the recognition answer: an escaped inmate shows the result and raises
   * the alarm; a match shows the result; no match, no face and low confidence clear it;
   * any other answer, an HTTP error or a network error only changes the status line.
   */
  function AnswerEffect(resp: MatchResponse, now: string): (e: Effect)
    ensures e.alarm.Some? <==> resp.Reply? && resp.ok && resp.data.status == Some("escaped_inmate_detected")
    ensures e.alarm.Some? ==> e.alarm.value == Alarm(resp.data.inmate, now, true, None, None)
    ensures e.result.SetResult? <==> resp.Reply? && resp.ok && (MatchStatus(resp.data.status) || ClearingStatus(resp.data.status))
    ensures resp.Reply? && resp.ok && MatchStatus(resp.data.status) ==> e.result == SetResult(resp.data.inmate)
    ensures resp.Reply? && resp.ok && ClearingStatus(resp.data.status) ==> e.result == SetResult(None)
    ensures resp.Reply? && resp.ok && !MatchStatus(resp.data.status) && !ClearingStatus(resp.data.status) ==>
              e.status == OrElse(resp.data.error, "Unknown response")
    ensures resp.Reply? && !resp.ok ==> e.status == "Error: " + OrElse(resp.data.error, resp.statusText)
    ensures resp.NetworkError? ==> e.status == "Network error: " + resp.message
  {
    match resp
    case NetworkError(m) => Effect(KeepResult, "Network error: " + m, None)
    case Reply(ok, statusText, data) =>
      if !ok then Effect(KeepResult, "Error: " + OrElse(data.error, statusText), None)
      else if data.status == Some("escaped_inmate_detected") then
        Effect(SetResult(data.inmate), "ESCAPED INMATE DETECTED!", Some(Alarm(data.inmate, now, true, None, None)))
      else if data.status == Some("match_found") then Effect(SetResult(data.inmate), "Match found!", None)
      else if data.status == Some("no_match") then Effect(SetResult(None), "No match - scanning...", None)
      else if data.status == Some("no_face_detected") then
        Effect(SetResult(None), "No face detected - position face in frame", None)
      else if data.status == Some("low_confidence") then
        Effect(SetResult(None), "Low confidence (" + data.confidence + "%) - no reliable match", None)
      else Effect(KeepResult, OrElse(data.error, "Unknown response"), None)
  }

  /** Only an answer that reports an inmate shows one; every other answer leaves none or the old one. */
  lemma ResultOnlyFromMatch(resp: MatchResponse, now: string, old_: Option<InmateInfo>)
    ensures var e := AnswerEffect(resp, now);
            var shown := if e.result.SetResult? then e.result.value else old_;
            shown != old_ ==> resp.Reply? && resp.ok && (shown == resp.data.inmate || shown.None?)
  {
  }

  // ---------------------------------------------------------------- the page

  class LiveMonitoringPage {
    var feeds: seq<Feed>
    var query: string
    var selectedId: Option<int>
    var hasStream: bool
    var isStreaming: bool
    var streamError: string
    var videoReady: bool
    var recognizing: bool
    var intervalActive: bool
    var result: Option<InmateInfo>
    var status: string
    var alarm: Option<Alarm>

    /**
     * A stream is held exactly while streaming, the video is ready only while streaming,
     * and the capture interval runs exactly while recognising.
     */
    predicate Valid()
      reads this
    {
      (isStreaming <==> hasStream) && (videoReady ==> isStreaming) && (recognizing <==> intervalActive)
    }

    constructor()
      ensures Valid()
      ensures feeds == [DefaultFeed] && query == "" && selectedId.None?
      ensures !hasStream && !isStreaming && streamError == "" && !videoReady
      ensures !recognizing && !intervalActive && result.None? && status == "" && alarm.None?
    {
      feeds := [DefaultFeed];
      query := "";
      selectedId := None;
      hasStream := false;
      isStreaming := false;
      streamError := "";
      videoReady := false;
      recognizing := false;
      intervalActive := false;
      result := None;
      status := "";
      alarm := None;
    }

    /** The feed the page shows as selected. */
    function Selected(): (r: Option<Feed>)
      reads this
      ensures r == SelectedFeed(FilteredFeeds(feeds, query), selectedId)
    {
      SelectedFeed(FilteredFeeds(feeds, query), selectedId)
    }

    /**
     * The camera load: a successful answer with a non-empty `cameras` array replaces the
     * feeds; anything else keeps the current (fallback) feeds.
     */
    method LoadFeeds(ok: bool, cameras: Option<seq<CameraRecord>>)
      requires Valid()
      modifies this
      ensures Valid()
      ensures ok && cameras.Some? && cameras.value != [] ==> feeds == ToFeeds(cameras.value)
      ensures !(ok && cameras.Some? && cameras.value != []) ==> feeds == old(feeds)
      ensures query == old(query) && selectedId == old(selectedId) && hasStream == old(hasStream)
      ensures isStreaming == old(isStreaming) && streamError == old(streamError) && videoReady == old(videoReady)
      ensures recognizing == old(recognizing) && intervalActive == old(intervalActive)
      ensures result == old(result) && status == old(status) && alarm == old(alarm)
    {
      if ok && cameras.Some? && cameras.value != [] {
        feeds := ToFeeds(cameras.value);
      }
    }

    method SetQuery(q: string)
      modifies this
      ensures query == q
      ensures feeds == old(feeds) && selectedId == old(selectedId) && hasStream == old(hasStream)
      ensures isStreaming == old(isStreaming) && streamError == old(streamError) && videoReady == old(videoReady)
      ensures recognizing == old(recognizing) && intervalActive == old(intervalActive)
      ensures result == old(result) && status == old(status) && alarm == old(alarm)
    {
      query := q;
    }

    /** The effect on the filtered list's length. */
    method SyncSelection()
      modifies this
      ensures selectedId == AutoSelectedId(old(selectedId), FilteredFeeds(old(feeds), old(query)))
      ensures feeds == old(feeds) && query == old(query) && hasStream == old(hasStream)
      ensures isStreaming == old(isStreaming) && streamError == old(streamError) && videoReady == old(videoReady)
      ensures recognizing == old(recognizing) && intervalActive == old(intervalActive)
      ensures result == old(result) && status == old(status) && alarm == old(alarm)
    {
      var filtered := FilteredFeeds(feeds, query);
      selectedId := AutoSelectedId(selectedId, filtered);
    }

    /** stopStream: no stream, not streaming, no error, video not ready. */
    method StopStream()
      requires Valid()
      modifies this
      ensures Valid()
      ensures !hasStream && !isStreaming && streamError == "" && !videoReady
      ensures feeds == old(feeds) && query == old(query) && selectedId == old(selectedId)
      ensures recognizing == old(recognizing) && intervalActive == old(intervalActive)
      ensures result == old(result) && status == old(status) && alarm == old(alarm)
    {
      hasStream := false;
      isStreaming := false;
      streamError := "";
      videoReady := false;
    }

    /** Clicking a feed in the list selects it and stops the stream. */
    method ClickFeed(id: int)
      requires Valid()
      modifies this
      ensures Valid()
      ensures selectedId == Some(id)
      ensures !hasStream && !isStreaming && streamError == "" && !videoReady
      ensures feeds == old(feeds) && query == old(query)
      ensures recognizing == old(recognizing) && intervalActive == old(intervalActive)
      ensures result == old(result) && status == old(status) && alarm == old(alarm)
    {
      selectedId := Some(id);
      StopStream();
    }

    /**
     * startStream: the old stream stops first; a missing or offline feed and an rtsp feed
     * are refused with a message and `getUserMedia` is not called; otherwise the feed's
     * constraint is requested, and the outcome starts the stream or sets its error.
     */
    method StartStream(feed: Option<Feed>, media: MediaOutcome) returns (requested: Option<VideoConstraint>)
      requires Valid()
      modifies this
      ensures Valid()
      ensures feed.None? || !feed.value.online ==> requested.None? && streamError == OfflineMessage
      ensures feed.Some? && feed.value.online && feed.value.cameraType == "rtsp" ==>
                requested.None? && streamError == RtspMessage
      ensures requested.Some? <==> feed.Some? && feed.value.online && feed.value.cameraType != "rtsp"
      ensures requested.Some? ==> requested.value == ConstraintFor(feed.value)
      ensures isStreaming <==> requested.Some? && media.Granted?
      ensures hasStream == isStreaming
      ensures isStreaming ==> streamError == ""
      ensures requested.Some? && media.Failed? ==> streamError == MediaErrorMessage(media.errorName, media.message)
      ensures !videoReady
      ensures feeds == old(feeds) && query == old(query) && selectedId == old(selectedId)
      ensures recognizing == old(recognizing) && intervalActive == old(intervalActive)
      ensures result == old(result) && status == old(status) && alarm == old(alarm)
    {
      StopStream();
      if feed.None? || !feed.value.online {
        streamError := OfflineMessage;
        return None;
      }
      if feed.value.cameraType == "rtsp" {
        streamError := RtspMessage;
        return None;
      }
      requested := Some(ConstraintFor(feed.value));
      match media
      case Granted =>
        hasStream := true;
        isStreaming := true;
      case Failed(name, message) =>
        streamError := MediaErrorMessage(name, message);
    }

    /** The video element's metadata arrived; the element exists only while streaming. */
    method VideoLoaded()
      requires Valid() && isStreaming
      modifies this
      ensures Valid() && videoReady
      ensures feeds == old(feeds) && query == old(query) && selectedId == old(selectedId)
      ensures hasStream == old(hasStream) && isStreaming == old(isStreaming) && streamError == old(streamError)
      ensures recognizing == old(recognizing) && intervalActive == old(intervalActive)
      ensures result == old(result) && status == old(status) && alarm == old(alarm)
    {
      videoReady := true;
    }

    /**
     * captureAndRecognize: nothing without the video and canvas elements or before the
     * video is streaming and ready; a zero-sized frame and a failed capture only set the
     * status; otherwise the frame is posted (`sent`) and the answer applied.
     */
    method CaptureAndRecognize(hasVideo: bool, hasCanvas: bool, width: nat, height: nat, captured: bool,
                               resp: MatchResponse, now: string)
      returns (sent: bool)
      requires Valid()
      modifies this
      ensures Valid()
      ensures !(hasVideo && hasCanvas && old(isStreaming) && old(videoReady)) ==>
                !sent && result == old(result) && status == old(status) && alarm == old(alarm)
      ensures hasVideo && hasCanvas && old(isStreaming) && old(videoReady) && (width == 0 || height == 0) ==>
                !sent && status == "Video dimensions not ready" && result == old(result) && alarm == old(alarm)
      ensures hasVideo && hasCanvas && old(isStreaming) && old(videoReady) && width > 0 && height > 0 && !captured ==>
                !sent && status == "Failed to capture frame" && result == old(result) && alarm == old(alarm)
      ensures sent <==> hasVideo && hasCanvas && old(isStreaming) && old(videoReady) && width > 0 && height > 0 && captured
      ensures sent ==> var e := AnswerEffect(resp, now);
                       && status == e.status
                       && result == (if e.result.SetResult? then e.result.value else old(result))
                       && alarm == (if e.alarm.Some? then e.alarm else old(alarm))
      ensures feeds == old(feeds) && query == old(query) && selectedId == old(selectedId)
      ensures hasStream == old(hasStream) && isStreaming == old(isStreaming) && streamError == old(streamError)
      ensures videoReady == old(videoReady)
      ensures recognizing == old(recognizing) && intervalActive == old(intervalActive)
    {
      if !hasVideo || !hasCanvas || !isStreaming || !videoReady {
        return false;
      }
      if width == 0 || height == 0 {
        status := "Video dimensions not ready";
        return false;
      }
      status := "Analyzing frame...";
      if !captured {
        status := "Failed to capture frame";
        return false;
      }
      sent := true;
      var e := AnswerEffect(resp, now);
      if e.result.SetResult? {
        result := e.result.value;
      }
      status := e.status;
      if e.alarm.Some? {
        alarm := e.alarm;
      }
    }

    /**
     * startRecognition: before the video is ready it only says it is waiting (the retry
     * timer is not modelled); otherwise recognition starts and the capture interval runs.
     * The immediate first capture is the next CaptureAndRecognize call.
     */
    method StartRecognition()
      requires Valid()
      modifies this
      ensures Valid()
      ensures !old(videoReady) ==> status == "Waiting for video to load..." && recognizing == old(recognizing)
      ensures old(videoReady) ==> recognizing && intervalActive && status == "Starting recognition..."
      ensures feeds == old(feeds) && query == old(query) && selectedId == old(selectedId)
      ensures hasStream == old(hasStream) && isStreaming == old(isStreaming) && streamError == old(streamError)
      ensures videoReady == old(videoReady) && result == old(result) && alarm == old(alarm)
    {
      if !videoReady {
        status := "Waiting for video to load...";
        return;
      }
      recognizing := true;
      intervalActive := true;
      status := "Starting recognition...";
    }

    /** stopRecognition: the interval stops and the result and status are cleared. */
    method StopRecognition()
      requires Valid()
      modifies this
      ensures Valid()
      ensures !recognizing && !intervalActive && result.None? && status == ""
      ensures feeds == old(feeds) && query == old(query) && selectedId == old(selectedId)
      ensures hasStream == old(hasStream) && isStreaming == old(isStreaming) && streamError == old(streamError)
      ensures videoReady == old(videoReady) && alarm == old(alarm)
    {
      recognizing := false;
      intervalActive := false;
      result := None;
      status := "";
    }

    /** An 'escaped_inmate_alarm' socket event shows its data as the alarm. */
    method SocketAlarm(a: Alarm)
      modifies this
      ensures alarm == Some(a)
      ensures feeds == old(feeds) && query == old(query) && selectedId == old(selectedId)
      ensures hasStream == old(hasStream) && isStreaming == old(isStreaming) && streamError == old(streamError)
      ensures videoReady == old(videoReady) && recognizing == old(recognizing)
      ensures intervalActive == old(intervalActive) && result == old(result) && status == old(status)
    {
      alarm := Some(a);
    }

    /** handleDismissAlarm: the alarm and the result go, and scanning goes on. */
    method DismissAlarm()
      modifies this
      ensures alarm.None? && result.None? && status == "Alarm acknowledged - continuing scan..."
      ensures feeds == old(feeds) && query == old(query) && selectedId == old(selectedId)
      ensures hasStream == old(hasStream) && isStreaming == old(isStreaming) && streamError == old(streamError)
      ensures videoReady == old(videoReady) && recognizing == old(recognizing) && intervalActive == old(intervalActive)
    {
      alarm := None;
      result := None;
      status := "Alarm acknowledged - continuing scan...";
    }
  }

  // ---------------------------------------------------------------- hook order

  /** The React hooks a render of the page calls, by kind. */
  datatype Hook = UseNavigate | UseState | UseRef | UseEffect | UseCallback | UseMemo

  /**
   * The hooks called before the loading and error early returns, in order: navigate, six
   * states, two refs, three states, three states, a ref, two states, a ref, a state, two
   * effects, five callbacks, two effects, a memo and an effect.
   */
  function HooksBeforeEarlyReturns(): (r: seq<Hook>)
    ensures |r| == 31 && r[0] == UseNavigate
  {
    [UseNavigate] + Repeat(UseState, 6) + Repeat(UseRef, 2) + Repeat(UseState, 6) + [UseRef]
    + Repeat(UseState, 2) + [UseRef, UseState] + Repeat(UseEffect, 2) + Repeat(UseCallback, 5)
    + Repeat(UseEffect, 2) + [UseMemo, UseEffect]
  }

  function Repeat(h: Hook, n: nat): (r: seq<Hook>)
    ensures |r| == n && forall i :: 0 <= i < n ==> r[i] == h
  {
    if n == 0 then [] else [h] + Repeat(h, n - 1)
  }

  /** React's rule: every render of a component calls the same hooks in the same order. */
  predicate SameHooksInEveryRender(render: (bool, bool) -> seq<Hook>)
  {
    forall loading1, failed1, loading2, failed2 ::
      render(loading1, failed1) == render(loading2, failed2)
  }

  /** The page as written: `handleDismissAlarm`'s useCallback comes after the early returns. */
  function RenderHooksAsWritten(loading: bool, failed: bool): (r: seq<Hook>)
    ensures |r| == if loading || failed then 31 else 32
  {
    HooksBeforeEarlyReturns() + (if loading || failed then [] else [UseCallback])
  }

  /** The first render (still loading) and the render after loading call different hooks. */
  lemma AsWrittenBreaksHookOrder()
    ensures RenderHooksAsWritten(true, false) != RenderHooksAsWritten(false, false)
    ensures !SameHooksInEveryRender(RenderHooksAsWritten)
  {
    assert |RenderHooksAsWritten(true, false)| != |RenderHooksAsWritten(false, false)|;
  }

  /** The page with `handleDismissAlarm` declared before the early returns. */
  function RenderHooksCorrected(loading: bool, failed: bool): (r: seq<Hook>)
    ensures |r| == 32 && r[31] == UseCallback
  {
    HooksBeforeEarlyReturns() + [UseCallback]
  }

  /** With the callback moved up every render calls the same hooks. */
  lemma CorrectedKeepsHookOrder()
    ensures SameHooksInEveryRender(RenderHooksCorrected)
  {
  }
}
