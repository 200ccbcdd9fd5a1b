/**
 * frontend/src/pages/Surveillance.jsx: the recordings browser. The pagination arithmetic
 * (pages of 12), the filters and the offset resets they cause, the local search over
 * the loaded page, the duration and size formatting, and the delete and play handlers.
 * The HTTP calls are left out: their answers are inputs, and the request the page sends
 * is a function of its state. `toFixed(1)` is an abstract function passed in.
 */
module Surveillance {
  import opened Common

  /** `limit`: recordings per page. */
  const Limit: nat := 12

  /** A recording as the listing returns it; every field may be null. */
  datatype Recording = Recording(id: int, cameraName: Option<string>, locationName: Option<string>,
                                 filename: Option<string>, duration: Option<int>, fileSize: Option<int>)

  // ---------------------------------------------------------------- pagination

  /** `Math.ceil(totalRecordings / limit)`. */
  function TotalPages(total: nat): (r: nat)
    ensures r == 0 <==> total == 0
    ensures total > 0 ==> (r - 1) * Limit < total <= r * Limit
  {
    (total + Limit - 1) / Limit
  }

  /** `Math.floor(offset / limit) + 1`: the page the offset falls in, counted from 1. */
  function CurrentPage(offset: int): (r: int)
    ensures (r - 1) * Limit <= offset < r * Limit
    ensures offset >= 0 ==> r >= 1
  {
    offset / Limit + 1
  }

  /** The offsets the page ever holds: the first row of a page. */
  predicate Aligned(offset: int)
  {
    offset >= 0 && offset % Limit == 0
  }

  /** Previous: `Math.max(0, offset - limit)`. */
  function PrevOffset(offset: int): (r: int)
    ensures r >= 0
    ensures Aligned(offset) ==> Aligned(r)
  {
    MaxI(0, offset - Limit)
  }

  /** Next: `Math.min((totalPages - 1) * limit, offset + limit)`. */
  function NextOffset(offset: int, total: nat): (r: int)
    ensures r <= (TotalPages(total) - 1) * Limit
    ensures r <= offset + Limit
    ensures Aligned(offset) && TotalPages(total) > 1 ==> Aligned(r)
  {
    MinI((TotalPages(total) - 1) * Limit, offset + Limit)
  }

  /** From any page but the first, Previous goes one page back. */
  lemma PrevGoesBack(offset: int)
    requires Aligned(offset) && offset != 0
    ensures CurrentPage(PrevOffset(offset)) == CurrentPage(offset) - 1
  {
    assert offset >= Limit;
  }

  /** From any page but the last, Next goes one page forward. */
  lemma NextGoesForward(offset: int, total: nat)
    requires Aligned(offset) && CurrentPage(offset) < TotalPages(total)
    ensures CurrentPage(NextOffset(offset, total)) == CurrentPage(offset) + 1
  {
    var p := CurrentPage(offset);
    assert offset == (p - 1) * Limit;
    assert offset + Limit <= (TotalPages(total) - 1) * Limit;
  }

  /** Next never leaves the last page, wherever it starts from. */
  lemma NextNeverPastLast(offset: int, total: nat)
    requires total > 0
    ensures CurrentPage(NextOffset(offset, total)) <= TotalPages(total)
  {
  }

  /**
   * Without recordings the Next arithmetic would give a negative offset; the button is
   * only shown when there is more than one page.
   */
  lemma NextWithoutRecordings()
    ensures TotalPages(0) == 0 && NextOffset(0, 0) == -(Limit as int)
  {
  }

  // ---------------------------------------------------------------- search

  /** `field?.toLowerCase().includes(q)`: a null field never matches. */
  predicate FieldHas(field: Option<string>, q: string)
  {
    field.Some? && Contains(Lower(field.value), q)
  }

  predicate RecordingMatches(r: Recording, q: string)
  {
    FieldHas(r.cameraName, q) || FieldHas(r.locationName, q) || FieldHas(r.filename, q)
  }

  /**
   * `filteredRecordings`: everything for a blank query; otherwise the recordings whose
   * camera name, location or file name contain the lowercased (untrimmed) query.
   */
  function FilteredRecordings(recordings: seq<Recording>, query: string): (r: seq<Recording>)
    ensures Trim(query) == "" ==> r == recordings
    ensures forall x :: x in r <==> x in recordings && (Trim(query) == "" || RecordingMatches(x, Lower(query)))
  {
    if Trim(query) == "" then recordings else RecordingsMatching(recordings, Lower(query))
  }

  function RecordingsMatching(recordings: seq<Recording>, q: string): (r: seq<Recording>)
    ensures |r| <= |recordings|
    ensures forall x :: x in r <==> x in recordings && RecordingMatches(x, q)
  {
    if recordings == [] then []
    else
      var init, last := recordings[..|recordings| - 1], recordings[|recordings| - 1];
      assert forall x :: x in recordings <==> x in init || x == last;
      RecordingsMatching(init, q) + (if RecordingMatches(last, q) then [last] else [])
  }

  /**
   * Filtering distributes over concatenation; with the membership and length clauses on a
   * single element, this fixes the matching recordings as the input's matches in input order.
   */
  lemma {:induction false} RecordingsMatchingAppend(a: seq<Recording>, b: seq<Recording>, q: string)
    ensures RecordingsMatching(a + b, q) == RecordingsMatching(a, q) + RecordingsMatching(b, q)
  {
    if b == [] {
      assert a + b == a;
    } else {
      var init, last := b[..|b| - 1], b[|b| - 1];
      var tail := if RecordingMatches(last, q) then [last] else [];
      assert (a + b)[..|a + b| - 1] == a + init;
      assert (a + b)[|a + b| - 1] == last;
      assert RecordingsMatching(b, q) == RecordingsMatching(init, q) + tail;
      RecordingsMatchingAppend(a, init, q);
      calc {
        RecordingsMatching(a + b, q);
        RecordingsMatching(a + init, q) + tail;
        (RecordingsMatching(a, q) + RecordingsMatching(init, q)) + tail;
        RecordingsMatching(a, q) + (RecordingsMatching(init, q) + tail);
      }
    }
  }

  /** A query of white space only shows the whole page. */
  lemma BlankSearchShowsAll(recordings: seq<Recording>, query: string)
    requires forall i :: 0 <= i < |query| ==> IsSpace(query[i])
    ensures FilteredRecordings(recordings, query) == recordings
  {
    TrimEmptyIff(query);
  }

  /**
   * The query is not trimmed before matching: with a leading space it misses the very
   * camera name it pads.
   */
  lemma PaddedQueryNotTrimmed(r: Recording, name: string)
    requires name != [] && !IsSpace(name[0]) && Lower(name) == name
    requires r.cameraName == Some(name) && r.locationName.None? && r.filename.None?
    ensures FilteredRecordings([r], " " + name) == []
  {
    var q := " " + name;
    assert Trim(q) != "" by {
      assert !IsSpace(q[1]);
      TrimEmptyIff(q);
    }
    assert Lower(q) == q by {
      assert q[1..] == name;
    }
    if Contains(name, q) {
      ContainsNoLonger(name, q);
    }
    assert [r][..0] == [];
  }

  // ---------------------------------------------------------------- formatting

  /** JavaScript `seconds % 60`: the remainder takes the sign of the dividend. */
  function JsRem60(a: int): (r: int)
    ensures a >= 0 ==> 0 <= r < 60 && r == a % 60
    ensures a < 0 ==> -60 < r <= 0
    ensures (a - r) % 60 == 0
  {
    if a >= 0 then a % 60 else -((-a) % 60)
  }

  /** `formatDuration`: "--:--" for a missing or zero duration, else minutes:seconds. */
  function FormatDuration(seconds: Option<int>): (r: string)
    ensures seconds.None? || seconds.value == 0 ==> r == "--:--"
  {
    if seconds.None? || seconds.value == 0 then "--:--"
    else
      var s := seconds.value;
      PadStart2(IntToString(s / 60)) + ":" + PadStart2(IntToString(JsRem60(s)))
  }

  /**
   * A positive duration is written as at least two minute digits, ':', and exactly two
   * second digits below 60; reading them back gives the duration.
   */
  lemma FormatDurationReadsBack(s: nat)
    requires s > 0
    ensures var r := FormatDuration(Some(s));
            && |r| >= 5 && r[|r| - 3] == ':'
            && IsDigitString(r[..|r| - 3]) && IsDigitString(r[|r| - 2..])
            && DigitsValue(r[|r| - 2..]) < 60
            && DigitsValue(r[..|r| - 3]) * 60 + DigitsValue(r[|r| - 2..]) == s
  {
    var mins, secs := s / 60, s % 60;
    var m, t := PadStart2(NatToString(mins)), PadStart2(NatToString(secs));
    DurationParts(s);
    PaddedValue(mins);
    PaddedValue(secs);
    ShortNumber(secs);
    ColonSplit(m, t);
  }

  /** For a positive duration the two sides are the padded minutes and the padded seconds. */
  lemma DurationParts(s: nat)
    requires s > 0
    ensures FormatDuration(Some(s)) == PadStart2(NatToString(s / 60)) + ":" + PadStart2(NatToString(s % 60))
  {
  }

  /** Below 100 a number takes at most two digits. */
  lemma ShortNumber(n: nat)
    requires n < 100
    ensures |NatToString(n)| <= 2
  {
    if n >= 10 {
      assert NatToString(n) == NatToString(n / 10) + [DigitChar(n % 10)];
    }
  }

  /** The two sides of `m:t` when t has two characters. */
  lemma ColonSplit(m: string, t: string)
    requires |t| == 2
    ensures var r := m + ":" + t;
            |r| == |m| + 3 && r[|r| - 3] == ':' && r[..|r| - 3] == m && r[|r| - 2..] == t
  {
  }

  /** Padding a rendered number to two digits keeps its value. */
  lemma PaddedValue(n: nat)
    ensures IsDigitString(PadStart2(NatToString(n)))
    ensures DigitsValue(PadStart2(NatToString(n))) == n
  {
    NatToStringDigits(n);
    var s := NatToString(n);
    if |s| == 1 {
      LeadingZeroValue(s);
    }
  }

  /** What `formatFileSize` shows: nothing, bytes, or a quantity in KB or MB. */
  datatype SizeLabel = NoSize | Bytes(n: int) | KB(kb: real) | MB(mb: real)

  /** The unit `formatFileSize` picks and the quantity it rounds with `toFixed(1)`. */
  function FileSizeLabel(bytes: Option<int>): (r: SizeLabel)
    ensures r.NoSize? <==> bytes.None? || bytes.value == 0
    ensures r.Bytes? <==> bytes.Some? && bytes.value != 0 && bytes.value < 1024
    ensures r.KB? <==> bytes.Some? && 1024 <= bytes.value < 1024 * 1024
    ensures r.MB? <==> bytes.Some? && bytes.value >= 1024 * 1024
    ensures r.Bytes? ==> r.n == bytes.value
    ensures r.KB? ==> r.kb * 1024.0 == bytes.value as real && 1.0 <= r.kb < 1024.0
    ensures r.MB? ==> r.mb * 1048576.0 == bytes.value as real && 1.0 <= r.mb
  {
    if bytes.None? || bytes.value == 0 then NoSize
    else if bytes.value < 1024 then Bytes(bytes.value)
    else if bytes.value < 1024 * 1024 then KB(bytes.value as real / 1024.0)
    else MB(bytes.value as real / 1048576.0)
  }

  /** `formatFileSize`, with the one-decimal rounding abstract. */
  function FormatFileSize(bytes: Option<int>, toFixed1: real -> string): (r: string)
    ensures FileSizeLabel(bytes).NoSize? ==> r == "--"
    ensures FileSizeLabel(bytes).Bytes? ==> r == IntToString(bytes.value) + " B"
    ensures FileSizeLabel(bytes).KB? ==> r == toFixed1(FileSizeLabel(bytes).kb) + " KB"
    ensures FileSizeLabel(bytes).MB? ==> r == toFixed1(FileSizeLabel(bytes).mb) + " MB"
  {
    match FileSizeLabel(bytes)
    case NoSize => "--"
    case Bytes(n) => IntToString(n) + " B"
    case KB(k) => toFixed1(k) + " KB"
    case MB(m) => toFixed1(m) + " MB"
  }

  // ---------------------------------------------------------------- request and list updates

  /** The query string of `loadRecordings`: the camera and date only when chosen, then limit and offset. */
  function RecordingsQuery(camera: Option<string>, date: Option<string>, offset: int): (r: seq<(string, string)>)
    ensures |r| >= 2 && r[|r| - 2] == ("limit", "12") && r[|r| - 1] == ("offset", IntToString(offset))
    ensures (exists c :: ("camera_id", c) in r) <==> camera.Some? && camera.value != ""
    ensures forall c :: ("camera_id", c) in r ==> camera == Some(c)
    ensures (exists d :: ("date", d) in r) <==> date.Some? && date.value != ""
    ensures forall d :: ("date", d) in r ==> date == Some(d)
  {
    var cam := if camera.Some? && camera.value != "" then [("camera_id", camera.value)] else [];
    var day := if date.Some? && date.value != "" then [("date", date.value)] else [];
    assert "limit" != "camera_id" && "offset" != "camera_id" && "date" != "camera_id";
    assert "limit" != "date" && "offset" != "date";
    cam + day + [("limit", "12"), ("offset", IntToString(offset))]
  }

  /** `prev.filter((r) => r.id !== id)`. */
  function WithoutRecording(recordings: seq<Recording>, id: int): (r: seq<Recording>)
    ensures |r| <= |recordings|
    ensures forall x :: x in r <==> x in recordings && x.id != id
  {
    if recordings == [] then []
    else
      var init, last := recordings[..|recordings| - 1], recordings[|recordings| - 1];
      assert forall x :: x in recordings <==> x in init || x == last;
      WithoutRecording(init, id) + (if last.id != id then [last] else [])
  }

  class SurveillancePage {
    var recordings: seq<Recording>
    var total: nat
    var offset: int
    var selectedCamera: Option<string>
    var selectedDate: Option<string>
    var searchQuery: string
    var selected: Option<Recording>
    var isPlaying: bool

    /** The offset is always the first row of some page. */
    predicate Valid()
      reads this
    {
      Aligned(offset)
    }

    constructor()
      ensures Valid()
      ensures recordings == [] && total == 0 && offset == 0
      ensures selectedCamera.None? && selectedDate.None? && searchQuery == ""
      ensures selected.None? && !isPlaying
    {
      recordings := [];
      total := 0;
      offset := 0;
      selectedCamera := None;
      selectedDate := None;
      searchQuery := "";
      selected := None;
      isPlaying := false;
    }

    /** The page's request for the current filters and page. */
    function Query(): (r: seq<(string, string)>)
      reads this
      ensures r == RecordingsQuery(selectedCamera, selectedDate, offset)
    {
      RecordingsQuery(selectedCamera, selectedDate, offset)
    }

    /** A listing arrived: `data.recordings || []` and `data.total || 0`. */
    method Loaded(page: Option<seq<Recording>>, count: Option<nat>)
      requires Valid()
      modifies this
      ensures Valid()
      ensures recordings == (if page.Some? then page.value else [])
      ensures total == (if count.Some? then count.value else 0)
      ensures offset == old(offset) && selected == old(selected) && searchQuery == old(searchQuery)
      ensures selectedCamera == old(selectedCamera) && selectedDate == old(selectedDate)
      ensures isPlaying == old(isPlaying)
    {
      recordings := if page.Some? then page.value else [];
      total := if count.Some? then count.value else 0;
    }

    /** The Previous button. */
    method PreviousPage()
      requires Valid()
      modifies this
      ensures Valid()
      ensures offset == PrevOffset(old(offset))
      ensures recordings == old(recordings) && total == old(total) && selected == old(selected)
      ensures selectedCamera == old(selectedCamera) && selectedDate == old(selectedDate)
      ensures searchQuery == old(searchQuery) && isPlaying == old(isPlaying)
    {
      offset := MaxI(0, offset - Limit);
    }

    /** The Next button: shown only when there is more than one page, disabled on the last. */
    method NextPage()
      requires Valid() && TotalPages(total) > 1 && CurrentPage(offset) < TotalPages(total)
      modifies this
      ensures Valid()
      ensures offset == NextOffset(old(offset), total)
      ensures recordings == old(recordings) && total == old(total) && selected == old(selected)
      ensures selectedCamera == old(selectedCamera) && selectedDate == old(selectedDate)
      ensures searchQuery == old(searchQuery) && isPlaying == old(isPlaying)
    {
      offset := NextOffset(offset, total);
    }

    /** The camera select: the empty option clears the filter; either way back to page 1. */
    method SelectCamera(value: string)
      modifies this
      ensures Valid()
      ensures selectedCamera == (if value == "" then None else Some(value)) && offset == 0
      ensures selectedDate == old(selectedDate) && searchQuery == old(searchQuery)
      ensures recordings == old(recordings) && total == old(total) && selected == old(selected)
      ensures isPlaying == old(isPlaying)
    {
      selectedCamera := if value == "" then None else Some(value);
      offset := 0;
    }

    /** The date select: the empty option clears the filter; either way back to page 1. */
    method SelectDate(value: string)
      modifies this
      ensures Valid()
      ensures selectedDate == (if value == "" then None else Some(value)) && offset == 0
      ensures selectedCamera == old(selectedCamera) && searchQuery == old(searchQuery)
      ensures recordings == old(recordings) && total == old(total) && selected == old(selected)
      ensures isPlaying == old(isPlaying)
    {
      selectedDate := if value == "" then None else Some(value);
      offset := 0;
    }

    /** Typing in the search box filters the loaded page only: the offset stays. */
    method SetSearch(query: string)
      modifies this
      ensures searchQuery == query
      ensures offset == old(offset) && selectedCamera == old(selectedCamera) && selectedDate == old(selectedDate)
      ensures recordings == old(recordings) && total == old(total) && selected == old(selected)
      ensures isPlaying == old(isPlaying)
    {
      searchQuery := query;
    }

    /** Clear Filters: no camera, no date, no search, page 1. */
    method ClearFilters()
      modifies this
      ensures Valid()
      ensures selectedCamera.None? && selectedDate.None? && searchQuery == "" && offset == 0
      ensures recordings == old(recordings) && total == old(total) && selected == old(selected)
      ensures isPlaying == old(isPlaying)
    {
      selectedCamera := None;
      selectedDate := None;
      searchQuery := "";
      offset := 0;
    }

    /** playRecording. */
    method PlayRecording(r: Recording)
      modifies this
      ensures selected == Some(r) && isPlaying
      ensures offset == old(offset) && recordings == old(recordings) && total == old(total)
      ensures selectedCamera == old(selectedCamera) && selectedDate == old(selectedDate)
      ensures searchQuery == old(searchQuery)
    {
      selected := Some(r);
      isPlaying := true;
    }

    /**
     * deleteRecording: without the user's confirmation or with a failed DELETE nothing
     * changes; otherwise the recording leaves the list, and the player is cleared exactly
     * when it held that recording. The total is not recounted.
     */
    method DeleteRecording(id: int, confirmed: bool, deleted: bool)
      modifies this
      ensures !(confirmed && deleted) ==> recordings == old(recordings) && selected == old(selected)
      ensures confirmed && deleted ==> recordings == WithoutRecording(old(recordings), id)
      ensures confirmed && deleted ==>
                (selected.None? <==> old(selected).None? || old(selected).value.id == id)
      ensures selected.Some? ==> selected == old(selected)
      ensures offset == old(offset) && total == old(total) && isPlaying == old(isPlaying)
      ensures selectedCamera == old(selectedCamera) && selectedDate == old(selectedDate)
      ensures searchQuery == old(searchQuery)
    {
      if !confirmed || !deleted {
        return;
      }
      recordings := WithoutRecording(recordings, id);
      if selected.Some? && selected.value.id == id {
        selected := None;
      }
    }
  }
}
