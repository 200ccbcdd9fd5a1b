/**
 * backend/app/routes/api/user_dashboard.py: the weighted alert score and system status,
 * the uptime and resolution-rate percentages, the "time ago" label, the activity level
 * of an alert, and the merged, sorted, truncated activity feed.
 *
 * Timestamps are whole seconds since the epoch (a `nat`); the ISO strings the feed sorts
 * by compare in the same order as the instants they render.
 */
module UserDashboard {
  import opened Common
  import opened Sorting

  /** The fields of an alert row the dashboard reads. */
  datatype AlertRow = AlertRow(
    id: int, level: string, resolved: bool, timestamp: Option<nat>, message: Option<string>,
    inmateId: Option<int>, cameraId: Option<int>)

  datatype MatchRow = MatchRow(id: int, inmateId: Option<int>, timestamp: Option<nat>)

  /** Unresolved alerts with the given level. */
  function CountUnresolved(alerts: seq<AlertRow>, level: string): (n: nat)
    ensures n <= |alerts|
  {
    if alerts == [] then 0
    else (if !alerts[0].resolved && alerts[0].level == level then 1 else 0)
         + CountUnresolved(alerts[1..], level)
  }

  /** danger = 10 points, warning = 3, info = 1, over unresolved alerts only. */
  function AlertScore(alerts: seq<AlertRow>): (score: nat)
  {
    10 * CountUnresolved(alerts, "danger") + 3 * CountUnresolved(alerts, "warning")
      + CountUnresolved(alerts, "info")
  }

  datatype SystemStatus = Operational | Warning | Critical

  function StatusOf(score: int): (s: SystemStatus)
    ensures s == Critical <==> score >= 20
    ensures s == Warning <==> 5 <= score < 20
    ensures s == Operational <==> score < 5
  {
    if score >= 20 then Critical else if score >= 5 then Warning else Operational
  }

  function Rank(s: SystemStatus): nat
  {
    match s
    case Operational => 0
    case Warning => 1
    case Critical => 2
  }

  /** The score is additive over the alert list: resolved alerts contribute nothing. */
  lemma {:induction false} AlertScoreAppend(a: seq<AlertRow>, b: seq<AlertRow>)
    ensures AlertScore(a + b) == AlertScore(a) + AlertScore(b)
  {
    CountAppend(a, b, "danger");
    CountAppend(a, b, "warning");
    CountAppend(a, b, "info");
  }

  lemma {:induction false} CountAppend(a: seq<AlertRow>, b: seq<AlertRow>, level: string)
    ensures CountUnresolved(a + b, level) == CountUnresolved(a, level) + CountUnresolved(b, level)
  {
    if a == [] {
      assert a + b == b;
    } else {
      assert (a + b)[1..] == a[1..] + b;
      CountAppend(a[1..], b, level);
    }
  }

  /** A new alert never lowers the system status; resolving alerts never raises it. */
  lemma StatusMonotone(alerts: seq<AlertRow>, more: seq<AlertRow>)
    ensures Rank(StatusOf(AlertScore(alerts))) <= Rank(StatusOf(AlertScore(alerts + more)))
  {
    AlertScoreAppend(alerts, more);
  }

  /** One unresolved danger alert alone means 'warning'; two mean 'critical'. */
  lemma DangerAlertsStatus(a: AlertRow, b: AlertRow)
    requires !a.resolved && a.level == "danger" && !b.resolved && b.level == "danger"
    ensures StatusOf(AlertScore([a])) == Warning
    ensures StatusOf(AlertScore([a, b])) == Critical
  {
    assert [a][1..] == [];
    assert [a, b][1..] == [b];
    assert CountUnresolved([a, b], "danger") == 2;
    assert CountUnresolved([a, b], "warning") == 0;
    assert CountUnresolved([a, b], "info") == 0;
  }

  /** `(part / whole * 100) if whole > 0 else 100.0`: camera uptime and resolution rate. */
  function Percentage(part: nat, whole: nat): (p: real)
    ensures whole == 0 ==> p == 100.0
    ensures whole > 0 ==> p * whole as real == part as real * 100.0
    ensures part <= whole ==> 0.0 <= p <= 100.0
  {
    if whole > 0 then part as real / whole as real * 100.0 else 100.0
  }

  datatype Unit = Minute | Hour | Day

  /** format_time_ago, before rendering. */
  datatype TimeAgo = Unknown | JustNow | Ago(count: nat, unit: Unit) | OnDate

  function UnitSeconds(u: Unit): nat
  {
    match u
    case Minute => 60
    case Hour => 3600
    case Day => 86400
  }

  /** The bucket for a timestamp `seconds` seconds old (None: no timestamp). */
  function TimeAgoOf(seconds: Option<real>): (t: TimeAgo)
    ensures t == Unknown <==> seconds.None?
    ensures t == JustNow <==> seconds.Some? && seconds.value < 60.0
    ensures t == OnDate <==> seconds.Some? && seconds.value >= 604800.0
    ensures t.Ago? ==>
              && (t.count * UnitSeconds(t.unit)) as real <= seconds.value
              && seconds.value < ((t.count + 1) * UnitSeconds(t.unit)) as real
    ensures t.Ago? && t.unit == Minute ==> 1 <= t.count <= 59
    ensures t.Ago? && t.unit == Hour ==> 1 <= t.count <= 23 && seconds.value >= 3600.0
    ensures t.Ago? && t.unit == Day ==> 1 <= t.count <= 6 && seconds.value >= 86400.0
  {
    if seconds.None? then Unknown
    else
      var s := seconds.value;
      if s < 60.0 then JustNow
      else if s < 3600.0 then Ago(Trunc(s / 60.0), Minute)
      else if s < 86400.0 then Ago(Trunc(s / 3600.0), Hour)
      else if s < 604800.0 then Ago(Trunc(s / 86400.0), Day)
      else OnDate
  }

  function UnitName(u: Unit): string
  {
    match u
    case Minute => "min"
    case Hour => "hour"
    case Day => "day"
  }

  /** The label; `date` is `dt.strftime('%b %d, %Y')`. */
  function RenderTimeAgo(t: TimeAgo, date: string): (r: string)
    ensures t.Ago? ==>
              r == NatToString(t.count) + " " + UnitName(t.unit)
                     + (if t.count != 1 then "s" else "") + " ago"
  {
    match t
    case Unknown => "Unknown"
    case JustNow => "Just now"
    case Ago(n, u) => NatToString(n) + " " + UnitName(u) + (if n != 1 then "s" else "") + " ago"
    case OnDate => date
  }

  /** The plural "s" appears exactly when the count is not 1. */
  lemma PluralIffNotOne(n: nat, u: Unit, date: string)
    ensures var r := RenderTimeAgo(Ago(n, u), date);
            |r| >= 5 && (r[|r| - 5..] == "s ago" <==> n != 1)
  {
    var stem := NatToString(n) + " " + UnitName(u);
    var r := RenderTimeAgo(Ago(n, u), date);
    if n == 1 {
      assert r == stem + " ago";
      assert UnitName(u)[|UnitName(u)| - 1] != 's';
      assert r[|r| - 5] == stem[|stem| - 1] == UnitName(u)[|UnitName(u)| - 1];
    } else {
      assert r == stem + "s ago";
    }
  }

  /** The activity entry's level: resolved alerts show as success. */
  function ActivityLevel(resolved: bool, level: string): (r: string)
    ensures resolved ==> r == "success"
    ensures !resolved && (level == "warning" || level == "danger") ==> r == level
    ensures !resolved && level != "warning" && level != "danger" ==> r == "info"
  {
    if resolved then "success"
    else if level == "warning" then "warning"
    else if level == "danger" then "danger"
    else "info"
  }

  datatype Kind = AlertItem | MatchItem

  datatype Activity = Activity(
    kind: Kind, id: int, message: string, level: string, timestamp: Option<nat>,
    time: string, inmateName: Option<string>, cameraName: Option<string>)

  /** Lookup by primary key, for `Inmate.query.get` and `Camera.query.get`. */
  function NameOf(names: map<int, string>, id: Option<int>): (r: Option<string>)
    ensures r.Some? <==> id.Some? && id.value != 0 && id.value in names
  {
    if id.Some? && id.value != 0 && id.value in names then Some(names[id.value]) else None
  }

  /** The entry built for an alert. */
  function AlertActivity(a: AlertRow, inmates: map<int, string>, cameras: map<int, string>,
                         timeAgo: Option<nat> -> string): (e: Activity)
    ensures e.kind == AlertItem && e.id == a.id && e.timestamp == a.timestamp
    ensures e.level == ActivityLevel(a.resolved, a.level)
  {
    var msg := if a.message.Some? && a.message.value != "" then a.message.value else "Alert: " + a.level;
    Activity(AlertItem, a.id, msg, ActivityLevel(a.resolved, a.level), a.timestamp,
             timeAgo(a.timestamp), NameOf(inmates, a.inmateId), NameOf(cameras, a.cameraId))
  }

  /** The entry built for a match. */
  function MatchActivity(m: MatchRow, inmates: map<int, string>, timeAgo: Option<nat> -> string): (e: Activity)
    ensures e.kind == MatchItem && e.id == m.id && e.timestamp == m.timestamp && e.level == "warning"
  {
    var name := NameOf(inmates, m.inmateId);
    Activity(MatchItem, m.id, "Match detected: " + (if name.Some? then name.value else "Unknown"), "warning",
             m.timestamp, timeAgo(m.timestamp), name, None)
  }

  /**
   * The ascending key whose stable sort gives `sort(key=timestamp or '', reverse=True)`:
   * later instants first, entries without a timestamp (key '') after all others.
   */
  function NewestFirst(e: Activity): real
  {
    if e.timestamp.Some? then -(e.timestamp.value as real) else 1.0
  }

  /** The entries for the alerts, in query order. */
  function AlertEntries(alerts: seq<AlertRow>, inmates: map<int, string>, cameras: map<int, string>,
                        timeAgo: Option<nat> -> string): (act: seq<Activity>)
    ensures |act| == |alerts|
  {
    if alerts == [] then []
    else AlertEntries(alerts[..|alerts| - 1], inmates, cameras, timeAgo)
         + [AlertActivity(alerts[|alerts| - 1], inmates, cameras, timeAgo)]
  }

  /** The entries for the matches, in query order. */
  function MatchEntries(matches: seq<MatchRow>, inmates: map<int, string>,
                        timeAgo: Option<nat> -> string): (act: seq<Activity>)
    ensures |act| == |matches|
  {
    if matches == [] then []
    else MatchEntries(matches[..|matches| - 1], inmates, timeAgo)
         + [MatchActivity(matches[|matches| - 1], inmates, timeAgo)]
  }

  /** The merged list before sorting: alerts first, then matches, each in query order. */
  function Merged(alerts: seq<AlertRow>, matches: seq<MatchRow>, inmates: map<int, string>,
                  cameras: map<int, string>, timeAgo: Option<nat> -> string): (act: seq<Activity>)
    ensures |act| == |alerts| + |matches|
  {
    AlertEntries(alerts, inmates, cameras, timeAgo) + MatchEntries(matches, inmates, timeAgo)
  }

  datatype ActivityFeed = ActivityFeed(activity: seq<Activity>, totalCount: nat)

  /** The loop over the alerts: one entry per alert, looked-up names included. */
  method BuildAlertEntries(alerts: seq<AlertRow>, inmates: map<int, string>, cameras: map<int, string>,
                           timeAgo: Option<nat> -> string)
    returns (activity: seq<Activity>)
    ensures activity == AlertEntries(alerts, inmates, cameras, timeAgo)
  {
    activity := [];
    var i := 0;
    while i < |alerts|
      invariant 0 <= i <= |alerts|
      invariant activity == AlertEntries(alerts[..i], inmates, cameras, timeAgo)
    {
      var entry := AlertActivity(alerts[i], inmates, cameras, timeAgo);
      assert alerts[..i + 1][..i] == alerts[..i];
      assert AlertEntries(alerts[..i + 1], inmates, cameras, timeAgo) == activity + [entry];
      activity := activity + [entry];
      i := i + 1;
    }
    assert alerts[..i] == alerts;
  }

  /** The loop over the matches: one entry per match. */
  method BuildMatchEntries(matches: seq<MatchRow>, inmates: map<int, string>, timeAgo: Option<nat> -> string)
    returns (activity: seq<Activity>)
    ensures activity == MatchEntries(matches, inmates, timeAgo)
  {
    activity := [];
    var j := 0;
    while j < |matches|
      invariant 0 <= j <= |matches|
      invariant activity == MatchEntries(matches[..j], inmates, timeAgo)
    {
      var entry := MatchActivity(matches[j], inmates, timeAgo);
      assert matches[..j + 1][..j] == matches[..j];
      assert MatchEntries(matches[..j + 1], inmates, timeAgo) == activity + [entry];
      activity := activity + [entry];
      j := j + 1;
    }
    assert matches[..j] == matches;
  }

  /**
   * get_recent_activity over the recent alerts and matches (each query's newest 20):
   * build the entries, sort newest first, return the first 10 and the total.
   */
  method RecentActivity(alerts: seq<AlertRow>, matches: seq<MatchRow>, inmates: map<int, string>,
                        cameras: map<int, string>, timeAgo: Option<nat> -> string)
    returns (feed: ActivityFeed)
    ensures feed.totalCount == |alerts| + |matches|
    ensures var sorted := SortByKey(Merged(alerts, matches, inmates, cameras, timeAgo), NewestFirst);
            feed.activity == if |sorted| <= 10 then sorted else sorted[..10]
  {
    var activity := BuildAlertEntries(alerts, inmates, cameras, timeAgo);
    var matched := BuildMatchEntries(matches, inmates, timeAgo);
    activity := activity + matched;
    activity := SortByKey(activity, NewestFirst);
    feed := ActivityFeed(if |activity| <= 10 then activity else activity[..10], |alerts| + |matches|);
  }

  /**
   * The feed holds at most 10 entries, newest first with undated entries last, and
   * entries of equal timestamp keep alerts before matches and query order.
   */
  lemma FeedOrdered(act: seq<Activity>, k: real)
    ensures var s := SortByKey(act, NewestFirst); |if |s| <= 10 then s else s[..10]| <= 10
    ensures var s := SortByKey(act, NewestFirst);
            forall i, j :: 0 <= i < j < |s| && s[i].timestamp.None? ==> s[j].timestamp.None?
    ensures var s := SortByKey(act, NewestFirst);
            forall i, j :: 0 <= i < j < |s| && s[j].timestamp.Some? ==>
              s[i].timestamp.Some? && s[i].timestamp.value >= s[j].timestamp.value
    ensures WithKey(SortByKey(act, NewestFirst), NewestFirst, k) == WithKey(act, NewestFirst, k)
  {
    var s := SortByKey(act, NewestFirst);
    SortSorted(act, NewestFirst);
    SortStable(act, NewestFirst, k);
    forall i, j | 0 <= i < j < |s| && s[j].timestamp.Some?
      ensures s[i].timestamp.Some? && s[i].timestamp.value >= s[j].timestamp.value
    {
      assert NewestFirst(s[i]) <= NewestFirst(s[j]);
    }
    forall i, j | 0 <= i < j < |s| && s[i].timestamp.None?
      ensures s[j].timestamp.None?
    {
      assert NewestFirst(s[i]) <= NewestFirst(s[j]);
    }
  }
}
