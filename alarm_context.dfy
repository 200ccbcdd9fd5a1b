/**
 * frontend/src/contexts/AlarmContext.jsx: the registry of ringing alarms shared by the
 * whole UI. The React state (the Map of active alarms keyed by alert id, the alarm shown in
 * the modal, the siren flags and whether the resolve poll runs) is the state of a class;
 * each callback is a method applying that callback's state updates together. Timers, the
 * audio element and the fetch are left out: the poll's response is an input.
 */
module AlarmContext {
  import opened Common

  /** A JavaScript Map key: alert ids are numbers or strings, compared without coercion. */
  datatype AlarmKey = NumKey(n: int) | StrKey(s: string)

  /** JavaScript truthiness of an optional key: undefined, null, 0 and "" are falsy. */
  predicate TruthyKey(k: Option<AlarmKey>)
  {
    match k
    case None => false
    case Some(NumKey(n)) => n != 0
    case Some(StrKey(s)) => s != ""
  }

  /** The object passed to triggerAlarm: its two id spellings and the rest of its fields. */
  datatype AlarmData = AlarmData(alertIdSnake: Option<AlarmKey>, alertIdCamel: Option<AlarmKey>, details: string)

  /** An entry of activeAlarms: the data, the key it is stored under, the trigger time. */
  datatype Alarm = Alarm(data: AlarmData, alertId: AlarmKey, triggeredAt: string)

  /** The alarm shown in the modal. */
  datatype Shown = Shown(data: AlarmData, alertId: AlarmKey)

  /** One alert of the backend's `/api/alerts/` list, as far as the poll reads it. */
  datatype BackendAlert = BackendAlert(id: AlarmKey, status: string, resolved: bool)

  /** `alarmData.alert_id || alarmData.alertId || Date.now()`. */
  function AlarmKeyOf(data: AlarmData, now: int): (k: AlarmKey)
    ensures TruthyKey(data.alertIdSnake) ==> k == data.alertIdSnake.value
    ensures !TruthyKey(data.alertIdSnake) && TruthyKey(data.alertIdCamel) ==> k == data.alertIdCamel.value
    ensures !TruthyKey(data.alertIdSnake) && !TruthyKey(data.alertIdCamel) ==> k == NumKey(now)
  {
    if TruthyKey(data.alertIdSnake) then data.alertIdSnake.value
    else if TruthyKey(data.alertIdCamel) then data.alertIdCamel.value
    else NumKey(now)
  }

  /** An alert id of 0 does not name the alarm: it falls through to the next spelling. */
  lemma ZeroIdFallsThrough(camel: int, details: string, now: int)
    requires camel != 0
    ensures AlarmKeyOf(AlarmData(Some(NumKey(0)), Some(NumKey(camel)), details), now) == NumKey(camel)
    ensures AlarmKeyOf(AlarmData(Some(StrKey("")), None, details), now) == NumKey(now)
  {
  }

  /** `alerts.find(a => a.id === key)`: the first backend alert with that id. */
  function FirstAlert(alerts: seq<BackendAlert>, key: AlarmKey): (r: Option<BackendAlert>)
    ensures r.Some? ==> r.value in alerts && r.value.id == key
    ensures r.None? ==> forall a :: a in alerts ==> a.id != key
  {
    if alerts == [] then None
    else if alerts[0].id == key then Some(alerts[0])
    else FirstAlert(alerts[1..], key)
  }

  /** Whether the backend reports the alarm's alert resolved. */
  predicate ReportedResolved(alerts: seq<BackendAlert>, key: AlarmKey)
  {
    var a := FirstAlert(alerts, key);
    a.Some? && (a.value.status == "resolved" || a.value.resolved)
  }

  /** The ids checkResolvedAlarms collects: active ids whose backend alert is resolved. */
  function ResolvedIds(active: set<AlarmKey>, alerts: seq<BackendAlert>): (ids: set<AlarmKey>)
    ensures ids <= active
    ensures forall k :: k in active && FirstAlert(alerts, k).None? ==> k !in ids
    ensures forall k :: k in ids <==> k in active && ReportedResolved(alerts, k)
  {
    set k | k in active && ReportedResolved(alerts, k)
  }

  /** The forEach over the active alarms that pushes the resolved ids. */
  method CollectResolved(active: map<AlarmKey, Alarm>, alerts: seq<BackendAlert>) returns (ids: set<AlarmKey>)
    ensures ids == ResolvedIds(active.Keys, alerts)
  {
    ids := {};
    var todo := active.Keys;
    while todo != {}
      invariant todo <= active.Keys
      invariant ids == ResolvedIds(active.Keys - todo, alerts)
      decreases |todo|
    {
      var k :| k in todo;
      var backendAlert := FirstAlert(alerts, k);
      if backendAlert.Some? && (backendAlert.value.status == "resolved" || backendAlert.value.resolved) {
        ids := ids + {k};
      }
      todo := todo - {k};
    }
  }

  class AlarmRegistry {
    var activeAlarms: map<AlarmKey, Alarm>
    var visibleAlarm: Option<Shown>
    var isAudioPlaying: bool
    var isInSilentPeriod: bool
    /** Whether the ten-second resolve poll is scheduled. */
    var polling: bool

    /** Each stored alarm carries the key it is stored under. */
    ghost predicate Valid()
      reads this
    {
      forall k :: k in activeAlarms ==> activeAlarms[k].alertId == k
    }

    constructor()
      ensures Valid()
      ensures activeAlarms == map[] && visibleAlarm.None? && !isAudioPlaying && !isInSilentPeriod && !polling
    {
      activeAlarms := map[];
      visibleAlarm := None;
      isAudioPlaying := false;
      isInSilentPeriod := false;
      polling := false;
    }

    /** hasActiveAlarms. */
    function HasActiveAlarms(): (r: bool)
      reads this
      ensures r <==> activeAlarms != map[]
    {
      |activeAlarms| > 0
    }

    /** startSoundCycle's state change (the ten-minute timer is not modelled). */
    method StartSoundCycle()
      modifies this
      ensures isAudioPlaying && !isInSilentPeriod
      ensures activeAlarms == old(activeAlarms) && visibleAlarm == old(visibleAlarm) && polling == old(polling)
    {
      isAudioPlaying := true;
      isInSilentPeriod := false;
    }

    /** stopSoundCycle: the siren stops and no silent period is pending. */
    method StopSoundCycle()
      modifies this
      ensures !isAudioPlaying && !isInSilentPeriod
      ensures activeAlarms == old(activeAlarms) && visibleAlarm == old(visibleAlarm) && polling == old(polling)
    {
      isAudioPlaying := false;
      isInSilentPeriod := false;
    }

    /**
     * triggerAlarm: stores (or overwrites) the alarm under its key, shows it, and starts
     * the siren unless it is already sounding or in its silent period.
     */
    method TriggerAlarm(data: AlarmData, now: int, nowIso: string)
      requires Valid()
      modifies this
      ensures Valid()
      ensures var key := AlarmKeyOf(data, now);
              && activeAlarms == old(activeAlarms)[key := Alarm(data, key, nowIso)]
              && visibleAlarm == Some(Shown(data, key))
      ensures activeAlarms.Keys == old(activeAlarms).Keys + {AlarmKeyOf(data, now)}
      ensures polling == old(polling)
      ensures !old(isAudioPlaying) && !old(isInSilentPeriod) ==> isAudioPlaying && !isInSilentPeriod
      ensures old(isAudioPlaying) || old(isInSilentPeriod) ==>
                isAudioPlaying == old(isAudioPlaying) && isInSilentPeriod == old(isInSilentPeriod)
    {
      var alertId := AlarmKeyOf(data, now);
      activeAlarms := activeAlarms[alertId := Alarm(data, alertId, nowIso)];
      visibleAlarm := Some(Shown(data, alertId));
      if !isAudioPlaying && !isInSilentPeriod {
        StartSoundCycle();
      }
    }

    /** dismissVisual: hides the modal; the alarms and the siren go on. */
    method DismissVisual()
      modifies this
      ensures visibleAlarm.None?
      ensures activeAlarms == old(activeAlarms) && polling == old(polling)
      ensures isAudioPlaying == old(isAudioPlaying) && isInSilentPeriod == old(isInSilentPeriod)
    {
      visibleAlarm := None;
    }

    /** resolveAlarm: forgets that key only, and hides the modal iff it shows that alarm. */
    method ResolveAlarm(alertId: AlarmKey)
      requires Valid()
      modifies this
      ensures Valid()
      ensures activeAlarms == old(activeAlarms) - {alertId}
      ensures forall k :: k != alertId ==> (k in activeAlarms <==> k in old(activeAlarms))
      ensures old(visibleAlarm).Some? && old(visibleAlarm).value.alertId == alertId ==> visibleAlarm.None?
      ensures !(old(visibleAlarm).Some? && old(visibleAlarm).value.alertId == alertId) ==>
                visibleAlarm == old(visibleAlarm)
      ensures isAudioPlaying == old(isAudioPlaying) && isInSilentPeriod == old(isInSilentPeriod)
      ensures polling == old(polling)
    {
      activeAlarms := activeAlarms - {alertId};
      if visibleAlarm.Some? && visibleAlarm.value.alertId == alertId {
        visibleAlarm := None;
      }
    }

    /** stopAllAlarms: the emergency stop empties everything and silences the siren. */
    method StopAllAlarms()
      modifies this
      ensures Valid()
      ensures activeAlarms == map[] && visibleAlarm.None? && !isAudioPlaying && !isInSilentPeriod
      ensures polling == old(polling)
    {
      activeAlarms := map[];
      visibleAlarm := None;
      StopSoundCycle();
    }

    /**
     * checkResolvedAlarms with the poll's outcome: None when the fetch failed or the
     * response was not ok. Only alarms the backend reports resolved are removed.
     */
    method CheckResolvedAlarms(response: Option<seq<BackendAlert>>)
      requires Valid()
      modifies this
      ensures Valid()
      ensures old(activeAlarms) == map[] || response.None? ==> activeAlarms == old(activeAlarms)
      ensures response.Some? ==>
                activeAlarms == old(activeAlarms) - ResolvedIds(old(activeAlarms).Keys, response.value)
      ensures response.Some? ==>
                forall k :: k in activeAlarms <==> k in old(activeAlarms) && !ReportedResolved(response.value, k)
      ensures visibleAlarm == old(visibleAlarm) && polling == old(polling)
      ensures isAudioPlaying == old(isAudioPlaying) && isInSilentPeriod == old(isInSilentPeriod)
    {
      if |activeAlarms| == 0 {
        return;
      }
      if response.None? {
        return;
      }
      var resolvedIds := CollectResolved(activeAlarms, response.value);
      if |resolvedIds| > 0 {
        activeAlarms := activeAlarms - resolvedIds;
      }
    }

    /**
     * The effect that runs when the number of alarms or the siren flags change: with
     * alarms, start the siren if it is idle and schedule the poll; without, stop both.
     */
    method SyncEffect()
      modifies this
      ensures activeAlarms == old(activeAlarms) && visibleAlarm == old(visibleAlarm)
      ensures old(activeAlarms) != map[] ==> polling
      ensures old(activeAlarms) != map[] && !old(isAudioPlaying) && !old(isInSilentPeriod) ==>
                isAudioPlaying && !isInSilentPeriod
      ensures old(activeAlarms) != map[] && (old(isAudioPlaying) || old(isInSilentPeriod)) ==>
                isAudioPlaying == old(isAudioPlaying) && isInSilentPeriod == old(isInSilentPeriod)
      ensures old(activeAlarms) == map[] ==> !isAudioPlaying && !isInSilentPeriod && !polling
    {
      if |activeAlarms| > 0 {
        if !isAudioPlaying && !isInSilentPeriod {
          StartSoundCycle();
        }
        if !polling {
          polling := true;
        }
      } else {
        StopSoundCycle();
        polling := false;
      }
    }

    /** The ten minutes of siren are over: a five-minute silence begins. */
    method SoundOnElapsed()
      modifies this
      ensures !isAudioPlaying && isInSilentPeriod
      ensures activeAlarms == old(activeAlarms) && visibleAlarm == old(visibleAlarm) && polling == old(polling)
    {
      isAudioPlaying := false;
      isInSilentPeriod := true;
    }

    /** The silence is over: the cycle restarts only while alarms remain. */
    method SilenceElapsed()
      modifies this
      ensures activeAlarms != map[] ==> isAudioPlaying && !isInSilentPeriod
      ensures activeAlarms == map[] ==>
                isAudioPlaying == old(isAudioPlaying) && isInSilentPeriod == old(isInSilentPeriod)
      ensures activeAlarms == old(activeAlarms) && visibleAlarm == old(visibleAlarm) && polling == old(polling)
    {
      if |activeAlarms| > 0 {
        StartSoundCycle();
      }
    }
  }

  /** An alarm the backend has not resolved, or does not list at all, keeps ringing. */
  lemma UnresolvedStays(active: map<AlarmKey, Alarm>, alerts: seq<BackendAlert>, k: AlarmKey)
    requires k in active
    requires forall a :: a in alerts && a.id == k ==> a.status != "resolved" && !a.resolved
    ensures k in active - ResolvedIds(active.Keys, alerts)
  {
  }
}
