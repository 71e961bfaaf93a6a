/** The monitoring controller of `MicrophoneApp` as a state machine over
    values. Each function is one handler of the application and is the
    specification of the method of the same role in
    `Controller.MicrophoneApp`; the lemmas state what the handlers promise. */
module Machine {
  import opened Options
  import opened Text
  import opened Interval
  import opened Devices
  import opened Volume

  /** One successful `SetMasterVolumeLevelScalar` call on an endpoint. */
  datatype Write = Write(endpoint: Endpoint, scalar: real)

  /** Everything the controller's decisions read or write. */
  datatype State = State(
    devices: seq<Device>,
    names: seq<string>,               // the combobox values
    deviceMap: map<string, Device>,
    selection: string,                // the combobox text
    currentDevice: Option<Device>,
    endpoint: Option<Endpoint>,
    monitoring: bool,
    afterId: Option<nat>,             // token of the last scheduled callback
    pending: map<nat, nat>,           // the event loop's callbacks: token to delay in ms
    nextToken: nat,                   // the token the event loop hands out next
    frequencySeconds: int,            // the last accepted interval
    frequencyText: string,            // the interval field
    targetPercent: int,               // the slider's variable
    applied: seq<Write>)              // what the endpoints were sent, in order

  /** What the user can do, and what the event loop does on its own. */
  datatype Event =
    | Refreshed(devs: seq<Device>)
    | Chosen(name: string)
    | SliderMoved(value: Option<int>)
    | FrequencyEdited(text: string)
    | StartPressed(startWriteOk: bool)
    | StopPressed
    | TimerFired(timerWriteOk: bool)

  function TokenSet(id: Option<nat>): set<nat> {
    if id.Some? then {id.value} else {}
  }

  function EndpointOf(d: Option<Device>): Option<Endpoint> {
    if d.Some? then Some(d.value.endpoint) else None
  }

  /** The controller's invariant: the interval is positive, the map and the
      combobox values come from the device list, the bound endpoint is the
      bound device's, the only callback that can be pending is the one
      `after_id` names, and it exists only while monitoring. */
  predicate Inv(s: State) {
    && s.frequencySeconds > 0
    && s.names == Names(s.devices)
    && s.deviceMap == DeviceMap(s.devices)
    && s.endpoint == EndpointOf(s.currentDevice)
    && s.pending.Keys <= TokenSet(s.afterId)
    && (s.afterId.Some? ==> s.monitoring && s.afterId.value < s.nextToken)
  }

  /** The fields as `__init__` sets them, before its first refresh. */
  function Initial(): (s: State)
    ensures Inv(s) && !s.monitoring
  {
    State([], [], map[], "", None, None, false, None, map[], 0, 5, "5", 100, [])
  }

  /** `get_frequency_seconds`: the accepted interval, or `None` with the
      field set back to the last accepted interval. */
  function ReadFrequency(s: State): (p: (State, Option<int>))
    ensures p.1 == FrequencyOf(s.frequencyText)
    ensures p.1.Some? ==> p.1.value > 0 && p.0 == s
    ensures p.1.None? ==> p.0 == s.(frequencyText := ShowInt(s.frequencySeconds))
    ensures p.1.None? && s.frequencySeconds > 0 ==>
      FrequencyOf(p.0.frequencyText) == Some(s.frequencySeconds)
  {
    ResetTextRevalidates(s.frequencySeconds);
    var f := FrequencyOf(s.frequencyText);
    (if f.None? then s.(frequencyText := ShowInt(s.frequencySeconds)) else s, f)
  }

  /** `after_cancel(after_id)` followed by `after_id = None`: under the
      invariant nothing is left pending, and nothing else changes. */
  function CancelPending(s: State): (r: State)
    ensures r.afterId.None? && r.pending.Keys <= s.pending.Keys
    ensures Inv(s) ==> r.pending == map[]
    ensures r.(afterId := s.afterId, pending := s.pending) == s
  {
    if s.afterId.Some? then
      EmptyWhenAllCancelled(s.pending, s.afterId.value);
      s.(pending := s.pending - {s.afterId.value}, afterId := None)
    else s
  }

  /** `stop_monitoring`. */
  function Stop(s: State): (r: State)
    ensures !r.monitoring && r.afterId.None?
    ensures r.pending.Keys <= s.pending.Keys
    ensures r.applied == s.applied && r.currentDevice == s.currentDevice
    ensures r.(monitoring := s.monitoring, afterId := s.afterId, pending := s.pending) == s
  {
    if !s.monitoring && s.afterId.None? then s
    else CancelPending(s).(monitoring := false)
  }

  /** `schedule_next_enforcement`. */
  function Schedule(s: State): (r: State)
    ensures !s.monitoring ==> r == s
    ensures r.monitoring ==> r.afterId.Some? && r.afterId.value in r.pending && r.frequencySeconds > 0
    ensures r.applied == s.applied && r.currentDevice == s.currentDevice
    ensures r.(monitoring := s.monitoring, afterId := s.afterId, pending := s.pending,
               nextToken := s.nextToken, frequencySeconds := s.frequencySeconds,
               frequencyText := s.frequencyText) == s
  {
    if !s.monitoring then s
    else
      var (t, delay) := ReadFrequency(CancelPending(s));
      if delay.None? then Stop(t)
      else
        t.(frequencySeconds := delay.value,
           afterId := Some(t.nextToken),
           pending := t.pending[t.nextToken := delay.value * 1000],
           nextToken := t.nextToken + 1)
  }

  /** `enforce_target_volume`, where `writeOk` is whether the endpoint
      accepted the new level. */
  function Enforce(s: State, writeOk: bool): (r: State)
    ensures !s.monitoring ==> r == s
    ensures !writeOk ==> r.applied == s.applied && (s.endpoint.Some? ==> !r.monitoring)
    ensures r.applied == s.applied
            || (s.endpoint.Some? && r.applied == s.applied + [Write(s.endpoint.value, VolumeScalar(s.targetPercent))])
    ensures r.currentDevice == s.currentDevice
    ensures r.(monitoring := s.monitoring, afterId := s.afterId, pending := s.pending,
               nextToken := s.nextToken, frequencySeconds := s.frequencySeconds,
               frequencyText := s.frequencyText, applied := s.applied) == s
  {
    if !s.monitoring || s.endpoint.None? then s
    else if !writeOk then Stop(s)
    else Schedule(s.(applied := s.applied + [Write(s.endpoint.value, VolumeScalar(s.targetPercent))]))
  }

  /** `start_monitoring`; `writeOk` is the outcome of its first write. */
  function Start(s: State, writeOk: bool): (r: State)
    ensures s.monitoring ==> r == s
    ensures r.monitoring && !s.monitoring ==>
      writeOk && s.selection in s.deviceMap && r.currentDevice == Some(s.deviceMap[s.selection])
    ensures r.(monitoring := s.monitoring, afterId := s.afterId, pending := s.pending,
               nextToken := s.nextToken, frequencySeconds := s.frequencySeconds,
               frequencyText := s.frequencyText, applied := s.applied,
               currentDevice := s.currentDevice, endpoint := s.endpoint) == s
  {
    if s.monitoring || s.selection == "" || s.selection !in s.deviceMap then s
    else
      var (t, f) := ReadFrequency(s);
      if f.None? then t
      else Enforce(Arm(t, s.deviceMap[s.selection], f.value), writeOk)
  }

  /** What `start_monitoring` sets before its first enforcement. */
  function Arm(s: State, d: Device, seconds: int): (r: State)
    ensures Inv(s) && seconds > 0 ==> Inv(r)
  {
    s.(frequencySeconds := seconds, currentDevice := Some(d), endpoint := Some(d.endpoint),
       monitoring := true)
  }

  /** `_on_device_selected`: bind the device the combobox names, if any. */
  function DeviceSelected(s: State): (r: State)
    ensures r.currentDevice.Some? <==> s.selection in s.deviceMap
    ensures s.selection in s.deviceMap ==> r.currentDevice == Some(s.deviceMap[s.selection])
    ensures Inv(s) && r.currentDevice.Some? ==> r.currentDevice.value.name == s.selection
    ensures r.endpoint == EndpointOf(r.currentDevice)
    ensures r.(currentDevice := s.currentDevice, endpoint := s.endpoint) == s
    ensures Inv(s) ==> Inv(r)
  {
    if s.selection in s.deviceMap then
      var d := s.deviceMap[s.selection];
      s.(currentDevice := Some(d), endpoint := Some(d.endpoint))
    else
      s.(currentDevice := None, endpoint := None)
  }

  /** The first half of `refresh_devices`: the new list, its map and the
      re-chosen selection; the bound device is not touched yet. */
  function Relist(s: State, devs: seq<Device>): (r: State)
    ensures r.devices == devs && r.names == Names(devs) && r.deviceMap == DeviceMap(devs)
    ensures r.selection == Reselect(s.selection, devs)
    ensures r.(devices := s.devices, names := s.names, deviceMap := s.deviceMap,
               selection := s.selection) == s
    ensures Inv(s) ==> Inv(r)
    ensures devs != [] ==> r.selection in r.deviceMap
  {
    s.(devices := devs, names := Names(devs), deviceMap := DeviceMap(devs),
       selection := Reselect(s.selection, devs))
  }

  /** `refresh_devices` given the endpoints the system now reports. */
  function Refresh(s: State, devs: seq<Device>): (r: State)
    ensures r.applied == s.applied
    ensures r.devices == devs && r.names == Names(devs) && r.deviceMap == DeviceMap(devs)
    ensures r.selection == Reselect(s.selection, devs)
    ensures devs == [] ==> !r.monitoring && r.currentDevice.None? && r.selection == ""
    ensures devs != [] ==> r.selection in DeviceMap(devs)
                           && r.currentDevice == Some(DeviceMap(devs)[r.selection])
    ensures r.(devices := s.devices, names := s.names, deviceMap := s.deviceMap,
               selection := s.selection, currentDevice := s.currentDevice,
               endpoint := s.endpoint, monitoring := s.monitoring, afterId := s.afterId,
               pending := s.pending) == s
  {
    var t := Relist(s, devs);
    if |t.names| == 0 then Stop(t.(currentDevice := None, endpoint := None))
    else DeviceSelected(t)
  }

  /** `_on_volume_change`; `None` stands for a slider value `int()` rejects. */
  function VolumeChanged(s: State, value: Option<int>): (r: State)
    ensures 0 <= r.targetPercent <= 100
    ensures value.Some? && 0 <= value.value <= 100 ==> r.targetPercent == value.value
    ensures value.None? && 0 <= s.targetPercent <= 100 ==> r == s
    ensures value.Some? ==> r.targetPercent == Clamp(value.value)
    ensures value.None? ==> r.targetPercent == Clamp(s.targetPercent)
    ensures r.(targetPercent := s.targetPercent) == s
  {
    var numeric := if value.Some? then value.value else s.targetPercent;
    s.(targetPercent := Clamp(numeric))
  }

  /** The event loop runs the callback `after_id` names, if still pending. */
  function Fire(s: State, writeOk: bool): (r: State)
    ensures s.afterId.None? ==> r == s
    ensures s.afterId.Some? && s.afterId.value in s.pending ==>
      r == Enforce(s.(pending := s.pending - {s.afterId.value}), writeOk)
    ensures s.afterId.Some? && s.afterId.value !in s.pending ==> r == s
    ensures r.applied == s.applied
            || (s.endpoint.Some? && r.applied == s.applied + [Write(s.endpoint.value, VolumeScalar(s.targetPercent))])
  {
    if s.afterId.Some? && s.afterId.value in s.pending then
      Enforce(s.(pending := s.pending - {s.afterId.value}), writeOk)
    else s
  }

  function Step(s: State, e: Event): State {
    match e
    case Refreshed(devs) => Refresh(s, devs)
    case Chosen(name) => DeviceSelected(s.(selection := name))
    case SliderMoved(value) => VolumeChanged(s, value)
    case FrequencyEdited(text) => s.(frequencyText := text)
    case StartPressed(ok) => Start(s, ok)
    case StopPressed => Stop(s)
    case TimerFired(ok) => Fire(s, ok)
  }

  function Run(s: State, events: seq<Event>): State
    decreases |events|
  {
    if events == [] then s else Run(Step(s, events[0]), events[1..])
  }

  // ---------------------------------------------------------------------
  // Stopping

  lemma EmptyWhenAllCancelled(pending: map<nat, nat>, id: nat)
    ensures pending.Keys <= {id} ==> pending - {id} == map[]
  {
    if pending.Keys <= {id} {
      assert (pending - {id}).Keys == {};
    }
  }

  /** After `stop_monitoring` the controller is idle with nothing pending,
      and nothing but the monitoring flag and the callback token changed. */
  lemma StopHalts(s: State)
    requires Inv(s)
    ensures Stop(s) == s.(monitoring := false, afterId := None, pending := map[])
    ensures Inv(Stop(s))
  {
    if s.afterId.Some? {
      EmptyWhenAllCancelled(s.pending, s.afterId.value);
    } else {
      assert s.pending.Keys == {};
    }
  }

  /** Stopping twice is stopping once, and stopping an idle controller with
      nothing pending changes nothing. */
  lemma StopIdempotent(s: State)
    requires Inv(s)
    ensures Stop(Stop(s)) == Stop(s)
    ensures !s.monitoring && s.afterId.None? ==> Stop(s) == s
  {
    StopHalts(s);
  }

  // ---------------------------------------------------------------------
  // Scheduling

  /** A valid interval cancels the previous callback and leaves exactly one
      new callback pending, with that interval as its delay. */
  lemma ScheduleReplacesCallback(s: State, f: int)
    requires Inv(s) && s.monitoring
    requires FrequencyOf(s.frequencyText) == Some(f)
    ensures var t := Schedule(s);
      && t.monitoring && Inv(t)
      && t.afterId == Some(s.nextToken)
      && t.pending == map[s.nextToken := f * 1000]
      && t.frequencySeconds == f
      && t.applied == s.applied
    ensures Schedule(s) == s.(afterId := Some(s.nextToken), pending := map[s.nextToken := f * 1000],
                              nextToken := s.nextToken + 1, frequencySeconds := f)
  {
    if s.afterId.Some? {
      EmptyWhenAllCancelled(s.pending, s.afterId.value);
    } else {
      assert s.pending.Keys == {};
    }
  }

  /** An invalid interval while monitoring stops monitoring instead of
      rescheduling, and restores the field to text that validates. */
  lemma ScheduleRejectStops(s: State)
    requires Inv(s) && s.monitoring
    requires FrequencyOf(s.frequencyText).None?
    ensures var t := Schedule(s);
      && !t.monitoring && t.afterId.None? && t.pending == map[] && Inv(t)
      && t.frequencyText == ShowInt(s.frequencySeconds)
      && FrequencyOf(t.frequencyText) == Some(s.frequencySeconds)
      && t.applied == s.applied
    ensures Schedule(s) == s.(monitoring := false, afterId := None, pending := map[],
                              frequencyText := ShowInt(s.frequencySeconds))
  {
    if s.afterId.Some? {
      EmptyWhenAllCancelled(s.pending, s.afterId.value);
    } else {
      assert s.pending.Keys == {};
    }
    ResetTextRevalidates(s.frequencySeconds);
  }

  lemma ScheduleKeepsInv(s: State)
    requires Inv(s)
    ensures Inv(Schedule(s))
  {
    if s.monitoring {
      var f := FrequencyOf(s.frequencyText);
      if f.Some? {
        ScheduleReplacesCallback(s, f.value);
      } else {
        ScheduleRejectStops(s);
      }
    }
  }

  // ---------------------------------------------------------------------
  // Enforcing

  /** Enforcement does nothing while idle or with no endpoint bound. */
  lemma EnforceNeedsBinding(s: State, writeOk: bool)
    requires !s.monitoring || s.endpoint.None?
    ensures Enforce(s, writeOk) == s
  {
  }

  /** A failed write ends monitoring with no callback pending and no write
      recorded. */
  lemma FailedWriteHalts(s: State)
    requires Inv(s) && s.monitoring && s.endpoint.Some?
    ensures var t := Enforce(s, false);
      && !t.monitoring && t.afterId.None? && t.pending == map[]
      && t.applied == s.applied && Inv(t)
    ensures Enforce(s, false) == s.(monitoring := false, afterId := None, pending := map[])
  {
    StopHalts(s);
  }

  /** Scheduling never writes. */
  lemma ScheduleKeepsWrites(s: State)
    requires Inv(s)
    ensures Schedule(s).applied == s.applied
  {
    if s.monitoring {
      var f := FrequencyOf(s.frequencyText);
      if f.Some? {
        ScheduleReplacesCallback(s, f.value);
      } else {
        ScheduleRejectStops(s);
      }
    }
  }

  /** A successful write sends the clamped target, as a scalar in [0, 1],
      to the bound endpoint, then runs `schedule_next_enforcement`, which
      keeps at most one callback pending. */
  lemma WriteSendsClampedTarget(s: State)
    requires Inv(s) && s.monitoring && s.endpoint.Some?
    ensures var t := Enforce(s, true);
      && t.applied == s.applied + [Write(s.endpoint.value, VolumeScalar(s.targetPercent))]
      && 0.0 <= t.applied[|s.applied|].scalar <= 1.0
      && t.applied[|s.applied|].scalar * 100.0 == Clamp(s.targetPercent) as real
      && Inv(t)
    ensures Enforce(s, true) ==
      Schedule(s.(applied := s.applied + [Write(s.endpoint.value, VolumeScalar(s.targetPercent))]))
  {
    var w := s.(applied := s.applied + [Write(s.endpoint.value, VolumeScalar(s.targetPercent))]);
    assert Inv(w);
    assert Enforce(s, true) == Schedule(w);
    ScheduleKeepsInv(w);
    ScheduleKeepsWrites(w);
  }

  lemma EnforceKeepsInv(s: State, writeOk: bool)
    requires Inv(s)
    ensures Inv(Enforce(s, writeOk))
  {
    if s.monitoring && s.endpoint.Some? {
      if writeOk { WriteSendsClampedTarget(s); } else { FailedWriteHalts(s); }
    }
  }

  /** A due callback runs `enforce_target_volume`: with a device bound, a
      write the endpoint accepts and a valid interval, the clamped target
      is written once and exactly one new callback is pending. */
  lemma FireEnforces(s: State, f: int)
    requires Inv(s) && s.monitoring && s.endpoint.Some?
    requires s.afterId.Some? && s.afterId.value in s.pending
    requires FrequencyOf(s.frequencyText) == Some(f)
    ensures var t := Fire(s, true);
      && t.applied == s.applied + [Write(s.endpoint.value, VolumeScalar(s.targetPercent))]
      && t.monitoring && t.afterId == Some(s.nextToken)
      && t.pending == map[s.nextToken := f * 1000] && Inv(t)
    ensures Fire(s, true) ==
      s.(applied := s.applied + [Write(s.endpoint.value, VolumeScalar(s.targetPercent))],
         afterId := Some(s.nextToken), pending := map[s.nextToken := f * 1000],
         nextToken := s.nextToken + 1, frequencySeconds := f)
  {
    var u := s.(pending := s.pending - {s.afterId.value});
    assert Inv(u);
    var w := u.(applied := u.applied + [Write(u.endpoint.value, VolumeScalar(u.targetPercent))]);
    assert Inv(w);
    assert Fire(s, true) == Schedule(w);
    ScheduleReplacesCallback(w, f);
  }

  /** A due callback whose write succeeds but whose interval field no
      longer validates still writes the clamped target once, then stops
      monitoring with nothing pending and restores the field. */
  lemma FireRejectStops(s: State)
    requires Inv(s) && s.monitoring && s.endpoint.Some?
    requires s.afterId.Some? && s.afterId.value in s.pending
    requires FrequencyOf(s.frequencyText).None?
    ensures var t := Fire(s, true);
      && Inv(t) && FrequencyOf(t.frequencyText) == Some(s.frequencySeconds)
    ensures Fire(s, true) ==
      s.(applied := s.applied + [Write(s.endpoint.value, VolumeScalar(s.targetPercent))],
         monitoring := false, afterId := None, pending := map[],
         frequencyText := ShowInt(s.frequencySeconds))
  {
    var u := s.(pending := s.pending - {s.afterId.value});
    assert Inv(u);
    var w := u.(applied := u.applied + [Write(u.endpoint.value, VolumeScalar(u.targetPercent))]);
    assert Inv(w);
    assert Fire(s, true) == Schedule(w);
    ScheduleRejectStops(w);
  }

  // ---------------------------------------------------------------------
  // Starting

  /** The guards `start_monitoring` passes: not yet monitoring, a device
      selected, the selection in the device map, a valid interval. */
  predicate Admitted(s: State) {
    !s.monitoring && s.selection != "" && s.selection in s.deviceMap
    && FrequencyOf(s.frequencyText).Some?
  }

  /** Starting while monitoring is ignored; a start the guards turn away
      writes nothing, schedules nothing and leaves the controller idle. */
  lemma StartRefused(s: State, writeOk: bool)
    requires Inv(s) && !Admitted(s)
    ensures s.monitoring ==> Start(s, writeOk) == s
    ensures var t := Start(s, writeOk);
      && t.monitoring == s.monitoring && t.applied == s.applied && t.pending == s.pending
      && t.afterId == s.afterId && Inv(t)
    ensures Start(s, writeOk) ==
      if !s.monitoring && s.selection != "" && s.selection in s.deviceMap
      then s.(frequencyText := ShowInt(s.frequencySeconds))
      else s
  {
  }

  /** An admitted start binds the selected device, writes the clamped target
      to it at once, and keeps monitoring, with one callback pending,
      exactly when that write succeeds. */
  lemma StartAdmitted(s: State, writeOk: bool)
    requires Inv(s) && Admitted(s)
    ensures var t := Start(s, writeOk);
      var d := s.deviceMap[s.selection];
      && Inv(t)
      && t.currentDevice == Some(d)
      && t.monitoring == writeOk
      && (writeOk ==> t.applied == s.applied + [Write(d.endpoint, VolumeScalar(s.targetPercent))]
                      && t.frequencySeconds == FrequencyOf(s.frequencyText).value
                      && |t.pending| == 1)
      && (!writeOk ==> t.applied == s.applied && t.pending == map[] && t.afterId.None?)
    ensures var t, d, f := Start(s, writeOk), s.deviceMap[s.selection], FrequencyOf(s.frequencyText).value;
      && (writeOk ==>
            t == s.(currentDevice := Some(d), endpoint := Some(d.endpoint), monitoring := true,
                    frequencySeconds := f,
                    applied := s.applied + [Write(d.endpoint, VolumeScalar(s.targetPercent))],
                    afterId := Some(s.nextToken), pending := map[s.nextToken := f * 1000],
                    nextToken := s.nextToken + 1))
      && (!writeOk ==>
            t == s.(currentDevice := Some(d), endpoint := Some(d.endpoint), frequencySeconds := f))
  {
    var f := FrequencyOf(s.frequencyText).value;
    var d := s.deviceMap[s.selection];
    var u := Arm(s, d, f);
    assert s.afterId.None? && s.pending.Keys == {};
    assert Inv(u);
    assert Start(s, writeOk) == Enforce(u, writeOk);
    if writeOk {
      StartWriteSucceeds(u, f);
    } else {
      FailedWriteHalts(u);
      assert s.pending == map[];
    }
  }

  lemma StartWriteSucceeds(u: State, f: int)
    requires Inv(u) && u.monitoring && u.endpoint.Some? && u.afterId.None?
    requires FrequencyOf(u.frequencyText) == Some(f)
    ensures var t := Enforce(u, true);
      && t.applied == u.applied + [Write(u.endpoint.value, VolumeScalar(u.targetPercent))]
      && t.monitoring && t.frequencySeconds == f && |t.pending| == 1 && Inv(t)
      && t.currentDevice == u.currentDevice
    ensures Enforce(u, true) ==
      u.(applied := u.applied + [Write(u.endpoint.value, VolumeScalar(u.targetPercent))],
         afterId := Some(u.nextToken), pending := map[u.nextToken := f * 1000],
         nextToken := u.nextToken + 1, frequencySeconds := f)
  {
    var w := u.(applied := u.applied + [Write(u.endpoint.value, VolumeScalar(u.targetPercent))]);
    assert Inv(w);
    assert Enforce(u, true) == Schedule(w);
    ScheduleReplacesCallback(w, f);
  }

  lemma StartKeepsInv(s: State, writeOk: bool)
    requires Inv(s)
    ensures Inv(Start(s, writeOk))
  {
    if Admitted(s) { StartAdmitted(s, writeOk); } else { StartRefused(s, writeOk); }
  }

  // ---------------------------------------------------------------------
  // Refreshing

  /** A refresh that finds no device unbinds everything and leaves the
      controller idle with no callback pending. */
  lemma RefreshToNothingStops(s: State)
    requires Inv(s)
    ensures var t := Refresh(s, []);
      && t.selection == "" && t.currentDevice.None? && t.endpoint.None?
      && !t.monitoring && t.afterId.None? && t.pending == map[]
      && t.applied == s.applied && Inv(t)
  {
    var u := s.(devices := [], names := Names([]), deviceMap := DeviceMap([]),
                selection := Reselect(s.selection, []), currentDevice := None, endpoint := None);
    assert Inv(u);
    StopHalts(u);
  }

  /** A refresh that finds devices binds the reselected one and leaves the
      monitoring state and the pending callback as they were. */
  lemma RefreshBindsSelection(s: State, devs: seq<Device>)
    requires Inv(s) && devs != []
    ensures var t := Refresh(s, devs);
      && t.selection == Reselect(s.selection, devs)
      && t.selection in Names(devs)
      && t.currentDevice == Some(DeviceMap(devs)[t.selection])
      && t.monitoring == s.monitoring && t.afterId == s.afterId && t.pending == s.pending
      && Inv(t)
  {
    assert |Names(devs)| > 0;
  }

  lemma RefreshKeepsInv(s: State, devs: seq<Device>)
    requires Inv(s)
    ensures Inv(Refresh(s, devs))
  {
    if devs == [] { RefreshToNothingStops(s); } else { RefreshBindsSelection(s, devs); }
  }

  // ---------------------------------------------------------------------
  // Whole runs

  lemma StepKeepsInv(s: State, e: Event)
    requires Inv(s)
    ensures Inv(Step(s, e))
  {
    match e
    case Refreshed(devs) => RefreshKeepsInv(s, devs);
    case Chosen(name) =>
    case SliderMoved(value) =>
    case FrequencyEdited(text) =>
    case StartPressed(ok) => StartKeepsInv(s, ok);
    case StopPressed => StopHalts(s);
    case TimerFired(ok) =>
      if s.afterId.Some? && s.afterId.value in s.pending {
        var u := s.(pending := s.pending - {s.afterId.value});
        assert Inv(u);
        EnforceKeepsInv(u, ok);
      }
  }

  /** The invariant holds after any sequence of events. */
  lemma {:induction false} RunKeepsInv(s: State, events: seq<Event>)
    requires Inv(s)
    ensures Inv(Run(s, events))
    decreases |events|
  {
    if events != [] {
      StepKeepsInv(s, events[0]);
      RunKeepsInv(Step(s, events[0]), events[1..]);
    }
  }

  /** Under the invariant at most one callback is ever pending, and only
      while monitoring. */
  lemma AtMostOnePending(s: State)
    requires Inv(s)
    ensures |s.pending| <= 1
    ensures s.pending != map[] ==> s.monitoring && s.afterId.Some? && s.pending.Keys == {s.afterId.value}
  {
    if s.afterId.Some? {
      var id := s.afterId.value;
      if s.pending.Keys != {} {
        assert s.pending.Keys == {id};
      }
      assert |s.pending.Keys| <= |{id}|;
    } else {
      assert s.pending.Keys == {};
    }
  }

  /** From the first state, however the user and the event loop interleave,
      no more than one callback is ever pending. */
  lemma NeverTwoCallbacks(devs: seq<Device>, events: seq<Event>)
    ensures |Run(Refresh(Initial(), devs), events).pending| <= 1
  {
    RefreshKeepsInv(Initial(), devs);
    RunKeepsInv(Refresh(Initial(), devs), events);
    AtMostOnePending(Run(Refresh(Initial(), devs), events));
  }

  predicate NoStart(events: seq<Event>) {
    forall i :: 0 <= i < |events| ==> !events[i].StartPressed?
  }

  /** An idle controller writes nothing and schedules nothing until Start
      is pressed, whatever else happens. */
  lemma {:induction false} NoWritesWhileIdle(s: State, events: seq<Event>)
    requires Inv(s) && !s.monitoring
    requires NoStart(events)
    ensures var t := Run(s, events);
      t.applied == s.applied && !t.monitoring && t.pending == map[] && Inv(t)
    decreases |events|
  {
    AtMostOnePending(s);
    if events != [] {
      var e := events[0];
      StepKeepsInv(s, e);
      var u := Step(s, e);
      assert !u.monitoring && u.applied == s.applied by {
        match e
        case Refreshed(devs) => RefreshKeepsInv(s, devs);
          if devs == [] { RefreshToNothingStops(s); } else { RefreshBindsSelection(s, devs); }
        case StopPressed => StopHalts(s);
        case _ =>
      }
      assert NoStart(events[1..]) by {
        forall i | 0 <= i < |events[1..]| ensures !events[1..][i].StartPressed? {
          assert events[1..][i] == events[i + 1];
        }
      }
      NoWritesWhileIdle(u, events[1..]);
    }
  }

  /** After Stop no write reaches the endpoint until Start is pressed. */
  lemma NoWritesAfterStop(s: State, events: seq<Event>)
    requires Inv(s)
    requires NoStart(events)
    ensures Run(s, [StopPressed] + events).applied == s.applied
  {
    StopHalts(s);
    assert ([StopPressed] + events)[1..] == events;
    NoWritesWhileIdle(Stop(s), events);
  }

  /** Every event sends at most one level to an endpoint, and that level
      is the clamped target as a scalar. */
  lemma StepWritesAtMostOnce(s: State, e: Event)
    requires Inv(s)
    ensures var t := Step(s, e);
      || t.applied == s.applied
      || (exists ep :: t.applied == s.applied + [Write(ep, VolumeScalar(s.targetPercent))])
  {
    match e
    case Refreshed(devs) =>
      if devs == [] { RefreshToNothingStops(s); } else { RefreshBindsSelection(s, devs); }
    case StartPressed(ok) =>
      if Admitted(s) { StartAdmitted(s, ok); } else { StartRefused(s, ok); }
    case StopPressed => StopHalts(s);
    case TimerFired(ok) =>
      if s.afterId.Some? && s.afterId.value in s.pending {
        var w := s.(pending := s.pending - {s.afterId.value});
        assert Inv(w);
        if w.monitoring && w.endpoint.Some? {
          if ok { WriteSendsClampedTarget(w); } else { FailedWriteHalts(w); }
        }
      }
    case _ =>
  }

  predicate ScalarsInRange(ws: seq<Write>) {
    forall i :: 0 <= i < |ws| ==> 0.0 <= ws[i].scalar <= 1.0
  }

  lemma AppendInRange(ws: seq<Write>, w: Write)
    requires ScalarsInRange(ws) && 0.0 <= w.scalar <= 1.0
    ensures ScalarsInRange(ws + [w])
  {
  }

  /** Every level ever written lies in [0, 1], whatever the slider held. */
  lemma {:induction false} WritesStayInRange(s: State, events: seq<Event>)
    requires Inv(s) && ScalarsInRange(s.applied)
    ensures ScalarsInRange(Run(s, events).applied)
    decreases |events|
  {
    if events != [] {
      var e := events[0];
      StepKeepsInv(s, e);
      StepWritesAtMostOnce(s, e);
      var u := Step(s, e);
      if u.applied != s.applied {
        var ep :| u.applied == s.applied + [Write(ep, VolumeScalar(s.targetPercent))];
        AppendInRange(s.applied, Write(ep, VolumeScalar(s.targetPercent)));
      }
      WritesStayInRange(u, events[1..]);
    }
  }
}
