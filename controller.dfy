/** `MicrophoneApp` with the fields its handlers update in place. Every
    handler is proved to move the object's state exactly as the function of
    the same role in `Machine` moves a `State`, so the lemmas proved there
    hold of the object. */
module Controller {
  import opened Options
  import opened Text
  import opened Interval
  import opened Devices
  import opened Volume
  import opened Timer
  import opened Machine

  class MicrophoneApp {
    /** The Tk root whose `after` / `after_cancel` the controller uses. */
    const root: EventLoop

    var devices: seq<Device>
    var names: seq<string>
    var deviceMap: map<string, Device>
    var selection: string
    var currentDevice: Option<Device>
    var endpoint: Option<Endpoint>
    var monitoring: bool
    var afterId: Option<nat>
    var frequencySeconds: int
    var frequencyText: string
    var targetPercent: int
    /** The levels the endpoints accepted, in order. */
    var applied: seq<Write>

    /** The object's state, including its event loop's pending callbacks. */
    ghost function Snapshot(): State
      reads this, root
    {
      State(devices, names, deviceMap, selection, currentDevice, endpoint, monitoring, afterId,
            root.pending, root.next, frequencySeconds, frequencyText, targetPercent, applied)
    }

    ghost predicate Valid()
      reads this, root
    {
      Inv(Snapshot())
    }

    /** `__init__`: the initial fields, then the first refresh with the
        endpoints the system reports. */
    constructor (osDevices: seq<Device>)
      ensures Valid() && fresh(root)
      ensures Snapshot() == Refresh(Initial(), osDevices)
    {
      root := new EventLoop();
      devices, names, deviceMap := [], [], map[];
      selection := "";
      currentDevice, endpoint := None, None;
      monitoring, afterId := false, None;
      frequencySeconds, frequencyText := 5, "5";
      targetPercent := 100;
      applied := [];
      new;
      RefreshDevices(osDevices);
    }

    /** `refresh_devices`. */
    method RefreshDevices(osDevices: seq<Device>)
      requires Valid()
      modifies this, root
      ensures Valid()
      ensures Snapshot() == Refresh(old(Snapshot()), osDevices)
    {
      Relist(osDevices);
      if |names| == 0 {
        currentDevice := None;
        endpoint := None;
        StopMonitoring();
        return;
      }
      OnDeviceSelected();
    }

    /** The list, map and selection part of `refresh_devices`. */
    method Relist(osDevices: seq<Device>)
      requires Valid()
      modifies this
      ensures Valid()
      ensures Snapshot() == Machine.Relist(old(Snapshot()), osDevices)
    {
      var listed := Names(osDevices);
      var byName := DeviceMap(osDevices);
      var selected := selection;
      if selected !in byName {
        selected := if |listed| > 0 then listed[0] else "";
      }
      devices, names, deviceMap, selection := osDevices, listed, byName, selected;
    }

    /** `_on_device_selected`. */
    method OnDeviceSelected()
      requires Valid()
      modifies this
      ensures Valid()
      ensures Snapshot() == DeviceSelected(old(Snapshot()))
    {
      var name := selection;
      if name in deviceMap {
        var device := deviceMap[name];
        currentDevice := Some(device);
        endpoint := Some(device.endpoint);
      } else {
        currentDevice := None;
        endpoint := None;
      }
    }

    /** The user picks `name` in the combobox, which fires
        `_on_device_selected`. */
    method ChooseDevice(name: string)
      requires Valid()
      modifies this
      ensures Valid()
      ensures Snapshot() == Step(old(Snapshot()), Chosen(name))
    {
      selection := name;
      OnDeviceSelected();
    }

    /** `_on_volume_change`; `None` is a slider value `int()` rejects. */
    method OnVolumeChange(value: Option<int>)
      requires Valid()
      modifies this
      ensures Valid()
      ensures Snapshot() == VolumeChanged(old(Snapshot()), value)
      ensures 0 <= targetPercent <= 100
    {
      var numeric := if value.Some? then value.value else targetPercent;
      targetPercent := Max(0, Min(100, numeric));
    }

    /** The user edits the interval field. */
    method EditFrequency(text: string)
      requires Valid()
      modifies this
      ensures Valid()
      ensures Snapshot() == Step(old(Snapshot()), FrequencyEdited(text))
    {
      frequencyText := text;
    }

    /** `get_frequency_seconds`. */
    method GetFrequencySeconds() returns (r: Option<int>)
      requires Valid()
      modifies this
      ensures Valid()
      ensures (Snapshot(), r) == ReadFrequency(old(Snapshot()))
    {
      r := FrequencyOf(frequencyText);
      if r.None? {
        frequencyText := ShowInt(frequencySeconds);
      }
    }

    /** `start_monitoring`; `writeOk` is the outcome of the first write. */
    method StartMonitoring(writeOk: bool)
      requires Valid()
      modifies this, root
      ensures Valid()
      ensures Snapshot() == Start(old(Snapshot()), writeOk)
    {
      if monitoring {
        return;
      }
      var selected := selection;
      if selected == "" {
        return;
      }
      if selected !in deviceMap {
        return;
      }
      var device := deviceMap[selected];
      var frequency := GetFrequencySeconds();
      if frequency.None? {
        return;
      }
      Arm(device, frequency.value);
      EnforceTargetVolume(writeOk);
    }

    /** The fields `start_monitoring` sets before its first enforcement. */
    method Arm(device: Device, seconds: int)
      requires Valid() && seconds > 0
      modifies this
      ensures Valid()
      ensures Snapshot() == Machine.Arm(old(Snapshot()), device, seconds)
    {
      frequencySeconds := seconds;
      currentDevice := Some(device);
      endpoint := Some(device.endpoint);
      monitoring := true;
    }

    /** `enforce_target_volume`; `writeOk` is whether the endpoint accepted
        the level. */
    method EnforceTargetVolume(writeOk: bool)
      requires Valid()
      modifies this, root
      ensures Valid()
      ensures Snapshot() == Enforce(old(Snapshot()), writeOk)
    {
      if !monitoring || endpoint.None? {
        return;
      }
      var target := VolumeScalar(targetPercent);
      if !writeOk {
        StopMonitoring();
        return;
      }
      applied := applied + [Write(endpoint.value, target)];
      ScheduleNextEnforcement();
    }

    /** `schedule_next_enforcement`. */
    method ScheduleNextEnforcement()
      requires Valid()
      modifies this, root
      ensures Valid()
      ensures Snapshot() == Schedule(old(Snapshot()))
    {
      ghost var s0 := Snapshot();
      if !monitoring {
        return;
      }
      if afterId.Some? {
        root.Cancel(afterId.value);
        afterId := None;
      }
      assert Snapshot() == CancelPending(s0);
      var delay := GetFrequencySeconds();
      ghost var s1 := Snapshot();
      assert (s1, delay) == ReadFrequency(CancelPending(s0));
      if delay.None? {
        StopMonitoring();
        return;
      }
      frequencySeconds := delay.value;
      var id := root.After(delay.value * 1000);
      afterId := Some(id);
      assert Snapshot() == s1.(frequencySeconds := delay.value, afterId := Some(s1.nextToken),
                               pending := s1.pending[s1.nextToken := delay.value * 1000],
                               nextToken := s1.nextToken + 1);
      ScheduleKeepsInv(s0);
    }

    /** `stop_monitoring`. */
    method StopMonitoring()
      requires Valid()
      modifies this, root
      ensures Valid()
      ensures Snapshot() == Stop(old(Snapshot()))
    {
      if !monitoring && afterId.None? {
        return;
      }
      if afterId.Some? {
        root.Cancel(afterId.value);
        afterId := None;
      }
      monitoring := false;
    }

    /** The event loop runs the callback `after_id` names, if it is still
        pending: that callback is `enforce_target_volume`. */
    method OnTimer(writeOk: bool)
      requires Valid()
      modifies this, root
      ensures Valid()
      ensures Snapshot() == Fire(old(Snapshot()), writeOk)
    {
      if afterId.Some? && afterId.value in root.pending {
        root.Dispatch(afterId.value);
        EnforceTargetVolume(writeOk);
      }
    }
  }

  /** Pressing Start twice and then Stop leaves no callback pending, and the
      event loop then writes nothing more. */
  method DoubleStartThenStop() returns (pendingAfterStop: nat, writesAfterStop: nat)
    ensures pendingAfterStop == 0 && writesAfterStop == 0
  {
    var app := new MicrophoneApp([Device("Mic A", "{0.0.1.00000000}.{a}", 1)]);
    app.StartMonitoring(true);
    app.StartMonitoring(true);
    app.StopMonitoring();
    StopHalts(app.Snapshot());
    pendingAfterStop := |app.root.pending|;
    var before := |app.applied|;
    app.OnTimer(true);
    writesAfterStop := |app.applied| - before;
  }
}
