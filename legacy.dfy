/** The older, module-level version of the program that follows the merge
    marker: a global device list and dictionary, `start` with its nested
    `set_target_volume` that re-arms itself, and `stop`. The globals become
    the fields of one object; every callback the event loop holds runs the
    same `set_target_volume`, which reads those globals when it runs. */
module Legacy {
  import opened Options
  import opened Text
  import opened Interval
  import opened Devices
  import opened Volume
  import opened Timer
  import opened Machine

  class LegacyApp {
    const root: EventLoop

    var mics: seq<Device>
    var micNames: seq<string>
    var micDict: map<string, Device>
    /** The combobox text. */
    var selection: string
    /** The interval entry's text. */
    var frequencyText: string
    /** `volume_var`, the slider's value. */
    var volume: int
    /** The global `current_volume`: the endpoint of the last device started. */
    var currentVolume: Option<Endpoint>
    /** The global `after_id`. */
    var afterId: Option<nat>
    /** The levels the endpoints accepted, in order. */
    var applied: seq<Write>

    /** The list and dictionary describe the same devices, and `after_id`
        names the callback registered last. */
    ghost predicate Valid()
      reads this, root
    {
      && micNames == Names(mics)
      && micDict == DeviceMap(mics)
      && (forall k :: k in root.pending ==> k < root.next)
      && (afterId.Some? ==> afterId.value + 1 == root.next)
    }

    /** The widgets' initial values, then the module's closing call to
        `refresh_devices`. */
    constructor (osDevices: seq<Device>)
      ensures Valid() && fresh(root)
      ensures mics == osDevices && selection == Reselect("", osDevices)
      ensures frequencyText == "5" && volume == 100
      ensures currentVolume.None? && afterId.None? && applied == []
      ensures root.pending == map[] && root.next == 0
    {
      root := new EventLoop();
      mics, micNames, micDict := [], [], map[];
      selection := "";
      frequencyText := "5";
      volume := 100;
      currentVolume, afterId := None, None;
      applied := [];
      new;
      RefreshDevices(osDevices);
    }

    /** `refresh_devices`: the same selection rule as the controller's, but
        the endpoint `current_volume` holds is left as it was. */
    method RefreshDevices(osDevices: seq<Device>)
      requires Valid()
      modifies this
      ensures Valid()
      ensures mics == osDevices && selection == Reselect(old(selection), osDevices)
      ensures frequencyText == old(frequencyText) && volume == old(volume)
      ensures currentVolume == old(currentVolume) && afterId == old(afterId)
      ensures applied == old(applied)
    {
      var listed := Names(osDevices);
      var byName := DeviceMap(osDevices);
      var current := selection;
      mics, micNames, micDict := osDevices, listed, byName;
      if current in micDict {
        selection := current;
      } else if |micNames| > 0 {
        selection := micNames[0];
      } else {
        selection := "";
      }
    }

    /** `start`: bind the selected device's endpoint and run
        `set_target_volume` once. Nothing stops an earlier chain of
        callbacks first. `raised` is whether the first write failed. */
    method Start(writeOk: bool) returns (raised: bool)
      requires Valid()
      modifies this, root
      ensures Valid()
      ensures mics == old(mics) && selection == old(selection) && volume == old(volume)
      ensures old(selection) == "" || old(selection) !in old(micDict) ==>
        && !raised && applied == old(applied) && currentVolume == old(currentVolume)
        && afterId == old(afterId) && frequencyText == old(frequencyText)
        && root.pending == old(root.pending) && root.next == old(root.next)
      ensures old(selection) != "" && old(selection) in old(micDict) ==>
        && currentVolume == Some(old(micDict)[old(selection)].endpoint)
        && (raised <==> !writeOk)
        && (raised ==>
              && applied == old(applied) && afterId == old(afterId)
              && frequencyText == old(frequencyText)
              && root.pending == old(root.pending) && root.next == old(root.next))
        && (!raised ==>
              && applied == old(applied) + [Write(currentVolume.value, VolumeScalar(volume))]
              && afterId == Some(old(root.next)) && root.next == old(root.next) + 1
              && root.pending == old(root.pending)[old(root.next) := LegacyInterval(old(frequencyText)) * 1000]
              && frequencyText == (if LegacyAccepts(old(frequencyText)) then old(frequencyText) else "5"))
    {
      raised := false;
      var selected := selection;
      if selected == "" {
        return;
      }
      if selected !in micDict {
        return;
      }
      currentVolume := Some(micDict[selected].endpoint);
      raised := SetTargetVolume(writeOk);
    }

    /** The nested `set_target_volume`: write the clamped slider level to
        `current_volume` when one is bound, then re-arm after the interval,
        five seconds when `int()` of the raw field text fails or is not
        positive (the field is then rewritten to "5"). A failed write raises out of the
        callback before it re-arms. The token `after_id` held is not
        cancelled: it is simply overwritten. */
    method SetTargetVolume(writeOk: bool) returns (raised: bool)
      requires Valid()
      modifies this, root
      ensures Valid()
      ensures raised <==> currentVolume.Some? && !writeOk
      ensures raised ==> applied == old(applied) && root.pending == old(root.pending)
                         && root.next == old(root.next) && afterId == old(afterId)
                         && frequencyText == old(frequencyText)
      ensures !raised ==>
        && applied == old(applied) + (if currentVolume.Some? then [Write(currentVolume.value, VolumeScalar(volume))] else [])
        && afterId == Some(old(root.next)) && root.next == old(root.next) + 1
        && root.pending == old(root.pending)[old(root.next) := LegacyInterval(old(frequencyText)) * 1000]
        && frequencyText == (if LegacyAccepts(old(frequencyText)) then old(frequencyText) else "5")
      ensures mics == old(mics) && selection == old(selection) && volume == old(volume)
      ensures currentVolume == old(currentVolume)
    {
      if currentVolume.Some? {
        if !writeOk {
          return true;
        }
        applied := applied + [Write(currentVolume.value, VolumeScalar(volume))];
      }
      var freq := LegacyInterval(frequencyText);
      if !LegacyAccepts(frequencyText) {
        frequencyText := ShowInt(freq);
      }
      var id := root.After(freq * 1000);
      afterId := Some(id);
      raised := false;
    }

    /** The event loop runs the pending callback `token`: whichever chain
        registered it, it is the same `set_target_volume`. */
    method OnTimer(token: nat, writeOk: bool) returns (raised: bool)
      requires Valid() && token in root.pending
      modifies this, root
      ensures Valid()
      ensures currentVolume == old(currentVolume) && volume == old(volume)
      ensures mics == old(mics) && selection == old(selection)
      ensures raised <==> currentVolume.Some? && !writeOk
      ensures raised ==>
        && applied == old(applied) && afterId == old(afterId) && frequencyText == old(frequencyText)
        && root.pending == old(root.pending) - {token} && root.next == old(root.next)
      ensures !raised ==>
        && applied == old(applied) + (if currentVolume.Some? then [Write(currentVolume.value, VolumeScalar(volume))] else [])
        && afterId == Some(old(root.next)) && root.next == old(root.next) + 1
        && root.pending == (old(root.pending) - {token})[old(root.next) := LegacyInterval(old(frequencyText)) * 1000]
        && frequencyText == (if LegacyAccepts(old(frequencyText)) then old(frequencyText) else "5")
    {
      root.Dispatch(token);
      raised := SetTargetVolume(writeOk);
    }

    /** `stop`: cancel the callback `after_id` names, and only that one. */
    method Stop()
      requires Valid()
      modifies this, root
      ensures Valid()
      ensures afterId.None?
      ensures root.pending == (if old(afterId).Some? then old(root.pending) - {old(afterId).value} else old(root.pending))
      ensures root.next == old(root.next)
      ensures applied == old(applied) && currentVolume == old(currentVolume)
      ensures mics == old(mics) && selection == old(selection)
      ensures frequencyText == old(frequencyText) && volume == old(volume)
    {
      if afterId.Some? {
        root.Cancel(afterId.value);
        afterId := None;
      }
    }
  }

  /** Start pressed twice, then Stop: the first chain's callback is still
      pending after Stop, and when it runs it writes the target level
      again and re-arms itself. */
  method DoubleStartOutlivesStop() returns (pendingAfterStop: nat, writesAfterStop: nat)
    ensures pendingAfterStop == 1 && writesAfterStop == 1
  {
    var mic := Device("Mic A", "{0.0.1.00000000}.{a}", 1);
    var app := new LegacyApp([mic]);
    assert Names([mic]) == ["Mic A"];
    assert app.selection == "Mic A" && "Mic A" in app.micDict;
    DefaultIntervalAccepted();
    var raised := app.Start(true);
    assert app.root.pending.Keys == {0} && app.root.next == 1;
    assert app.frequencyText == "5" && app.selection == "Mic A";
    raised := app.Start(true);
    assert app.root.pending.Keys == {0, 1} && app.afterId == Some(1);
    app.Stop();
    assert app.root.pending.Keys == {0};
    pendingAfterStop := |app.root.pending|;
    var before := |app.applied|;
    raised := app.OnTimer(0, true);
    writesAfterStop := |app.applied| - before;
  }

  /** The field's initial text "5" is read by bare `int()` as five. */
  lemma DefaultIntervalAccepted()
    ensures LegacyAccepts("5") && LegacyInterval("5") == LegacyDefaultSeconds
  {
    ParseShowRoundTrip(5, "", "");
    assert "" + ShowInt(5) + "" == "5";
  }
}
