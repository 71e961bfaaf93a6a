/** Capture endpoints as the controller sees them after enumeration, the
    name-keyed device map and the combobox selection rule. */
module Devices {

  /** An opaque volume-control handle of one endpoint. */
  type Endpoint = nat

  /** One active capture endpoint: friendly name, device id, volume control. */
  datatype Device = Device(name: string, id: string, endpoint: Endpoint)

  /** The combobox values: the friendly names in enumeration order. */
  function Names(devs: seq<Device>): (names: seq<string>)
    ensures |names| == |devs|
    ensures forall i :: 0 <= i < |devs| ==> names[i] == devs[i].name
  {
    seq(|devs|, i requires 0 <= i < |devs| => devs[i].name)
  }

  /** The dictionary keyed by friendly name, built in enumeration order, so
      that a later device overwrites an earlier one of the same name. */
  function DeviceMap(devs: seq<Device>): (m: map<string, Device>)
    ensures forall k :: k in m <==> k in Names(devs)
    ensures forall k :: k in m ==> m[k] in devs && m[k].name == k
  {
    if devs == [] then map[]
    else
      var init, last := devs[..|devs| - 1], devs[|devs| - 1];
      assert Names(devs) == Names(init) + [last.name];
      DeviceMap(init)[last.name := last]
  }

  /** Of several devices sharing a name, the map keeps the last one. */
  lemma {:induction false} DeviceMapKeepsLast(devs: seq<Device>, i: nat)
    requires i < |devs|
    requires forall j :: i < j < |devs| ==> devs[j].name != devs[i].name
    ensures devs[i].name in DeviceMap(devs) && DeviceMap(devs)[devs[i].name] == devs[i]
  {
    var n := |devs|;
    if i < n - 1 {
      var init := devs[..n - 1];
      DeviceMapKeepsLast(init, i);
      assert devs[n - 1].name != devs[i].name;
    }
  }

  /** The selection after a refresh: the previous one while its name is still
      offered, otherwise the first name, otherwise nothing. */
  function Reselect(previous: string, devs: seq<Device>): (r: string)
    ensures previous in Names(devs) ==> r == previous
    ensures previous !in Names(devs) && devs != [] ==> r == devs[0].name
    ensures devs == [] ==> r == ""
    ensures devs != [] ==> r in Names(devs) && r in DeviceMap(devs)
  {
    var names := Names(devs);
    if previous in DeviceMap(devs) then previous
    else if |names| > 0 then names[0]
    else ""
  }
}

/** The target level: an integer percent clamped into [0, 100] and the
    scalar in [0, 1] written to the endpoint. */
module Volume {

  function Min(a: int, b: int): int {
    if a <= b then a else b
  }

  function Max(a: int, b: int): int {
    if a >= b then a else b
  }

  /** `max(0, min(100, v))`. */
  function Clamp(v: int): (r: int)
    ensures 0 <= r <= 100
    ensures 0 <= v <= 100 ==> r == v
    ensures v < 0 ==> r == 0
    ensures v > 100 ==> r == 100
  {
    Max(0, Min(100, v))
  }

  /** No percent in [0, 100] is closer to `v` than its clamp. */
  lemma ClampIsNearest(v: int, w: int)
    requires 0 <= w <= 100
    ensures (if Clamp(v) <= v then v - Clamp(v) else Clamp(v) - v) <= (if w <= v then v - w else w - v)
  {
  }

  /** The scalar handed to the endpoint's volume control:
      the clamped percent divided by 100. */
  function VolumeScalar(percent: int): (r: real)
    ensures 0.0 <= r <= 1.0
    ensures r * 100.0 == Clamp(percent) as real
    ensures r == 1.0 <==> percent >= 100
    ensures r == 0.0 <==> percent <= 0
  {
    Clamp(percent) as real / 100.0
  }
}
