/**
 * The browser side of the plugin: the settings view model's list and
 * lookup helpers and the handler for the messages the sensors manager
 * pushes to it.
 *
 * Knockout observables become the fields of `AirQualityViewModel`; the
 * computed observables that only read them become functions and
 * methods over those fields.
 */
module AirQualityView {
  import opened Optional
  import opened Dicts
  import opened SerialPorts
  import opened PluginMessages

  /** What a device's `port()` observable can hold. */
  datatype PortValue = Undefined | Null | Port(name: string)

  /** A device as loaded into the settings page. */
  datatype ViewDevice = ViewDevice(id: int, locationId: int, model: string, name: string, port: PortValue)

  datatype Location = Location(id: int, name: string)

  /** One entry of the array `mapDictionaryToArray` builds. */
  datatype KeyValue<V> = KeyValue(key: string, value: V)

  predicate Distinct<T(==)>(s: seq<T>) {
    forall i, j :: 0 <= i < j < |s| ==> s[i] != s[j]
  }

  /** `Array.prototype.indexOf` with its strict equality: the first index holding `x`, or -1. */
  function IndexOf<T(==)>(s: seq<T>, x: T): (i: int)
    ensures -1 <= i < |s|
    ensures i == -1 <==> x !in s
    ensures i >= 0 ==> s[i] == x && x !in s[..i]
  {
    if |s| == 0 then -1
    else if s[0] == x then 0
    else
      var j := IndexOf(s[1..], x);
      if j == -1 then -1
      else
        assert s[..j + 1] == [s[0]] + s[1..][..j];
        j + 1
  }

  /** The port names of `serialPortsList` as the values a `port()` observable holds. */
  function Ports(list: seq<string>): (ports: seq<PortValue>)
    ensures |ports| == |list|
    ensures forall i :: 0 <= i < |list| ==> ports[i] == Port(list[i])
  {
    seq(|list|, i requires 0 <= i < |list| => Port(list[i]))
  }

  /** Only named ports are listed, and exactly the names of the list. */
  lemma PortsMembers(list: seq<string>, p: PortValue)
    ensures p in Ports(list) <==> p.Port? && p.name in list
  {
    if p.Port? && p.name in list {
      var i :| 0 <= i < |list| && list[i] == p.name;
      assert Ports(list)[i] == p;
    }
  }

  /**
   * The availability test `portAvailable` makes for a device and
   * `isPortAvailable` for the selected one: not available when the port
   * is defined and `serialPortsList.indexOf` does not find it. A `null`
   * port is defined and never listed, so it is reported unavailable.
   */
  function PortAvailable(serialPortsList: seq<string>, port: PortValue): (available: bool)
    ensures !available <==> port != Undefined && !(port.Port? && port.name in serialPortsList)
  {
    PortsMembers(serialPortsList, port);
    !(IndexOf(Ports(serialPortsList), port) == -1 && port != Undefined)
  }

  /** `fullList.splice(fullList.indexOf(x), 1)` when `x` is found; nothing otherwise. */
  function RemoveFirst(s: seq<PortValue>, x: PortValue): (r: seq<PortValue>)
  {
    var i := IndexOf(s, x);
    if i == -1 then s else s[..i] + s[i + 1..]
  }

  lemma RemoveFirstMultiset(s: seq<PortValue>, x: PortValue)
    ensures multiset(RemoveFirst(s, x)) == multiset(s) - multiset{x}
  {
    var i := IndexOf(s, x);
    if i != -1 {
      assert s == s[..i] + [x] + s[i + 1..];
    }
  }

  /** The list left after the first `n` devices have each removed their port, if it is named. */
  function WithoutDevicePorts(full: seq<PortValue>, devices: seq<ViewDevice>, n: nat): seq<PortValue>
    requires n <= |devices|
  {
    if n == 0 then full
    else
      var before := WithoutDevicePorts(full, devices, n - 1);
      if devices[n - 1].port.Port? then RemoveFirst(before, devices[n - 1].port) else before
  }

  /** The named ports of the first `n` devices, counted with multiplicity. */
  function UsedPorts(devices: seq<ViewDevice>, n: nat): (used: multiset<PortValue>)
    requires n <= |devices|
    ensures forall i :: 0 <= i < n && devices[i].port.Port? ==> devices[i].port in used
    ensures forall p :: p in used ==> p.Port?
  {
    if n == 0 then multiset{}
    else UsedPorts(devices, n - 1) + (if devices[n - 1].port.Port? then multiset{devices[n - 1].port} else multiset{})
  }

  lemma SubtractOneMore<T>(a: multiset<T>, b: multiset<T>, x: T)
    ensures a - b - multiset{x} == a - (b + multiset{x})
  {
    forall y ensures (a - b - multiset{x})[y] == (a - (b + multiset{x}))[y] {
    }
  }

  /** Each device removes one copy of its named port, and nothing else is removed. */
  lemma {:induction false} WithoutDevicePortsMultiset(full: seq<PortValue>, devices: seq<ViewDevice>, n: nat)
    requires n <= |devices|
    ensures multiset(WithoutDevicePorts(full, devices, n)) == multiset(full) - UsedPorts(devices, n)
  {
    if n > 0 {
      WithoutDevicePortsMultiset(full, devices, n - 1);
      var port := devices[n - 1].port;
      if port.Port? {
        RemoveFirstMultiset(WithoutDevicePorts(full, devices, n - 1), port);
        SubtractOneMore(multiset(full), UsedPorts(devices, n - 1), port);
      }
    }
  }

  /**
   * The value of the computed `serialPortsListEdit`: the available ports
   * without those of the devices, then the selected device's port at the
   * end when it is defined and not already in the list.
   */
  function EditedList(serialPortsList: seq<string>, devices: seq<ViewDevice>, selected: Option<ViewDevice>): seq<PortValue>
  {
    var full := WithoutDevicePorts(Ports(serialPortsList), devices, |devices|);
    if selected.Some? && IndexOf(full, selected.value.port) == -1 && selected.value.port != Undefined
    then full + [selected.value.port]
    else full
  }

  /** A distinct list holds each value at most once. */
  lemma {:induction false} DistinctCount<T>(s: seq<T>, x: T)
    requires Distinct(s)
    ensures multiset(s)[x] <= 1
  {
    if |s| > 0 {
      assert s == [s[0]] + s[1..];
      assert Distinct(s[1..]) by {
        forall i, j | 0 <= i < j < |s| - 1
          ensures s[1..][i] != s[1..][j]
        {
          assert s[1..][i] == s[i + 1] && s[1..][j] == s[j + 1];
        }
      }
      DistinctCount(s[1..], x);
      if s[0] == x {
        assert x !in s[1..] by {
          forall i | 0 <= i < |s| - 1
            ensures s[1..][i] != x
          {
            assert s[1..][i] == s[i + 1];
          }
        }
      }
    }
  }

  /** Every port offered for editing is an available port or the selected device's own port. */
  lemma EditedListFrom(serialPortsList: seq<string>, devices: seq<ViewDevice>, selected: Option<ViewDevice>)
    ensures forall p :: p in EditedList(serialPortsList, devices, selected) ==>
      (p.Port? && p.name in serialPortsList) || (selected.Some? && p == selected.value.port)
  {
    var full := Ports(serialPortsList);
    WithoutDevicePortsMultiset(full, devices, |devices|);
    forall p | p in EditedList(serialPortsList, devices, selected)
      ensures (p.Port? && p.name in serialPortsList) || (selected.Some? && p == selected.value.port)
    {
      if p in WithoutDevicePorts(full, devices, |devices|) {
        assert multiset(WithoutDevicePorts(full, devices, |devices|))[p] > 0;
        assert p in multiset(full);
        PortsMembers(serialPortsList, p);
      }
    }
  }

  /** Given no port is listed twice, no port in use by a device is offered, except the selected device's own. */
  lemma EditedListExcludesUsedPorts(serialPortsList: seq<string>, devices: seq<ViewDevice>, selected: Option<ViewDevice>)
    requires Distinct(serialPortsList)
    ensures forall i :: 0 <= i < |devices| && devices[i].port.Port? && !(selected.Some? && selected.value.port == devices[i].port) ==>
      devices[i].port !in EditedList(serialPortsList, devices, selected)
  {
    forall i | 0 <= i < |devices| && devices[i].port.Port? && !(selected.Some? && selected.value.port == devices[i].port)
      ensures devices[i].port !in EditedList(serialPortsList, devices, selected)
    {
      UsedPortGone(serialPortsList, devices, i);
    }
  }

  /** A named port of one of the devices is gone once every device has removed its port. */
  lemma UsedPortGone(serialPortsList: seq<string>, devices: seq<ViewDevice>, i: nat)
    requires Distinct(serialPortsList)
    requires i < |devices| && devices[i].port.Port?
    ensures devices[i].port !in WithoutDevicePorts(Ports(serialPortsList), devices, |devices|)
  {
    var full := Ports(serialPortsList);
    var p := devices[i].port;
    DistinctPorts(serialPortsList);
    DistinctCount(full, p);
    WithoutDevicePortsMultiset(full, devices, |devices|);
    assert p in UsedPorts(devices, |devices|);
  }

  /** A list of distinct port names lifts to a list of distinct port values. */
  lemma DistinctPorts(serialPortsList: seq<string>)
    requires Distinct(serialPortsList)
    ensures Distinct(Ports(serialPortsList))
  {
    var full := Ports(serialPortsList);
    forall a, b | 0 <= a < b < |full|
      ensures full[a] != full[b]
    {
      assert serialPortsList[a] != serialPortsList[b];
    }
  }

  /**
   * For any selected device whose port is defined (one being created with
   * an empty port, or one whose port was changed, included), that port is
   * offered exactly once; when the devices' loop removed it, or it was
   * never listed, it is appended after the remaining ports.
   */
  lemma SelectedPortOnce(serialPortsList: seq<string>, devices: seq<ViewDevice>, selected: Option<ViewDevice>)
    requires Distinct(serialPortsList)
    requires selected.Some? && selected.value.port != Undefined
    ensures multiset(EditedList(serialPortsList, devices, selected))[selected.value.port] == 1
    ensures var rest := WithoutDevicePorts(Ports(serialPortsList), devices, |devices|);
      selected.value.port !in rest ==> EditedList(serialPortsList, devices, selected) == rest + [selected.value.port]
  {
    var full := Ports(serialPortsList);
    var p := selected.value.port;
    var rest := WithoutDevicePorts(full, devices, |devices|);
    DistinctPorts(serialPortsList);
    DistinctCount(full, p);
    WithoutDevicePortsMultiset(full, devices, |devices|);
    assert multiset(rest)[p] <= 1;
    if p in rest {
      assert multiset(rest)[p] > 0;
      assert EditedList(serialPortsList, devices, selected) == rest;
    } else {
      assert EditedList(serialPortsList, devices, selected) == rest + [p];
      assert multiset(rest + [p]) == multiset(rest) + multiset{p};
    }
  }

  /**
   * When the selected device is one of the devices and its port is
   * defined, that port is offered exactly once, as the last entry.
   */
  lemma EditedListEndsWithSelectedPort(serialPortsList: seq<string>, devices: seq<ViewDevice>, selected: Option<ViewDevice>)
    requires Distinct(serialPortsList)
    requires selected.Some? && selected.value in devices && selected.value.port != Undefined
    ensures var edited := EditedList(serialPortsList, devices, selected);
      |edited| > 0 && edited[|edited| - 1] == selected.value.port && multiset(edited)[selected.value.port] == 1
  {
    var full := Ports(serialPortsList);
    var p := selected.value.port;
    if p.Port? {
      var i :| 0 <= i < |devices| && devices[i] == selected.value;
      UsedPortGone(serialPortsList, devices, i);
    } else {
      PortsMembers(serialPortsList, p);
      WithoutDevicePortsMultiset(full, devices, |devices|);
      assert p !in multiset(full);
    }
    SelectedPortOnce(serialPortsList, devices, selected);
  }

  /**
   * `arrayFirst` over the locations followed by `name()`: the name of
   * the first location with the looked-up id, or undefined when none has
   * it.
   */
  function LocationName(locations: seq<Location>, lookupId: int): (name: Option<string>)
    ensures name.None? <==> forall i :: 0 <= i < |locations| ==> locations[i].id != lookupId
  {
    if |locations| == 0 then None
    else if locations[0].id == lookupId then Some(locations[0].name)
    else LocationName(locations[1..], lookupId)
  }

  /** A found name is that of the first location with the looked-up id. */
  lemma {:induction false} LocationNameFirst(locations: seq<Location>, lookupId: int, i: nat)
    requires i < |locations| && locations[i].id == lookupId
    requires forall j :: 0 <= j < i ==> locations[j].id != lookupId
    ensures LocationName(locations, lookupId) == Some(locations[i].name)
  {
    if i > 0 {
      assert locations[1..][i - 1] == locations[i];
      LocationNameFirst(locations[1..], lookupId, i - 1);
    }
  }

  /** The models the settings page offers, in the order it lists them. */
  const SupportedModels: seq<string> := [
    "PMS1003", "PMS3003", "PMS5003", "PMS5003S", "PMS5003ST", "PMS5003T", "PMS7003", "PMSA003",
    "SDS011", "SDS018", "SDS021", "SDS198", "HPMA115S0", "HPMA115C0", "SPS30"
  ]

  /** The `supportedDevices` object: model key to the name shown for it. */
  const SupportedDevices: Dict<string> := Dict(SupportedModels, map[
    "PMS1003" := "Plantower PMS1003 (aka G1)",
    "PMS3003" := "Plantower PMS3003 (aka G3)",
    "PMS5003" := "Plantower PMS5003 (aka G5)",
    "PMS5003S" := "Plantower PMS5003S",
    "PMS5003ST" := "Plantower PMS5003ST",
    "PMS5003T" := "Plantower PMS5003T",
    "PMS7003" := "Plantower PMS7003 (aka G7)",
    "PMSA003" := "Plantower PMSA003 (aka G10)",
    "SDS011" := "Nova SDS011",
    "SDS018" := "Nova SDS018",
    "SDS021" := "Nova SDS021",
    "SDS198" := "Nova SDS198",
    "HPMA115S0" := "Honeywell HPMA115S0",
    "HPMA115C0" := "Honeywell HPMA115C0",
    "SPS30" := "Senserion SPS30"
  ])

  /** The table lists fifteen distinct models, each with a name. */
  lemma SupportedDevicesWellFormed()
    ensures SupportedDevices.Valid() && |SupportedDevices.keys| == 15
  {
    var keys, names := SupportedDevices.keys, SupportedDevices.values;
    assert forall i, j :: 0 <= i < j < |keys| ==> keys[i] != keys[j];
    assert forall i :: 0 <= i < |keys| ==> keys[i] in names;
    assert forall k :: k in names ==> k in keys;
  }

  /** `supportedDevices[model]`: the name of a listed model, undefined for any other text. */
  function GetPrettyModel(model: string): (pretty: Option<string>)
    ensures pretty.Some? <==> model in SupportedModels
    ensures pretty.Some? ==> pretty.value != ""
  {
    if model in SupportedDevices.values then Some(SupportedDevices.values[model]) else None
  }

  /** One `{key, value}` entry per key of `dictionary`, in the order the keys were added. */
  method MapDictionaryToArray<V>(dictionary: Dict<V>) returns (result: seq<KeyValue<V>>)
    requires dictionary.Valid()
    ensures |result| == |dictionary.keys|
    ensures forall i :: 0 <= i < |result| ==>
      result[i].key == dictionary.keys[i] && result[i].key in dictionary.values && result[i].value == dictionary.values[result[i].key]
    ensures forall k :: k in dictionary.values <==> exists i :: 0 <= i < |result| && result[i].key == k
  {
    result := [];
    for n := 0 to |dictionary.keys|
      invariant |result| == n
      invariant forall i :: 0 <= i < n ==>
        result[i].key == dictionary.keys[i] && result[i].value == dictionary.values[dictionary.keys[i]]
    {
      var key := dictionary.keys[n];
      result := result + [KeyValue(key, dictionary.values[key])];
    }
    forall k | k in dictionary.values
      ensures exists i :: 0 <= i < |result| && result[i].key == k
    {
      var i :| 0 <= i < |dictionary.keys| && dictionary.keys[i] == k;
      assert result[i].key == k;
    }
  }

  /**
   * The read-loop status a message carries, when the handler acts on it:
   * the text must be present and non-empty (an empty string is falsy) and
   * parse to a boolean.
   */
  function StatusUpdate(message: PluginMessage): (status: Option<bool>)
    ensures status.Some? ==> message.activeStatus.Some? && ParseStatus(message.activeStatus.value) == status
    ensures message.activeStatus.Some? && ParseStatus(message.activeStatus.value).Some? ==> status.Some?
  {
    if message.activeStatus.Some? && message.activeStatus.value != "" then ParseStatus(message.activeStatus.value) else None
  }

  class AirQualityViewModel {
    var devices: seq<ViewDevice>
    var locations: seq<Location>
    /** The port dictionary last received from the sensors manager. */
    var serialPorts: Dict<PortInfo>
    /** Its keys, the ports the user can choose from. */
    var serialPortsList: seq<string>
    var selectedDevice: Option<ViewDevice>
    var sensorReadThreadRunning: bool
    var models: seq<KeyValue<string>>

    /** The port list is always the key list of the stored port dictionary. */
    ghost predicate Valid()
      reads this`serialPorts, this`serialPortsList
    {
      serialPorts.Valid() && serialPortsList == serialPorts.keys
    }

    constructor()
      ensures Valid()
      ensures devices == [] && locations == [] && serialPortsList == [] && selectedDevice.None?
      ensures !sensorReadThreadRunning
      ensures |models| == 15
      ensures forall i :: 0 <= i < 15 ==>
        models[i].key == SupportedModels[i] && GetPrettyModel(models[i].key) == Some(models[i].value)
    {
      SupportedDevicesWellFormed();
      var entries := MapDictionaryToArray(SupportedDevices);
      devices := [];
      locations := [];
      serialPorts := Empty();
      serialPortsList := [];
      selectedDevice := None;
      sensorReadThreadRunning := false;
      models := entries;
    }

    /** `isPortAvailable`: undefined with no device selected, otherwise the selected device's availability. */
    function IsPortAvailable(): (available: Option<bool>)
      reads this`serialPortsList, this`selectedDevice
      ensures available.None? <==> selectedDevice.None?
      ensures available == Some(false) <==>
        selectedDevice.Some? && selectedDevice.value.port != Undefined &&
        !(selectedDevice.value.port.Port? && selectedDevice.value.port.name in serialPortsList)
    {
      if selectedDevice.Some? then Some(PortAvailable(serialPortsList, selectedDevice.value.port)) else None
    }

    /** `serialPortsListEdit`: the ports offered when a device is edited. */
    method SerialPortsListEdit() returns (fullList: seq<PortValue>)
      ensures fullList == EditedList(serialPortsList, devices, selectedDevice)
    {
      fullList := Ports(serialPortsList);
      for i := 0 to |devices|
        invariant fullList == WithoutDevicePorts(Ports(serialPortsList), devices, i)
      {
        var port := devices[i].port;
        if port != Null && port != Undefined {
          var index := IndexOf(fullList, port);
          if index > -1 {
            fullList := fullList[..index] + fullList[index + 1..];
          }
        }
      }
      if selectedDevice.Some? {
        if IndexOf(fullList, selectedDevice.value.port) == -1 && selectedDevice.value.port != Undefined {
          fullList := fullList + [selectedDevice.value.port];
        }
      }
    }

    /**
     * `onDataUpdaterPluginMessage`: messages of other plugins change
     * nothing; a port dictionary replaces the stored one and the port
     * list; a non-empty status text sets the read-loop indicator to the
     * value it parses to.
     */
    method OnDataUpdaterPluginMessage(pluginName: string, message: PluginMessage)
      requires Valid()
      requires message.serialPorts.Some? ==> message.serialPorts.value.Valid()
      modifies this`serialPorts, this`serialPortsList, this`sensorReadThreadRunning
      ensures Valid()
      ensures pluginName != Identifier ==>
        serialPorts == old(serialPorts) && serialPortsList == old(serialPortsList) && sensorReadThreadRunning == old(sensorReadThreadRunning)
      ensures pluginName == Identifier && message.serialPorts.Some? ==>
        serialPorts == message.serialPorts.value && serialPortsList == message.serialPorts.value.keys
      ensures message.serialPorts.None? ==> serialPorts == old(serialPorts) && serialPortsList == old(serialPortsList)
      ensures pluginName == Identifier && StatusUpdate(message).Some? ==> sensorReadThreadRunning == StatusUpdate(message).value
      ensures !(pluginName == Identifier && StatusUpdate(message).Some?) ==> sensorReadThreadRunning == old(sensorReadThreadRunning)
    {
      if pluginName != Identifier {
        return;
      }
      if message.serialPorts.Some? {
        serialPorts := message.serialPorts.value;
        serialPortsList := serialPorts.keys;
      }
      if message.activeStatus.Some? && message.activeStatus.value != "" {
        var parsed := ParseStatus(message.activeStatus.value);
        if parsed.Some? {
          sensorReadThreadRunning := parsed.value;
        }
      }
    }
  }
}
