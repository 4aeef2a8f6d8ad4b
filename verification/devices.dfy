/**
 * Configured sensor devices and the two attributes the sensors manager
 * derives for each of them: the bound reader and the availability flag.
 */
module Devices {
  import opened Optional
  import opened Dicts
  import opened SerialPorts

  /** The sensor driver handle `SensorReader(model, port, 0)`; the driver itself is not part of this model. */
  datatype SensorReader = SensorReader(model: string, port: string, interval: int)

  /**
   * A device row loaded from storage (`id`, `location_id`, `name`, `model`,
   * `port`, where `port` may be NULL), with the two attributes that are
   * never stored: `reader` and `is_available`.
   */
  datatype Device = Device(
    id: int,
    locationId: int,
    name: string,
    model: string,
    port: Option<string>,
    reader: Option<SensorReader>,
    isAvailable: bool)

  /** The stored part of a device: everything but the two derived attributes. */
  predicate SameRecord(d: Device, e: Device) {
    d.(reader := None, isAvailable := false) == e.(reader := None, isAvailable := false)
  }

  /** The reader is bound to the device's model and port exactly when it has a port. */
  predicate ReaderBound(d: Device) {
    && (d.reader.None? <==> d.port.None?)
    && (d.port.Some? ==> d.reader == Some(SensorReader(d.model, d.port.value, 0)))
  }

  /** The availability flag says whether the device's port is among the enumerated ones. */
  predicate AvailabilityCurrent(d: Device, details: Dict<PortInfo>) {
    d.isAvailable == (d.port.Some? && d.port.value in details.values)
  }

  /**
   * `devices` are the `stored` rows, in order, each with its reader bound
   * and its availability current against `details`.
   */
  predicate AttributesDerived(devices: seq<Device>, stored: seq<Device>, details: Dict<PortInfo>) {
    && |devices| == |stored|
    && forall i :: 0 <= i < |devices| ==>
         SameRecord(devices[i], stored[i]) && ReaderBound(devices[i]) && AvailabilityCurrent(devices[i], details)
  }

  /**
   * The first `n` of `devices` are those of `before` with their
   * availability recomputed against `details`; the rest are untouched.
   */
  predicate AvailabilityUpdated(before: seq<Device>, devices: seq<Device>, n: nat, details: Dict<PortInfo>) {
    && |devices| == |before|
    && (forall j :: 0 <= j < n && j < |devices| ==>
          devices[j] == before[j].(isAvailable := devices[j].isAvailable) && AvailabilityCurrent(devices[j], details))
    && (forall j :: n <= j < |devices| ==> devices[j] == before[j])
  }

  /** A device without a port is never available and never gets a reader. */
  lemma PortlessDeviceIsIdle(d: Device, details: Dict<PortInfo>)
    requires ReaderBound(d) && AvailabilityCurrent(d, details)
    requires d.port.None?
    ensures !d.isAvailable && d.reader.None?
  {
  }

  /**
   * Availability against a freshly built port dictionary: a device is
   * available exactly when some attached port has its path and that port is
   * not the printer's.
   */
  lemma {:induction false} AvailableIffEnumerated(d: Device, comports: seq<PortInfo>, printerPort: Option<string>, details: Dict<PortInfo>)
    requires PortTable(details, WithoutDevice(comports, printerPort))
    requires AvailabilityCurrent(d, details)
    ensures d.isAvailable <==>
      d.port.Some? && d.port != printerPort && exists q :: q in comports && q.device == d.port.value
  {
    var kept := WithoutDevice(comports, printerPort);
    WithoutDeviceMembers(comports, printerPort);
    if d.isAvailable {
      var p := d.port.value;
      assert p in details.keys;
      var i :| 0 <= i < |kept| && details.keys[i] == p;
      assert kept[i] in kept;
    }
    if d.port.Some? && d.port != printerPort && exists q :: q in comports && q.device == d.port.value {
      var q :| q in comports && q.device == d.port.value;
      assert q in kept;
      var i :| 0 <= i < |kept| && kept[i] == q;
      assert details.keys[i] == q.device;
    }
  }
}
