/**
 * The sensors manager: serial port discovery with the printer's port left
 * out, the per-device reader and availability attributes, and the read
 * thread's controller and loop.
 *
 * The thread handle is a thread identity; launching the thread does not
 * run it, and the loop body is the separate method `SensorsReadThread`,
 * run as that thread. Sleeping is a no-op, and the storage and plugin
 * message collaborators are ghost logs of the calls made to them.
 */
module Sensors {
  import opened Optional
  import opened Dicts
  import opened Text
  import opened SerialPorts
  import opened PluginMessages
  import opened Devices
  import opened ReadPass

  /** The identity of a thread; `threading.Thread` objects compare by identity. */
  type ThreadId = nat

  const NoPortsLine: string := "No serial ports available"
  const PortsLinePrefix: string := "Available serial ports: "

  /** The info line `update_serial_ports` logs about the ports it found. */
  function PortsLogLine(details: Dict<PortInfo>): string
  {
    if details.keys == [] then NoPortsLine else PortsLinePrefix + Join(details.keys)
  }

  class SensorsManager {
    var printerPort: Option<string>
    var devices: seq<Device>
    var serialPorts: seq<PortInfo>
    var serialPortDetails: Dict<PortInfo>
    var readThread: Option<ThreadId>
    var readThreadActive: bool
    /** The identity the next thread gets; every thread made so far has a smaller one. */
    var nextThreadId: ThreadId

    /** Payloads sent with `send_plugin_message`, oldest first. */
    ghost var published: seq<PluginMessage>
    /** Calls made to the storage collaborator's `insert_reading`, oldest first. */
    ghost var insertions: seq<Insertion>
    /** The lines `update_serial_ports` logs about the ports it found. */
    ghost var portLog: seq<string>

    /** The port dictionary holds exactly the kept ports, in their order, each under its own device path. */
    ghost predicate Valid()
      reads this`serialPorts, this`serialPortDetails
    {
      PortTable(serialPortDetails, serialPorts)
    }

    /**
     * Start-up: enumerate the ports, then load the stored devices and derive
     * their attributes. The read thread is not started.
     */
    constructor (comports: seq<PortInfo>, connectionPort: Option<string>, savedPort: Option<string>, stored: seq<Device>)
      requires UniqueDevices(comports)
      ensures Valid()
      ensures printerPort == (if connectionPort.Some? then connectionPort else savedPort)
      ensures serialPorts == WithoutDevice(comports, printerPort)
      ensures AttributesDerived(devices, stored, serialPortDetails)
      ensures readThread.None? && !readThreadActive
      ensures published == (if serialPorts == [] then [] else [SerialPortsMessage(serialPortDetails)])
      ensures insertions == [] && portLog == [PortsLogLine(serialPortDetails)]
    {
      printerPort := Some("");
      devices := [];
      serialPorts := [];
      serialPortDetails := Empty();
      readThread := None;
      readThreadActive := false;
      nextThreadId := 0;
      published := [];
      insertions := [];
      portLog := [];
      new;
      var _ := UpdateSerialPorts(comports, connectionPort, savedPort);
      ghost var kept, details := serialPorts, serialPortDetails;
      InitialiseSensors(stored);
      assert serialPorts == kept && serialPortDetails == details;
    }

    /** Load the stored devices and derive their reader and availability. */
    method InitialiseSensors(stored: seq<Device>)
      modifies this`devices
      ensures AttributesDerived(devices, stored, serialPortDetails)
    {
      devices := stored;
      UpdateDevicesAdditionalAttributes();
    }

    /** Derive every device's reader and availability; the stored fields stay as they are. */
    method UpdateDevicesAdditionalAttributes()
      modifies this`devices
      ensures AttributesDerived(devices, old(devices), serialPortDetails)
    {
      for i := 0 to |devices|
        invariant |devices| == |old(devices)|
        invariant forall j :: 0 <= j < i ==>
          SameRecord(devices[j], old(devices[j])) && ReaderBound(devices[j]) && AvailabilityCurrent(devices[j], serialPortDetails)
        invariant forall j :: i <= j < |devices| ==> devices[j] == old(devices[j])
      {
        UpdateDeviceReader(i);
        UpdateDeviceAvailability(i);
      }
    }

    /** Bind a reader for the device's model and port, or none when it has no port. */
    method UpdateDeviceReader(i: nat)
      requires i < |devices|
      modifies this`devices
      ensures |devices| == |old(devices)|
      ensures forall j :: 0 <= j < |devices| && j != i ==> devices[j] == old(devices[j])
      ensures devices[i] == old(devices[i]).(reader := devices[i].reader)
      ensures devices[i].reader.None? <==> devices[i].port.None?
      ensures devices[i].port.Some? ==> devices[i].reader == Some(SensorReader(devices[i].model, devices[i].port.value, 0))
    {
      var device := devices[i].(reader := None);
      if device.port.Some? {
        device := device.(reader := Some(SensorReader(device.model, device.port.value, 0)));
      }
      devices := devices[i := device];
    }

    /** Mark the device available exactly when it has a port and the port is a key of the port dictionary. */
    method UpdateDeviceAvailability(i: nat)
      requires i < |devices|
      modifies this`devices
      ensures |devices| == |old(devices)|
      ensures forall j :: 0 <= j < |devices| && j != i ==> devices[j] == old(devices[j])
      ensures devices[i] == old(devices[i]).(isAvailable := devices[i].isAvailable)
      ensures devices[i].isAvailable <==> devices[i].port.Some? && devices[i].port.value in serialPortDetails.values
    {
      var device := devices[i].(isAvailable := false);
      if device.port.Some? {
        if device.port.value in serialPortDetails.values {
          device := device.(isAvailable := true);
        }
      }
      devices := devices[i := device];
    }

    /**
     * Re-enumerate the ports; since that always reports a change, stop the
     * read thread, recompute every device's availability, then start a new
     * read thread.
     */
    method RefreshAvailableSerialPorts(comports: seq<PortInfo>, connectionPort: Option<string>, savedPort: Option<string>, caller: ThreadId)
      returns (joined: bool)
      requires UniqueDevices(comports)
      modifies this`printerPort, this`serialPorts, this`serialPortDetails, this`devices, this`readThread,
               this`readThreadActive, this`nextThreadId, this`published, this`portLog
      ensures Valid()
      ensures printerPort == (if connectionPort.Some? then connectionPort else savedPort)
      ensures serialPorts == WithoutDevice(comports, printerPort)
      ensures portLog == old(portLog) + [PortsLogLine(serialPortDetails)]
      ensures |devices| == |old(devices)|
      ensures forall i :: 0 <= i < |devices| ==>
        devices[i] == old(devices[i]).(isAvailable := devices[i].isAvailable) && AvailabilityCurrent(devices[i], serialPortDetails)
      ensures joined <==> old(readThread).Some? && old(readThread).value != caller
      ensures readThreadActive && readThread == Some(old(nextThreadId)) && nextThreadId == old(nextThreadId) + 1
      ensures published == old(published)
        + (if serialPorts == [] then [] else [SerialPortsMessage(serialPortDetails)])
        + [StatusMessage(false), StatusMessage(true)]
    {
      joined := false;
      ghost var t0, n0 := readThread, nextThreadId;
      var serialPortDevicesChanged := UpdateSerialPorts(comports, connectionPort, savedPort);
      ghost var published1 := published;
      if serialPortDevicesChanged {
        joined := StopSensorsReadThread(caller);
        assert joined <==> t0.Some? && t0.value != caller;
        ghost var before := devices;
        for i := 0 to |devices|
          modifies this`devices
          invariant AvailabilityUpdated(before, devices, i, serialPortDetails)
        {
          UpdateDeviceAvailability(i);
        }
      }
      StartSensorsReadThread();
      assert published == published1 + [StatusMessage(false), StatusMessage(true)];
    }

    /**
     * One pass of the read loop's `for`, run by the read thread `me`, where
     * `outcomes[i]` is what reading the `i`-th device yields. Every device
     * is visited, available or not. A reading is stored; a serial error
     * stops the loop controller but the pass goes on with the next device;
     * a device without a reader, or any other error, ends the thread on the
     * spot (`crashedAt`), leaving the controller's fields as they were.
     */
    method SensorsReadPass(me: ThreadId, outcomes: seq<ReadOutcome>) returns (crashedAt: Option<nat>)
      requires |outcomes| == |devices|
      requires readThread.Some? ==> readThread.value == me
      modifies this`readThread, this`readThreadActive, this`published, this`insertions
      ensures readThread.Some? ==> readThread == old(readThread)
      ensures var p := Pass(devices, outcomes);
        && crashedAt == p.crashedAt
        && insertions == old(insertions) + p.insertions
        && published == old(published) + Repeat(StatusMessage(false), p.stops)
        && (p.stops == 0 ==> readThreadActive == old(readThreadActive) && readThread == old(readThread))
        && (p.stops > 0 ==> !readThreadActive && readThread.None?)
    {
      crashedAt := None;
      var devs := devices;
      ghost var p0, i0, a0, t0 := published, insertions, readThreadActive, readThread;
      var i := 0;
      while i < |devs|
        invariant i <= CrashIndex(devs, outcomes)
        invariant readThread.Some? ==> readThread == t0
        invariant insertions == i0 + InsertionsUpTo(devs, outcomes, i)
        invariant published == p0 + Repeat(StatusMessage(false), FailuresUpTo(outcomes, i))
        invariant FailuresUpTo(outcomes, i) == 0 ==> readThreadActive == a0 && readThread == t0
        invariant FailuresUpTo(outcomes, i) > 0 ==> !readThreadActive && readThread.None?
      {
        CrashIndexStep(devs, outcomes, i);
        var crashed := ReadDevice(me, devs[i], outcomes[i]);
        if crashed {
          PassUpTo(devs, outcomes, i);
          crashedAt := Some(i);
          return;
        }
        AppendAssoc(i0, InsertionsUpTo(devs, outcomes, i), InsertionOf(devs[i], outcomes[i]));
        if outcomes[i].SerialFailure? {
          RepeatAppend(p0, StatusMessage(false), FailuresUpTo(outcomes, i), 1);
        }
        i := i + 1;
      }
      PassUpTo(devs, outcomes, i);
    }

    /**
     * One visit of the read loop's `for`: enter the device's reader, read
     * once and store the reading; a serial error stops the loop controller;
     * no reader, or any other error, is an uncaught exception (`crashed`).
     */
    method ReadDevice(me: ThreadId, device: Device, outcome: ReadOutcome) returns (crashed: bool)
      modifies this`readThread, this`readThreadActive, this`published, this`insertions
      ensures crashed == Crashes(device, outcome)
      ensures insertions == old(insertions) + (if crashed then [] else InsertionOf(device, outcome))
      ensures !crashed && outcome.SerialFailure? ==>
        !readThreadActive && readThread.None? && published == old(published) + [StatusMessage(false)]
      ensures crashed || !outcome.SerialFailure? ==>
        readThreadActive == old(readThreadActive) && readThread == old(readThread) && published == old(published)
    {
      if device.reader.None? {
        // entering `with None` raises an error that is not a SerialException
        return true;
      }
      match outcome {
        case Got(reading) =>
          insertions := insertions + [Insertion(device.id, device.locationId, reading)];
        case SerialFailure =>
          var _ := StopSensorsReadThread(me);
        case OtherFailure =>
          return true;
      }
      crashed := false;
    }

    /**
     * The read thread's loop, run as thread `me`: passes go on while the
     * active flag is set; `passes[k]` gives what each device yields in the
     * `k`-th pass. The loop ends after the first pass with a serial error,
     * or when the thread crashes (`crashedAt`, in pass `completed`), or when
     * the given passes run out. `stops` counts the calls to stop.
     */
    method SensorsReadThread(me: ThreadId, passes: seq<seq<ReadOutcome>>)
      returns (completed: nat, crashedAt: Option<nat>, ghost stops: nat)
      requires OutcomesFit(devices, passes)
      requires readThread.Some? ==> readThread.value == me
      modifies this`readThread, this`readThreadActive, this`published, this`insertions
      ensures readThread.Some? ==> readThread == old(readThread)
      ensures completed <= |passes|
      ensures !old(readThreadActive) ==> completed == 0 && crashedAt.None? && stops == 0
      ensures AllComplete(devices, passes, completed)
      ensures completed > 0 ==> NoStops(devices, passes, completed - 1)
      ensures published == old(published) + Repeat(StatusMessage(false), stops)
      ensures crashedAt.None? ==>
        && (completed == |passes| || !readThreadActive)
        && (readThreadActive <==> old(readThreadActive) && NoStops(devices, passes, completed))
        && insertions == old(insertions) + AllInsertions(devices, passes, completed)
      ensures crashedAt.Some? ==>
        && completed < |passes|
        && NoStops(devices, passes, completed)
        && crashedAt == Pass(devices, passes[completed]).crashedAt
        && insertions == old(insertions) + AllInsertions(devices, passes, completed + 1)
      ensures stops == AllStops(devices, passes, completed)
                     + (if crashedAt.Some? then Pass(devices, passes[completed]).stops else 0)
      ensures stops == 0 ==> readThreadActive == old(readThreadActive) && readThread == old(readThread)
      ensures stops > 0 ==> !readThreadActive && readThread.None?
    {
      var devs := devices;
      ghost var p0, i0, a0, t0 := published, insertions, readThreadActive, readThread;
      completed, crashedAt, stops := 0, None, 0;
      while readThreadActive && completed < |passes|
        invariant completed <= |passes|
        invariant crashedAt.None?
        invariant readThread.Some? ==> readThread == t0
        invariant !a0 ==> completed == 0 && stops == 0
        invariant AllComplete(devs, passes, completed)
        invariant completed > 0 ==> NoStops(devs, passes, completed - 1)
        invariant readThreadActive <==> a0 && NoStops(devs, passes, completed)
        invariant readThreadActive ==> readThread == t0
        invariant published == p0 + Repeat(StatusMessage(false), stops)
        invariant insertions == i0 + AllInsertions(devs, passes, completed)
        invariant stops == AllStops(devs, passes, completed)
        invariant stops == 0 ==> readThreadActive == a0 && readThread == t0
        invariant stops > 0 ==> !readThreadActive && readThread.None?
      {
        AllStopsZero(devs, passes, completed);
        ghost var p := Pass(devs, passes[completed]);
        crashedAt := SensorsReadPass(me, passes[completed]);
        assert devices == devs;
        RepeatAppend(p0, StatusMessage(false), stops, p.stops);
        AppendAssoc(i0, AllInsertions(devs, passes, completed), p.insertions);
        stops := stops + p.stops;
        if crashedAt.Some? {
          return;
        }
        completed := completed + 1;
        // time.sleep(5)
      }
    }

    /** Launch the read thread unless one is already there: at most one thread exists at a time. */
    method StartSensorsReadThread()
      modifies this`readThread, this`readThreadActive, this`nextThreadId, this`published
      ensures old(readThread).Some? ==>
        && readThread == old(readThread) && readThreadActive == old(readThreadActive)
        && nextThreadId == old(nextThreadId) && published == old(published)
      ensures old(readThread).None? ==>
        && readThreadActive && readThread == Some(old(nextThreadId)) && nextThreadId == old(nextThreadId) + 1
        && published == old(published) + [StatusMessage(true)]
    {
      if readThread.None? {
        SetSensorsReadThreadActiveStatus(true);
        readThread := Some(nextThreadId);
        nextThreadId := nextThreadId + 1;
      }
    }

    /**
     * Clear the active flag and drop the thread handle, waiting for the
     * thread first (`joined`) unless there is none or the caller is that
     * thread itself.
     */
    method StopSensorsReadThread(caller: ThreadId) returns (joined: bool)
      modifies this`readThread, this`readThreadActive, this`published
      ensures !readThreadActive && readThread.None?
      ensures joined <==> old(readThread).Some? && old(readThread).value != caller
      ensures published == old(published) + [StatusMessage(false)]
    {
      SetSensorsReadThreadActiveStatus(false);
      joined := readThread.Some? && readThread.value != caller;
      readThread := None;
    }

    /** Set the active flag and publish it as `"true"` or `"false"`. */
    method SetSensorsReadThreadActiveStatus(status: bool)
      modifies this`readThreadActive, this`published
      ensures readThreadActive == status
      ensures published == old(published) + [StatusMessage(status)]
    {
      readThreadActive := status;
      published := published + [StatusMessage(status)];
    }

    /**
     * Enumerate the attached ports, leave out the printer's, rebuild the
     * port dictionary, log and publish it when it is not empty. Always
     * reports a change.
     */
    method UpdateSerialPorts(comports: seq<PortInfo>, connectionPort: Option<string>, savedPort: Option<string>)
      returns (changed: bool)
      requires UniqueDevices(comports)
      modifies this`printerPort, this`serialPorts, this`serialPortDetails, this`published, this`portLog
      ensures Valid()
      ensures printerPort == (if connectionPort.Some? then connectionPort else savedPort)
      ensures serialPorts == WithoutDevice(comports, printerPort)
      ensures changed
      ensures published == old(published) + (if serialPorts == [] then [] else [SerialPortsMessage(serialPortDetails)])
      ensures portLog == old(portLog) + [PortsLogLine(serialPortDetails)]
    {
      serialPortDetails := Empty();
      serialPorts := comports;
      IdentifyPrinterPort(connectionPort, savedPort);
      var kept := RemovePrinterPort(serialPorts, printerPort);
      WithoutDeviceUnique(comports, printerPort);
      serialPorts := kept;
      if |kept| == 0 {
        assert PortTable(serialPortDetails, kept);
        portLog := portLog + [NoPortsLine];
      } else {
        var details := BuildPortDetails(kept);
        assert |details.keys| == |kept|;
        serialPortDetails := details;
        var keysString := DictionaryKeysToString(details);
        assert PortsLinePrefix + keysString == PortsLogLine(details);
        portLog := portLog + [PortsLinePrefix + keysString];
        published := published + [SerialPortsMessage(details)];
      }
      changed := true;
    }

    /** The printer's port: the live connection's when connected, otherwise the saved `serial.port` setting. */
    method IdentifyPrinterPort(connectionPort: Option<string>, savedPort: Option<string>)
      modifies this`printerPort
      ensures connectionPort.Some? ==> printerPort == connectionPort
      ensures connectionPort.None? ==> printerPort == savedPort
    {
      printerPort := connectionPort;
      if printerPort.None? {
        printerPort := savedPort;
      }
    }

    /** The dictionary's keys in order, separated by `", "`. */
    method DictionaryKeysToString<V>(dictionary: Dict<V>) returns (keysString: string)
      ensures keysString == Join(dictionary.keys)
      ensures dictionary.keys == [] ==> keysString == ""
    {
      keysString := "";
      var first := true;
      for n := 0 to |dictionary.keys|
        invariant first <==> n == 0
        invariant keysString == Join(dictionary.keys[..n])
      {
        if first {
          first := false;
        } else {
          keysString := keysString + Separator;
        }
        keysString := keysString + dictionary.keys[n];
        assert dictionary.keys[..n + 1][..n] == dictionary.keys[..n];
      }
      assert dictionary.keys[..|dictionary.keys|] == dictionary.keys;
    }
  }

  /** How `update_serial_ports` ends as written: normally, or with a `NameError`. */
  datatype Completion = Returned(changed: bool) | RaisedNameError

  /**
   * `update_serial_ports` as written: the log call on line 158 names
   * `dictionary_keys_to_string` without `self.`, a name that exists only as
   * a method, so the call raises `NameError` whenever a port is left after
   * the printer's is removed.
   */
  function UpdateSerialPortsAsWritten(comports: seq<PortInfo>, printerPort: Option<string>): (c: Completion)
    ensures c.Returned? <==> forall q :: q in comports ==> IsPrinterPort(q, printerPort)
    ensures c.Returned? ==> c.changed
  {
    WithoutDeviceMembers(comports, printerPort);
    var kept := WithoutDevice(comports, printerPort);
    if kept == [] then Returned(true) else assert kept[0] in kept; RaisedNameError
  }

  /** Any attached port other than the printer's makes the as-written enumeration raise. */
  lemma AsWrittenRaisesWheneverAPortRemains(comports: seq<PortInfo>, printerPort: Option<string>, q: PortInfo)
    requires q in comports && !IsPrinterPort(q, printerPort)
    ensures UpdateSerialPortsAsWritten(comports, printerPort) == RaisedNameError
  {
    WithoutDeviceMembers(comports, printerPort);
  }
}
