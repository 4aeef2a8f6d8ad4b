/**
 * Serial port enumeration: the port records the operating system reports,
 * the removal of the host printer's port, and the dictionary of port
 * details keyed by device path.
 */
module SerialPorts {
  import opened Optional
  import opened Dicts

  /** One attached serial port, with the metadata the operating system reports for it. */
  datatype PortInfo = PortInfo(
    device: string,
    name: Option<string>,
    description: string,
    hwid: string,
    vid: Option<int>,
    pid: Option<int>,
    serialNumber: Option<string>,
    location: Option<string>,
    manufacturer: Option<string>,
    product: Option<string>,
    interface: Option<string>)

  /** The device paths of the ports, in order. */
  function DevicePaths(ports: seq<PortInfo>): (paths: seq<string>)
    ensures |paths| == |ports|
    ensures forall i :: 0 <= i < |ports| ==> paths[i] == ports[i].device
  {
    if ports == [] then [] else DevicePaths(ports[..|ports| - 1]) + [ports[|ports| - 1].device]
  }

  /**
   * `details` holds exactly `ports`, in their order, each port's record
   * under its own device path.
   */
  ghost predicate PortTable(details: Dict<PortInfo>, ports: seq<PortInfo>) {
    && details.Valid()
    && details.keys == DevicePaths(ports)
    && (forall i :: 0 <= i < |ports| ==> ports[i].device in details.values && details.values[ports[i].device] == ports[i])
  }

  /** No two ports share a device path (true of any enumeration the operating system gives). */
  predicate UniqueDevices(ports: seq<PortInfo>) {
    forall i, j :: 0 <= i < j < |ports| ==> ports[i].device != ports[j].device
  }

  /** Does `port` name the host printer's port? `None` names no port. */
  predicate IsPrinterPort(port: PortInfo, printerPort: Option<string>) {
    Some(port.device) == printerPort
  }

  /** The ports other than the host printer's, in their original order. */
  function WithoutDevice(ports: seq<PortInfo>, printerPort: Option<string>): seq<PortInfo>
  {
    if ports == [] then []
    else
      var last := ports[|ports| - 1];
      WithoutDevice(ports[..|ports| - 1], printerPort) + (if IsPrinterPort(last, printerPort) then [] else [last])
  }

  /** Exactly the ports that are not the printer's are kept. */
  lemma {:induction false} WithoutDeviceMembers(ports: seq<PortInfo>, printerPort: Option<string>)
    ensures |WithoutDevice(ports, printerPort)| <= |ports|
    ensures forall q :: q in WithoutDevice(ports, printerPort) <==> q in ports && !IsPrinterPort(q, printerPort)
  {
    if ports != [] {
      var init := ports[..|ports| - 1];
      WithoutDeviceMembers(init, printerPort);
      assert ports == init + [ports[|ports| - 1]];
    }
  }

  /** A kept list of distinct devices keeps them distinct. */
  lemma {:induction false} WithoutDeviceUnique(ports: seq<PortInfo>, printerPort: Option<string>)
    requires UniqueDevices(ports)
    ensures UniqueDevices(WithoutDevice(ports, printerPort))
  {
    if ports != [] {
      var init := ports[..|ports| - 1];
      WithoutDeviceUnique(init, printerPort);
      WithoutDeviceMembers(init, printerPort);
      var kept := WithoutDevice(init, printerPort);
      forall q | q in kept ensures q.device != ports[|ports| - 1].device {
        var k :| 0 <= k < |init| && init[k] == q;
      }
    }
  }

  /**
   * When the printer port is unset (`None`) or the saved setting is the
   * `"AUTO"` wildcard, which names no attached port, nothing is removed.
   */
  lemma {:induction false} UnsetPrinterPortExcludesNothing(ports: seq<PortInfo>, printerPort: Option<string>)
    requires printerPort == None || printerPort == Some("AUTO")
    requires forall q :: q in ports ==> q.device != "AUTO"
    ensures WithoutDevice(ports, printerPort) == ports
  {
    if ports != [] {
      var init := ports[..|ports| - 1];
      UnsetPrinterPortExcludesNothing(init, printerPort);
      assert ports == init + [ports[|ports| - 1]];
    }
  }

  /** The index of the first port whose device is `device` (pyserial compares ports by device). */
  function IndexOfDevice(ports: seq<PortInfo>, device: string): (k: nat)
    requires exists q :: q in ports && q.device == device
    ensures k < |ports| && ports[k].device == device
    ensures forall m :: 0 <= m < k ==> ports[m].device != device
  {
    if ports[0].device == device then 0
    else
      assert exists q :: q in ports[1..] && q.device == device by {
        var q :| q in ports && q.device == device;
        var m :| 0 <= m < |ports| && ports[m] == q;
        assert ports[1..][m - 1] == q;
      }
      1 + IndexOfDevice(ports[1..], device)
  }

  /** Extending the examined prefix by one port extends the kept list by that port unless it is the printer's. */
  lemma WithoutDeviceStep(ports: seq<PortInfo>, j: nat, printerPort: Option<string>)
    requires j < |ports|
    ensures WithoutDevice(ports[..j + 1], printerPort)
         == WithoutDevice(ports[..j], printerPort) + (if IsPrinterPort(ports[j], printerPort) then [] else [ports[j]])
  {
    assert ports[..j + 1][..j] == ports[..j];
  }

  /** The removal step when the examined port is the printer's: the next port slides into its place and is skipped. */
  lemma SkipAfterRemoval(ports: seq<PortInfo>, j: nat, printerPort: Option<string>)
    requires UniqueDevices(ports)
    requires j < |ports| && IsPrinterPort(ports[j], printerPort)
    ensures WithoutDevice(ports[..j + 1], printerPort) == WithoutDevice(ports[..j], printerPort)
    ensures j + 1 < |ports| ==>
      && WithoutDevice(ports[..j + 2], printerPort) == WithoutDevice(ports[..j], printerPort) + [ports[j + 1]]
      && WithoutDevice(ports[..j], printerPort) + ports[j + 1..] == WithoutDevice(ports[..j + 2], printerPort) + ports[j + 2..]
  {
    WithoutDeviceStep(ports, j, printerPort);
    if j + 1 < |ports| {
      assert ports[j + 1].device != ports[j].device;
      WithoutDeviceStep(ports, j + 1, printerPort);
      assert ports[j + 1..] == [ports[j + 1]] + ports[j + 2..];
    }
  }

  /** The step for a port that is kept. */
  lemma KeepStep(ports: seq<PortInfo>, j: nat, printerPort: Option<string>)
    requires j < |ports| && !IsPrinterPort(ports[j], printerPort)
    ensures WithoutDevice(ports[..j], printerPort) + ports[j..] == WithoutDevice(ports[..j + 1], printerPort) + ports[j + 1..]
    ensures |WithoutDevice(ports[..j + 1], printerPort)| == |WithoutDevice(ports[..j], printerPort)| + 1
  {
    WithoutDeviceStep(ports, j, printerPort);
    assert ports[j..] == [ports[j]] + ports[j + 1..];
  }

  lemma SpliceAt(done: seq<PortInfo>, rest: seq<PortInfo>)
    requires rest != []
    ensures (done + rest)[..|done|] + (done + rest)[|done| + 1..] == done + rest[1..]
  {
    assert (done + rest)[..|done|] == done;
    assert (done + rest)[|done| + 1..] == rest[1..];
  }

  /**
   * One removal: when the examined port (at index `|done|` of the list) is
   * the printer's, `list.remove` finds that very port, since every port
   * before it was kept; afterwards the list is the kept prefix followed by
   * the ports after the removed one.
   */
  lemma RemovalStep(ports: seq<PortInfo>, j: nat, printerPort: Option<string>)
    requires UniqueDevices(ports)
    requires j < |ports| && IsPrinterPort(ports[j], printerPort)
    ensures var done := WithoutDevice(ports[..j], printerPort);
      var kept := done + ports[j..];
      && (exists q :: q in kept && q.device == ports[j].device)
      && IndexOfDevice(kept, ports[j].device) == |done|
      && kept[..|done|] + kept[|done| + 1..] == done + ports[j + 1..]
  {
    var done := WithoutDevice(ports[..j], printerPort);
    var rest := ports[j..];
    var kept := done + rest;
    WithoutDeviceMembers(ports[..j], printerPort);
    assert kept[|done|] == ports[j] && kept[|done|] in kept;
    assert forall m :: 0 <= m < |done| ==> kept[m] == done[m] && done[m] in done;
    SpliceAt(done, rest);
    assert rest[1..] == ports[j + 1..];
  }

  /**
   * The state of the removal loop after examining or skipping the first
   * `j` ports: the ports kept so far followed by the unexamined ones, with
   * the iterator's index `i` just past the kept ones (or one past the end
   * when the last port was removed).
   */
  ghost predicate RemovalState(ports: seq<PortInfo>, printerPort: Option<string>, kept: seq<PortInfo>, i: nat, j: nat) {
    && j <= |ports|
    && var done := WithoutDevice(ports[..j], printerPort);
    && kept == done + ports[j..]
    && (i == |done| || (j == |ports| && i == |kept| + 1))
  }

  /** While the iterator is inside the list, its element is the next unexamined port. */
  lemma RemovalLoopNext(ports: seq<PortInfo>, printerPort: Option<string>, kept: seq<PortInfo>, i: nat, j: nat)
    requires RemovalState(ports, printerPort, kept, i, j) && i < |kept|
    ensures i == |WithoutDevice(ports[..j], printerPort)|
    ensures j < |ports| && kept[i] == ports[j]
  {
  }

  /**
   * A turn that removes the printer's port: `list.remove` takes out that
   * very port, and the iterator then moves past the port that slid into its
   * place.
   */
  lemma RemovalLoopRemove(ports: seq<PortInfo>, printerPort: Option<string>, kept: seq<PortInfo>, i: nat, j: nat)
    requires UniqueDevices(ports)
    requires RemovalState(ports, printerPort, kept, i, j)
    requires i == |WithoutDevice(ports[..j], printerPort)|
    requires j < |ports| && IsPrinterPort(ports[j], printerPort)
    ensures exists q :: q in kept && q.device == ports[j].device
    ensures var k := IndexOfDevice(kept, ports[j].device);
      RemovalState(ports, printerPort, kept[..k] + kept[k + 1..], i + 1, if j + 1 < |ports| then j + 2 else j + 1)
  {
    RemovalStep(ports, j, printerPort);
    SkipAfterRemoval(ports, j, printerPort);
    if j + 1 == |ports| {
      assert ports[j + 1..] == [];
      assert ports[..j + 1] == ports;
    }
  }

  /** A turn that keeps a port moves the iterator on by one. */
  lemma RemovalLoopKeep(ports: seq<PortInfo>, printerPort: Option<string>, kept: seq<PortInfo>, i: nat, j: nat)
    requires RemovalState(ports, printerPort, kept, i, j)
    requires i == |WithoutDevice(ports[..j], printerPort)|
    requires j < |ports| && !IsPrinterPort(ports[j], printerPort)
    ensures RemovalState(ports, printerPort, kept, i + 1, j + 1)
  {
    KeepStep(ports, j, printerPort);
  }

  /** When the iterator runs off the end, every port has been examined or skipped. */
  lemma RemovalLoopEnd(ports: seq<PortInfo>, printerPort: Option<string>, kept: seq<PortInfo>, i: nat, j: nat)
    requires RemovalState(ports, printerPort, kept, i, j) && i >= |kept|
    ensures kept == WithoutDevice(ports, printerPort)
  {
    assert j == |ports|;
    assert ports[..j] == ports;
  }

  /**
   * The printer-port removal of `update_serial_ports`: a `for` over the list
   * that calls `list.remove` on the list it is iterating. After a removal the
   * iterator's index moves past the element that slid into the removed
   * place, so that element is never examined. With distinct device paths
   * the skipped element can never be the printer's, and the result is the
   * plain filter.
   */
  method RemovePrinterPort(ports: seq<PortInfo>, printerPort: Option<string>) returns (kept: seq<PortInfo>)
    requires UniqueDevices(ports)
    ensures kept == WithoutDevice(ports, printerPort)
  {
    kept := ports;
    var i := 0;
    ghost var j := 0;  // how much of `ports` has been examined or skipped
    assert ports[..0] == [];
    while i < |kept|
      invariant RemovalState(ports, printerPort, kept, i, j)
      decreases |ports| - j
    {
      RemovalLoopNext(ports, printerPort, kept, i, j);
      if IsPrinterPort(kept[i], printerPort) {
        RemovalLoopRemove(ports, printerPort, kept, i, j);
        var k := IndexOfDevice(kept, kept[i].device);
        kept := kept[..k] + kept[k + 1..];
        j := if j + 1 < |ports| then j + 2 else j + 1;
      } else {
        RemovalLoopKeep(ports, printerPort, kept, i, j);
        j := j + 1;
      }
      i := i + 1;
    }
    RemovalLoopEnd(ports, printerPort, kept, i, j);
  }

  /** Entering one more port, whose path is new, into a port table. */
  lemma PortTablePut(details: Dict<PortInfo>, ports: seq<PortInfo>, n: nat)
    requires UniqueDevices(ports) && n < |ports|
    requires PortTable(details, ports[..n])
    ensures PortTable(Put(details, ports[n].device, ports[n]), ports[..n + 1])
  {
    var q, front, next := ports[n], ports[..n], ports[..n + 1];
    DevicePathsStep(ports, n);
    NewDevicePath(details, ports, n);
    var r := Put(details, q.device, q);
    forall i | 0 <= i < n + 1
      ensures next[i].device in r.values && r.values[next[i].device] == next[i]
    {
      if i < n {
        assert next[i] == front[i] == ports[i];
        assert ports[i].device != q.device;
      }
    }
  }

  lemma DevicePathsStep(ports: seq<PortInfo>, n: nat)
    requires n < |ports|
    ensures DevicePaths(ports[..n + 1]) == DevicePaths(ports[..n]) + [ports[n].device]
  {
    assert ports[..n + 1][..n] == ports[..n];
  }

  /** The next port's path is not yet in a table of the ports before it. */
  lemma NewDevicePath(details: Dict<PortInfo>, ports: seq<PortInfo>, n: nat)
    requires UniqueDevices(ports) && n < |ports|
    requires PortTable(details, ports[..n])
    ensures ports[n].device !in details.values
  {
    forall i | 0 <= i < n
      ensures details.keys[i] != ports[n].device
    {
      assert ports[..n][i] == ports[i];
    }
  }

  /** Every record in a port table sits under its own device path. */
  lemma PortTableRecords(details: Dict<PortInfo>, ports: seq<PortInfo>)
    requires PortTable(details, ports)
    ensures forall k :: k in details.values ==> details.values[k].device == k
  {
    forall k | k in details.values ensures details.values[k].device == k {
      var i :| 0 <= i < |ports| && details.keys[i] == k;
    }
  }

  /** The `serial_port_details` dictionary: each port's record under its device path, in port order. */
  method BuildPortDetails(ports: seq<PortInfo>) returns (details: Dict<PortInfo>)
    requires UniqueDevices(ports)
    ensures PortTable(details, ports)
  {
    details := Empty();
    for n := 0 to |ports|
      invariant PortTable(details, ports[..n])
    {
      PortTablePut(details, ports, n);
      details := Put(details, ports[n].device, ports[n]);
    }
    assert ports[..|ports|] == ports;
  }
}
