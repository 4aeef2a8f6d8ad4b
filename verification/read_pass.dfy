/**
 * What one pass of the sensor read loop does, as functions of the device
 * list and of what each device's read yields: which `insert_reading` calls
 * it makes, how many serial errors stop the loop, and where an uncaught
 * error ends the thread.
 */
module ReadPass {
  import opened Optional
  import opened Devices

  /** A measurement set from a sensor; its decoding belongs to the sensor driver. */
  datatype Reading = Reading(measurements: map<string, real>)

  /**
   * What reading one device yields: a reading, a `serial.SerialException`,
   * or any other exception (from the driver or from storage), which the
   * loop does not catch.
   */
  datatype ReadOutcome = Got(reading: Reading) | SerialFailure | OtherFailure

  /** One call `insert_reading(device_id, location_id, reading)` on the storage collaborator. */
  datatype Insertion = Insertion(deviceId: int, locationId: int, reading: Reading)

  /**
   * Visiting this device raises an exception the loop does not catch:
   * entering `with None` for a device without a reader, or an error other
   * than a serial one.
   */
  predicate Crashes(d: Device, o: ReadOutcome) {
    d.reader.None? || o.OtherFailure?
  }

  /** The index of the first device whose visit crashes the thread, or the number of devices. */
  function CrashIndex(devs: seq<Device>, outs: seq<ReadOutcome>): (n: nat)
    requires |devs| == |outs|
    ensures n <= |devs|
  {
    if devs == [] then 0
    else if Crashes(devs[0], outs[0]) then 0
    else 1 + CrashIndex(devs[1..], outs[1..])
  }

  /** No visit before the crash index crashes, and the one at it does. */
  lemma {:induction false} CrashIndexFirst(devs: seq<Device>, outs: seq<ReadOutcome>)
    requires |devs| == |outs|
    ensures forall i :: 0 <= i < CrashIndex(devs, outs) ==> !Crashes(devs[i], outs[i])
    ensures CrashIndex(devs, outs) < |devs| ==> Crashes(devs[CrashIndex(devs, outs)], outs[CrashIndex(devs, outs)])
  {
    if devs != [] && !Crashes(devs[0], outs[0]) {
      CrashIndexFirst(devs[1..], outs[1..]);
      forall i | 1 <= i < CrashIndex(devs, outs) ensures !Crashes(devs[i], outs[i]) {
        assert devs[i] == devs[1..][i - 1] && outs[i] == outs[1..][i - 1];
      }
    }
  }

  /** A visit before the crash index either is the crash or leaves the crash index ahead. */
  lemma CrashIndexStep(devs: seq<Device>, outs: seq<ReadOutcome>, i: nat)
    requires |devs| == |outs| && i < |devs| && i <= CrashIndex(devs, outs)
    ensures Crashes(devs[i], outs[i]) ==> CrashIndex(devs, outs) == i
    ensures !Crashes(devs[i], outs[i]) ==> i < CrashIndex(devs, outs)
  {
    CrashIndexFirst(devs, outs);
  }

  /** The insertion a successful read of `d` makes, if any. */
  function InsertionOf(d: Device, o: ReadOutcome): seq<Insertion>
  {
    if o.Got? then [Insertion(d.id, d.locationId, o.reading)] else []
  }

  /** The insertions the first `n` visits make, in device order. */
  function InsertionsUpTo(devs: seq<Device>, outs: seq<ReadOutcome>, n: nat): seq<Insertion>
    requires |devs| == |outs| && n <= |devs|
  {
    if n == 0 then [] else InsertionsUpTo(devs, outs, n - 1) + InsertionOf(devs[n - 1], outs[n - 1])
  }

  /** The number of successful reads among the first `n`. */
  function SuccessesUpTo(outs: seq<ReadOutcome>, n: nat): nat
    requires n <= |outs|
  {
    if n == 0 then 0 else SuccessesUpTo(outs, n - 1) + (if outs[n - 1].Got? then 1 else 0)
  }

  /** The number of serial errors among the first `n` reads; each one calls `stop_sensors_read_thread`. */
  function FailuresUpTo(outs: seq<ReadOutcome>, n: nat): nat
    requires n <= |outs|
  {
    if n == 0 then 0 else FailuresUpTo(outs, n - 1) + (if outs[n - 1].SerialFailure? then 1 else 0)
  }

  /** Exactly one insertion per successful read. */
  lemma {:induction false} OneInsertionPerSuccess(devs: seq<Device>, outs: seq<ReadOutcome>, n: nat)
    requires |devs| == |outs| && n <= |devs|
    ensures |InsertionsUpTo(devs, outs, n)| == SuccessesUpTo(outs, n)
  {
    if n > 0 {
      OneInsertionPerSuccess(devs, outs, n - 1);
    }
  }

  /** Later visits only add insertions after the earlier ones. */
  lemma {:induction false} InsertionsGrow(devs: seq<Device>, outs: seq<ReadOutcome>, m: nat, n: nat)
    requires |devs| == |outs| && m <= n <= |devs|
    ensures InsertionsUpTo(devs, outs, m) <= InsertionsUpTo(devs, outs, n)
  {
    if m < n {
      InsertionsGrow(devs, outs, m, n - 1);
    }
  }

  /**
   * Insertions follow the device order: the insertion for the `k`-th device,
   * when its read succeeded, comes after one insertion for each earlier
   * successful read.
   */
  lemma InsertionsInDeviceOrder(devs: seq<Device>, outs: seq<ReadOutcome>, k: nat, n: nat)
    requires |devs| == |outs| && k < n <= |devs| && outs[k].Got?
    ensures SuccessesUpTo(outs, k) < |InsertionsUpTo(devs, outs, n)|
    ensures InsertionsUpTo(devs, outs, n)[SuccessesUpTo(outs, k)] == Insertion(devs[k].id, devs[k].locationId, outs[k].reading)
  {
    OneInsertionPerSuccess(devs, outs, k);
    InsertionsGrow(devs, outs, k + 1, n);
  }

  /** The first crashing visit ends the pass: what the thread did in a pass. */
  datatype PassResult = PassResult(crashedAt: Option<nat>, stops: nat, insertions: seq<Insertion>)

  /**
   * One pass over `devs` where the `i`-th read yields `outs[i]`: the visits
   * up to the first crash are made, and the crash, if any, ends the thread.
   */
  function Pass(devs: seq<Device>, outs: seq<ReadOutcome>): (r: PassResult)
    requires |devs| == |outs|
    ensures r.crashedAt.Some? ==> r.crashedAt.value < |devs| && Crashes(devs[r.crashedAt.value], outs[r.crashedAt.value])
  {
    var n := CrashIndex(devs, outs);
    CrashIndexFirst(devs, outs);
    PassResult(if n < |devs| then Some(n) else None, FailuresUpTo(outs, n), InsertionsUpTo(devs, outs, n))
  }

  /** A pass crashes exactly when some visit in it crashes. */
  lemma PassCrashes(devs: seq<Device>, outs: seq<ReadOutcome>)
    requires |devs| == |outs|
    ensures Pass(devs, outs).crashedAt.None? <==> forall i :: 0 <= i < |devs| ==> !Crashes(devs[i], outs[i])
    ensures Pass(devs, outs).crashedAt.None? ==>
      Pass(devs, outs).stops == FailuresUpTo(outs, |outs|) && Pass(devs, outs).insertions == InsertionsUpTo(devs, outs, |devs|)
  {
    CrashIndexFirst(devs, outs);
  }

  /**
   * A serial error costs only its own device's reading: in a pass that does
   * not crash, every later successful read is still stored.
   */
  lemma SerialFailureSkipsOnlyItsDevice(devs: seq<Device>, outs: seq<ReadOutcome>, j: nat, k: nat)
    requires |devs| == |outs| && j < k < |devs|
    requires outs[j].SerialFailure? && outs[k].Got?
    requires Pass(devs, outs).crashedAt.None?
    ensures InsertionsUpTo(devs, outs, j + 1) == InsertionsUpTo(devs, outs, j)
    ensures Insertion(devs[k].id, devs[k].locationId, outs[k].reading) in Pass(devs, outs).insertions
  {
    PassCrashes(devs, outs);
    InsertionsInDeviceOrder(devs, outs, k, |devs|);
  }

  /** The pass as seen from its crash index. */
  lemma PassUpTo(devs: seq<Device>, outs: seq<ReadOutcome>, n: nat)
    requires |devs| == |outs| && n == CrashIndex(devs, outs)
    ensures Pass(devs, outs)
         == PassResult(if n < |devs| then Some(n) else None, FailuresUpTo(outs, n), InsertionsUpTo(devs, outs, n))
  {
  }

  /** Concatenation is associative. */
  lemma AppendAssoc<T>(a: seq<T>, b: seq<T>, c: seq<T>)
    ensures a + b + c == a + (b + c)
  {
  }

  /** Every pass has one outcome per device. */
  predicate OutcomesFit(devs: seq<Device>, passes: seq<seq<ReadOutcome>>) {
    forall k :: 0 <= k < |passes| ==> |passes[k]| == |devs|
  }

  /** The insertions of the first `n` passes, one pass after another. */
  function AllInsertions(devs: seq<Device>, passes: seq<seq<ReadOutcome>>, n: nat): seq<Insertion>
    requires OutcomesFit(devs, passes) && n <= |passes|
  {
    if n == 0 then [] else AllInsertions(devs, passes, n - 1) + Pass(devs, passes[n - 1]).insertions
  }

  /** The calls to stop made in the first `n` passes, one pass after another. */
  function AllStops(devs: seq<Device>, passes: seq<seq<ReadOutcome>>, n: nat): nat
    requires OutcomesFit(devs, passes) && n <= |passes|
  {
    if n == 0 then 0 else AllStops(devs, passes, n - 1) + Pass(devs, passes[n - 1]).stops
  }

  /** None of the first `n` passes crashes the thread. */
  predicate AllComplete(devs: seq<Device>, passes: seq<seq<ReadOutcome>>, n: nat)
    requires OutcomesFit(devs, passes) && n <= |passes|
  {
    n == 0 || (AllComplete(devs, passes, n - 1) && Pass(devs, passes[n - 1]).crashedAt.None?)
  }

  /** None of the first `n` passes meets a serial error. */
  predicate NoStops(devs: seq<Device>, passes: seq<seq<ReadOutcome>>, n: nat)
    requires OutcomesFit(devs, passes) && n <= |passes|
  {
    n == 0 || (NoStops(devs, passes, n - 1) && Pass(devs, passes[n - 1]).stops == 0)
  }

  /** The first `n` passes complete exactly when each of them does. */
  lemma {:induction false} AllCompleteEach(devs: seq<Device>, passes: seq<seq<ReadOutcome>>, n: nat)
    requires OutcomesFit(devs, passes) && n <= |passes|
    ensures AllComplete(devs, passes, n) <==> forall k :: 0 <= k < n ==> Pass(devs, passes[k]).crashedAt.None?
  {
    if n > 0 {
      AllCompleteEach(devs, passes, n - 1);
    }
  }

  /** The first `n` passes are free of serial errors exactly when each of them is. */
  lemma {:induction false} NoStopsEach(devs: seq<Device>, passes: seq<seq<ReadOutcome>>, n: nat)
    requires OutcomesFit(devs, passes) && n <= |passes|
    ensures NoStops(devs, passes, n) <==> forall k :: 0 <= k < n ==> Pass(devs, passes[k]).stops == 0
  {
    if n > 0 {
      NoStopsEach(devs, passes, n - 1);
    }
  }

  /** The first `n` passes make no call to stop exactly when none of them meets a serial error. */
  lemma {:induction false} AllStopsZero(devs: seq<Device>, passes: seq<seq<ReadOutcome>>, n: nat)
    requires OutcomesFit(devs, passes) && n <= |passes|
    ensures AllStops(devs, passes, n) == 0 <==> NoStops(devs, passes, n)
  {
    if n > 0 {
      AllStopsZero(devs, passes, n - 1);
    }
  }
}
