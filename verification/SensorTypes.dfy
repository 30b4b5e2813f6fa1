/** Sensors, events and the sensor table of the proxy. */
module SensorTypes {

  type Int32 = x: int | -0x8000_0000 <= x < 0x8000_0000

  /** The sensor types the proxy tells apart. */
  datatype SensorType = Light | DynamicSensorMeta | QtiWiseLight | OtherType(code: int)

  /** The flag word by its fields: the wake-up bit, the two direct-report fields, the rest. */
  datatype SensorFlags = SensorFlags(wakeUp: bool, directReport: nat, directChannel: nat, others: nat)

  datatype SensorInfo = SensorInfo(sensorHandle: Int32, sensorType: SensorType, flags: SensorFlags)

  /** `dynamicHandle` is the handle inside a dynamic-sensor meta event; `scalar` and `reading2`
      are the two floats of the payload that ambient-light correction touches. */
  datatype Event = Event(sensorHandle: Int32, sensorType: SensorType, dynamicHandle: Int32,
                         scalar: real, reading2: real)

  type SensorTable = map<Int32, SensorInfo>

  /** What the C++ map creates for a key it does not know. */
  const DEFAULT_SENSOR := SensorInfo(0, OtherType(0), SensorFlags(false, 0, 0, 0))

  function WakeUpHandles(sensors: SensorTable): (wake: set<Int32>)
    ensures forall h :: h in wake <==> h in sensors && sensors[h].flags.wakeUp
  {
    set h | h in sensors && sensors[h].flags.wakeUp
  }

  function CountWakeUps(wake: set<Int32>, events: seq<Event>): nat {
    if events == [] then 0
    else
      CountWakeUps(wake, events[..|events| - 1]) +
      if events[|events| - 1].sensorHandle in wake then 1 else 0
  }

  lemma CountWakeUpsStep(wake: set<Int32>, events: seq<Event>, i: nat)
    requires i < |events|
    ensures CountWakeUps(wake, events[..i + 1]) ==
            CountWakeUps(wake, events[..i]) + if events[i].sensorHandle in wake then 1 else 0
  {
    assert events[..i + 1][..i] == events[..i];
  }

  lemma {:induction false} CountWakeUpsConcat(wake: set<Int32>, a: seq<Event>, b: seq<Event>)
    ensures CountWakeUps(wake, a + b) == CountWakeUps(wake, a) + CountWakeUps(wake, b)
  {
    if b == [] {
      assert a + b == a;
    } else {
      assert (a + b)[..|a + b| - 1] == a + b[..|b| - 1];
      CountWakeUpsConcat(wake, a, b[..|b| - 1]);
    }
  }

  lemma CountWakeUpsSplit(wake: set<Int32>, events: seq<Event>, n: nat)
    requires n <= |events|
    ensures CountWakeUps(wake, events) ==
            CountWakeUps(wake, events[..n]) + CountWakeUps(wake, events[n..])
  {
    assert events == events[..n] + events[n..];
    CountWakeUpsConcat(wake, events[..n], events[n..]);
  }
}
