/** The callback each sub-HAL posts through: tags the events and counts their wake-up events. */
module HalProxyCallback {
  import opened SensorTypes
  import opened SensorHandle
  import opened WakelockSpec
  import opened EventCorrection
  import opened HalProxyEvents

  /** An event as the framework sees it: its handle, and in a dynamic-sensor meta event the handle
      inside, carry the sub-HAL index. */
  function Tag(e: Event, subHalIndex: nat): Event {
    e.(sensorHandle := SetSubHalIndex(e.sensorHandle, subHalIndex),
       dynamicHandle := if e.sensorType == DynamicSensorMeta
                        then SetSubHalIndex(e.dynamicHandle, subHalIndex) else e.dynamicHandle)
  }

  function TagAll(events: seq<Event>, subHalIndex: nat): (tagged: seq<Event>)
    ensures |tagged| == |events|
  {
    seq(|events|, i requires 0 <= i < |events| => Tag(events[i], subHalIndex))
  }

  /** Tagging reaches no sensor of another sub-HAL: the events of two sub-HALs never share a handle,
      and the proxy finds the sub-HAL and its own handle again. */
  lemma TagsAreSeparate(e: Event, i: nat, e': Event, i': nat)
    requires SubHalIndexIsClear(e.sensorHandle) && SubHalIndexIsClear(e'.sensorHandle) && i < 128 && i' < 128
    ensures Tag(e, i).sensorHandle == Tag(e', i').sensorHandle <==> i == i' && e.sensorHandle == e'.sensorHandle
    ensures ExtractSubHalIndex(Tag(e, i).sensorHandle) == i
    ensures ClearSubHalIndex(Tag(e, i).sensorHandle) == e.sensorHandle
  {
    TagInjective(e.sensorHandle, i, e'.sensorHandle, i');
    RoundTrip(e.sensorHandle, i, 128);
  }

  /** What tagging leaves alone, and where the handle inside a dynamic-sensor event leads. */
  lemma TagSpelledOut(e: Event, i: nat)
    requires i < 128
    ensures var t := Tag(e, i);
            && t.sensorType == e.sensorType && t.scalar == e.scalar && t.reading2 == e.reading2
            && (e.sensorType != DynamicSensorMeta ==> t.dynamicHandle == e.dynamicHandle)
            && (e.sensorType == DynamicSensorMeta && 0 <= e.dynamicHandle < 0x100_0000 ==>
                  t.dynamicHandle == 0x100_0000 * i + e.dynamicHandle)
            && (0 <= e.sensorHandle < 0x100_0000 ==> t.sensorHandle == 0x100_0000 * i + e.sensorHandle)
  {
    TagValue(e.sensorHandle, i);
    TagValue(e.dynamicHandle, i);
    hide SetSubHalIndex;
  }

  lemma TagValue(h: Int32, i: nat)
    requires i < 128
    ensures 0 <= h < 0x100_0000 ==> SetSubHalIndex(h, i) == 0x100_0000 * i + h
  {
    hide SetSubHalIndex, Top, Low, ExtractSubHalIndex;
    ClearIsLow(h);
    assert i % 256 == i;
    if 0 <= h < 0x100_0000 {
      TaggedClear(h, i);
      BytesOf(SetSubHalIndex(h, i));
    }
  }

  lemma CountOneMore(wake: set<Int32>, events: seq<Event>, e: Event)
    ensures CountWakeUps(wake, events + [e]) == CountWakeUps(wake, events) + if e.sensorHandle in wake then 1 else 0
  {
    assert (events + [e])[..|events|] == events;
  }

  lemma NothingCounted(wake: set<Int32>)
    ensures CountWakeUps(wake, []) == 0
  {
  }

  class Callback {
    const proxy: HalProxy
    const subHalIndex: nat

    constructor (proxy: HalProxy, subHalIndex: nat)
      ensures this.proxy == proxy && this.subHalIndex == subHalIndex
    {
      this.proxy, this.subHalIndex := proxy, subHalIndex;
    }

    /** Every event is tagged, in order, and the count is the one the proxy would get. */
    method ProcessEvents(events: seq<Event>) returns (eventsOut: seq<Event>, numWakeupEvents: nat)
      ensures eventsOut == TagAll(events, subHalIndex)
      ensures numWakeupEvents == CountWakeUps(WakeUpHandles(proxy.sensors), eventsOut)
    {
      hide CountWakeUps, SetSubHalIndex;
      numWakeupEvents := 0;
      eventsOut := [];
      NothingCounted(WakeUpHandles(proxy.sensors));
      for i := 0 to |events|
        invariant |eventsOut| == i
        invariant forall j :: 0 <= j < i ==> eventsOut[j] == Tag(events[j], subHalIndex)
        invariant numWakeupEvents == CountWakeUps(WakeUpHandles(proxy.sensors), eventsOut)
      {
        var event := events[i];
        event := event.(sensorHandle := SetSubHalIndex(event.sensorHandle, subHalIndex));
        if event.sensorType == DynamicSensorMeta {
          event := event.(dynamicHandle := SetSubHalIndex(event.dynamicHandle, subHalIndex));
        }
        CountOneMore(WakeUpHandles(proxy.sensors), eventsOut, event);
        eventsOut := eventsOut + [event];
        var flags := if event.sensorHandle in proxy.sensors
                     then proxy.sensors[event.sensorHandle].flags else DEFAULT_SENSOR.flags;
        if flags.wakeUp {
          numWakeupEvents := numWakeupEvents + 1;
        }
      }
    }

    /** A wakelock for a batch: asking for a locked one takes a reference, if the threads run. */
    method CreateScopedWakelock(lock: bool, now: int) returns (wakelock: Scoped)
      modifies proxy.wakelock
      ensures wakelock == if lock && old(proxy.wakelock.threadsRun) then Locked(now) else Unlocked
      ensures proxy.wakelock.threadsRun == old(proxy.wakelock.threadsRun)
      ensures proxy.wakelock.View() ==
        if lock then AfterIncrement(old(proxy.wakelock.View()), 1, now, old(proxy.wakelock.threadsRun))
        else old(proxy.wakelock.View())
    {
      wakelock := Unlocked;
      if lock {
        var taken, timeoutStart := proxy.wakelock.IncrementRefCountAndMaybeAcquireWakelock(1, now);
        if taken {
          wakelock := Locked(timeoutStart);
        }
      }
    }

    /** Posts a sub-HAL's batch, with the wakelock that came with it. Nothing is posted for an empty
        batch or while the threads are stopped; otherwise the tagged batch is corrected and posted with
        the right wake-up count, which the proxy's wakelock gains if the batch holds it. In any case
        the batch's own reference ends with the call, and the sensor table stays as it is. */
    method PostEvents(events: seq<Event>, wakelock: Scoped, answers: seq<Surroundings>, gamma: real -> real,
                      writeOk: bool, now: int)
      requires proxy.Valid() && proxy.state.poster.Outside? && proxy.filter.Valid() && |answers| == |events|
      modifies proxy, proxy.wakelock, proxy.filter
      ensures proxy.Valid() && proxy.filter.Valid() && proxy.filter.conf == old(proxy.filter.conf)
      ensures proxy.sensors == old(proxy.sensors) && proxy.wakelock.threadsRun == old(proxy.wakelock.threadsRun)
      ensures wakelock.Unlocked? ==> proxy.wakelock.View() == old(proxy.wakelock.View())
      ensures events == [] || !old(proxy.wakelock.threadsRun) ==>
                && proxy.state == old(proxy.state) && proxy.filter.View() == old(proxy.filter.View())
                && proxy.wakelock.View() == AfterScope(old(proxy.wakelock.View()), wakelock, proxy.wakelock.threadsRun)
      ensures events != [] && old(proxy.wakelock.threadsRun) ==>
                var tagged := TagAll(events, subHalIndex);
                var (filtered, corrected) :=
                  CorrectAll(proxy.filter.conf, old(proxy.filter.View()), tagged, answers, gamma);
                var wakeUps := CountWakeUps(WakeUpHandles(proxy.sensors), tagged);
                && proxy.state ==
                     Posted(old(proxy.Config()), old(proxy.state), tagged, corrected, wakelock.Locked?, writeOk)
                && proxy.filter.View() == filtered
                && var posted := if wakelock.Unlocked? then old(proxy.wakelock.View())
                              else AfterIncrement(old(proxy.wakelock.View()), wakeUps, now, true);
                   proxy.wakelock.View() == AfterScope(posted, wakelock, true)
    {
      hide *;
      if events != [] && proxy.wakelock.threadsRun {
        var processedEvents, numWakeupEvents := ProcessEvents(events);
        proxy.PostEventsToMessageQueue(processedEvents, numWakeupEvents, wakelock.Locked?, answers, gamma, writeOk, now);
      }
      EndScope(wakelock);
    }

    /** The end of a scoped wakelock. */
    method EndScope(wakelock: Scoped)
      modifies proxy.wakelock
      ensures proxy.wakelock.threadsRun == old(proxy.wakelock.threadsRun)
      ensures proxy.wakelock.View() == AfterScope(old(proxy.wakelock.View()), wakelock, proxy.wakelock.threadsRun)
      ensures wakelock.Unlocked? ==> proxy.wakelock.View() == old(proxy.wakelock.View())
    {
      if wakelock.Locked? {
        proxy.wakelock.DecrementRefCountAndMaybeReleaseWakelock(1, wakelock.token);
      }
    }
  }
}
