/** The event methods of the proxy and of its per-sub-HAL callback, updating the proxy in place.
    Each method takes the steps of the event pipeline that its code takes. */
module HalProxyEvents {
  import opened Common
  import opened SensorTypes
  import P = EventPipelineSpec
  import EventPipelineInv
  import Laws = EventPipelineLaws
  import WakelockSpec
  import opened SharedWakelock
  import opened EventCorrection
  import opened AlsCorrection

  /** What the environment answers while the writer blocks: how many events the framework reads
      first, and whether the write goes through once there is room. */
  datatype Answer = Answer(read: nat, willing: bool)

  /** The rest of a post, once it is entered: the direct write, if any, and the end. */
  function Placed(c: P.Config, entered: P.State, ok: bool): P.State
    requires EventPipelineInv.Core(c, entered) && !entered.poster.Outside?
  {
    var wrote := if entered.poster.Direct? then P.AfterDirectWrite(c, entered, ok) else entered;
    P.AfterPostLeave(c, wrote)
  }

  /** The post steps in a row, as one thread takes them under the mutex. */
  function Posted(c: P.Config, s: P.State, raw: seq<Event>, corrected: seq<Event>, locked: bool, ok: bool): P.State
    requires EventPipelineInv.Core(c, s) && s.poster.Outside? && P.Corrects(raw, corrected)
  {
    EventPipelineInv.StepKeepsCore(c, s, P.PostEnter(raw, corrected, locked));
    Placed(c, P.AfterPostEnter(c, s, raw, corrected, locked), ok)
  }

  lemma PostedIsPlaced(c: P.Config, s: P.State, raw: seq<Event>, corrected: seq<Event>, locked: bool, ok: bool,
                       entered: P.State)
    requires Laws.Inv(c, s) && s.poster.Outside? && P.Corrects(raw, corrected)
    requires P.Enabled(c, s, P.PostEnter(raw, corrected, locked)) && P.Defined(c, s, P.PostEnter(raw, corrected, locked))
    requires entered == P.AfterPostEnter(c, s, raw, corrected, locked)
    ensures EventPipelineInv.Core(c, s) && EventPipelineInv.Core(c, entered) && !entered.poster.Outside?
    ensures Posted(c, s, raw, corrected, locked, ok) == Placed(c, entered, ok)
  {
    assert EventPipelineInv.Core(c, s);
    EventPipelineInv.StepKeepsCore(c, s, P.PostEnter(raw, corrected, locked));
    hide Placed, EventPipelineInv.Core;
  }

  lemma ValidAtStart(p: HalProxy)
    requires p.state == P.INIT && p.quantumCount > 0
    requires p.pendingWriteEventsQueue == [] && p.sizePendingWriteEventsQueue == 0
    requires p.mostEventsObservedPendingWriteEventsQueue == 0 && p.eventQueue == []
    ensures p.Valid()
  {
    hide Laws.Inv;
    Laws.InvInitially(p.Config());
  }

  lemma ValidGivesInv(p: HalProxy)
    requires p.Valid()
    ensures Laws.Inv(p.Config(), p.state)
  {
    hide Laws.Inv;
  }

  /** What one uninterrupted post does, whatever the state: nothing overtakes pending events, a
      direct write is as large as fits, what is left is queued behind everything else if it fits as a
      whole and dropped as a whole if not, and references are taken for the wake-up events posted. */
  lemma PostOutcome(c: P.Config, s: P.State, raw: seq<Event>, corrected: seq<Event>, locked: bool, ok: bool)
    returns (direct: nat)
    requires EventPipelineInv.Core(c, s) && s.poster.Outside? && P.Corrects(raw, corrected)
    ensures direct <= |corrected|
    ensures var s', left := Posted(c, s, raw, corrected, locked, ok), |corrected| - direct;
            && s'.queue == s.queue + corrected[..direct]
            && (s.pending != [] || !ok ==> direct == 0)
            && (s.pending == [] && ok ==> left == 0 || |s'.queue| == c.quantum)
            && (left == 0 ==> s'.pending == s.pending && s'.history.dropped == s.history.dropped)
            && (0 < left <= c.maxPending - s.size ==>
                  && s'.pending == s.pending + [P.Batch(corrected[direct..], CountWakeUps(c.wake, raw))]
                  && s'.history.dropped == s.history.dropped)
            && s'.writer == (if 0 < left <= c.maxPending - s.size && s.writer.Sleeping? then P.Sleeping(true) else s.writer)
            && s'.most == Max(s.most, s'.size)
            && s'.wakes.rewritten == s.wakes.rewritten + Max(CountWakeUps(c.wake, raw) - CountWakeUps(c.wake, corrected), 0)
            && (left > c.maxPending - s.size ==>
                  s'.pending == s.pending && s'.history.dropped == s.history.dropped + corrected[direct..])
            && s'.wakes.taken == s.wakes.taken + (if locked then CountWakeUps(c.wake, raw) else 0)
            && s'.wakes.released == s.wakes.released && s'.consumed == s.consumed
            && s'.history.posted == s.history.posted + corrected
  {
    var entered := P.AfterPostEnter(c, s, raw, corrected, locked);
    direct := if entered.poster.Direct? && ok then entered.poster.count else 0;
  }

  class HalProxy {
    var pendingWriteEventsQueue: seq<P.Batch>
    var sizePendingWriteEventsQueue: nat
    var mostEventsObservedPendingWriteEventsQueue: nat
    /** Events written to the message queue and not read yet. */
    var eventQueue: seq<Event>
    var sensors: SensorTable
    const wakelock: Wakelock
    /** Ambient-light correction, with its static state. */
    const filter: AlsFilter
    const quantumCount: nat
    const maxSizePendingWriteEventsQueue: nat
    ghost var state: P.State

    ghost function Config(): P.Config
      reads this`sensors
    {
      P.Config(quantumCount, maxSizePendingWriteEventsQueue, WakeUpHandles(sensors))
    }

    ghost predicate Valid()
      reads this
    {
      && state.pending == pendingWriteEventsQueue && state.size == sizePendingWriteEventsQueue
      && state.most == mostEventsObservedPendingWriteEventsQueue && state.queue == eventQueue
      && Laws.Inv(Config(), state)
    }

    constructor (sensors: SensorTable, wakelock: Wakelock, filter: AlsFilter, quantumCount: nat, maxSize: nat)
      requires quantumCount > 0
      ensures Valid() && state == P.INIT
      ensures this.wakelock == wakelock && this.filter == filter && this.sensors == sensors
      ensures this.quantumCount == quantumCount && maxSizePendingWriteEventsQueue == maxSize
    {
      hide *;
      pendingWriteEventsQueue, eventQueue := [], [];
      sizePendingWriteEventsQueue, mostEventsObservedPendingWriteEventsQueue := 0, 0;
      this.sensors, this.wakelock, this.filter := sensors, wakelock, filter;
      this.quantumCount, maxSizePendingWriteEventsQueue := quantumCount, maxSize;
      state := P.INIT;
      new;
      ValidAtStart(this);
    }

    /** Counts the wake-up events among the first n. Looking a handle up creates the missing entries
        of the table, with default values, so the table grows but no lookup changes. */
    method CountNumWakeupEvents(events: seq<Event>, n: nat) returns (numWakeupEvents: nat)
      requires n <= |events|
      modifies this`sensors
      ensures WakeUpHandles(sensors) == old(WakeUpHandles(sensors))
      ensures numWakeupEvents == CountWakeUps(WakeUpHandles(sensors), events[..n])
      ensures forall h :: h in old(sensors) ==> h in sensors && sensors[h] == old(sensors)[h]
      ensures forall h :: h in sensors && h !in old(sensors) ==> sensors[h] == DEFAULT_SENSOR
      ensures forall h :: h in sensors <==> h in old(sensors) || exists i :: 0 <= i < n && events[i].sensorHandle == h
    {
      numWakeupEvents := 0;
      for i := 0 to n
        invariant WakeUpHandles(sensors) == old(WakeUpHandles(sensors))
        invariant numWakeupEvents == CountWakeUps(WakeUpHandles(sensors), events[..i])
        invariant forall h :: h in old(sensors) ==> h in sensors && sensors[h] == old(sensors)[h]
        invariant forall h :: h in sensors && h !in old(sensors) ==> sensors[h] == DEFAULT_SENSOR
        invariant forall h :: h in sensors <==> h in old(sensors) || exists j :: 0 <= j < i && events[j].sensorHandle == h
      {
        var sensorHandle := events[i].sensorHandle;
        if sensorHandle !in sensors {
          sensors := sensors[sensorHandle := DEFAULT_SENSOR];
        }
        CountWakeUpsStep(WakeUpHandles(sensors), events, i);
        if sensors[sensorHandle].flags.wakeUp {
          numWakeupEvents := numWakeupEvents + 1;
        }
      }
    }

    /** Ambient-light correction of a copy of the batch, event by event. Only wise-light events
        change, and those only as the pipeline assumes. */
    method CorrectEvents(eventsList: seq<Event>, answers: seq<Surroundings>, gamma: real -> real)
      returns (events: seq<Event>)
      requires filter.Valid() && |answers| == |eventsList|
      modifies filter
      ensures filter.Valid() && filter.conf == old(filter.conf)
      ensures (filter.View(), events) == CorrectAll(filter.conf, old(filter.View()), eventsList, answers, gamma)
      ensures P.Corrects(eventsList, events)
    {
      ghost var c, s := filter.conf, filter.View();
      hide P.Corrects;
      events := eventsList;
      NothingCorrected(c, s, eventsList, answers, gamma);
      for i := 0 to |events|
        invariant |events| == |eventsList| && filter.Valid() && filter.conf == c
        invariant (filter.View(), events[..i]) == CorrectAll(c, s, eventsList[..i], answers[..i], gamma)
        invariant events[i..] == eventsList[i..]
      {
        assert events[i] == eventsList[i] by { assert events[i..][0] == eventsList[i..][0]; }
        CorrectAllStep(c, s, eventsList, answers, gamma, i);
        ghost var before := events;
        if events[i].sensorType == QtiWiseLight {
          var corrected := filter.ProcessEvent(events[i], answers[i].now, answers[i].brightness,
                                               answers[i].capture, gamma);
          events := events[i := corrected];
        }
        assert events[..i + 1] == before[..i] + [events[i]];
        assert events[i + 1..] == before[i..][1..];
      }
      assert events[..|events|] == events && eventsList[..|events|] == eventsList && answers[..|events|] == answers;
    }

    /** The direct write of a post: as much as fits, and only while nothing is pending. */
    method WriteDirectly(events: seq<Event>, writeOk: bool) returns (numToWrite: nat)
      requires Valid() && !state.poster.Outside? && state.poster.events == events
      requires state.poster.Direct? <==> pendingWriteEventsQueue == [] && events != [] && |eventQueue| < quantumCount
      requires state.poster.count == if state.poster.Direct? then Min(|events|, quantumCount - |eventQueue|) else 0
      modifies `eventQueue, `state
      ensures Valid()
      ensures old(state.poster.Direct?) ==>
                old(P.Enabled(Config(), state, P.DirectWrite(writeOk)) && P.Defined(Config(), state, P.DirectWrite(writeOk)))
      ensures state == if old(state.poster.Direct?) then P.AfterDirectWrite(Config(), old(state), writeOk) else old(state)
      ensures state.poster == P.Remainder(events, old(state.poster.wakeUps), numToWrite)
    {
      hide Laws.Inv, P.AfterDirectWrite, P.Enabled, P.Defined;
      ghost var c, s := Config(), state;
      DirectWriteFields(c, s, writeOk);
      numToWrite := 0;
      if pendingWriteEventsQueue == [] {
        var availableToWrite := quantumCount - |eventQueue|;
        numToWrite := Min(|events|, availableToWrite);
        if numToWrite > 0 {
          state := P.AfterDirectWrite(c, s, writeOk);
          if writeOk {
            eventQueue := eventQueue + events[..numToWrite];
          } else {
            numToWrite := 0;
          }
        }
      }
    }

    /** Queues what a post has left, all of it or nothing. */
    method QueueRemainder(events: seq<Event>, numToWrite: nat, numWakeupEvents: nat)
      requires Valid() && state.poster == P.Remainder(events, numWakeupEvents, numToWrite)
      modifies `pendingWriteEventsQueue, `sizePendingWriteEventsQueue, `mostEventsObservedPendingWriteEventsQueue, `state
      ensures Valid()
      ensures old(P.Enabled(Config(), state, P.PostLeave) && P.Defined(Config(), state, P.PostLeave))
      ensures state == P.AfterPostLeave(Config(), old(state))
    {
      hide Laws.Inv, P.AfterPostLeave, P.Enabled, P.Defined;
      ghost var c, s := Config(), state;
      PostLeaveFields(c, s);
      ghost var s' := P.AfterPostLeave(c, s);
      var numLeft := |events| - numToWrite;
      if numToWrite < |events| && sizePendingWriteEventsQueue + numLeft <= maxSizePendingWriteEventsQueue {
        Enqueue(P.Batch(events[numToWrite..], numWakeupEvents), s');
      } else {
        state := s';
      }
    }

    /** Pushes a batch to the back of the pending queue. */
    method Enqueue(b: P.Batch, ghost s': P.State)
      requires Valid() && Laws.Inv(Config(), s') && s'.queue == state.queue
      requires s'.pending == state.pending + [b] && s'.size == state.size + |b.events|
      requires s'.most == Max(state.most, s'.size)
      modifies `pendingWriteEventsQueue, `sizePendingWriteEventsQueue, `mostEventsObservedPendingWriteEventsQueue, `state
      ensures Valid() && state == s'
    {
      hide Laws.Inv;
      pendingWriteEventsQueue := pendingWriteEventsQueue + [b];
      sizePendingWriteEventsQueue := sizePendingWriteEventsQueue + |b.events|;
      mostEventsObservedPendingWriteEventsQueue :=
        Max(mostEventsObservedPendingWriteEventsQueue, sizePendingWriteEventsQueue);
      state := s';
    }

    /** Writes a post's events directly as far as they fit and queues or drops the rest. */
    method PlaceEvents(events: seq<Event>, numWakeupEvents: nat, writeOk: bool)
      requires Valid() && !state.poster.Outside?
      requires state.poster.Direct? <==> pendingWriteEventsQueue == [] && events != [] && |eventQueue| < quantumCount
      requires state.poster == if state.poster.Direct?
        then P.Direct(events, numWakeupEvents, Min(|events|, quantumCount - |eventQueue|))
        else P.Remainder(events, numWakeupEvents, 0)
      modifies `pendingWriteEventsQueue, `sizePendingWriteEventsQueue, `mostEventsObservedPendingWriteEventsQueue
      modifies `eventQueue, `state
      ensures Valid() && state == Placed(Config(), old(state), writeOk)
    {
      assert EventPipelineInv.Core(Config(), state);
      hide Laws.Inv, EventPipelineInv.Core, P.AfterDirectWrite, P.AfterPostLeave, P.Enabled, P.Defined;
      var numToWrite := WriteDirectly(events, writeOk);
      QueueRemainder(events, numToWrite, numWakeupEvents);
    }

    /** The start of a post: the references are taken and the copy is corrected. */
    method EnterPost(eventsList: seq<Event>, numWakeupEvents: nat, locked: bool, answers: seq<Surroundings>,
                     gamma: real -> real, now: int)
      returns (events: seq<Event>)
      requires Valid() && state.poster.Outside? && filter.Valid() && |answers| == |eventsList|
      requires numWakeupEvents == CountWakeUps(WakeUpHandles(sensors), eventsList)
      modifies `state, wakelock, filter
      ensures Valid() && filter.Valid() && filter.conf == old(filter.conf)
      ensures (filter.View(), events) == CorrectAll(filter.conf, old(filter.View()), eventsList, answers, gamma)
      ensures P.Corrects(eventsList, events)
      ensures old(P.Enabled(Config(), state, P.PostEnter(eventsList, events, locked)))
      ensures old(P.Defined(Config(), state, P.PostEnter(eventsList, events, locked)))
      ensures state == P.AfterPostEnter(Config(), old(state), eventsList, events, locked)
      ensures state.poster.Direct? <==> pendingWriteEventsQueue == [] && events != [] && |eventQueue| < quantumCount
      ensures state.poster == if state.poster.Direct?
        then P.Direct(events, numWakeupEvents, Min(|events|, quantumCount - |eventQueue|))
        else P.Remainder(events, numWakeupEvents, 0)
      ensures wakelock.threadsRun == old(wakelock.threadsRun)
      ensures wakelock.View() == if locked
        then WakelockSpec.AfterIncrement(old(wakelock.View()), numWakeupEvents, now, old(wakelock.threadsRun))
        else old(wakelock.View())
    {
      hide Laws.Inv, P.AfterPostEnter, P.Enabled, P.Defined, P.Corrects, CountWakeUps, CorrectAll;
      ghost var c, s := Config(), state;
      if locked {
        var _, _ := wakelock.IncrementRefCountAndMaybeAcquireWakelock(numWakeupEvents, now);
      }
      events := CorrectEvents(eventsList, answers, gamma);
      PostEnterFields(c, s, eventsList, events, locked);
      state := P.AfterPostEnter(c, s, eventsList, events, locked);
    }

    /** Posts a batch under the write mutex. `answers` and `gamma` are what ambient-light correction
        reads for each event, `writeOk` is the answer of the message queue to a direct write. */
    method PostEventsToMessageQueue(eventsList: seq<Event>, numWakeupEvents: nat, locked: bool,
                                    answers: seq<Surroundings>, gamma: real -> real, writeOk: bool, now: int)
      requires Valid() && state.poster.Outside? && filter.Valid() && |answers| == |eventsList|
      requires numWakeupEvents == CountWakeUps(WakeUpHandles(sensors), eventsList)
      modifies `pendingWriteEventsQueue, `sizePendingWriteEventsQueue, `mostEventsObservedPendingWriteEventsQueue
      modifies `eventQueue, `state, wakelock, filter
      ensures filter.Valid() && filter.conf == old(filter.conf)
      ensures var (filtered, corrected) := CorrectAll(filter.conf, old(filter.View()), eventsList, answers, gamma);
              && filter.View() == filtered
              && state == Posted(Config(), old(state), eventsList, corrected, locked, writeOk)
      ensures wakelock.threadsRun == old(wakelock.threadsRun)
      ensures wakelock.View() == if locked
        then WakelockSpec.AfterIncrement(old(wakelock.View()), numWakeupEvents, now, old(wakelock.threadsRun))
        else old(wakelock.View())
      ensures Valid()
    {
      hide *;
      ValidGivesInv(this);
      ghost var c, s := Config(), state;
      var events := EnterPost(eventsList, numWakeupEvents, locked, answers, gamma, now);
      PostedIsPlaced(c, s, eventsList, events, locked, writeOk, state);
      PlaceEvents(events, numWakeupEvents, writeOk);
    }

    // ---------------------------------------------------------------- the writer thread

    /** Takes a reference to the front batch, before the mutex is dropped. */
    method TakeFront() returns (numToWrite: nat, numWakeupEvents: nat)
      requires Valid() && state.writer.Ready? && state.poster.Outside? && pendingWriteEventsQueue != []
      modifies `state
      ensures Valid() && state == P.AfterWriterTake(Config(), old(state))
      ensures numToWrite == state.writer.count && numWakeupEvents == state.writer.front.wakeUps
      ensures state.writer.Writing? && state.writer.front == pendingWriteEventsQueue[0] && state.poster.Outside?
    {
      numWakeupEvents := pendingWriteEventsQueue[0].wakeUps;
      numToWrite := Min(|pendingWriteEventsQueue[0].events|, quantumCount);
      state := Step(Config(), state, P.WriterTake);
    }

    /** The framework reads n events. */
    method ReadEvents(n: nat) returns (events: seq<Event>)
      requires Valid() && n <= |eventQueue|
      modifies `eventQueue, `state
      ensures state == P.Next(Config(), old(state), P.Read(n))
      ensures events + eventQueue == old(eventQueue) && |events| == n
      ensures state.writer == old(state.writer) && state.poster == old(state.poster)
      ensures Valid()
    {
      hide Laws.Inv, P.Enabled, P.Defined, P.Next;
      ReadFields(Config(), state, n);
      assert eventQueue[..n] + eventQueue[n..] == eventQueue;
      state := P.Next(Config(), state, P.Read(n));
      events := eventQueue[..n];
      eventQueue := eventQueue[n..];
    }

    /** The outcome of the blocking write, without the mutex: on failure the wake-up references of
        the dropped chunk are released, all stored ones if it was the last chunk. */
    method WriteFront(ok: bool, numToWrite: nat, numWakeupEvents: nat)
      requires Valid() && state.writer.Writing?
      requires numToWrite == state.writer.count && numWakeupEvents == state.writer.front.wakeUps
      requires ok ==> |eventQueue| + numToWrite <= quantumCount
      modifies `eventQueue, `sensors, `state, wakelock
      ensures Config() == old(Config()) && state == P.AfterWriterWrite(Config(), old(state), ok)
      ensures WakeUpHandles(sensors) == old(WakeUpHandles(sensors))
      ensures eventQueue == if ok then old(eventQueue) + pendingWriteEventsQueue[0].events[..numToWrite] else old(eventQueue)
      ensures state.writer == P.Attempted(numToWrite, old(state.writer.front)) && state.poster == old(state.poster)
      ensures Valid() && wakelock.threadsRun == old(wakelock.threadsRun)
      ensures var front := pendingWriteEventsQueue[0].events;
              var request := if numWakeupEvents == 0 then 0
                             else if |front| > quantumCount
                             then CountWakeUps(WakeUpHandles(sensors), front[..quantumCount])
                             else numWakeupEvents;
              wakelock.View() == if ok || request == 0 then old(wakelock.View())
                else WakelockSpec.AfterDecrement(old(wakelock.View()), request, WakelockSpec.NO_TOKEN, wakelock.threadsRun)
    {
      hide Laws.Inv, P.AfterWriterWrite, P.Enabled, P.Defined, CountWakeUps;
      ghost var c, s := Config(), state;
      WriterWriteFields(c, s, ok);
      var pendingWriteEvents := pendingWriteEventsQueue[0].events;
      state := P.AfterWriterWrite(c, s, ok);
      if ok {
        eventQueue := eventQueue + pendingWriteEvents[..numToWrite];
      } else if numWakeupEvents > 0 {
        var request := numWakeupEvents;
        if |pendingWriteEvents| > quantumCount {
          request := CountNumWakeupEvents(pendingWriteEvents, quantumCount);
        }
        wakelock.DecrementRefCountAndMaybeReleaseWakelock(request, WakelockSpec.NO_TOKEN);
      }
    }

    /** Removes the attempted chunk, under the mutex again. */
    method FinishFront(numToWrite: nat)
      requires Valid() && state.writer.Attempted? && state.poster.Outside? && numToWrite == state.writer.count
      modifies `pendingWriteEventsQueue, `sizePendingWriteEventsQueue, `state
      ensures Valid()
      ensures old(P.Defined(Config(), state, P.WriterFinish)) && state == P.AfterWriterFinish(Config(), old(state))
      ensures state.writer.Ready? && state.poster.Outside?
      ensures P.Iterations(pendingWriteEventsQueue, quantumCount) ==
              old(P.Iterations(pendingWriteEventsQueue, quantumCount)) - 1
    {
      FinishTakesOneRound(Config(), state);
      state := Step(Config(), state, P.WriterFinish);
      sizePendingWriteEventsQueue := sizePendingWriteEventsQueue - numToWrite;
      var front := pendingWriteEventsQueue[0];
      if |front.events| > quantumCount {
        pendingWriteEventsQueue := pendingWriteEventsQueue[0 := front.(events := front.events[quantumCount..])];
      } else {
        pendingWriteEventsQueue := pendingWriteEventsQueue[1..];
      }
    }

    /** One iteration of the writer thread's loop: the framework reads, then the front chunk goes to the
        event queue if that has room and is willing, and is lost otherwise; either way it is one round
        off the pending queue. */
    method WritePendingBatch(answer: Answer) returns (ok: bool)
      requires Valid() && state.writer.Ready? && state.poster.Outside? && pendingWriteEventsQueue != []
      modifies this, wakelock
      ensures Valid() && state.writer.Ready? && state.poster.Outside?
      ensures WakeUpHandles(sensors) == old(WakeUpHandles(sensors))
      ensures P.Iterations(pendingWriteEventsQueue, quantumCount) ==
              old(P.Iterations(pendingWriteEventsQueue, quantumCount)) - 1
      ensures pendingWriteEventsQueue == Laws.OneRound(old(pendingWriteEventsQueue), quantumCount)
      ensures var chunk, left := Chunk(old(pendingWriteEventsQueue), quantumCount), Unread(old(eventQueue), answer.read);
              && ok == (answer.willing && |left| + |chunk| <= quantumCount)
              && eventQueue == (if ok then left + chunk else left)
              && EventPipelineInv.Sent(state) == old(EventPipelineInv.Sent(state)) + (if ok then chunk else [])
              && state.history.lost == old(state.history.lost) + (if ok then [] else chunk)
              && state.history.posted == old(state.history.posted) && state.history.dropped == old(state.history.dropped)
      ensures wakelock.threadsRun == old(wakelock.threadsRun)
      ensures var front := old(pendingWriteEventsQueue)[0];
              var request := if front.wakeUps == 0 then 0
                             else if |front.events| > quantumCount
                             then CountWakeUps(WakeUpHandles(sensors), front.events[..quantumCount])
                             else front.wakeUps;
              wakelock.View() == if ok || request == 0 then old(wakelock.View())
                else WakelockSpec.AfterDecrement(old(wakelock.View()), request, WakelockSpec.NO_TOKEN, wakelock.threadsRun)
    {
      hide *;
      ghost var c, s := Config(), state;
      PendingFields(this);
      var numToWrite, numWakeupEvents := TakeFront();
      ghost var s1 := state;
      var read := Min(answer.read, |eventQueue|);
      var _ := ReadEvents(read);
      ok := answer.willing && |eventQueue| + numToWrite <= quantumCount;
      ghost var s2 := state;
      PendingFields(this);
      WriteFront(ok, numToWrite, numWakeupEvents);
      FinishFront(numToWrite);
      PendingFields(this);
      IterationOutcome(c, s, s1, s2, read, ok);
      ReadsUpTo(s.queue, answer.read);
    }

    /** The writer thread's loop until nothing is pending, with nobody posting. The framework reads
        and the queue answers as given; every batch is gone after exactly its rounds. With a willing
        queue and a reader that keeps up all pending events arrive, in order; with an unwilling one
        all are lost. */
    method HandlePendingWrites(answers: seq<Answer>) returns (iterations: nat)
      requires Valid() && state.writer.Ready? && state.poster.Outside?
      requires |answers| >= P.Iterations(pendingWriteEventsQueue, quantumCount)
      modifies this, wakelock
      ensures Valid() && state.writer.Ready? && state.poster.Outside?
      ensures pendingWriteEventsQueue == []
      ensures iterations == old(P.Iterations(pendingWriteEventsQueue, quantumCount))
      ensures WakeUpHandles(sensors) == old(WakeUpHandles(sensors))
      ensures KeepsUp(answers, quantumCount) ==>
                && EventPipelineInv.Sent(state) == old(EventPipelineInv.Sent(state) + P.Flatten(pendingWriteEventsQueue))
                && state.history.lost == old(state.history.lost)
      ensures Refuses(answers) ==>
                && EventPipelineInv.Sent(state) == old(EventPipelineInv.Sent(state))
                && state.history.lost == old(state.history.lost + P.Flatten(pendingWriteEventsQueue))
    {
      hide *;
      iterations := 0;
      PendingFields(this);
      ghost var sentBefore, lostBefore := EventPipelineInv.Sent(state), state.history.lost;
      ghost var all := P.Flatten(pendingWriteEventsQueue);
      NotMoved(sentBefore, all);
      NotMoved(lostBefore, all);
      while pendingWriteEventsQueue != []
        invariant 0 <= iterations && quantumCount > 0
        invariant Valid() && state.writer.Ready? && state.poster.Outside?
        invariant WakeUpHandles(sensors) == old(WakeUpHandles(sensors))
        invariant iterations + P.Iterations(pendingWriteEventsQueue, quantumCount)
                  == old(P.Iterations(pendingWriteEventsQueue, quantumCount))
        invariant pendingWriteEventsQueue == [] <==> P.Iterations(pendingWriteEventsQueue, quantumCount) == 0
        invariant KeepsUp(answers, quantumCount) ==>
                    && Moved(sentBefore, all, EventPipelineInv.Sent(state), P.Flatten(pendingWriteEventsQueue))
                    && state.history.lost == lostBefore
        invariant Refuses(answers) ==>
                    && Moved(lostBefore, all, state.history.lost, P.Flatten(pendingWriteEventsQueue))
                    && EventPipelineInv.Sent(state) == sentBefore
        decreases P.Iterations(pendingWriteEventsQueue, quantumCount)
      {
        PendingFields(this);
        ghost var sent, lost, left := EventPipelineInv.Sent(state), state.history.lost, P.Flatten(pendingWriteEventsQueue);
        ghost var chunk := Chunk(pendingWriteEventsQueue, quantumCount);
        FlattenRound(pendingWriteEventsQueue, quantumCount);
        AnswerDecides(answers, iterations, quantumCount, eventQueue, chunk);
        var ok := WritePendingBatch(answers[iterations]);
        iterations := iterations + 1;
        PendingFields(this);
        ghost var rest := P.Flatten(pendingWriteEventsQueue);
        MovesOn(sentBefore, all, sent, left, chunk, rest);
        MovesOn(lostBefore, all, lost, left, chunk, rest);
        assert sent + [] == sent && lost + [] == lost;
      }
      AllMoved();
    }
  }

  /** The front chunk of the pending queue. */
  function Chunk(pending: seq<P.Batch>, q: nat): (chunk: seq<Event>)
    requires pending != []
    ensures |chunk| <= q
  {
    pending[0].events[..Min(|pending[0].events|, q)]
  }

  function Unread(queue: seq<Event>, read: nat): seq<Event> {
    queue[Min(read, |queue|)..]
  }

  lemma ReadsUpTo(queue: seq<Event>, read: nat)
    ensures Unread(queue, read) == queue[Min(read, |queue|)..]
  {
  }

  /** The reader empties the queue before every write, and the queue takes whatever fits. */
  predicate KeepsUp(answers: seq<Answer>, q: nat) {
    forall i :: 0 <= i < |answers| ==> answers[i].willing && answers[i].read >= q
  }

  predicate Refuses(answers: seq<Answer>) {
    forall i :: 0 <= i < |answers| ==> !answers[i].willing
  }

  lemma AnswerDecides(answers: seq<Answer>, i: nat, q: nat, queue: seq<Event>, chunk: seq<Event>)
    requires i < |answers| && |queue| <= q && |chunk| <= q
    ensures KeepsUp(answers, q) ==> answers[i].willing && |Unread(queue, answers[i].read)| + |chunk| <= q
    ensures Refuses(answers) ==> !answers[i].willing
  {
  }

  /** What was to come has come as far as `now`, and `left` is what is left of it. */
  predicate Moved(before: seq<Event>, all: seq<Event>, now: seq<Event>, left: seq<Event>) {
    now + left == before + all
  }

  lemma MovesOn(before: seq<Event>, all: seq<Event>, now: seq<Event>, left: seq<Event>, chunk: seq<Event>, rest: seq<Event>)
    requires left == chunk + rest
    ensures Moved(before, all, now, left) ==> Moved(before, all, now + chunk, rest)
  {
    assert now + (chunk + rest) == (now + chunk) + rest;
  }

  lemma NotMoved(before: seq<Event>, all: seq<Event>)
    ensures Moved(before, all, before, all)
  {
  }

  lemma AllMoved()
    ensures P.Flatten([]) == []
    ensures forall before, all, now :: Moved(before, all, now, []) ==> now == before + all
  {
    forall before, all, now: seq<Event> | Moved(before, all, now, []) ensures now == before + all {
      assert now + [] == now;
    }
  }

  /** A round takes the front chunk off the pending events. */
  lemma FlattenRound(pending: seq<P.Batch>, q: nat)
    requires q > 0 && pending != []
    ensures P.Flatten(pending) == Chunk(pending, q) + P.Flatten(Laws.OneRound(pending, q))
  {
    var n := Min(|pending[0].events|, q);
    EventPipelineInv.FrontOfFlatten(pending, n);
    assert P.Flatten(pending) == P.Flatten(pending)[..n] + P.Flatten(pending)[n..];
    RoundLeaves(pending, q);
    hide P.Flatten, Laws.OneRound;
  }

  lemma RoundLeaves(pending: seq<P.Batch>, q: nat)
    requires q > 0 && pending != []
    ensures P.Flatten(Laws.OneRound(pending, q)) ==
            pending[0].events[Min(|pending[0].events|, q)..] + P.Flatten(pending[1..])
  {
    var round := Laws.OneRound(pending, q);
    if |pending[0].events| > q {
      assert round[1..] == pending[1..];
    } else {
      assert [] + P.Flatten(pending[1..]) == P.Flatten(pending[1..]);
    }
  }

  /** What the proxy's validity says of its fields. */
  lemma PendingFields(p: HalProxy)
    requires p.Valid()
    ensures p.quantumCount > 0 && p.state.pending == p.pendingWriteEventsQueue && p.state.queue == p.eventQueue
    ensures |p.eventQueue| <= p.quantumCount && p.Config().quantum == p.quantumCount
    ensures P.Iterations(p.pendingWriteEventsQueue, p.quantumCount) == 0 <==> p.pendingWriteEventsQueue == []
    ensures Laws.Inv(p.Config(), p.state)
  {
    RoundsLeft(p.Config(), p.state);
  }

  /** The four steps of an iteration, in terms of what they move. */
  lemma IterationOutcome(c: P.Config, s: P.State, s1: P.State, s2: P.State, read: nat, ok: bool)
    requires Laws.Inv(c, s) && P.Enabled(c, s, P.WriterTake) && read <= |s.queue|
    requires P.Defined(c, s, P.WriterTake) && s1 == P.AfterWriterTake(c, s)
    requires P.Enabled(c, s1, P.Read(read)) && P.Defined(c, s1, P.Read(read)) && s2 == P.Next(c, s1, P.Read(read))
    requires ok ==> |s2.queue| + s2.writer.count <= c.quantum
    ensures s1.queue == s.queue && s2.queue == s.queue[read..] && s.pending != [] && c.quantum > 0
    ensures P.Enabled(c, s2, P.WriterWrite(ok)) && P.Defined(c, s2, P.WriterWrite(ok))
    ensures var s3 := P.AfterWriterWrite(c, s2, ok);
            && P.Enabled(c, s3, P.WriterFinish) && P.Defined(c, s3, P.WriterFinish)
            && var s4, chunk := P.AfterWriterFinish(c, s3), Chunk(s.pending, c.quantum);
               && s2.writer.count == |chunk| && s4.pending == Laws.OneRound(s.pending, c.quantum)
               && s4.queue == s.queue[read..] + (if ok then chunk else [])
               && EventPipelineInv.Sent(s4) == EventPipelineInv.Sent(s) + (if ok then chunk else [])
               && s4.history.lost == s.history.lost + (if ok then [] else chunk)
               && s4.history.posted == s.history.posted && s4.history.dropped == s.history.dropped
  {
    EventPipelineInv.ReadViews(s, read);
  }

  /** The start of a post, as the proxy's fields see it. */
  lemma PostEnterFields(c: P.Config, s: P.State, raw: seq<Event>, corrected: seq<Event>, locked: bool)
    requires Laws.Inv(c, s) && s.poster.Outside? && P.Corrects(raw, corrected)
    ensures P.Enabled(c, s, P.PostEnter(raw, corrected, locked)) && P.Defined(c, s, P.PostEnter(raw, corrected, locked))
    ensures |s.queue| <= c.quantum
    ensures var s', wakeUps := P.AfterPostEnter(c, s, raw, corrected, locked), CountWakeUps(c.wake, raw);
            && Laws.Inv(c, s')
            && s'.pending == s.pending && s'.size == s.size && s'.most == s.most && s'.queue == s.queue
            && s'.poster == if s.pending == [] && corrected != [] && |s.queue| < c.quantum
                            then P.Direct(corrected, wakeUps, Min(|corrected|, c.quantum - |s.queue|))
                            else P.Remainder(corrected, wakeUps, 0)
  {
    var s' := Step(c, s, P.PostEnter(raw, corrected, locked));
  }

  /** The direct write, as the proxy's fields see it. */
  lemma DirectWriteFields(c: P.Config, s: P.State, ok: bool)
    requires Laws.Inv(c, s)
    ensures |s.queue| <= c.quantum
    ensures s.poster.Direct? ==>
              && P.Enabled(c, s, P.DirectWrite(ok)) && P.Defined(c, s, P.DirectWrite(ok))
              && s.poster.count <= |s.poster.events|
              && var s', p := P.AfterDirectWrite(c, s, ok), s.poster;
                 && Laws.Inv(c, s') && s'.pending == s.pending && s'.size == s.size && s'.most == s.most
                 && s'.queue == (if ok then s.queue + p.events[..p.count] else s.queue)
                 && s'.poster == P.Remainder(p.events, p.wakeUps, if ok then p.count else 0)
  {
    if s.poster.Direct? {
      var s' := Step(c, s, P.DirectWrite(ok));
    }
  }

  /** The end of a post, as the proxy's fields see it. */
  lemma PostLeaveFields(c: P.Config, s: P.State)
    requires Laws.Inv(c, s) && s.poster.Remainder?
    ensures P.Enabled(c, s, P.PostLeave) && P.Defined(c, s, P.PostLeave) && s.poster.count <= |s.poster.events|
    ensures var s', p := P.AfterPostLeave(c, s), s.poster;
            var left := |p.events| - p.count;
            && Laws.Inv(c, s') && s'.queue == s.queue
            && if 0 < left && s.size + left <= c.maxPending then
                 && s'.pending == s.pending + [P.Batch(p.events[p.count..], p.wakeUps)]
                 && s'.size == s.size + left && s'.most == Max(s.most, s.size + left)
               else s'.pending == s.pending && s'.size == s.size && s'.most == s.most
  {
    var s' := Step(c, s, P.PostLeave);
    hide Laws.Inv;
  }

  /** A read, as the proxy's fields see it. */
  lemma ReadFields(c: P.Config, s: P.State, n: nat)
    requires Laws.Inv(c, s) && n <= |s.queue|
    ensures P.Enabled(c, s, P.Read(n)) && P.Defined(c, s, P.Read(n))
    ensures var s' := P.Next(c, s, P.Read(n));
            && Laws.Inv(c, s') && s'.queue == s.queue[n..]
            && s'.pending == s.pending && s'.size == s.size && s'.most == s.most
            && s'.writer == s.writer && s'.poster == s.poster
  {
    hide Laws.Inv;
    var s' := Step(c, s, P.Read(n));
  }

  /** The blocking write, as the proxy's fields see it. */
  lemma WriterWriteFields(c: P.Config, s: P.State, ok: bool)
    requires Laws.Inv(c, s) && s.writer.Writing? && (ok ==> |s.queue| + s.writer.count <= c.quantum)
    ensures P.Enabled(c, s, P.WriterWrite(ok)) && P.Defined(c, s, P.WriterWrite(ok))
    ensures s.pending != [] && s.pending[0] == s.writer.front && s.writer.count <= |s.pending[0].events|
    ensures var s' := P.AfterWriterWrite(c, s, ok);
            && Laws.Inv(c, s')
            && s'.pending == s.pending && s'.size == s.size && s'.most == s.most
            && s'.writer == P.Attempted(s.writer.count, s.writer.front) && s'.poster == s.poster
            && s'.queue == if ok then s.queue + s.pending[0].events[..s.writer.count] else s.queue
  {
    var s' := Step(c, s, P.WriterWrite(ok));
    assert s.pending != [] && s.pending[0] == s.writer.front && s.writer.count <= |s.pending[0].events|;
    hide Laws.Inv;
  }

  lemma RoundsLeft(c: P.Config, s: P.State)
    requires Laws.Inv(c, s)
    ensures P.Iterations(s.pending, c.quantum) == 0 <==> s.pending == []
  {
    if s.pending != [] {
      Laws.RoundsStep(|s.pending[0].events|, c.quantum);
    }
  }

  lemma FinishTakesOneRound(c: P.Config, s: P.State)
    requires Laws.Inv(c, s) && P.Enabled(c, s, P.WriterFinish)
    ensures P.Defined(c, s, P.WriterFinish)
    ensures P.Iterations(s.pending, c.quantum) == P.Iterations(P.AfterWriterFinish(c, s).pending, c.quantum) + 1
  {
    EventPipelineInv.EnabledIsDefined(c, s, P.WriterFinish);
    Laws.IterationsStep(c, s, P.WriterFinish);
  }

  /** Takes an enabled step and keeps the invariant. */
  ghost function Step(c: P.Config, s: P.State, step: P.Step): (s': P.State)
    requires Laws.Inv(c, s) && P.Enabled(c, s, step)
    ensures P.Defined(c, s, step) && s' == P.Next(c, s, step) && Laws.Inv(c, s')
  {
    EventPipelineInv.EnabledIsDefined(c, s, step);
    Laws.StepKeepsInv(c, s, step);
    P.Next(c, s, step)
  }
}
