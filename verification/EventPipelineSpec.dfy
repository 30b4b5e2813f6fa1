/** The event path of the proxy as a step system: posting threads, the pending-writes thread, the
    bounded event queue and its reader, interleaved at every point where the write mutex is not
    held and at the start and end of every queue write. */
module EventPipelineSpec {
  import opened Common
  import opened SensorTypes

  /** `quantum` is the capacity of the event queue, `maxPending` the bound on pending events and
      `wake` the handles of the wake-up sensors. */
  datatype Config = Config(quantum: nat, maxPending: nat, wake: set<Int32>)

  /** A vector of events on the pending queue and the wake-up count stored with it. */
  datatype Batch = Batch(events: seq<Event>, wakeUps: nat)

  /** The pending-writes thread: about to take the mutex, asleep on its condition variable, in its
      unlocked blocking write of the front batch, or done with that write and about to lock. */
  datatype Writer =
    | Ready
    | Sleeping(notified: bool)
    | Writing(count: nat, front: Batch)
    | Attempted(count: nat, front: Batch)

  /** The thread inside postEventsToMessageQueue, if any; being inside is holding the mutex. */
  datatype Poster =
    | Outside
    | Direct(events: seq<Event>, wakeUps: nat, count: nat)
    | Remainder(events: seq<Event>, wakeUps: nat, count: nat)

  /** A finished post: its events are the positions first..end of the posted history, those below
      direct went straight to the event queue, the rest was queued or dropped. */
  datatype Posting = Posting(first: nat, direct: nat, end: nat, queued: bool)

  /** What became of every posted event, by its position in the posted history; `dropped` and
      `lost` are the events at the overflowed and at the failed positions. */
  datatype History = History(
    posted: seq<Event>,
    written: seq<nat>, pending: seq<nat>, overflowed: seq<nat>, failed: seq<nat>,
    dropped: seq<Event>, lost: seq<Event>,
    postings: seq<Posting>)

  /** Wakelock references: requested by posts, requested back by failed writes, and wake-up events
      that ambient-light correction turned into ordinary ones. */
  datatype Wakes = Wakes(taken: nat, released: nat, rewritten: nat)

  datatype State = State(
    pending: seq<Batch>, size: nat, most: nat,
    writer: Writer, poster: Poster,
    queue: seq<Event>, consumed: seq<Event>,
    history: History, wakes: Wakes)

  datatype Step =
    | PostEnter(raw: seq<Event>, corrected: seq<Event>, locked: bool)
    | DirectWrite(ok: bool)
    | PostLeave
    | WriterSleep
    | WriterWake
    | WriterTake
    | WriterWrite(ok: bool)
    | WriterFinish
    | Read(n: nat)

  const INIT := State([], 0, 0, Ready, Outside, [], [],
                      History([], [], [], [], [], [], [], []), Wakes(0, 0, 0))

  function TotalLength(batches: seq<Batch>): nat {
    if batches == [] then 0 else |batches[0].events| + TotalLength(batches[1..])
  }

  function Flatten(batches: seq<Batch>): (events: seq<Event>)
    ensures |events| == TotalLength(batches)
  {
    if batches == [] then [] else batches[0].events + Flatten(batches[1..])
  }

  /** Rounds of at most q events that n events take. */
  function Rounds(n: nat, q: nat): nat
    requires q > 0
  {
    (n + q - 1) / q
  }

  /** Writer iterations that a pending queue takes. */
  function Iterations(batches: seq<Batch>, q: nat): nat
    requires q > 0
  {
    if batches == [] then 0 else Rounds(|batches[0].events|, q) + Iterations(batches[1..], q)
  }

  function Range(from: nat, to: nat): (r: seq<nat>)
    requires from <= to
    ensures |r| == to - from && forall i :: 0 <= i < |r| ==> r[i] == from + i
  {
    seq(to - from, i requires 0 <= i => from + i)
  }

  /** Ambient-light correction may change the scalar of a wise-light event, and drop it by pointing
      it at handle 0. It leaves everything else alone. */
  predicate Corrects(raw: seq<Event>, corrected: seq<Event>) {
    && |corrected| == |raw|
    && forall i :: 0 <= i < |raw| ==>
         if raw[i].sensorType == QtiWiseLight
         then (corrected[i].sensorHandle == raw[i].sensorHandle || corrected[i].sensorHandle == 0)
              && corrected[i] == raw[i].(sensorHandle := corrected[i].sensorHandle, scalar := corrected[i].scalar)
         else corrected[i] == raw[i]
  }

  predicate Enabled(c: Config, s: State, step: Step) {
    match step
    case PostEnter(raw, corrected, _) => s.poster.Outside? && Corrects(raw, corrected)
    case DirectWrite(_) => s.poster.Direct?
    case PostLeave => s.poster.Remainder?
    case WriterSleep => s.writer.Ready? && s.poster.Outside? && s.pending == []
    case WriterWake => s.writer.Sleeping?
    case WriterTake => s.writer.Ready? && s.poster.Outside? && s.pending != []
    case WriterWrite(ok) =>
      // the blocking write succeeds only once there is room
      s.writer.Writing? && (ok ==> |s.queue| + s.writer.count <= c.quantum)
    case WriterFinish => s.writer.Attempted? && s.poster.Outside?
    case Read(n) => n <= |s.queue|
  }

  /** The step takes no front of an empty queue, reads past no vector, lets no size counter drop
      below 0 and finds the room that availableToWrite promised. Runs are shown to need nothing
      of this: every enabled step is defined. */
  predicate Defined(c: Config, s: State, step: Step)
    requires Enabled(c, s, step)
  {
    match step
    case PostEnter(_, _, _) => |s.queue| <= c.quantum
    case DirectWrite(ok) =>
      && s.poster.count <= |s.poster.events| <= |s.history.posted|
      && (ok ==> |s.queue| + s.poster.count <= c.quantum)
    case PostLeave => s.poster.count <= |s.poster.events| <= |s.history.posted|
    case WriterWrite(_) =>
      && s.pending != [] && s.writer.count <= |s.pending[0].events|
      && s.writer.count <= |s.history.pending|
    case WriterFinish => s.pending != [] && s.writer.count <= s.size
    case _ => true
  }

  function AfterPostEnter(c: Config, s: State, raw: seq<Event>, corrected: seq<Event>, locked: bool): State
    requires Enabled(c, s, PostEnter(raw, corrected, locked)) && Defined(c, s, PostEnter(raw, corrected, locked))
  {
    var wakeUps := CountWakeUps(c.wake, raw);
    var count := if s.pending == [] then Min(|corrected|, c.quantum - |s.queue|) else 0;
    var kept := CountWakeUps(c.wake, corrected);
    s.(poster := if count > 0 then Direct(corrected, wakeUps, count) else Remainder(corrected, wakeUps, 0),
       history := s.history.(posted := s.history.posted + corrected),
       wakes := s.wakes.(taken := s.wakes.taken + if locked then wakeUps else 0,
                         rewritten := s.wakes.rewritten + if wakeUps > kept then wakeUps - kept else 0))
  }

  function AfterDirectWrite(c: Config, s: State, ok: bool): State
    requires Enabled(c, s, DirectWrite(ok)) && Defined(c, s, DirectWrite(ok))
  {
    var p, h := s.poster, s.history;
    var first := |h.posted| - |p.events|;
    if ok then
      s.(poster := Remainder(p.events, p.wakeUps, p.count),
         queue := s.queue + p.events[..p.count],
         history := h.(written := h.written + Range(first, first + p.count)))
    else
      s.(poster := Remainder(p.events, p.wakeUps, 0))
  }

  function AfterPostLeave(c: Config, s: State): State
    requires Enabled(c, s, PostLeave) && Defined(c, s, PostLeave)
  {
    var p, h := s.poster, s.history;
    var left := |p.events| - p.count;
    var queued := p.count < |p.events| && s.size + left <= c.maxPending;
    var end := |h.posted|;
    var remainder := Range(end - left, end);
    var posting := Posting(end - |p.events|, end - left, end, queued);
    if queued then
      s.(pending := s.pending + [Batch(p.events[p.count..], p.wakeUps)],
         size := s.size + left,
         most := Max(s.most, s.size + left),
         writer := if s.writer.Sleeping? then Sleeping(true) else s.writer,
         poster := Outside,
         history := h.(pending := h.pending + remainder, postings := h.postings + [posting]))
    else
      s.(poster := Outside,
         history := h.(overflowed := h.overflowed + remainder, dropped := h.dropped + p.events[p.count..],
                       postings := h.postings + [posting]))
  }

  function AfterWriterTake(c: Config, s: State): State
    requires Enabled(c, s, WriterTake) && Defined(c, s, WriterTake)
  {
    s.(writer := Writing(Min(|s.pending[0].events|, c.quantum), s.pending[0]))
  }

  /** What a failed write of the front batch asks the wakelock to release. */
  function ReleaseRequest(c: Config, front: Batch, wakeUps: nat): nat {
    if wakeUps == 0 then 0
    else if |front.events| > c.quantum then CountWakeUps(c.wake, front.events[..c.quantum])
    else wakeUps
  }

  function AfterWriterWrite(c: Config, s: State, ok: bool): State
    requires Enabled(c, s, WriterWrite(ok)) && Defined(c, s, WriterWrite(ok))
  {
    var n, h := s.writer.count, s.history;
    var done := s.(writer := Attempted(n, s.writer.front));
    if ok then
      done.(queue := s.queue + s.pending[0].events[..n],
            history := h.(written := h.written + h.pending[..n], pending := h.pending[n..]))
    else
      done.(history := h.(failed := h.failed + h.pending[..n], lost := h.lost + s.pending[0].events[..n],
                            pending := h.pending[n..]),
            wakes := s.wakes.(released := s.wakes.released +
                                          ReleaseRequest(c, s.pending[0], s.writer.front.wakeUps)))
  }

  function AfterWriterFinish(c: Config, s: State): State
    requires Enabled(c, s, WriterFinish) && Defined(c, s, WriterFinish)
  {
    var front := s.pending[0];
    s.(size := s.size - s.writer.count,
       pending := if |front.events| > c.quantum
                  then [front.(events := front.events[c.quantum..])] + s.pending[1..]
                  else s.pending[1..],
       writer := Ready)
  }

  function Next(c: Config, s: State, step: Step): State
    requires Enabled(c, s, step) && Defined(c, s, step)
  {
    match step
    case PostEnter(raw, corrected, locked) => AfterPostEnter(c, s, raw, corrected, locked)
    case DirectWrite(ok) => AfterDirectWrite(c, s, ok)
    case PostLeave => AfterPostLeave(c, s)
    case WriterSleep => s.(writer := Sleeping(false))
    case WriterWake => s.(writer := Ready)
    case WriterTake => AfterWriterTake(c, s)
    case WriterWrite(ok) => AfterWriterWrite(c, s, ok)
    case WriterFinish => AfterWriterFinish(c, s)
    case Read(n) => s.(queue := s.queue[n..], consumed := s.consumed + s.queue[..n])
  }

  /** A run: states visited from the initial one, and the step taken out of each but the last. */
  predicate IsRun(c: Config, states: seq<State>, steps: seq<Step>) {
    && |states| == |steps| + 1 && states[0] == INIT
    && forall i :: 0 <= i < |steps| ==>
         && Enabled(c, states[i], steps[i]) && Defined(c, states[i], steps[i])
         && states[i + 1] == Next(c, states[i], steps[i])
  }
}
