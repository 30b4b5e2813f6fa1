/** Wake-up accounting of the event pipeline: what posts take and failed writes give back. */
module EventPipelineWakes {
  import opened Common
  import opened SensorTypes
  import opened EventPipelineSpec
  import opened EventPipelineInv
  import opened EventPipelineLaws

  /** Pointing a corrected event at handle 0 never makes it a wake-up event: sensor 0 is not a
      wake-up sensor, or every sensor is. */
  ghost predicate ZeroHandleSafe(wake: set<Int32>) {
    0 in wake ==> forall h: Int32 :: h in wake
  }

  // ---------------------------------------------------------------- stored counts

  predicate Covers(wake: set<Int32>, b: Batch) {
    b.wakeUps >= CountWakeUps(wake, b.events)
  }

  /** Every stored wake-up count bounds the wake-up events still stored with it. */
  predicate Covered(wake: set<Int32>, s: State) {
    && (forall i :: 0 <= i < |s.pending| ==> Covers(wake, s.pending[i]))
    && (!s.poster.Outside? ==> s.poster.wakeUps >= CountWakeUps(wake, s.poster.events))
  }

  lemma {:induction false} CorrectionKeepsOrdinary(wake: set<Int32>, raw: seq<Event>, corrected: seq<Event>)
    requires ZeroHandleSafe(wake) && Corrects(raw, corrected)
    ensures CountWakeUps(wake, corrected) <= CountWakeUps(wake, raw)
  {
    if raw != [] {
      var n := |raw| - 1;
      CorrectionKeepsOrdinary(wake, raw[..n], corrected[..n]);
      assert raw[n].sensorType == QtiWiseLight || corrected[n] == raw[n];
    }
  }

  lemma CoveredRemainder(wake: set<Int32>, b: Batch, n: nat)
    requires Covers(wake, b) && n <= |b.events|
    ensures Covers(wake, b.(events := b.events[n..])) && CountWakeUps(wake, b.events[..n]) <= b.wakeUps
  {
    CountWakeUpsSplit(wake, b.events, n);
  }

  lemma StepKeepsCovered(c: Config, s: State, step: Step)
    requires ZeroHandleSafe(c.wake) && Covered(c.wake, s) && Enabled(c, s, step) && Defined(c, s, step)
    ensures Covered(c.wake, Next(c, s, step))
  {
    match step
    case PostEnter(raw, corrected, _) => CorrectionKeepsOrdinary(c.wake, raw, corrected);
    case PostLeave => CoveredRemainder(c.wake, Batch(s.poster.events, s.poster.wakeUps), s.poster.count);
    case WriterFinish =>
      if |s.pending[0].events| > c.quantum { CoveredRemainder(c.wake, s.pending[0], c.quantum); }
    case _ =>
  }

  lemma {:induction false} CoveredInRun(c: Config, states: seq<State>, steps: seq<Step>, k: nat)
    requires c.quantum > 0 && ZeroHandleSafe(c.wake) && IsRun(c, states, steps) && k < |states|
    ensures Covered(c.wake, states[k])
  {
    if k > 0 {
      assert k - 1 < |steps|;
      hide *;
      CoveredInRun(c, states, steps, k - 1);
      RunStep(c, states, steps, k - 1);
      StepKeepsCovered(c, states[k - 1], steps[k - 1]);
    }
  }

  ghost predicate AlwaysCovered(c: Config) {
    forall states, steps, k :: IsRun(c, states, steps) && 0 <= k < |states| ==> Covered(c.wake, states[k])
  }

  /** A post in which correction points an ordinary event at wake-up sensor 0. */
  lemma ZeroHandleUncovers(c: Config, e: Event, e0: Event)
    requires c.quantum > 0 && PointedAtWakeUp(c.wake, e, e0)
    ensures !AlwaysCovered(c)
  {
    var step := PostEnter([e], [e0], false);
    assert Corrects([e], [e0]) && Enabled(c, INIT, step) && Defined(c, INIT, step);
    var s := AfterPostEnter(c, INIT, [e], [e0], false);
    var states, steps := [INIT, s], [step];
    assert IsRun(c, states, steps);
    OrdinaryEvent(c.wake, e);
    OneWakeUp(c.wake, e0);
    hide CountWakeUps;
    assert !Covered(c.wake, states[1]);
  }

  /** Stored counts bound the stored wake-up events in every state of every run if and only if the
      sensor table makes pointing an event at handle 0 harmless. */
  lemma CoveredExactly(c: Config)
    requires c.quantum > 0
    ensures AlwaysCovered(c) <==> ZeroHandleSafe(c.wake)
  {
    if ZeroHandleSafe(c.wake) {
      forall states, steps, k | IsRun(c, states, steps) && 0 <= k < |states|
        ensures Covered(c.wake, states[k])
      {
        CoveredInRun(c, states, steps, k);
      }
    } else {
      var e, e0 := PointsAtWakeUp(c.wake);
      ZeroHandleUncovers(c, e, e0);
    }
  }

  /** Correction may turn e, an event of an ordinary sensor, into e0 of wake-up sensor 0. */
  predicate PointedAtWakeUp(wake: set<Int32>, e: Event, e0: Event) {
    e.sensorHandle !in wake && e0.sensorHandle == 0 && 0 in wake && Corrects([e], [e0])
  }

  lemma PointsAtWakeUp(wake: set<Int32>) returns (e: Event, e0: Event)
    requires !ZeroHandleSafe(wake)
    ensures PointedAtWakeUp(wake, e, e0)
  {
    var h: Int32 :| h !in wake;
    e, e0 := Event(h, QtiWiseLight, 0, 0.0, 0.0), Event(0, QtiWiseLight, 0, 0.0, 0.0);
  }

  lemma OrdinaryEvent(wake: set<Int32>, e: Event)
    requires e.sensorHandle !in wake
    ensures CountWakeUps(wake, [e]) == 0
  {
  }

  lemma OneWakeUp(wake: set<Int32>, e: Event)
    requires e.sensorHandle in wake
    ensures CountWakeUps(wake, [e]) == 1
  {
  }

  // ---------------------------------------------------------------- failed writes

  /** What the write out of state s asks to release is at least what it drops. */
  predicate ReleasesWhatItDrops(c: Config, s: State, s': State) {
    && s.wakes.released <= s'.wakes.released && |s.history.lost| <= |s'.history.lost|
    && s'.wakes.released - s.wakes.released >=
       CountWakeUps(c.wake, s'.history.lost[|s.history.lost|..])
  }

  /** In every run every failed blocking write asks to release at least what it drops. */
  ghost predicate NeverLeaks(c: Config) {
    forall states, steps, k ::
      IsRun(c, states, steps) && 0 <= k < |steps| && steps[k] == WriterWrite(false) ==>
        ReleasesWhatItDrops(c, states[k], states[k + 1])
  }

  /** What a failed write asks back: nothing if no count is stored; the wake-up events of the lost chunk,
      and of nothing else, if more of the batch remains; the stored count if the batch ends with the
      chunk. So it asks back at least what it drops exactly when it counts the chunk itself or the
      stored count bounds the chunk's wake-up events, and no more than was stored, if the stored count
      bounds the batch. */
  lemma FailedWriteReleases(c: Config, s: State)
    requires Core(c, s) && Enabled(c, s, WriterWrite(false)) && Defined(c, s, WriterWrite(false))
    ensures var b, s' := s.pending[0], AfterWriterWrite(c, s, false);
            && |s.history.lost| <= |s'.history.lost|
            && s'.wakes.released - s.wakes.released ==
                 if b.wakeUps == 0 then 0
                 else if |b.events| > c.quantum then CountWakeUps(c.wake, s'.history.lost[|s.history.lost|..])
                 else b.wakeUps
    ensures var b, s' := s.pending[0], AfterWriterWrite(c, s, false);
            s'.history.lost == s.history.lost + b.events[..Min(|b.events|, c.quantum)]
    ensures var b, n := s.pending[0], s.writer.count;
            ReleasesWhatItDrops(c, s, AfterWriterWrite(c, s, false)) <==>
              (b.wakeUps > 0 && |b.events| > c.quantum) || Covers(c.wake, b.(events := b.events[..n]))
    ensures Covers(c.wake, s.pending[0]) ==>
              AfterWriterWrite(c, s, false).wakes.released - s.wakes.released <= s.pending[0].wakeUps
  {
    var s', b, n := AfterWriterWrite(c, s, false), s.pending[0], s.writer.count;
    assert s'.history.lost[|s.history.lost|..] == b.events[..n];
    if Covers(c.wake, b) { CoveredRemainder(c.wake, b, n); }
    hide CountWakeUps;
  }

  lemma FailedWriteReleasesInRun(c: Config, states: seq<State>, steps: seq<Step>, k: nat)
    requires c.quantum > 0 && ZeroHandleSafe(c.wake) && IsRun(c, states, steps)
    requires k < |steps| && steps[k] == WriterWrite(false)
    ensures ReleasesWhatItDrops(c, states[k], states[k + 1])
  {
    CoveredInRun(c, states, steps, k);
    CoreInRun(c, states, steps, k);
    RunStep(c, states, steps, k);
    FailedWriteReleases(c, states[k]);
    var s := states[k];
    assert Covers(c.wake, s.pending[0]);
    CoveredRemainder(c.wake, s.pending[0], s.writer.count);
  }

  /** An event of an ordinary sensor that correction points at wake-up sensor 0, queued because the
      direct write fails, and lost by the writer. */
  lemma ZeroHandleLeak(c: Config, e: Event, e0: Event) returns (states: seq<State>, steps: seq<Step>)
    requires c.quantum > 0 && c.maxPending > 0 && PointedAtWakeUp(c.wake, e, e0)
    ensures IsRun(c, states, steps) && |steps| == 5 && steps[4] == WriterWrite(false)
    ensures steps[0] == PostEnter([e], [e0], false) && states[5].history.lost == [e0]
    ensures !ReleasesWhatItDrops(c, states[4], states[5])
  {
    steps := [PostEnter([e], [e0], false), DirectWrite(false), PostLeave, WriterTake, WriterWrite(false)];
    hide CountWakeUps;
    var s3 := ZeroHandlePosted(c, e, e0);
    var s1, s4 := AfterPostEnter(c, INIT, [e], [e0], false), AfterWriterTake(c, s3);
    var s5 := ZeroHandleLost(c, s4, e0);
    states := [INIT, s1, AfterDirectWrite(c, s1, false), s3, s4, s5];
    hide ReleasesWhatItDrops;
  }

  /** The failed write of the example. */
  lemma ZeroHandleLost(c: Config, s: State, e0: Event) returns (s': State)
    requires s.pending == [Batch([e0], 0)] && s.history.pending != [] && s.history.lost == []
    requires s.writer == Writing(1, s.pending[0]) && e0.sensorHandle in c.wake
    ensures s' == AfterWriterWrite(c, s, false) && s'.history.lost == [e0] && !ReleasesWhatItDrops(c, s, s')
  {
    s' := AfterWriterWrite(c, s, false);
    assert [e0][..1] == [e0] && s'.history.lost == [e0] && s'.wakes.released == s.wakes.released;
    OneWakeUp(c.wake, e0);
    assert s'.history.lost[|s.history.lost|..] == [e0];
    hide CountWakeUps;
  }

  /** The post of the example. */
  lemma ZeroHandlePosted(c: Config, e: Event, e0: Event) returns (s: State)
    requires c.quantum > 0 && c.maxPending > 0 && PointedAtWakeUp(c.wake, e, e0)
    ensures var s1 := AfterPostEnter(c, INIT, [e], [e0], false);
            && s1.poster == Direct([e0], 0, 1)
            && s == AfterPostLeave(c, AfterDirectWrite(c, s1, false))
    ensures s.pending == [Batch([e0], 0)] && |s.history.pending| == 1 && s.history.lost == []
    ensures s.writer == Ready && s.poster == Outside && s.wakes.released == 0
  {
    var s1 := AfterPostEnter(c, INIT, [e], [e0], false);
    assert CountWakeUps(c.wake, [e]) == 0 && |[e0]| == 1 && Min(1, c.quantum) == 1;
    assert s1.poster == Direct([e0], 0, 1);
    assert [e0][0..] == [e0];
    s := AfterPostLeave(c, AfterDirectWrite(c, s1, false));
  }

  /** Without room for pending events the writer never has anything to lose. */
  lemma NothingPending(c: Config, states: seq<State>, steps: seq<Step>, k: nat)
    requires c.quantum > 0 && c.maxPending == 0 && IsRun(c, states, steps) && k < |steps|
    ensures !steps[k].WriterWrite?
  {
    CoreInRun(c, states, steps, k);
    RunStep(c, states, steps, k);
  }

  /** A failed drain never leaks if and only if rewriting a handle to 0 cannot make an event a
      wake-up event, which the sensor table alone decides, or nothing is ever pending. */
  lemma NeverLeaksExactly(c: Config)
    requires c.quantum > 0
    ensures NeverLeaks(c) <==> ZeroHandleSafe(c.wake) || c.maxPending == 0
  {
    if ZeroHandleSafe(c.wake) || c.maxPending == 0 {
      forall states, steps, k | IsRun(c, states, steps) && 0 <= k < |steps| && steps[k] == WriterWrite(false)
        ensures ReleasesWhatItDrops(c, states[k], states[k + 1])
      {
        if c.maxPending == 0 {
          NothingPending(c, states, steps, k);
        } else {
          FailedWriteReleasesInRun(c, states, steps, k);
        }
      }
    } else {
      var e, e0 := PointsAtWakeUp(c.wake);
      var states, steps := ZeroHandleLeak(c, e, e0);
      assert !ReleasesWhatItDrops(c, states[4], states[4 + 1]);
    }
  }

  // ---------------------------------------------------------------- balance

  /** The wake-up events of these that the stored count still stands for. */
  function Backed(wake: set<Int32>, events: seq<Event>, wakeUps: nat): nat {
    Min(CountWakeUps(wake, events), wakeUps)
  }

  function BackedPending(wake: set<Int32>, batches: seq<Batch>): nat {
    if batches == [] then 0
    else Backed(wake, batches[0].events, batches[0].wakeUps) + BackedPending(wake, batches[1..])
  }

  function BackedInHand(wake: set<Int32>, s: State): nat {
    if s.poster.Outside? then 0 else Backed(wake, InHand(s), s.poster.wakeUps)
  }

  /** The pending batches without the chunk a write was attempted on. */
  function Unwritten(s: State): seq<Batch> {
    if s.writer.Attempted? && s.pending != [] && s.writer.count <= |s.pending[0].events|
    then [s.pending[0].(events := s.pending[0].events[s.writer.count..])] + s.pending[1..]
    else s.pending
  }

  /** Every reference taken was asked back, or stands for a wake-up event that correction rewrote,
      that reached the event queue, that is stored, in hand, or was dropped: in numbers. */
  predicate InBalance(w: Wakes, sent: nat, stored: nat, inHand: nat, dropped: nat) {
    w.taken <= w.released + w.rewritten + sent + stored + inHand + dropped
  }

  predicate Balance(wake: set<Int32>, s: State) {
    InBalance(s.wakes, CountWakeUps(wake, Sent(s)), BackedPending(wake, Unwritten(s)),
              BackedInHand(wake, s), CountWakeUps(wake, s.history.dropped))
  }

  /** Taking the first n events away takes away at most what they count. */
  lemma BackedSplit(wake: set<Int32>, events: seq<Event>, n: nat, wakeUps: nat)
    requires n <= |events|
    ensures Backed(wake, events, wakeUps) <= CountWakeUps(wake, events[..n]) + Backed(wake, events[n..], wakeUps)
  {
    CountWakeUpsSplit(wake, events, n);
  }

  lemma {:induction false} BackedAppend(wake: set<Int32>, batches: seq<Batch>, b: Batch)
    ensures BackedPending(wake, batches + [b]) == BackedPending(wake, batches) + Backed(wake, b.events, b.wakeUps)
  {
    if batches != [] {
      assert (batches + [b])[1..] == batches[1..] + [b];
      BackedAppend(wake, batches[1..], b);
    }
  }

  lemma {:induction false} BackedAtMost(wake: set<Int32>, batches: seq<Batch>)
    ensures BackedPending(wake, batches) <= CountWakeUps(wake, Flatten(batches))
  {
    if batches != [] {
      BackedAtMost(wake, batches[1..]);
      CountWakeUpsConcat(wake, batches[0].events, Flatten(batches[1..]));
    }
  }

  lemma NoWakeUps(wake: set<Int32>, wakeUps: nat)
    ensures CountWakeUps(wake, []) == 0 == Backed(wake, [], wakeUps)
  {
  }

  lemma PostEnterKeepsBalance(c: Config, s: State, raw: seq<Event>, corrected: seq<Event>, locked: bool)
    requires Balance(c.wake, s)
    requires Enabled(c, s, PostEnter(raw, corrected, locked)) && Defined(c, s, PostEnter(raw, corrected, locked))
    ensures Balance(c.wake, AfterPostEnter(c, s, raw, corrected, locked))
  {
    var s' := AfterPostEnter(c, s, raw, corrected, locked);
    assert InHand(s') == corrected && Sent(s') == Sent(s) && Unwritten(s') == Unwritten(s);
    hide CountWakeUps, Sent, InHand, Unwritten, BackedPending;
  }

  lemma DirectWriteKeepsBalance(c: Config, s: State)
    requires Core(c, s) && Balance(c.wake, s)
    requires Enabled(c, s, DirectWrite(true)) && Defined(c, s, DirectWrite(true))
    ensures Balance(c.wake, AfterDirectWrite(c, s, true))
  {
    var s', n := AfterDirectWrite(c, s, true), s.poster.count;
    DirectWriteViews(c, s);
    assert s'.wakes == s.wakes && Unwritten(s') == Unwritten(s) && s'.history.dropped == s.history.dropped;
    assert s'.poster.wakeUps == s.poster.wakeUps;
    assert n <= |InHand(s)|;
    hide CountWakeUps, Sent, InHand, Unwritten, BackedPending, Backed, AfterDirectWrite;
    CountWakeUpsConcat(c.wake, Sent(s), InHand(s)[..n]);
    BackedSplit(c.wake, InHand(s), n, s.poster.wakeUps);
  }

  /** What the end of a post leaves alone, and what it stores or drops. */
  lemma PostLeaveMoves(c: Config, s: State)
    requires Core(c, s) && Enabled(c, s, PostLeave) && Defined(c, s, PostLeave)
    ensures var s', b := AfterPostLeave(c, s), Batch(InHand(s), s.poster.wakeUps);
            && s'.wakes == s.wakes && Sent(s') == Sent(s) && s'.poster.Outside?
            && ((Unwritten(s') == Unwritten(s) && s'.history.dropped == s.history.dropped + InHand(s))
                || (Unwritten(s') == Unwritten(s) + [b] && s'.history.dropped == s.history.dropped))
  {
  }

  lemma PostLeaveKeepsBalance(c: Config, s: State)
    requires Core(c, s) && Balance(c.wake, s) && Enabled(c, s, PostLeave) && Defined(c, s, PostLeave)
    ensures Balance(c.wake, AfterPostLeave(c, s))
  {
    PostLeaveMoves(c, s);
    assert !s.poster.Outside?;
    hide Core, Enabled, Defined, CountWakeUps, Unwritten, Sent, InHand, BackedPending, AfterPostLeave;
    BackedAppend(c.wake, Unwritten(s), Batch(InHand(s), s.poster.wakeUps));
    CountWakeUpsConcat(c.wake, s.history.dropped, InHand(s));
  }

  /** What the writer's write leaves alone, and what it sends or loses. */
  lemma WriterWriteMoves(c: Config, s: State, ok: bool)
    requires Core(c, s) && Enabled(c, s, WriterWrite(ok)) && Defined(c, s, WriterWrite(ok))
    ensures var s', b, n := AfterWriterWrite(c, s, ok), s.pending[0], s.writer.count;
            && n == Min(|b.events|, c.quantum)
            && Unwritten(s) == [b] + s.pending[1..]
            && Unwritten(s') == [b.(events := b.events[n..])] + s.pending[1..]
            && s'.poster == s.poster && InHand(s') == InHand(s) && s'.history.dropped == s.history.dropped
            && (ok ==> Sent(s') == Sent(s) + b.events[..n] && s'.wakes == s.wakes)
            && (!ok ==> Sent(s') == Sent(s) &&
                        s'.wakes == s.wakes.(released := s.wakes.released + ReleaseRequest(c, b, b.wakeUps)))
  {
    assert s.consumed + (s.queue + s.pending[0].events[..s.writer.count])
        == Sent(s) + s.pending[0].events[..s.writer.count];
    hide CountWakeUps, ReleaseRequest;
  }

  /** A failed write asks back whatever its chunk backed. */
  lemma RequestCoversBacked(c: Config, b: Batch, n: nat)
    requires n == Min(|b.events|, c.quantum)
    ensures Backed(c.wake, b.events, b.wakeUps) <=
            ReleaseRequest(c, b, b.wakeUps) + Backed(c.wake, b.events[n..], b.wakeUps)
  {
    BackedSplit(c.wake, b.events, n, b.wakeUps);
    NoWakeUps(c.wake, b.wakeUps);
    hide CountWakeUps;
  }

  lemma BackedFront(wake: set<Int32>, b: Batch, rest: seq<Batch>)
    ensures BackedPending(wake, [b] + rest) == Backed(wake, b.events, b.wakeUps) + BackedPending(wake, rest)
  {
    assert ([b] + rest)[1..] == rest;
  }

  lemma WriterWriteKeepsBalance(c: Config, s: State, ok: bool)
    requires Core(c, s) && Balance(c.wake, s)
    requires Enabled(c, s, WriterWrite(ok)) && Defined(c, s, WriterWrite(ok))
    ensures Balance(c.wake, AfterWriterWrite(c, s, ok))
  {
    WriterWriteMoves(c, s, ok);
    var b, n, rest := s.pending[0], s.writer.count, s.pending[1..];
    hide Core, Enabled, CountWakeUps, Unwritten, Sent, InHand, BackedPending, Backed, ReleaseRequest, AfterWriterWrite;
    BackedFront(c.wake, b, rest);
    BackedFront(c.wake, b.(events := b.events[n..]), rest);
    if ok {
      CountWakeUpsConcat(c.wake, Sent(s), b.events[..n]);
      BackedSplit(c.wake, b.events, n, b.wakeUps);
    } else {
      RequestCoversBacked(c, b, n);
    }
  }

  lemma WriterFinishKeepsBalance(c: Config, s: State)
    requires Core(c, s) && Balance(c.wake, s) && Enabled(c, s, WriterFinish) && Defined(c, s, WriterFinish)
    ensures Balance(c.wake, AfterWriterFinish(c, s))
  {
    var s', b, n, rest := AfterWriterFinish(c, s), s.pending[0], s.writer.count, s.pending[1..];
    assert s'.wakes == s.wakes && Sent(s') == Sent(s) && InHand(s') == InHand(s) && s'.history == s.history;
    assert Unwritten(s) == [b.(events := b.events[n..])] + rest;
    assert Unwritten(s') == if b.events[n..] == [] then rest else Unwritten(s);
    hide CountWakeUps, Unwritten, Sent, InHand, BackedPending, Backed, AfterWriterFinish;
    BackedFront(c.wake, b.(events := b.events[n..]), rest);
    NoWakeUps(c.wake, b.wakeUps);
  }

  lemma QuietStepKeepsBalance(c: Config, s: State, step: Step)
    requires Balance(c.wake, s) && Enabled(c, s, step) && Defined(c, s, step)
    requires step == DirectWrite(false) || step.WriterSleep? || step.WriterWake? || step.WriterTake? || step.Read?
    ensures Balance(c.wake, Next(c, s, step))
  {
    var s' := Next(c, s, step);
    assert s'.wakes == s.wakes && s'.history == s.history && InHand(s') == InHand(s) && Unwritten(s') == Unwritten(s);
    assert s'.poster.Outside? == s.poster.Outside?;
    assert !s.poster.Outside? ==> s'.poster.wakeUps == s.poster.wakeUps;
    assert Sent(s') == Sent(s) by {
      if step.Read? { ReadViews(s, step.n); }
    }
    hide CountWakeUps, Unwritten, InHand, Sent, Next, BackedPending, Backed;
  }

  lemma StepKeepsBalance(c: Config, s: State, step: Step)
    requires Core(c, s) && Balance(c.wake, s) && Enabled(c, s, step) && Defined(c, s, step)
    ensures Balance(c.wake, Next(c, s, step))
  {
    hide Core, Balance, Enabled, Defined;
    match step
    case PostEnter(raw, corrected, locked) => PostEnterKeepsBalance(c, s, raw, corrected, locked);
    case DirectWrite(ok) =>
      if ok { DirectWriteKeepsBalance(c, s); } else { QuietStepKeepsBalance(c, s, step); }
    case PostLeave => PostLeaveKeepsBalance(c, s);
    case WriterWrite(ok) => WriterWriteKeepsBalance(c, s, ok);
    case WriterFinish => WriterFinishKeepsBalance(c, s);
    case _ => QuietStepKeepsBalance(c, s, step);
  }

  lemma BalanceInitially(wake: set<Int32>)
    ensures Balance(wake, INIT)
  {
  }

  lemma {:induction false} BalanceInRun(c: Config, states: seq<State>, steps: seq<Step>, k: nat)
    requires c.quantum > 0 && IsRun(c, states, steps) && k < |states|
    ensures Balance(c.wake, states[k])
  {
    assert states[0] == INIT && |states| == |steps| + 1;
    hide *;
    if k == 0 {
      BalanceInitially(c.wake);
    } else {
      BalanceInRun(c, states, steps, k - 1);
      CoreInRun(c, states, steps, k - 1);
      RunStep(c, states, steps, k - 1);
      StepKeepsBalance(c, states[k - 1], steps[k - 1]);
    }
  }

  lemma UnwrittenIsUnattempted(c: Config, s: State)
    requires Core(c, s)
    ensures Flatten(Unwritten(s)) == Unattempted(s)
  {
    if s.writer.Attempted? {
      FrontOfFlatten(s.pending, s.writer.count);
      assert Unwritten(s)[1..] == s.pending[1..];
    }
  }

  /** No reference is orphaned but by overflow or correction, whatever the sensor table: between
      posts, the references taken are at most what failed writes asked back, plus the wake-up events
      that reached the event queue, are still pending under a stored count that stands for them, were
      dropped on overflow, or were rewritten by correction. */
  lemma ReferencesAccountedFor(c: Config, states: seq<State>, steps: seq<Step>, k: nat)
    requires c.quantum > 0 && IsRun(c, states, steps) && k < |states| && states[k].poster.Outside?
    ensures var s, w := states[k], c.wake;
            && s.wakes.taken <= s.wakes.released + s.wakes.rewritten
                 + CountWakeUps(w, s.consumed + s.queue) + BackedPending(w, Unwritten(s))
                 + CountWakeUps(w, s.history.dropped)
            && Flatten(Unwritten(s)) == Unattempted(s)
            && BackedPending(w, Unwritten(s)) <= CountWakeUps(w, Unattempted(s))
  {
    BalanceInRun(c, states, steps, k);
    CoreInRun(c, states, steps, k);
    UnwrittenIsUnattempted(c, states[k]);
    BackedAtMost(c.wake, Unwritten(states[k]));
  }
}
