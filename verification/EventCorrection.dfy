/** Ambient-light correction of a posted batch: what the filter makes of each wise-light event, and why
    the event pipeline may rely on it. */
module EventCorrection {
  import opened Common
  import opened SensorTypes
  import A = AlsSpec
  import R = AlsRuns
  import AlsCorrection
  import P = EventPipelineSpec
  import EventPipelineWakes

  /** What the system answers while one event is corrected. */
  datatype Surroundings = Surroundings(now: int, brightness: real, capture: Option<A.Rgb>)

  /** Only wise-light events go through the filter. */
  function Correct(c: A.Config, s: A.State, e: Event, w: Surroundings, gamma: real -> real): (A.State, Event)
    requires c.Usable()
  {
    if e.sensorType != QtiWiseLight then (s, e)
    else
      var (s', out) := A.Process(c, s, A.Input(e.scalar, e.reading2, w.now, w.brightness, w.capture), gamma);
      (s', AlsCorrection.Rewritten(c, e, out))
  }

  /** The events of a batch, one after the other, with the filter's state handed on. Whatever the
      filter does, the pipeline's assumption about corrected batches holds. */
  function CorrectAll(c: A.Config, s: A.State, events: seq<Event>, answers: seq<Surroundings>, gamma: real -> real)
    : (r: (A.State, seq<Event>))
    requires c.Usable() && |answers| == |events|
    ensures P.Corrects(events, r.1)
  {
    if events == [] then (s, [])
    else
      var n := |events| - 1;
      var (s', front) := CorrectAll(c, s, events[..n], answers[..n], gamma);
      var (s'', last) := Correct(c, s', events[n], answers[n], gamma);
      (s'', front + [last])
  }

  lemma CorrectAllStep(c: A.Config, s: A.State, events: seq<Event>, answers: seq<Surroundings>, gamma: real -> real, i: nat)
    requires c.Usable() && i < |events| == |answers|
    ensures var (s', front) := CorrectAll(c, s, events[..i], answers[..i], gamma);
            var (s'', last) := Correct(c, s', events[i], answers[i], gamma);
            CorrectAll(c, s, events[..i + 1], answers[..i + 1], gamma) == (s'', front + [last])
  {
    assert events[..i + 1][..i] == events[..i] && answers[..i + 1][..i] == answers[..i];
  }

  lemma NothingCorrected(c: A.Config, s: A.State, events: seq<Event>, answers: seq<Surroundings>, gamma: real -> real)
    requires c.Usable() && |answers| == |events|
    ensures CorrectAll(c, s, events[..0], answers[..0], gamma) == (s, [])
  {
  }

  // ---------------------------------------------------------------- a batch as part of a run

  function InputOf(e: Event, w: Surroundings): A.Input {
    A.Input(e.scalar, e.reading2, w.now, w.brightness, w.capture)
  }

  /** The wise-light events of a batch, as the filter meets them. */
  function WiseInputs(events: seq<Event>, answers: seq<Surroundings>): seq<A.Input>
    requires |answers| == |events|
  {
    if events == [] then []
    else
      var n := |events| - 1;
      WiseInputs(events[..n], answers[..n]) +
      if events[n].sensorType == QtiWiseLight then [InputOf(events[n], answers[n])] else []
  }

  /** A run of the filter that starts with a given one. */
  datatype Course = Course(states: seq<A.State>, inputs: seq<A.Input>, outputs: seq<A.Output>) {
    ghost predicate IsRun(c: A.Config, gamma: real -> real) { R.IsRun(c, gamma, states, inputs, outputs) }

    predicate Extends(from: Course) {
      from.states <= states && from.inputs <= inputs && from.outputs <= outputs
    }

    function Last(): A.State
      requires states != []
    {
      states[|states| - 1]
    }
  }

  /** An event of the batch as it leaves, next to what the filter answered for it: a dropped one points
      at 0, any other is the event posted with the answered value for its scalar. */
  predicate LeavesAs(c: A.Config, e: Event, out: A.Output, corrected: Event) {
    match out
    case Dropped =>
      corrected == e.(sensorHandle := 0, scalar := if e.scalar > c.bias then e.scalar - c.bias else e.scalar)
    case Emitted(v) => corrected == e.(scalar := v)
  }

  /** An event of the batch that is not a wise-light one is left alone; a wise-light event leaves as the
      run's answer to it, behind those to the wise-light events before it. */
  predicate AnsweredAt(c: A.Config, events: seq<Event>, answers: seq<Surroundings>, corrected: seq<Event>,
                       from: Course, to: Course, i: nat)
    requires i < |events| == |answers| == |corrected|
  {
    if events[i].sensorType != QtiWiseLight then corrected[i] == events[i]
    else
      var p := |from.inputs| + |WiseInputs(events[..i], answers[..i])|;
      p < |to.outputs| && LeavesAs(c, events[i], to.outputs[p], corrected[i])
  }

  predicate Answered(c: A.Config, events: seq<Event>, answers: seq<Surroundings>, corrected: seq<Event>,
                     from: Course, to: Course)
    requires |answers| == |events|
  {
    && |corrected| == |events| && |to.outputs| == |to.inputs|
    && to.inputs == from.inputs + WiseInputs(events, answers)
    && forall i :: 0 <= i < |events| ==> AnsweredAt(c, events, answers, corrected, from, to, i)
  }

  lemma CourseStep(c: A.Config, gamma: real -> real, r: Course, i: A.Input) returns (next: Course)
    requires r.IsRun(c, gamma)
    ensures next.IsRun(c, gamma) && next.Extends(r) && next.inputs == r.inputs + [i]
    ensures r.states != [] && next.states != [] && c.Usable() && |next.outputs| == |next.inputs|
    ensures (next.Last(), next.outputs[|r.outputs|]) == A.Process(c, r.Last(), i, gamma) && |r.outputs| == |r.inputs|
  {
    var (s', out) := A.Process(c, r.Last(), i, gamma);
    next := Course(r.states + [s'], r.inputs + [i], r.outputs + [out]);
    hide A.Process;
  }

  lemma RewrittenLeaves(c: A.Config, e: Event, out: A.Output)
    ensures LeavesAs(c, e, out, AlsCorrection.Rewritten(c, e, out))
  {
  }

  lemma WiseStep(events: seq<Event>, answers: seq<Surroundings>, i: nat)
    requires |answers| == |events| && i < |events|
    ensures WiseInputs(events[..i + 1], answers[..i + 1]) == WiseInputs(events[..i], answers[..i]) +
              if events[i].sensorType == QtiWiseLight then [InputOf(events[i], answers[i])] else []
  {
    assert events[..i + 1][..i] == events[..i] && answers[..i + 1][..i] == answers[..i];
  }

  /** A longer batch: what was answered stays answered, and the last event is. */
  lemma AnsweredStep(c: A.Config, events: seq<Event>, answers: seq<Surroundings>, corrected: seq<Event>,
                     from: Course, to: Course, to': Course, last: Event)
    requires |answers| == |events| && events != []
    requires var n := |events| - 1;
             && Answered(c, events[..n], answers[..n], corrected, from, to)
             && (if events[n].sensorType != QtiWiseLight then to' == to && last == events[n]
                 else && to'.inputs == to.inputs + [InputOf(events[n], answers[n])]
                      && |to'.outputs| == |to'.inputs| && to.outputs <= to'.outputs
                      && LeavesAs(c, events[n], to'.outputs[|to.inputs|], last))
    ensures Answered(c, events, answers, corrected + [last], from, to')
  {
    var n := |events| - 1;
    WiseStep(events, answers, n);
    assert events[..n + 1] == events && answers[..n + 1] == answers;
    hide WiseInputs, LeavesAs, InputOf;
    forall i | 0 <= i < n ensures AnsweredAt(c, events, answers, corrected + [last], from, to', i) {
      assert AnsweredAt(c, events[..n], answers[..n], corrected, from, to, i);
      AnsweredStays(c, events, answers, corrected, from, to, to', last, i);
    }
    assert AnsweredAt(c, events, answers, corrected + [last], from, to', n);
    hide AnsweredAt;
  }

  lemma AnsweredStays(c: A.Config, events: seq<Event>, answers: seq<Surroundings>, corrected: seq<Event>,
                      from: Course, to: Course, to': Course, last: Event, i: nat)
    requires i + 1 < |events| == |answers| == |corrected| + 1 && to.outputs <= to'.outputs
    requires AnsweredAt(c, events[..|events| - 1], answers[..|events| - 1], corrected, from, to, i)
    ensures AnsweredAt(c, events, answers, corrected + [last], from, to', i)
  {
    var n := |events| - 1;
    assert events[..n][..i] == events[..i] && answers[..n][..i] == answers[..i];
    hide WiseInputs, LeavesAs;
  }

  /** Correcting a batch is going on with the run of the filter by the batch's wise-light events. */
  lemma {:induction false} BatchGoesOn(c: A.Config, gamma: real -> real, from: Course, events: seq<Event>,
                                       answers: seq<Surroundings>) returns (to: Course)
    requires from.IsRun(c, gamma) && |answers| == |events|
    ensures from.states != [] && to.states != [] && c.Usable()
    ensures to.IsRun(c, gamma) && to.Extends(from)
    ensures var (s', corrected) := CorrectAll(c, from.Last(), events, answers, gamma);
            to.Last() == s' && Answered(c, events, answers, corrected, from, to)
  {
    if events == [] {
      to := from;
      assert from.inputs + [] == from.inputs;
    } else {
      var n := |events| - 1;
      var before := BatchGoesOn(c, gamma, from, events[..n], answers[..n]);
      var (s', front) := CorrectAll(c, from.Last(), events[..n], answers[..n], gamma);
      var (s'', last) := Correct(c, s', events[n], answers[n], gamma);
      CorrectAllStep(c, from.Last(), events, answers, gamma, n);
      assert events[..n + 1] == events && answers[..n + 1] == answers;
      hide CorrectAll, Answered, Course.IsRun, A.Process, AlsCorrection.Rewritten, LeavesAs;
      if events[n].sensorType != QtiWiseLight {
        to := before;
      } else {
        to := CourseStep(c, gamma, before, InputOf(events[n], answers[n]));
        RewrittenLeaves(c, events[n], to.outputs[|before.outputs|]);
      }
      AnsweredStep(c, events, answers, front, from, before, to, last);
    }
  }

  /** What the framework gets, over all batches: a wise-light event that is not dropped carries, in an
      event otherwise as posted, the non-negative value of the latest refresh completed in the run of
      the filter so far, and no refresh was demanded since. `from` is that run before the batch. */
  lemma BatchCarriesLatestRefresh(c: A.Config, gamma: real -> real, from: Course, events: seq<Event>,
                                  answers: seq<Surroundings>, i: nat) returns (to: Course, p: nat, j: nat)
    requires from.IsRun(c, gamma) && |answers| == |events|
    requires i < |events| && events[i].sensorType == QtiWiseLight
    requires CorrectAll(c, from.Last(), events, answers, gamma).1[i].sensorHandle != 0
    ensures from.states != [] && c.Usable()
    ensures to.IsRun(c, gamma) && to.Extends(from) && to.inputs == from.inputs + WiseInputs(events, answers)
    ensures p == |from.inputs| + |WiseInputs(events[..i], answers[..i])| < |to.inputs| < |to.states|
    ensures to.inputs[p] == InputOf(events[i], answers[i])
    ensures R.LatestRefresh(c, gamma, to.states, to.inputs, j, p + 1)
    ensures var v := R.ValueOf(c, to.states[j], to.inputs[j], gamma);
            v >= 0.0 && CorrectAll(c, from.Last(), events, answers, gamma).1[i] == events[i].(scalar := v)
    ensures forall m :: j < m <= p ==> !A.Demands(to.states[m], to.inputs[m])
  {
    to := BatchGoesOn(c, gamma, from, events, answers);
    p := |from.inputs| + |WiseInputs(events[..i], answers[..i])|;
    var corrected := CorrectAll(c, from.Last(), events, answers, gamma).1;
    assert AnsweredAt(c, events, answers, corrected, from, to, i);
    WisePosition(events, answers, i);
    hide CorrectAll, WiseInputs;
    j := R.EmitsLatestRefresh(c, gamma, to.states, to.inputs, to.outputs, p);
  }

  lemma {:induction false} WisePosition(events: seq<Event>, answers: seq<Surroundings>, i: nat)
    requires |answers| == |events| && i < |events| && events[i].sensorType == QtiWiseLight
    ensures var p := |WiseInputs(events[..i], answers[..i])|;
            p < |WiseInputs(events, answers)| && WiseInputs(events, answers)[p] == InputOf(events[i], answers[i])
  {
    var n := |events| - 1;
    WiseStep(events, answers, n);
    assert events[..n + 1] == events && answers[..n + 1] == answers;
    if i < n {
      WisePosition(events[..n], answers[..n], i);
      assert events[..n][..i] == events[..i] && answers[..n][..i] == answers[..i];
    }
  }

  /** The first event of a wise-light sensor without its capture is dropped by pointing it at 0. */
  lemma UncapturedIsDropped(c: A.Config, e: Event, gamma: real -> real) returns (e0: Event)
    requires c.Usable() && e.sensorType == QtiWiseLight
    ensures e0.sensorHandle == 0
    ensures CorrectAll(c, A.INIT, [e], [Surroundings(1, 0.0, None)], gamma).1 == [e0]
  {
    var w := Surroundings(1, 0.0, None);
    var i := A.Input(e.scalar, e.reading2, 1, 0.0, None);
    assert A.Process(c, A.INIT, i, gamma).1 == A.Dropped;
    var (s', last) := Correct(c, A.INIT, e, w, gamma);
    e0 := last;
    assert [e][..0] == [] && [w][..0] == [];
    hide A.Process;
  }

  /** The leak of handle 0 is the filter's own doing: if sensor 0 is a wake-up sensor, an ordinary
      wise-light event whose capture fails can be lost with nothing asked back for it. */
  lemma FilterLeaks(c: P.Config, f: A.Config, e: Event, gamma: real -> real)
    returns (states: seq<P.State>, steps: seq<P.Step>, corrected: seq<Event>)
    requires c.quantum > 0 && c.maxPending > 0 && f.Usable()
    requires e.sensorType == QtiWiseLight && 0 in c.wake && e.sensorHandle !in c.wake
    ensures corrected == CorrectAll(f, A.INIT, [e], [Surroundings(1, 0.0, None)], gamma).1
    ensures P.IsRun(c, states, steps) && |steps| == 5 && steps[0] == P.PostEnter([e], corrected, false)
    ensures steps[4] == P.WriterWrite(false) && !EventPipelineWakes.ReleasesWhatItDrops(c, states[4], states[5])
  {
    var e0 := UncapturedIsDropped(f, e, gamma);
    corrected := [e0];
    states, steps := EventPipelineWakes.ZeroHandleLeak(c, e, e0);
  }
}
