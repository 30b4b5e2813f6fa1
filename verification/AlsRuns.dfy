/** What every run of the ambient-light filter emits, and when. */
module AlsRuns {
  import opened AlsSpec
  import opened AlsExact
  import opened AlsLaws

  /** A run from the initial state: the states, and each event's input and output. */
  ghost predicate IsRun(c: Config, gamma: real -> real, states: seq<State>, inputs: seq<Input>, outputs: seq<Output>) {
    && c.Usable() && |states| == |inputs| + 1 && |outputs| == |inputs| && states[0] == INIT
    && forall k :: 0 <= k < |inputs| ==> (states[k + 1], outputs[k]) == Process(c, states[k], inputs[k], gamma)
  }

  lemma RunStep(c: Config, gamma: real -> real, states: seq<State>, inputs: seq<Input>, outputs: seq<Output>, k: nat)
    requires IsRun(c, gamma, states, inputs, outputs) && k < |inputs|
    ensures c.Usable() && (states[k + 1], outputs[k]) == Process(c, states[k], inputs[k], gamma)
  {
  }

  // ---------------------------------------------------------------- one event

  /** The value a refreshing event computes. */
  function ValueOf(c: Config, s: State, i: Input, gamma: real -> real): real
    requires c.Usable() && Refreshes(c, s, i, gamma)
  {
    RefreshValue(c, RefreshOf(c, i, i.capture.value, gamma))
  }

  /** A refresh stores and emits its value and settles every demand; any other event leaves the
      stored value and emits it only if no demand is open. */
  lemma ProcessStep(c: Config, s: State, i: Input, gamma: real -> real)
    requires c.Usable()
    ensures var (s', out) := Process(c, s, i, gamma);
            if Refreshes(c, s, i, gamma) then
              s'.lastValue == ValueOf(c, s, i, gamma) >= 0.0 && out == Emitted(s'.lastValue) && !s'.force
            else
              && s'.lastValue == s.lastValue && s'.force == (s.force || Demands(s, i))
              && (out.Emitted? ==> out.value == s.lastValue && !s'.force)
  {
  }

  /** The gate alone decides whether the time of the last accepted event moves. */
  lemma GateStep(c: Config, s: State, i: Input, gamma: real -> real)
    requires c.Usable()
    ensures var (s', out) := Process(c, s, i, gamma);
            && s'.lastUpdate == (if Passes(s, i.now) then i.now else s.lastUpdate)
            && (out.Emitted? ==> Passes(s, i.now))
  {
  }

  // ---------------------------------------------------------------- values

  /** Event j is the latest refresh before k. */
  predicate LatestRefresh(c: Config, gamma: real -> real, states: seq<State>, inputs: seq<Input>, j: nat, k: nat)
    requires c.Usable() && k <= |inputs| < |states|
  {
    && j < k && Refreshes(c, states[j], inputs[j], gamma)
    && forall m :: j < m < k ==> !Refreshes(c, states[m], inputs[m], gamma)
  }

  /** A demand open since event m: nothing refreshed from m on. */
  predicate OpenDemand(c: Config, gamma: real -> real, states: seq<State>, inputs: seq<Input>, m: nat, k: nat)
    requires c.Usable() && k <= |inputs| < |states|
  {
    && m < k && Demands(states[m], inputs[m])
    && forall j :: m <= j < k ==> !Refreshes(c, states[j], inputs[j], gamma)
  }

  ghost predicate DemandIsOpen(c: Config, gamma: real -> real, states: seq<State>, inputs: seq<Input>, k: nat)
    requires c.Usable() && k <= |inputs| < |states|
  {
    exists m: nat :: OpenDemand(c, gamma, states, inputs, m, k)
  }

  predicate NeverRefreshed(c: Config, gamma: real -> real, states: seq<State>, inputs: seq<Input>, k: nat)
    requires c.Usable() && k <= |inputs| < |states|
  {
    forall j: nat :: j < k ==> !Refreshes(c, states[j], inputs[j], gamma)
  }

  /** The stored value is that of the latest refresh. */
  ghost predicate ValueStands(c: Config, gamma: real -> real, states: seq<State>, inputs: seq<Input>, k: nat)
    requires c.Usable() && k <= |inputs| < |states|
  {
    forall j: nat :: LatestRefresh(c, gamma, states, inputs, j, k) ==>
      states[k].lastValue == ValueOf(c, states[j], inputs[j], gamma)
  }

  /** A refresh is demanded exactly if there was none yet or a demand is open. */
  ghost predicate ForceStands(c: Config, gamma: real -> real, states: seq<State>, inputs: seq<Input>, k: nat)
    requires c.Usable() && k <= |inputs| < |states|
  {
    states[k].force <==> NeverRefreshed(c, gamma, states, inputs, k) || DemandIsOpen(c, gamma, states, inputs, k)
  }

  lemma {:induction false} StandsInRun(c: Config, gamma: real -> real, states: seq<State>, inputs: seq<Input>,
                                       outputs: seq<Output>, k: nat)
    requires IsRun(c, gamma, states, inputs, outputs) && k <= |inputs|
    ensures ValueStands(c, gamma, states, inputs, k) && ForceStands(c, gamma, states, inputs, k)
  {
    if k > 0 {
      var n := k - 1;
      StandsInRun(c, gamma, states, inputs, outputs, n);
      RunStep(c, gamma, states, inputs, outputs, n);
      ProcessStep(c, states[n], inputs[n], gamma);
      hide *;
      if Refreshes(c, states[n], inputs[n], gamma) {
        RefreshStands(c, gamma, states, inputs, n);
      } else {
        OtherStands(c, gamma, states, inputs, n);
      }
    }
  }

  lemma RefreshStands(c: Config, gamma: real -> real, states: seq<State>, inputs: seq<Input>, n: nat)
    requires c.Usable() && n < |inputs| < |states| && Refreshes(c, states[n], inputs[n], gamma)
    requires states[n + 1].lastValue == ValueOf(c, states[n], inputs[n], gamma) && !states[n + 1].force
    ensures ValueStands(c, gamma, states, inputs, n + 1) && ForceStands(c, gamma, states, inputs, n + 1)
  {
    hide Refreshes, ValueOf, Demands;
    var k := n + 1;
    forall j: nat | LatestRefresh(c, gamma, states, inputs, j, k)
      ensures j == n
    {
    }
  }

  lemma OtherStands(c: Config, gamma: real -> real, states: seq<State>, inputs: seq<Input>, n: nat)
    requires c.Usable() && n < |inputs| < |states| && !Refreshes(c, states[n], inputs[n], gamma)
    requires ValueStands(c, gamma, states, inputs, n) && ForceStands(c, gamma, states, inputs, n)
    requires states[n + 1].lastValue == states[n].lastValue
    requires states[n + 1].force == (states[n].force || Demands(states[n], inputs[n]))
    ensures ValueStands(c, gamma, states, inputs, n + 1) && ForceStands(c, gamma, states, inputs, n + 1)
  {
    hide Refreshes, ValueOf, Demands;
    var k := n + 1;
    forall j: nat | LatestRefresh(c, gamma, states, inputs, j, k)
      ensures LatestRefresh(c, gamma, states, inputs, j, n)
    {
    }
    if m: nat :| OpenDemand(c, gamma, states, inputs, m, k) {
      assert m == n || OpenDemand(c, gamma, states, inputs, m, n);
    }
    if Demands(states[n], inputs[n]) {
      assert OpenDemand(c, gamma, states, inputs, n, k);
    }
    if m: nat :| OpenDemand(c, gamma, states, inputs, m, n) {
      assert OpenDemand(c, gamma, states, inputs, m, k);
    }
  }

  lemma {:induction false} FindLatest(c: Config, gamma: real -> real, states: seq<State>, inputs: seq<Input>, k: nat)
    returns (j: nat)
    requires c.Usable() && k <= |inputs| < |states|
    requires !NeverRefreshed(c, gamma, states, inputs, k)
    ensures LatestRefresh(c, gamma, states, inputs, j, k)
  {
    hide Refreshes;
    if Refreshes(c, states[k - 1], inputs[k - 1], gamma) {
      j := k - 1;
    } else {
      j := FindLatest(c, gamma, states, inputs, k - 1);
    }
  }

  lemma Emission(c: Config, gamma: real -> real, states: seq<State>, inputs: seq<Input>, outputs: seq<Output>, k: nat)
    requires IsRun(c, gamma, states, inputs, outputs) && k < |inputs| && outputs[k].Emitted?
    ensures c.Usable() && |states| == |inputs| + 1
    ensures !states[k + 1].force && outputs[k].value == states[k + 1].lastValue
  {
    RunStep(c, gamma, states, inputs, outputs, k);
    ProcessStep(c, states[k], inputs[k], gamma);
  }

  /** Every event that is not dropped carries exactly the value of the latest completed refresh, its
      own included; that value is not negative, and no demand was made after that refresh. So nothing
      is emitted before the first refresh, and no demanded refresh is bypassed. */
  lemma EmitsLatestRefresh(c: Config, gamma: real -> real, states: seq<State>, inputs: seq<Input>,
                           outputs: seq<Output>, k: nat) returns (j: nat)
    requires IsRun(c, gamma, states, inputs, outputs) && k < |inputs| && outputs[k].Emitted?
    ensures c.Usable() && LatestRefresh(c, gamma, states, inputs, j, k + 1)
    ensures outputs[k].value == ValueOf(c, states[j], inputs[j], gamma) >= 0.0
    ensures forall m :: j < m <= k ==> !Demands(states[m], inputs[m])
  {
    Emission(c, gamma, states, inputs, outputs, k);
    hide IsRun, Process, Refreshes, Demands, ValueOf;
    StandsInRun(c, gamma, states, inputs, outputs, k + 1);
    j := FindLatest(c, gamma, states, inputs, k + 1);
    NonNegativeValue(c, states[j], inputs[j], gamma);
    forall m: nat | j < m <= k ensures !Demands(states[m], inputs[m]) {
      assert !OpenDemand(c, gamma, states, inputs, m, k + 1);
    }
  }

  lemma NonNegativeValue(c: Config, s: State, i: Input, gamma: real -> real)
    requires c.Usable() && Refreshes(c, s, i, gamma)
    ensures ValueOf(c, s, i, gamma) >= 0.0
  {
  }

  lemma RefreshNeeds(c: Config, s: State, i: Input, gamma: real -> real)
    requires c.Usable() && Refreshes(c, s, i, gamma)
    ensures Passes(s, i.now) && i.capture.Some?
  {
  }

  /** A demand survives until a passing event gets its capture and completes the refresh. */
  lemma {:induction false} DemandSurvives(c: Config, gamma: real -> real, states: seq<State>, inputs: seq<Input>,
                                          outputs: seq<Output>, i: nat, k: nat) returns (j: nat)
    requires IsRun(c, gamma, states, inputs, outputs) && i <= k <= |inputs|
    requires states[i].force && !states[k].force
    ensures c.Usable() && i <= j < k && Refreshes(c, states[j], inputs[j], gamma)
    ensures Passes(states[j], inputs[j].now) && inputs[j].capture.Some?
  {
    assert c.Usable() && |states| == |inputs| + 1;
    hide IsRun, Process, Refreshes, Demands, ValueOf, Passes;
    RunStep(c, gamma, states, inputs, outputs, k - 1);
    ProcessStep(c, states[k - 1], inputs[k - 1], gamma);
    if Refreshes(c, states[k - 1], inputs[k - 1], gamma) {
      RefreshNeeds(c, states[k - 1], inputs[k - 1], gamma);
      j := k - 1;
    } else {
      j := DemandSurvives(c, gamma, states, inputs, outputs, i, k - 1);
    }
  }

  // ---------------------------------------------------------------- the gate

  predicate ClockRuns(inputs: seq<Input>) {
    forall k :: 0 <= k < |inputs| ==> inputs[k].now > 0
  }

  /** Event i passed and no event between it and k did. */
  predicate LatestPass(states: seq<State>, inputs: seq<Input>, i: nat, k: nat)
    requires k <= |inputs| < |states|
  {
    i < k && Passes(states[i], inputs[i].now) && forall m :: i < m < k ==> !Passes(states[m], inputs[m].now)
  }

  lemma {:induction false} LastUpdateIs(c: Config, gamma: real -> real, states: seq<State>, inputs: seq<Input>,
                                        outputs: seq<Output>, k: nat)
    requires IsRun(c, gamma, states, inputs, outputs) && k <= |inputs| && ClockRuns(inputs)
    ensures states[k].lastUpdate == 0 <==> forall i :: 0 <= i < k ==> !Passes(states[i], inputs[i].now)
    ensures states[k].lastUpdate != 0 ==>
              exists i: nat :: LatestPass(states, inputs, i, k) && inputs[i].now == states[k].lastUpdate
    ensures forall i :: 0 <= i < k && Passes(states[i], inputs[i].now) ==> inputs[i].now <= states[k].lastUpdate
  {
    if k > 0 {
      var n := k - 1;
      LastUpdateIs(c, gamma, states, inputs, outputs, n);
      RunStep(c, gamma, states, inputs, outputs, n);
      GateStep(c, states[n], inputs[n], gamma);
      hide IsRun, Process;
      if Passes(states[n], inputs[n].now) {
        assert LatestPass(states, inputs, n, k);
      } else if states[n].lastUpdate != 0 {
        var i: nat :| LatestPass(states, inputs, i, n) && inputs[i].now == states[n].lastUpdate;
        assert LatestPass(states, inputs, i, k);
      }
    }
  }

  /** The rate gate, exactly: an event passes if and only if every earlier event that passed is at
      least 100 ms before it. */
  lemma GateLaw(c: Config, gamma: real -> real, states: seq<State>, inputs: seq<Input>, outputs: seq<Output>, k: nat)
    requires IsRun(c, gamma, states, inputs, outputs) && k < |inputs| && ClockRuns(inputs)
    ensures Passes(states[k], inputs[k].now) <==>
            forall i :: 0 <= i < k && Passes(states[i], inputs[i].now) ==>
              inputs[k].now - inputs[i].now >= 100_000_000
  {
    LastUpdateIs(c, gamma, states, inputs, outputs, k);
    hide IsRun;
    if states[k].lastUpdate != 0 {
      var i: nat :| LatestPass(states, inputs, i, k) && inputs[i].now == states[k].lastUpdate;
    }
  }

  // ---------------------------------------------------------------- demands

  /** The times a demand is measured from: the first event and every demand. */
  predicate Reference(states: seq<State>, inputs: seq<Input>, m: nat)
    requires m < |inputs| < |states|
  {
    m == 0 || Demands(states[m], inputs[m])
  }

  lemma ForcedStep(c: Config, s: State, i: Input, gamma: real -> real)
    requires c.Usable() && i.now > 0
    ensures var (s', out) := Process(c, s, i, gamma);
            && s'.lastForced == (if s.lastUpdate == 0 || Demands(s, i) then i.now else s.lastForced)
            && s'.lastUpdate != 0
  {
  }

  lemma {:induction false} LastForcedIs(c: Config, gamma: real -> real, states: seq<State>, inputs: seq<Input>,
                                        outputs: seq<Output>, k: nat)
    requires IsRun(c, gamma, states, inputs, outputs) && k <= |inputs| && ClockRuns(inputs)
    ensures |states| == |inputs| + 1 && (states[k].lastUpdate != 0 <==> k > 0)
    ensures k > 0 ==> exists m: nat :: m < k && Reference(states, inputs, m) && inputs[m].now == states[k].lastForced
    ensures forall m: nat :: m < k && Reference(states, inputs, m) ==> inputs[m].now <= states[k].lastForced
  {
    if k > 0 {
      var n := k - 1;
      LastForcedIs(c, gamma, states, inputs, outputs, n);
      RunStep(c, gamma, states, inputs, outputs, n);
      ForcedStep(c, states[n], inputs[n], gamma);
      hide IsRun, Process;
      if Reference(states, inputs, n) {
        assert inputs[n].now == states[k].lastForced;
      } else {
        assert states[k].lastForced == states[n].lastForced;
      }
    }
  }

  /** Demands, exactly: an event demands a refresh if and only if it is not the first, the screen is on,
      and it comes more than 3 seconds after the first event and after every demand before it. */
  lemma DemandLaw(c: Config, gamma: real -> real, states: seq<State>, inputs: seq<Input>, outputs: seq<Output>, k: nat)
    requires IsRun(c, gamma, states, inputs, outputs) && k < |inputs| && ClockRuns(inputs)
    ensures |states| == |inputs| + 1
    ensures Demands(states[k], inputs[k]) <==>
            && k > 0 && inputs[k].brightness > 0.0
            && forall m: nat :: m < k && Reference(states, inputs, m) ==>
                 inputs[k].now - inputs[m].now > 3_000_000_000
  {
    LastForcedIs(c, gamma, states, inputs, outputs, k);
    hide IsRun, Reference;
  }

  // ---------------------------------------------------------------- when a capture is asked for

  lemma OtherKeepsWindow(c: Config, s: State, i: Input, gamma: real -> real)
    requires c.Usable() && !Refreshes(c, s, i, gamma)
    ensures var (s', out) := Process(c, s, i, gamma);
            s'.hystMin == s.hystMin && s'.hystMax == s.hystMax && s'.lastGain == s.lastGain
  {
    hide RefreshOf, Triggers, Accepts, Passes, AfterRefresh;
  }

  /** The window and the gain of the latest refresh stand. */
  lemma {:induction false} WindowInRun(c: Config, gamma: real -> real, states: seq<State>, inputs: seq<Input>,
                                       outputs: seq<Output>, j: nat, k: nat)
    requires IsRun(c, gamma, states, inputs, outputs) && k <= |inputs|
    requires LatestRefresh(c, gamma, states, inputs, j, k)
    ensures j < k && var s, s' := states[j + 1], states[k];
            s'.hystMin == s.hystMin && s'.hystMax == s.hystMax && s'.lastGain == s.lastGain
  {
    if j + 1 < k {
      RunStep(c, gamma, states, inputs, outputs, k - 1);
      OtherKeepsWindow(c, states[k - 1], inputs[k - 1], gamma);
      hide Refreshes, Process;
      WindowInRun(c, gamma, states, inputs, outputs, j, k - 1);
    }
  }

  lemma RefreshWindow(c: Config, gamma: real -> real, states: seq<State>, inputs: seq<Input>, outputs: seq<Output>,
                      j: nat, x: real)
    requires IsRun(c, gamma, states, inputs, outputs) && j < |inputs| && Refreshes(c, states[j], inputs[j], gamma)
    ensures var s := states[j + 1];
            Strays(x, s.hystMin, s.hystMax, Calibrated(c, x, s.lastGain)) <==>
            Astray(c, RefreshOf(c, inputs[j], inputs[j].capture.value, gamma), x)
  {
    RunStep(c, gamma, states, inputs, outputs, j);
    RefreshedState(c, states[j], inputs[j], gamma);
    var r := RefreshOf(c, inputs[j], inputs[j].capture.value, gamma);
    hide Process, AfterRefresh, AfterGate, RefreshOf, Astray, Strays, Calibrated;
    AstrayExactly(c, AfterGate(states[j], inputs[j]), r, x);
  }

  /** Captures, exactly, in every run: before the first refresh and while a demand is open, its own
      included, every passing event asks for one; otherwise one does if and only if its reading is
      astray from the latest refresh. */
  lemma AskLaw(c: Config, gamma: real -> real, states: seq<State>, inputs: seq<Input>, outputs: seq<Output>, k: nat)
    returns (j: nat)
    requires IsRun(c, gamma, states, inputs, outputs) && k < |inputs|
    ensures c.Usable() && |states| == |inputs| + 1
    ensures var demanded := NeverRefreshed(c, gamma, states, inputs, k) || DemandIsOpen(c, gamma, states, inputs, k)
                            || Demands(states[k], inputs[k]);
            var asks := Triggers(c, AfterGate(states[k], inputs[k]), Debiased(c, inputs[k].scalar));
            if demanded then asks
            else && LatestRefresh(c, gamma, states, inputs, j, k)
                 && (asks <==> Astray(c, RefreshOf(c, inputs[j], inputs[j].capture.value, gamma),
                                      Debiased(c, inputs[k].scalar)))
  {
    StandsInRun(c, gamma, states, inputs, outputs, k);
    var x := Debiased(c, inputs[k].scalar);
    GatedTriggers(c, states[k], inputs[k], x);
    hide NeverRefreshed, DemandIsOpen, Demands, Triggers, AfterGate, Debiased, ValueStands, Astray, Strays, Calibrated;
    j := 0;
    if !NeverRefreshed(c, gamma, states, inputs, k) {
      j := FindLatest(c, gamma, states, inputs, k);
      LatestRefreshed(c, gamma, states, inputs, j, k);
      hide LatestRefresh, Refreshes, IsRun;
      WindowInRun(c, gamma, states, inputs, outputs, j, k);
      RefreshWindow(c, gamma, states, inputs, outputs, j, x);
    }
  }

  lemma LatestRefreshed(c: Config, gamma: real -> real, states: seq<State>, inputs: seq<Input>, j: nat, k: nat)
    requires c.Usable() && k <= |inputs| < |states| && LatestRefresh(c, gamma, states, inputs, j, k)
    ensures j < k && Refreshes(c, states[j], inputs[j], gamma)
  {
  }

  lemma GatedTriggers(c: Config, s: State, i: Input, x: real)
    ensures Triggers(c, AfterGate(s, i), x) <==>
            s.force || Demands(s, i) || Strays(x, s.hystMin, s.hystMax, Calibrated(c, x, s.lastGain))
  {
    hide Strays, Calibrated;
  }

  // ---------------------------------------------------------------- a settled reading

  /** Event j completes a refresh at the base gain or a near one, with a reading it settles. */
  ghost predicate SettlesAt(c: Config, s: State, i: Input, gamma: real -> real) {
    && c.Physical() && i.brightness >= 0.0 && GammaCurve(gamma)
    && Refreshes(c, s, i, gamma) && i.capture.value.InRange()
    && Near(c.inverseGain[0], RefreshOf(c, i, i.capture.value, gamma).gain)
    && !Unsettled(c, Lux(c, RefreshOf(c, i, i.capture.value, gamma)), Debiased(c, i.scalar))
  }

  /** The event that passes next to this state asks for no capture on reading x unless it demands one. */
  predicate Keeps(c: Config, s: State, x: real) {
    !s.force && !Strays(x, s.hystMin, s.hystMax, Calibrated(c, x, s.lastGain))
  }

  lemma RefreshKeeps(c: Config, s: State, i: Input, gamma: real -> real)
    requires SettlesAt(c, s, i, gamma)
    ensures var (s', out) := Process(c, s, i, gamma);
            Keeps(c, s', Debiased(c, i.scalar)) && s'.lastValue == ValueOf(c, s, i, gamma)
  {
    RefreshedState(c, s, i, gamma);
    StableNearBaseGain(c, AfterGate(s, i), i, i.capture.value, gamma);
    ProcessStep(c, s, i, gamma);
    hide Process, AfterRefresh, AfterGate, RefreshOf, Strays, Calibrated;
  }

  /** An event with that reading, or one the gate drops, and without a demand changes nothing. */
  lemma KeptStep(c: Config, s: State, i: Input, gamma: real -> real, x: real)
    requires c.Usable() && Keeps(c, s, x) && (Passes(s, i.now) ==> Debiased(c, i.scalar) == x)
    ensures Triggers(c, AfterGate(s, i), x) <==> Demands(s, i)
    ensures !Demands(s, i) ==>
              var (s', out) := Process(c, s, i, gamma);
              && Keeps(c, s', x) && s'.lastValue == s.lastValue
              && out == if Passes(s, i.now) then Emitted(s.lastValue) else Dropped
  {
    hide Strays, Calibrated, Passes, Demands, Debiased;
  }

  /** Between events j and k nothing is demanded, and events that pass repeat the reading of j. */
  predicate Repeats(c: Config, states: seq<State>, inputs: seq<Input>, j: nat, k: nat)
    requires j < k <= |inputs| < |states|
  {
    forall m :: j < m < k ==>
      && !Demands(states[m], inputs[m])
      && (Passes(states[m], inputs[m].now) ==> Debiased(c, inputs[m].scalar) == Debiased(c, inputs[j].scalar))
  }

  lemma RepeatsLast(c: Config, states: seq<State>, inputs: seq<Input>, j: nat, k: nat)
    requires j + 1 < k <= |inputs| < |states| && Repeats(c, states, inputs, j, k)
    ensures Repeats(c, states, inputs, j, k - 1) && !Demands(states[k - 1], inputs[k - 1])
    ensures Passes(states[k - 1], inputs[k - 1].now) ==>
              Debiased(c, inputs[k - 1].scalar) == Debiased(c, inputs[j].scalar)
  {
  }

  lemma SettledNext(c: Config, gamma: real -> real, states: seq<State>, inputs: seq<Input>, outputs: seq<Output>, j: nat)
    requires IsRun(c, gamma, states, inputs, outputs) && j < |inputs| && SettlesAt(c, states[j], inputs[j], gamma)
    ensures Keeps(c, states[j + 1], Debiased(c, inputs[j].scalar))
    ensures states[j + 1].lastValue == ValueOf(c, states[j], inputs[j], gamma)
  {
    assert |states| == |inputs| + 1;
    hide IsRun, SettlesAt, Process, Keeps, ValueOf;
    RunStep(c, gamma, states, inputs, outputs, j);
    RefreshKeeps(c, states[j], inputs[j], gamma);
  }

  lemma KeptNext(c: Config, gamma: real -> real, states: seq<State>, inputs: seq<Input>, outputs: seq<Output>,
                 k: nat, x: real)
    requires IsRun(c, gamma, states, inputs, outputs) && k < |inputs| && Keeps(c, states[k], x)
    requires Passes(states[k], inputs[k].now) ==> Debiased(c, inputs[k].scalar) == x
    ensures Triggers(c, AfterGate(states[k], inputs[k]), x) <==> Demands(states[k], inputs[k])
    ensures !Demands(states[k], inputs[k]) ==>
              && Keeps(c, states[k + 1], x) && states[k + 1].lastValue == states[k].lastValue
              && outputs[k] == if Passes(states[k], inputs[k].now) then Emitted(states[k].lastValue) else Dropped
  {
    assert |states| == |inputs| + 1;
    hide IsRun, Process, Keeps, Passes, Demands, Debiased, Triggers, AfterGate;
    RunStep(c, gamma, states, inputs, outputs, k);
    KeptStep(c, states[k], inputs[k], gamma, x);
  }

  /** While readings repeat, the window and the value of the refresh stand. */
  lemma {:induction false} KeptInRun(c: Config, gamma: real -> real, states: seq<State>, inputs: seq<Input>,
                                     outputs: seq<Output>, j: nat, k: nat)
    requires IsRun(c, gamma, states, inputs, outputs) && j < k <= |inputs|
    requires SettlesAt(c, states[j], inputs[j], gamma) && Repeats(c, states, inputs, j, k)
    ensures Keeps(c, states[k], Debiased(c, inputs[j].scalar))
    ensures states[k].lastValue == ValueOf(c, states[j], inputs[j], gamma)
  {
    assert |states| == |inputs| + 1;
    hide *;
    if k == j + 1 {
      SettledNext(c, gamma, states, inputs, outputs, j);
    } else {
      RepeatsLast(c, states, inputs, j, k);
      KeptInRun(c, gamma, states, inputs, outputs, j, k - 1);
      KeptNext(c, gamma, states, inputs, outputs, k - 1, Debiased(c, inputs[j].scalar));
    }
  }

  /** Hysteresis over runs: after a refresh at the base gain or a near one that settles its reading, as
      long as passing events repeat that reading, an event asks for a capture exactly if it demands a
      refresh, and without a demand it carries the value of that refresh or is dropped by the gate. */
  lemma SettledReadingStaysQuiet(c: Config, gamma: real -> real, states: seq<State>, inputs: seq<Input>,
                                 outputs: seq<Output>, j: nat, k: nat)
    requires IsRun(c, gamma, states, inputs, outputs) && j < k < |inputs|
    requires SettlesAt(c, states[j], inputs[j], gamma) && Repeats(c, states, inputs, j, k)
    requires Passes(states[k], inputs[k].now) ==> Debiased(c, inputs[k].scalar) == Debiased(c, inputs[j].scalar)
    ensures Passes(states[k], inputs[k].now) ==>
              (Triggers(c, AfterGate(states[k], inputs[k]), Debiased(c, inputs[k].scalar)) <==>
               Demands(states[k], inputs[k]))
    ensures !Demands(states[k], inputs[k]) ==>
              outputs[k] == if Passes(states[k], inputs[k].now)
                            then Emitted(ValueOf(c, states[j], inputs[j], gamma)) else Dropped
  {
    hide *;
    KeptInRun(c, gamma, states, inputs, outputs, j, k);
    KeptNext(c, gamma, states, inputs, outputs, k, Debiased(c, inputs[j].scalar));
  }
}
