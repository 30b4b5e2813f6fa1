/** Ambient-light correction as the sensors process runs it: initialization rescales the hysteresis
    table in place, processing updates the static state and the event. */
module AlsCorrection {
  import opened Common
  import opened AlsSpec
  import SensorTypes

  /** The properties initialization reads. */
  datatype Properties = Properties(hbr: bool, bias: real, maxLuxDiv: Four, poly: FourLists, weights: Three,
                                   gaincalPoints: Four, inverseGain: Four)

  /** The calibration files; 0 stands for a missing one. */
  datatype Calibration = Calibration(maxLux: Four, rowCoe: real, caliCoe: real, maxBrightness: real)

  /** The base gain property, unless the row coefficient of the device overrides it. */
  function FirstGain(p: Properties, f: Calibration): real {
    if f.rowCoe != 0.0 then f.rowCoe / 1000.0 else p.inverseGain[0]
  }

  function CalibratedGain(f: Calibration): real {
    if f.caliCoe > 0.0 then f.caliCoe / 1000.0 else 1.0
  }

  /** Initialization divides by these. */
  predicate Positive(p: Properties, f: Calibration) {
    FirstGain(p, f) > 0.0 && f.maxBrightness > 0.0 && forall i :: 0 <= i < 4 ==> p.maxLuxDiv[i] != 0.0
  }

  /** The white channel stands for what red, green and blue at full do not explain. */
  function PostMultiplier(lux: Four, div: Four, i: nat): real
    requires i < 4 && div[i] != 0.0
  {
    (if i < 3 then lux[i] else lux[0] + lux[1] + lux[2] - lux[3]) / div[i]
  }

  /** What initialization computes, with the quotients multiplied out. */
  predicate Initialized(p: Properties, f: Calibration, c: Config) {
    && c.inverseGain[1..] == p.inverseGain[1..] && c.BaseGain() == c.calibGain * c.inverseGain[0]
    && (if f.caliCoe > 0.0 then c.calibGain * 1000.0 == f.caliCoe else c.calibGain == 1.0)
    && (if f.rowCoe != 0.0 then c.inverseGain[0] * 1000.0 == f.rowCoe else c.inverseGain[0] == p.inverseGain[0])
    && c.agcThreshold * c.inverseGain[0] == 800.0
    && (forall i :: 0 <= i < 3 ==> c.postmul[i] * p.maxLuxDiv[i] == f.maxLux[i])
    && c.postmul[3] * p.maxLuxDiv[3] == f.maxLux[0] + f.maxLux[1] + f.maxLux[2] - f.maxLux[3]
  }

  /** The row times the gain is that of the table, except that the first window starts at -1. */
  predicate RowScaled(row: Row, i: nat, gain: real)
    requires i < |TABLE|
  {
    && row.middle == TABLE[i].middle
    && (if i == 0 then row.min == -1.0 else row.min * gain == TABLE[i].min)
    && (if TABLE[i].max.Inf? then row.max.Inf? else row.max.Fin? && row.max.v * gain == TABLE[i].max.v)
  }

  predicate Scaled(rows: seq<Row>, gain: real) {
    |rows| == |TABLE| == 10 && forall i :: 0 <= i < |TABLE| ==> RowScaled(rows[i], i, gain)
  }

  lemma InitializedExactly(p: Properties, f: Calibration, c: Config)
    requires Positive(p, f) && c.Usable() && c.calibGain == CalibratedGain(f)
    requires c.inverseGain == p.inverseGain[0 := FirstGain(p, f)]
    requires forall i :: 0 <= i < 4 ==> c.postmul[i] == PostMultiplier(f.maxLux, p.maxLuxDiv, i)
    ensures Initialized(p, f, c)
  {
    assert c.postmul[3] == PostMultiplier(f.maxLux, p.maxLuxDiv, 3);
  }

  lemma PositiveProduct(a: real, b: real)
    requires a > 0.0 && b > 0.0
    ensures a * b > 0.0
  {
  }

  lemma ScaledRowExactly(i: nat, gain: real)
    requires i < |TABLE| && gain > 0.0
    ensures RowScaled(ScaledRow(i, gain), i, gain)
  {
  }

  lemma ScaledExactly(rows: seq<Row>, gain: real)
    requires gain > 0.0 && |rows| == |TABLE|
    requires forall i :: 0 <= i < |TABLE| ==> rows[i] == ScaledRow(i, gain)
    ensures Scaled(rows, gain)
  {
    hide RowScaled, ScaledRow;
    forall i | 0 <= i < |TABLE| ensures RowScaled(rows[i], i, gain) {
      ScaledRowExactly(i, gain);
    }
  }

  /** Horner's rule takes one more coefficient. */
  lemma {:induction false} PolynomialStep(coefs: seq<real>, last: real, x: real)
    ensures Polynomial(coefs + [last], x) == Polynomial(coefs, x) * x + last
  {
    if coefs != [] {
      var rest := coefs[1..];
      PolynomialStep(rest, last, x);
      FirstTerm(coefs, x);
      FirstTerm(coefs + [last], x);
      assert (coefs + [last])[1..] == rest + [last];
      PowerStep(x, |coefs|);
      hide Polynomial, Power;
      Distribute(coefs[0], Power(x, |coefs| - 1), Polynomial(rest, x), x);
    }
  }

  lemma FirstTerm(coefs: seq<real>, x: real)
    requires coefs != []
    ensures Polynomial(coefs, x) == coefs[0] * Power(x, |coefs| - 1) + Polynomial(coefs[1..], x)
  {
  }

  lemma PowerStep(x: real, n: nat)
    requires n > 0
    ensures Power(x, n) == x * Power(x, n - 1)
  {
  }

  lemma Distribute(a: real, p: real, q: real, x: real)
    ensures a * (x * p) + q * x == (a * p + q) * x
  {
  }

  /** The event as it leaves the filter: a dropped one points at handle 0, with the bias taken off;
      any other carries the output value. */
  function Rewritten(c: Config, e: SensorTypes.Event, out: Output): SensorTypes.Event {
    match out
    case Dropped => e.(sensorHandle := 0, scalar := Debiased(c, e.scalar))
    case Emitted(v) => e.(scalar := v)
  }

  class AlsFilter {
    var conf: Config
    const hysteresisRanges: array<Row>

    // the static state
    var lastUpdate: int
    var lastForcedUpdate: int
    var forceUpdate: bool
    var hystMin: real
    var hystMax: ExtReal
    var lastCorrectedValue: real
    var lastAgcGain: real

    function View(): State
      reads this
    {
      State(lastUpdate, lastForcedUpdate, forceUpdate, hystMin, hystMax, lastCorrectedValue, lastAgcGain)
    }

    /** Initialized: the configuration is usable and the table is scaled by its base gain. */
    predicate Valid()
      reads this, hysteresisRanges
    {
      && conf.Usable() && conf.BaseGain() > 0.0 && hysteresisRanges.Length == |TABLE|
      && forall i :: 0 <= i < |TABLE| ==> hysteresisRanges[i] == ScaledRow(i, conf.BaseGain())
    }

    constructor (p: Properties, f: Calibration)
      requires Positive(p, f)
      ensures Valid() && View() == INIT
      ensures conf.hbr == p.hbr && conf.bias == p.bias && conf.poly == p.poly && conf.weights == p.weights
      ensures conf.gaincalPoints == p.gaincalPoints && conf.maxBrightness == f.maxBrightness
      ensures conf.maxLux == f.maxLux && Initialized(p, f, conf)
      ensures Scaled(hysteresisRanges[..], conf.BaseGain())
    {
      hide Initialized, Scaled, Config.Usable, ScaledRow, Positive;
      lastUpdate, lastForcedUpdate, forceUpdate := 0, 0, true;
      hystMin, hystMax := -1.0, Fin(-1.0);
      lastCorrectedValue, lastAgcGain := 0.0, 0.0;
      conf := Config(p.hbr, [0.0, 0.0, 0.0, 0.0], [0.0, 0.0, 0.0, 0.0], p.poly, p.weights,
                     p.gaincalPoints, p.inverseGain, 0.0, 1.0, p.bias, f.maxBrightness);
      hysteresisRanges := new Row[|TABLE|](i requires 0 <= i < |TABLE| => TABLE[i]);
      new;
      Init(p, f);
    }

    /** One initialization of the configuration and the table. */
    method Init(p: Properties, f: Calibration)
      requires Positive(p, f) && conf.maxLux == [0.0, 0.0, 0.0, 0.0]
      requires hysteresisRanges.Length == |TABLE| && hysteresisRanges[..] == TABLE
      modifies `conf, hysteresisRanges
      ensures Valid()
      ensures conf.hbr == p.hbr && conf.bias == p.bias && conf.poly == p.poly && conf.weights == p.weights
      ensures conf.gaincalPoints == p.gaincalPoints && conf.maxBrightness == f.maxBrightness
      ensures conf.maxLux == f.maxLux && Initialized(p, f, conf)
      ensures Scaled(hysteresisRanges[..], conf.BaseGain())
    {
      hide Initialized, Scaled, Config.Usable, ScaledRow, Positive;
      conf := ReadProperties(p, f);
      ScaleRanges(conf.BaseGain());
      ScaledExactly(hysteresisRanges[..], conf.BaseGain());
    }

    /** The configuration of the properties and the calibration. */
    method ReadProperties(p: Properties, f: Calibration) returns (c: Config)
      requires Positive(p, f) && conf.maxLux == [0.0, 0.0, 0.0, 0.0]
      ensures c.Usable() && c.BaseGain() > 0.0
      ensures c.hbr == p.hbr && c.bias == p.bias && c.poly == p.poly && c.weights == p.weights
      ensures c.gaincalPoints == p.gaincalPoints && c.maxBrightness == f.maxBrightness
      ensures c.maxLux == f.maxLux && Initialized(p, f, c)
    {
      hide Initialized, PostMultiplier;
      var maxLux, postmul := ReadDisplay(p, f);
      var inverseGain: Four := p.inverseGain;
      if f.rowCoe != 0.0 {
        inverseGain := inverseGain[0 := f.rowCoe / 1000.0];
      }
      var agcThreshold := 800.0 / inverseGain[0];
      var calibGain := if f.caliCoe > 0.0 then f.caliCoe / 1000.0 else 1.0;
      c := Config(p.hbr, maxLux, postmul, p.poly, p.weights, p.gaincalPoints, inverseGain,
                  agcThreshold, calibGain, p.bias, f.maxBrightness);
      assert inverseGain == p.inverseGain[0 := FirstGain(p, f)] && calibGain == CalibratedGain(f);
      assert c.BaseGain() > 0.0 by { PositiveProduct(calibGain, inverseGain[0]); }
      InitializedExactly(p, f, c);
    }

    /** The display maxima and the factors of the four channels. */
    method ReadDisplay(p: Properties, f: Calibration) returns (maxLux: Four, postmul: Four)
      requires Positive(p, f) && conf.maxLux == [0.0, 0.0, 0.0, 0.0]
      ensures maxLux == f.maxLux
      ensures forall i :: 0 <= i < 4 ==> postmul[i] == PostMultiplier(f.maxLux, p.maxLuxDiv, i)
    {
      maxLux, postmul := conf.maxLux, conf.postmul;
      var rgbwAcc := 0.0;
      for i := 0 to 4
        invariant forall j :: 0 <= j < 4 ==> maxLux[j] == if j < i then f.maxLux[j] else 0.0
        invariant forall j :: 0 <= j < i ==> postmul[j] == PostMultiplier(f.maxLux, p.maxLuxDiv, j)
        invariant i <= 3 ==> rgbwAcc == (if i > 0 then f.maxLux[0] else 0.0) + (if i > 1 then f.maxLux[1] else 0.0)
                                        + (if i > 2 then f.maxLux[2] else 0.0)
      {
        if f.maxLux[i] != 0.0 {
          maxLux := maxLux[i := f.maxLux[i]];
        }
        if i < 3 {
          rgbwAcc := rgbwAcc + maxLux[i];
          postmul := postmul[i := maxLux[i] / p.maxLuxDiv[i]];
        } else {
          rgbwAcc := rgbwAcc - maxLux[i];
          postmul := postmul[i := rgbwAcc / p.maxLuxDiv[i]];
        }
      }
      assert maxLux == f.maxLux;
    }

    /** Rescales the table in place; the first window then starts at -1. */
    method ScaleRanges(gain: real)
      requires gain > 0.0 && hysteresisRanges.Length == |TABLE| && hysteresisRanges[..] == TABLE
      modifies hysteresisRanges
      ensures forall i :: 0 <= i < |TABLE| ==> hysteresisRanges[i] == ScaledRow(i, gain)
    {
      for i := 0 to hysteresisRanges.Length
        invariant forall j :: 0 <= j < |TABLE| ==>
          var row := Row(TABLE[j].middle, TABLE[j].min / gain, Over(TABLE[j].max, gain));
          hysteresisRanges[j] == if j < i then row else TABLE[j]
      {
        var range := hysteresisRanges[i];
        hysteresisRanges[i] := Row(range.middle, range.min / gain, Over(range.max, gain));
      }
      hysteresisRanges[0] := hysteresisRanges[0].(min := -1.0);
    }

    /** The inner loop of a channel: Horner's rule computes the polynomial, whatever the list. */
    static method Horner(coefs: seq<real>, x: real) returns (corr: real)
      ensures corr == Polynomial(coefs, x)
    {
      corr := 0.0;
      for i := 0 to |coefs|
        invariant corr == Polynomial(coefs[..i], x)
      {
        PolynomialStep(coefs[..i], coefs[i], x);
        assert coefs[..i + 1] == coefs[..i] + [coefs[i]];
        corr := corr * x;
        corr := corr + coefs[i];
      }
      assert coefs[..|coefs|] == coefs;
    }

    method EstimateScreen(shot: Rgb) returns (cumulative: real)
      ensures cumulative == Estimate(conf, shot)
    {
      var rgbw := Channels(conf, shot);
      cumulative := 0.0;
      for i := 0 to 4
        invariant cumulative ==
          (if i > 0 then MaxReal(ChannelLight(conf, shot, 0), 0.0) else 0.0)
          + (if i > 1 then MaxReal(ChannelLight(conf, shot, 1), 0.0) else 0.0)
          + (if i > 2 then MaxReal(ChannelLight(conf, shot, 2), 0.0) else 0.0)
          - (if i > 3 then ChannelLight(conf, shot, 3) else 0.0)
      {
        var corr := Horner(conf.poly[i], rgbw[i]);
        corr := corr * conf.postmul[i];
        if i < 3 {
          cumulative := cumulative + MaxReal(corr, 0.0);
        } else {
          cumulative := cumulative - corr;
        }
      }
    }

    /** The gain step reached by the estimate, read off the gain points in order. */
    method SelectGain(corrected: real, reading2: real) returns (agcGain: real)
      requires conf.Usable()
      ensures agcGain == AgcGain(conf, corrected, reading2)
    {
      agcGain := conf.inverseGain[0];
      assert conf.agcThreshold > 0.0;
      if corrected > conf.agcThreshold {
        var gainEstimate := if conf.hbr then Fin(reading2 * 1000.0 / corrected) else Ratio(corrected, reading2);
        for i := 0 to 4
          invariant agcGain == GainAt(conf, gainEstimate, i)
        {
          if Exceeds(gainEstimate, conf.gaincalPoints[i]) {
            agcGain := conf.inverseGain[i];
          }
        }
      }
    }

    /** The first range whose middle the value does not exceed. */
    method SelectRange(value: real) returns (range: Row)
      requires Valid()
      ensures range == ScaledRow(RowFor(value, 0), conf.BaseGain())
    {
      var i := 0;
      while !AtMost(value, hysteresisRanges[i].middle)
        invariant 0 <= i < |TABLE| && RowFor(value, i) == RowFor(value, 0)
        decreases |TABLE| - i
      {
        i := i + 1;
      }
      range := hysteresisRanges[i];
    }

    /** The rate gate and the demand for a refresh. */
    method Gate(now: int, brightness: real) returns (passes: bool)
      modifies `lastUpdate, `lastForcedUpdate, `forceUpdate
      ensures passes == old(Passes(View(), now))
      ensures forall i: Input :: i.now == now && i.brightness == brightness ==> View() == AfterGate(old(View()), i)
    {
      if lastUpdate == 0 {
        lastUpdate := now;
        lastForcedUpdate := now;
      } else {
        if brightness > 0.0 && now - lastForcedUpdate > 3 * SECOND {
          lastForcedUpdate := now;
          forceUpdate := true;
        }
        if now - lastUpdate < GATE {
          return false;
        }
        lastUpdate := now;
      }
      passes := true;
    }

    /** The filter, on its state and one event. */
    method ProcessEvent(event: SensorTypes.Event, now: int, brightness: real, capture: Option<Rgb>,
                        gamma: real -> real) returns (out: SensorTypes.Event)
      requires Valid()
      modifies this
      ensures Valid() && conf == old(conf)
      ensures var input := Input(event.scalar, event.reading2, now, brightness, capture);
              var (s', output) := Process(conf, old(View()), input, gamma);
              View() == s' && out == Rewritten(conf, event, output)
      ensures var input := Input(event.scalar, event.reading2, now, brightness, capture);
              var x := if event.scalar > conf.bias then event.scalar - conf.bias else event.scalar;
              if !Passes(old(View()), now) || (Triggers(conf, AfterGate(old(View()), input), x) && capture.None?)
              then out == event.(sensorHandle := 0, scalar := x)
              else out == event.(scalar := lastCorrectedValue)
    {
      ghost var input := Input(event.scalar, event.reading2, now, brightness, capture);
      ghost var s := View();
      out := event;
      if out.scalar > conf.bias {
        out := out.(scalar := out.scalar - conf.bias);
      }
      var passes := Gate(now, brightness);
      assert View() == AfterGate(s, input);
      if !passes {
        out := out.(sensorHandle := 0);
        return;
      }
      var x := out.scalar;
      var calibrated := Calibrated(conf, x, lastAgcGain);
      if forceUpdate || ((x < hystMin || !AtMost(x, hystMax)) && (calibrated < 10.0 || calibrated > 5.0 / 0.07)) {
        if capture.None? {
          out := out.(sensorHandle := 0);
          return;
        }
        var r := ComputeRefresh(x, event.reading2, brightness, capture.value, gamma, input);
        hide RefreshOf, AfterGate, Passes, Accepts, Calibrated;
        var _ := TakeRefresh(x, r);
      }
      out := out.(scalar := lastCorrectedValue);
    }

    /** From a capture to the quantities of a refresh. */
    method ComputeRefresh(x: real, reading2: real, brightness: real, shot: Rgb, gamma: real -> real, ghost input: Input)
      returns (r: Refresh)
      requires conf.Usable() && x == Debiased(conf, input.scalar) && reading2 == input.reading2
      requires brightness == input.brightness
      ensures r == RefreshOf(conf, input, shot, gamma)
    {
      hide Estimate, FullWhite, AgcGain, Luma, Times;
      var cumulativeCorrection := EstimateScreen(shot);
      cumulativeCorrection := Times(cumulativeCorrection, brightness / conf.maxBrightness);
      var brightnessFullwhite := FullWhite(conf, brightness);
      var brightnessGrayscaleGamma := Times(gamma(Luma(conf, shot) / 255.0), brightnessFullwhite);
      cumulativeCorrection := MinReal(cumulativeCorrection, brightnessFullwhite);
      cumulativeCorrection := MaxReal(cumulativeCorrection, brightnessGrayscaleGamma);
      var sensorRawCorrected := MaxReal(x - cumulativeCorrection, 0.0);
      var agcGain := SelectGain(sensorRawCorrected, reading2);
      r := Refresh(cumulativeCorrection, brightnessFullwhite, sensorRawCorrected, agcGain);
    }

    /** Takes the refresh if it is accepted. */
    method TakeRefresh(x: real, r: Refresh) returns (accepted: bool)
      requires Valid()
      modifies `hystMin, `hystMax, `lastCorrectedValue, `lastAgcGain, `forceUpdate
      ensures Valid() && accepted == Accepts(conf, x, r, old(forceUpdate))
      ensures View() == if accepted then AfterRefresh(conf, old(View()), r) else old(View()).(force := false)
    {
      accepted := r.correction <= x * 1.35 || Calibrated(conf, x, r.gain) < 10000.0 || forceUpdate;
      if accepted {
        var sensorCorrected := Calibrated(conf, r.corrected, r.gain);
        lastAgcGain := r.gain;
        var range := SelectRange(sensorCorrected);
        hystMin := range.min;
        hystMax := Plus(range.max, r.fullWhite);
        lastCorrectedValue := MaxReal(sensorCorrected - 14.0, 0.0);
      }
      forceUpdate := false;
    }
  }
}
