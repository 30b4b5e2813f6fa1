/** Ambient-light correction as functions of its configuration and state, over exact reals. */
module AlsSpec {
  import opened Common

  /** A real number or plus infinity. */
  datatype ExtReal = Fin(v: real) | Inf

  predicate AtMost(x: real, bound: ExtReal) {
    bound.Inf? || x <= bound.v
  }

  function Plus(a: ExtReal, b: real): ExtReal {
    if a.Inf? then Inf else Fin(a.v + b)
  }

  function Over(a: ExtReal, d: real): ExtReal
    requires d != 0.0
  {
    if a.Inf? then Inf else Fin(a.v / d)
  }

  /** Products and quotients by name, so that equal factors are seen to give equal results. */
  function Times(a: real, b: real): real { a * b }

  type Three = s: seq<real> | |s| == 3 witness [0.0, 0.0, 0.0]
  type Four = s: seq<real> | |s| == 4 witness [0.0, 0.0, 0.0, 0.0]
  type FourLists = s: seq<seq<real>> | |s| == 4 witness [[], [], [], []]

  /** A row of the hysteresis table: the window min..max for values up to middle. */
  datatype Row = Row(middle: ExtReal, min: real, max: ExtReal)

  const TABLE: seq<Row> := [
    Row(Fin(0.0), 0.0, Fin(4.0)),
    Row(Fin(7.0), 1.0, Fin(12.0)),
    Row(Fin(15.0), 5.0, Fin(30.0)),
    Row(Fin(30.0), 10.0, Fin(50.0)),
    Row(Fin(360.0), 25.0, Fin(700.0)),
    Row(Fin(1200.0), 300.0, Fin(1600.0)),
    Row(Fin(2250.0), 1000.0, Fin(2940.0)),
    Row(Fin(4600.0), 2000.0, Fin(5900.0)),
    Row(Fin(10000.0), 4000.0, Fin(80000.0)),
    Row(Inf, 8000.0, Inf)]

  /** What initialization leaves in the configuration that processing reads. */
  datatype Config = Config(
    hbr: bool, maxLux: Four, postmul: Four, poly: FourLists, weights: Three,
    gaincalPoints: Four, inverseGain: Four, agcThreshold: real, calibGain: real,
    bias: real, maxBrightness: real)
  {
    /** The gain at the base of the gain table. */
    function BaseGain(): real { calibGain * inverseGain[0] }

    /** What initialization with positive gains establishes. */
    predicate Usable() {
      && calibGain > 0.0 && inverseGain[0] > 0.0 && maxBrightness > 0.0
      && agcThreshold == 800.0 / inverseGain[0]
    }

    /** The white maximum is not negative and the grey weights are a partial average. */
    predicate Physical() {
      && Usable() && maxLux[3] >= 0.0
      && weights[0] >= 0.0 && weights[1] >= 0.0 && weights[2] >= 0.0
      && weights[0] + weights[1] + weights[2] <= 1.0
    }
  }

  /** The table after initialization: windows in raw units of the base gain, except that the first
      one starts at -1. */
  function ScaledRow(i: nat, gain: real): Row
    requires i < |TABLE| && gain > 0.0
  {
    Row(TABLE[i].middle, if i == 0 then -1.0 else TABLE[i].min / gain, Over(TABLE[i].max, gain))
  }

  // ---------------------------------------------------------------- estimating the screen

  datatype Rgb = Rgb(r: real, g: real, b: real) {
    predicate InRange() { 0.0 <= r <= 255.0 && 0.0 <= g <= 255.0 && 0.0 <= b <= 255.0 }
  }

  function Luma(c: Config, s: Rgb): real {
    Times(s.r, c.weights[0]) + Times(s.g, c.weights[1]) + Times(s.b, c.weights[2])
  }

  function Channels(c: Config, s: Rgb): Four {
    [s.r, s.g, s.b, Luma(c, s)]
  }

  function Power(x: real, n: nat): real {
    if n == 0 then 1.0 else x * Power(x, n - 1)
  }

  /** The polynomial with these coefficients, highest power first, as a sum of powers. */
  function Polynomial(coefs: seq<real>, x: real): real {
    if coefs == [] then 0.0
    else coefs[0] * Power(x, |coefs| - 1) + Polynomial(coefs[1..], x)
  }

  /** The light of one channel by its polynomial. */
  function ChannelLight(c: Config, s: Rgb, i: nat): real
    requires i < 4
  {
    Polynomial(c.poly[i], Channels(c, s)[i]) * c.postmul[i]
  }

  /** The colour channels add what is positive of them, the white channel is taken off. */
  function Estimate(c: Config, s: Rgb): real {
    MaxReal(ChannelLight(c, s, 0), 0.0) + MaxReal(ChannelLight(c, s, 1), 0.0) + MaxReal(ChannelLight(c, s, 2), 0.0)
    - ChannelLight(c, s, 3)
  }

  function FullWhite(c: Config, brightness: real): real
    requires c.maxBrightness != 0.0
  {
    c.maxLux[3] * brightness / c.maxBrightness
  }

  /** gamma stands for raising to the power 2.2, which keeps the unit interval within itself. */
  ghost predicate GammaCurve(gamma: real -> real) {
    forall x :: 0.0 <= x <= 1.0 ==> 0.0 <= gamma(x) <= 1.0
  }

  /** The light of a grey screen of the captured luma. */
  function GammaFloor(c: Config, s: Rgb, brightness: real, gamma: real -> real): real
    requires c.maxBrightness != 0.0
  {
    Times(gamma(Luma(c, s) / 255.0), FullWhite(c, brightness))
  }

  /** What is taken off the reading: the estimate, at most full white and at least the grey light. */
  function Correction(c: Config, s: Rgb, brightness: real, gamma: real -> real): real
    requires c.maxBrightness != 0.0
  {
    MaxReal(MinReal(Times(Estimate(c, s), brightness / c.maxBrightness), FullWhite(c, brightness)),
        GammaFloor(c, s, brightness, gamma))
  }

  // ---------------------------------------------------------------- gain and window

  /** The quotient a / b for positive a, infinite when b is 0. */
  function Ratio(a: real, b: real): ExtReal {
    if b == 0.0 then Inf else Fin(a / b)
  }

  function GainEstimate(c: Config, corrected: real, reading2: real): ExtReal
    requires corrected > 0.0
  {
    if c.hbr then Fin(reading2 * 1000.0 / corrected) else Ratio(corrected, reading2)
  }

  predicate Exceeds(estimate: ExtReal, point: real) {
    estimate.Inf? || estimate.v > point
  }

  /** The gain of the last of the first n points that the estimate exceeds, the base one if none. */
  function GainAt(c: Config, estimate: ExtReal, n: nat): (gain: real)
    requires n <= 4
    ensures (forall k :: 0 <= k < n ==> !Exceeds(estimate, c.gaincalPoints[k])) ==> gain == c.inverseGain[0]
    ensures forall k | 0 <= k < n && Exceeds(estimate, c.gaincalPoints[k]) ::
              (forall m :: k < m < n ==> !Exceeds(estimate, c.gaincalPoints[m])) ==> gain == c.inverseGain[k]
  {
    if n == 0 then c.inverseGain[0]
    else if Exceeds(estimate, c.gaincalPoints[n - 1]) then c.inverseGain[n - 1]
    else GainAt(c, estimate, n - 1)
  }

  function AgcGain(c: Config, corrected: real, reading2: real): real
    requires c.agcThreshold > 0.0
  {
    if corrected > c.agcThreshold then GainAt(c, GainEstimate(c, corrected, reading2), 4)
    else c.inverseGain[0]
  }

  /** The first row whose middle is not below the value; the last row takes everything. */
  function RowFor(value: real, from: nat): (i: nat)
    requires from < |TABLE|
    ensures from <= i < |TABLE| && AtMost(value, TABLE[i].middle)
    ensures forall k :: from <= k < i ==> !AtMost(value, TABLE[k].middle)
    decreases |TABLE| - from
  {
    if AtMost(value, TABLE[from].middle) then from
    else RowFor(value, from + 1)
  }

  // ---------------------------------------------------------------- processing

  const SECOND: int := 1_000_000_000
  const GATE: int := 100_000_000

  /** The static state of the filter; times are nanoseconds since boot, 0 is never. */
  datatype State = State(lastUpdate: int, lastForced: int, force: bool,
                         hystMin: real, hystMax: ExtReal, lastValue: real, lastGain: real)

  const INIT := State(0, 0, true, -1.0, Fin(-1.0), 0.0, 0.0)

  /** One wise-light event and what the system answers while it is processed. */
  datatype Input = Input(scalar: real, reading2: real, now: int, brightness: real, capture: Option<Rgb>)

  datatype Output = Dropped | Emitted(value: real)

  function Debiased(c: Config, x: real): real {
    if x > c.bias then x - c.bias else x
  }

  predicate Passes(s: State, now: int) {
    s.lastUpdate == 0 || now - s.lastUpdate >= GATE
  }

  /** A refresh is demanded while the screen is on and the last demand is over 3 seconds old. */
  predicate Demands(s: State, i: Input) {
    s.lastUpdate != 0 && i.brightness > 0.0 && i.now - s.lastForced > 3 * SECOND
  }

  function AfterGate(s: State, i: Input): State {
    s.(lastUpdate := if Passes(s, i.now) then i.now else s.lastUpdate,
       lastForced := if s.lastUpdate == 0 || Demands(s, i) then i.now else s.lastForced,
       force := s.force || Demands(s, i))
  }

  /** A raw value in lux at the given sensor gain. */
  function Calibrated(c: Config, x: real, gain: real): real {
    x * c.calibGain * gain
  }

  /** A reading outside the window, and not in the middle of the calibrated range. */
  predicate Strays(x: real, min: real, max: ExtReal, calibrated: real) {
    (x < min || !AtMost(x, max)) && (calibrated < 10.0 || calibrated > 5.0 / 0.07)
  }

  predicate Triggers(c: Config, s: State, x: real) {
    s.force || Strays(x, s.hystMin, s.hystMax, Calibrated(c, x, s.lastGain))
  }

  /** The quantities of a refresh. */
  datatype Refresh = Refresh(correction: real, fullWhite: real, corrected: real, gain: real)

  function RefreshOf(c: Config, i: Input, shot: Rgb, gamma: real -> real): Refresh
    requires c.Usable()
  {
    var x := Debiased(c, i.scalar);
    var correction := Correction(c, shot, i.brightness, gamma);
    var corrected := MaxReal(x - correction, 0.0);
    Refresh(correction, FullWhite(c, i.brightness), corrected, AgcGain(c, corrected, i.reading2))
  }

  predicate Accepts(c: Config, x: real, r: Refresh, force: bool) {
    r.correction <= x * 1.35 || Calibrated(c, x, r.gain) < 10000.0 || force
  }

  function Lux(c: Config, r: Refresh): real {
    Calibrated(c, r.corrected, r.gain)
  }

  function RefreshValue(c: Config, r: Refresh): real {
    MaxReal(Lux(c, r) - 14.0, 0.0)
  }

  function AfterRefresh(c: Config, s: State, r: Refresh): State
    requires c.Usable()
  {
    var row := ScaledRow(RowFor(Lux(c, r), 0), c.BaseGain());
    s.(lastGain := r.gain, hystMin := row.min, hystMax := Plus(row.max, r.fullWhite),
       lastValue := RefreshValue(c, r), force := false)
  }

  /** The event completes a refresh: it passes, asks for a capture, gets it, and it is accepted. */
  predicate Refreshes(c: Config, s: State, i: Input, gamma: real -> real)
    requires c.Usable()
  {
    var gated, x := AfterGate(s, i), Debiased(c, i.scalar);
    && Passes(s, i.now) && Triggers(c, gated, x) && i.capture.Some?
    && Accepts(c, x, RefreshOf(c, i, i.capture.value, gamma), gated.force)
  }

  function Process(c: Config, s: State, i: Input, gamma: real -> real): (State, Output)
    requires c.Usable()
  {
    var gated, x := AfterGate(s, i), Debiased(c, i.scalar);
    if !Passes(s, i.now) then (gated, Dropped)
    else if !Triggers(c, gated, x) then (gated, Emitted(s.lastValue))
    else if i.capture.None? then (gated, Dropped)
    else
      var r := RefreshOf(c, i, i.capture.value, gamma);
      if Accepts(c, x, r, gated.force) then (AfterRefresh(c, gated, r), Emitted(RefreshValue(c, r)))
      else (gated.(force := false), Emitted(s.lastValue))
  }
}
