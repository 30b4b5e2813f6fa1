/** Laws of ambient-light correction: the bounds of the correction, the stability of the hysteresis
    window, and what every run of the filter emits. */
module AlsLaws {
  import opened Common
  import opened AlsSpec
  import AreaCapture

  // ---------------------------------------------------------------- bounds of the correction

  lemma LumaInRange(c: Config, s: Rgb)
    requires c.Physical() && s.InRange()
    ensures 0.0 <= Luma(c, s) <= 255.0
  {
    Share(s.r, 255.0, c.weights[0]);
    Share(s.g, 255.0, c.weights[1]);
    Share(s.b, 255.0, c.weights[2]);
  }

  lemma Share(a: real, most: real, w: real)
    requires 0.0 <= a <= most && w >= 0.0
    ensures 0.0 <= Times(a, w) <= most * w
  {
    assert most * w - a * w == (most - a) * w;
  }

  lemma FullWhiteNonNegative(c: Config, brightness: real)
    requires c.Physical() && brightness >= 0.0
    ensures FullWhite(c, brightness) >= 0.0
  {
    var n := c.maxLux[3] * brightness;
    assert n >= 0.0;
    var q := n / c.maxBrightness;
    assert q * c.maxBrightness == n;
    assert q < 0.0 ==> q * c.maxBrightness < 0.0;
  }

  /** The correction lies between the grey light and full white, neither is negative, and the
      corrected reading lies between 0 and the reading. */
  lemma CorrectionClamped(c: Config, s: Rgb, brightness: real, gamma: real -> real, x: real)
    requires c.Physical() && s.InRange() && brightness >= 0.0 && GammaCurve(gamma)
    ensures 0.0 <= GammaFloor(c, s, brightness, gamma) <= Correction(c, s, brightness, gamma)
              <= FullWhite(c, brightness)
    ensures x >= 0.0 ==> 0.0 <= MaxReal(x - Correction(c, s, brightness, gamma), 0.0) <= x
  {
    LumaInRange(c, s);
    FullWhiteNonNegative(c, brightness);
    var g := Luma(c, s) / 255.0;
    assert 0.0 <= g <= 1.0;
    assert 0.0 <= gamma(g) <= 1.0;
    Share(gamma(g), 1.0, FullWhite(c, brightness));
    hide FullWhite, Estimate;
  }

  /** From the frame buffer to the correction: the averages of any captured, non-empty area of at
      most MAX_PIXELS pixels are in range, so the correction they lead to is clamped. */
  lemma CapturedCorrectionClamped(out: seq<AreaCapture.Byte>, f: AreaCapture.Frame,
                                  c: Config, brightness: real, gamma: real -> real)
    requires f.Fits(|out|) && 0 < f.width * f.height <= AreaCapture.MAX_PIXELS
    requires c.Physical() && brightness >= 0.0 && GammaCurve(gamma)
    ensures forall i :: 0 <= i < 3 ==>
      AreaCapture.Mean(AreaCapture.U32(AreaCapture.AreaSum(out, f, i, f.height)), AreaCapture.U32(f.width * f.height)).Value?
    ensures var Channel := (i: nat) requires i < 3 =>
              AreaCapture.Mean(AreaCapture.U32(AreaCapture.AreaSum(out, f, i, f.height)), AreaCapture.U32(f.width * f.height)).v;
            var shot := Rgb(Channel(0), Channel(1), Channel(2));
            && shot.InRange()
            && 0.0 <= Correction(c, shot, brightness, gamma) <= FullWhite(c, brightness)
  {
    AreaCapture.AverageExact(out, f, 0);
    AreaCapture.AverageExact(out, f, 1);
    AreaCapture.AverageExact(out, f, 2);
    var shot := Rgb(AreaCapture.TrueAverage(out, f, 0).v, AreaCapture.TrueAverage(out, f, 1).v,
                    AreaCapture.TrueAverage(out, f, 2).v);
    CorrectionClamped(c, shot, brightness, gamma, 0.0);
  }

  // ---------------------------------------------------------------- hysteresis

  /** The gain relative to the base gain for which the table's windows hold their own readings. */
  predicate Near(base: real, gain: real) {
    46.0 * base <= 59.0 * gain && 8.0 * gain <= 9.0 * base
  }

  /** Every window of the table but the first two starts at most at 8/9 of the row before it, and every
      row's middle lies at most at 46/59 of its end. Rows 2250 and 4600 meet both bounds. */
  lemma TableShape(i: nat)
    requires i < |TABLE|
    ensures TABLE[i].max.Fin? ==> TABLE[i].middle.Fin? && 59.0 * TABLE[i].middle.v <= 46.0 * TABLE[i].max.v
    ensures i >= 2 ==> TABLE[i - 1].middle.Fin? && 9.0 * TABLE[i].min <= 8.0 * TABLE[i - 1].middle.v
  {
  }

  /** A corrected value at the base gain and at a near one. */
  lemma NearValues(corrected: real, base: real, gain: real)
    requires corrected >= 0.0 && base > 0.0 && gain > 0.0 && Near(base, gain)
    ensures 46.0 * Times(corrected, base) <= 59.0 * Times(corrected, gain)
    ensures 8.0 * Times(corrected, gain) <= 9.0 * Times(corrected, base)
    ensures corrected > 0.0 <==> Times(corrected, gain) > 0.0
    ensures Times(corrected, gain) >= 0.0
  {
    var lower, upper := 59.0 * gain - 46.0 * base, 9.0 * base - 8.0 * gain;
    assert corrected * lower == 59.0 * (corrected * gain) - 46.0 * (corrected * base);
    assert corrected * upper == 9.0 * (corrected * base) - 8.0 * (corrected * gain);
  }

  /** Where a reading lies in the window chosen for its corrected value: the window is in units of the
      base gain, the value that chooses it was computed at a near gain. */
  lemma WindowHolds(corrected: real, x: real, fullWhite: real, base: real, gain: real)
    requires base > 0.0 && gain > 0.0 && Near(base, gain) && fullWhite >= 0.0 && corrected >= 0.0
    requires x - fullWhite <= corrected && (corrected > 0.0 ==> corrected <= x)
    ensures var value := Times(corrected, gain); var row := ScaledRow(RowFor(value, 0), base);
            && AtMost(x, Plus(row.max, fullWhite))
            && (x < row.min <==> if value == 0.0 then x < -1.0 else value <= 7.0 && Times(x, base) < 1.0)
  {
    var value, raw := Times(corrected, gain), Times(corrected, base);
    NearValues(corrected, base, gain);
    var i := RowFor(value, 0);
    TableShape(i);
    assert TABLE[0].middle == Fin(0.0) && TABLE[1].middle == Fin(7.0) && TABLE[1].min == 1.0;
    if TABLE[i].max.Fin? {
      assert raw <= TABLE[i].max.v;
      QuotientOrder(corrected, base, TABLE[i].max.v);
    }
    if corrected > 0.0 {
      assert i >= 1 && Times(x, base) >= raw by { Share(corrected, x, base); }
      QuotientAbove(x, base, TABLE[i].min);
      if i >= 2 {
        assert !AtMost(value, TABLE[i - 1].middle) && !AtMost(value, TABLE[1].middle);
      }
    } else {
      assert i == 0;
    }
  }

  lemma QuotientOrder(a: real, gain: real, bound: real)
    requires gain > 0.0 && a * gain <= bound
    ensures a <= bound / gain
  {
    var q := bound / gain;
    assert q * gain == bound;
    if a > q { assert a * gain > q * gain; }
  }

  lemma QuotientAbove(x: real, gain: real, bound: real)
    requires gain > 0.0
    ensures x < bound / gain <==> x * gain < bound
  {
    var q := bound / gain;
    assert q * gain == bound;
    if x < q { assert x * gain < q * gain; } else { assert x * gain >= q * gain; }
  }

  lemma AtGain(c: Config, x: real, gain: real)
    ensures Calibrated(c, x, gain) == Times(x, Times(c.calibGain, gain))
    ensures c.BaseGain() == Times(c.calibGain, c.inverseGain[0])
  {
    assert x * c.calibGain * gain == x * (c.calibGain * gain);
  }

  lemma NearScaled(k: real, base: real, gain: real)
    requires k > 0.0 && Near(base, gain)
    ensures Near(Times(k, base), Times(k, gain))
  {
    assert k * (59.0 * gain - 46.0 * base) == 59.0 * (k * gain) - 46.0 * (k * base);
    assert k * (9.0 * base - 8.0 * gain) == 9.0 * (k * base) - 8.0 * (k * gain);
  }

  lemma NearPositive(base: real, gain: real)
    requires base > 0.0 && Near(base, gain)
    ensures gain > 0.0
  {
  }

  lemma Positive(a: real, gain: real)
    requires gain > 0.0
    ensures Times(a, gain) > 0.0 <==> a > 0.0
    ensures Times(a, gain) == 0.0 <==> a == 0.0
  {
  }

  /** A reading below 1 lux at the base gain is below 10 lux at a near one. */
  lemma DarkAtNearGain(x: real, base: real, gain: real)
    requires base > 0.0 && gain > 0.0 && Near(base, gain) && Times(x, base) < 1.0
    ensures Times(x, gain) < 10.0
  {
    if x >= 0.0 { NearValues(x, base, gain); }
  }

  /** Readings a refresh does not settle: those below -1, and those below 1 lux at the base gain whose
      value is positive and in the second row of the table. */
  predicate Unsettled(c: Config, lux: real, x: real) {
    x < -1.0 || (0.0 < lux <= 7.0 && Times(x, c.BaseGain()) < 1.0)
  }

  /** Case analysis on what WindowHolds leaves open: xb and xg are the reading calibrated at the base
      gain and at the gain of the refresh. */
  lemma StraysExactly(x: real, xb: real, xg: real, lux: real, min: real, max: ExtReal)
    requires AtMost(x, max) && lux >= 0.0 && (lux > 0.0 ==> x > 0.0)
    requires x < min <==> if lux == 0.0 then x < -1.0 else lux <= 7.0 && xb < 1.0
    requires (xb < 1.0 ==> xg < 10.0) && (x < 0.0 ==> xb < 1.0)
    ensures Strays(x, min, max, xg) <==> x < -1.0 || (0.0 < lux <= 7.0 && xb < 1.0)
  {
  }

  /** Whether a reading strays from the window chosen for its corrected value. */
  lemma WindowSettles(corrected: real, x: real, fullWhite: real, base: real, gain: real)
    requires base > 0.0 && gain > 0.0 && Near(base, gain) && fullWhite >= 0.0 && corrected >= 0.0
    requires x - fullWhite <= corrected && (corrected > 0.0 ==> corrected <= x)
    ensures var lux := Times(corrected, gain); var row := ScaledRow(RowFor(lux, 0), base);
            Strays(x, row.min, Plus(row.max, fullWhite), Times(x, gain)) <==>
              x < -1.0 || (0.0 < lux <= 7.0 && Times(x, base) < 1.0)
  {
    hide ScaledRow, RowFor, Times, Near, Strays;
    Positive(x, base);
    Positive(corrected, gain);
    WindowHolds(corrected, x, fullWhite, base, gain);
    if Times(x, base) < 1.0 { DarkAtNearGain(x, base, gain); }
    var lux := Times(corrected, gain);
    var row := ScaledRow(RowFor(lux, 0), base);
    StraysExactly(x, Times(x, base), Times(x, gain), lux, row.min, Plus(row.max, fullWhite));
  }

  lemma UsableGain(c: Config, gain: real)
    requires c.Usable() && Near(c.inverseGain[0], gain)
    ensures c.BaseGain() > 0.0 && Times(c.calibGain, gain) > 0.0 && Near(c.BaseGain(), Times(c.calibGain, gain))
  {
    NearPositive(c.inverseGain[0], gain);
    NearScaled(c.calibGain, c.inverseGain[0], gain);
  }

  lemma RefreshedWindow(c: Config, s: State, r: Refresh, x: real)
    requires c.Usable() && 0.0 <= r.correction <= r.fullWhite && Near(c.inverseGain[0], r.gain)
    requires r.corrected == MaxReal(x - r.correction, 0.0)
    ensures Triggers(c, AfterRefresh(c, s, r), x) <==> Unsettled(c, Lux(c, r), x)
  {
    UsableGain(c, r.gain);
    AtGain(c, x, r.gain);
    AtGain(c, r.corrected, r.gain);
    hide ScaledRow, RowFor, Calibrated, Times, Near, Strays, Config.Usable, Config.BaseGain;
    WindowSettles(r.corrected, x, r.fullWhite, c.BaseGain(), Times(c.calibGain, r.gain));
  }

  /** Hysteresis stability: after a refresh at the base gain or a near one, the same reading asks for
      no new capture exactly if it is settled. */
  lemma StableNearBaseGain(c: Config, s: State, i: Input, shot: Rgb, gamma: real -> real)
    requires c.Physical() && shot.InRange() && i.brightness >= 0.0 && GammaCurve(gamma)
    requires Near(c.inverseGain[0], RefreshOf(c, i, shot, gamma).gain)
    ensures Triggers(c, AfterRefresh(c, s, RefreshOf(c, i, shot, gamma)), Debiased(c, i.scalar)) <==>
            Unsettled(c, Lux(c, RefreshOf(c, i, shot, gamma)), Debiased(c, i.scalar))
  {
    var r, x := RefreshOf(c, i, shot, gamma), Debiased(c, i.scalar);
    CorrectionClamped(c, shot, i.brightness, gamma, x);
    RefreshedWindow(c, s, r, x);
  }

  /** At base gain, exactly: after a refresh the same reading asks for no new capture unless it is
      below -1, or the refreshed value lies strictly between 0 and 1 lux and the reading itself is
      below 1 lux. */
  lemma HysteresisStable(c: Config, s: State, i: Input, shot: Rgb, gamma: real -> real)
    requires c.Physical() && shot.InRange() && i.brightness >= 0.0 && GammaCurve(gamma)
    requires RefreshOf(c, i, shot, gamma).gain == c.inverseGain[0]
    ensures Triggers(c, AfterRefresh(c, s, RefreshOf(c, i, shot, gamma)), Debiased(c, i.scalar)) <==>
              || Debiased(c, i.scalar) < -1.0
              || (0.0 < Lux(c, RefreshOf(c, i, shot, gamma)) < 1.0
                  && Calibrated(c, Debiased(c, i.scalar), c.inverseGain[0]) < 1.0)
  {
    var r, x := RefreshOf(c, i, shot, gamma), Debiased(c, i.scalar);
    CorrectionClamped(c, shot, i.brightness, gamma, x);
    assert r.corrected > 0.0 ==> r.corrected <= x;
    hide *;
    StableNearBaseGain(c, s, i, shot, gamma);
    BaseGainUnsettled(c, r, x);
  }

  /** At base gain the value is at most the calibrated reading. */
  lemma BaseGainUnsettled(c: Config, r: Refresh, x: real)
    requires c.Usable() && r.gain == c.inverseGain[0] && (r.corrected > 0.0 ==> r.corrected <= x)
    ensures Unsettled(c, Lux(c, r), x) <==>
            x < -1.0 || (0.0 < Lux(c, r) < 1.0 && Calibrated(c, x, r.gain) < 1.0)
  {
    AtGain(c, x, r.gain);
    AtGain(c, r.corrected, r.gain);
    assert c.BaseGain() > 0.0;
    hide Calibrated, Times, Config.Usable, Config.BaseGain;
    if Lux(c, r) > 0.0 { LuxBelowReading(r.corrected, x, c.BaseGain()); }
  }

  /** A value is at most the reading it comes from. */
  lemma LuxBelowReading(corrected: real, x: real, gain: real)
    requires gain > 0.0 && Times(corrected, gain) > 0.0 && (corrected > 0.0 ==> corrected <= x)
    ensures Times(corrected, gain) <= Times(x, gain)
  {
    Positive(corrected, gain);
    Share(corrected, x, gain);
  }

  // ---------------------------------------------------------------- other gain steps

  /** The event completes a refresh of a physical device, at rho times its base gain. */
  ghost predicate RefreshesAt(c: Config, s: State, i: Input, gamma: real -> real, rho: real) {
    && c.Physical() && i.brightness >= 0.0 && GammaCurve(gamma)
    && Refreshes(c, s, i, gamma) && i.capture.value.InRange()
    && RefreshOf(c, i, i.capture.value, gamma).gain == Times(rho, c.inverseGain[0])
  }

  /** The state the event leaves asks for a capture on the same reading exactly if that is unsettled. */
  predicate LeavesSettled(c: Config, s: State, i: Input, gamma: real -> real)
    requires c.Usable() && i.capture.Some?
  {
    Triggers(c, Process(c, s, i, gamma).0, Debiased(c, i.scalar)) <==>
    Unsettled(c, Lux(c, RefreshOf(c, i, i.capture.value, gamma)), Debiased(c, i.scalar))
  }

  /** All refreshes of all devices at rho times the base gain settle what the table can settle. */
  ghost predicate StableAt(rho: real) {
    forall c, s, i, gamma :: RefreshesAt(c, s, i, gamma, rho) ==> LeavesSettled(c, s, i, gamma)
  }

  lemma NearRatio(rho: real, base: real)
    requires base > 0.0
    ensures 46.0 / 59.0 <= rho <= 9.0 / 8.0 <==> Near(base, Times(rho, base))
  {
    if rho >= 46.0 / 59.0 { Share(46.0 / 59.0, rho, base); } else { assert (46.0 / 59.0 - rho) * base > 0.0; }
    if rho <= 9.0 / 8.0 { assert (9.0 / 8.0 - rho) * base >= 0.0; } else { assert (rho - 9.0 / 8.0) * base > 0.0; }
  }

  /** A device whose second gain step is rho times the base gain, calibrated at that step. */
  function DeviceAt(rho: real): Config
    requires rho > 0.0
  {
    Config(false, [1.0, 1.0, 1.0, 1.0], [1.0, 1.0, 1.0, 1.0], [[], [], [], []], [0.3, 0.3, 0.3],
           [0.0, 0.0, 10000.0, 10000.0], [1.0, rho, 1.0, 1.0], 800.0, 1.0 / rho, 0.0, 1.0)
  }

  /** A value the table loses at rho: rows 4600 and up start too high for it above 9/8, and its row
      ends too low for it below 46/59. */
  function LostValue(rho: real): real {
    if rho < 9.0 / 8.0 then 4600.0 else if rho < 2.0 then 1125.0 + 1000.0 * rho else 3000.0
  }

  lemma DeviceGain(rho: real, v: real)
    requires rho > 0.0 && 800.0 < v < 10000.0
    ensures AgcGain(DeviceAt(rho), v, 1.0) == rho
  {
    var c := DeviceAt(rho);
    var estimate := GainEstimate(c, v, 1.0);
    assert estimate == Fin(v);
    assert Exceeds(estimate, c.gaincalPoints[1]);
    assert GainAt(c, estimate, 4) == c.inverseGain[1];
  }

  /** With a dark screen nothing is taken off: the first event of the device completes a refresh with
      the bare reading. */
  lemma DeviceRefresh(rho: real, gamma: real -> real) returns (i: Input)
    requires rho > 0.0 && GammaCurve(gamma)
    ensures var c := DeviceAt(rho);
            && RefreshesAt(c, INIT, i, gamma, rho) && Debiased(c, i.scalar) == LostValue(rho)
            && RefreshOf(c, i, i.capture.value, gamma) == Refresh(0.0, 0.0, LostValue(rho), rho)
            && Process(c, INIT, i, gamma).0 ==
                 AfterRefresh(c, AfterGate(INIT, i), Refresh(0.0, 0.0, LostValue(rho), rho))
  {
    var c, v, shot := DeviceAt(rho), LostValue(rho), Rgb(0.0, 0.0, 0.0);
    i := Input(v, 1.0, 1, 0.0, Some(shot));
    CorrectionClamped(c, shot, 0.0, gamma, v);
    assert FullWhite(c, 0.0) == 0.0 && Correction(c, shot, 0.0, gamma) == 0.0;
    DeviceGain(rho, v);
    hide AgcGain, Correction, AfterRefresh;
    assert RefreshOf(c, i, shot, gamma) == Refresh(0.0, 0.0, v, rho);
    assert Refreshes(c, INIT, i, gamma);
    assert Times(rho, c.inverseGain[0]) == rho;
  }

  /** The lost value is chosen by row 4600, whose window at the base gain it misses. */
  lemma DeviceStrays(rho: real, s: State)
    requires rho > 0.0 && !(46.0 / 59.0 <= rho <= 9.0 / 8.0)
    ensures var c, r := DeviceAt(rho), Refresh(0.0, 0.0, LostValue(rho), rho);
            Lux(c, r) == LostValue(rho) > 7.0 && Triggers(c, AfterRefresh(c, s, r), LostValue(rho))
  {
    var c, v := DeviceAt(rho), LostValue(rho);
    var r := Refresh(0.0, 0.0, v, rho);
    var k := 1.0 / rho;
    assert k * rho == 1.0;
    assert v * k * rho == v * (k * rho);
    FindsRow(v, 7);
    assert c.BaseGain() == k && Lux(c, r) == v;
    var row := ScaledRow(7, k);
    assert TABLE[7] == Row(Fin(4600.0), 2000.0, Fin(5900.0));
    assert row.min == 2000.0 / k == 2000.0 * rho by { assert 2000.0 * rho * k == 2000.0 * (k * rho); }
    assert row.max.v == 5900.0 / k == 5900.0 * rho by { assert 5900.0 * rho * k == 5900.0 * (k * rho); }
  }

  /** A refresh leaves what AfterRefresh makes of the state behind the gate. */
  lemma RefreshedState(c: Config, s: State, i: Input, gamma: real -> real)
    requires c.Usable() && Refreshes(c, s, i, gamma)
    ensures Process(c, s, i, gamma).0 == AfterRefresh(c, AfterGate(s, i), RefreshOf(c, i, i.capture.value, gamma))
  {
    hide RefreshOf, AfterRefresh, AfterGate, Triggers, Passes, Accepts;
  }

  lemma NearRefreshSettles(c: Config, s: State, i: Input, gamma: real -> real, rho: real)
    requires RefreshesAt(c, s, i, gamma, rho) && 46.0 / 59.0 <= rho <= 9.0 / 8.0
    ensures LeavesSettled(c, s, i, gamma)
  {
    NearRatio(rho, c.inverseGain[0]);
    RefreshedState(c, s, i, gamma);
    StableNearBaseGain(c, AfterGate(s, i), i, i.capture.value, gamma);
    hide Triggers, AfterRefresh, RefreshOf, Lux, Unsettled, Process, AfterGate;
  }

  lemma FarRefreshStrays(rho: real) returns (c: Config, i: Input, gamma: real -> real)
    requires rho > 0.0 && !(46.0 / 59.0 <= rho <= 9.0 / 8.0)
    ensures RefreshesAt(c, INIT, i, gamma, rho) && !LeavesSettled(c, INIT, i, gamma)
    ensures Lux(c, RefreshOf(c, i, i.capture.value, gamma)) > 7.0
  {
    c, gamma := DeviceAt(rho), x => x;
    i := DeviceRefresh(rho, gamma);
    DeviceStrays(rho, AfterGate(INIT, i));
    hide Triggers, AfterRefresh, RefreshOf, Lux, Process, AfterGate, RefreshesAt;
  }

  /** Which gain steps the table suits, exactly: from 46/59 to 9/8 of the base gain. At every other
      ratio some device completes a refresh whose own reading lies outside its window. */
  lemma StableExactly(rho: real)
    requires rho > 0.0
    ensures StableAt(rho) <==> 46.0 / 59.0 <= rho <= 9.0 / 8.0
  {
    hide LeavesSettled;
    if 46.0 / 59.0 <= rho <= 9.0 / 8.0 {
      forall c, s, i, gamma | RefreshesAt(c, s, i, gamma, rho)
        ensures LeavesSettled(c, s, i, gamma)
      {
        NearRefreshSettles(c, s, i, gamma, rho);
      }
    } else {
      var c, i, gamma := FarRefreshStrays(rho);
      assert !StableAt(rho);
    }
  }

  lemma FindsRow(value: real, i: nat)
    requires i < |TABLE| && AtMost(value, TABLE[i].middle)
    requires i > 0 ==> !AtMost(value, TABLE[i - 1].middle)
    ensures RowFor(value, 0) == i
  {
    var k := RowFor(value, 0);
    if k < i - 1 {
      MiddlesIncrease(k, i - 1);
    }
  }

  lemma MiddlesIncrease(a: nat, b: nat)
    requires a < |TABLE| && b < |TABLE| && a < b
    ensures TABLE[a].middle.Fin? && (TABLE[b].middle.Fin? ==> TABLE[a].middle.v < TABLE[b].middle.v)
  {
  }
}
