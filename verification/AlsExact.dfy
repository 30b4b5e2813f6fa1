/** The quantities of ambient-light correction in plain arithmetic: what a refresh computes from the raw
    reading, the screen and the configuration, with every quotient multiplied out. */
module AlsExact {
  import opened Common
  import opened AlsSpec

  /** A list of four coefficients is a cubic, its first one the leading one. */
  lemma CubicExactly(a: real, b: real, c: real, d: real, x: real)
    ensures Polynomial([a, b, c, d], x) == a * (x * x * x) + b * (x * x) + c * x + d
  {
    CubicTerms(a, b, c, d, x);
    Powers(x);
    hide Polynomial, Power;
  }

  lemma CubicTerms(a: real, b: real, c: real, d: real, x: real)
    ensures Polynomial([a, b, c, d], x) == a * Power(x, 3) + (b * Power(x, 2) + (c * Power(x, 1) + d * Power(x, 0)))
  {
    assert [a, b, c, d][1..] == [b, c, d] && [b, c, d][1..] == [c, d] && [c, d][1..] == [d] && [d][1..] == [];
    assert Polynomial([d], x) == d * Power(x, 0);
    assert Polynomial([c, d], x) == c * Power(x, 1) + Polynomial([d], x);
    assert Polynomial([b, c, d], x) == b * Power(x, 2) + Polynomial([c, d], x);
    hide Power;
  }

  lemma Powers(x: real)
    ensures Power(x, 0) == 1.0 && Power(x, 1) == x && Power(x, 2) == x * x && Power(x, 3) == x * x * x
  {
    assert Power(x, 0) == 1.0;
    assert Power(x, 1) == x * Power(x, 0);
    assert Power(x, 2) == x * Power(x, 1);
    assert Power(x, 3) == x * Power(x, 2);
    hide Power;
  }

  /** The light of a colour counts only as far as it is positive. */
  function Positive(x: real): real {
    if x > 0.0 then x else 0.0
  }

  /** The screen's light: of the three colours what is positive, less that of the white mix. */
  lemma EstimateExactly(c: Config, s: Rgb)
    ensures Luma(c, s) == s.r * c.weights[0] + s.g * c.weights[1] + s.b * c.weights[2]
    ensures Estimate(c, s) == Positive(Polynomial(c.poly[0], s.r) * c.postmul[0])
                            + Positive(Polynomial(c.poly[1], s.g) * c.postmul[1])
                            + Positive(Polynomial(c.poly[2], s.b) * c.postmul[2])
                            - Polynomial(c.poly[3], Luma(c, s)) * c.postmul[3]
  {
    LumaExactly(c, s);
    hide Polynomial, Luma;
    ChannelsExactly(c, s);
    PositiveIsMax(ChannelLight(c, s, 0));
    PositiveIsMax(ChannelLight(c, s, 1));
    PositiveIsMax(ChannelLight(c, s, 2));
    hide ChannelLight, Positive, MaxReal;
  }

  lemma PositiveIsMax(x: real)
    ensures MaxReal(x, 0.0) == Positive(x)
  {
  }

  lemma ChannelsExactly(c: Config, s: Rgb)
    ensures ChannelLight(c, s, 0) == Polynomial(c.poly[0], s.r) * c.postmul[0]
    ensures ChannelLight(c, s, 1) == Polynomial(c.poly[1], s.g) * c.postmul[1]
    ensures ChannelLight(c, s, 2) == Polynomial(c.poly[2], s.b) * c.postmul[2]
    ensures ChannelLight(c, s, 3) == Polynomial(c.poly[3], Luma(c, s)) * c.postmul[3]
  {
    hide Polynomial, Luma;
  }

  lemma LumaExactly(c: Config, s: Rgb)
    ensures Luma(c, s) == s.r * c.weights[0] + s.g * c.weights[1] + s.b * c.weights[2]
  {
  }

  /** A raw value in lux. */
  lemma CalibratedExactly(c: Config, x: real, gain: real)
    ensures Calibrated(c, x, gain) == x * c.calibGain * gain
    ensures c.BaseGain() == c.calibGain * c.inverseGain[0]
  {
  }

  /** Full white is the white maximum at this brightness, the grey light is gamma's share of it, and the
      correction is the estimate at this brightness, kept from exceeding full white first and from
      falling below the grey light then. */
  lemma CorrectionExactly(c: Config, s: Rgb, brightness: real, gamma: real -> real)
    requires c.maxBrightness > 0.0
    ensures FullWhite(c, brightness) * c.maxBrightness == c.maxLux[3] * brightness
    ensures GammaFloor(c, s, brightness, gamma) == gamma(Luma(c, s) / 255.0) * FullWhite(c, brightness)
    ensures var e, full, grey := Estimate(c, s) * (brightness / c.maxBrightness), FullWhite(c, brightness),
                                 GammaFloor(c, s, brightness, gamma);
            && (e >= full ==> Correction(c, s, brightness, gamma) == if full >= grey then full else grey)
            && (grey <= e <= full ==> Correction(c, s, brightness, gamma) == e)
            && (e <= full && e <= grey ==> Correction(c, s, brightness, gamma) == grey)
  {
    FullWhiteExactly(c, brightness);
    hide FullWhite, Estimate, Luma;
  }

  lemma FullWhiteExactly(c: Config, brightness: real)
    requires c.maxBrightness > 0.0
    ensures FullWhite(c, brightness) * c.maxBrightness == c.maxLux[3] * brightness
  {
  }

  /** The corrected value per second reading, or its inverse on high-bit-rate devices, exceeds a gain
      point; a second reading of 0 exceeds all. */
  predicate Reaches(c: Config, corrected: real, reading2: real, point: real) {
    if c.hbr then reading2 * 1000.0 > point * corrected
    else if reading2 == 0.0 then true
    else if reading2 > 0.0 then corrected > point * reading2
    else corrected < point * reading2
  }

  lemma ReachesExactly(c: Config, corrected: real, reading2: real, point: real)
    requires corrected > 0.0
    ensures Exceeds(GainEstimate(c, corrected, reading2), point) <==> Reaches(c, corrected, reading2, point)
  {
    if c.hbr {
      QuotientExceeds(reading2 * 1000.0, corrected, point);
    } else if reading2 > 0.0 {
      QuotientExceeds(corrected, reading2, point);
    } else if reading2 < 0.0 {
      QuotientExceeds(-corrected, -reading2, point);
      assert corrected / reading2 == -corrected / -reading2;
    }
  }

  lemma QuotientExceeds(a: real, b: real, point: real)
    requires b > 0.0
    ensures a / b > point <==> a > point * b
  {
    var q := a / b;
    assert q * b == a;
    if q > point { assert (q - point) * b > 0.0; } else { assert (point - q) * b >= 0.0; }
  }

  /** The gain, exactly: up to 800 at the base sensor gain it is the base gain; above, it is that of the
      last of the four gain points reached, the base gain if none is. */
  lemma GainExactly(c: Config, corrected: real, reading2: real)
    requires c.Usable()
    ensures Times(corrected, c.inverseGain[0]) <= 800.0 ==> AgcGain(c, corrected, reading2) == c.inverseGain[0]
    ensures Times(corrected, c.inverseGain[0]) > 800.0 ==>
              && ((forall k :: 0 <= k < 4 ==> !Reaches(c, corrected, reading2, c.gaincalPoints[k])) ==>
                    AgcGain(c, corrected, reading2) == c.inverseGain[0])
              && forall k | 0 <= k < 4 && Reaches(c, corrected, reading2, c.gaincalPoints[k]) ::
                   (forall m :: k < m < 4 ==> !Reaches(c, corrected, reading2, c.gaincalPoints[m])) ==>
                     AgcGain(c, corrected, reading2) == c.inverseGain[k]
  {
    ThresholdPositive(c);
    ThresholdExactly(c, corrected);
    if corrected > c.agcThreshold {
      var estimate := GainEstimate(c, corrected, reading2);
      forall k | 0 <= k < 4
        ensures Exceeds(estimate, c.gaincalPoints[k]) <==> Reaches(c, corrected, reading2, c.gaincalPoints[k])
      {
        ReachesExactly(c, corrected, reading2, c.gaincalPoints[k]);
      }
      hide Exceeds, Reaches, GainEstimate, Times;
    }
  }

  lemma ThresholdPositive(c: Config)
    requires c.Usable()
    ensures c.agcThreshold > 0.0
  {
  }

  lemma ThresholdExactly(c: Config, corrected: real)
    requires c.Usable()
    ensures c.agcThreshold < corrected <==> 800.0 < Times(corrected, c.inverseGain[0])
  {
    QuotientBelowPoint(800.0, c.inverseGain[0], c.agcThreshold, corrected);
    hide Times;
  }

  lemma QuotientBelowPoint(a: real, b: real, q: real, point: real)
    requires b > 0.0 && q == a / b
    ensures q < point <==> a < Times(point, b)
  {
    assert q * b == a;
    assert (point - q) * b == point * b - a;
  }

  /** A refresh, exactly: the bias comes off readings above it, the correction comes off what is left
      down to 0, and the value is that in lux, less 14, down to 0. */
  lemma RefreshExactly(c: Config, i: Input, shot: Rgb, gamma: real -> real)
    requires c.Usable()
    ensures var r := RefreshOf(c, i, shot, gamma);
            var x := if i.scalar > c.bias then i.scalar - c.bias else i.scalar;
            var left := x - Correction(c, shot, i.brightness, gamma);
            var lux := Calibrated(c, if left > 0.0 then left else 0.0, r.gain);
            && r.correction == Correction(c, shot, i.brightness, gamma)
            && r.fullWhite == FullWhite(c, i.brightness)
            && r.corrected == (if left > 0.0 then left else 0.0)
            && r.gain == AgcGain(c, r.corrected, i.reading2)
            && Lux(c, r) == lux == r.corrected * c.calibGain * r.gain
            && RefreshValue(c, r) == (if lux > 14.0 then lux - 14.0 else 0.0)
  {
    CalibratedExactly(c, RefreshOf(c, i, shot, gamma).corrected, RefreshOf(c, i, shot, gamma).gain);
    hide Correction, FullWhite, AgcGain, Calibrated;
  }

  /** When an event completes a refresh, exactly: it passes the gate, asks for a capture, gets it, and
      the correction is at most 1.35 times the reading, or the reading is below 10000 lux at the new
      gain, or the refresh was demanded. */
  lemma RefreshesExactly(c: Config, s: State, i: Input, gamma: real -> real)
    requires c.Usable()
    ensures var x := if i.scalar > c.bias then i.scalar - c.bias else i.scalar;
            Refreshes(c, s, i, gamma) <==>
              && Passes(s, i.now) && Triggers(c, AfterGate(s, i), x) && i.capture.Some?
              && var r := RefreshOf(c, i, i.capture.value, gamma);
                 (100.0 * r.correction <= 135.0 * x || Calibrated(c, x, r.gain) < 10000.0 || s.force || Demands(s, i))
  {
    hide RefreshOf, Triggers, Calibrated, Passes, Demands;
  }

  /** A reading lies outside the window of a value: below the start of the value's row, or, with full
      white taken off, above its end, both at the base gain; the window of the first row starts at -1. */
  predicate OutsideWindow(c: Config, lux: real, fullWhite: real, x: real) {
    var row := RowFor(lux, 0);
    || (if row == 0 then x < -1.0 else x * c.BaseGain() < TABLE[row].min)
    || (TABLE[row].max.Fin? && (x - fullWhite) * c.BaseGain() > TABLE[row].max.v)
  }

  lemma QuotientBelow(x: real, gain: real, bound: real)
    requires gain > 0.0
    ensures x < bound / gain <==> x * gain < bound
    ensures x <= bound / gain <==> x * gain <= bound
  {
    var q := bound / gain;
    assert q * gain == bound;
    if x < q { assert (q - x) * gain > 0.0; } else if x > q { assert (x - q) * gain > 0.0; }
  }

  lemma RowExactly(i: nat, gain: real, fullWhite: real, x: real)
    requires i < |TABLE| && gain > 0.0
    ensures x < ScaledRow(i, gain).min <==> if i == 0 then x < -1.0 else x * gain < TABLE[i].min
    ensures AtMost(x, Plus(ScaledRow(i, gain).max, fullWhite)) <==>
            TABLE[i].max.Inf? || (x - fullWhite) * gain <= TABLE[i].max.v
  {
    QuotientBelow(x, gain, TABLE[i].min);
    if TABLE[i].max.Fin? { QuotientBelow(x - fullWhite, gain, TABLE[i].max.v); }
  }

  /** What the stored window of a refresh means for a reading. */
  lemma WindowExactly(c: Config, s: State, r: Refresh, x: real)
    requires c.Usable()
    ensures var s' := AfterRefresh(c, s, r);
            (x < s'.hystMin || !AtMost(x, s'.hystMax)) <==> OutsideWindow(c, Lux(c, r), r.fullWhite, x)
  {
    hide *;
    WindowOf(c, s, r);
    RowExactly(RowFor(Lux(c, r), 0), c.BaseGain(), r.fullWhite, x);
    OutsideIs(c, Lux(c, r), r.fullWhite, x);
  }

  lemma OutsideIs(c: Config, lux: real, fullWhite: real, x: real)
    ensures var row := RowFor(lux, 0);
            OutsideWindow(c, lux, fullWhite, x) <==>
              || (if row == 0 then x < -1.0 else x * c.BaseGain() < TABLE[row].min)
              || !(TABLE[row].max.Inf? || (x - fullWhite) * c.BaseGain() <= TABLE[row].max.v)
  {
    hide RowFor, Config.BaseGain;
  }

  lemma WindowOf(c: Config, s: State, r: Refresh)
    requires c.Usable()
    ensures c.BaseGain() > 0.0
    ensures var s', row := AfterRefresh(c, s, r), ScaledRow(RowFor(Lux(c, r), 0), c.BaseGain());
            s'.hystMin == row.min && s'.hystMax == Plus(row.max, r.fullWhite) && s'.lastGain == r.gain
  {
  }

  /** Outside the window and not in the middle of the calibrated range, from 10 to 500/7. */
  predicate Astray(c: Config, r: Refresh, x: real) {
    && OutsideWindow(c, Lux(c, r), r.fullWhite, x)
    && (Calibrated(c, x, r.gain) < 10.0 || 7.0 * Calibrated(c, x, r.gain) > 500.0)
  }

  lemma AstrayExactly(c: Config, s: State, r: Refresh, x: real)
    requires c.Usable()
    ensures var s' := AfterRefresh(c, s, r);
            Strays(x, s'.hystMin, s'.hystMax, Calibrated(c, x, s'.lastGain)) <==> Astray(c, r, x)
  {
    WindowExactly(c, s, r, x);
    hide OutsideWindow, Calibrated, ScaledRow, RowFor, Lux, AtMost;
  }
}
