/** What each sample decides, stated on the sums of the live readings: when the converter is
    turned on, when it is turned off, and what happens while a window fills. */
module MpptDecisions {
  import opened CArithmetic
  import opened Mppt
  import opened MpptSafety
  import opened MpptConvergence

  /** The window holds the newest readings, at most fifty of them, in order. */
  lemma WindowIsNewest(w: seq<Sample>, s: Sample)
    requires |w| <= 50
    ensures var h := w + [s];
            Pushed(w, s) == if |h| <= 50 then h else h[1..]
  {
  }

  lemma PowerIsTruncated(a: Sample)
    ensures IsTruncated(a.pvMv * a.pvMa, 1000, a.Power())
  {
    TruncDivIsTruncated(a.pvMv * a.pvMa, 1000);
  }

  // Thresholds on averages, as thresholds on sums.

  lemma TruncatedAbove(t: int, n: int, q: int, k: nat)
    requires n > 0 && IsTruncated(t, n, q)
    ensures q > k <==> t >= (k + 1) * n
  {
    if q > k {
      Multiply(k + 1, q, n);
    } else if t >= 0 {
      Multiply(q + 1, k + 1, n);
    } else {
      Multiply(0, k + 1, n);
    }
  }

  lemma TruncatedBelowZero(t: int, n: int, q: int)
    requires n > 0 && IsTruncated(t, n, q)
    ensures q < 0 <==> t <= -n
  {
    if q < 0 {
      Multiply(q, -1, n);
    } else if t < 0 {
      assert q == 0;
    }
  }

  lemma Multiply(x: int, y: int, n: int)
    requires x <= y && n > 0
    ensures x * n <= y * n
  {
  }

  /** The battery reading and the temperature sum allow charging. */
  predicate MayCharge(batteryMv: int, temperatureSum: int, n: int) {
    batteryMv <= 3600 && -n < temperatureSum < 4501 * n
  }

  lemma ChargingBySums(w: seq<Sample>, batteryMv: int)
    requires w != []
    ensures ChargingOk(Average(w).ntcDc, batteryMv) <==> MayCharge(batteryMv, Sum(w).ntcDc, |w|)
  {
    AverageIsMean(w);
    hide Average, Sum;
    TruncatedAbove(Sum(w).ntcDc, |w|, Average(w).ntcDc, 4500);
    TruncatedBelowZero(Sum(w).ntcDc, |w|, Average(w).ntcDc);
  }

  // OFF.

  /** While the first window fills, nothing but the window and the averages changes. */
  lemma OffWaits(c: Controller, s: Sample)
    requires c.mode.Off? && |c.window| < 49
    ensures var w := c.window + [s];
            Step(c, s) == c.(window := w, average := Average(w))
  {
    hide Average;
  }

  /** The converter is turned on exactly on a full window of fifty readings whose panel
      voltages sum to at least 50 times 1201 mV, whose temperatures sum to more than -50 and
      less than 50 times 4501 tenths of a degree, and whose newest battery reading is at most
      3600 mV; otherwise it stays off. */
  lemma TurnsOnExactly(c: Controller, s: Sample)
    requires Safe(c) && c.mode.Off?
    ensures var w := Pushed(c.window, s);
            && (Step(c, s).mode.Off? || ScanEntry(Step(c, s)))
            && (Step(c, s).mode.Scan?
                <==> |w| == 50 && Sum(w).pvMv >= 50 * 1201 && MayCharge(s.batteryMv, Sum(w).ntcDc, 50))
  {
    var w := Pushed(c.window, s);
    ChargingBySums(w, s.batteryMv);
    AverageIsMean(w);
    TruncatedAbove(Sum(w).pvMv, |w|, Average(w).pvMv, 1200);
    if !Step(c, s).mode.Off? {
      TurningOnEntersScan(c, s);
    }
    hide Average, Sum, Safe, ScanEntry;
  }

  /** In the dark it stays off: no panel reading above 1200 mV. */
  lemma StaysOffInTheDark(c: Controller, s: Sample)
    requires Safe(c) && c.mode.Off?
    requires forall x :: x in Pushed(c.window, s) ==> x.pvMv <= 1200
    ensures Step(c, s).mode.Off?
  {
    var w := Pushed(c.window, s);
    TurnsOnExactly(c, s);
    PanelSumBounds(w);
    hide Step;
  }

  /** In light it is turned on: fifty panel readings above 1200 mV, temperatures in range and a
      battery that is not full. */
  lemma TurnsOnInLight(c: Controller, s: Sample)
    requires Safe(c) && c.mode.Off? && |Pushed(c.window, s)| == 50
    requires forall x :: x in Pushed(c.window, s) ==> x.pvMv > 1200 && 0 <= x.ntcDc <= 4500
    requires s.batteryMv <= 3600
    ensures ScanEntry(Step(c, s))
  {
    var w := Pushed(c.window, s);
    TurnsOnExactly(c, s);
    PanelSumBounds(w);
    TemperatureSumBounds(w);
    hide Step;
  }

  lemma {:induction false} PanelSumBounds(w: seq<Sample>)
    ensures (forall x :: x in w ==> x.pvMv <= 1200) ==> Sum(w).pvMv <= 1200 * |w|
    ensures (forall x :: x in w ==> x.pvMv > 1200) ==> Sum(w).pvMv >= 1201 * |w|
  {
    if w != [] {
      PanelSumBounds(w[..|w| - 1]);
    }
  }

  lemma {:induction false} TemperatureSumBounds(w: seq<Sample>)
    requires forall x :: x in w ==> 0 <= x.ntcDc <= 4500
    ensures 0 <= Sum(w).ntcDc <= 4500 * |w|
  {
    if w != [] {
      TemperatureSumBounds(w[..|w| - 1]);
    }
  }

  // SCAN and TRACK.

  /** The converter is turned off exactly by a battery reading above 3600 mV, by a temperature
      sum out of range, or, in TRACK and on a full window, by a power below 25 mW. */
  lemma TurnsOffExactly(c: Controller, s: Sample)
    requires Safe(c) && !c.mode.Off?
    ensures var w := Pushed(c.window, s);
            Step(c, s).mode.Off?
            <==> || !MayCharge(s.batteryMv, Sum(w).ntcDc, |w|)
                 || (c.mode.Track? && |w| == 50 && Average(w).pvMv * Average(w).pvMa < 25000)
  {
    var w := Pushed(c.window, s);
    ChargingBySums(w, s.batteryMv);
    PowerIsTruncated(Average(w));
    TruncatedAbove(Average(w).pvMv * Average(w).pvMa, 1000, Average(w).Power(), 24);
    hide Average, Sum, Sample.Power, IsTruncated;
  }

  /** Turned off, the PWM word is 256 and the current sensor disabled; the window stays. */
  lemma TurnedOffState(c: Controller, s: Sample)
    requires Safe(c) && !c.mode.Off? && Step(c, s).mode.Off?
    ensures var r, w := Step(c, s), c.window + [s];
            && r.dutyWord == 256 && !r.pvCurrentEnabled && r.window == w && r.average == Average(w)
            && r.newMw == (if c.mode.Track? && |w| == 50 && ChargingOk(Average(w).ntcDc, s.batteryMv)
                           then Average(w).Power() else c.newMw)
  {
    hide Average, Sum, Sample.Power, ChargingOk;
  }

  /** While a window fills, SCAN and TRACK leave everything but the window and the averages
      as it was, unless they turn off. */
  lemma DrivingWaits(c: Controller, s: Sample)
    requires Safe(c) && !c.mode.Off? && |c.window| < 49 && !Step(c, s).mode.Off?
    ensures var w := c.window + [s];
            Step(c, s) == c.(window := w, average := Average(w))
  {
    hide Average, ChargingOk;
  }

  /** A full window in SCAN: 5 up as long as the power does not fall, at most to 254 and then
      to TRACK; 5 back, at least to 1, and to TRACK as soon as it falls. */
  lemma ScanDecision(c: Controller, s: Sample)
    requires Safe(c) && c.mode.Scan? && |c.window| == 49 && !Step(c, s).mode.Off?
    ensures var r, mw := Step(c, s), Average(c.window + [s]).Power();
            && r.window == [] && r.prevMw == mw && r.newMw == mw && r.delta == c.delta
            && r.dutyWord == 256 - r.duty && r.pvCurrentEnabled
            && if mw < c.prevMw
               then r.mode.Track? && r.duty == (if c.duty > 5 then c.duty - 5 else 1)
               else r.duty == (if c.duty < 250 then c.duty + 5 else 254)
                    && (r.mode.Track? <==> r.duty == 254)
  {
    hide Average, Sample.Power, ChargingOk;
  }

  /** A full window in TRACK: one step on in the same direction while the power does not fall,
      one step back when it does, and always away from duty 1 and duty 254. */
  lemma TrackDecision(c: Controller, s: Sample)
    requires Safe(c) && c.mode.Track? && |c.window| == 49 && !Step(c, s).mode.Off?
    ensures var r, mw := Step(c, s), Average(c.window + [s]).Power();
            && r.mode.Track? && r.window == [] && r.prevMw == mw && r.newMw == mw
            && r.dutyWord == 256 - r.duty && r.pvCurrentEnabled && r.duty == c.duty + r.delta
            && (c.duty == 1 ==> r.duty == 2)
            && (c.duty == 254 ==> r.duty == 253)
            && (1 < c.duty < 254 ==> r.delta == (if mw < c.prevMw then -c.delta else c.delta))
  {
    hide Average, Sample.Power, ChargingOk;
  }
}
