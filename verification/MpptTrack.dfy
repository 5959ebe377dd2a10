/** TRACK: perturb-and-observe converges to the maximum-power duty and stays there. */
module MpptTrack {
  import opened Mppt
  import opened MpptSafety

  /** Power as a function of duty: strictly rising up to `peak`, strictly falling after it,
      and always worth harvesting. */
  ghost predicate Unimodal(power: int -> int, peak: int) {
    && MIN_DUTY_CYCLE <= peak <= MAX_DUTY_CYCLE
    && (forall d :: MIN_DUTY_CYCLE <= d <= MAX_DUTY_CYCLE ==> power(d) >= MIN_MW_HARVESTING_STOP)
    && (forall d, e :: MIN_DUTY_CYCLE <= d < e <= peak ==> power(d) < power(e))
    && (forall d, e :: peak <= d < e <= MAX_DUTY_CYCLE ==> power(d) > power(e))
  }

  /** The reading allows charging, and a window completed by it measures `power` at the
      present duty. */
  ghost predicate Steady(c: Controller, s: Sample, power: int -> int) {
    var a := Average(Pushed(c.window, s));
    && ChargingOk(a.ntcDc, s.batteryMv)
    && (|Pushed(c.window, s)| == WINDOW_LENGTH ==> a.Power() == power(c.duty))
  }

  function Distance(d: int, peak: int): nat {
    if d <= peak then peak - d else d - peak
  }

  /** The saved power was measured at the duty the last move came from. */
  ghost predicate Consistent(c: Controller, power: int -> int) {
    && MIN_DUTY_CYCLE <= c.duty - c.delta <= MAX_DUTY_CYCLE
    && c.prevMw == power(c.duty - c.delta)
  }

  ghost predicate Tracking(c: Controller) {
    c.mode.Track? && Safe(c)
  }

  /** Windows that may still pass before the duty reaches the peak: the distance, plus two
      when an unrelated saved power may first send the duty the wrong way. */
  ghost function WindowsLeft(c: Controller, power: int -> int, peak: int): nat {
    var d := Distance(c.duty, peak);
    if d == 0 || Consistent(c, power) || c.duty == MIN_DUTY_CYCLE || c.duty == MAX_DUTY_CYCLE
    then d else d + 2
  }

  ghost function SamplesLeft(c: Controller, power: int -> int, peak: int): int {
    WindowsLeft(c, power, peak) * WINDOW_LENGTH - |c.window|
  }

  /** The duty is at the peak, or one step away and about to return. */
  ghost predicate Near(c: Controller, power: int -> int, peak: int) {
    c.duty == peak || (Distance(c.duty, peak) == 1 && Consistent(c, power))
  }

  /** A steady reading that does not complete the window changes only the window. */
  lemma SteadyWait(c: Controller, s: Sample, power: int -> int)
    requires Tracking(c) && Steady(c, s, power) && |c.window| < WINDOW_LENGTH - 1
    ensures var r := Step(c, s);
            && Tracking(r) && r.window == c.window + [s]
            && r.duty == c.duty && r.delta == c.delta && r.prevMw == c.prevMw
  {
  }

  lemma SteadyMove(c: Controller, s: Sample, power: int -> int, peak: int)
    requires Tracking(c) && Unimodal(power, peak) && Steady(c, s, power)
    requires |c.window| == WINDOW_LENGTH - 1
    ensures var r := Step(c, s);
            && Tracking(r) && r.window == []
            && r.delta == TrackDelta(c.duty, c.delta, c.prevMw, power(c.duty))
            && r.duty == c.duty + r.delta
            && r.prevMw == power(c.duty)
            && Consistent(r, power)
  {
  }

  /** A consistent move away from the peak is impossible. */
  lemma ConsistentMovesTowardPeak(c: Controller, power: int -> int, peak: int)
    requires Tracking(c) && Unimodal(power, peak) && c.duty != peak
    requires Consistent(c, power) || c.duty == MIN_DUTY_CYCLE || c.duty == MAX_DUTY_CYCLE
    ensures TrackDelta(c.duty, c.delta, c.prevMw, power(c.duty)) == (if c.duty < peak then 1 else -1)
  {
  }

  lemma SteadyStep(c: Controller, s: Sample, power: int -> int, peak: int)
    requires Tracking(c) && Unimodal(power, peak) && Steady(c, s, power)
    ensures var r := Step(c, s);
            && Tracking(r)
            && (Near(c, power, peak) ==> Near(r, power, peak))
            && (c.duty != peak ==> SamplesLeft(r, power, peak) <= SamplesLeft(c, power, peak) - 1)
            && (Near(c, power, peak) && r.window == [] && c.duty != peak ==> r.duty == peak)
  {
    if |c.window| < WINDOW_LENGTH - 1 {
      SteadyWait(c, s, power);
    } else {
      SteadyMove(c, s, power, peak);
      if c.duty != peak {
        if Consistent(c, power) || c.duty == MIN_DUTY_CYCLE || c.duty == MAX_DUTY_CYCLE {
          ConsistentMovesTowardPeak(c, power, peak);
        }
      }
    }
  }

  ghost predicate SteadyAt(cs: seq<Controller>, ss: seq<Sample>, power: int -> int, i: nat)
    requires i < |ss| && |cs| == |ss| + 1
  {
    Steady(cs[i], ss[i], power)
  }

  ghost predicate SteadyRun(cs: seq<Controller>, ss: seq<Sample>, power: int -> int) {
    && IsRun(cs, ss)
    && Tracking(cs[0])
    && forall i :: 0 <= i < |ss| ==> SteadyAt(cs, ss, power, i)
  }

  lemma {:induction false} StaysTracking(cs: seq<Controller>, ss: seq<Sample>, power: int -> int,
                                         peak: int, i: nat)
    requires SteadyRun(cs, ss, power) && Unimodal(power, peak) && i < |cs|
    ensures Tracking(cs[i])
  {
    if i > 0 {
      StaysTracking(cs, ss, power, peak, i - 1);
      assert StepsAt(cs, ss, i - 1);
      assert SteadyAt(cs, ss, power, i - 1);
      SteadyStep(cs[i - 1], ss[i - 1], power, peak);
    }
  }

  lemma {:induction false} StaysNear(cs: seq<Controller>, ss: seq<Sample>, power: int -> int,
                                     peak: int, i: nat, j: nat)
    requires SteadyRun(cs, ss, power) && Unimodal(power, peak) && i <= j < |cs|
    requires Near(cs[i], power, peak)
    ensures Near(cs[j], power, peak)
  {
    if i < j {
      StaysNear(cs, ss, power, peak, i, j - 1);
      StaysTracking(cs, ss, power, peak, j - 1);
      assert StepsAt(cs, ss, j - 1);
      assert SteadyAt(cs, ss, power, j - 1);
      SteadyStep(cs[j - 1], ss[j - 1], power, peak);
    }
  }

  lemma {:induction false} ReachesPeak(cs: seq<Controller>, ss: seq<Sample>, power: int -> int,
                                       peak: int, i: nat)
    returns (hit: nat)
    requires SteadyRun(cs, ss, power) && Unimodal(power, peak) && i < |cs|
    requires i + SamplesLeft(cs[i], power, peak) < |cs|
    ensures i <= hit < |cs| && cs[hit].duty == peak
    ensures hit == i || hit <= i + SamplesLeft(cs[i], power, peak)
    decreases |cs| - i
  {
    StaysTracking(cs, ss, power, peak, i);
    if cs[i].duty == peak {
      hit := i;
    } else {
      assert SamplesLeft(cs[i], power, peak) >= 1;
      assert StepsAt(cs, ss, i);
      assert SteadyAt(cs, ss, power, i);
      SteadyStep(cs[i], ss[i], power, peak);
      hit := ReachesPeak(cs, ss, power, peak, i + 1);
    }
  }

  lemma SamplesLeftBounds(c: Controller, power: int -> int, peak: int)
    requires Tracking(c) && Unimodal(power, peak)
    ensures SamplesLeft(c, power, peak) <= 254 * WINDOW_LENGTH
    ensures Near(c, power, peak) ==> SamplesLeft(c, power, peak) <= WINDOW_LENGTH
  {
    assert Distance(c.duty, peak) <= 253;
    if c.duty != MIN_DUTY_CYCLE && c.duty != MAX_DUTY_CYCLE {
      assert Distance(c.duty, peak) <= 252;
    }
  }

  /** The duty is on the peak at some sample of the window's length that starts at `j`. */
  ghost predicate OnPeakSoon(cs: seq<Controller>, j: int, peak: int) {
    exists k :: 0 <= j <= k <= j + WINDOW_LENGTH && k < |cs| && cs[k].duty == peak
  }

  lemma RevisitsPeak(cs: seq<Controller>, ss: seq<Sample>, power: int -> int, peak: int, j: nat)
    requires SteadyRun(cs, ss, power) && Unimodal(power, peak)
    requires j + WINDOW_LENGTH < |cs| && Near(cs[j], power, peak)
    ensures OnPeakSoon(cs, j, peak)
  {
    StaysTracking(cs, ss, power, peak, j);
    SamplesLeftBounds(cs[j], power, peak);
    var k := ReachesPeak(cs, ss, power, peak, j);
    assert cs[k].duty == peak;
  }

  /** If the power measured at each duty is a fixed unimodal function, then from any TRACK
      state (any saved power, either direction, a partly filled window) the duty reaches the
      maximum-power duty within 254 windows, is never more than one away from it afterwards,
      and is back on it at least once in every window's length of samples. */
  lemma TrackConverges(cs: seq<Controller>, ss: seq<Sample>, power: int -> int, peak: int)
    returns (hit: nat)
    requires SteadyRun(cs, ss, power) && Unimodal(power, peak)
    requires |ss| >= 254 * WINDOW_LENGTH
    ensures hit <= 254 * WINDOW_LENGTH && cs[hit].duty == peak
    ensures forall j :: hit <= j < |cs| ==> Distance(cs[j].duty, peak) <= 1
    ensures forall j :: hit <= j < |cs| - WINDOW_LENGTH ==> OnPeakSoon(cs, j, peak)
  {
    SamplesLeftBounds(cs[0], power, peak);
    hit := ReachesPeak(cs, ss, power, peak, 0);
    forall j | hit <= j < |cs| ensures Near(cs[j], power, peak) {
      StaysNear(cs, ss, power, peak, hit, j);
    }
    forall j | hit <= j < |cs| - WINDOW_LENGTH ensures OnPeakSoon(cs, j, peak) {
      RevisitsPeak(cs, ss, power, peak, j);
    }
  }

  /** A reading taken in steady light at room temperature. */
  ghost function SteadyReading(power: int -> int, duty: int): Sample {
    Sample(1000, 0, power(duty), 250)
  }

  lemma SteadyWindow(w: seq<Sample>, s: Sample)
    requires w != [] && forall x :: x in w ==> x == s
    ensures Average(w) == s
  {
    AverageWithin(w, s, s);
  }

  /** The hypotheses of `TrackConverges` can be met: from any TRACK state that starts a window
      and for every such power function there are steady runs of every length. */
  lemma {:induction false} SteadyRunsExist(c: Controller, power: int -> int, peak: int, n: nat)
    returns (cs: seq<Controller>, ss: seq<Sample>)
    requires Tracking(c) && c.window == [] && Unimodal(power, peak)
    ensures SteadyRun(cs, ss, power) && cs[0] == c && |ss| == n
    ensures FilledSteadily(cs[n], power)
  {
    if n == 0 {
      cs, ss := [c], [];
    } else {
      var ds, ts := SteadyRunsExist(c, power, peak, n - 1);
      StaysTracking(ds, ts, power, peak, n - 1);
      var d := ds[n - 1];
      var s := SteadyReading(power, d.duty);
      SteadyReadingIsSteady(d, power);
      SteadyReadingsGoOn(d, power, peak);
      cs, ss := ds + [Step(d, s)], ts + [s];
      hide Step, Steady, Tracking, Unimodal, SteadyReading;
      forall i | 0 <= i < n ensures StepsAt(cs, ss, i) && SteadyAt(cs, ss, power, i) {
        assert i < n - 1 ==> StepsAt(ds, ts, i) && SteadyAt(ds, ts, power, i);
      }
    }
  }

  ghost predicate FilledSteadily(c: Controller, power: int -> int) {
    forall x :: x in c.window ==> x == SteadyReading(power, c.duty)
  }

  lemma SteadyReadingsGoOn(c: Controller, power: int -> int, peak: int)
    requires Tracking(c) && Unimodal(power, peak) && FilledSteadily(c, power)
    ensures FilledSteadily(Step(c, SteadyReading(power, c.duty)), power)
  {
    var s := SteadyReading(power, c.duty);
    SteadyReadingIsSteady(c, power);
    hide Step, Steady;
    if |c.window| < WINDOW_LENGTH - 1 {
      SteadyWait(c, s, power);
    } else {
      SteadyMove(c, s, power, peak);
    }
  }

  lemma SteadyReadingIsSteady(c: Controller, power: int -> int)
    requires Tracking(c) && FilledSteadily(c, power)
    ensures Steady(c, SteadyReading(power, c.duty), power)
  {
    DrivingReadingIsSteady(c, power);
  }

  lemma DrivingReadingIsSteady(c: Controller, power: int -> int)
    requires |c.window| < WINDOW_LENGTH && FilledSteadily(c, power)
    ensures Steady(c, SteadyReading(power, c.duty), power)
  {
    var s := SteadyReading(power, c.duty);
    hide Sum;
    SteadyWindow(Pushed(c.window, s), s);
  }
}
