/** SCAN and TRACK together: from the moment the converter is turned on, the duty goes to the
    maximum-power duty. */
module MpptConvergence {
  import opened Mppt
  import opened MpptSafety
  import opened MpptScan
  import opened MpptTrack

  /** The state in which OFF hands over to SCAN. */
  ghost predicate ScanEntry(c: Controller) {
    && Safe(c) && c.mode.Scan? && c.window == []
    && c.duty == MIN_DUTY_CYCLE && c.prevMw == 0 && c.delta == -1
  }

  lemma TurningOnEntersScan(c: Controller, s: Sample)
    requires Safe(c) && c.mode.Off? && !Step(c, s).mode.Off?
    ensures ScanEntry(Step(c, s))
  {
    SafeStep(c, s);
    hide Sum, Average, Safe;
  }

  /** SCAN has not passed the peak by more than one trial, and remembers the last power. */
  ghost predicate Ascending(c: Controller, power: int -> int, peak: int) {
    && Safe(c) && c.mode.Scan?
    && c.duty - 2 * SCAN_DUTY_INCREMENT < peak
    && (if c.duty == MIN_DUTY_CYCLE then c.prevMw == 0
        else c.prevMw == power(c.duty - SCAN_DUTY_INCREMENT))
  }

  /** Where SCAN leaves TRACK: within four of the peak, or at the top within seven. */
  ghost predicate HandedOver(c: Controller, peak: int) {
    && Tracking(c) && c.window == []
    && (Distance(c.duty, peak) <= 4 || (c.duty == MAX_DUTY_CYCLE && Distance(c.duty, peak) <= 7))
  }

  lemma ScanWaits(c: Controller, s: Sample, power: int -> int)
    requires Safe(c) && c.mode.Scan? && Steady(c, s, power) && |c.window| < WINDOW_LENGTH - 1
    ensures var r := Step(c, s);
            && r.mode.Scan? && r.duty == c.duty && r.prevMw == c.prevMw
            && r.window == c.window + [s]
  {
    hide Sum, Average, Safe;
  }

  /** A full window: the trial fell and SCAN steps back, or it did not and SCAN climbs. */
  lemma ScanDecides(c: Controller, s: Sample, power: int -> int)
    requires Safe(c) && c.mode.Scan? && Steady(c, s, power) && |c.window| == WINDOW_LENGTH - 1
    ensures var r := Step(c, s);
            && r.prevMw == power(c.duty) && r.window == []
            && if power(c.duty) < c.prevMw
               then r.mode.Track? && r.duty == Clamp(c.duty - SCAN_DUTY_INCREMENT)
               else if c.duty == 251 then r.mode.Track? && r.duty == MAX_DUTY_CYCLE
               else r.mode.Scan? && r.duty == c.duty + SCAN_DUTY_INCREMENT
  {
    hide Sum, Average;
  }

  /** Where a unimodal power fell or did not fall says on which side the peak is. */
  lemma PeakSide(power: int -> int, peak: int, d: int, e: int)
    requires Unimodal(power, peak) && MIN_DUTY_CYCLE <= d < e <= MAX_DUTY_CYCLE
    ensures power(e) < power(d) ==> peak < e
    ensures power(e) >= power(d) ==> peak > d
  {
  }

  lemma AscendingStep(c: Controller, s: Sample, power: int -> int, peak: int)
    requires Ascending(c, power, peak) && Unimodal(power, peak) && Steady(c, s, power)
    ensures Ascending(Step(c, s), power, peak) || HandedOver(Step(c, s), peak)
  {
    SafeStep(c, s);
    hide Step, Steady;
    if |c.window| < WINDOW_LENGTH - 1 {
      ScanWaits(c, s, power);
    } else {
      ScanDecides(c, s, power);
      if c.duty != MIN_DUTY_CYCLE {
        PeakSide(power, peak, c.duty - SCAN_DUTY_INCREMENT, c.duty);
      }
    }
  }

  /** A run in which every reading is steady. */
  ghost predicate SteadyReadings(cs: seq<Controller>, ss: seq<Sample>, power: int -> int) {
    IsRun(cs, ss) && forall i :: 0 <= i < |ss| ==> SteadyAt(cs, ss, power, i)
  }

  lemma {:induction false} ReachesHandover(cs: seq<Controller>, ss: seq<Sample>, power: int -> int,
                                           peak: int, i: nat)
    returns (h: nat)
    requires SteadyReadings(cs, ss, power) && Unimodal(power, peak)
    requires i < |cs| && Ascending(cs[i], power, peak)
    requires i + ScanBudget(cs[i]) < |cs|
    ensures i < h <= i + ScanBudget(cs[i]) && h < |cs| && HandedOver(cs[h], peak)
    decreases |cs| - i
  {
    BudgetIsPositive(cs[i]);
    assert StepsAt(cs, ss, i) && SteadyAt(cs, ss, power, i);
    AscendingStep(cs[i], ss[i], power, peak);
    hide Step, HandedOver;
    if HandedOver(cs[i + 1], peak) {
      h := i + 1;
    } else {
      ScanBudgetFalls(cs[i], ss[i]);
      hide ScanBudget, Ascending;
      h := ReachesHandover(cs, ss, power, peak, i + 1);
    }
  }

  lemma BudgetIsPositive(c: Controller)
    requires Safe(c) && c.mode.Scan?
    ensures 1 <= ScanBudget(c)
  {
  }

  /** From the hand-over on, the rest of a steady run is a steady TRACK run. */
  lemma RestIsSteady(cs: seq<Controller>, ss: seq<Sample>, power: int -> int, h: nat)
    requires SteadyReadings(cs, ss, power) && h < |cs| && Tracking(cs[h])
    ensures SteadyRun(cs[h..], ss[h..], power)
  {
    hide Step, Steady;
    var ds, ts := cs[h..], ss[h..];
    forall i | 0 <= i < |ts| ensures StepsAt(ds, ts, i) && SteadyAt(ds, ts, power, i) {
      assert StepsAt(cs, ss, h + i) && SteadyAt(cs, ss, power, h + i);
    }
  }

  /** Seven windows suffice from the hand-over. */
  lemma HandoverBudget(c: Controller, power: int -> int, peak: int)
    requires HandedOver(c, peak)
    ensures SamplesLeft(c, power, peak) <= 7 * WINDOW_LENGTH
  {
  }

  const SCAN_SAMPLES := 51 * WINDOW_LENGTH
  const CONVERGENCE_SAMPLES := SCAN_SAMPLES + 7 * WINDOW_LENGTH

  /** From any entry into SCAN, in steady light with a unimodal power, the duty reaches the
      maximum-power duty within 51 windows of SCAN and 7 of TRACK, and is never more than one
      away from it afterwards. Nothing is supposed of the state TRACK starts from. */
  lemma ScanAndTrackConverge(cs: seq<Controller>, ss: seq<Sample>, power: int -> int, peak: int)
    returns (hit: nat)
    requires SteadyReadings(cs, ss, power) && Unimodal(power, peak)
    requires ScanEntry(cs[0]) && |ss| >= CONVERGENCE_SAMPLES
    ensures hit <= CONVERGENCE_SAMPLES && cs[hit].mode.Track? && cs[hit].duty == peak
    ensures forall j :: hit <= j < |cs| ==> Distance(cs[j].duty, peak) <= 1
  {
    hide Step, Steady;
    var h := ReachesHandover(cs, ss, power, peak, 0);
    RestIsSteady(cs, ss, power, h);
    HandoverBudget(cs[h], power, peak);
    var ds, ts := cs[h..], ss[h..];
    var k := ReachesPeak(ds, ts, power, peak, 0);
    StaysTracking(ds, ts, power, peak, k);
    hit := h + k;
    forall j | hit <= j < |cs| ensures Distance(cs[j].duty, peak) <= 1 {
      StaysNear(ds, ts, power, peak, k, j - h);
    }
  }

  // The hypotheses can be met.

  /** A controller somewhere between the entry to SCAN and the peak, or at it. */
  ghost predicate UnderWay(c: Controller, power: int -> int, peak: int) {
    (Ascending(c, power, peak) || Tracking(c)) && FilledSteadily(c, power)
  }

  lemma UnderWayReading(c: Controller, power: int -> int, peak: int)
    requires UnderWay(c, power, peak)
    ensures Steady(c, SteadyReading(power, c.duty), power)
  {
    DrivingReadingIsSteady(c, power);
  }

  lemma UnderWayStep(c: Controller, power: int -> int, peak: int)
    requires UnderWay(c, power, peak) && Unimodal(power, peak)
    ensures UnderWay(Step(c, SteadyReading(power, c.duty)), power, peak)
  {
    var s := SteadyReading(power, c.duty);
    UnderWayReading(c, power, peak);
    if Tracking(c) {
      hide Step, Steady, Ascending;
      SteadyReadingsGoOn(c, power, peak);
      SteadyStep(c, s, power, peak);
    } else {
      hide Step, Steady, Unimodal;
      AscendingStep(c, s, power, peak);
      if |c.window| < WINDOW_LENGTH - 1 {
        ScanWaits(c, s, power);
      } else {
        ScanDecides(c, s, power);
      }
    }
  }

  /** From any entry into SCAN and for every such power function there are steady runs of every
      length. */
  lemma {:induction false} SteadyScansExist(c: Controller, power: int -> int, peak: int, n: nat)
    returns (cs: seq<Controller>, ss: seq<Sample>)
    requires ScanEntry(c) && Unimodal(power, peak)
    ensures SteadyReadings(cs, ss, power) && cs[0] == c && |ss| == n
    ensures UnderWay(cs[n], power, peak)
  {
    if n == 0 {
      cs, ss := [c], [];
    } else {
      hide ScanEntry, UnderWay, Step, Steady, Unimodal, SteadyReading;
      var ds, ts := SteadyScansExist(c, power, peak, n - 1);
      var d := ds[n - 1];
      var s := SteadyReading(power, d.duty);
      UnderWayReading(d, power, peak);
      UnderWayStep(d, power, peak);
      cs, ss := ds + [Step(d, s)], ts + [s];
      forall i | 0 <= i < n ensures StepsAt(cs, ss, i) && SteadyAt(cs, ss, power, i) {
        assert i < n - 1 ==> StepsAt(ds, ts, i) && SteadyAt(ds, ts, power, i);
      }
    }
  }
}
