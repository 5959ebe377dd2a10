/** SCAN: a coarse hill climb that always ends, and ends on the best duty it tried. */
module MpptScan {
  import opened CArithmetic
  import opened Mppt
  import opened MpptSafety

  /** Upper bound on the samples SCAN can still consume. */
  function ScanBudget(c: Controller): int {
    (251 - c.duty) / SCAN_DUTY_INCREMENT * WINDOW_LENGTH + (WINDOW_LENGTH - |c.window|)
  }

  lemma ScanBudgetFalls(c: Controller, s: Sample)
    requires Safe(c) && c.mode.Scan? && Step(c, s).mode.Scan?
    ensures ScanBudget(Step(c, s)) == ScanBudget(c) - 1
  {
    hide Sum, TruncDiv, ChargingOk;
    if |c.window| == WINDOW_LENGTH - 1 {
      assert Step(c, s).duty == c.duty + SCAN_DUTY_INCREMENT;
    }
  }

  lemma {:induction false} ScanBudgetAfter(cs: seq<Controller>, ss: seq<Sample>, i: nat, k: nat)
    requires IsRun(cs, ss) && Safe(cs[0]) && i + k < |cs|
    requires forall j :: i <= j <= i + k ==> cs[j].mode.Scan?
    ensures ScanBudget(cs[i + k]) == ScanBudget(cs[i]) - k
  {
    if k > 0 {
      ScanBudgetAfter(cs, ss, i, k - 1);
      RunIsSafe(cs, ss, i + k - 1);
      assert StepsAt(cs, ss, i + k - 1);
      ScanBudgetFalls(cs[i + k - 1], ss[i + k - 1]);
    }
  }

  /** Whatever the readings, SCAN is left within 51 full windows (2550 samples) of any
      moment at which the machine was in it. */
  lemma ScanTerminates(cs: seq<Controller>, ss: seq<Sample>, i: nat) returns (exit: nat)
    requires IsRun(cs, ss) && Safe(cs[0])
    requires i + 51 * WINDOW_LENGTH < |cs|
    requires cs[i].mode.Scan?
    ensures i < exit <= i + 51 * WINDOW_LENGTH && !cs[exit].mode.Scan?
  {
    var n := 51 * WINDOW_LENGTH;
    if forall j :: i <= j <= i + n ==> cs[j].mode.Scan? {
      ScanBudgetAfter(cs, ss, i, n);
      RunIsSafe(cs, ss, i);
      RunIsSafe(cs, ss, i + n);
      assert false;
    }
    exit :| i <= exit <= i + n && !cs[exit].mode.Scan?;
  }

  /** A duty tried by SCAN with the power measured there. */
  datatype Trial = Trial(duty: int, mw: int)

  /** The trials of the latest scan, read off the history. */
  ghost function Trials(cs: seq<Controller>, ss: seq<Sample>, i: nat): seq<Trial>
    requires i < |cs| == |ss| + 1
  {
    if i == 0 then []
    else if cs[i - 1].mode.Off? then []
    else if cs[i - 1].mode.Scan? && Decides(cs[i - 1], ss[i - 1]) then
      Trials(cs, ss, i - 1)
      + [Trial(cs[i - 1].duty, Average(Pushed(cs[i - 1].window, ss[i - 1])).Power())]
    else Trials(cs, ss, i - 1)
  }

  /** Duties 1, 6, 11, ... tried in order, with powers that never fell. */
  ghost predicate Climbing(ts: seq<Trial>) {
    && (forall k :: 0 <= k < |ts| ==> ts[k].duty == 1 + SCAN_DUTY_INCREMENT * k && 0 <= ts[k].mw)
    && (forall k :: 0 < k < |ts| ==> ts[k - 1].mw <= ts[k].mw)
  }

  /** Power of the last trial, which is also the best one while climbing. */
  function BestSoFar(ts: seq<Trial>): int {
    if ts == [] then 0 else ts[|ts| - 1].mw
  }

  ghost predicate ScanProgress(c: Controller, ts: seq<Trial>) {
    && Climbing(ts)
    && c.duty == 1 + SCAN_DUTY_INCREMENT * |ts|
    && c.prevMw == BestSoFar(ts)
  }

  /** A step that stays in SCAN either waits or adds a trial that did not fall. */
  lemma ScanStep(c: Controller, s: Sample)
    requires Safe(c) && c.mode.Scan? && Step(c, s).mode.Scan?
    ensures var r := Step(c, s);
            if Decides(c, s)
            then
              && r.duty == c.duty + SCAN_DUTY_INCREMENT
              && r.prevMw == Average(Pushed(c.window, s)).Power() >= c.prevMw
            else r.duty == c.duty && r.prevMw == c.prevMw
  {
    hide Sum, TruncDiv, ChargingOk;
  }

  lemma ScanStart(c: Controller, s: Sample)
    requires Safe(c) && !c.mode.Scan? && Step(c, s).mode.Scan?
    ensures c.mode.Off? && Step(c, s).duty == MIN_DUTY_CYCLE && Step(c, s).prevMw == 0
  {
    hide Sum, TruncDiv, ChargingOk;
  }

  lemma ClimbExtends(ts: seq<Trial>, t: Trial)
    requires Climbing(ts) && t.duty == 1 + SCAN_DUTY_INCREMENT * |ts| && t.mw >= BestSoFar(ts)
    ensures Climbing(ts + [t]) && BestSoFar(ts + [t]) == t.mw
  {
  }

  lemma {:induction false} ScanKeepsProgress(cs: seq<Controller>, ss: seq<Sample>, i: nat)
    requires IsRun(cs, ss) && cs[0] == INITIAL && i < |cs| && cs[i].mode.Scan?
    ensures ScanProgress(cs[i], Trials(cs, ss, i))
  {
    var c, s := cs[i - 1], ss[i - 1];
    assert StepsAt(cs, ss, i - 1);
    hide Step, Decides, Average, Sample.Power, Climbing;
    RunIsSafe(cs, ss, i - 1);
    if c.mode.Scan? {
      ScanKeepsProgress(cs, ss, i - 1);
      ScanStep(c, s);
      if Decides(c, s) {
        ClimbExtends(Trials(cs, ss, i - 1), Trial(c.duty, cs[i].prevMw));
      }
    } else {
      ScanStart(c, s);
      NothingTried();
    }
  }

  lemma NothingTried()
    ensures Climbing([])
  {
  }

  lemma {:induction false} ClimbingIsSorted(ts: seq<Trial>, j: nat, k: nat)
    requires Climbing(ts) && j <= k < |ts|
    ensures ts[j].mw <= ts[k].mw
    decreases k - j
  {
    if j < k {
      ClimbingIsSorted(ts, j, k - 1);
    }
  }

  ghost predicate IsPeak(ts: seq<Trial>, k: int) {
    0 <= k < |ts| && forall j :: 0 <= j < |ts| ==> ts[j].mw <= ts[k].mw
  }

  /** How a scan with trials `ts` may hand over to TRACK at `duty`: the powers had been
      non-decreasing up to the last trial, and `peak` is a trial of maximum power. If the
      last trial dropped, `duty` is the one tried at `peak` (also when the clamp keeps duty
      1); otherwise all 51 duties were tried, the last was the best, and TRACK starts from
      the top of the range. */
  ghost predicate HandsOverAtPeak(ts: seq<Trial>, duty: int, peak: int) {
    && ts != []
    && Climbing(ts[..|ts| - 1])
    && IsPeak(ts, peak)
    && if ts[|ts| - 1].mw < BestSoFar(ts[..|ts| - 1])
       then duty == ts[peak].duty
       else Climbing(ts) && |ts| == 51 && peak == 50 && duty == MAX_DUTY_CYCLE
  }

  lemma PeakAfterDrop(tried: seq<Trial>, last: Trial) returns (peak: int)
    requires Climbing(tried) && last.duty == 1 + SCAN_DUTY_INCREMENT * |tried|
    requires last.mw < BestSoFar(tried)
    ensures HandsOverAtPeak(
              tried + [last], if last.duty == 1 then 1 else last.duty - SCAN_DUTY_INCREMENT, peak)
  {
    var ts := tried + [last];
    assert ts[..|ts| - 1] == tried;
    peak := if |tried| == 0 then 0 else |tried| - 1;
    forall j | 0 <= j < |tried| ensures ts[j].mw <= ts[peak].mw {
      ClimbingIsSorted(tried, j, peak);
    }
  }

  lemma PeakWithoutDrop(tried: seq<Trial>, last: Trial) returns (peak: int)
    requires Climbing(tried) && last.duty == 1 + SCAN_DUTY_INCREMENT * |tried| == 251
    requires last.mw >= BestSoFar(tried)
    ensures HandsOverAtPeak(tried + [last], MAX_DUTY_CYCLE, peak)
  {
    var ts := tried + [last];
    assert ts[..|ts| - 1] == tried;
    ClimbExtends(tried, last);
    peak := |tried|;
    forall j | 0 <= j < |tried| ensures ts[j].mw <= last.mw {
      ClimbingIsSorted(tried, j, |tried| - 1);
    }
  }

  /** Every handover from SCAN to TRACK is at the peak of the powers measured in that scan. */
  lemma ScanPicksPeak(cs: seq<Controller>, ss: seq<Sample>, i: nat) returns (peak: int)
    requires IsRun(cs, ss) && cs[0] == INITIAL && i < |ss|
    requires cs[i].mode.Scan? && cs[i + 1].mode.Track?
    ensures HandsOverAtPeak(Trials(cs, ss, i + 1), cs[i + 1].duty, peak)
  {
    var c, s, tried := cs[i], ss[i], Trials(cs, ss, i);
    assert StepsAt(cs, ss, i);
    hide Step, Sum, TruncDiv, Sample.Power, HandsOverAtPeak;
    RunIsSafe(cs, ss, i);
    ScanKeepsProgress(cs, ss, i);
    ScanHandover(c, s);
    var last := Trial(c.duty, Average(Pushed(c.window, s)).Power());
    if last.mw < c.prevMw {
      peak := PeakAfterDrop(tried, last);
    } else {
      peak := PeakWithoutDrop(tried, last);
    }
  }

  /** The step from SCAN to TRACK: back one increment after a drop, else to the top. */
  lemma ScanHandover(c: Controller, s: Sample)
    requires Safe(c) && c.mode.Scan? && Step(c, s).mode.Track?
    ensures Decides(c, s)
    ensures if Average(Pushed(c.window, s)).Power() < c.prevMw
            then Step(c, s).duty == (if c.duty == 1 then 1 else c.duty - SCAN_DUTY_INCREMENT)
            else c.duty == 251 && Step(c, s).duty == MAX_DUTY_CYCLE
  {
    hide Sum, TruncDiv, ChargingOk;
  }
}
