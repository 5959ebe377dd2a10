/** What holds after every sample, whatever the readings. */
module MpptSafety {
  import opened CArithmetic
  import opened Mppt

  /** The inductive invariant of the sample loop. */
  ghost predicate Safe(c: Controller) {
    && |c.window| <= WINDOW_LENGTH
    && (c.mode.Off? ==> c.dutyWord == OFF_DUTY_CNT && !c.pvCurrentEnabled)
    && (!c.mode.Off? ==> Driving(c))
    && (c.mode.Scan? ==> c.duty % 5 == 1 && c.duty <= 251)
  }

  ghost predicate Driving(c: Controller) {
    && c.pvCurrentEnabled
    && MIN_DUTY_CYCLE <= c.duty <= MAX_DUTY_CYCLE
    && c.dutyWord == OFF_DUTY_CNT - c.duty
    && c.delta in {-1, 1}
    && |c.window| < WINDOW_LENGTH
  }

  lemma SafeStep(c: Controller, s: Sample)
    requires Safe(c)
    ensures var r := Step(c, s);
            && Safe(r)
            && (!r.mode.Off? ==> ChargingOk(r.average.ntcDc, s.batteryMv))
  {
    hide Sum, TruncDiv;
  }

  /** Every state of every run is safe. */
  lemma {:induction false} RunIsSafe(cs: seq<Controller>, ss: seq<Sample>, i: nat)
    requires IsRun(cs, ss) && Safe(cs[0]) && i < |cs|
    ensures Safe(cs[i])
  {
    if i > 0 {
      RunIsSafe(cs, ss, i - 1);
      assert StepsAt(cs, ss, i - 1);
      SafeStep(cs[i - 1], ss[i - 1]);
    }
  }

  /** Drive safety from power-up: the converter is driven only with the current sensor
      enabled, a duty in range, and on the strength of this very battery reading and an
      average temperature in range; otherwise the PWM is off. */
  lemma DriveSafety(cs: seq<Controller>, ss: seq<Sample>, i: nat)
    requires IsRun(cs, ss) && cs[0] == INITIAL && i < |ss|
    ensures var c := cs[i + 1];
            && (c.mode.Off? ==> c.dutyWord == OFF_DUTY_CNT && !c.pvCurrentEnabled)
            && (!c.mode.Off? ==>
                  && Driving(c)
                  && ss[i].batteryMv <= MAX_BATTERY_MV
                  && BATTERY_CHARGE_TEMP_MIN_DC <= c.average.ntcDc <= BATTERY_CHARGE_TEMP_MAX_DC)
  {
    RunIsSafe(cs, ss, i);
    SafeStep(cs[i], ss[i]);
    assert StepsAt(cs, ss, i);
  }

  /** The reading completes a full window on which SCAN or TRACK decides. */
  predicate Decides(c: Controller, s: Sample) {
    && !c.mode.Off?
    && |Pushed(c.window, s)| == WINDOW_LENGTH
    && ChargingOk(Average(Pushed(c.window, s)).ntcDc, s.batteryMv)
  }

  /** A TRACK decision that stays in TRACK moves the duty by exactly one, so the clamp
      in `SetDuty` never acts there. */
  lemma TrackMovesByOne(c: Controller, s: Sample)
    requires Safe(c) && c.mode.Track? && Decides(c, s) && Step(c, s).mode.Track?
    ensures var r := Step(c, s);
            && r.delta in {-1, 1}
            && r.duty == c.duty + r.delta
            && r.window == []
  {
    hide Sum, TruncDiv;
  }

  /** The samples read since the PWM duty word last changed. */
  ghost function Held(cs: seq<Controller>, ss: seq<Sample>, i: nat): seq<Sample>
    requires i < |cs| == |ss| + 1
  {
    if i == 0 then []
    else if cs[i].dutyWord != cs[i - 1].dutyWord then []
    else Held(cs, ss, i - 1) + [ss[i - 1]]
  }

  ghost predicate IsSuffix(w: seq<Sample>, h: seq<Sample>) {
    |w| <= |h| && h[|h| - |w|..] == w
  }

  lemma SuffixGrows(w: seq<Sample>, h: seq<Sample>, s: Sample)
    requires IsSuffix(w, h)
    ensures IsSuffix(w + [s], h + [s])
  {
    assert (h + [s])[|h| - |w|..] == h[|h| - |w|..] + [s];
  }

  /** While driving, a step either starts a new window or adds its sample to the window
      and leaves the PWM alone. */
  lemma WindowGrowsOrRestarts(c: Controller, s: Sample)
    requires Safe(c) && !Step(c, s).mode.Off?
    ensures var r := Step(c, s);
            || r.window == []
            || (!c.mode.Off? && r.window == c.window + [s] && r.dutyWord == c.dutyWord)
  {
    hide Sum, TruncDiv, ChargingOk;
  }

  /** While driving, every sample in the window was taken under the present duty. */
  lemma {:induction false} WindowIsFresh(cs: seq<Controller>, ss: seq<Sample>, i: nat)
    requires IsRun(cs, ss) && cs[0] == INITIAL && i < |cs|
    requires !cs[i].mode.Off?
    ensures IsSuffix(cs[i].window, Held(cs, ss, i))
  {
    assert StepsAt(cs, ss, i - 1);
    hide Step;
    RunIsSafe(cs, ss, i - 1);
    WindowGrowsOrRestarts(cs[i - 1], ss[i - 1]);
    if cs[i].window != [] {
      WindowIsFresh(cs, ss, i - 1);
      SuffixGrows(cs[i - 1].window, Held(cs, ss, i - 1), ss[i - 1]);
    }
  }

  lemma DecisionAverages(c: Controller, s: Sample)
    requires Safe(c) && Decides(c, s)
    ensures |c.window| == WINDOW_LENGTH - 1
    ensures Step(c, s).average == Average(c.window + [s])
  {
    hide Sum, TruncDiv, ChargingOk;
  }

  /** Each SCAN or TRACK decision averages exactly fifty samples, all of them taken
      since the duty last changed. */
  lemma DecisionUsesFreshWindow(cs: seq<Controller>, ss: seq<Sample>, i: nat)
    requires IsRun(cs, ss) && cs[0] == INITIAL && i < |ss|
    requires Decides(cs[i], ss[i])
    ensures |Held(cs, ss, i)| >= WINDOW_LENGTH - 1
    ensures var fifty := Held(cs, ss, i)[|Held(cs, ss, i)| - (WINDOW_LENGTH - 1)..] + [ss[i]];
            |fifty| == WINDOW_LENGTH && cs[i + 1].average == Average(fifty)
  {
    assert StepsAt(cs, ss, i);
    hide Step, Sum, TruncDiv;
    RunIsSafe(cs, ss, i);
    WindowIsFresh(cs, ss, i);
    DecisionAverages(cs[i], ss[i]);
  }
}
