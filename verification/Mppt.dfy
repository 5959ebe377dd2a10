/** Specification of the solar maximum-power-point controller
    (cluster_head_multi_image_fota/src/threads/power_thread.c) on values.

    The controller state holds the live samples themselves, oldest first; averages are
    recomputed from them. The class in PowerThread.dfy keeps four ring buffers and four
    running sums instead, and is proved to refine `Step`. */
module Mppt {
  import opened CArithmetic

  const WINDOW_LENGTH := 50
  const MIN_MW_HARVESTING_STOP := 25
  const MAX_BATTERY_MV := 3600
  const BATTERY_CHARGE_TEMP_MIN_DC := 0
  const BATTERY_CHARGE_TEMP_MAX_DC := 4500
  const MIN_DUTY_CYCLE := 1
  const MAX_DUTY_CYCLE := 254
  const MIN_PV_TURN_ON_MV := 1200
  const SCAN_DUTY_INCREMENT := 5
  const OFF_DUTY_CNT := 256

  /** One converted reading; also used for four sums and for four averages. */
  datatype Sample = Sample(pvMv: int, batteryMv: int, pvMa: int, ntcDc: int) {
    function Plus(s: Sample): Sample {
      Sample(pvMv + s.pvMv, batteryMv + s.batteryMv, pvMa + s.pvMa, ntcDc + s.ntcDc)
    }
    function Minus(s: Sample): Sample {
      Sample(pvMv - s.pvMv, batteryMv - s.batteryMv, pvMa - s.pvMa, ntcDc - s.ntcDc)
    }
    function DividedBy(n: int): Sample
      requires n > 0
    {
      Sample(TruncDiv(pvMv, n), TruncDiv(batteryMv, n), TruncDiv(pvMa, n), TruncDiv(ntcDc, n))
    }
    /** Harvested power in mW, from averaged voltage and current. */
    function Power(): int {
      TruncDiv(pvMv * pvMa, 1000)
    }
  }

  const ZERO := Sample(0, 0, 0, 0)

  datatype Mode = Off | Scan | Track

  /** `duty` is the commanded gate duty, `dutyWord` the word the PWM peripheral reads and
      `pvCurrentEnabled` the PV_I_EN pin. */
  datatype Controller = Controller(
    mode: Mode,
    window: seq<Sample>,
    average: Sample,
    newMw: int,
    duty: int,
    dutyWord: int,
    pvCurrentEnabled: bool,
    delta: int,
    prevMw: int)

  const INITIAL := Controller(Off, [], ZERO, 0, 0, OFF_DUTY_CNT, false, 0, 0)

  function Sum(w: seq<Sample>): Sample {
    if w == [] then ZERO else Sum(w[..|w| - 1]).Plus(w[|w| - 1])
  }

  function Average(w: seq<Sample>): Sample
    requires w != []
  {
    Sum(w).DividedBy(|w|)
  }

  function Pushed(w: seq<Sample>, s: Sample): (r: seq<Sample>)
    ensures r != [] && r[|r| - 1] == s
    ensures |w| <= WINDOW_LENGTH ==> |r| <= WINDOW_LENGTH
  {
    (if |w| < WINDOW_LENGTH then w else w[1..]) + [s]
  }

  function Acquire(c: Controller, s: Sample): (r: Controller)
    ensures r.window != []
  {
    var w := Pushed(c.window, s);
    c.(window := w, average := Average(w))
  }

  predicate ChargingOk(temperature: int, batteryMv: int) {
    && batteryMv <= MAX_BATTERY_MV
    && BATTERY_CHARGE_TEMP_MIN_DC <= temperature <= BATTERY_CHARGE_TEMP_MAX_DC
  }

  function Clamp(duty: int): int {
    if duty < MIN_DUTY_CYCLE then MIN_DUTY_CYCLE
    else if duty > MAX_DUTY_CYCLE then MAX_DUTY_CYCLE
    else duty
  }

  function SetDuty(c: Controller, duty: int): Controller {
    c.(duty := Clamp(duty), dutyWord := OFF_DUTY_CNT - Clamp(duty))
  }

  function TurnedOff(c: Controller): Controller {
    c.(mode := Off, dutyWord := OFF_DUTY_CNT, pvCurrentEnabled := false)
  }

  function DecideOff(c: Controller): Controller
    requires c.window != []
  {
    if |c.window| < WINDOW_LENGTH then c
    else if c.average.pvMv > MIN_PV_TURN_ON_MV
         && ChargingOk(c.average.ntcDc, c.window[|c.window| - 1].batteryMv) then
      SetDuty(c, MIN_DUTY_CYCLE).(prevMw := 0, delta := -1, mode := Scan,
                                  pvCurrentEnabled := true, window := [])
    else c
  }

  function DecideScan(c: Controller): Controller
    requires c.window != []
  {
    if !ChargingOk(c.average.ntcDc, c.window[|c.window| - 1].batteryMv) then TurnedOff(c)
    else if |c.window| < WINDOW_LENGTH then c
    else
      var mw := c.average.Power();
      var dropped := mw < c.prevMw;
      var target := c.duty + SCAN_DUTY_INCREMENT - (if dropped then 2 * SCAN_DUTY_INCREMENT else 0);
      var next := SetDuty(c.(newMw := mw, window := []), target);
      next.(mode := if dropped || next.duty >= MAX_DUTY_CYCLE then Track else Scan, prevMw := mw)
  }

  /** The direction in which TRACK moves, forced away from either end of the range. */
  function TrackDelta(duty: int, delta: int, prevMw: int, mw: int): int {
    if duty == MIN_DUTY_CYCLE then 1
    else if duty == MAX_DUTY_CYCLE then -1
    else if mw < prevMw then -delta
    else delta
  }

  function DecideTrack(c: Controller): Controller
    requires c.window != []
  {
    if !ChargingOk(c.average.ntcDc, c.window[|c.window| - 1].batteryMv) then TurnedOff(c)
    else if |c.window| < WINDOW_LENGTH then c
    else
      var mw := c.average.Power();
      if mw < MIN_MW_HARVESTING_STOP then TurnedOff(c.(newMw := mw))
      else
        var delta := TrackDelta(c.duty, c.delta, c.prevMw, mw);
        SetDuty(c.(newMw := mw, window := [], delta := delta, prevMw := mw), c.duty + delta)
  }

  function Decide(c: Controller): Controller
    requires c.window != []
  {
    match c.mode
    case Off => DecideOff(c)
    case Scan => DecideScan(c)
    case Track => DecideTrack(c)
  }

  /** One iteration of the sample loop: acquire a reading, then decide. */
  function Step(c: Controller, s: Sample): Controller {
    Decide(Acquire(c, s))
  }

  ghost predicate StepsAt(cs: seq<Controller>, ss: seq<Sample>, i: nat)
    requires i < |ss| && |cs| == |ss| + 1
  {
    cs[i + 1] == Step(cs[i], ss[i])
  }

  /** `cs` is the controller's history while it consumes the readings `ss`. */
  ghost predicate IsRun(cs: seq<Controller>, ss: seq<Sample>) {
    |cs| == |ss| + 1 && forall i :: 0 <= i < |ss| ==> StepsAt(cs, ss, i)
  }

  /** Each field of `a` is the sum of the live readings divided by their number, truncated
      toward zero. */
  ghost predicate IsMean(a: Sample, w: seq<Sample>) {
    && IsTruncated(Sum(w).pvMv, |w|, a.pvMv)
    && IsTruncated(Sum(w).batteryMv, |w|, a.batteryMv)
    && IsTruncated(Sum(w).pvMa, |w|, a.pvMa)
    && IsTruncated(Sum(w).ntcDc, |w|, a.ntcDc)
  }

  lemma AverageIsMean(w: seq<Sample>)
    requires w != []
    ensures IsMean(Average(w), w)
  {
    hide Sum, IsTruncated, TruncDiv;
    var t := Sum(w);
    TruncDivIsTruncated(t.pvMv, |w|);
    TruncDivIsTruncated(t.batteryMv, |w|);
    TruncDivIsTruncated(t.pvMa, |w|);
    TruncDivIsTruncated(t.ntcDc, |w|);
  }

  /** Every average lies between any bounds on the live readings. */
  lemma {:induction false} SumWithin(w: seq<Sample>, lo: Sample, hi: Sample)
    requires forall s :: s in w ==> Between(lo, s, hi)
    ensures lo.pvMv * |w| <= Sum(w).pvMv <= hi.pvMv * |w|
    ensures lo.batteryMv * |w| <= Sum(w).batteryMv <= hi.batteryMv * |w|
    ensures lo.pvMa * |w| <= Sum(w).pvMa <= hi.pvMa * |w|
    ensures lo.ntcDc * |w| <= Sum(w).ntcDc <= hi.ntcDc * |w|
  {
    if w != [] {
      var n, t, s := |w| - 1, Sum(w[..|w| - 1]), w[|w| - 1];
      SumWithin(w[..n], lo, hi);
      assert Between(lo, s, hi);
      OneMore(lo.pvMv, hi.pvMv, n, t.pvMv, s.pvMv);
      OneMore(lo.batteryMv, hi.batteryMv, n, t.batteryMv, s.batteryMv);
      OneMore(lo.pvMa, hi.pvMa, n, t.pvMa, s.pvMa);
      OneMore(lo.ntcDc, hi.ntcDc, n, t.ntcDc, s.ntcDc);
    }
  }

  lemma OneMore(lo: int, hi: int, n: nat, total: int, x: int)
    requires lo * n <= total <= hi * n && lo <= x <= hi
    ensures lo * (n + 1) <= total + x <= hi * (n + 1)
  {
  }

  ghost predicate Between(lo: Sample, s: Sample, hi: Sample) {
    && lo.pvMv <= s.pvMv <= hi.pvMv
    && lo.batteryMv <= s.batteryMv <= hi.batteryMv
    && lo.pvMa <= s.pvMa <= hi.pvMa
    && lo.ntcDc <= s.ntcDc <= hi.ntcDc
  }

  lemma AverageWithin(w: seq<Sample>, lo: Sample, hi: Sample)
    requires w != []
    requires forall s :: s in w ==> Between(lo, s, hi)
    ensures Between(lo, Average(w), hi)
  {
    SumWithin(w, lo, hi);
    var t := Sum(w);
    TruncDivWithin(t.pvMv, |w|, lo.pvMv, hi.pvMv);
    TruncDivWithin(t.batteryMv, |w|, lo.batteryMv, hi.batteryMv);
    TruncDivWithin(t.pvMa, |w|, lo.pvMa, hi.pvMa);
    TruncDivWithin(t.ntcDc, |w|, lo.ntcDc, hi.ntcDc);
  }

  /** Removing the oldest reading from a window removes it from the sum. */
  lemma {:induction false} SumDropsOldest(w: seq<Sample>)
    requires w != []
    ensures Sum(w[1..]) == Sum(w).Minus(w[0])
  {
    if |w| > 1 {
      var init := w[..|w| - 1];
      SumDropsOldest(init);
      assert w[1..][..|w| - 2] == init[1..];
      assert w[1..][|w| - 2] == w[|w| - 1];
    } else {
      assert w[..0] == [];
    }
  }
}
