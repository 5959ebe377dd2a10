/** The power thread's globals and routines
    (cluster_head_multi_image_fota/src/threads/power_thread.c and src/bsp/helio_pwm.c),
    proved to refine the controller of Mppt.dfy: four ring buffers with running sums
    behave as a window of samples whose averages are recomputed from scratch. */
module PowerThread {
  import opened CArithmetic
  import opened Mppt
  import opened SampleRing
  import HelioNtc

  /** One set of 12-bit ADC counts, as left by the SAADC interrupt. */
  datatype Counts = Counts(pv: int, battery: int, current: int, ntc: int)

  /** The reading that a set of counts converts to. */
  ghost predicate Converts(n: Counts, s: Sample) {
    && s.pvMv == TruncDiv(n.pv * 600, 895)
    && s.batteryMv == TruncDiv(n.battery * 600, 607)
    && s.pvMa == TruncDiv(n.current * 600, 12285)
    && HelioNtc.IsReading(n.ntc, s.ntcDc)
  }

  class PowerThread {
    const ring: SampleRing
    var averages: Sample
    var newMw: int
    var mode: Mode
    var gateDutyCycle: int
    var deltaDutyCycle: int
    var prevMw: int
    var pwmDutyBlock: int
    var pvIEn: bool

    ghost predicate Valid()
      reads ring, ring.Repr
    {
      ring.Valid() && this !in ring.Repr
    }

    ghost function View(): Controller
      requires Valid()
      reads this, ring, ring.Repr
    {
      Controller(mode, ring.Window(), averages, newMw, gateDutyCycle, pwmDutyBlock, pvIEn,
                 deltaDutyCycle, prevMw)
    }

    constructor ()
      ensures Valid() && View() == INITIAL && fresh(ring.Repr)
    {
      ring := new SampleRing();
      averages, newMw := ZERO, 0;
      mode, gateDutyCycle, deltaDutyCycle, prevMw := Off, 0, 0, 0;
      pwmDutyBlock, pvIEn := OFF_DUTY_CNT, false;
    }

    /** Convert one set of counts, push it into the ring and update the averages. */
    method CalculateAdcValues(n: Counts) returns (s: Sample)
      requires Valid()
      modifies this`averages, ring.Repr
      ensures Valid() && Converts(n, s) && View() == Acquire(old(View()), s)
    {
      hide Sum, TruncDiv, HelioNtc.IsReading;
      var temperature := HelioNtc.AdcToDeciC(n.ntc);
      s := Sample(TruncDiv(n.pv * 600, 895), TruncDiv(n.battery * 600, 607),
                  TruncDiv(n.current * 600, 12285), temperature);
      averages := ring.Push(s);
    }

    method TransitionToOff()
      requires Valid()
      modifies this`pwmDutyBlock, this`pvIEn, this`mode
      ensures Valid() && View() == TurnedOff(old(View()))
    {
      hide Sum, TruncDiv;
      pwmDutyBlock := OFF_DUTY_CNT;
      pvIEn := false;
      mode := Off;
    }

    method SetDutyCycle(newDuty: int) returns (duty: int)
      modifies this`pwmDutyBlock
      ensures duty == Clamp(newDuty) && pwmDutyBlock == OFF_DUTY_CNT - duty
    {
      duty := newDuty;
      if duty < MIN_DUTY_CYCLE {
        duty := MIN_DUTY_CYCLE;
      }
      if duty > MAX_DUTY_CYCLE {
        duty := MAX_DUTY_CYCLE;
      }
      pwmDutyBlock := OFF_DUTY_CNT - duty;
    }

    method UpdateMpptPowerState()
      requires Valid() && View().window != []
      modifies this, ring
      ensures Valid() && View() == Decide(old(View()))
    {
      match mode
      case Off => UpdateOff();
      case Scan => UpdateScan();
      case Track => UpdateTrack();
    }

    method UpdateOff()
      requires Valid() && View().window != []
      modifies this, ring
      ensures Valid() && View() == DecideOff(old(View()))
    {
      hide Sum, TruncDiv;
      if ring.entries < WINDOW_LENGTH {
        return;
      }
      var newest := ring.NewestBatteryMv();
      if averages.pvMv > MIN_PV_TURN_ON_MV && ChargingOk(averages.ntcDc, newest) {
        prevMw := 0;
        gateDutyCycle := SetDutyCycle(MIN_DUTY_CYCLE);
        deltaDutyCycle := -1;
        mode := Scan;
        pvIEn := true;
        ring.Reset();
      }
    }

    method UpdateScan()
      requires Valid() && View().window != [] && mode == Scan
      modifies this, ring
      ensures Valid() && View() == DecideScan(old(View()))
    {
      hide Sum, TruncDiv;
      var newest := ring.NewestBatteryMv();
      if !ChargingOk(averages.ntcDc, newest) {
        TransitionToOff();
        return;
      }
      if ring.entries < WINDOW_LENGTH {
        return;
      }
      newMw := averages.Power();
      ring.Reset();
      ClimbOrStepBack();
    }

    /** The move of a SCAN decision, once the power is known. */
    method ClimbOrStepBack()
      requires Valid() && mode.Scan?
      modifies this`gateDutyCycle, this`mode, this`pwmDutyBlock, this`prevMw
      ensures Valid()
      ensures var dropped := newMw < old(prevMw);
              var target := old(gateDutyCycle) + (if dropped then -SCAN_DUTY_INCREMENT
                                                  else SCAN_DUTY_INCREMENT);
              && gateDutyCycle == Clamp(target) && pwmDutyBlock == OFF_DUTY_CNT - gateDutyCycle
              && mode == (if dropped || gateDutyCycle >= MAX_DUTY_CYCLE then Track else Scan)
              && prevMw == newMw
    {
      hide Sum, TruncDiv;
      gateDutyCycle := gateDutyCycle + SCAN_DUTY_INCREMENT;
      if newMw < prevMw {
        gateDutyCycle := gateDutyCycle - 2 * SCAN_DUTY_INCREMENT;
        mode := Track;
      }
      gateDutyCycle := SetDutyCycle(gateDutyCycle);
      if gateDutyCycle >= MAX_DUTY_CYCLE {
        mode := Track;
      }
      prevMw := newMw;
    }

    method UpdateTrack()
      requires Valid() && View().window != []
      modifies this, ring
      ensures Valid() && View() == DecideTrack(old(View()))
    {
      hide Sum, TruncDiv;
      var newest := ring.NewestBatteryMv();
      if !ChargingOk(averages.ntcDc, newest) {
        TransitionToOff();
        return;
      }
      if ring.entries < WINDOW_LENGTH {
        return;
      }
      newMw := averages.Power();
      if newMw < MIN_MW_HARVESTING_STOP {
        TransitionToOff();
        return;
      }
      ring.Reset();
      PerturbDuty();
    }

    /** The move of a TRACK decision, once the power is known. */
    method PerturbDuty()
      requires Valid()
      modifies this`gateDutyCycle, this`deltaDutyCycle, this`pwmDutyBlock, this`prevMw
      ensures Valid()
      ensures deltaDutyCycle == TrackDelta(old(gateDutyCycle), old(deltaDutyCycle), old(prevMw), newMw)
      ensures gateDutyCycle == Clamp(old(gateDutyCycle) + deltaDutyCycle)
      ensures pwmDutyBlock == OFF_DUTY_CNT - gateDutyCycle && prevMw == newMw
    {
      hide Sum, TruncDiv;
      if gateDutyCycle == MIN_DUTY_CYCLE {
        gateDutyCycle := gateDutyCycle + 1;
        deltaDutyCycle := 1;
      } else if gateDutyCycle == MAX_DUTY_CYCLE {
        gateDutyCycle := gateDutyCycle - 1;
        deltaDutyCycle := -1;
      } else {
        if newMw < prevMw {
          deltaDutyCycle := deltaDutyCycle * -1;
        }
        gateDutyCycle := gateDutyCycle + deltaDutyCycle;
      }
      prevMw := newMw;
      gateDutyCycle := SetDutyCycle(gateDutyCycle);
    }

    /** One pass of the sample loop is one step of the controller. */
    method ProcessSample(n: Counts) returns (s: Sample)
      requires Valid()
      modifies this, ring.Repr
      ensures Valid() && Converts(n, s) && View() == Step(old(View()), s)
    {
      hide Sum, TruncDiv, HelioNtc.IsReading;
      s := CalculateAdcValues(n);
      UpdateMpptPowerState();
    }
  }

  /** The sample loop from power-up, for as many sets of counts as arrive: the globals after
      each pass are the states of a run of the controller. */
  method SampleLoop(counts: seq<Counts>)
    returns (thread: PowerThread, ghost cs: seq<Controller>, ghost ss: seq<Sample>)
    ensures fresh(thread) && thread.Valid() && |ss| == |counts|
    ensures forall i :: 0 <= i < |ss| ==> Converts(counts[i], ss[i])
    ensures IsRun(cs, ss) && cs[0] == INITIAL && thread.View() == cs[|ss|]
  {
    hide Step, Converts, Sum, TruncDiv;
    thread := new PowerThread();
    cs, ss := [INITIAL], [];
    for i := 0 to |counts|
      invariant fresh(thread) && fresh(thread.ring.Repr) && thread.Valid() && |ss| == i
      invariant forall j :: 0 <= j < i ==> Converts(counts[j], ss[j])
      invariant IsRun(cs, ss) && cs[0] == INITIAL && thread.View() == cs[i]
    {
      var s := thread.ProcessSample(counts[i]);
      RunExtends(cs, ss, s);
      cs, ss := cs + [thread.View()], ss + [s];
    }
  }

  lemma RunExtends(cs: seq<Controller>, ss: seq<Sample>, s: Sample)
    requires IsRun(cs, ss)
    ensures IsRun(cs + [Step(cs[|ss|], s)], ss + [s])
  {
    hide Step;
    var ds, ts := cs + [Step(cs[|ss|], s)], ss + [s];
    forall i | 0 <= i < |ts| ensures StepsAt(ds, ts, i) {
      assert i < |ss| ==> StepsAt(cs, ss, i);
    }
  }

  /** The three electrical readings are 600/895, 600/607 and 600/12285 of their counts, as the
      program's single-precision divisions and casts give them, whichever way they round. */
  lemma ConversionIsTheFloatOne(n: Counts, s: Sample, pv: real, battery: real, current: real)
    requires Converts(n, s)
    requires -4096 <= n.pv <= 4095 && -4096 <= n.battery <= 4095 && -4096 <= n.current <= 4095
    requires RoundedToFloat((n.pv * 600) as real / 895 as real, pv)
    requires RoundedToFloat((n.battery * 600) as real / 607 as real, battery)
    requires RoundedToFloat((n.current * 600) as real / 12285 as real, current)
    ensures s.pvMv == TruncReal(pv) && s.batteryMv == TruncReal(battery) && s.pvMa == TruncReal(current)
  {
    hide RoundedToFloat, TruncReal, TruncDiv;
    FloatConversionTruncates(n.pv, 895, pv);
    FloatConversionTruncates(n.battery, 607, battery);
    FloatConversionTruncates(n.current, 12285, current);
  }

  /** Bounds on what 12-bit counts convert to. */
  const LOWEST := Sample(-2745, -4048, -200, -135)
  const HIGHEST := Sample(2745, 4047, 200, 1250)

  lemma ConversionRange(n: Counts, s: Sample)
    requires Converts(n, s)
    requires -4096 <= n.pv <= 4095 && -4096 <= n.battery <= 4095 && -4096 <= n.current <= 4095
    ensures Between(LOWEST, s, HIGHEST)
  {
    HelioNtc.ReadingRange(n.ntc, s.ntcDc);
  }

  ghost predicate InTable(deci: int) {
    exists n :: HelioNtc.IsReading(n, deci)
  }

  /** With every live reading converted from 12-bit counts, the over-temperature limit of
      `ChargingOk` (4500 tenths of a degree, 450 C) can never be exceeded: the thermistor
      table ends at 125.0 C. Charging is refused exactly for a full battery or for an
      average below 0 C. */
  lemma OverTemperatureNeverTrips(w: seq<Sample>, batteryMv: int)
    requires w != [] && forall s :: s in w ==> InTable(s.ntcDc)
    ensures ChargingOk(Average(w).ntcDc, batteryMv)
            <==> batteryMv <= MAX_BATTERY_MV && Average(w).ntcDc >= BATTERY_CHARGE_TEMP_MIN_DC
  {
    TemperatureAverageInTable(w);
  }

  lemma {:induction false} TemperatureSumInTable(w: seq<Sample>)
    requires forall s :: s in w ==> InTable(s.ntcDc)
    ensures -135 * |w| <= Sum(w).ntcDc <= 1250 * |w|
  {
    if w != [] {
      var s := w[|w| - 1];
      TemperatureSumInTable(w[..|w| - 1]);
      var n :| HelioNtc.IsReading(n, s.ntcDc);
      HelioNtc.ReadingRange(n, s.ntcDc);
    }
  }

  lemma TemperatureAverageInTable(w: seq<Sample>)
    requires w != [] && forall s :: s in w ==> InTable(s.ntcDc)
    ensures -135 <= Average(w).ntcDc <= 1250
  {
    TemperatureSumInTable(w);
    TruncDivWithin(Sum(w).ntcDc, |w|, -135, 1250);
  }

  /** The sums and the power product fit a signed 32-bit integer, so the unbounded integers of
      the model are exact for the source's `int32_t`. */
  lemma FitsInt32(w: seq<Sample>)
    requires w != [] && |w| <= WINDOW_LENGTH
    requires forall s :: s in w ==> Between(LOWEST, s, HIGHEST)
    ensures -202400 <= Sum(w).pvMv <= 202400 && -202400 <= Sum(w).batteryMv <= 202400
    ensures -202400 <= Sum(w).pvMa <= 202400 && -202400 <= Sum(w).ntcDc <= 202400
    ensures -549000 <= Average(w).pvMv * Average(w).pvMa <= 549000
  {
    SumWithin(w, LOWEST, HIGHEST);
    AverageWithin(w, LOWEST, HIGHEST);
    ProductBound(Average(w).pvMv, 2745, Average(w).pvMa, 200);
  }

  lemma ProductBound(x: int, a: int, y: int, b: int)
    requires 0 <= a && 0 <= b
    requires -a <= x <= a && -b <= y <= b
    ensures -(a * b) <= x * y <= a * b
  {
  }
}
