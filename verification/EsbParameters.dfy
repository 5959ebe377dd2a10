/** What a node sends with: the retransmit parameters of each transmission by ring, and the
    number of attempts it reports. */
module EsbParameters {
  import opened EsbNode
  import opened EsbRetransmit

  /** Parameters of a retry: by ring, the count and the range of the delay (us). */
  predicate RetryParameters(ring: nat, count: nat, delay: nat) {
    || (ring == 1 && count == 8 && 600 <= delay <= 800)
    || (ring == 2 && count == 10 && 1100 <= delay <= 1600)
    || (ring == 3 && count == 13 && 2100 <= delay <= 2600)
  }

  predicate RetryCount(ring: nat, count: nat) {
    (ring == 1 && count == 8) || (ring == 2 && count == 10) || (ring == 3 && count == 13)
  }

  /** Within one cycle: nothing is left over when the node goes on to the next stage, and the
      parameters are those of the stage. */
  ghost predicate Tidy(n: Node) {
    && (n.switchToPrx || n.point.PrxRestart? ==>
          n.radio.Sending? && !n.inFlight && !RetryDue(n) && !n.point.Stagger? && !n.switchToPtx)
    && (n.point.PrxRestart? ==> !n.switchToPrx)
    && (n.inFlight ==> n.radio.Sending?)
    && (n.point.Stagger? || (n.inFlight && !n.txRetried) ==> n.count == 3 && n.delay == 600)
    && (RetryDue(n) ==> n.radio.Sending? && RetryCount(n.ring, n.count))
    && (RetryDue(n) && !n.point.RetryRestart? ==> n.delay == 600)
    && (n.point.RetryRestart? ==> RetryParameters(n.ring, n.count, n.delay))
  }

  lemma TidyFlagTaken(n: Node, e: Event)
    requires Coherent(n) && SingleCycle(n) && Tidy(n) && e.MainStep?
    requires n.point.CheckPtx? || n.point.CheckRetry? || n.point.CheckPrx?
    ensures Tidy(Step(n, e))
  {
    hide DelayIncrease, CountIncrease;
  }

  lemma TidyBackoff(n: Node, e: Event)
    requires Coherent(n) && SingleCycle(n) && Tidy(n) && e.MainStep? && n.point.Backoff?
    ensures Tidy(Step(n, e))
  {
  }

  lemma TidyRestart(n: Node, e: Event)
    requires Coherent(n) && SingleCycle(n) && Tidy(n) && e.MainStep? && Enabled(n, e)
    requires n.point.Stagger? || n.point.RetryRestart? || n.point.PrxRestart?
    ensures Tidy(Step(n, e))
  {
    hide DelayIncrease, CountIncrease;
  }

  lemma TidyReceived(n: Node, e: Event)
    requires Coherent(n) && SingleCycle(n) && Tidy(n) && e.Received?
    requires Enabled(n, e) && (Triggers(e) ==> !CycleOpen(n))
    ensures Tidy(Step(n, e))
  {
    hide DelayIncrease, CountIncrease;
  }

  lemma TidyOutcome(n: Node, e: Event)
    requires Coherent(n) && SingleCycle(n) && Tidy(n) && (e.TxSuccess? || e.TxFailed?)
    requires Enabled(n, e)
    ensures Tidy(Step(n, e))
  {
  }

  lemma TidyStep(n: Node, e: Event)
    requires Coherent(n) && SingleCycle(n) && Tidy(n)
    requires Enabled(n, e) && (Triggers(e) ==> !CycleOpen(n))
    ensures Tidy(Step(n, e))
  {
    hide Tidy, Coherent, SingleCycle, Step;
    if e.Received? {
      TidyReceived(n, e);
    } else if e.TxSuccess? || e.TxFailed? {
      TidyOutcome(n, e);
    } else if n.point.CheckPtx? || n.point.CheckRetry? || n.point.CheckPrx? {
      TidyFlagTaken(n, e);
    } else if n.point.Backoff? {
      TidyBackoff(n, e);
    } else {
      TidyRestart(n, e);
    }
  }

  lemma {:induction false} SpacedRunIsTidy(ns: seq<Node>, es: seq<Event>, i: nat)
    requires IsRun(ns, es) && WellSpaced(ns, es) && i < |ns|
    ensures Tidy(ns[i])
  {
    hide Step, Enabled, Coherent, Bounded;
    if i > 0 {
      SpacedRunIsTidy(ns, es, i - 1);
      WellSpacedRun(ns, es, i - 1);
      RunIsBounded(ns, es, i - 1);
      RunStep(ns, es, i);
      assert Triggers(es[i - 1]) ==> !CycleOpen(ns[i - 1]);
      hide Triggers, CycleOpen, SingleCycle, Tidy;
      TidyStep(ns[i - 1], es[i - 1]);
    }
  }

  /** If no trigger arrives during an open reply cycle, every first transmission of a cycle has
      count 3 and delay 600 us; every retry has, by ring, count 8, 10 or 13 and a delay of 600
      to 800, 1100 to 1600 or 2100 to 2600 us. */
  lemma ParametersWhenSpaced(ns: seq<Node>, es: seq<Event>, i: nat)
    requires IsRun(ns, es) && WellSpaced(ns, es) && i < |es| && Initialises(ns[i], es[i])
    ensures i < |ns|
    ensures ns[i].point.Stagger? ==> ns[i].count == 3 && ns[i].delay == 600
    ensures ns[i].point.RetryRestart? ==> RetryParameters(ns[i].ring, ns[i].count, ns[i].delay)
  {
    RunLengths(ns, es);
    SpacedRunIsTidy(ns, es, i);
  }

  /** The number to draw for a delay of the ring. */
  function Draw(ring: nat, delay: nat): nat
    requires RetryParameters(ring, if ring == 1 then 8 else if ring == 2 then 10 else 13, delay)
  {
    if ring == 1 then delay - 600 else if ring == 2 then delay - 1100 else delay - 2100
  }

  /** Every delay of the range of its ring can be drawn. */
  lemma DelaysAreReached(n: Node, delay: nat)
    requires n.point.Backoff? && n.delay == 600
    requires RetryParameters(n.ring, if n.ring == 1 then 8 else if n.ring == 2 then 10 else 13, delay)
    ensures Step(n, MainStep(true, true, Draw(n.ring, delay))).delay == delay
  {
    DrawnIncrease(n.ring, delay);
    hide DelayIncrease;
  }

  lemma DrawnIncrease(ring: nat, delay: nat)
    requires RetryParameters(ring, if ring == 1 then 8 else if ring == 2 then 10 else 13, delay)
    ensures 600 + DelayIncrease(ring, Draw(ring, delay)) == delay
  {
  }

  // Attempts, counted from the events.

  predicate IsOutcome(e: Event) {
    e.TxSuccess? || e.TxFailed?
  }

  /** The attempts of all transmissions concluded since the present cycle began. */
  ghost function AttemptsSince(ns: seq<Node>, es: seq<Event>, i: nat): nat
    requires i <= |es| <= |ns|
  {
    if i == 0 || Resets(ns[i - 1], es[i - 1]) then 0
    else AttemptsSince(ns, es, i - 1)
         + (if IsOutcome(es[i - 1]) then es[i - 1].txAttempts else 0)
  }

  /** Those attempts when a reply was last sent or given up. */
  ghost function AttemptsReported(ns: seq<Node>, es: seq<Event>, i: nat): nat
    requires i <= |es| <= |ns|
  {
    if i == 0 then 0
    else if Concludes(ns[i - 1], es[i - 1]) then AttemptsSince(ns, es, i)
    else AttemptsReported(ns, es, i - 1)
  }

  lemma LedgerStep(n: Node, e: Event)
    ensures var m := Step(n, e);
            && m.log.attempts == (if Resets(n, e) then 0
                                  else n.log.attempts + (if IsOutcome(e) then e.txAttempts else 0))
            && m.log.reported == (if Concludes(n, e) then m.log.attempts else n.log.reported)
  {
    hide DelayIncrease, CountIncrease, MainStepped;
    if e.MainStep? {
      MainStepLedger(n, e);
    }
  }

  lemma MainStepLedger(n: Node, e: Event)
    requires e.MainStep?
    ensures var m := MainStepped(n, e.ok, e.prxOk, e.random);
            && m.log.attempts == (if Resets(n, e) then 0 else n.log.attempts)
            && m.log.reported == n.log.reported
  {
    hide MainStepped;
    MainStepKeepsLedger(n, e.ok, e.prxOk, e.random);
  }

  lemma {:induction false} LedgerIsTrue(ns: seq<Node>, es: seq<Event>, i: nat)
    requires IsRun(ns, es) && i <= |es|
    ensures i < |ns|
    ensures ns[i].log.attempts == AttemptsSince(ns, es, i)
    ensures ns[i].log.reported == AttemptsReported(ns, es, i)
  {
    RunLengths(ns, es);
    if i > 0 {
      hide Step, Enabled, Resets, Concludes, IsOutcome;
      LedgerIsTrue(ns, es, i - 1);
      RunStep(ns, es, i);
      LedgerStep(ns[i - 1], es[i - 1]);
    }
  }

  /** If the radio reports at most one attempt more than the count in effect, the 8-bit total is
      the number of attempts since the cycle began, at most 96, and the byte put into the next
      reply is that number at the time the last reply was concluded. */
  lemma AttemptsAreTrue(ns: seq<Node>, es: seq<Event>, i: nat)
    requires IsRun(ns, es) && PlausibleRun(ns, es) && i <= |es|
    ensures i < |ns|
    ensures ns[i].totalAttempts == AttemptsSince(ns, es, i) <= 96
    ensures ns[i].lastTxAttempts == AttemptsReported(ns, es, i)
  {
    LedgerIsTrue(ns, es, i);
    AttemptTotalNeverWraps(ns, es, i);
  }

  lemma SumModulo(total: nat, attempts: nat, more: nat)
    requires total == attempts % 256
    ensures (total + more % 256) % 256 == (attempts + more) % 256
  {
  }

  /** Both are attempts since the cycle began, one in a byte. */
  predicate ByteTotal(n: Node) {
    n.totalAttempts == n.log.attempts % 256
  }

  lemma ByteTotalStep(n: Node, e: Event)
    requires ByteTotal(n)
    ensures ByteTotal(Step(n, e))
  {
    if e.MainStep? {
      MainStepTotals(n, e.ok, e.prxOk, e.random);
      hide MainStepped;
    } else if !e.Received? {
      SumModulo(n.totalAttempts, n.log.attempts, e.txAttempts);
      hide MainStepped, CountIncrease;
    }
  }

  lemma RestartKeepsTotals(n: Node, ok: bool, prxOk: bool, random: nat)
    requires n.point.Stagger? || n.point.RetryRestart? || n.point.PrxRestart?
    ensures MainStepped(n, ok, prxOk, random).totalAttempts == n.totalAttempts
  {
  }

  lemma OtherStepTotals(n: Node, ok: bool, prxOk: bool, random: nat)
    requires !n.point.Stagger? && !n.point.RetryRestart? && !n.point.PrxRestart?
    ensures MainStepped(n, ok, prxOk, random).totalAttempts
            == if n.point.CheckPtx? && n.switchToPtx then 0 else n.totalAttempts
  {
    hide EnterPtx, EnterPrx, DelayIncrease;
  }

  lemma MainStepTotals(n: Node, ok: bool, prxOk: bool, random: nat)
    ensures var m := MainStepped(n, ok, prxOk, random);
            ByteTotal(n) ==> ByteTotal(m)
  {
    hide MainStepped;
    MainStepKeepsLedger(n, ok, prxOk, random);
    if n.point.Stagger? || n.point.RetryRestart? || n.point.PrxRestart? {
      RestartKeepsTotals(n, ok, prxOk, random);
    } else {
      OtherStepTotals(n, ok, prxOk, random);
    }
  }

  lemma {:induction false} RunKeepsByteTotal(ns: seq<Node>, es: seq<Event>, i: nat)
    requires IsRun(ns, es) && i < |ns|
    ensures ByteTotal(ns[i])
  {
    hide Step, Enabled;
    if i > 0 {
      RunKeepsByteTotal(ns, es, i - 1);
      RunStep(ns, es, i);
      hide ByteTotal;
      ByteTotalStep(ns[i - 1], es[i - 1]);
    }
  }

  /** Whatever the radio reports, the total is the number of attempts since the cycle began,
      modulo 256. */
  lemma TotalIsExactModulo(ns: seq<Node>, es: seq<Event>, i: nat)
    requires IsRun(ns, es) && i <= |es|
    ensures i < |ns|
    ensures ns[i].totalAttempts == AttemptsSince(ns, es, i) % 256
  {
    LedgerIsTrue(ns, es, i);
    RunKeepsByteTotal(ns, es, i);
  }
}
