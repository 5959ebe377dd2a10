/** When the retransmit count of a node exceeds 13, and which failed transmissions are retried:
    the radio events that lead there, and that nothing else does. */
module EsbRetransmit {
  import opened EsbNode

  /** The main loop takes the transmit flag and resets the parameters: a new cycle begins. */
  predicate Resets(n: Node, e: Event) {
    e.MainStep? && n.point.CheckPtx? && n.switchToPtx
  }

  /** A transmission fails for the first time and asks for a retry. */
  predicate AsksForRetry(n: Node, e: Event) {
    e.TxFailed? && !n.txRetried
  }

  /** A reply is sent or given up while an earlier request for a retry still waits. */
  predicate ConcludesEarly(n: Node, e: Event) {
    RetryDue(n) && (e.TxSuccess? || (e.TxFailed? && n.txRetried))
  }

  /** The retry is started. */
  predicate StartsRetry(n: Node, e: Event) {
    e.MainStep? && e.ok && n.point.RetryRestart?
  }

  /** No new cycle begins from step `i` up to step `j`. */
  ghost predicate SameCycle(ns: seq<Node>, es: seq<Event>, i: nat, j: nat)
    requires j <= |es| <= |ns|
  {
    forall k :: i <= k < j ==> !Resets(ns[k], es[k])
  }

  /** Within one cycle before step `i`: a transmission failed in the stagger wait (`f`), the
      reply started after the wait was concluded although the retry was already due (`c`),
      the retry was started all the same (`s`) and failed (`g`). */
  ghost predicate Chain(ns: seq<Node>, es: seq<Event>, i: nat, f: nat, c: nat, s: nat, g: nat)
    requires i <= |es| <= |ns|
  {
    && f < c < s < g < i && SameCycle(ns, es, f, i)
    && AsksForRetry(ns[f], es[f]) && ns[f].point.Stagger?
    && ConcludesEarly(ns[c], es[c])
    && StartsRetry(ns[s], es[s])
    && AsksForRetry(ns[g], es[g])
  }

  // The stages of the chain, as states.

  predicate Early(n: Node) {
    n.log.raises == 1 && RetryDue(n) && n.txRetried && (n.inFlight || n.point.Stagger?)
  }

  predicate RetryAlone(n: Node) {
    n.log.raises == 1 && RetryDue(n) && !n.txRetried
  }

  predicate Retrying(n: Node) {
    n.log.raises == 1 && n.inFlight && !n.txRetried && !RetryDue(n)
  }

  /** The step neither begins a cycle nor changes what is noted of the rings. */
  predicate Neutral(n: Node, e: Event) {
    !Resets(n, e) && Step(n, e).log.raisedInRing1 == n.log.raisedInRing1
  }

  lemma EarlyMainStep(n: Node, e: Event)
    requires Coherent(n) && Bounded(n) && e.MainStep? && Early(Step(n, e))
    ensures Early(n) && Neutral(n, e)
  {
    hide DelayIncrease, DelayBound, CountTold;
  }

  lemma EarlyInterrupt(n: Node, e: Event)
    requires Coherent(n) && Bounded(n) && Enabled(n, e) && !e.MainStep? && Early(Step(n, e))
    ensures || (Early(n) && Neutral(n, e))
            || (AsksForRetry(n, e) && n.point.Stagger?
                && (Step(n, e).log.raisedInRing1 <==> n.ring == 1))
  {
    hide MainStepped, CountIncrease, DelayBound;
  }

  lemma EarlyStep(n: Node, e: Event)
    requires Coherent(n) && Bounded(n) && Enabled(n, e) && Early(Step(n, e))
    ensures || (Early(n) && Neutral(n, e))
            || (AsksForRetry(n, e) && n.point.Stagger?
                && (Step(n, e).log.raisedInRing1 <==> n.ring == 1))
  {
    hide Step, Early, Neutral, AsksForRetry, Coherent, Bounded, Enabled;
    if e.MainStep? {
      EarlyMainStep(n, e);
    } else {
      EarlyInterrupt(n, e);
    }
  }

  lemma RetryAloneStep(n: Node, e: Event)
    requires Coherent(n) && Bounded(n) && Enabled(n, e) && RetryAlone(Step(n, e))
    ensures Neutral(n, e) && (RetryAlone(n) || (Early(n) && ConcludesEarly(n, e)))
  {
    hide DelayIncrease, CountIncrease, DelayBound;
  }

  lemma RetryingStep(n: Node, e: Event)
    requires Coherent(n) && Bounded(n) && Enabled(n, e) && Retrying(Step(n, e))
    ensures Neutral(n, e) && (Retrying(n) || (RetryAlone(n) && StartsRetry(n, e)))
  {
    hide DelayIncrease, CountIncrease, DelayBound;
  }

  lemma TwiceInterrupt(n: Node, e: Event)
    requires Coherent(n) && Bounded(n) && Enabled(n, e) && !e.MainStep?
    requires Step(n, e).log.raises == 2
    ensures || (n.log.raises == 2 && Neutral(n, e))
            || (Retrying(n) && AsksForRetry(n, e)
                && (Step(n, e).log.raisedInRing1 <==> n.log.raisedInRing1 && n.ring == 1))
  {
    hide MainStepped, CountIncrease, DelayBound;
  }

  lemma TwiceStep(n: Node, e: Event)
    requires Coherent(n) && Bounded(n) && Enabled(n, e) && Step(n, e).log.raises == 2
    ensures || (n.log.raises == 2 && Neutral(n, e))
            || (Retrying(n) && AsksForRetry(n, e)
                && (Step(n, e).log.raisedInRing1 <==> n.log.raisedInRing1 && n.ring == 1))
  {
    if e.MainStep? {
      MainStepKeepsLedger(n, e.ok, e.prxOk, e.random);
      hide MainStepped, Coherent, Bounded, Retrying;
    } else {
      hide Step, Neutral, Retrying, AsksForRetry, Coherent, Bounded, Enabled;
      TwiceInterrupt(n, e);
    }
  }

  // From a stage back to the events that led to it.

  lemma FailureIsNoReset(n: Node, e: Event)
    requires AsksForRetry(n, e)
    ensures !Resets(n, e)
  {
  }

  lemma CycleStarts(ns: seq<Node>, es: seq<Event>, i: nat)
    requires i < |es| <= |ns| && !Resets(ns[i], es[i])
    ensures SameCycle(ns, es, i, i + 1)
  {
  }

  lemma CycleExtends(ns: seq<Node>, es: seq<Event>, f: nat, i: nat)
    requires i < |es| <= |ns| && SameCycle(ns, es, f, i) && !Resets(ns[i], es[i])
    ensures SameCycle(ns, es, f, i + 1)
  {
    hide Resets;
  }

  /** The step to a state in which a failure has been noted is a step of a run. */
  lemma StepBack(ns: seq<Node>, es: seq<Event>, i: nat)
    requires IsRun(ns, es) && i < |ns| && ns[i].log.raises > 0
    ensures 0 < i <= |es| < |ns| && Enabled(ns[i - 1], es[i - 1])
    ensures ns[i] == Step(ns[i - 1], es[i - 1]) && Coherent(ns[i - 1]) && Bounded(ns[i - 1])
  {
    NothingRaisedInitially(ns, es);
    hide IsRun, Step, Enabled, Coherent, Bounded;
    RunStep(ns, es, i);
    RunIsBounded(ns, es, i - 1);
  }

  lemma NothingRaisedInitially(ns: seq<Node>, es: seq<Event>)
    requires IsRun(ns, es)
    ensures |ns| == |es| + 1 && ns[0].log.raises == 0
  {
  }

  lemma EarlyHistory(ns: seq<Node>, es: seq<Event>, i: nat) returns (f: nat)
    requires IsRun(ns, es) && i < |ns| && Early(ns[i])
    ensures f < i <= |es| < |ns| && SameCycle(ns, es, f, i)
    ensures AsksForRetry(ns[f], es[f]) && ns[f].point.Stagger?
    ensures ns[i].log.raisedInRing1 <==> ns[f].ring == 1
  {
    StepBack(ns, es, i);
    hide IsRun, Step, Enabled, Coherent, Bounded, AsksForRetry, Resets, SameCycle;
    EarlyStep(ns[i - 1], es[i - 1]);
    if Early(ns[i - 1]) && Neutral(ns[i - 1], es[i - 1]) {
      f := EarlyHistory(ns, es, i - 1);
      CycleExtends(ns, es, f, i - 1);
    } else {
      f := i - 1;
      FailureIsNoReset(ns[f], es[f]);
      CycleStarts(ns, es, f);
    }
  }

  lemma RetryAloneHistory(ns: seq<Node>, es: seq<Event>, i: nat) returns (f: nat, c: nat)
    requires IsRun(ns, es) && i < |ns| && RetryAlone(ns[i])
    ensures f < c < i <= |es| < |ns| && SameCycle(ns, es, f, i)
    ensures AsksForRetry(ns[f], es[f]) && ns[f].point.Stagger? && ConcludesEarly(ns[c], es[c])
    ensures ns[i].log.raisedInRing1 <==> ns[f].ring == 1
  {
    StepBack(ns, es, i);
    RetryAloneStep(ns[i - 1], es[i - 1]);
    hide IsRun, Step, Enabled, Coherent, Bounded, AsksForRetry, ConcludesEarly, Resets, SameCycle;
    hide Early, RetryAlone;
    if RetryAlone(ns[i - 1]) {
      f, c := RetryAloneHistory(ns, es, i - 1);
    } else {
      f := EarlyHistory(ns, es, i - 1);
      c := i - 1;
    }
    CycleExtends(ns, es, f, i - 1);
  }

  lemma RetryingHistory(ns: seq<Node>, es: seq<Event>, i: nat) returns (f: nat, c: nat, s: nat)
    requires IsRun(ns, es) && i < |ns| && Retrying(ns[i])
    ensures f < c < s < i <= |es| < |ns| && SameCycle(ns, es, f, i)
    ensures AsksForRetry(ns[f], es[f]) && ns[f].point.Stagger? && ConcludesEarly(ns[c], es[c])
    ensures StartsRetry(ns[s], es[s])
    ensures ns[i].log.raisedInRing1 <==> ns[f].ring == 1
  {
    StepBack(ns, es, i);
    RetryingStep(ns[i - 1], es[i - 1]);
    hide IsRun, Step, Enabled, Coherent, Bounded, AsksForRetry, ConcludesEarly, Resets, SameCycle;
    hide StartsRetry, RetryAlone, Retrying;
    if Retrying(ns[i - 1]) {
      f, c, s := RetryingHistory(ns, es, i - 1);
    } else {
      f, c := RetryAloneHistory(ns, es, i - 1);
      s := i - 1;
    }
    CycleExtends(ns, es, f, i - 1);
  }

  lemma TwiceHistory(ns: seq<Node>, es: seq<Event>, i: nat)
    returns (f: nat, c: nat, s: nat, g: nat)
    requires IsRun(ns, es) && i < |ns| && ns[i].log.raises == 2
    ensures f < c < s < g < i <= |es| < |ns| && SameCycle(ns, es, f, i)
    ensures AsksForRetry(ns[f], es[f]) && ns[f].point.Stagger? && ConcludesEarly(ns[c], es[c])
    ensures StartsRetry(ns[s], es[s]) && AsksForRetry(ns[g], es[g])
    ensures ns[i].log.raisedInRing1 <==> ns[f].ring == 1 && ns[g].ring == 1
  {
    StepBack(ns, es, i);
    TwiceStep(ns[i - 1], es[i - 1]);
    hide IsRun, Step, Enabled, Coherent, Bounded, AsksForRetry, ConcludesEarly, Resets, SameCycle;
    hide StartsRetry, Retrying;
    if ns[i - 1].log.raises == 2 && Neutral(ns[i - 1], es[i - 1]) {
      f, c, s, g := TwiceHistory(ns, es, i - 1);
    } else {
      f, c, s := RetryingHistory(ns, es, i - 1);
      g := i - 1;
      FailureIsNoReset(ns[g], es[g]);
    }
    CycleExtends(ns, es, f, i - 1);
  }

  // From the events forward to the count.

  /** Outside a reset the failures noted only grow in number. */
  ghost predicate NotesGrow(n: Node, e: Event, m: Node) {
    && n.log.raises + (if AsksForRetry(n, e) then 1 else 0) <= m.log.raises
    && (m.log.raisedInRing1 ==> n.log.raisedInRing1)
    && (AsksForRetry(n, e) && m.log.raisedInRing1 ==> n.ring == 1)
  }

  lemma MainStepKeepsNotes(n: Node, ok: bool, prxOk: bool, random: nat)
    requires !(n.point.CheckPtx? && n.switchToPtx)
    ensures MainStepped(n, ok, prxOk, random).log == n.log
  {
    hide MainStepped;
    MainStepKeepsLedger(n, ok, prxOk, random);
  }

  lemma RaisesStep(n: Node, e: Event)
    requires !Resets(n, e)
    ensures NotesGrow(n, e, Step(n, e))
  {
    hide CountIncrease, MainStepped;
    if e.MainStep? {
      MainStepKeepsNotes(n, e.ok, e.prxOk, e.random);
    }
  }

  lemma {:induction false} RaisesKept(ns: seq<Node>, es: seq<Event>, j: nat, i: nat)
    requires IsRun(ns, es) && j <= i < |ns| && i <= |es| && SameCycle(ns, es, j, i)
    ensures ns[j].log.raises <= ns[i].log.raises
    ensures ns[i].log.raisedInRing1 ==> ns[j].log.raisedInRing1
    decreases i - j
  {
    hide Step, Enabled, Resets, AsksForRetry;
    if j < i {
      RaisesKept(ns, es, j, i - 1);
      RunStep(ns, es, i);
      RaisesStep(ns[i - 1], es[i - 1]);
    }
  }

  lemma RaisedSince(ns: seq<Node>, es: seq<Event>, j: nat, i: nat)
    requires IsRun(ns, es) && j < i < |ns| && i <= |es| && SameCycle(ns, es, j, i)
    requires AsksForRetry(ns[j], es[j])
    ensures ns[j].log.raises + 1 <= ns[i].log.raises
    ensures ns[i].log.raisedInRing1 ==> ns[j].ring == 1
  {
    hide Step, Enabled, AsksForRetry, Resets;
    RunStep(ns, es, j + 1);
    RaisesStep(ns[j], es[j]);
    RaisesKept(ns, es, j + 1, i);
  }

  lemma ChainRaisesTwice(ns: seq<Node>, es: seq<Event>, i: nat, f: nat, c: nat, s: nat, g: nat)
    requires IsRun(ns, es) && i < |ns| && i <= |es| && Chain(ns, es, i, f, c, s, g)
    ensures ns[i].log.raises == 2
    ensures ns[i].log.raisedInRing1 ==> ns[f].ring == 1 && ns[g].ring == 1
  {
    hide Step, Enabled, AsksForRetry, ConcludesEarly, StartsRetry, Resets, Coherent;
    RaisedSince(ns, es, f, g);
    RaisedSince(ns, es, f, i);
    RaisedSince(ns, es, g, i);
    RunIsBounded(ns, es, i);
  }

  /** At every moment of every run, the retransmit count exceeds 13 if and only if, in the
      present cycle, a transmission failed in the stagger wait, the reply started after the
      wait was concluded before the retry that was already due, that retry failed too, and
      the two failures did not both come in ring 1. */
  lemma CountAbove13(ns: seq<Node>, es: seq<Event>, i: nat)
    requires IsRun(ns, es) && i < |ns|
    ensures i <= |es|
    ensures ns[i].count > 13 <==>
              exists f: nat, c: nat, s: nat, g: nat ::
                Chain(ns, es, i, f, c, s, g) && !(ns[f].ring == 1 && ns[g].ring == 1)
  {
    hide Step, Enabled, Coherent, AsksForRetry, ConcludesEarly, StartsRetry, SameCycle;
    NothingRaisedInitially(ns, es);
    RunIsBounded(ns, es, i);
    if ns[i].log.raises == 2 {
      var f, c, s, g := TwiceHistory(ns, es, i);
      assert Chain(ns, es, i, f, c, s, g);
    }
    forall f: nat, c: nat, s: nat, g: nat | Chain(ns, es, i, f, c, s, g)
      ensures ns[i].log.raises == 2
      ensures ns[i].log.raisedInRing1 ==> ns[f].ring == 1 && ns[g].ring == 1
    {
      ChainRaisesTwice(ns, es, i, f, c, s, g);
    }
  }

  // Which failures are retried.

  /** A reply is concluded: sent, or given up. */
  predicate Concludes(n: Node, e: Event) {
    e.TxSuccess? || (e.TxFailed? && n.txRetried)
  }

  /** The retry asked for at step `f` has not led to a conclusion before step `i`. */
  ghost predicate RetryOpen(ns: seq<Node>, es: seq<Event>, f: nat, i: nat)
    requires i <= |es| <= |ns|
  {
    f < i && AsksForRetry(ns[f], es[f]) && forall c :: f < c < i ==> !Concludes(ns[c], es[c])
  }

  lemma MainStepKeepsRetryBit(n: Node, ok: bool, prxOk: bool, random: nat)
    ensures MainStepped(n, ok, prxOk, random).txRetried == n.txRetried
  {
    hide MainStepped;
    MainStepKeepsLedger(n, ok, prxOk, random);
  }

  lemma RetryBitStep(n: Node, e: Event)
    ensures Step(n, e).txRetried <==> AsksForRetry(n, e) || (n.txRetried && !Concludes(n, e))
  {
    hide MainStepped, CountIncrease;
    if e.MainStep? {
      MainStepKeepsRetryBit(n, e.ok, e.prxOk, e.random);
    }
  }

  /** The retry bit stands for a retry that was asked for and never concluded. */
  lemma {:induction false} RetryBitMeansOpen(ns: seq<Node>, es: seq<Event>, i: nat)
    requires IsRun(ns, es) && i <= |es|
    ensures i < |ns|
    ensures ns[i].txRetried <==> exists f: nat :: RetryOpen(ns, es, f, i)
  {
    NothingRaisedInitially(ns, es);
    hide Step, Enabled, AsksForRetry, Concludes;
    if i > 0 {
      var n, e := ns[i - 1], es[i - 1];
      RetryBitMeansOpen(ns, es, i - 1);
      RunStep(ns, es, i);
      RetryBitStep(n, e);
      if AsksForRetry(n, e) {
        assert RetryOpen(ns, es, i - 1, i);
      } else if n.txRetried && !Concludes(n, e) {
        var f: nat :| RetryOpen(ns, es, f, i - 1);
        assert RetryOpen(ns, es, f, i);
      }
      forall f: nat | RetryOpen(ns, es, f, i) ensures ns[i].txRetried {
        if f < i - 1 {
          assert RetryOpen(ns, es, f, i - 1);
        }
      }
    }
  }

  /** A failed transmission is retried, whether it is the first of its cycle or not, if and only
      if every retry asked for before, in whatever cycle, has been concluded. */
  lemma FailureIsRetried(ns: seq<Node>, es: seq<Event>, i: nat)
    requires IsRun(ns, es) && i < |es| && es[i].TxFailed?
    ensures i < |ns|
    ensures AsksForRetry(ns[i], es[i]) <==> forall f: nat :: !RetryOpen(ns, es, f, i)
  {
    RetryBitMeansOpen(ns, es, i);
  }

  /** The radio has refused the restart for a retry: the retry bit stays set. */
  const REFUSED := INITIAL.(txRetried := true, delay := 2100, count := 13, totalAttempts := 4,
                            log := Ledger(1, 4, false, 1, false, 0))

  /** The next cycle's first transmission is under way. */
  const NEXT_CYCLE := INITIAL.(point := CheckRetry, radio := Sending, txRetried := true, inFlight := true)

  /** The first failure has asked for a retry. */
  const FAILED_ONCE := INITIAL.(point := CheckRetry, radio := Sending, retryPtx := true,
                                txRetried := true, count := 13, totalAttempts := 4,
                                log := Ledger(1, 4, false, 1, false, 0))

  lemma FailsOnce() returns (ns: seq<Node>, es: seq<Event>)
    ensures IsRun(ns, es) && |ns| == |es| + 1 && ns[|es|] == FAILED_ONCE
  {
    hide IsRun;
    ns, es := Start();
    var step := MainStep(true, true, 101);
    ns, es := Then(ns, es, Received(true, 3));
    ns, es := Then(ns, es, step);
    ns, es := Then(ns, es, step);
    ns, es := Then(ns, es, TxFailed(4));
  }

  lemma RetryRefused() returns (ns: seq<Node>, es: seq<Event>)
    ensures IsRun(ns, es) && |ns| == |es| + 1 && ns[|es|] == REFUSED
  {
    hide IsRun;
    ns, es := FailsOnce();
    ns, es := Then(ns, es, MainStep(true, true, 101));
    ns, es := Then(ns, es, MainStep(true, true, 501));
    ns, es := Then(ns, es, MainStep(false, true, 0));
    ns, es := Then(ns, es, MainStep(true, true, 101));
  }

  /** Not every cycle gets its retry: the radio refuses the restart for the retry of one cycle,
      and the first transmission of the next cycle fails and is given up at once. */
  lemma FirstFailureCanBeFinal() returns (ns: seq<Node>, es: seq<Event>)
    ensures IsRun(ns, es) && |ns| == |es| + 1 && ns[|es|] == NEXT_CYCLE
    ensures Enabled(NEXT_CYCLE, TxFailed(4)) && !AsksForRetry(NEXT_CYCLE, TxFailed(4))
    ensures !RetryDue(Step(NEXT_CYCLE, TxFailed(4)))
  {
    hide IsRun;
    ns, es := RetryRefused();
    var step := MainStep(true, true, 0);
    ns, es := Then(ns, es, Received(true, 3));
    ns, es := Then(ns, es, step);
    ns, es := Then(ns, es, step);
  }
}
