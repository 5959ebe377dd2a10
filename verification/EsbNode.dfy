/** The cluster node's radio protocol (cluster_node_multi_image_fota/net_ipc/src/main.c):
    the radio interrupt handler and the polling main loop share three atomic flags, a retry
    bit and the retransmit parameters.

    The main loop is cut at every access to a shared flag and around every radio restart;
    interrupt events may fall between any two of these points. */
module EsbNode {

  /** Where the main loop is. `Stagger` lasts from the PTX flag being taken to the restart in
      PTX mode, `Backoff` and `RetryRestart` from the retry flag being taken to the restart,
      `PrxRestart` from the PRX flag being taken to the restart in PRX mode. */
  datatype Point =
    | CheckPtx | Stagger
    | CheckRetry | Backoff | RetryRestart
    | CheckPrx | PrxRestart
    | Halted

  /** What has happened in the present reply cycle, that is, since the parameters were last
      reset: transmissions concluded, the true number of attempts they took, whether one of
      them failed between the reset and the restart that followed it, how many failures
      asked for a retry, and whether all of those came in ring 1. `reported` is the true
      number of attempts when a reply was last concluded. */
  datatype Ledger = Ledger(
    outcomes: nat,
    attempts: nat,
    failedInStagger: bool,
    raises: nat,
    raisedInRing1: bool,
    reported: nat)

  /** The radio listens, is set up to send, or is shut down after it refused to listen. */
  datatype Radio = Listening | Sending | Silent

  datatype Node = Node(
    point: Point,
    radio: Radio,
    switchToPtx: bool,
    switchToPrx: bool,
    retryPtx: bool,
    txRetried: bool,
    inFlight: bool,
    startCount: nat,
    delay: nat,
    count: nat,
    ring: nat,
    totalAttempts: nat,
    lastTxAttempts: nat,
    log: Ledger)

  const INITIAL := Node(CheckPtx, Listening, false, false, false, false, false, 3, 600, 3, 3, 0, 0,
                        Ledger(0, 0, false, 0, true, 0))

  /** `ok` is the outcome of a restart in PTX mode, `prxOk` that of a return to listening,
      `random` the number drawn in a step. A packet is received only while listening. */
  datatype Event =
    | MainStep(ok: bool, prxOk: bool, random: nat)
    | Received(trigger: bool, ring: nat)
    | TxSuccess(txAttempts: nat)
    | TxFailed(txAttempts: nat)

  predicate Enabled(n: Node, e: Event) {
    match e
    case MainStep(_, _, _) => !n.point.Halted?
    case Received(_, ring) => 1 <= ring <= 3 && n.radio.Listening?
    case TxSuccess(_) => n.inFlight
    case TxFailed(_) => n.inFlight
  }

  function CountIncrease(ring: nat): nat {
    if ring == 1 then 5 else if ring == 2 then 7 else 10
  }

  function DelayIncrease(ring: nat, random: nat): nat {
    if ring == 1 then random % 201
    else if ring == 2 then 500 + random % 501
    else 1500 + random % 501
  }

  /** Listen; a transmission under way is lost. */
  function EnterPrx(n: Node, prxOk: bool): Node {
    n.(inFlight := false, radio := if prxOk then Listening else Silent)
  }

  /** Restart in PTX mode and queue the reply; on failure the node tries to listen again, and
      goes on whether that works or not. Either way a transmission under way is lost. */
  function EnterPtx(n: Node, ok: bool, prxOk: bool): Node {
    if ok then n.(inFlight := true, radio := Sending, startCount := n.count) else EnterPrx(n, prxOk)
  }

  function MainStepped(n: Node, ok: bool, prxOk: bool, random: nat): Node {
    match n.point
    case CheckPtx =>
      if n.switchToPtx then
        n.(switchToPtx := false, delay := 600, count := 3, totalAttempts := 0, point := Stagger,
           log := n.log.(outcomes := 0, attempts := 0, failedInStagger := false, raises := 0,
                         raisedInRing1 := true))
      else n.(point := CheckRetry)
    case Stagger => EnterPtx(n, ok, prxOk).(point := CheckRetry)
    case CheckRetry =>
      if n.retryPtx then n.(retryPtx := false, point := Backoff) else n.(point := CheckPrx)
    case Backoff => n.(delay := n.delay + DelayIncrease(n.ring, random), point := RetryRestart)
    case RetryRestart => EnterPtx(n, ok, prxOk).(point := CheckPrx)
    case CheckPrx =>
      if n.switchToPrx then n.(switchToPrx := false, point := PrxRestart) else n.(point := CheckPtx)
    case PrxRestart => EnterPrx(n, prxOk).(point := if prxOk then CheckPtx else Halted)
    case Halted => n
  }

  lemma RestartKeepsLedger(n: Node, ok: bool, prxOk: bool, random: nat)
    requires n.point.Stagger? || n.point.RetryRestart? || n.point.PrxRestart?
    ensures var m := MainStepped(n, ok, prxOk, random);
            m.log == n.log && m.txRetried == n.txRetried
  {
  }

  lemma OtherMainStepKeepsLedger(n: Node, ok: bool, prxOk: bool, random: nat)
    requires !n.point.Stagger? && !n.point.RetryRestart? && !n.point.PrxRestart?
    ensures var m := MainStepped(n, ok, prxOk, random);
            && m.txRetried == n.txRetried
            && m.log == (if n.point.CheckPtx? && n.switchToPtx
                         then n.log.(outcomes := 0, attempts := 0, failedInStagger := false,
                                     raises := 0, raisedInRing1 := true)
                         else n.log)
  {
    hide EnterPtx, EnterPrx, DelayIncrease;
  }

  /** Only a new cycle touches the ledger, and no step of the loop the retry bit. */
  lemma MainStepKeepsLedger(n: Node, ok: bool, prxOk: bool, random: nat)
    ensures var m := MainStepped(n, ok, prxOk, random);
            && m.txRetried == n.txRetried
            && m.log == (if n.point.CheckPtx? && n.switchToPtx
                         then n.log.(outcomes := 0, attempts := 0, failedInStagger := false,
                                     raises := 0, raisedInRing1 := true)
                         else n.log)
  {
    hide MainStepped;
    if n.point.Stagger? || n.point.RetryRestart? || n.point.PrxRestart? {
      RestartKeepsLedger(n, ok, prxOk, random);
    } else {
      OtherMainStepKeepsLedger(n, ok, prxOk, random);
    }
  }

  /** The byte total wraps as the source's `uint8_t` does. */
  function Tallied(n: Node, txAttempts: nat): Node {
    n.(totalAttempts := (n.totalAttempts + txAttempts % 256) % 256,
       log := n.log.(outcomes := n.log.outcomes + 1, attempts := n.log.attempts + txAttempts))
  }

  /** The first failure raises the count by the ring and asks for a retry. */
  function Raised(n: Node): Node {
    n.(count := n.count + CountIncrease(n.ring), txRetried := true, retryPtx := true,
       log := n.log.(failedInStagger := n.log.failedInStagger || n.point.Stagger?,
                     raises := n.log.raises + 1,
                     raisedInRing1 := n.log.raisedInRing1 && n.ring == 1))
  }

  function Concluded(n: Node): Node {
    n.(lastTxAttempts := n.totalAttempts, txRetried := false, switchToPrx := true,
       log := n.log.(reported := n.log.attempts))
  }

  function Step(n: Node, e: Event): Node {
    match e
    case MainStep(ok, prxOk, random) => MainStepped(n, ok, prxOk, random)
    case Received(trigger, ring) =>
      n.(ring := ring, switchToPtx := n.switchToPtx || trigger)
    case TxSuccess(txAttempts) => Concluded(Tallied(n.(inFlight := false), txAttempts))
    case TxFailed(txAttempts) =>
      var m := Tallied(n.(inFlight := false), txAttempts);
      if !n.txRetried then Raised(m)
      else Concluded(m)
  }

  // Executions from an arbitrary state.

  function After(n: Node, es: seq<Event>): Node {
    if es == [] then n else Step(After(n, es[..|es| - 1]), es[|es| - 1])
  }

  /** The events can happen one after the other from state `n`, and lead to state `m`. */
  ghost predicate Leads(n: Node, es: seq<Event>, m: Node) {
    m == After(n, es) && AreEnabled(n, es)
  }

  predicate AreEnabled(n: Node, es: seq<Event>) {
    es == []
    || (AreEnabled(n, es[..|es| - 1]) && Enabled(After(n, es[..|es| - 1]), es[|es| - 1]))
  }

  lemma LeadsFurther(n: Node, es: seq<Event>, m: Node, e: Event)
    requires Leads(n, es, m) && Enabled(m, e)
    ensures Leads(n, es + [e], Step(m, e))
  {
    hide Enabled, Step;
    assert (es + [e])[..|es|] == es;
  }

  lemma LeadsNowhere(n: Node, m: Node)
    requires Leads(n, [], m)
    ensures n == m
  {
  }

  lemma LeadsUpTo(n: Node, es: seq<Event>, m: Node)
    requires Leads(n, es, m) && es != []
    ensures var init := es[..|es| - 1];
            && Leads(n, init, After(n, init)) && Enabled(After(n, init), es[|es| - 1])
            && m == Step(After(n, init), es[|es| - 1])
  {
    hide Enabled, Step;
  }

  lemma {:induction false} LeadsOn(n: Node, x: seq<Event>, m: Node, y: seq<Event>, p: Node)
    requires Leads(n, x, m) && Leads(m, y, p)
    ensures Leads(n, x + y, p)
    decreases |y|
  {
    hide Enabled, Step, After, Leads, AreEnabled;
    if y == [] {
      LeadsNowhere(m, p);
      assert x + y == x;
    } else {
      var init := y[..|y| - 1];
      LeadsUpTo(m, y, p);
      LeadsOn(n, x, m, init, After(m, init));
      LeadsFurther(n, x + init, After(m, init), y[|y| - 1]);
      assert x + y == x + init + [y[|y| - 1]];
    }
  }

  ghost predicate StepsAt(ns: seq<Node>, es: seq<Event>, i: nat)
    requires i < |es| && |ns| == |es| + 1
  {
    Enabled(ns[i], es[i]) && ns[i + 1] == Step(ns[i], es[i])
  }

  ghost predicate IsRun(ns: seq<Node>, es: seq<Event>) {
    && |ns| == |es| + 1 && ns[0] == INITIAL
    && forall i :: 0 <= i < |es| ==> StepsAt(ns, es, i)
  }

  lemma RunStep(ns: seq<Node>, es: seq<Event>, i: nat)
    requires IsRun(ns, es) && 0 < i < |ns|
    ensures Enabled(ns[i - 1], es[i - 1]) && ns[i] == Step(ns[i - 1], es[i - 1])
  {
    hide Step, Enabled;
    assert StepsAt(ns, es, i - 1);
  }

  /** An execution from power-up is a run. */
  lemma {:induction false} LeadsIsRun(es: seq<Event>, m: Node) returns (ns: seq<Node>)
    requires Leads(INITIAL, es, m)
    ensures IsRun(ns, es) && ns[|es|] == m
    decreases |es|
  {
    hide Enabled, Step;
    if es == [] {
      ns := [INITIAL];
    } else {
      var init := es[..|es| - 1];
      var ms := LeadsIsRun(init, After(INITIAL, init));
      ns := ms + [m];
      forall i | 0 <= i < |es| ensures StepsAt(ns, es, i) {
        assert i < |init| ==> StepsAt(ms, init, i);
      }
    }
  }

  /** A retry has been asked for and not yet started. */
  predicate RetryDue(n: Node) {
    n.retryPtx || n.point.Backoff? || n.point.RetryRestart?
  }

  /** How the flags, the retry bit and the main loop's position are tied together. */
  ghost predicate Coherent(n: Node) {
    && 1 <= n.ring <= 3
    && (n.point.Backoff? || n.point.RetryRestart? ==> !n.retryPtx)
    && (n.retryPtx && !n.point.CheckRetry? ==> n.txRetried && !n.inFlight)
    && (n.inFlight && RetryDue(n) ==> n.txRetried)
    && (n.point.Stagger? && n.log.failedInStagger ==> n.retryPtx)
  }

  /** Transmissions that may still be started without a further trigger being taken. */
  function RetriesOwed(n: Node): nat {
    if RetryDue(n) then (if n.txRetried && !n.inFlight then 1 else 2)
    else if n.inFlight && !n.txRetried then 1
    else 0
  }

  /** Every trigger pays for at most two transmissions. */
  ghost predicate PaidFor(n: Node, starts: nat, triggers: nat) {
    starts + (if n.switchToPtx then 2 else 0) + (if n.point.Stagger? then 2 else 0)
    + RetriesOwed(n) <= 2 * triggers
  }

  /** The event starts a reply transmission. */
  predicate Starts(n: Node, e: Event) {
    e.MainStep? && e.ok && (n.point.Stagger? || n.point.RetryRestart?)
  }

  predicate Triggers(e: Event) {
    e.Received? && e.trigger
  }

  /** The event initialises the radio in PTX mode with the retransmit parameters. */
  predicate Initialises(n: Node, e: Event) {
    e.MainStep? && (n.point.Stagger? || n.point.RetryRestart?)
  }

  /** Most failures that may have asked for a retry by this stage of the cycle. */
  function RaiseBound(n: Node): nat {
    var base := if n.log.failedInStagger then 1 else 0;
    if n.point.Stagger? then base
    else if !n.txRetried && (n.inFlight || RetryDue(n)) then base
    else if n.inFlight && RetryDue(n) then base
    else base + 1
  }

  /** The retransmit count that the failures of this cycle account for. */
  ghost predicate CountTold(n: Node) {
    && n.log.raises <= 2
    && (n.log.raises == 0 ==> n.count == 3 && n.log.raisedInRing1)
    && (n.log.raises == 1 ==> if n.log.raisedInRing1 then n.count == 8 else 10 <= n.count <= 13)
    && (n.log.raises == 2 ==> if n.log.raisedInRing1 then n.count == 13 else 15 <= n.count <= 23)
  }

  /** Largest retransmit delay (us) at this stage of the cycle. */
  function DelayBound(n: Node): nat {
    if n.point.Stagger? then 600
    else if n.point.RetryRestart? then (if n.txRetried && !n.inFlight then 4600 else 2600)
    else if RetryDue(n) then (if n.txRetried && !n.inFlight then 2600 else 600)
    else if n.inFlight && !n.txRetried then 2600
    else 4600
  }

  ghost predicate Bounded(n: Node) {
    n.log.raises <= RaiseBound(n) && CountTold(n) && n.delay <= DelayBound(n) && n.startCount <= 23
  }

  lemma CoherentRestart(n: Node, ok: bool, prxOk: bool, random: nat)
    requires Coherent(n) && (n.point.Stagger? || n.point.RetryRestart? || n.point.PrxRestart?)
    ensures Coherent(MainStepped(n, ok, prxOk, random))
  {
  }

  lemma CoherentFlagTaken(n: Node, ok: bool, prxOk: bool, random: nat)
    requires Coherent(n) && !n.point.Stagger? && !n.point.RetryRestart? && !n.point.PrxRestart?
    ensures Coherent(MainStepped(n, ok, prxOk, random))
  {
    hide EnterPtx, EnterPrx, DelayIncrease;
  }

  lemma CoherentInterrupt(n: Node, e: Event)
    requires Coherent(n) && Enabled(n, e) && !e.MainStep?
    ensures Coherent(Step(n, e))
  {
    hide MainStepped, CountIncrease;
  }

  lemma CoherentStep(n: Node, e: Event)
    requires Coherent(n) && Enabled(n, e)
    ensures Coherent(Step(n, e))
  {
    hide Coherent, MainStepped;
    if !e.MainStep? {
      CoherentInterrupt(n, e);
    } else if n.point.Stagger? || n.point.RetryRestart? || n.point.PrxRestart? {
      CoherentRestart(n, e.ok, e.prxOk, e.random);
    } else {
      CoherentFlagTaken(n, e.ok, e.prxOk, e.random);
    }
  }

  lemma PaidForStep(n: Node, e: Event, starts: nat, triggers: nat)
    requires Coherent(n) && PaidFor(n, starts, triggers) && Enabled(n, e)
    ensures PaidFor(Step(n, e), starts + (if Starts(n, e) then 1 else 0),
                    triggers + (if Triggers(e) then 1 else 0))
  {
    hide DelayIncrease, CountIncrease;
  }

  lemma BoundedStep(n: Node, e: Event)
    requires Coherent(n) && Bounded(n) && Enabled(n, e)
    ensures Bounded(Step(n, e))
  {
    match e {
      case MainStep(ok, prxOk, random) => BoundedMainStep(n, ok, prxOk, random);
      case _ =>
    }
  }

  lemma DelayIncreaseBound(ring: nat, random: nat)
    ensures DelayIncrease(ring, random) <= 2000
  {
  }

  lemma BoundedFlagTaken(n: Node, ok: bool, prxOk: bool, random: nat)
    requires Coherent(n) && Bounded(n)
    requires n.point.CheckPtx? || n.point.CheckRetry? || n.point.CheckPrx?
    ensures Bounded(MainStepped(n, ok, prxOk, random))
  {
  }

  lemma BoundedStagger(n: Node, ok: bool, prxOk: bool, random: nat)
    requires Coherent(n) && Bounded(n) && n.point.Stagger?
    ensures Bounded(MainStepped(n, ok, prxOk, random))
  {
  }

  lemma BoundedRestart(n: Node, ok: bool, prxOk: bool, random: nat)
    requires Coherent(n) && Bounded(n)
    requires n.point.Backoff? || n.point.RetryRestart? || n.point.PrxRestart? || n.point.Halted?
    ensures Bounded(MainStepped(n, ok, prxOk, random))
  {
    DelayIncreaseBound(n.ring, random);
    hide DelayIncrease;
  }

  lemma BoundedMainStep(n: Node, ok: bool, prxOk: bool, random: nat)
    requires Coherent(n) && Bounded(n)
    ensures Bounded(MainStepped(n, ok, prxOk, random))
  {
    hide Coherent, Bounded, MainStepped;
    match n.point {
      case Stagger => BoundedStagger(n, ok, prxOk, random);
      case CheckPtx => BoundedFlagTaken(n, ok, prxOk, random);
      case CheckRetry => BoundedFlagTaken(n, ok, prxOk, random);
      case CheckPrx => BoundedFlagTaken(n, ok, prxOk, random);
      case _ => BoundedRestart(n, ok, prxOk, random);
    }
  }

  lemma {:induction false} RunIsBounded(ns: seq<Node>, es: seq<Event>, i: nat)
    requires IsRun(ns, es) && i < |ns|
    ensures Coherent(ns[i]) && Bounded(ns[i])
  {
    hide Step, Enabled;
    if i > 0 {
      RunIsBounded(ns, es, i - 1);
      RunStep(ns, es, i);
      hide Coherent, Bounded;
      CoherentStep(ns[i - 1], es[i - 1]);
      BoundedStep(ns[i - 1], es[i - 1]);
    }
  }

  /** Reply transmissions started in the first `i` steps. */
  ghost function StartsIn(ns: seq<Node>, es: seq<Event>, i: nat): nat
    requires i <= |es| < |ns|
  {
    if i == 0 then 0 else StartsIn(ns, es, i - 1) + (if Starts(ns[i - 1], es[i - 1]) then 1 else 0)
  }

  /** Trigger packets received in the first `i` steps. */
  ghost function TriggersIn(es: seq<Event>, i: nat): nat
    requires i <= |es|
  {
    if i == 0 then 0 else TriggersIn(es, i - 1) + (if Triggers(es[i - 1]) then 1 else 0)
  }

  lemma {:induction false} RunIsPaidFor(ns: seq<Node>, es: seq<Event>, i: nat)
    requires IsRun(ns, es) && i < |ns|
    ensures PaidFor(ns[i], StartsIn(ns, es, i), TriggersIn(es, i))
  {
    hide Step, Enabled, Coherent, Bounded, Starts, Triggers;
    if i > 0 {
      RunIsPaidFor(ns, es, i - 1);
      RunIsBounded(ns, es, i - 1);
      RunStep(ns, es, i);
      hide PaidFor;
      PaidForStep(ns[i - 1], es[i - 1], StartsIn(ns, es, i - 1), TriggersIn(es, i - 1));
    }
  }

  /** Under every interleaving, the number of reply transmissions started never exceeds
      twice the number of triggers received. */
  lemma AtMostTwoStartsPerTrigger(ns: seq<Node>, es: seq<Event>, i: nat)
    requires IsRun(ns, es) && i < |ns|
    ensures StartsIn(ns, es, i) <= 2 * TriggersIn(es, i)
  {
    RunIsPaidFor(ns, es, i);
  }

  /** Under every interleaving, the radio is initialised in PTX mode with a retransmit count
      of at most 23 and a delay of at most 4600 us. The count exceeds 13 exactly if two
      failures of the cycle asked for a retry, not both in ring 1; and two only do if one of
      them fell into the stagger wait. */
  lemma RetransmitBounds(ns: seq<Node>, es: seq<Event>, i: nat)
    requires IsRun(ns, es) && i < |es| && Initialises(ns[i], es[i])
    ensures ns[i].count <= 23 && ns[i].delay <= 4600
    ensures ns[i].count > 13 <==> ns[i].log.raises == 2 && !ns[i].log.raisedInRing1
    ensures ns[i].log.raises == 2 ==> ns[i].log.failedInStagger
  {
    RunIsBounded(ns, es, i);
  }

  /** A reply cycle is under way. */
  predicate CycleOpen(n: Node) {
    n.switchToPtx || n.point.Stagger? || RetryDue(n) || n.inFlight
  }

  /** No trigger arrives while a reply cycle is open. */
  ghost predicate WellSpaced(ns: seq<Node>, es: seq<Event>) {
    |es| <= |ns| && forall i :: 0 <= i < |es| && Triggers(es[i]) ==> !CycleOpen(ns[i])
  }

  ghost predicate SingleCycle(n: Node) {
    && (n.switchToPtx || n.point.Stagger? ==> !RetryDue(n) && !n.inFlight)
    && (n.switchToPtx ==> !n.point.Stagger?)
    && (RetryDue(n) ==> n.txRetried && !n.inFlight)
    && !n.log.failedInStagger
    && (n.point.Stagger? || n.retryPtx || n.point.Backoff? || (n.inFlight && !n.txRetried)
        ==> n.delay <= 600)
    && n.delay <= 2600
  }

  lemma SingleCycleStep(n: Node, e: Event)
    requires Coherent(n) && SingleCycle(n) && Enabled(n, e) && (Triggers(e) ==> !CycleOpen(n))
    ensures SingleCycle(Step(n, e))
  {
    if e.MainStep? {
      DelayIncreaseBound(n.ring, e.random);
    }
    hide DelayIncrease, CountIncrease;
  }

  lemma {:induction false} WellSpacedRun(ns: seq<Node>, es: seq<Event>, i: nat)
    requires IsRun(ns, es) && WellSpaced(ns, es) && i < |ns|
    ensures SingleCycle(ns[i])
  {
    hide Step, Enabled, Coherent, Bounded;
    if i > 0 {
      WellSpacedRun(ns, es, i - 1);
      RunIsBounded(ns, es, i - 1);
      RunStep(ns, es, i);
      assert Triggers(es[i - 1]) ==> !CycleOpen(ns[i - 1]);
      hide Triggers, CycleOpen, SingleCycle;
      SingleCycleStep(ns[i - 1], es[i - 1]);
    }
  }

  /** If no trigger arrives during an open reply cycle, the count at every initialisation is
      at most 13 and the delay at most 2600 us. */
  lemma RetransmitBoundsWhenSpaced(ns: seq<Node>, es: seq<Event>, i: nat)
    requires IsRun(ns, es) && WellSpaced(ns, es) && i < |es| && Initialises(ns[i], es[i])
    ensures ns[i].count <= 13 && ns[i].delay <= 2600
  {
    WellSpacedRun(ns, es, i);
    RetransmitBounds(ns, es, i);
  }

  /** ESB reports at most one attempt more than the retransmit count in effect. */
  predicate Plausible(n: Node, e: Event) {
    match e
    case TxSuccess(txAttempts) => txAttempts <= n.startCount + 1
    case TxFailed(txAttempts) => txAttempts <= n.startCount + 1
    case _ => true
  }

  /** Outcomes that may still be tallied before the next reset. */
  function OutcomesAhead(n: Node): nat {
    if n.point.Stagger? then
      if n.inFlight then (if n.txRetried then 3 else 4)
      else if RetryDue(n) then 3
      else if n.txRetried then 1 else 2
    else if RetryDue(n) then (if n.inFlight then 3 else if n.txRetried then 1 else 2)
    else if n.inFlight then (if n.txRetried then 1 else 2)
    else 0
  }

  ghost predicate TallyExact(n: Node) {
    && n.log.outcomes + OutcomesAhead(n) <= 4
    && n.log.attempts <= 24 * n.log.outcomes
    && n.totalAttempts == n.log.attempts
    && n.lastTxAttempts == n.log.reported
  }

  lemma ByteSum(total: nat, txAttempts: nat)
    requires total + txAttempts < 256
    ensures (total + txAttempts % 256) % 256 == total + txAttempts
  {
  }

  lemma TallyFlagTaken(n: Node, ok: bool, prxOk: bool, random: nat)
    requires Coherent(n) && TallyExact(n)
    requires n.point.CheckPtx? || n.point.CheckRetry? || n.point.CheckPrx?
    ensures TallyExact(MainStepped(n, ok, prxOk, random))
  {
  }

  lemma TallyStagger(n: Node, ok: bool, prxOk: bool, random: nat)
    requires Coherent(n) && TallyExact(n) && n.point.Stagger?
    ensures TallyExact(MainStepped(n, ok, prxOk, random))
  {
  }

  lemma TallyRestart(n: Node, ok: bool, prxOk: bool, random: nat)
    requires Coherent(n) && TallyExact(n)
    requires n.point.Backoff? || n.point.RetryRestart? || n.point.PrxRestart? || n.point.Halted?
    ensures TallyExact(MainStepped(n, ok, prxOk, random))
  {
    hide DelayIncrease;
  }

  lemma TallyMainStep(n: Node, ok: bool, prxOk: bool, random: nat)
    requires Coherent(n) && TallyExact(n)
    ensures TallyExact(MainStepped(n, ok, prxOk, random))
  {
    hide Coherent, TallyExact, MainStepped;
    match n.point {
      case Stagger => TallyStagger(n, ok, prxOk, random);
      case CheckPtx => TallyFlagTaken(n, ok, prxOk, random);
      case CheckRetry => TallyFlagTaken(n, ok, prxOk, random);
      case CheckPrx => TallyFlagTaken(n, ok, prxOk, random);
      case _ => TallyRestart(n, ok, prxOk, random);
    }
  }

  lemma TallyOutcome(n: Node, e: Event)
    requires n.startCount <= 23 && Coherent(n) && TallyExact(n)
    requires e.TxSuccess? || e.TxFailed?
    requires Enabled(n, e) && Plausible(n, e)
    ensures TallyExact(Step(n, e))
  {
    ByteSum(n.totalAttempts, e.txAttempts);
    hide DelayIncrease, CountIncrease;
  }

  lemma TallyStep(n: Node, e: Event)
    requires Coherent(n) && Bounded(n) && TallyExact(n) && Enabled(n, e) && Plausible(n, e)
    ensures TallyExact(Step(n, e))
  {
    if e.TxSuccess? || e.TxFailed? {
      hide Coherent, TallyExact;
      TallyOutcome(n, e);
    } else if e.MainStep? {
      hide Coherent, TallyExact, MainStepped;
      TallyMainStep(n, e.ok, e.prxOk, e.random);
    }
  }

  ghost predicate PlausibleRun(ns: seq<Node>, es: seq<Event>) {
    |es| <= |ns| && forall i :: 0 <= i < |es| ==> Plausible(ns[i], es[i])
  }

  lemma TallyInitially()
    ensures TallyExact(INITIAL)
  {
  }

  lemma RunLengths(ns: seq<Node>, es: seq<Event>)
    requires IsRun(ns, es)
    ensures |ns| == |es| + 1
  {
  }

  lemma PlausibleAt(ns: seq<Node>, es: seq<Event>, i: nat)
    requires PlausibleRun(ns, es) && i < |es|
    ensures Plausible(ns[i], es[i])
  {
    hide Plausible;
  }

  lemma {:induction false} RunTally(ns: seq<Node>, es: seq<Event>, i: nat)
    requires IsRun(ns, es) && PlausibleRun(ns, es) && i < |ns|
    ensures TallyExact(ns[i])
  {
    hide Step, Enabled, Coherent, Bounded, Plausible;
    if i == 0 {
      TallyInitially();
    } else {
      hide TallyExact, IsRun, PlausibleRun;
      RunLengths(ns, es);
      RunTally(ns, es, i - 1);
      RunIsBounded(ns, es, i - 1);
      RunStep(ns, es, i);
      PlausibleAt(ns, es, i - 1);
      TallyStep(ns[i - 1], es[i - 1]);
    }
  }

  /** The 8-bit attempt total never wraps: it stays at most 96 and equals the true number of
      attempts tallied since the parameters were reset, and the byte reported in the next
      reply is that true number at the time the last reply was concluded. */
  lemma AttemptTotalNeverWraps(ns: seq<Node>, es: seq<Event>, i: nat)
    requires IsRun(ns, es) && PlausibleRun(ns, es) && i < |ns|
    ensures ns[i].totalAttempts == ns[i].log.attempts <= 96
    ensures ns[i].lastTxAttempts == ns[i].log.reported
  {
    RunTally(ns, es, i);
  }

  // Concrete runs: the bounds above are attained.

  lemma Then(ns: seq<Node>, es: seq<Event>, e: Event) returns (ms: seq<Node>, fs: seq<Event>)
    requires IsRun(ns, es) && Enabled(ns[|es|], e)
    ensures IsRun(ms, fs) && fs == es + [e] && ms == ns + [Step(ns[|es|], e)] && |ns| == |es| + 1
  {
    hide Step, Enabled;
    ms, fs := ns + [Step(ns[|es|], e)], es + [e];
    forall i | 0 <= i < |fs| ensures StepsAt(ms, fs, i) {
      assert i < |es| ==> StepsAt(ns, es, i);
    }
  }

  const STRONGEST := 500

  /** A reply has failed in the stagger wait of the next cycle. */
  const FAILED_IN_STAGGER := Node(Stagger, Sending, false, false, true, true, false, 3, 600, 13, 3,
                                  4, 0, Ledger(1, 4, true, 1, false, 0))

  /** The next reply has got through, and the retry that was already due is sent all the same. */
  const RETRY_SENT := Node(PrxRestart, Sending, false, false, false, false, true, 13, 2600, 13, 3,
                           5, 5, Ledger(2, 5, true, 1, false, 5))

  lemma FailingInStagger() returns (ns: seq<Node>, es: seq<Event>)
    ensures IsRun(ns, es) && |ns| == |es| + 1 && ns[|es|] == FAILED_IN_STAGGER
  {
    hide IsRun;
    ns, es := Start();
    var step := MainStep(true, true, STRONGEST);
    ns, es := Then(ns, es, Received(true, 3));
    ns, es := Then(ns, es, step);
    ns, es := Then(ns, es, Received(true, 3));
    ns, es := Then(ns, es, step);
    ns, es := Then(ns, es, step);
    ns, es := Then(ns, es, step);
    ns, es := Then(ns, es, step);
    ns, es := Then(ns, es, TxFailed(4));
  }

  lemma SendingDueRetry() returns (ns: seq<Node>, es: seq<Event>)
    ensures IsRun(ns, es) && |ns| == |es| + 1 && ns[|es|] == RETRY_SENT
  {
    hide IsRun;
    ns, es := FailingInStagger();
    var step := MainStep(true, true, STRONGEST);
    ns, es := Then(ns, es, step);
    ns, es := Then(ns, es, TxSuccess(1));
    ns, es := Then(ns, es, step);
    ns, es := Then(ns, es, step);
    ns, es := Then(ns, es, step);
    ns, es := Then(ns, es, step);
  }

  /** Without the stagger condition the bound of 13 is false: a second trigger during the
      first stagger starts a new cycle while the first reply is in flight; that reply fails
      during the second stagger, so the new cycle starts at count 13 with a retry already
      due; the new reply gets through, the due retry is sent all the same and fails, and
      the radio is initialised with count 23 and delay 4600 us. */
  lemma CountCanReach23() returns (ns: seq<Node>, es: seq<Event>)
    ensures IsRun(ns, es)
    ensures var n := ns[|es|];
            Initialises(n, MainStep(true, true, 0)) && n.count == 23 && n.delay == 4600
  {
    hide IsRun;
    ns, es := SendingDueRetry();
    var step := MainStep(true, true, STRONGEST);
    ns, es := Then(ns, es, TxFailed(14));
    ns, es := Then(ns, es, step);
    ns, es := Then(ns, es, step);
    ns, es := Then(ns, es, step);
    ns, es := Then(ns, es, step);
  }

  /** The bound of two transmissions per trigger is attained. */
  lemma TwoStartsForOneTrigger() returns (ns: seq<Node>, es: seq<Event>)
    ensures IsRun(ns, es)
    ensures StartsIn(ns, es, |es|) == 2 && TriggersIn(es, |es|) == 1
  {
    hide IsRun;
    ns, es := Start();
    var step := MainStep(true, true, STRONGEST);
    ns, es := CountedThen(ns, es, Received(true, 3));
    ns, es := CountedThen(ns, es, step);
    ns, es := CountedThen(ns, es, step);
    ns, es := CountedThen(ns, es, TxFailed(4));
    ns, es := CountedThen(ns, es, step);
    ns, es := CountedThen(ns, es, step);
    ns, es := CountedThen(ns, es, step);
  }

  lemma {:induction false} PrefixCounts(ns: seq<Node>, es: seq<Event>, n: Node, e: Event, i: nat)
    requires i <= |es| < |ns|
    ensures StartsIn(ns + [n], es + [e], i) == StartsIn(ns, es, i)
    ensures TriggersIn(es + [e], i) == TriggersIn(es, i)
  {
    hide Starts, Triggers;
    if i > 0 {
      PrefixCounts(ns, es, n, e, i - 1);
    }
  }

  lemma CountedThen(ns: seq<Node>, es: seq<Event>, e: Event) returns (ms: seq<Node>, fs: seq<Event>)
    requires IsRun(ns, es) && Enabled(ns[|es|], e)
    ensures IsRun(ms, fs) && |fs| == |es| + 1 && ms[|fs|] == Step(ns[|es|], e)
    ensures StartsIn(ms, fs, |fs|)
            == StartsIn(ns, es, |es|) + (if Starts(ns[|es|], e) then 1 else 0)
    ensures TriggersIn(fs, |fs|) == TriggersIn(es, |es|) + (if Triggers(e) then 1 else 0)
  {
    hide Step, Enabled, Starts, Triggers;
    PrefixCounts(ns, es, Step(ns[|es|], e), e, |es|);
    ms, fs := Then(ns, es, e);
  }

  lemma Start() returns (ns: seq<Node>, es: seq<Event>)
    ensures IsRun(ns, es) && ns == [INITIAL] && es == []
  {
    ns, es := [INITIAL], [];
  }
}
