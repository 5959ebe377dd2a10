/** The node's shared variables and the code that works on them: the interrupt handler, the
    sections of the main loop between two accesses to a shared flag, and the loop itself with
    interrupts between its sections; proved to follow the protocol in EsbNode.dfy. */
module EsbNodeCore {
  import opened EsbNode

  /** What the environment does in one pass of the main loop: the interrupts that arrive
      before each section, the outcomes of the radio calls and the random number drawn. */
  datatype Pass = Pass(
    beforePtx: seq<Event>,
    inStagger: seq<Event>,
    beforeRetry: seq<Event>,
    inBackoff: seq<Event>,
    beforeRestart: seq<Event>,
    beforePrx: seq<Event>,
    inPrxSwitch: seq<Event>,
    ptxOk: bool,
    fallbackOk: bool,
    retryOk: bool,
    retryFallbackOk: bool,
    prxOk: bool,
    random: nat)

  predicate IsInterrupt(e: Event) {
    !e.MainStep? && (e.Received? ==> 1 <= e.ring <= 3)
  }

  ghost predicate AreInterrupts(es: seq<Event>) {
    forall e :: e in es ==> IsInterrupt(e)
  }

  ghost predicate OnlyInterrupts(p: Pass) {
    && AreInterrupts(p.beforePtx) && AreInterrupts(p.inStagger)
    && AreInterrupts(p.beforeRetry) && AreInterrupts(p.inBackoff)
    && AreInterrupts(p.beforeRestart) && AreInterrupts(p.beforePrx)
    && AreInterrupts(p.inPrxSwitch)
  }

  class NodeCore {
    var doSwitchToPtx: bool
    var doSwitchToPrx: bool
    var doRetryPtx: bool
    var txRetried: bool
    var ptxRetransmitDelay: nat
    var ptxRetransmitCount: nat
    var selectedRing: nat
    var currentPacketTotalAttempts: nat
    var lastTxAttempts: nat
    /** What the radio is set up for, and whether it is transmitting a reply. */
    var radio: Radio
    var inFlight: bool
    // Where the main loop is, the count in effect, and the ledger of the cycle.
    ghost var point: Point
    ghost var startCount: nat
    ghost var log: Ledger

    ghost function View(): Node
      reads this
    {
      Node(point, radio, doSwitchToPtx, doSwitchToPrx, doRetryPtx, txRetried, inFlight, startCount,
           ptxRetransmitDelay, ptxRetransmitCount, selectedRing, currentPacketTotalAttempts,
           lastTxAttempts, log)
    }

    constructor ()
      ensures View() == INITIAL
    {
      doSwitchToPtx, doSwitchToPrx, doRetryPtx, txRetried := false, false, false, false;
      ptxRetransmitDelay, ptxRetransmitCount, selectedRing := 600, 3, 3;
      currentPacketTotalAttempts, lastTxAttempts := 0, 0;
      radio, inFlight := Listening, false;
      point, startCount, log := CheckPtx, 3, Ledger(0, 0, false, 0, true, 0);
    }

    // Interrupt handler.

    method OnReceived(trigger: bool, ring: nat)
      modifies this`doSwitchToPtx, this`selectedRing
      ensures View() == Step(old(View()), Received(trigger, ring))
    {
      if trigger {
        doSwitchToPtx := true;
      }
      selectedRing := ring;
    }

    method AddAttempts(txAttempts: nat)
      modifies this`currentPacketTotalAttempts, this`log, this`inFlight
      ensures View() == Tallied(old(View()).(inFlight := false), txAttempts)
    {
      currentPacketTotalAttempts := (currentPacketTotalAttempts + txAttempts % 256) % 256;
      inFlight := false;
      log := log.(outcomes := log.outcomes + 1, attempts := log.attempts + txAttempts);
    }

    method Conclude()
      modifies this`lastTxAttempts, this`txRetried, this`doSwitchToPrx, this`log
      ensures View() == Concluded(old(View()))
    {
      lastTxAttempts := currentPacketTotalAttempts;
      txRetried := false;
      doSwitchToPrx := true;
      log := log.(reported := log.attempts);
    }

    method Raise()
      modifies this`ptxRetransmitCount, this`txRetried, this`doRetryPtx, this`log
      ensures View() == Raised(old(View()))
    {
      if selectedRing == 1 {
        ptxRetransmitCount := ptxRetransmitCount + 5;
      } else if selectedRing == 2 {
        ptxRetransmitCount := ptxRetransmitCount + 7;
      } else {
        ptxRetransmitCount := ptxRetransmitCount + 10;
      }
      txRetried := true;
      doRetryPtx := true;
      log := log.(failedInStagger := log.failedInStagger || point.Stagger?, raises := log.raises + 1,
                  raisedInRing1 := log.raisedInRing1 && selectedRing == 1);
    }

    method OnTxSuccess(txAttempts: nat)
      modifies this
      ensures View() == Step(old(View()), TxSuccess(txAttempts))
    {
      hide Tallied, Concluded;
      AddAttempts(txAttempts);
      Conclude();
    }

    method OnTxFailed(txAttempts: nat)
      modifies this
      ensures View() == Step(old(View()), TxFailed(txAttempts))
    {
      hide Tallied, Concluded, Raised;
      AddAttempts(txAttempts);
      if !txRetried {
        Raise();
      } else {
        Conclude();
      }
    }

    /** Interrupts arrive: packets only while the radio listens, outcomes only while a
        transmission is under way. */
    method Interrupts(events: seq<Event>) returns (ghost trace: seq<Event>)
      requires AreInterrupts(events)
      modifies this
      ensures Leads(old(View()), trace, View()) && point == old(point)
    {
      hide Leads, Step;
      trace := [];
      NothingLeads(View());
      for i := 0 to |events|
        invariant Leads(old(View()), trace, View()) && point == old(point)
      {
        var e := events[i];
        assert IsInterrupt(e);
        if if e.Received? then radio.Listening? else inFlight {
          LeadsFurther(old(View()), trace, View(), e);
          StepKeepsPoint(View(), e);
          trace := trace + [e];
          match e {
            case Received(trigger, ring) => OnReceived(trigger, ring);
            case TxSuccess(txAttempts) => OnTxSuccess(txAttempts);
            case TxFailed(txAttempts) => OnTxFailed(txAttempts);
          }
        }
      }
    }

    // Main loop, section by section.

    method TakePtxFlag(ghost ok: bool, ghost prxOk: bool, ghost random: nat) returns (taken: bool)
      requires point.CheckPtx?
      modifies this`doSwitchToPtx, this`ptxRetransmitDelay, this`ptxRetransmitCount
      modifies this`currentPacketTotalAttempts, this`point, this`log
      ensures taken == old(doSwitchToPtx) && point == (if taken then Stagger else CheckRetry)
      ensures View() == Step(old(View()), MainStep(ok, prxOk, random))
    {
      taken := doSwitchToPtx;
      if taken {
        doSwitchToPtx := false;
        ptxRetransmitDelay := 600;
        ptxRetransmitCount := 3;
        currentPacketTotalAttempts := 0;
        point := Stagger;
        log := log.(outcomes := 0, attempts := 0, failedInStagger := false, raises := 0,
                    raisedInRing1 := true);
      } else {
        point := CheckRetry;
      }
    }

    /** `enter_ptx`, with `enter_prx` when the radio refuses. */
    method RestartInPtx(ok: bool, prxOk: bool, ghost random: nat)
      requires point.Stagger? || point.RetryRestart?
      modifies this`inFlight, this`radio, this`startCount, this`point
      ensures View() == Step(old(View()), MainStep(ok, prxOk, random))
      ensures point == if old(point).Stagger? then CheckRetry else CheckPrx
    {
      if ok {
        inFlight, radio, startCount := true, Sending, ptxRetransmitCount;
      } else {
        inFlight := false;
        radio := if prxOk then Listening else Silent;
      }
      point := if point.Stagger? then CheckRetry else CheckPrx;
    }

    method TakeRetryFlag(ghost ok: bool, ghost prxOk: bool, ghost random: nat) returns (taken: bool)
      requires point.CheckRetry?
      modifies this`doRetryPtx, this`point
      ensures taken == old(doRetryPtx) && point == (if taken then Backoff else CheckPrx)
      ensures View() == Step(old(View()), MainStep(ok, prxOk, random))
    {
      taken := doRetryPtx;
      if taken {
        doRetryPtx := false;
        point := Backoff;
      } else {
        point := CheckPrx;
      }
    }

    method ApplyBackoff(ghost ok: bool, ghost prxOk: bool, random: nat)
      requires point.Backoff?
      modifies this`ptxRetransmitDelay, this`point
      ensures View() == Step(old(View()), MainStep(ok, prxOk, random)) && point == RetryRestart
    {
      if selectedRing == 1 {
        ptxRetransmitDelay := ptxRetransmitDelay + random % 201;
      } else if selectedRing == 2 {
        ptxRetransmitDelay := ptxRetransmitDelay + 500 + random % 501;
      } else {
        ptxRetransmitDelay := ptxRetransmitDelay + 1500 + random % 501;
      }
      point := RetryRestart;
    }

    method TakePrxFlag(ghost ok: bool, ghost prxOk: bool, ghost random: nat) returns (taken: bool)
      requires point.CheckPrx?
      modifies this`doSwitchToPrx, this`point
      ensures taken == old(doSwitchToPrx) && point == (if taken then PrxRestart else CheckPtx)
      ensures View() == Step(old(View()), MainStep(ok, prxOk, random))
    {
      taken := doSwitchToPrx;
      if taken {
        doSwitchToPrx := false;
        point := PrxRestart;
      } else {
        point := CheckPtx;
      }
    }

    /** `enter_prx` at the end of the loop; the core stops if the radio refuses. */
    method RestartInPrx(ghost ok: bool, prxOk: bool, ghost random: nat)
      requires point.PrxRestart?
      modifies this`inFlight, this`radio, this`point
      ensures View() == Step(old(View()), MainStep(ok, prxOk, random))
      ensures point == if prxOk then CheckPtx else Halted
    {
      inFlight := false;
      radio := if prxOk then Listening else Silent;
      point := if prxOk then CheckPtx else Halted;
    }

    // One pass of the loop, with interrupts between its sections.

    method SwitchToPtx(p: Pass) returns (ghost trace: seq<Event>)
      requires point.CheckPtx? && OnlyInterrupts(p)
      modifies this
      ensures Leads(old(View()), trace, View()) && point.CheckRetry?
    {
      hide Leads, Step, IsInterrupt;
      ghost var start, step := View(), MainStep(p.ptxOk, p.fallbackOk, p.random);
      trace := Interrupts(p.beforePtx);
      LeadsFurther(start, trace, View(), step);
      var taken := TakePtxFlag(p.ptxOk, p.fallbackOk, p.random);
      trace := trace + [step];
      if taken {
        ghost var mid := View();
        ghost var more := Interrupts(p.inStagger);
        LeadsOn(start, trace, mid, more, View());
        LeadsFurther(start, trace + more, View(), step);
        RestartInPtx(p.ptxOk, p.fallbackOk, p.random);
        trace := trace + more + [step];
      }
    }

    method RetryPtx(p: Pass) returns (ghost trace: seq<Event>)
      requires point.CheckRetry? && OnlyInterrupts(p)
      modifies this
      ensures Leads(old(View()), trace, View()) && point.CheckPrx?
    {
      hide Leads, Step, IsInterrupt;
      ghost var start, step := View(), MainStep(p.retryOk, p.retryFallbackOk, p.random);
      trace := Interrupts(p.beforeRetry);
      LeadsFurther(start, trace, View(), step);
      var taken := TakeRetryFlag(p.retryOk, p.retryFallbackOk, p.random);
      trace := trace + [step];
      if taken {
        ghost var mid := View();
        ghost var more := Interrupts(p.inBackoff);
        LeadsOn(start, trace, mid, more, View());
        LeadsFurther(start, trace + more, View(), step);
        ApplyBackoff(p.retryOk, p.retryFallbackOk, p.random);
        trace := trace + more + [step];
        mid := View();
        more := Interrupts(p.beforeRestart);
        LeadsOn(start, trace, mid, more, View());
        LeadsFurther(start, trace + more, View(), step);
        RestartInPtx(p.retryOk, p.retryFallbackOk, p.random);
        trace := trace + more + [step];
      }
    }

    method SwitchToPrx(p: Pass) returns (ghost trace: seq<Event>, running: bool)
      requires point.CheckPrx? && OnlyInterrupts(p)
      modifies this
      ensures Leads(old(View()), trace, View())
      ensures point == if running then CheckPtx else Halted
    {
      hide Leads, Step, IsInterrupt;
      ghost var start, step := View(), MainStep(true, p.prxOk, p.random);
      trace := Interrupts(p.beforePrx);
      LeadsFurther(start, trace, View(), step);
      var taken := TakePrxFlag(true, p.prxOk, p.random);
      trace := trace + [step];
      if taken {
        ghost var mid := View();
        ghost var more := Interrupts(p.inPrxSwitch);
        LeadsOn(start, trace, mid, more, View());
        LeadsFurther(start, trace + more, View(), step);
        RestartInPrx(true, p.prxOk, p.random);
        trace := trace + more + [step];
        return trace, p.prxOk;
      }
      return trace, true;
    }

    /** One pass of the loop is an execution of the protocol: the sections come in its order,
        whatever interrupts arrive between them. */
    method LoopPass(p: Pass) returns (ghost trace: seq<Event>, running: bool)
      requires point.CheckPtx? && OnlyInterrupts(p)
      modifies this
      ensures Leads(old(View()), trace, View())
      ensures point == if running then CheckPtx else Halted
    {
      hide Leads, Step, OnlyInterrupts;
      ghost var start := View();
      trace := SwitchToPtx(p);
      ghost var mid := View();
      ghost var more := RetryPtx(p);
      LeadsOn(start, trace, mid, more, View());
      trace, mid := trace + more, View();
      more, running := SwitchToPrx(p);
      LeadsOn(start, trace, mid, more, View());
      trace := trace + more;
    }
  }

  /** The node from power-up, for as many passes as the environment grants: every state of the
      shared variables between two passes is a state of a run of the protocol. */
  method MainLoop(passes: seq<Pass>)
    returns (core: NodeCore, ghost ns: seq<Node>, ghost es: seq<Event>)
    requires forall p :: p in passes ==> OnlyInterrupts(p)
    ensures fresh(core) && IsRun(ns, es) && core.View() == ns[|es|]
  {
    hide Leads, Step, OnlyInterrupts;
    core := new NodeCore();
    ghost var trace: seq<Event> := [];
    NothingLeads(INITIAL);
    var running, i := true, 0;
    while i < |passes| && running
      invariant 0 <= i <= |passes| && fresh(core) && Leads(INITIAL, trace, core.View())
      invariant running ==> core.point.CheckPtx?
    {
      ghost var mid := core.View();
      ghost var more;
      more, running := core.LoopPass(passes[i]);
      LeadsOn(INITIAL, trace, mid, more, core.View());
      trace := trace + more;
      i := i + 1;
    }
    es := trace;
    ns := LeadsIsRun(es, core.View());
  }

  lemma NothingLeads(n: Node)
    ensures Leads(n, [], n)
  {
  }

  lemma StepKeepsPoint(n: Node, e: Event)
    requires !e.MainStep?
    ensures Step(n, e).point == n.point
  {
  }
}
