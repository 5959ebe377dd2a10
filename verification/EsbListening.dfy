/** When a node listens again: a node that has nothing more to send hears the next trigger,
    unless the radio refused to listen. */
module EsbListening {
  import opened EsbNode

  /** A radio set up for sending has something to send, or is about to listen. */
  ghost predicate OnAir(n: Node) {
    && (n.radio.Sending? ==> n.inFlight || n.switchToPrx || RetryDue(n) || n.point.PrxRestart?)
    && (n.inFlight ==> n.radio.Sending?)
    && (n.point.Halted? ==> n.radio.Silent?)
  }

  /** The main loop sets the radio up anew. */
  predicate RestartsRadio(n: Node, e: Event) {
    e.MainStep? && (n.point.Stagger? || n.point.RetryRestart? || n.point.PrxRestart?)
  }

  lemma OnAirRestart(n: Node, e: Event)
    requires OnAir(n) && RestartsRadio(n, e)
    ensures OnAir(Step(n, e))
  {
    hide DelayIncrease;
  }

  lemma OnAirOtherwise(n: Node, e: Event)
    requires OnAir(n) && Enabled(n, e) && !RestartsRadio(n, e)
    ensures OnAir(Step(n, e))
  {
    hide DelayIncrease, CountIncrease, EnterPtx, EnterPrx;
  }

  lemma OnAirStep(n: Node, e: Event)
    requires OnAir(n) && Enabled(n, e)
    ensures OnAir(Step(n, e))
  {
    hide OnAir, Step, Enabled, RestartsRadio;
    if RestartsRadio(n, e) {
      OnAirRestart(n, e);
    } else {
      OnAirOtherwise(n, e);
    }
  }

  lemma {:induction false} RunIsOnAir(ns: seq<Node>, es: seq<Event>, i: nat)
    requires IsRun(ns, es) && i < |ns|
    ensures OnAir(ns[i])
  {
    hide Step, Enabled;
    if i > 0 {
      RunIsOnAir(ns, es, i - 1);
      RunStep(ns, es, i);
      hide OnAir;
      OnAirStep(ns[i - 1], es[i - 1]);
    }
  }

  /** The radio refuses to listen, either at the end of the loop or when the node falls back to
      listening after it refused to send. */
  predicate RefusesToListen(n: Node, e: Event) {
    RestartsRadio(n, e) && !e.prxOk && (n.point.PrxRestart? || !e.ok)
  }

  lemma RestartSetsRadio(n: Node, e: Event)
    requires RestartsRadio(n, e)
    ensures Step(n, e).radio.Silent? <==> RefusesToListen(n, e)
  {
    hide DelayIncrease;
  }

  lemma RadioKept(n: Node, e: Event)
    requires !RestartsRadio(n, e)
    ensures Step(n, e).radio == n.radio
  {
    hide DelayIncrease, CountIncrease, EnterPtx, EnterPrx;
  }

  lemma SilentStep(n: Node, e: Event)
    ensures Step(n, e).radio.Silent?
            <==> RefusesToListen(n, e) || (n.radio.Silent? && !RestartsRadio(n, e))
  {
    hide Step;
    if RestartsRadio(n, e) {
      RestartSetsRadio(n, e);
    } else {
      RadioKept(n, e);
    }
  }

  /** The radio refused to listen at step `r` and has not been set up since. */
  ghost predicate RefusedSince(ns: seq<Node>, es: seq<Event>, r: nat, i: nat)
    requires i <= |es| <= |ns|
  {
    r < i && RefusesToListen(ns[r], es[r]) && forall m :: r < m < i ==> !RestartsRadio(ns[m], es[m])
  }

  lemma {:induction false} SilentMeansRefused(ns: seq<Node>, es: seq<Event>, i: nat)
    requires IsRun(ns, es) && i <= |es|
    ensures i < |ns|
    ensures ns[i].radio.Silent? <==> exists r: nat :: RefusedSince(ns, es, r, i)
  {
    RunLengths(ns, es);
    hide Step, Enabled, RestartsRadio, RefusesToListen;
    if i > 0 {
      var n, e := ns[i - 1], es[i - 1];
      SilentMeansRefused(ns, es, i - 1);
      RunStep(ns, es, i);
      SilentStep(n, e);
      if RefusesToListen(n, e) {
        assert RefusedSince(ns, es, i - 1, i);
      } else if n.radio.Silent? && !RestartsRadio(n, e) {
        var r: nat :| RefusedSince(ns, es, r, i - 1);
        assert RefusedSince(ns, es, r, i);
      }
      forall r: nat | RefusedSince(ns, es, r, i) ensures ns[i].radio.Silent? {
        if r < i - 1 {
          assert RefusedSince(ns, es, r, i - 1);
        }
      }
    }
  }

  /** Nothing is under way or asked for. */
  predicate Idle(n: Node) {
    !n.inFlight && !n.switchToPtx && !n.switchToPrx && !RetryDue(n)
  }

  /** In every run, a node that is idle at the head of its loop listens, if and only if the
      radio did not refuse to listen when it was last set up. */
  lemma IdleNodeListens(ns: seq<Node>, es: seq<Event>, i: nat)
    requires IsRun(ns, es) && i <= |es| && i < |ns| && ns[i].point.CheckPtx? && Idle(ns[i])
    ensures ns[i].radio.Listening? <==> forall r: nat :: !RefusedSince(ns, es, r, i)
  {
    RunIsOnAir(ns, es, i);
    SilentMeansRefused(ns, es, i);
  }

  /** A concluded reply asks for the return to listening; the request stands until the PRX
      section, which does not let the loop pass without serving it. */
  lemma ConcludedNodeReturns(n: Node, e: Event)
    ensures e.TxSuccess? || (e.TxFailed? && n.txRetried) ==> Step(n, e).switchToPrx
    ensures n.switchToPrx && e.MainStep? && n.point.CheckPrx? ==> Step(n, e).point.PrxRestart?
    ensures n.switchToPrx && !(e.MainStep? && n.point.CheckPrx?) ==> Step(n, e).switchToPrx
  {
    hide DelayIncrease, CountIncrease;
    match e {
      case MainStep(_, _, _) =>
        match n.point {
          case CheckPrx =>
          case Stagger =>
          case _ =>
        }
      case _ =>
    }
  }
}
