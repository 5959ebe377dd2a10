/** When a message is handed over twice: the chain of events, and that there is no other. */
module TransportResend {
  import opened TransportFsm
  import opened TransportProtocol
  import opened TransportDelivery

  /** A machine run hands a message over that then waits for its PUBACK. */
  predicate Sends(s: System, a: Action) {
    a.FsmRun? && ReadyToHand(s.fsm) && a.publishOk && s.fsm.queue[0].message.qos > 0
  }

  /** The machine is publishing, and the step neither hands a message over nor removes one
      nor makes it change state. */
  predicate Calm(s: System, a: Action) {
    && s.fsm.state.ConnectedPublishing? && !a.AckRemovesHead? && !a.TimerExpires?
    && (a.FsmRun? ==> StaysPublishing(s.fsm) && !ReadyToHand(s.fsm))
  }

  ghost predicate CalmBetween(ss: seq<System>, acts: seq<Action>, k: nat, i: nat)
    requires i <= |acts| <= |ss|
  {
    forall m :: k < m < i ==> Calm(ss[m], acts[m])
  }

  /** A message was sent (`k`), a PUBACK callback stopped the timer (`j`), and before the
      callback removed the message, with nothing else happening to the queue or the state, a
      machine run came that was ready to hand the queue head over (`i`). */
  ghost predicate PreemptedAck(ss: seq<System>, acts: seq<Action>, k: nat, j: nat, i: nat)
    requires |acts| <= |ss|
  {
    && k < j < i < |acts| && CalmBetween(ss, acts, k, i)
    && Sends(ss[k], acts[k]) && acts[j].AckStopsTimer?
    && acts[i].FsmRun? && ReadyToHand(ss[i].fsm)
  }

  // The stages of the chain, as states.

  /** The message handed over last is at the queue head of a publishing machine. */
  ghost predicate SentHead(s: System) {
    s.fsm.state.ConnectedPublishing? && HeadHanded(s.fsm.queue, s.handed)
  }

  ghost predicate Waiting(s: System) {
    SentHead(s) && s.fsm.timerRunning
  }

  ghost predicate Stopped(s: System) {
    SentHead(s) && !s.fsm.timerRunning
  }

  /** Before publishing starts, the queue head is not a message handed over before. */
  ghost predicate FreshBefore(s: System) {
    Tracked(s) && (BeforePublishing(s.fsm) ==> !HeadHanded(s.fsm.queue, s.handed))
  }

  lemma CalmRun(f: Fsm, disconnectPosts: bool)
    requires f.state.ConnectedPublishing?
    ensures Handled(f, disconnectPosts).state.ConnectedPublishing? <==> StaysPublishing(f)
    ensures StaysPublishing(f) ==>
              Handled(f, disconnectPosts)
              == f.(networkEvent := NetworkNoEvent, mqttEvent := BrokerNoEvent)
  {
    hide ChangeState;
    ChangeStateCounts(f.(networkEvent := NetworkNoEvent), ConnectingToBroker);
    if f.networkEvent.NetworkLost? {
      NetworkStageAfterLoss(f, disconnectPosts);
      BrokerStageIdle(f.state, NetworkStage(f, disconnectPosts));
    }
  }

  /** Out of the disconnected state no run goes further than CONNECTING. */
  lemma RunFromDisconnected(f: Fsm, disconnectPosts: bool)
    requires f.state.NetworkDisconnected?
    ensures var g := Handled(f, disconnectPosts);
            g.state.NetworkDisconnected? || (g.state.ConnectingToBroker? && g.queue == [])
  {
    DisconnectedIgnoresBroker(NetworkStage(f, disconnectPosts));
    hide BrokerStage;
  }

  /** A run that hands nothing over leaves a sent head only where there was one. */
  lemma IdleRun(s: System, disconnectPosts: bool, t: System)
    requires FreshBefore(s) && !ReadyToHand(s.fsm)
    requires t == s.(fsm := Handled(s.fsm, disconnectPosts))
    ensures BeforePublishing(t.fsm) ==> !HeadHanded(t.fsm.queue, t.handed)
    ensures SentHead(t) ==>
              SentHead(s) && StaysPublishing(s.fsm) && t.fsm.timerRunning == s.fsm.timerRunning
  {
    hide Handled, InOrder, ReadyToHand, StaysPublishing;
    HandledKeepsOrClears(s.fsm, disconnectPosts);
    if s.fsm.state.ConnectedPublishing? {
      CalmRun(s.fsm, disconnectPosts);
    } else if s.fsm.state.NetworkDisconnected? {
      RunFromDisconnected(s.fsm, disconnectPosts);
    }
  }

  /** A run that hands the head over leaves it there only with the timer running. */
  lemma HandingRun(s: System, a: Action)
    requires Tracked(s) && a.FsmRun? && ReadyToHand(s.fsm)
    ensures SentHead(Step(s, a)) <==> Sends(s, a)
    ensures SentHead(Step(s, a)) ==> Waiting(Step(s, a))
    ensures Step(s, a).fsm.state.ConnectedPublishing?
  {
    HandsWhenReady(s.fsm, a.disconnectPosts);
    CalmRun(s.fsm, a.disconnectPosts);
    HandInOrder(s.fsm.queue, s.handed, s.accepted);
    RemoveInOrder(s.fsm.queue, s.handed + [s.fsm.queue[0]], s.accepted);
    hide Handled, InOrder, HeadHanded, Shaped;
  }

  lemma RunIsStep(s: System, a: Action)
    requires a.FsmRun? && !ReadyToHand(s.fsm)
    ensures Step(s, a) == s.(fsm := Handled(s.fsm, a.disconnectPosts))
  {
    hide Handled, ReadyToHand;
    HandsWhenReady(s.fsm, a.disconnectPosts);
  }

  lemma StepKeepsFresh(s: System, a: Action)
    requires FreshBefore(s) && Enabled(s, a) && Tracked(Step(s, a))
    ensures FreshBefore(Step(s, a))
  {
    if a.FsmRun? {
      hide Step, Tracked, ReadyToHand;
      if ReadyToHand(s.fsm) {
        HandingRun(s, a);
      } else {
        RunIsStep(s, a);
        IdleRun(s, a.disconnectPosts, Step(s, a));
      }
    } else {
      hide InOrder, Shaped, Run;
      if s.fsm.queue != [] {
        RemoveInOrder(s.fsm.queue, s.handed, s.accepted);
      }
      if a.PublishEnqueues? {
        AppendInOrder(s.fsm.queue, s.handed, s.accepted, a.message);
      }
    }
  }

  lemma {:induction false} RunIsFresh(ss: seq<System>, acts: seq<Action>, i: nat)
    requires IsRun(ss, acts) && i < |ss|
    ensures FreshBefore(ss[i])
  {
    hide Enabled, Step;
    RunIsTracked(ss, acts, i);
    if i > 0 {
      RunIsFresh(ss, acts, i - 1);
      RunAt(ss, acts, i);
      hide FreshBefore, Tracked;
      StepKeepsFresh(ss[i - 1], acts[i - 1]);
    }
  }

  /** How a sent head comes about, and how its timer changes. */
  lemma SentHeadStep(s: System, a: Action)
    requires FreshBefore(s) && Enabled(s, a) && SentHead(Step(s, a))
    ensures Sends(s, a) || (SentHead(s) && Calm(s, a))
    ensures Stopped(Step(s, a)) ==> Stopped(s) || (Waiting(s) && a.AckStopsTimer?)
    ensures Stopped(Step(s, a)) ==> SentHead(s) && Calm(s, a)
    ensures Waiting(Step(s, a)) ==> Sends(s, a) || Waiting(s)
  {
    if a.FsmRun? {
      hide Step, FreshBefore, ReadyToHand, StaysPublishing;
      if ReadyToHand(s.fsm) {
        FreshIsTracked(s);
        HandingRun(s, a);
      } else {
        RunIsStep(s, a);
        IdleRun(s, a.disconnectPosts, Step(s, a));
      }
    } else {
      hide InOrder, Shaped, Run, ReadyToHand, StaysPublishing;
      if s.fsm.queue != [] {
        RemoveInOrder(s.fsm.queue, s.handed, s.accepted);
      }
      if a.PublishEnqueues? {
        AppendInOrder(s.fsm.queue, s.handed, s.accepted, a.message);
      }
    }
  }

  lemma FreshIsTracked(s: System)
    requires FreshBefore(s)
    ensures Tracked(s)
  {
  }

  // From a stage back to the events that led to it.

  lemma NothingSentInitially(ss: seq<System>, acts: seq<Action>)
    requires IsRun(ss, acts)
    ensures |ss| == |acts| + 1 && !SentHead(ss[0])
  {
  }

  lemma CalmExtends(ss: seq<System>, acts: seq<Action>, k: nat, i: nat)
    requires i < |acts| <= |ss| && CalmBetween(ss, acts, k, i) && (k < i ==> Calm(ss[i], acts[i]))
    ensures CalmBetween(ss, acts, k, i + 1)
  {
    hide Calm;
  }

  lemma WaitingHistory(ss: seq<System>, acts: seq<Action>, i: nat) returns (k: nat)
    requires IsRun(ss, acts) && i < |ss| && Waiting(ss[i])
    ensures k < i <= |acts| < |ss| && Sends(ss[k], acts[k]) && CalmBetween(ss, acts, k, i)
  {
    NothingSentInitially(ss, acts);
    RunAt(ss, acts, i);
    RunIsFresh(ss, acts, i - 1);
    SentHeadStep(ss[i - 1], acts[i - 1]);
    hide Step, Enabled, Sends, Calm, FreshBefore, SentHead, CalmBetween;
    if Sends(ss[i - 1], acts[i - 1]) {
      k := i - 1;
      NothingBetween(ss, acts, k);
    } else {
      k := WaitingHistory(ss, acts, i - 1);
      CalmExtends(ss, acts, k, i - 1);
    }
  }

  lemma NothingBetween(ss: seq<System>, acts: seq<Action>, k: nat)
    requires k < |acts| <= |ss|
    ensures CalmBetween(ss, acts, k, k + 1)
  {
  }

  lemma StoppedHistory(ss: seq<System>, acts: seq<Action>, i: nat) returns (k: nat, j: nat)
    requires IsRun(ss, acts) && i < |ss| && Stopped(ss[i])
    ensures k < j < i <= |acts| < |ss| && CalmBetween(ss, acts, k, i)
    ensures Sends(ss[k], acts[k]) && acts[j].AckStopsTimer?
  {
    NothingSentInitially(ss, acts);
    RunAt(ss, acts, i);
    RunIsFresh(ss, acts, i - 1);
    SentHeadStep(ss[i - 1], acts[i - 1]);
    hide Step, Enabled, Sends, Calm, FreshBefore, SentHead, CalmBetween;
    if Stopped(ss[i - 1]) {
      k, j := StoppedHistory(ss, acts, i - 1);
    } else {
      k := WaitingHistory(ss, acts, i - 1);
      j := i - 1;
    }
    CalmExtends(ss, acts, k, i - 1);
  }

  // From the events forward to the stage.

  lemma CalmKeepsSent(s: System, a: Action)
    requires Tracked(s) && Enabled(s, a) && SentHead(s) && Calm(s, a)
    ensures SentHead(Step(s, a))
  {
    if a.FsmRun? {
      hide Step, ReadyToHand, StaysPublishing, Handled;
      RunIsStep(s, a);
      CalmRun(s.fsm, a.disconnectPosts);
    } else {
      hide InOrder, Shaped, Run;
    }
  }

  lemma {:induction false} SentStays(ss: seq<System>, acts: seq<Action>, k: nat, i: nat)
    requires IsRun(ss, acts) && k < i <= |acts| && |acts| < |ss|
    requires Sends(ss[k], acts[k]) && CalmBetween(ss, acts, k, i)
    ensures SentHead(ss[i])
    decreases i - k
  {
    RunIsTracked(ss, acts, i - 1);
    RunAt(ss, acts, i);
    if i == k + 1 {
      hide Step, Tracked;
      HandingRun(ss[k], acts[k]);
    } else {
      assert Calm(ss[i - 1], acts[i - 1]);
      hide Step, Tracked, Sends, Calm, Enabled;
      SentStays(ss, acts, k, i - 1);
      CalmKeepsSent(ss[i - 1], acts[i - 1]);
    }
  }

  /** A run resends exactly at the end of the chain. */
  lemma ResendsAfterChain(ss: seq<System>, acts: seq<Action>, i: nat)
    requires IsRun(ss, acts) && i < |acts|
    ensures |acts| < |ss|
    ensures Resends(ss[i], acts[i])
            <==> exists k: nat, j: nat :: PreemptedAck(ss, acts, k, j, i)
  {
    NothingSentInitially(ss, acts);
    RunIsTracked(ss, acts, i);
    hide IsRun, Step, Sends, Calm, CalmBetween, InOrder, Shaped;
    if Resends(ss[i], acts[i]) {
      var k, j := StoppedHistory(ss, acts, i);
      assert PreemptedAck(ss, acts, k, j, i);
    }
    forall k: nat, j: nat | PreemptedAck(ss, acts, k, j, i) ensures Resends(ss[i], acts[i]) {
      SentStays(ss, acts, k, i);
    }
  }

  /** At most once and in order, by events: in every run each accepted message is handed over
      at most once, in the order of acceptance, if and only if no machine run that is ready to
      hand over falls between the two halves of a PUBACK callback that stopped the timer of
      the message sent last. */
  lemma AtMostOnceUnlessAckPreempted(ss: seq<System>, acts: seq<Action>, n: nat)
    requires IsRun(ss, acts) && n < |ss|
    ensures |acts| < |ss|
    ensures Ordered(ss[n].handed) <==>
              forall i: nat, k: nat, j: nat :: i < n ==> !PreemptedAck(ss, acts, k, j, i)
  {
    NothingSentInitially(ss, acts);
    AtMostOnceInOrder(ss, acts, n);
    hide IsRun, Ordered, PreemptedAck, Resends;
    forall i: nat | i < n
      ensures Resends(ss[i], acts[i]) <==> exists k: nat, j: nat :: PreemptedAck(ss, acts, k, j, i)
    {
      ResendsAfterChain(ss, acts, i);
    }
  }
}
