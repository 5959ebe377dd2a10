/** When the queue is empty before publishing starts: a client that passed the ready check
    may be preempted and reach the queue in another state. */
module TransportPublishing {
  import opened TransportFsm
  import opened TransportProtocol
  import opened TransportDelivery

  /** Nothing is queued in CONNECTING and SUBSCRIBING. */
  predicate NothingEarly(f: Fsm) {
    BeforePublishing(f) ==> f.queue == []
  }

  /** A client's message reaches the queue in CONNECTING or SUBSCRIBING. */
  predicate LandsEarly(s: System, a: Action) {
    Accepts(s, a) && BeforePublishing(s.fsm)
  }

  lemma ChangeStateKeepsNothingEarly(f: Fsm, state: State)
    requires NothingEarly(f) && (state.ConnectedSubscribing? ==> f.state.ConnectingToBroker?)
    ensures NothingEarly(ChangeState(f, state))
  {
  }

  lemma NetworkStageKeepsNothingEarly(f: Fsm, disconnectPosts: bool)
    requires NothingEarly(f)
    ensures NothingEarly(NetworkStage(f, disconnectPosts))
  {
    hide ChangeState;
    var h := f.(mqttEvent := BrokerNoEvent);
    ChangeStateKeepsNothingEarly(f, NetworkDisconnected);
    ChangeStateKeepsNothingEarly(f, ConnectingToBroker);
    ChangeStateKeepsNothingEarly(h, NetworkDisconnected);
    ChangeStateKeepsNothingEarly(h, ConnectingToBroker);
    ChangeStateKeepsNothingEarly(HelperDisconnect(h, disconnectPosts), NetworkDisconnected);
  }

  lemma BrokerStageKeepsNothingEarly(origin: State, f: Fsm)
    requires NothingEarly(f) && (f.state == origin || f.mqttEvent == BrokerNoEvent)
    ensures NothingEarly(BrokerStage(origin, f))
  {
    hide ChangeState;
    if f.mqttEvent == BrokerNoEvent {
      BrokerStageIdle(origin, f);
    } else {
      ChangeStateKeepsNothingEarly(f, ConnectingToBroker);
      ChangeStateKeepsNothingEarly(f, ConnectedPublishing);
      if origin.ConnectingToBroker? {
        ChangeStateKeepsNothingEarly(f.(connectPending := false), ConnectedSubscribing);
      }
    }
  }

  lemma RunKeepsNothingEarly(s: System, disconnectPosts: bool, publishOk: bool)
    requires Shaped(s.fsm) && NothingEarly(s.fsm)
    ensures NothingEarly(RunStep(s, disconnectPosts, publishOk).fsm)
  {
    hide NetworkStage, BrokerStage, Shaped;
    var f, h := s.fsm, NetworkStage(s.fsm, disconnectPosts);
    NetworkStageKeepsShape(f, disconnectPosts);
    NetworkStageKeepsNothingEarly(f, disconnectPosts);
    if f.state.NetworkDisconnected? {
      DisconnectedIgnoresBroker(h);
    } else {
      BrokerStageKeepsNothingEarly(f.state, h);
    }
    hide Handled;
    if Hands(f, disconnectPosts) {
      ServicedWhilePublishing(f, disconnectPosts);
    }
  }

  lemma StepKeepsNothingEarly(s: System, a: Action)
    requires Shaped(s.fsm) && NothingEarly(s.fsm)
    ensures NothingEarly(Step(s, a).fsm) <==> !LandsEarly(s, a)
  {
    if a.FsmRun? {
      hide RunStep;
      RunKeepsNothingEarly(s, a.disconnectPosts, a.publishOk);
    }
  }

  /** The queue is empty in CONNECTING and SUBSCRIBING, throughout a run, if and only if no
      client that passed the ready check reaches the queue in one of these states. */
  lemma {:induction false} QueueEmptyBeforePublishing(ss: seq<System>, acts: seq<Action>, n: nat)
    requires IsRun(ss, acts) && n < |ss|
    ensures (forall i :: 0 <= i <= n ==> NothingEarly(ss[i].fsm))
            <==> (forall i :: 0 <= i < n ==> !LandsEarly(ss[i], acts[i]))
  {
    hide Enabled, Step;
    if n > 0 {
      QueueEmptyBeforePublishing(ss, acts, n - 1);
      RunIsShaped(ss, acts, n - 1);
      RunAt(ss, acts, n);
      hide Shaped, LandsEarly, NothingEarly;
      if NothingEarly(ss[n - 1].fsm) {
        StepKeepsNothingEarly(ss[n - 1], acts[n - 1]);
      }
    }
  }

  predicate PassesCheck(s: System, a: Action) {
    a.PublishChecks? && s.fsm.state.ConnectedPublishing?
  }

  /** No other step comes between a client's ready check, if it is passed, and its attempt to
      queue. */
  ghost predicate PublishesAreAtomic(ss: seq<System>, acts: seq<Action>)
    requires |acts| <= |ss|
  {
    forall i :: 0 <= i < |acts| - 1 && PassesCheck(ss[i], acts[i]) ==> acts[i + 1].PublishEnqueues?
  }

  lemma StepCountsPublishers(s: System, a: Action)
    requires Enabled(s, a)
    ensures Step(s, a).publishers
            == (if PassesCheck(s, a) then s.publishers + 1
                else if a.PublishEnqueues? then s.publishers - 1
                else s.publishers)
  {
    hide Run, Handled, Hands, Reacted;
  }

  /** With atomic publishes a client is on its way only right after its ready check. */
  lemma {:induction false} PublisherOnlyAfterCheck(ss: seq<System>, acts: seq<Action>, n: nat)
    requires IsRun(ss, acts) && PublishesAreAtomic(ss, acts) && n < |ss|
    ensures ss[n].publishers <= 1
    ensures ss[n].publishers == 1 ==>
              n > 0 && PassesCheck(ss[n - 1], acts[n - 1])
  {
    hide Enabled, Step;
    if n > 0 {
      PublisherOnlyAfterCheck(ss, acts, n - 1);
      RunAt(ss, acts, n);
      StepCountsPublishers(ss[n - 1], acts[n - 1]);
      if n > 1 {
        assert PassesCheck(ss[n - 2], acts[n - 2]) ==> acts[n - 1].PublishEnqueues?;
      }
    }
  }

  /** Where publishes are never preempted, the queue is empty in CONNECTING and SUBSCRIBING. */
  lemma AtomicPublishesWait(ss: seq<System>, acts: seq<Action>, n: nat)
    requires IsRun(ss, acts) && PublishesAreAtomic(ss, acts) && n < |ss|
    ensures NothingEarly(ss[n].fsm)
  {
    hide NothingEarly, Step;
    forall i | 0 <= i < n ensures !LandsEarly(ss[i], acts[i]) {
      assert StepsAt(ss, acts, i);
      if acts[i].PublishEnqueues? {
        PublisherOnlyAfterCheck(ss, acts, i);
        RunAt(ss, acts, i);
        CheckKeepsState(ss[i - 1], acts[i - 1]);
      }
    }
    QueueEmptyBeforePublishing(ss, acts, n);
  }

  lemma CheckKeepsState(s: System, a: Action)
    requires a.PublishChecks?
    ensures Step(s, a).fsm == s.fsm
  {
  }

  /** A client preempted between its ready check and the queue leaves a message in the queue
      of a machine that has lost its broker and is connecting again. */
  lemma MessageCanLandEarly(m: Message) returns (ss: seq<System>, acts: seq<Action>)
    ensures IsRun(ss, acts)
    ensures ss[|acts|].fsm.state.ConnectingToBroker? && ss[|acts|].fsm.queue == [Entry(0, m)]
  {
    hide IsRun;
    ss, acts := Connected();
    ss, acts := Then(ss, acts, PublishChecks);
    ss, acts := Then(ss, acts, PostMqttEvent(BrokerDisconnected));
    ss, acts := Then(ss, acts, FsmRun(false, true));
    ss, acts := Then(ss, acts, PublishEnqueues(m, true));
  }
}
