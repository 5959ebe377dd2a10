/** Where one machine run leads from each state and each pending event, and what it leaves
    scheduled. */
module TransportTransitions {
  import opened TransportFsm
  import opened TransportProtocol
  import opened TransportDelivery

  /** The machine has (re)entered CONNECTING: nothing queued, connect work scheduled, and
      neither subscription nor timer left over. */
  predicate StartsConnecting(f: Fsm, g: Fsm) {
    && g.state.ConnectingToBroker? && g.queue == [] && g.connectPending
    && !g.subscribePending && !g.timerRunning && g.networkEvent.NetworkNoEvent?
    && g.transitions == f.transitions + 1
  }

  predicate MailboxesEmpty(f: Fsm) {
    f.networkEvent.NetworkNoEvent? && f.mqttEvent.BrokerNoEvent?
  }

  lemma EntersConnecting(f: Fsm)
    ensures var g := ChangeState(f, ConnectingToBroker);
            && StartsConnecting(f, g.(networkEvent := NetworkNoEvent))
            && g.networkEvent == f.networkEvent && g.mqttEvent == f.mqttEvent
  {
  }

  lemma EntersSubscribing(f: Fsm)
    requires f.state.ConnectingToBroker?
    ensures ChangeState(f, ConnectedSubscribing)
            == f.(state := ConnectedSubscribing, subscribePending := true,
                  transitions := f.transitions + 1)
  {
  }

  lemma EntersPublishing(f: Fsm)
    requires f.state.ConnectedSubscribing?
    ensures ChangeState(f, ConnectedPublishing)
            == f.(state := ConnectedPublishing, subscribePending := false,
                  transitions := f.transitions + 1)
  {
  }

  /** Disconnected, the machine waits for the network, whatever the broker reports. */
  lemma FromDisconnected(f: Fsm, posts: bool, publishOk: bool)
    requires f.state.NetworkDisconnected?
    ensures var g := Run(f, posts, publishOk);
            && (f.networkEvent.NetworkConnectedWithIp? ==> StartsConnecting(f, g))
            && (f.networkEvent.NetworkLost? ==> Quiet(f, g))
            && (f.networkEvent.NetworkNoEvent? ==> g == f)
  {
    HandsWhenReady(f, posts);
    DisconnectedIgnoresBroker(NetworkStage(f, posts));
    hide Hands, BrokerStage;
  }

  /** With no network event, a run is what the state does with the broker's event. */
  lemma BrokerEventAlone(f: Fsm, posts: bool, publishOk: bool)
    requires f.networkEvent.NetworkNoEvent? && !f.state.ConnectedPublishing?
    ensures Run(f, posts, publishOk) == BrokerStage(f.state, f)
  {
    hide BrokerStage;
  }

  /** An unexpected network connection starts over, whatever the broker reports. */
  lemma NetworkStartsOver(f: Fsm, posts: bool, publishOk: bool)
    requires f.networkEvent.NetworkConnectedWithIp?
    requires f.state.ConnectingToBroker? || f.state.ConnectedSubscribing?
    ensures StartsConnecting(f, Run(f, posts, publishOk)) && MailboxesEmpty(Run(f, posts, publishOk))
  {
    var h := f.(mqttEvent := BrokerNoEvent);
    EntersConnecting(h);
    BrokerStageIdle(f.state, NetworkStage(f, posts));
    hide ChangeState, BrokerStage;
  }

  /** What the broker's event does while connecting: the machine goes on to subscribe exactly
      when the broker has accepted, and tries again on any other report. */
  predicate ConnectingReacts(f: Fsm, g: Fsm) {
    && MailboxesEmpty(g) && g.queue == f.queue
    && (g.state.ConnectedSubscribing? <==> f.mqttEvent.ConnectToBrokerSuccess?)
    && (g.state.ConnectedSubscribing? ==> g.subscribePending && !g.connectPending)
    && (!g.state.ConnectedSubscribing? ==>
          g == f.(mqttEvent := BrokerNoEvent,
                  connectPending := f.connectPending || !f.mqttEvent.BrokerNoEvent?))
  }

  lemma ConnectingStage(f: Fsm)
    requires f.state.ConnectingToBroker? && f.networkEvent.NetworkNoEvent?
    ensures ConnectingReacts(f, BrokerStage(ConnectingToBroker, f))
  {
    EntersSubscribing(f.(connectPending := false));
    hide ChangeState;
  }

  lemma FromConnecting(f: Fsm, posts: bool, publishOk: bool)
    requires f.state.ConnectingToBroker?
    ensures var g := Run(f, posts, publishOk);
            && (f.networkEvent.NetworkLost? ==> Quiet(f, g))
            && (f.networkEvent.NetworkConnectedWithIp? ==> StartsConnecting(f, g) && MailboxesEmpty(g))
            && (f.networkEvent.NetworkNoEvent? ==> ConnectingReacts(f, g))
  {
    hide Run, BrokerStage, StartsConnecting, ConnectingReacts, Quiet;
    if f.networkEvent.NetworkLost? {
      NetworkLossWins(f, posts, publishOk);
    } else if f.networkEvent.NetworkConnectedWithIp? {
      NetworkStartsOver(f, posts, publishOk);
    } else {
      BrokerEventAlone(f, posts, publishOk);
      ConnectingStage(f);
    }
  }

  /** What the broker's event does while subscribing: the machine goes back to connecting when
      the broker is lost or refuses, goes on to publish when the subscription is confirmed,
      subscribes again when it failed, and stays otherwise. */
  predicate SubscribingReacts(f: Fsm, g: Fsm) {
    && MailboxesEmpty(g)
    && (f.mqttEvent.BrokerDisconnected? || f.mqttEvent.ConnectToBrokerFail? ==> StartsConnecting(f, g))
    && (f.mqttEvent.SubscribeAck? ==>
          g == f.(state := ConnectedPublishing, mqttEvent := BrokerNoEvent,
                  subscribePending := false, transitions := f.transitions + 1))
    && (f.mqttEvent.SubscribeFail? ==> g == f.(mqttEvent := BrokerNoEvent, subscribePending := true))
    && (f.mqttEvent.BrokerNoEvent? || f.mqttEvent.ConnectToBrokerSuccess? ==>
          g == f.(mqttEvent := BrokerNoEvent))
  }

  lemma SubscribingStage(f: Fsm)
    requires f.state.ConnectedSubscribing? && f.networkEvent.NetworkNoEvent?
    ensures SubscribingReacts(f, BrokerStage(ConnectedSubscribing, f))
  {
    EntersConnecting(f);
    EntersPublishing(f);
    hide ChangeState;
  }

  lemma FromSubscribing(f: Fsm, posts: bool, publishOk: bool)
    requires f.state.ConnectedSubscribing?
    ensures var g := Run(f, posts, publishOk);
            && (f.networkEvent.NetworkLost? ==> Quiet(f, g))
            && (f.networkEvent.NetworkConnectedWithIp? ==> StartsConnecting(f, g) && MailboxesEmpty(g))
            && (f.networkEvent.NetworkNoEvent? ==> SubscribingReacts(f, g))
  {
    hide Run, BrokerStage, StartsConnecting, SubscribingReacts, Quiet;
    if f.networkEvent.NetworkLost? {
      NetworkLossWins(f, posts, publishOk);
    } else if f.networkEvent.NetworkConnectedWithIp? {
      NetworkStartsOver(f, posts, publishOk);
    } else {
      BrokerEventAlone(f, posts, publishOk);
      SubscribingStage(f);
    }
  }

  /** Publishing, the machine goes back to connecting exactly on an event of the broker other
      than a confirmed subscription; a second network connection is ignored. */
  lemma FromPublishing(f: Fsm, posts: bool, publishOk: bool)
    requires f.state.ConnectedPublishing?
    ensures var g := Run(f, posts, publishOk);
            && (f.networkEvent.NetworkLost? ==> Quiet(f, g))
            && (!f.networkEvent.NetworkLost? ==>
                  && MailboxesEmpty(g)
                  && (g.state.ConnectedPublishing? <==> f.mqttEvent.BrokerNoEvent? || f.mqttEvent.SubscribeAck?)
                  && (!g.state.ConnectedPublishing? ==> StartsConnecting(f, g))
                  && (g.state.ConnectedPublishing? ==>
                        var h := f.(networkEvent := NetworkNoEvent, mqttEvent := BrokerNoEvent);
                        if f.queue == [] || f.timerRunning then g == h
                        else if publishOk && f.queue[0].message.qos > 0 then g == h.(timerRunning := true)
                        else g == h.(queue := f.queue[1..])))
  {
    HandsWhenReady(f, posts);
    if f.networkEvent.NetworkLost? {
      NetworkLossWins(f, posts, publishOk);
    } else {
      EntersConnecting(f.(networkEvent := NetworkNoEvent));
      hide Hands, ChangeState;
    }
  }

  /** A run hands over nothing but the queue head, and once at most. */
  lemma RunHandsHead(s: System, posts: bool, publishOk: bool)
    requires Tracked(s)
    ensures RunStep(s, posts, publishOk).handed
            == (if ReadyToHand(s.fsm) then s.handed + [s.fsm.queue[0]] else s.handed)
    ensures RunStep(s, posts, publishOk).accepted == s.accepted
  {
    HandsWhenReady(s.fsm, posts);
    hide Hands, Handled, Tracked, ReadyToHand, Run;
    if ReadyToHand(s.fsm) {
      HandsTheHead(s, posts);
      ReadyHasMessage(s.fsm);
    }
  }

  lemma ReadyHasMessage(f: Fsm)
    requires ReadyToHand(f)
    ensures f.queue != []
  {
  }

  // Steps other than machine runs.

  /** What events and the timer do to the machine: an event overwrites its mailbox, a PUBACK
      stops the timer and then removes the head, an expiry does both at once. */
  lemma EventSteps(f: Fsm, network: NetworkEvent, broker: MqttEvent)
    ensures Reacted(f, PostNetworkEvent(network)) == f.(networkEvent := network)
    ensures Reacted(f, PostMqttEvent(broker)) == f.(mqttEvent := broker)
    ensures Reacted(f, AckStopsTimer) == f.(timerRunning := false, ackBetween := true)
    ensures var rest := if f.queue == [] then [] else f.queue[1..];
            && Reacted(f, AckRemovesHead) == f.(queue := rest, ackBetween := false)
            && Reacted(f, TimerExpires) == f.(queue := rest, timerRunning := false)
  {
  }

  /** What the work items do: connect work runs once per schedule and always reschedules itself,
      subscribe work runs once per schedule. */
  lemma WorkSteps(f: Fsm, posts: bool)
    ensures Reacted(f, ConnectWorkBegins) == f.(connectPending := false, connectRunning := true)
    ensures Reacted(f, ConnectWorkEnds(posts))
            == f.(connectPending := true, connectRunning := false,
                  mqttEvent := if posts then BrokerDisconnected else f.mqttEvent)
    ensures Reacted(f, SubscribeWorkRuns) == f.(subscribePending := false)
  {
  }

  /** A client that passed the ready check queues its message exactly if it is admitted and
      fewer than fifty wait; the message goes to the end, and nothing else changes. */
  lemma EnqueueStep(s: System, m: Message, admitted: bool)
    requires s.publishers > 0
    ensures var t := Step(s, PublishEnqueues(m, admitted));
            && t.publishers == s.publishers - 1 && t.handed == s.handed
            && if admitted && |s.fsm.queue| < 50
               then t.accepted == s.accepted + [m]
                    && t.fsm == s.fsm.(queue := s.fsm.queue + [Entry(|s.accepted|, m)])
               else t.accepted == s.accepted && t.fsm == s.fsm
  {
  }

  lemma CheckStep(s: System)
    ensures Step(s, PublishChecks)
            == if s.fsm.state.ConnectedPublishing? then s.(publishers := s.publishers + 1) else s
  {
  }

  lemma RunKeepsRoom(f: Fsm, posts: bool, publishOk: bool)
    requires |f.queue| <= 50
    ensures |Run(f, posts, publishOk).queue| <= 50
  {
    hide Run, Quiet;
    match f.state {
      case NetworkDisconnected => FromDisconnected(f, posts, publishOk);
      case ConnectingToBroker => FromConnecting(f, posts, publishOk);
      case ConnectedSubscribing => FromSubscribing(f, posts, publishOk);
      case ConnectedPublishing => FromPublishing(f, posts, publishOk);
    }
    if f.networkEvent.NetworkLost? {
      QuietKeepsQueue(f, Run(f, posts, publishOk));
    }
  }

  lemma QuietKeepsQueue(f: Fsm, g: Fsm)
    requires Quiet(f, g)
    ensures g.queue == f.queue
  {
  }

  /** At most fifty messages wait, in every run. */
  lemma {:induction false} QueueHoldsFifty(ss: seq<System>, acts: seq<Action>, i: nat)
    requires IsRun(ss, acts) && i < |ss|
    ensures |ss[i].fsm.queue| <= 50
  {
    hide Enabled, Step;
    if i > 0 {
      QueueHoldsFifty(ss, acts, i - 1);
      RunAt(ss, acts, i);
      StepKeepsRoom(ss[i - 1], acts[i - 1]);
    }
  }

  lemma StepKeepsRoom(s: System, a: Action)
    requires |s.fsm.queue| <= 50
    ensures |Step(s, a).fsm.queue| <= 50
  {
    if a.FsmRun? {
      hide Run, Hands, Handled;
      RunKeepsRoom(s.fsm, a.disconnectPosts, a.publishOk);
    }
  }
}
