/** Whole runs of the MQTT transport: client publishes, FSM runs, network and broker events,
    PUBACKs (late or duplicate ones too), timer expiries and work items, in any order. */
module TransportProtocol {
  import opened TransportFsm

  /** The machine with its history: the messages accepted into the queue, and the entries
      handed to `mqtt_helper_publish`, both in order. `publishers` counts the clients that
      have passed the ready check of `transport_publish` and not yet reached the queue. */
  datatype System = System(fsm: Fsm, publishers: nat, accepted: seq<Message>, handed: seq<Entry>)

  const IDLE := Fsm(NetworkDisconnected, NetworkNoEvent, BrokerNoEvent,
                    false, false, false, false, false, [], 0)
  const INITIAL := System(IDLE, 0, [], [])

  /** `admitted` says that a message passed the length checks and got its memory. A publish is
      two steps, since a run may preempt the client between its ready check and the queue; so
      is a PUBACK callback, between stopping the timer and removing the head, and the connect
      work, which sleeps before it connects. */
  datatype Action =
    | FsmRun(disconnectPosts: bool, publishOk: bool)
    | PublishChecks
    | PublishEnqueues(message: Message, admitted: bool)
    | PostNetworkEvent(networkEvent: NetworkEvent)
    | PostMqttEvent(mqttEvent: MqttEvent)
    | AckStopsTimer
    | AckRemovesHead
    | TimerExpires
    | ConnectWorkBegins
    | ConnectWorkEnds(disconnectPosts: bool)
    | SubscribeWorkRuns

  predicate Enabled(s: System, a: Action) {
    match a
    case PublishEnqueues(_, _) => s.publishers > 0
    case AckStopsTimer => !s.fsm.ackBetween
    case AckRemovesHead => s.fsm.ackBetween
    case TimerExpires => s.fsm.timerRunning
    case ConnectWorkBegins => s.fsm.connectPending && !s.fsm.connectRunning
    case ConnectWorkEnds(_) => s.fsm.connectRunning
    case SubscribeWorkRuns => s.fsm.subscribePending
    case _ => true
  }

  /** The queue takes the message, whatever state the machine is in by now. */
  predicate Accepts(s: System, a: Action) {
    a.PublishEnqueues? && a.admitted && |s.fsm.queue| < QUEUE_LENGTH
  }

  /** The client is told to go on only while the machine is publishing. */
  function ReadyChecked(s: System): System {
    if s.fsm.state.ConnectedPublishing? then s.(publishers := s.publishers + 1) else s
  }

  function Published(s: System, message: Message): System {
    s.(fsm := s.fsm.(queue := s.fsm.queue + [Entry(|s.accepted|, message)]),
       accepted := s.accepted + [message])
  }

  function RunStep(s: System, disconnectPosts: bool, publishOk: bool): System {
    s.(fsm := Run(s.fsm, disconnectPosts, publishOk),
       handed := if Hands(s.fsm, disconnectPosts)
                 then s.handed + [Handled(s.fsm, disconnectPosts).queue[0]]
                 else s.handed)
  }

  /** What a step other than a run or a publish does to the machine. */
  function Reacted(f: Fsm, a: Action): Fsm {
    match a
    case PostNetworkEvent(event) => f.(networkEvent := event)
    case PostMqttEvent(event) => f.(mqttEvent := event)
    case AckStopsTimer => f.(timerRunning := false, ackBetween := true)
    case AckRemovesHead => HeadRemoved(f).(ackBetween := false)
    case TimerExpires => HeadRemoved(f).(timerRunning := false)
    case ConnectWorkBegins => f.(connectPending := false, connectRunning := true)
    case ConnectWorkEnds(posts) =>
      HelperDisconnect(f, posts).(connectRunning := false, connectPending := true)
    case SubscribeWorkRuns => f.(subscribePending := false)
    case _ => f
  }

  function Enqueued(s: System, a: Action): System
    requires a.PublishEnqueues?
  {
    var t := s.(publishers := if s.publishers > 0 then s.publishers - 1 else 0);
    if Accepts(s, a) then Published(t, a.message) else t
  }

  function Step(s: System, a: Action): System {
    if a.FsmRun? then RunStep(s, a.disconnectPosts, a.publishOk)
    else if a.PublishChecks? then ReadyChecked(s)
    else if a.PublishEnqueues? then Enqueued(s, a)
    else s.(fsm := Reacted(s.fsm, a))
  }

  ghost predicate StepsAt(ss: seq<System>, acts: seq<Action>, i: nat)
    requires i < |acts| && |ss| == |acts| + 1
  {
    Enabled(ss[i], acts[i]) && ss[i + 1] == Step(ss[i], acts[i])
  }

  ghost predicate IsRun(ss: seq<System>, acts: seq<Action>) {
    && |ss| == |acts| + 1 && ss[0] == INITIAL
    && forall i :: 0 <= i < |acts| ==> StepsAt(ss, acts, i)
  }

  lemma RunAt(ss: seq<System>, acts: seq<Action>, i: nat)
    requires IsRun(ss, acts) && 0 < i < |ss|
    ensures Enabled(ss[i - 1], acts[i - 1]) && ss[i] == Step(ss[i - 1], acts[i - 1])
  {
    hide Enabled, Step;
    assert StepsAt(ss, acts, i - 1);
  }

  // The state of the machine in every run.

  /** Subscriptions are only scheduled while subscribing, connecting always has connect work
      under way, and the timer runs only while publishing. */
  ghost predicate Shaped(f: Fsm) {
    && (f.subscribePending ==> f.state.ConnectedSubscribing?)
    && (f.state.ConnectingToBroker? ==> f.connectPending || f.connectRunning)
    && (f.timerRunning ==> f.state.ConnectedPublishing?)
  }

  lemma ChangeStateKeepsShape(f: Fsm, g: Fsm, state: State)
    requires g == ChangeState(f, state) && (f.subscribePending ==> f.state.ConnectedSubscribing?)
    requires state.ConnectedPublishing? ==> f.state.ConnectedSubscribing?
    requires f.timerRunning ==> f.state.ConnectedPublishing?
    ensures Shaped(g)
  {
  }

  lemma NetworkStageKeepsShape(f: Fsm, disconnectPosts: bool)
    requires Shaped(f)
    ensures Shaped(NetworkStage(f, disconnectPosts))
    ensures NetworkStage(f, disconnectPosts).state == f.state
            || NetworkStage(f, disconnectPosts).mqttEvent == BrokerNoEvent
            || f.state.NetworkDisconnected?
  {
    hide ChangeState;
    var g := OnNetworkEvent(f, disconnectPosts);
    var h := f.(mqttEvent := BrokerNoEvent);
    if f.networkEvent.NetworkNoEvent? {
    } else if f.networkEvent.NetworkLost? {
      var source := if f.state.NetworkDisconnected? then f
                    else if f.state.ConnectingToBroker? then h
                    else HelperDisconnect(h, disconnectPosts);
      ChangeStateKeepsShape(source, g, NetworkDisconnected);
      ChangeStateCounts(source, NetworkDisconnected);
    } else if !f.state.ConnectedPublishing? {
      var source := if f.state.NetworkDisconnected? then f else h;
      ChangeStateKeepsShape(source, g, ConnectingToBroker);
      ChangeStateCounts(source, ConnectingToBroker);
    }
  }

  lemma BrokerStageKeepsShape(origin: State, f: Fsm)
    requires Shaped(f) && (f.state == origin || f.mqttEvent == BrokerNoEvent)
    ensures Shaped(BrokerStage(origin, f))
  {
    hide ChangeState;
    if f.mqttEvent == BrokerNoEvent {
      BrokerStageIdle(origin, f);
    } else if origin.ConnectingToBroker? && f.mqttEvent.ConnectToBrokerSuccess? {
      var g := f.(connectPending := false);
      ChangeStateKeepsShape(g, ChangeState(g, ConnectedSubscribing), ConnectedSubscribing);
    } else {
      ChangeStateKeepsShape(f, ChangeState(f, ConnectingToBroker), ConnectingToBroker);
      if origin.ConnectedSubscribing? {
        ChangeStateKeepsShape(f, ChangeState(f, ConnectedPublishing), ConnectedPublishing);
      }
    }
  }

  lemma HandledKeepsShape(f: Fsm, disconnectPosts: bool)
    requires Shaped(f)
    ensures Shaped(Handled(f, disconnectPosts))
  {
    hide NetworkStage, Shaped;
    var h := NetworkStage(f, disconnectPosts);
    NetworkStageKeepsShape(f, disconnectPosts);
    if f.state.NetworkDisconnected? {
      DisconnectedIgnoresBroker(h);
    } else {
      BrokerStageKeepsShape(f.state, h);
    }
  }

  lemma StepKeepsShape(s: System, a: Action)
    requires Shaped(s.fsm) && Enabled(s, a)
    ensures Shaped(Step(s, a).fsm)
  {
    if a.FsmRun? {
      hide Handled;
      HandledKeepsShape(s.fsm, a.disconnectPosts);
      if Hands(s.fsm, a.disconnectPosts) {
        ServicedWhilePublishing(s.fsm, a.disconnectPosts);
      }
    }
  }

  /** A run that hands a message over stays in PUBLISHING. */
  lemma ServicedWhilePublishing(f: Fsm, disconnectPosts: bool)
    requires Hands(f, disconnectPosts)
    ensures Handled(f, disconnectPosts).state.ConnectedPublishing?
  {
    hide Handled;
    OneTransitionPerRun(f, disconnectPosts, true);
  }

  lemma {:induction false} RunIsShaped(ss: seq<System>, acts: seq<Action>, i: nat)
    requires IsRun(ss, acts) && i < |ss|
    ensures Shaped(ss[i].fsm)
  {
    hide Enabled, Step;
    if i > 0 {
      RunIsShaped(ss, acts, i - 1);
      RunAt(ss, acts, i);
      hide Shaped;
      StepKeepsShape(ss[i - 1], acts[i - 1]);
    }
  }
}
