/** The MQTT transport state machine
    (cluster_head_multi_image_fota/src/transport/transport_fsm.c) on values. */
module TransportFsm {

  const QUEUE_LENGTH := 50

  datatype State = NetworkDisconnected | ConnectingToBroker | ConnectedSubscribing | ConnectedPublishing

  datatype NetworkEvent = NetworkNoEvent | NetworkLost | NetworkConnectedWithIp

  datatype MqttEvent =
    | BrokerNoEvent
    | BrokerDisconnected
    | ConnectToBrokerFail
    | ConnectToBrokerSuccess
    | SubscribeAck
    | SubscribeFail

  datatype Message = Message(topic: string, payload: string, qos: nat)

  /** A queued message, identified by its rank among all messages ever accepted. */
  datatype Entry = Entry(id: nat, message: Message)

  /** `connectPending` and `subscribePending` say that a work item is scheduled;
      `connectRunning` that the connect work function has begun and not yet rescheduled
      itself; `ackBetween` that a PUBACK callback has stopped the timer and not yet removed
      the queue head. `transitions` counts calls of `smf_set_state`. */
  datatype Fsm = Fsm(
    state: State,
    networkEvent: NetworkEvent,
    mqttEvent: MqttEvent,
    connectPending: bool,
    connectRunning: bool,
    subscribePending: bool,
    timerRunning: bool,
    ackBetween: bool,
    queue: seq<Entry>,
    transitions: nat)

  // Entry and exit handlers.

  function Entered(f: Fsm): Fsm {
    match f.state
    case NetworkDisconnected =>
      f.(connectPending := false, subscribePending := false, timerRunning := false,
         networkEvent := NetworkNoEvent, mqttEvent := BrokerNoEvent)
    case ConnectingToBroker =>
      f.(subscribePending := false, queue := [], timerRunning := false, connectPending := true)
    case ConnectedSubscribing => f.(subscribePending := true)
    case ConnectedPublishing => f
  }

  function Exited(f: Fsm): Fsm {
    match f.state
    case ConnectedSubscribing => f.(subscribePending := false)
    case ConnectedPublishing => f.(timerRunning := false)
    case _ => f
  }

  /** `smf_set_state`: exit handler, then entry handler, at once. */
  function ChangeState(f: Fsm, state: State): Fsm {
    Entered(Exited(f).(state := state, transitions := f.transitions + 1))
  }

  /** `mqtt_helper_disconnect` may call back and post a disconnection. */
  function HelperDisconnect(f: Fsm, posts: bool): Fsm {
    if posts then f.(mqttEvent := BrokerDisconnected) else f
  }

  // Run handlers. Each switches on the network event first, clears it, and goes on to
  // switch on the MQTT event, even after a transition.

  function OnNetworkEvent(f: Fsm, disconnectPosts: bool): Fsm {
    match (f.state, f.networkEvent)
    case (_, NetworkNoEvent) => f
    case (NetworkDisconnected, NetworkLost) => ChangeState(f, NetworkDisconnected)
    case (NetworkDisconnected, NetworkConnectedWithIp) => ChangeState(f, ConnectingToBroker)
    case (ConnectingToBroker, NetworkLost) =>
      ChangeState(f.(mqttEvent := BrokerNoEvent), NetworkDisconnected)
    case (ConnectedPublishing, NetworkConnectedWithIp) => f
    case (_, NetworkConnectedWithIp) =>
      ChangeState(f.(mqttEvent := BrokerNoEvent), ConnectingToBroker)
    case (_, NetworkLost) =>
      ChangeState(HelperDisconnect(f.(mqttEvent := BrokerNoEvent), disconnectPosts),
                  NetworkDisconnected)
  }

  function NetworkStage(f: Fsm, disconnectPosts: bool): Fsm {
    OnNetworkEvent(f, disconnectPosts).(networkEvent := NetworkNoEvent)
  }

  function OnBrokerEventWhenConnecting(f: Fsm): Fsm {
    match f.mqttEvent
    case BrokerNoEvent => f
    case ConnectToBrokerSuccess => ChangeState(f.(connectPending := false), ConnectedSubscribing)
    case _ => f.(connectPending := true)
  }

  function OnBrokerEventWhenSubscribing(f: Fsm): Fsm {
    match f.mqttEvent
    case BrokerDisconnected => ChangeState(f, ConnectingToBroker)
    case ConnectToBrokerFail => ChangeState(f, ConnectingToBroker)
    case SubscribeFail => f.(subscribePending := true)
    case SubscribeAck => ChangeState(f, ConnectedPublishing)
    case _ => f
  }

  function OnBrokerEventWhenPublishing(f: Fsm): Fsm {
    match f.mqttEvent
    case BrokerNoEvent => f
    case SubscribeAck => f
    case _ => ChangeState(f, ConnectingToBroker)
  }

  /** `origin` is the state whose run handler is executing. */
  function BrokerStage(origin: State, f: Fsm): Fsm {
    match origin
    case NetworkDisconnected => f
    case ConnectingToBroker => OnBrokerEventWhenConnecting(f).(mqttEvent := BrokerNoEvent)
    case ConnectedSubscribing => OnBrokerEventWhenSubscribing(f).(mqttEvent := BrokerNoEvent)
    case ConnectedPublishing => OnBrokerEventWhenPublishing(f).(mqttEvent := BrokerNoEvent)
  }

  /** The handlers, up to servicing the queue. */
  function Handled(f: Fsm, disconnectPosts: bool): Fsm {
    BrokerStage(f.state, NetworkStage(f, disconnectPosts))
  }

  /** The queue is serviced by a run that began in PUBLISHING and made no transition. */
  predicate Services(f: Fsm, disconnectPosts: bool) {
    var g := Handled(f, disconnectPosts);
    f.state.ConnectedPublishing? && g.transitions == f.transitions
  }

  /** The head of the queue is handed to `mqtt_helper_publish`. */
  predicate Hands(f: Fsm, disconnectPosts: bool) {
    && Services(f, disconnectPosts)
    && Handled(f, disconnectPosts).queue != []
    && !Handled(f, disconnectPosts).timerRunning
  }

  /** After the hand-over: a refused or QoS 0 message leaves the queue, any other stays at
      its head with the timer running. */
  function Serviced(f: Fsm, publishOk: bool): Fsm
    requires f.queue != []
  {
    if !publishOk || f.queue[0].message.qos == 0 then f.(queue := f.queue[1..])
    else f.(timerRunning := true)
  }

  /** `transport_fsm_run`. */
  function Run(f: Fsm, disconnectPosts: bool, publishOk: bool): Fsm {
    var g := Handled(f, disconnectPosts);
    if Hands(f, disconnectPosts) then Serviced(g, publishOk) else g
  }

  function HeadRemoved(f: Fsm): Fsm {
    if f.queue == [] then f else f.(queue := f.queue[1..])
  }

  /** What entering the disconnected state guarantees, wherever the machine came from. */
  ghost predicate Quiet(f: Fsm, g: Fsm) {
    && g.state == NetworkDisconnected
    && g.networkEvent == NetworkNoEvent && g.mqttEvent == BrokerNoEvent
    && !g.connectPending && !g.subscribePending && !g.timerRunning
    && g.queue == f.queue
    && g.transitions == f.transitions + 1
  }

  lemma EnteringDisconnectedQuiets(f: Fsm)
    ensures Quiet(f, ChangeState(f, NetworkDisconnected))
  {
  }

  lemma NetworkStageAfterLoss(f: Fsm, disconnectPosts: bool)
    requires f.networkEvent == NetworkLost
    ensures Quiet(f, NetworkStage(f, disconnectPosts))
  {
    hide ChangeState;
    EnteringDisconnectedQuiets(f);
    EnteringDisconnectedQuiets(f.(mqttEvent := BrokerNoEvent));
    EnteringDisconnectedQuiets(HelperDisconnect(f.(mqttEvent := BrokerNoEvent), disconnectPosts));
  }

  /** With the MQTT mailbox empty, the second switch of a run handler does nothing. */
  lemma BrokerStageIdle(origin: State, f: Fsm)
    requires f.mqttEvent == BrokerNoEvent
    ensures BrokerStage(origin, f) == f
  {
    hide ChangeState;
  }

  /** Network loss wins: from any state and with any pending MQTT event, a run that sees it
      ends disconnected, with both mailboxes empty, both work items cancelled, the timer
      stopped and nothing handed over, even if `mqtt_helper_disconnect` posts an event
      during the run. */
  lemma NetworkLossWins(f: Fsm, disconnectPosts: bool, publishOk: bool)
    requires f.networkEvent == NetworkLost
    ensures Quiet(f, Run(f, disconnectPosts, publishOk))
    ensures !Hands(f, disconnectPosts)
  {
    hide NetworkStage, BrokerStage;
    NetworkStageAfterLoss(f, disconnectPosts);
    BrokerStageIdle(f.state, NetworkStage(f, disconnectPosts));
  }

  lemma ChangeStateCounts(f: Fsm, state: State)
    ensures var g := ChangeState(f, state);
            && g.state == state && g.transitions == f.transitions + 1
            && (f.mqttEvent.BrokerNoEvent? ==> g.mqttEvent.BrokerNoEvent?)
            && (f.networkEvent.NetworkNoEvent? ==> g.networkEvent.NetworkNoEvent?)
            && (state.NetworkDisconnected? ==> g.mqttEvent.BrokerNoEvent?)
  {
  }

  lemma NetworkStageOnce(f: Fsm, disconnectPosts: bool)
    ensures var g := NetworkStage(f, disconnectPosts);
            || g == f.(networkEvent := NetworkNoEvent)
            || (g.transitions == f.transitions + 1 && g.networkEvent == NetworkNoEvent
                && (f.state.NetworkDisconnected? || g.mqttEvent == BrokerNoEvent))
  {
    hide ChangeState;
    ChangeStateCounts(f, NetworkDisconnected);
    ChangeStateCounts(f, ConnectingToBroker);
    var g := f.(mqttEvent := BrokerNoEvent);
    ChangeStateCounts(g, NetworkDisconnected);
    ChangeStateCounts(g, ConnectingToBroker);
    ChangeStateCounts(HelperDisconnect(g, disconnectPosts), NetworkDisconnected);
  }

  /** At most one transition, with the network mailbox left empty. */
  ghost predicate AtMostOne(f: Fsm, g: Fsm) {
    && f.transitions <= g.transitions <= f.transitions + 1
    && (g.transitions == f.transitions ==> g.state == f.state)
    && g.networkEvent == NetworkNoEvent
  }

  lemma ChangeStateAtMostOne(f: Fsm, state: State)
    requires f.networkEvent == NetworkNoEvent
    ensures AtMostOne(f, ChangeState(f, state))
  {
  }

  lemma BrokerStageOnce(origin: State, f: Fsm)
    requires f.networkEvent == NetworkNoEvent
    ensures AtMostOne(f, BrokerStage(origin, f))
    ensures origin.NetworkDisconnected? || BrokerStage(origin, f).mqttEvent == BrokerNoEvent
  {
    hide ChangeState;
    ChangeStateAtMostOne(f.(connectPending := false), ConnectedSubscribing);
    ChangeStateAtMostOne(f, ConnectingToBroker);
    ChangeStateAtMostOne(f, ConnectedPublishing);
  }

  /** No run makes more than one transition; it consumes the network event, and outside the
      disconnected state the MQTT event too. */
  lemma OneTransitionPerRun(f: Fsm, disconnectPosts: bool, publishOk: bool)
    ensures var g := Run(f, disconnectPosts, publishOk);
            && f.transitions <= g.transitions <= f.transitions + 1
            && (g.transitions == f.transitions ==> g.state == f.state)
            && g.networkEvent == NetworkNoEvent
            && (f.state.NetworkDisconnected? || g.mqttEvent == BrokerNoEvent)
  {
    hide NetworkStage, BrokerStage;
    var h := NetworkStage(f, disconnectPosts);
    NetworkStageOnce(f, disconnectPosts);
    BrokerStageOnce(f.state, h);
    if h.mqttEvent == BrokerNoEvent {
      BrokerStageIdle(f.state, h);
    } else if f.state.NetworkDisconnected? {
      DisconnectedIgnoresBroker(h);
    }
  }

  lemma DisconnectedIgnoresBroker(f: Fsm)
    ensures BrokerStage(NetworkDisconnected, f) == f
  {
  }
}
