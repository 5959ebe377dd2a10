/** The MQTT transport in the form of the program: `transport_fsm.c` with its event mailboxes,
    work items and timer, over the heap-owning queue, and the admission in `transport.c`.
    Every method is a step of TransportProtocol.dfy. */
module TransportThread {
  import opened TransportFsm
  import opened TransportProtocol
  import opened TransportQueue

  const TOPIC_STRING_MAX_SIZE := 64
  const PAYLOAD_STRING_MAX_SIZE := 2548

  ghost function Entries(ids: seq<nat>, messages: seq<Message>): (r: seq<Entry>)
    requires |ids| == |messages|
    ensures |r| == |ids|
    ensures forall i :: 0 <= i < |r| ==> r[i] == Entry(ids[i], messages[i])
  {
    seq(|ids|, i requires 0 <= i < |ids| => Entry(ids[i], messages[i]))
  }

  lemma HelperDisconnectCounts(f: Fsm, posts: bool)
    ensures HelperDisconnect(f, posts).transitions == f.transitions
  {
  }

  class TransportThread {
    const queue: TransportQueue
    var state: State
    var networkEvent: NetworkEvent
    var mqttEvent: MqttEvent
    var connectPending: bool
    var connectRunning: bool
    var subscribePending: bool
    var timerRunning: bool
    var ackBetween: bool
    /** The rank of each queued message, and the history. */
    ghost var ids: seq<nat>
    ghost var transitions: nat
    ghost var publishers: nat
    ghost var accepted: seq<Message>
    ghost var handed: seq<Entry>

    ghost predicate Valid()
      reads this, queue
    {
      queue.Valid() && |ids| == |queue.slots|
    }

    ghost function Queued(): seq<Entry>
      requires Valid()
      reads this, queue
    {
      Entries(ids, queue.Contents())
    }

    ghost function Machine(): Fsm
      requires Valid()
      reads this, queue
    {
      Fsm(state, networkEvent, mqttEvent, connectPending, connectRunning, subscribePending,
          timerRunning, ackBetween, Queued(), transitions)
    }

    ghost function View(): System
      requires Valid()
      reads this, queue
    {
      System(Machine(), publishers, accepted, handed)
    }

    constructor ()
      ensures Valid() && View() == INITIAL && fresh(queue)
    {
      queue := new TransportQueue();
      state, networkEvent, mqttEvent := NetworkDisconnected, NetworkNoEvent, BrokerNoEvent;
      connectPending, connectRunning, subscribePending := false, false, false;
      timerRunning, ackBetween := false, false;
      ids, transitions, publishers, accepted, handed := [], 0, 0, [], [];
    }

    // The queue.

    method RemoveHead()
      requires Valid()
      modifies this`ids, queue
      ensures Valid()
      ensures Queued() == if old(Queued()) == [] then [] else old(Queued())[1..]
    {
      hide Owned, ContentsOf;
      var err := queue.Remove();
      if err == 0 {
        ids := ids[1..];
      }
    }

    method ClearQueue()
      requires Valid()
      modifies this`ids, queue
      ensures Valid() && Queued() == []
    {
      queue.Clear();
      ids := [];
    }

    // Entry and exit handlers.

    method NetworkDisconnectedEntry()
      requires Valid() && state.NetworkDisconnected?
      modifies this`connectPending, this`subscribePending, this`timerRunning
      modifies this`networkEvent, this`mqttEvent
      ensures Valid() && Machine() == Entered(old(Machine()))
    {
      hide Owned, ContentsOf, Entries;
      connectPending := false;
      subscribePending := false;
      timerRunning := false;
      networkEvent := NetworkNoEvent;
      mqttEvent := BrokerNoEvent;
    }

    method ConnectingToBrokerEntry()
      requires Valid() && state.ConnectingToBroker?
      modifies this`subscribePending, this`timerRunning, this`connectPending, this`ids, queue
      ensures Valid() && Machine() == Entered(old(Machine()))
    {
      hide Owned, ContentsOf, Entries;
      subscribePending := false;
      ClearQueue();
      timerRunning := false;
      connectPending := true;
    }

    method Exit()
      requires Valid()
      modifies this`subscribePending, this`timerRunning
      ensures Valid() && Machine() == Exited(old(Machine()))
    {
      hide Owned, ContentsOf, Entries;
      match state {
        case ConnectedSubscribing => subscribePending := false;
        case ConnectedPublishing => timerRunning := false;
        case _ =>
      }
    }

    method Enter()
      requires Valid()
      modifies this, queue
      ensures Valid() && View() == old(View()).(fsm := Entered(old(Machine())))
    {
      hide Owned, ContentsOf, Entries;
      match state {
        case NetworkDisconnected => NetworkDisconnectedEntry();
        case ConnectingToBroker => ConnectingToBrokerEntry();
        case ConnectedSubscribing =>
          subscribePending := true;
        case ConnectedPublishing =>
      }
    }

    /** `smf_set_state`. */
    method SetState(next: State)
      requires Valid()
      modifies this, queue
      ensures Valid() && View() == old(View()).(fsm := ChangeState(old(Machine()), next))
    {
      hide Owned, ContentsOf, Entries, Entered, Exited;
      Exit();
      state, transitions := next, transitions + 1;
      assert Machine() == Exited(old(Machine())).(state := next, transitions := transitions);
      Enter();
    }

    /** `posts`: the library calls back and posts the disconnection. */
    method MqttHelperDisconnect(posts: bool)
      requires Valid()
      modifies this`mqttEvent
      ensures Valid() && View() == old(View()).(fsm := HelperDisconnect(old(Machine()), posts))
    {
      if posts {
        mqttEvent := BrokerDisconnected;
      }
    }

    // Run handlers: each switches on the network event, then on the MQTT event.

    method NetworkDisconnectedRun(posts: bool)
      requires Valid() && state.NetworkDisconnected?
      modifies this, queue
      ensures Valid() && View() == old(View()).(fsm := Handled(old(Machine()), posts))
    {
      hide Owned, ContentsOf, Entries, ChangeState, BrokerStage;
      match networkEvent {
        case NetworkNoEvent =>
        case NetworkLost => SetState(NetworkDisconnected);
        case NetworkConnectedWithIp => SetState(ConnectingToBroker);
      }
      networkEvent := NetworkNoEvent;
      DisconnectedIgnoresBroker(Machine());
    }

    /** Network events take precedence: the pending MQTT event is dropped. */
    method DropMqttEventAndSet(next: State)
      requires Valid()
      modifies this, queue
      ensures Valid()
      ensures var f := old(Machine()).(mqttEvent := BrokerNoEvent);
              View() == old(View()).(fsm := ChangeState(f, next))
    {
      hide Owned, ContentsOf, Entries, ChangeState;
      mqttEvent := BrokerNoEvent;
      SetState(next);
    }

    method ConnectingNetworkSwitch(posts: bool)
      requires Valid() && state.ConnectingToBroker?
      modifies this, queue
      ensures Valid() && View() == old(View()).(fsm := NetworkStage(old(Machine()), posts))
    {
      hide Owned, ContentsOf, Entries, ChangeState;
      match networkEvent {
        case NetworkNoEvent =>
        case NetworkConnectedWithIp =>
          DropMqttEventAndSet(ConnectingToBroker);
        case NetworkLost =>
          DropMqttEventAndSet(NetworkDisconnected);
      }
      networkEvent := NetworkNoEvent;
    }

    method ConnectingBrokerSwitch()
      requires Valid()
      modifies this, queue
      ensures Valid()
      ensures View() == old(View()).(fsm := BrokerStage(ConnectingToBroker, old(Machine())))
    {
      hide Owned, ContentsOf, Entries, ChangeState;
      match mqttEvent {
        case BrokerNoEvent =>
        case ConnectToBrokerSuccess =>
          connectPending := false;
          SetState(ConnectedSubscribing);
        case _ => connectPending := true;
      }
      mqttEvent := BrokerNoEvent;
    }

    method ConnectingToBrokerRun(posts: bool)
      requires Valid() && state.ConnectingToBroker?
      modifies this, queue
      ensures Valid() && View() == old(View()).(fsm := Handled(old(Machine()), posts))
    {
      hide Owned, ContentsOf, Entries, NetworkStage, BrokerStage;
      ConnectingNetworkSwitch(posts);
      ConnectingBrokerSwitch();
    }

    /** A network loss disconnects the library before it changes state. */
    method DisconnectOnLoss(posts: bool)
      requires Valid()
      modifies this, queue
      ensures Valid()
      ensures var f := old(Machine()).(mqttEvent := BrokerNoEvent);
              View() == old(View()).(fsm := ChangeState(HelperDisconnect(f, posts), NetworkDisconnected))
    {
      hide Owned, ContentsOf, Entries, ChangeState;
      mqttEvent := BrokerNoEvent;
      MqttHelperDisconnect(posts);
      SetState(NetworkDisconnected);
    }

    method SubscribingNetworkSwitch(posts: bool)
      requires Valid() && state.ConnectedSubscribing?
      modifies this, queue
      ensures Valid() && View() == old(View()).(fsm := NetworkStage(old(Machine()), posts))
    {
      hide Owned, ContentsOf, Entries, ChangeState, HelperDisconnect;
      match networkEvent {
        case NetworkNoEvent =>
        case NetworkConnectedWithIp =>
          DropMqttEventAndSet(ConnectingToBroker);
        case NetworkLost =>
          DisconnectOnLoss(posts);
      }
      networkEvent := NetworkNoEvent;
    }

    method SubscribingBrokerSwitch()
      requires Valid()
      modifies this, queue
      ensures Valid()
      ensures View() == old(View()).(fsm := BrokerStage(ConnectedSubscribing, old(Machine())))
    {
      hide Owned, ContentsOf, Entries, ChangeState;
      match mqttEvent {
        case BrokerNoEvent =>
        case BrokerDisconnected => SetState(ConnectingToBroker);
        case ConnectToBrokerFail => SetState(ConnectingToBroker);
        case ConnectToBrokerSuccess =>
        case SubscribeFail => subscribePending := true;
        case SubscribeAck => SetState(ConnectedPublishing);
      }
      mqttEvent := BrokerNoEvent;
    }

    method ConnectedSubscribingRun(posts: bool)
      requires Valid() && state.ConnectedSubscribing?
      modifies this, queue
      ensures Valid() && View() == old(View()).(fsm := Handled(old(Machine()), posts))
    {
      hide Owned, ContentsOf, Entries, NetworkStage, BrokerStage;
      SubscribingNetworkSwitch(posts);
      SubscribingBrokerSwitch();
    }

    /** `service` says that the switch made no transition. */
    method PublishingNetworkSwitch(posts: bool) returns (service: bool)
      requires Valid() && state.ConnectedPublishing?
      modifies this, queue
      ensures Valid() && View() == old(View()).(fsm := NetworkStage(old(Machine()), posts))
      ensures service == (transitions == old(transitions))
    {
      hide Owned, ContentsOf, Entries, ChangeState, HelperDisconnect;
      service := true;
      match networkEvent {
        case NetworkNoEvent =>
        case NetworkConnectedWithIp =>
        case NetworkLost =>
          ghost var f := Machine().(mqttEvent := BrokerNoEvent);
          ChangeStateCounts(HelperDisconnect(f, posts), NetworkDisconnected);
          HelperDisconnectCounts(f, posts);
          DisconnectOnLoss(posts);
          service := false;
      }
      networkEvent := NetworkNoEvent;
    }

    method PublishingBrokerSwitch() returns (service: bool)
      requires Valid()
      modifies this, queue
      ensures Valid()
      ensures View() == old(View()).(fsm := BrokerStage(ConnectedPublishing, old(Machine())))
      ensures service == (transitions == old(transitions))
    {
      hide Owned, ContentsOf, Entries, ChangeState;
      service := true;
      match mqttEvent {
        case BrokerNoEvent =>
        case SubscribeAck =>
        case _ =>
          ChangeStateCounts(Machine(), ConnectingToBroker);
          SetState(ConnectingToBroker);
          service := false;
      }
      mqttEvent := BrokerNoEvent;
    }

    method ConnectedPublishingRun(posts: bool, publishOk: bool)
      requires Valid() && state.ConnectedPublishing?
      modifies this, queue
      ensures Valid() && View() == RunStep(old(View()), posts, publishOk)
    {
      hide Owned, ContentsOf, Entries, NetworkStage, BrokerStage, Serviced;
      NetworkStageOnce(Machine(), posts);
      BrokerStageOnce(ConnectedPublishing, NetworkStage(Machine(), posts));
      var serviceMsgQueue := PublishingNetworkSwitch(posts);
      var stays := PublishingBrokerSwitch();
      assert View() == old(View()).(fsm := Handled(old(Machine()), posts));
      if serviceMsgQueue && stays {
        ServiceTransportMsgQueue(publishOk);
      }
    }

    /** `service_transport_msg_queue`. */
    method ServiceTransportMsgQueue(publishOk: bool)
      requires Valid()
      modifies this, queue
      ensures Valid()
      ensures View() == if old(Queued()) == [] || old(timerRunning) then old(View()) else
                old(View()).(fsm := Serviced(old(Machine()), publishOk),
                             handed := old(handed) + [old(Queued())[0]])
    {
      hide Owned, ContentsOf;
      var pending := queue.Pending();
      if pending > 0 && !timerRunning {
        var msg := queue.Peek();
        if msg.Some? {
          handed := handed + [Queued()[0]];
          if !publishOk {
            RemoveHead();
          } else if msg.value.qos == 0 {
            RemoveHead();
          } else {
            timerRunning := true;
          }
        }
      }
    }

    /** `transport_fsm_run`. */
    method Run(posts: bool, publishOk: bool)
      requires Valid()
      modifies this, queue
      ensures Valid() && View() == Step(old(View()), FsmRun(posts, publishOk))
    {
      hide Owned, ContentsOf, Entries, Handled, Serviced;
      match state {
        case NetworkDisconnected => NetworkDisconnectedRun(posts);
        case ConnectingToBroker => ConnectingToBrokerRun(posts);
        case ConnectedSubscribing => ConnectedSubscribingRun(posts);
        case ConnectedPublishing =>
          ConnectedPublishingRun(posts, publishOk);
      }
    }

    // Callbacks, work items and the timer.

    method NetworkEventSet(event: NetworkEvent)
      requires Valid()
      modifies this`networkEvent
      ensures Valid() && View() == Step(old(View()), PostNetworkEvent(event))
    {
      networkEvent := event;
    }

    method MqttEventSet(event: MqttEvent)
      requires Valid()
      modifies this`mqttEvent
      ensures Valid() && View() == Step(old(View()), PostMqttEvent(event))
    {
      mqttEvent := event;
    }

    /** First half of `transport_fsm_msg_published`. */
    method MsgPublishedStopsTimer()
      requires Valid() && Enabled(View(), AckStopsTimer)
      modifies this`timerRunning, this`ackBetween
      ensures Valid() && View() == Step(old(View()), AckStopsTimer)
    {
      timerRunning := false;
      ackBetween := true;
    }

    /** Second half of `transport_fsm_msg_published`. */
    method MsgPublishedRemovesHead()
      requires Valid() && Enabled(View(), AckRemovesHead)
      modifies this`ackBetween, this`ids, queue
      ensures Valid() && View() == Step(old(View()), AckRemovesHead)
    {
      hide Owned, ContentsOf, Entries;
      RemoveHead();
      ackBetween := false;
    }

    /** `transport_fsm_timer_expired`. */
    method TimerExpired()
      requires Valid() && Enabled(View(), TimerExpires)
      modifies this`timerRunning, this`ids, queue
      ensures Valid() && View() == Step(old(View()), TimerExpires)
    {
      hide Owned, ContentsOf, Entries;
      timerRunning := false;
      RemoveHead();
    }

    /** `connect_work_fn` up to its sleep. */
    method ConnectWorkBegin()
      requires Valid() && Enabled(View(), ConnectWorkBegins)
      modifies this`connectPending, this`connectRunning
      ensures Valid() && View() == Step(old(View()), ConnectWorkBegins)
    {
      connectPending, connectRunning := false, true;
    }

    /** `connect_work_fn` from its sleep on: a failed connection in the wrong library state is
        disconnected, and in every case the work is scheduled again. */
    method ConnectWorkEnd(wrongState: bool, posts: bool)
      requires Valid() && Enabled(View(), ConnectWorkEnds(wrongState && posts))
      modifies this`connectPending, this`connectRunning, this`mqttEvent
      ensures Valid() && View() == Step(old(View()), ConnectWorkEnds(wrongState && posts))
    {
      if wrongState {
        MqttHelperDisconnect(posts);
      }
      connectPending, connectRunning := true, false;
    }

    method SubscribeWork()
      requires Valid() && Enabled(View(), SubscribeWorkRuns)
      modifies this`subscribePending
      ensures Valid() && View() == Step(old(View()), SubscribeWorkRuns)
    {
      subscribePending := false;
    }

    // Admission.

    /** The ready check of `transport_publish`. */
    method StateReady() returns (ready: bool)
      requires Valid()
      modifies this`publishers
      ensures Valid() && ready == state.ConnectedPublishing?
      ensures View() == Step(old(View()), PublishChecks)
    {
      ready := state.ConnectedPublishing?;
      if ready {
        publishers := publishers + 1;
      }
    }

    method AddToQueue(topic: string, payload: string, qos: nat,
                      topicGrant: Option<nat>, payloadGrant: Option<nat>) returns (err: int)
      requires Valid()
      requires topicGrant.Some? ==> topicGrant.value !in queue.heap
      requires payloadGrant.Some? ==> payloadGrant.value !in queue.heap && payloadGrant != topicGrant
      modifies this`ids, this`accepted, queue
      ensures Valid()
      ensures err == 0 <==> topicGrant.Some? && payloadGrant.Some? && |old(Queued())| < QUEUE_LENGTH
      ensures err != 0 ==> Queued() == old(Queued()) && accepted == old(accepted)
      ensures err == 0 ==>
                && Queued() == old(Queued()) + [Entry(|old(accepted)|, Message(topic, payload, qos))]
                && accepted == old(accepted) + [Message(topic, payload, qos)]
    {
      hide Owned, ContentsOf;
      err := queue.Add(Some(topic), Some(payload), qos, topicGrant, payloadGrant);
      if err == 0 {
        ids := ids + [|accepted|];
        accepted := accepted + [Message(topic, payload, qos)];
      }
    }

    /** `transport_publish` after its ready check, whatever happened since: the message is
        queued exactly if both strings are short enough, both buffers are granted and there
        is room. */
    method PublishWhenReady(topic: string, payload: string, qos: nat,
                            topicGrant: Option<nat>, payloadGrant: Option<nat>) returns (err: int)
      requires Valid() && publishers > 0
      requires topicGrant.Some? ==> topicGrant.value !in queue.heap
      requires payloadGrant.Some? ==> payloadGrant.value !in queue.heap && payloadGrant != topicGrant
      modifies this`ids, this`accepted, this`publishers, queue
      ensures Valid()
      ensures var message := Message(topic, payload, if qos > 1 then 1 else qos);
              var admitted := |topic| < 64 && |payload| < 2548
                              && topicGrant.Some? && payloadGrant.Some?;
              && err == (if admitted && |old(Queued())| < 50 then 0 else -1)
              && View() == Step(old(View()), PublishEnqueues(message, admitted))
    {
      hide Owned, ContentsOf, Entries;
      publishers := publishers - 1;
      var admittedQos := if qos > 1 then 1 else qos;
      if |topic| >= TOPIC_STRING_MAX_SIZE {
        return -1;
      }
      if |payload| >= PAYLOAD_STRING_MAX_SIZE {
        return -1;
      }
      err := AddToQueue(topic, payload, admittedQos, topicGrant, payloadGrant);
      if err != 0 {
        return -1;
      }
    }

    /** `transport_publish`, not preempted: a message is accepted exactly while publishing, if
        both strings are given and short enough, both buffers are granted and there is room;
        a QoS above 1 is lowered to 1. A refused message changes nothing. */
    method Publish(topic: Option<string>, payload: Option<string>, qos: nat,
                   topicGrant: Option<nat>, payloadGrant: Option<nat>) returns (err: int)
      requires Valid()
      requires topicGrant.Some? ==> topicGrant.value !in queue.heap
      requires payloadGrant.Some? ==> payloadGrant.value !in queue.heap && payloadGrant != topicGrant
      modifies this`ids, this`accepted, this`publishers, queue
      ensures Valid()
      ensures err == 0 <==>
                && topic.Some? && |topic.value| < 64 && payload.Some? && |payload.value| < 2548
                && topicGrant.Some? && payloadGrant.Some?
                && old(state).ConnectedPublishing? && |old(Queued())| < 50
      ensures err == -22 <==> topic.None? || payload.None?
      ensures err != 0 ==> View() == old(View())
      ensures err == 0 ==>
                var message := Message(topic.value, payload.value, if qos > 1 then 1 else qos);
                View() == Step(Step(old(View()), PublishChecks), PublishEnqueues(message, true))
    {
      hide Owned, ContentsOf, Entries;
      if topic.None? {
        return -EINVAL;
      }
      if payload.None? {
        return -EINVAL;
      }
      var ready := StateReady();
      if !ready {
        return -1;
      }
      err := PublishWhenReady(topic.value, payload.value, qos, topicGrant, payloadGrant);
    }
  }
}
