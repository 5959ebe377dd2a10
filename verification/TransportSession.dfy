/** The transport and the MQTT helper together: which calls the transport makes, in which runs
    all state changes of the helper are legal, and what becomes of a slow CONNACK. */
module TransportSession {
  import opened TransportFsm
  import opened TransportProtocol
  import TransportDelivery
  import TransportTransitions
  import H = MqttHelper

  /** The transport after its thread has initialised the helper. */
  datatype Joint = Joint(transport: System, helper: H.State)

  const START := Joint(INITIAL, H.Disconnected)

  /** The steps of the transport that call the helper, with what the library answers; the
      events of the library; and the other steps of the transport. */
  datatype JointAction =
    | MachineRuns(closed: bool, disconnectErr: int, publishErr: int)
    | ConnectWorks(brokerErr: int, libraryErr: int, closed: bool, disconnectErr: int)
    | SubscribeWorks(libraryErr: int)
    | BrokerAnswers(accepted: bool)
    | BrokerIsLost
    | TransportOnly(action: Action)

  /** A machine run disconnects the library explicitly. */
  predicate Disconnects(f: Fsm) {
    f.networkEvent.NetworkLost? && (f.state.ConnectedSubscribing? || f.state.ConnectedPublishing?)
  }

  /** What `mqtt_helper_connect` returns. */
  function ConnectResult(s: H.State, brokerErr: int, libraryErr: int): int {
    if H.Refused(s, H.Connect(brokerErr, libraryErr)) then -H.EOPNOTSUPP
    else if brokerErr != 0 then brokerErr
    else libraryErr
  }

  /** The calls into the helper, or events of the library, that a step consists of. */
  function Calls(j: Joint, a: JointAction): seq<H.Operation> {
    match a
    case MachineRuns(closed, disconnectErr, publishErr) =>
      if Disconnects(j.transport.fsm) then [H.Disconnect(closed, disconnectErr)]
      else if TransportDelivery.ReadyToHand(j.transport.fsm) then [H.Publish(publishErr)]
      else []
    case ConnectWorks(brokerErr, libraryErr, closed, disconnectErr) =>
      [H.Connect(brokerErr, libraryErr)]
      + (if ConnectResult(j.helper, brokerErr, libraryErr) == -H.EOPNOTSUPP
         then [H.Disconnect(closed, disconnectErr)] else [])
    case SubscribeWorks(libraryErr) => [H.Subscribe(libraryErr)]
    case BrokerAnswers(accepted) => [H.Connack(accepted)]
    case BrokerIsLost => [H.ConnectionLost]
    case TransportOnly(_) => []
  }

  /** `mqtt_helper_disconnect` calls back and posts a disconnection. */
  predicate Posts(s: H.State, closed: bool, disconnectErr: int) {
    s.Connected? && (closed || disconnectErr != 0)
  }

  /** What the step does to the transport. */
  function TransportAction(j: Joint, a: JointAction): Action {
    match a
    case MachineRuns(closed, disconnectErr, publishErr) =>
      FsmRun(Posts(j.helper, closed, disconnectErr), j.helper.Connected? && publishErr == 0)
    case ConnectWorks(brokerErr, libraryErr, closed, disconnectErr) =>
      ConnectWorkEnds(Posts(j.helper, closed, disconnectErr))
    case SubscribeWorks(_) => SubscribeWorkRuns
    case BrokerAnswers(accepted) =>
      PostMqttEvent(if accepted then ConnectToBrokerSuccess else ConnectToBrokerFail)
    case BrokerIsLost => PostMqttEvent(BrokerDisconnected)
    case TransportOnly(action) => action
  }

  /** Steps that involve the helper are not steps of the transport alone, and connections are
      reported by the helper only. */
  predicate Permitted(j: Joint, a: JointAction) {
    && Enabled(j.transport, TransportAction(j, a))
    && (a.TransportOnly? ==>
          && !a.action.FsmRun? && !a.action.ConnectWorkEnds? && !a.action.SubscribeWorkRuns?
          && (a.action.PostMqttEvent? ==>
                a.action.mqttEvent.SubscribeAck? || a.action.mqttEvent.SubscribeFail?))
  }

  function AfterAll(s: H.State, ops: seq<H.Operation>): H.State
    decreases |ops|
  {
    if ops == [] then s else AfterAll(H.After(s, ops[0]), ops[1..])
  }

  function ChangesAll(s: H.State, ops: seq<H.Operation>): seq<H.Change>
    decreases |ops|
  {
    if ops == [] then [] else H.ChangesOf(s, ops[0]) + ChangesAll(H.After(s, ops[0]), ops[1..])
  }

  function JointStep(j: Joint, a: JointAction): Joint {
    Joint(Step(j.transport, TransportAction(j, a)), AfterAll(j.helper, Calls(j, a)))
  }

  ghost predicate JointStepsAt(js: seq<Joint>, acts: seq<JointAction>, i: nat)
    requires i < |acts| && |js| == |acts| + 1
  {
    Permitted(js[i], acts[i]) && js[i + 1] == JointStep(js[i], acts[i])
  }

  ghost predicate IsJointRun(js: seq<Joint>, acts: seq<JointAction>) {
    && |js| == |acts| + 1 && js[0] == START
    && forall i :: 0 <= i < |acts| ==> JointStepsAt(js, acts, i)
  }

  /** The transport's part of a joint run is a run of the transport protocol, so that whatever
      holds in its runs holds here. */
  lemma JointRunProjects(js: seq<Joint>, acts: seq<JointAction>)
    returns (ss: seq<System>, ts: seq<Action>)
    requires IsJointRun(js, acts)
    ensures IsRun(ss, ts) && |ss| == |js| && |ts| == |acts|
    ensures forall i :: 0 <= i < |js| ==> ss[i] == js[i].transport
    ensures forall i :: 0 <= i < |acts| ==> ts[i] == TransportAction(js[i], acts[i])
  {
    hide Step, Enabled, TransportAction;
    ss := seq(|js|, i requires 0 <= i < |js| => js[i].transport);
    ts := seq(|acts|, i requires 0 <= i < |acts| => TransportAction(js[i], acts[i]));
    forall i | 0 <= i < |ts| ensures StepsAt(ss, ts, i) {
      assert JointStepsAt(js, acts, i);
    }
  }

  // Legal state changes of the helper.

  /** All state changes of the helper in the first `n` steps. */
  function JointChanges(js: seq<Joint>, acts: seq<JointAction>, n: nat): seq<H.Change>
    requires n <= |acts| <= |js|
  {
    if n == 0 then []
    else JointChanges(js, acts, n - 1) + ChangesAll(js[n - 1].helper, Calls(js[n - 1], acts[n - 1]))
  }

  /** A connection attempt whose address is resolved ends while the helper is CONNECTING, or
      the broker accepts what was not asked for. */
  predicate LeavesTable(j: Joint, a: JointAction) {
    || (a.ConnectWorks? && a.brokerErr == 0 && j.helper.Connecting?)
    || (a.BrokerAnswers? && a.accepted && !j.helper.Connecting? && !j.helper.Connected?)
  }

  lemma ChangesOfOneOrTwo(s: H.State, a: H.Operation, b: H.Operation)
    ensures ChangesAll(s, []) == []
    ensures ChangesAll(s, [a]) == H.ChangesOf(s, a)
    ensures ChangesAll(s, [a, b]) == H.ChangesOf(s, a) + H.ChangesOf(H.After(s, a), b)
  {
    hide H.ChangesOf, H.After;
    assert [a][1..] == [] && [a, b][1..] == [b] && [b][1..] == [];
    assert ChangesAll(H.After(s, a), [b]) == H.ChangesOf(H.After(s, a), b);
  }

  lemma StepIsLegal(j: Joint, a: JointAction)
    ensures H.AllLegal(ChangesAll(j.helper, Calls(j, a))) <==> !LeavesTable(j, a)
  {
    var ops := Calls(j, a);
    hide H.AllLegal, H.ChangesOf, H.After, ChangesAll, ConnectResult, TransportDelivery.ReadyToHand;
    hide Disconnects;
    NothingIsLegal();
    if |ops| == 0 {
      ChangesOfOneOrTwo(j.helper, H.Init, H.Init);
    } else if |ops| == 1 {
      assert ops == [ops[0]];
      ChangesOfOneOrTwo(j.helper, ops[0], H.Init);
      H.OperationIsLegal(j.helper, ops[0]);
    } else {
      assert ops == [ops[0], ops[1]];
      ChangesOfOneOrTwo(j.helper, ops[0], ops[1]);
      H.OperationIsLegal(j.helper, ops[0]);
      H.OperationIsLegal(H.After(j.helper, ops[0]), ops[1]);
      H.AllLegalSplit(H.ChangesOf(j.helper, ops[0]),
                      H.ChangesOf(H.After(j.helper, ops[0]), ops[1]));
    }
  }

  lemma NothingIsLegal()
    ensures H.AllLegal([])
  {
  }

  lemma {:induction false} ChangesAreLegal(js: seq<Joint>, acts: seq<JointAction>, n: nat)
    requires n <= |acts| <= |js|
    ensures H.AllLegal(JointChanges(js, acts, n))
            <==> forall i :: 0 <= i < n ==> !LeavesTable(js[i], acts[i])
  {
    hide H.AllLegal, LeavesTable, ChangesAll, Calls;
    if n == 0 {
      NothingIsLegal();
    } else {
      ChangesAreLegal(js, acts, n - 1);
      StepIsLegal(js[n - 1], acts[n - 1]);
      H.AllLegalSplit(JointChanges(js, acts, n - 1),
                      ChangesAll(js[n - 1].helper, Calls(js[n - 1], acts[n - 1])));
    }
  }

  // Unanswered connection requests.

  /** A connection attempt sends its request. */
  predicate SendsRequest(j: Joint, a: JointAction) {
    && a.ConnectWorks? && a.brokerErr == 0 && a.libraryErr == 0
    && (j.helper.Disconnected? || j.helper.Connecting?)
  }

  /** The step answers a request or replaces it by another attempt. */
  predicate Settles(a: JointAction) {
    a.ConnectWorks? || a.BrokerAnswers? || a.BrokerIsLost?
  }

  /** The request sent at step `c` is unanswered at step `i`. */
  ghost predicate Unanswered(js: seq<Joint>, acts: seq<JointAction>, c: nat, i: nat)
    requires i <= |acts| <= |js|
  {
    c < i && SendsRequest(js[c], acts[c]) && forall m :: c < m < i ==> !Settles(acts[m])
  }

  lemma AfterOneOrTwo(s: H.State, a: H.Operation, b: H.Operation)
    ensures AfterAll(s, []) == s && AfterAll(s, [a]) == H.After(s, a)
    ensures AfterAll(s, [a, b]) == H.After(H.After(s, a), b)
  {
    hide H.After;
    assert [a][1..] == [] && [a, b][1..] == [b] && [b][1..] == [];
    assert AfterAll(H.After(s, a), [b]) == H.After(H.After(s, a), b);
  }

  /** A step leaves the helper CONNECTING exactly if it sends a request, or settles nothing and
      found it so. */
  lemma ConnectingStep(j: Joint, a: JointAction)
    ensures JointStep(j, a).helper.Connecting?
            <==> SendsRequest(j, a) || (!Settles(a) && j.helper.Connecting?)
  {
    var ops := Calls(j, a);
    hide Step, TransportAction, AfterAll, TransportDelivery.ReadyToHand, Disconnects;
    if |ops| == 0 {
      AfterOneOrTwo(j.helper, H.Init, H.Init);
    } else if |ops| == 1 {
      assert ops == [ops[0]];
      AfterOneOrTwo(j.helper, ops[0], H.Init);
    } else {
      assert ops == [ops[0], ops[1]];
      AfterOneOrTwo(j.helper, ops[0], ops[1]);
    }
  }

  /** The helper is CONNECTING exactly while a connection request is unanswered. */
  lemma {:induction false} ConnectingMeansUnanswered(js: seq<Joint>, acts: seq<JointAction>, i: nat)
    requires IsJointRun(js, acts) && i <= |acts|
    ensures js[i].helper.Connecting? <==> exists c: nat :: Unanswered(js, acts, c, i)
  {
    hide JointStep, SendsRequest, Settles, Permitted;
    if i > 0 {
      var j, a := js[i - 1], acts[i - 1];
      ConnectingMeansUnanswered(js, acts, i - 1);
      assert JointStepsAt(js, acts, i - 1);
      ConnectingStep(j, a);
      if SendsRequest(j, a) {
        assert Unanswered(js, acts, i - 1, i);
      } else if !Settles(a) && j.helper.Connecting? {
        var c: nat :| Unanswered(js, acts, c, i - 1);
        assert Unanswered(js, acts, c, i);
      }
      forall c: nat | Unanswered(js, acts, c, i) ensures js[i].helper.Connecting? {
        if c < i - 1 {
          assert Unanswered(js, acts, c, i - 1);
        }
      }
    }
  }

  /** A connection attempt, its address resolved, ends while an earlier request is unanswered. */
  ghost predicate Overtakes(js: seq<Joint>, acts: seq<JointAction>, i: nat)
    requires i < |acts| <= |js|
  {
    acts[i].ConnectWorks? && acts[i].brokerErr == 0 && exists c: nat :: Unanswered(js, acts, c, i)
  }

  /** The broker accepts a connection although none is asked for or open. */
  predicate Unsolicited(j: Joint, a: JointAction) {
    a.BrokerAnswers? && a.accepted && !j.helper.Connecting? && !j.helper.Connected?
  }

  /** The transport uses the helper as its table allows, throughout a run, if and only if no
      connection attempt overtakes the answer to an earlier one, and the broker accepts only
      what was asked for. */
  lemma SessionIsLegal(js: seq<Joint>, acts: seq<JointAction>, n: nat)
    requires IsJointRun(js, acts) && n <= |acts|
    ensures H.AllLegal(JointChanges(js, acts, n))
            <==> forall i :: 0 <= i < n ==> !Overtakes(js, acts, i) && !Unsolicited(js[i], acts[i])
  {
    hide H.AllLegal, JointChanges, Unanswered;
    ChangesAreLegal(js, acts, n);
    forall i | 0 <= i < n
      ensures LeavesTable(js[i], acts[i]) <==> Overtakes(js, acts, i) || Unsolicited(js[i], acts[i])
    {
      ConnectingMeansUnanswered(js, acts, i);
    }
  }

  /** An open session ends exactly if the broker is lost or refuses, if the machine learns of a
      network loss, or if connect work comes to its end: that attempt is refused, and its
      answer to the refusal is to disconnect. */
  lemma OpenSessionEnds(j: Joint, a: JointAction)
    requires j.helper.Connected?
    ensures !JointStep(j, a).helper.Connected?
            <==> || a.ConnectWorks? || a.BrokerIsLost? || (a.BrokerAnswers? && !a.accepted)
                 || (a.MachineRuns? && j.transport.fsm.networkEvent.NetworkLost?
                     && (j.transport.fsm.state.ConnectedSubscribing?
                         || j.transport.fsm.state.ConnectedPublishing?))
  {
    var ops := Calls(j, a);
    hide Step, TransportAction, AfterAll, TransportDelivery.ReadyToHand;
    if |ops| == 0 {
      AfterOneOrTwo(j.helper, H.Init, H.Init);
    } else if |ops| == 1 {
      assert ops == [ops[0]];
      AfterOneOrTwo(j.helper, ops[0], H.Init);
    } else {
      assert ops == [ops[0], ops[1]];
      AfterOneOrTwo(j.helper, ops[0], ops[1]);
    }
  }

  /** `mqtt_helper_connect` returns 0 exactly if it sends a request. */
  lemma ConnectReturns(s: H.State, brokerErr: int, libraryErr: int)
    ensures ConnectResult(s, brokerErr, libraryErr) == 0
            <==> (s.Disconnected? || s.Connecting?) && brokerErr == 0 && libraryErr == 0
    ensures !s.Disconnected? && !s.Connecting? ==> ConnectResult(s, brokerErr, libraryErr) == -95
    ensures s.Disconnected? || s.Connecting? ==>
              ConnectResult(s, brokerErr, libraryErr) in {brokerErr, libraryErr}
  {
  }

  /** Connect work that finds an open session closes it, and the transport is told so exactly
      if the helper knows it closed; otherwise only the schedule changes. */
  lemma ConnectWorkTells(j: Joint, a: JointAction)
    requires a.ConnectWorks?
    ensures var k, f := JointStep(j, a), j.transport.fsm;
            k.transport == j.transport.(fsm := f.(
              connectPending := true, connectRunning := false,
              mqttEvent := if j.helper.Connected? && k.helper.Disconnected? then BrokerDisconnected
                           else f.mqttEvent))
  {
    var connect, disconnect := H.Connect(a.brokerErr, a.libraryErr), H.Disconnect(a.closed, a.disconnectErr);
    AfterOneOrTwo(j.helper, connect, disconnect);
    if j.helper.Connected? {
      assert Calls(j, a) == [connect, disconnect];
    }
    hide AfterAll, Calls;
  }

  /** A message that is handed over stays at the queue head, with the timer running, exactly if
      the helper is CONNECTED, the library takes it and its QoS asks for a PUBACK. */
  lemma HandOverKeeps(j: Joint, a: JointAction)
    requires a.MachineRuns? && TransportDelivery.ReadyToHand(j.transport.fsm)
    ensures var f, g := j.transport.fsm, JointStep(j, a).transport.fsm;
            && (g.timerRunning <==> j.helper.Connected? && a.publishErr == 0 && f.queue[0].message.qos > 0)
            && g.queue == if g.timerRunning then f.queue else f.queue[1..]
  {
    var t := TransportAction(j, a);
    TransportTransitions.FromPublishing(j.transport.fsm, t.disconnectPosts, t.publishOk);
    hide Run, Hands, Handled, AfterAll, Calls;
  }

  // Concrete runs.

  lemma Then(js: seq<Joint>, acts: seq<JointAction>, a: JointAction, next: Joint)
    returns (ks: seq<Joint>, bs: seq<JointAction>)
    requires IsJointRun(js, acts) && |js| == |acts| + 1 && Permitted(js[|acts|], a)
    requires next == JointStep(js[|acts|], a)
    ensures IsJointRun(ks, bs) && |ks| == |bs| + 1 && ks[|bs|] == next
  {
    hide JointStep, Permitted;
    ks, bs := js + [next], acts + [a];
    forall i | 0 <= i < |bs| ensures JointStepsAt(ks, bs, i) {
      assert i < |acts| ==> JointStepsAt(js, acts, i);
    }
  }

  const CONNECTING := START.transport.(fsm := TransportDelivery.CONNECTING)
  const WORKING := CONNECTING.(fsm := CONNECTING.fsm.(connectPending := false, connectRunning := true))
  const ATTEMPT := ConnectWorks(0, 0, false, 0)

  lemma Alone(j: Joint, action: Action)
    ensures JointStep(j, TransportOnly(action)) == j.(transport := Step(j.transport, action))
  {
    hide Step;
  }

  /** A run to the end of the second attempt's sleep, the first request being unanswered. */
  lemma SecondAttempt() returns (js: seq<Joint>, acts: seq<JointAction>)
    ensures IsJointRun(js, acts) && |js| == |acts| + 1
    ensures js[|acts|] == Joint(WORKING, H.Connecting)
  {
    hide IsJointRun;
    js, acts := [START], [];
    assert IsJointRun(js, acts) by { JustStarted(); }
    var posted := START.transport.(fsm := IDLE.(networkEvent := NetworkConnectedWithIp));
    Alone(START, PostNetworkEvent(NetworkConnectedWithIp));
    js, acts := Then(js, acts, TransportOnly(PostNetworkEvent(NetworkConnectedWithIp)),
                     Joint(posted, H.Disconnected));
    js, acts := Then(js, acts, MachineRuns(false, 0, 0), Joint(CONNECTING, H.Disconnected));
    Alone(Joint(CONNECTING, H.Disconnected), ConnectWorkBegins);
    js, acts := Then(js, acts, TransportOnly(ConnectWorkBegins), Joint(WORKING, H.Disconnected));
    AttemptSends(Joint(WORKING, H.Disconnected));
    js, acts := Then(js, acts, ATTEMPT, Joint(CONNECTING, H.Connecting));
    Alone(Joint(CONNECTING, H.Connecting), ConnectWorkBegins);
    js, acts := Then(js, acts, TransportOnly(ConnectWorkBegins), Joint(WORKING, H.Connecting));
  }

  lemma JustStarted()
    ensures IsJointRun([START], [])
  {
  }

  lemma AttemptSends(j: Joint)
    requires j == Joint(WORKING, H.Disconnected)
    ensures Permitted(j, ATTEMPT) && JointStep(j, ATTEMPT) == Joint(CONNECTING, H.Connecting)
  {
    AfterOneOrTwo(j.helper, H.Connect(0, 0), H.Init);
    hide AfterAll;
    assert Calls(j, ATTEMPT) == [H.Connect(0, 0)];
  }

  /** The transport does not keep to the table: the first request not being answered before
      the second attempt, the second one asks for an illegal state change. */
  lemma AttemptCanOvertake() returns (js: seq<Joint>, acts: seq<JointAction>)
    ensures IsJointRun(js, acts) && |js| == |acts| + 1
    ensures Permitted(js[|acts|], ATTEMPT) && LeavesTable(js[|acts|], ATTEMPT)
  {
    hide IsJointRun;
    js, acts := SecondAttempt();
  }

  /** A connection accepted during the second attempt's sleep is dropped by that attempt. */
  lemma SessionCanBeDropped() returns (js: seq<Joint>, acts: seq<JointAction>)
    ensures IsJointRun(js, acts) && |js| == |acts| + 1
    ensures js[|acts|].helper.Connected? && Permitted(js[|acts|], ATTEMPT)
    ensures JointStep(js[|acts|], ATTEMPT).helper.Disconnecting?
  {
    hide IsJointRun;
    js, acts := SecondAttempt();
    var open := Joint(WORKING.(fsm := WORKING.fsm.(mqttEvent := ConnectToBrokerSuccess)), H.Connected);
    AfterOneOrTwo(H.Connecting, H.Connack(true), H.Init);
    AfterOneOrTwo(H.Connected, H.Connect(0, 0), H.Disconnect(false, 0));
    hide AfterAll;
    js, acts := Then(js, acts, BrokerAnswers(true), open);
    assert Calls(open, ATTEMPT) == [H.Connect(0, 0), H.Disconnect(false, 0)];
  }
}
