/** The MQTT helper's connection state
    (cluster_head_multi_image_fota/src/transport/mqtt_helper_heliogen.c): which state changes
    its API and its event handler make, in which runs all of them are in its legal table, and
    when publishing reaches the library. */
module MqttHelper {

  datatype State =
    | Uninit
    | Disconnected
    | TransportConnecting
    | Connecting
    | TransportConnected
    | Connected
    | Disconnecting

  const EOPNOTSUPP := 95

  /** The legal state changes checked by `mqtt_state_set`. */
  predicate Legal(source: State, target: State) {
    match source
    case Uninit => target == Disconnected
    case Disconnected => target == Connecting || target == Uninit || target == TransportConnecting
    case TransportConnecting => target == TransportConnected || target == Disconnected
    case Connecting => target == Connected || target == Disconnected
    case TransportConnected => target == Connecting || target == Disconnected
    case Connected => target == Disconnecting || target == Disconnected
    case Disconnecting => target == Disconnected
  }

  datatype Change = Change(source: State, target: State)

  /** API calls with what the library answers, and library events. `brokerErr` stands for
      address resolution and certificates; `closed` says that the library reports the
      disconnection before `mqtt_disconnect` returns `libraryErr`. */
  datatype Operation =
    | Init
    | Connect(brokerErr: int, libraryErr: int)
    | Disconnect(closed: bool, libraryErr: int)
    | Subscribe(libraryErr: int)
    | Publish(libraryErr: int)
    | Deinit
    | Connack(accepted: bool)
    | ConnectionLost

  /** The call finds the helper in a state in which it is refused. Events never are. */
  predicate Refused(s: State, op: Operation) {
    match op
    case Init => !s.Uninit? && !s.Disconnected?
    case Connect(_, _) => !s.Disconnected? && !s.Connecting?
    case Disconnect(_, _) => !s.Connected?
    case Subscribe(_) => !s.Connected?
    case Publish(_) => !s.Connected?
    case Deinit => !s.Disconnected?
    case _ => false
  }

  /** The states an operation passes to `mqtt_state_set`, in order, unless it is refused. */
  function Requests(op: Operation): seq<State> {
    match op
    case Init => [Disconnected]
    case Connect(brokerErr, libraryErr) =>
      if brokerErr != 0 then [Disconnected]
      else if libraryErr != 0 then [TransportConnecting, Disconnected]
      else [TransportConnecting, TransportConnected, Connecting]
    case Disconnect(closed, libraryErr) =>
      [Disconnecting] + (if closed then [Disconnected] else [])
                      + (if libraryErr != 0 then [Disconnected] else [])
    case Deinit => [Uninit]
    case Connack(accepted) => [if accepted then Connected else Disconnected]
    case ConnectionLost => [Disconnected]
    case _ => []
  }

  /** The changes made by a sequence of requests: a request for the current state is skipped. */
  function Changes(s: State, requests: seq<State>): seq<Change>
    decreases |requests|
  {
    if requests == [] then []
    else (if s == requests[0] then [] else [Change(s, requests[0])])
         + Changes(requests[0], requests[1..])
  }

  ghost predicate AllLegal(changes: seq<Change>) {
    forall c :: c in changes ==> Legal(c.source, c.target)
  }

  /** The state after an operation, and the changes it makes. */
  function After(s: State, op: Operation): State {
    if Refused(s, op) || Requests(op) == [] then s else Requests(op)[|Requests(op)| - 1]
  }

  function ChangesOf(s: State, op: Operation): seq<Change> {
    if Refused(s, op) then [] else Changes(s, Requests(op))
  }

  /** The operations that leave the table: connecting again while CONNECTING, once the broker's
      address is resolved, and an accepted CONNACK outside CONNECTING and CONNECTED. */
  predicate Stray(s: State, op: Operation) {
    match op
    case Connect(brokerErr, _) => s.Connecting? && brokerErr == 0
    case Connack(accepted) => accepted && !s.Connecting? && !s.Connected?
    case _ => false
  }

  /** Every request is for the current state or a legal target. */
  predicate Admissible(s: State, requests: seq<State>)
    decreases |requests|
  {
    requests == []
    || ((s == requests[0] || Legal(s, requests[0])) && Admissible(requests[0], requests[1..]))
  }

  lemma AllLegalSplit(x: seq<Change>, y: seq<Change>)
    ensures AllLegal(x + y) <==> AllLegal(x) && AllLegal(y)
  {
    assert forall c :: c in x + y <==> c in x || c in y;
  }

  lemma {:induction false} AdmissibleIsLegal(s: State, requests: seq<State>)
    ensures AllLegal(Changes(s, requests)) <==> Admissible(s, requests)
    decreases |requests|
  {
    if requests != [] {
      var change := Change(s, requests[0]);
      AdmissibleIsLegal(requests[0], requests[1..]);
      AllLegalSplit(if s == requests[0] then [] else [change], Changes(requests[0], requests[1..]));
      assert AllLegal([change]) <==> Legal(s, requests[0]) by {
        assert change in [change];
      }
    }
  }

  lemma AdmissibleCons(s: State, a: State, rest: seq<State>)
    ensures Admissible(s, [a] + rest) <==> (s == a || Legal(s, a)) && Admissible(a, rest)
  {
    assert ([a] + rest)[1..] == rest;
  }

  lemma AdmissibleInDetail(s: State, a: State, b: State, c: State)
    ensures Admissible(s, [])
    ensures Admissible(s, [a]) <==> s == a || Legal(s, a)
    ensures Admissible(s, [a, b]) <==> (s == a || Legal(s, a)) && (a == b || Legal(a, b))
    ensures Admissible(s, [a, b, c]) <==>
              (s == a || Legal(s, a)) && (a == b || Legal(a, b)) && (b == c || Legal(b, c))
  {
    assert [a] + [] == [a] && [a] + [b] == [a, b] && [b] + [] == [b] && [c] + [] == [c];
    assert [a] + [b, c] == [a, b, c] && [b] + [c] == [b, c];
    AdmissibleCons(s, a, []);
    AdmissibleCons(s, a, [b]);
    AdmissibleCons(a, b, []);
    AdmissibleCons(s, a, [b, c]);
    AdmissibleCons(a, b, [c]);
    AdmissibleCons(b, c, []);
    assert Admissible(s, []) && Admissible(a, []) && Admissible(b, []) && Admissible(c, []);
    hide Legal, Admissible;
  }

  lemma ShortRequestIsLegal(s: State, op: Operation)
    requires |Requests(op)| <= 1
    ensures AllLegal(ChangesOf(s, op)) <==> !Stray(s, op)
  {
    assert AllLegal([]);
    hide AllLegal, Changes, Admissible;
    var r := Requests(op);
    AdmissibleIsLegal(s, r);
    if r == [] {
      AdmissibleInDetail(s, s, s, s);
    } else {
      assert r == [r[0]];
      AdmissibleInDetail(s, r[0], s, s);
    }
  }

  lemma LongRequestIsLegal(s: State, op: Operation)
    requires |Requests(op)| >= 2
    ensures AllLegal(ChangesOf(s, op)) <==> !Stray(s, op)
  {
    assert AllLegal([]);
    hide AllLegal, Changes, Admissible;
    var r := Requests(op);
    AdmissibleIsLegal(s, r);
    if |r| == 2 {
      assert r == [r[0], r[1]];
      AdmissibleInDetail(s, r[0], r[1], s);
    } else {
      assert r == [r[0], r[1], r[2]];
      AdmissibleInDetail(s, r[0], r[1], r[2]);
    }
  }

  /** An operation makes only legal changes if and only if it is not a stray one. */
  lemma OperationIsLegal(s: State, op: Operation)
    ensures AllLegal(ChangesOf(s, op)) <==> !Stray(s, op)
  {
    hide AllLegal, ChangesOf, Stray, Requests;
    if |Requests(op)| <= 1 {
      ShortRequestIsLegal(s, op);
    } else {
      LongRequestIsLegal(s, op);
    }
  }

  /** Where each call and each event leaves the helper. */
  lemma Outcomes(s: State, brokerErr: int, libraryErr: int, closed: bool, accepted: bool)
    ensures After(s, Init) == if s.Uninit? then Disconnected else s
    ensures After(s, Deinit) == if s.Disconnected? then Uninit else s
    ensures After(s, Connect(brokerErr, libraryErr))
            == if !s.Disconnected? && !s.Connecting? then s
               else if brokerErr == 0 && libraryErr == 0 then Connecting
               else Disconnected
    ensures After(s, Disconnect(closed, libraryErr))
            == if !s.Connected? then s
               else if closed || libraryErr != 0 then Disconnected
               else Disconnecting
    ensures After(s, Connack(accepted)) == if accepted then Connected else Disconnected
    ensures After(s, ConnectionLost) == Disconnected
    ensures After(s, Subscribe(libraryErr)) == s && After(s, Publish(libraryErr)) == s
  {
  }

  /** From initialisation to the end of a session, the helper passes through every state of its
      life in order. */
  lemma LifeCycle()
    ensures ChangesOf(Uninit, Init) == [Change(Uninit, Disconnected)]
    ensures ChangesOf(Disconnected, Connect(0, 0))
            == [Change(Disconnected, TransportConnecting),
                Change(TransportConnecting, TransportConnected),
                Change(TransportConnected, Connecting)]
    ensures ChangesOf(Connecting, Connack(true)) == [Change(Connecting, Connected)]
    ensures ChangesOf(Connected, Disconnect(true, 0))
            == [Change(Connected, Disconnecting), Change(Disconnecting, Disconnected)]
    ensures ChangesOf(Disconnected, Deinit) == [Change(Disconnected, Uninit)]
  {
    OneChange(Uninit, Disconnected);
    OneChange(Connecting, Connected);
    OneChange(Disconnected, Uninit);
    OneChange(Disconnected, TransportConnecting);
    OneChange(TransportConnecting, TransportConnected);
    OneChange(TransportConnected, Connecting);
    OneChange(Connected, Disconnecting);
    OneChange(Disconnecting, Disconnected);
    ChangesOfThree(Disconnected, TransportConnecting, TransportConnected, Connecting);
    ChangesOfTwo(Connected, Disconnecting, Disconnected);
    assert Requests(Disconnect(true, 0)) == [Disconnecting, Disconnected];
    hide Changes;
  }

  lemma OneChange(s: State, a: State)
    requires s != a
    ensures Changes(s, [a]) == [Change(s, a)]
  {
    assert [a][1..] == [] && Changes(a, []) == [];
  }

  // Whole runs.

  /** The state after the first `n` operations of a run. */
  function StateAfter(ops: seq<Operation>, n: nat): State
    requires n <= |ops|
  {
    if n == 0 then Uninit else After(StateAfter(ops, n - 1), ops[n - 1])
  }

  /** All state changes made in the first `n` operations. */
  function History(ops: seq<Operation>, n: nat): seq<Change>
    requires n <= |ops|
  {
    if n == 0 then [] else History(ops, n - 1) + ChangesOf(StateAfter(ops, n - 1), ops[n - 1])
  }

  predicate StrayAt(ops: seq<Operation>, i: nat)
    requires i < |ops|
  {
    Stray(StateAfter(ops, i), ops[i])
  }

  /** A run makes only legal state changes if and only if none of its operations is stray. */
  lemma {:induction false} RunIsLegal(ops: seq<Operation>, n: nat)
    requires n <= |ops|
    ensures AllLegal(History(ops, n)) <==>
            forall i :: 0 <= i < n ==> !StrayAt(ops, i)
  {
    hide Stray, ChangesOf, After;
    if n == 0 {
      assert History(ops, 0) == [];
    } else {
      assert StrayAt(ops, n - 1) <==> Stray(StateAfter(ops, n - 1), ops[n - 1]);
      RunIsLegal(ops, n - 1);
      OperationIsLegal(StateAfter(ops, n - 1), ops[n - 1]);
      AllLegalSplit(History(ops, n - 1), ChangesOf(StateAfter(ops, n - 1), ops[n - 1]));
      hide AllLegal, StateAfter;
    }
  }

  predicate DisciplinedAt(ops: seq<Operation>, i: nat)
    requires i < |ops|
  {
    && (ops[i].Connect? ==> !StateAfter(ops, i).Connecting?)
    && (ops[i].Connack? ==> StateAfter(ops, i).Connecting?)
  }

  /** Used as intended: connecting only while disconnected, and CONNACK only while connecting. */
  ghost predicate Disciplined(ops: seq<Operation>, n: nat)
    requires n <= |ops|
  {
    forall i :: 0 <= i < n ==> DisciplinedAt(ops, i)
  }

  lemma DisciplinedRunIsLegal(ops: seq<Operation>, n: nat)
    requires n <= |ops| && Disciplined(ops, n)
    ensures AllLegal(History(ops, n))
  {
    hide AllLegal, History, StateAfter;
    RunIsLegal(ops, n);
    forall i | 0 <= i < n ensures !StrayAt(ops, i) {
      assert DisciplinedAt(ops, i);
    }
  }

  /** Whatever the run, between operations the helper never rests in the two transport
      states. */
  lemma {:induction false} NeverRestsInTransport(ops: seq<Operation>, n: nat)
    requires n <= |ops|
    ensures !StateAfter(ops, n).TransportConnecting? && !StateAfter(ops, n).TransportConnected?
  {
    if n > 0 {
      NeverRestsInTransport(ops, n - 1);
    }
  }

  /** The operation sends a connection request, if it is not refused. */
  predicate Requested(op: Operation) {
    op.Connect? && op.brokerErr == 0 && op.libraryErr == 0
  }

  /** The operation ends a session or an attempt to open one. */
  predicate Ends(s: State, op: Operation) {
    || op.ConnectionLost? || (op.Connack? && !op.accepted)
    || (op.Disconnect? && !Refused(s, op))
    || (op.Connect? && !Refused(s, op) && !Requested(op))
  }

  lemma ConnectingOnlyAfterRequest(s: State, op: Operation)
    requires After(s, op).Connecting?
    ensures (!Refused(s, op) && Requested(op)) || (s.Connecting? && !Ends(s, op))
  {
  }

  lemma ConnectedOnlyAfterConnack(s: State, op: Operation)
    requires After(s, op).Connected? && !Stray(s, op)
    ensures (op.Connack? && op.accepted && (s.Connecting? || s.Connected?)) || s.Connected?
    ensures s.Connected? ==> !Ends(s, op)
  {
  }

  /** The last connection request is in flight: nothing ended it since. */
  lemma {:induction false} ConnectingMeansRequested(ops: seq<Operation>, n: nat) returns (c: nat)
    requires n <= |ops| && StateAfter(ops, n).Connecting?
    ensures c < n && Requested(ops[c]) && !Refused(StateAfter(ops, c), ops[c])
    ensures forall j :: c < j < n ==> !Ends(StateAfter(ops, j), ops[j])
  {
    hide After, Ends, Requested, Refused;
    ConnectingOnlyAfterRequest(StateAfter(ops, n - 1), ops[n - 1]);
    if !Refused(StateAfter(ops, n - 1), ops[n - 1]) && Requested(ops[n - 1]) {
      c := n - 1;
    } else {
      c := ConnectingMeansRequested(ops, n - 1);
    }
  }

  /** Publishing and subscribing reach the library only in a session that was opened by the
      book: in a legal run, a call that is not refused comes after a connection request and
      an accepted CONNACK for it, with nothing in between that ends either. */
  lemma {:induction false} PublishesWithinSession(ops: seq<Operation>, n: nat) returns (c: nat, k: nat)
    requires n < |ops| && AllLegal(History(ops, n))
    requires (ops[n].Publish? || ops[n].Subscribe?) && !Refused(StateAfter(ops, n), ops[n])
    ensures c < k < n && Requested(ops[c]) && !Refused(StateAfter(ops, c), ops[c])
    ensures ops[k] == Connack(true)
    ensures forall j :: c < j < n ==> !Ends(StateAfter(ops, j), ops[j])
  {
    RunIsLegal(ops, n);
    hide History, AllLegal, Stray;
    c, k := ConnectedMeansSession(ops, n);
  }

  lemma {:induction false} ConnectedMeansSession(ops: seq<Operation>, n: nat) returns (c: nat, k: nat)
    requires n <= |ops| && StateAfter(ops, n).Connected?
    requires forall i :: 0 <= i < n ==> !StrayAt(ops, i)
    ensures c < k < n && Requested(ops[c]) && !Refused(StateAfter(ops, c), ops[c])
    ensures ops[k] == Connack(true)
    ensures forall j :: c < j < n ==> !Ends(StateAfter(ops, j), ops[j])
  {
    hide After, Stray, Requested, Refused;
    assert !StrayAt(ops, n - 1);
    ConnectedOnlyAfterConnack(StateAfter(ops, n - 1), ops[n - 1]);
    if StateAfter(ops, n - 1).Connected? {
      c, k := ConnectedMeansSession(ops, n - 1);
    } else {
      c := ConnectingMeansRequested(ops, n - 1);
      k := n - 1;
    }
  }

  lemma ChangesSplit(s: State, a: State, rest: seq<State>)
    ensures Changes(s, [a] + rest) == Changes(s, [a]) + Changes(a, rest)
  {
    assert ([a] + rest)[1..] == rest && [a][1..] == [];
  }

  lemma ChangesOfTwo(s: State, a: State, b: State)
    ensures Changes(s, [a, b]) == Changes(s, [a]) + Changes(a, [b])
  {
    hide Changes;
    assert [a] + [b] == [a, b];
    ChangesSplit(s, a, [b]);
  }

  lemma ChangesOfThree(s: State, a: State, b: State, c: State)
    ensures Changes(s, [a, b, c]) == Changes(s, [a]) + Changes(a, [b]) + Changes(b, [c])
  {
    hide Changes;
    assert [a] + [b, c] == [a, b, c];
    ChangesSplit(s, a, [b, c]);
    ChangesOfTwo(a, b, c);
    var x, y, z := Changes(s, [a]), Changes(a, [b]), Changes(b, [c]);
    assert x + (y + z) == x + y + z;
  }

  /** A second request for DISCONNECTED is skipped. */
  lemma ChangesOfDisconnect(closed: bool, libraryErr: int)
    ensures ChangesOf(Connected, Operation.Disconnect(closed, libraryErr))
            == Changes(Connected, [Disconnecting])
               + (if closed || libraryErr != 0 then Changes(Disconnecting, [Disconnected]) else [])
    ensures Changes(Disconnected, [Disconnected]) == []
  {
    assert [Disconnected][1..] == [] && Changes(Disconnected, []) == [];
    hide Changes;
    var r := Requests(Operation.Disconnect(closed, libraryErr));
    if closed && libraryErr != 0 {
      assert r == [Disconnecting, Disconnected, Disconnected];
      ChangesOfThree(Connected, Disconnecting, Disconnected, Disconnected);
    } else if closed || libraryErr != 0 {
      assert r == [Disconnecting, Disconnected];
      ChangesOfTwo(Connected, Disconnecting, Disconnected);
    } else {
      assert r == [Disconnecting];
    }
  }

  // The program.

  datatype LibraryCall = MqttConnect | MqttDisconnect | MqttSubscribe | MqttPublish

  class MqttHelper {
    var state: State
    ghost var changes: seq<Change>
    ghost var calls: seq<LibraryCall>

    constructor ()
      ensures state == Uninit && changes == [] && calls == []
    {
      state, changes, calls := Uninit, [], [];
    }

    /** `mqtt_state_set`. `legal` is the condition under which it raises no error. */
    method StateSet(newState: State) returns (legal: bool)
      modifies this`state, this`changes
      ensures state == newState
      ensures changes == old(changes) + Changes(old(state), [newState])
      ensures legal <==> AllLegal(Changes(old(state), [newState]))
    {
      assert Changes(newState, [newState][1..]) == [];
      if state == newState {
        return true;
      }
      var change := Change(state, newState);
      assert Changes(state, [newState]) == [change] && change in [change];
      legal := match state
        case Uninit => !(newState != Disconnected)
        case Disconnected =>
          !(newState != Connecting && newState != Uninit && newState != TransportConnecting)
        case TransportConnecting => !(newState != TransportConnected && newState != Disconnected)
        case Connecting => !(newState != Connected && newState != Disconnected)
        case TransportConnected => !(newState != Connecting && newState != Disconnected)
        case Connected => !(newState != Disconnecting && newState != Disconnected)
        case Disconnecting => !(newState != Disconnected);
      changes := changes + [change];
      state := newState;
    }

    /** The state changes of `mqtt_evt_handler`; the other events make none. */
    method EvtHandler(event: Operation)
      requires event.Connack? || event.ConnectionLost?
      modifies this`state, this`changes
      ensures state == After(old(state), event)
      ensures changes == old(changes) + ChangesOf(old(state), event)
    {
      hide Changes, AllLegal;
      if event.Connack? && event.accepted {
        var _ := StateSet(Connected);
      } else {
        var _ := StateSet(Disconnected);
      }
    }

    method Init() returns (err: int)
      modifies this`state, this`changes
      ensures state == After(old(state), Operation.Init)
      ensures changes == old(changes) + ChangesOf(old(state), Operation.Init)
      ensures err == if Refused(old(state), Operation.Init) then -EOPNOTSUPP else 0
    {
      hide Changes, AllLegal;
      if state != Uninit && state != Disconnected {
        return -EOPNOTSUPP;
      }
      var _ := StateSet(Disconnected);
      return 0;
    }

    /** `client_connect`: on failure the state is left as far as it got. */
    method ClientConnect(brokerErr: int, libraryErr: int) returns (err: int)
      modifies this
      ensures err == if brokerErr != 0 then brokerErr else libraryErr
      ensures brokerErr != 0 ==> state == old(state) && changes == old(changes) && calls == old(calls)
      ensures brokerErr == 0 ==>
                && calls == old(calls) + [MqttConnect]
                && state == (if libraryErr != 0 then TransportConnecting else Connecting)
                && changes == old(changes) + Changes(old(state),
                     if libraryErr != 0 then [TransportConnecting]
                     else [TransportConnecting, TransportConnected, Connecting])
    {
      hide Changes, AllLegal;
      if brokerErr != 0 {
        return brokerErr;
      }
      ChangesOfThree(state, TransportConnecting, TransportConnected, Connecting);
      var _ := StateSet(TransportConnecting);
      calls := calls + [MqttConnect];
      if libraryErr != 0 {
        return libraryErr;
      }
      var _ := StateSet(TransportConnected);
      var _ := StateSet(Connecting);
      return 0;
    }

    method Connect(brokerErr: int, libraryErr: int) returns (err: int)
      modifies this
      ensures var op := Operation.Connect(brokerErr, libraryErr);
              && state == After(old(state), op)
              && changes == old(changes) + ChangesOf(old(state), op)
              && err == (if Refused(old(state), op) then -EOPNOTSUPP
                         else if brokerErr != 0 then brokerErr else libraryErr)
              && calls == old(calls) + (if Refused(old(state), op) || brokerErr != 0 then []
                                        else [MqttConnect])
    {
      hide Changes, AllLegal;
      if state != Disconnected && state != Connecting {
        return -EOPNOTSUPP;
      }
      err := ClientConnect(brokerErr, libraryErr);
      if err != 0 {
        ChangesOfTwo(old(state), TransportConnecting, Disconnected);
        var _ := StateSet(Disconnected);
      }
    }

    method Disconnect(closed: bool, libraryErr: int) returns (err: int)
      modifies this
      ensures var op := Operation.Disconnect(closed, libraryErr);
              && state == After(old(state), op)
              && changes == old(changes) + ChangesOf(old(state), op)
              && err == (if Refused(old(state), op) then -EOPNOTSUPP else libraryErr)
              && calls == old(calls) + (if Refused(old(state), op) then [] else [MqttDisconnect])
    {
      hide Changes, AllLegal;
      if state != Connected {
        return -EOPNOTSUPP;
      }
      var _ := StateSet(Disconnecting);
      calls := calls + [MqttDisconnect];
      if closed {
        EvtHandler(ConnectionLost);
      }
      if libraryErr != 0 {
        var _ := StateSet(Disconnected);
      }
      ChangesOfDisconnect(closed, libraryErr);
      return libraryErr;
    }

    method Subscribe(libraryErr: int) returns (err: int)
      modifies this`calls
      ensures var op := Operation.Subscribe(libraryErr);
              && err == (if Refused(state, op) then -EOPNOTSUPP else libraryErr)
              && calls == old(calls) + (if Refused(state, op) then [] else [MqttSubscribe])
    {
      if state != Connected {
        return -EOPNOTSUPP;
      }
      calls := calls + [MqttSubscribe];
      return libraryErr;
    }

    method Publish(libraryErr: int) returns (err: int)
      modifies this`calls
      ensures var op := Operation.Publish(libraryErr);
              && err == (if Refused(state, op) then -EOPNOTSUPP else libraryErr)
              && calls == old(calls) + (if Refused(state, op) then [] else [MqttPublish])
    {
      if state != Connected {
        return -EOPNOTSUPP;
      }
      calls := calls + [MqttPublish];
      return libraryErr;
    }

    method Deinit() returns (err: int)
      modifies this`state, this`changes
      ensures state == After(old(state), Operation.Deinit)
      ensures changes == old(changes) + ChangesOf(old(state), Operation.Deinit)
      ensures err == if Refused(old(state), Operation.Deinit) then -EOPNOTSUPP else 0
    {
      hide Changes, AllLegal;
      if state != Disconnected {
        return -EOPNOTSUPP;
      }
      var _ := StateSet(Uninit);
      return 0;
    }
  }
}
