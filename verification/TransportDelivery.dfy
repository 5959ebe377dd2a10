/** At-most-once, in-order hand-over of accepted messages, what a running timer stands for, and
    where the connect work may be pending: each with the exact interleavings that break it. */
module TransportDelivery {
  import opened TransportFsm
  import opened TransportProtocol

  ghost predicate Ordered(es: seq<Entry>) {
    forall i, j :: 0 <= i < j < |es| ==> es[i].id < es[j].id
  }

  /** Every entry is an accepted message under its own rank. */
  ghost predicate Genuine(es: seq<Entry>, accepted: seq<Message>) {
    forall e :: e in es ==> e.id < |accepted| && accepted[e.id] == e.message
  }

  /** The head of the queue has already been handed over. */
  ghost predicate HeadHanded(queue: seq<Entry>, handed: seq<Entry>) {
    queue != [] && handed != [] && queue[0] == handed[|handed| - 1]
  }

  /** Nothing queued precedes the message handed over last. */
  ghost predicate Behind(queue: seq<Entry>, handed: seq<Entry>) {
    handed == [] || forall e :: e in queue ==> handed[|handed| - 1].id <= e.id
  }

  ghost predicate InOrder(queue: seq<Entry>, handed: seq<Entry>, accepted: seq<Message>) {
    && Ordered(queue) && Behind(queue, handed)
    && Genuine(queue, accepted) && Genuine(handed, accepted)
  }

  /** A handed-over head is protected from a second hand-over by the running timer, by the
      PUBACK that is about to remove it, or by the disconnection, after which only CONNECTING
      follows, which clears the queue. */
  ghost predicate Protected(f: Fsm, handed: seq<Entry>) {
    HeadHanded(f.queue, handed) ==>
      f.timerRunning || f.ackBetween || f.state.NetworkDisconnected?
  }

  ghost predicate Tracked(s: System) {
    Shaped(s.fsm) && InOrder(s.fsm.queue, s.handed, s.accepted) && Protected(s.fsm, s.handed)
  }

  // The queue operations.

  lemma AppendInOrder(queue: seq<Entry>, handed: seq<Entry>, accepted: seq<Message>, m: Message)
    requires InOrder(queue, handed, accepted)
    ensures InOrder(queue + [Entry(|accepted|, m)], handed, accepted + [m])
    ensures HeadHanded(queue + [Entry(|accepted|, m)], handed) == HeadHanded(queue, handed)
  {
    assert handed != [] ==> handed[|handed| - 1] in handed;
  }

  lemma RemoveInOrder(queue: seq<Entry>, handed: seq<Entry>, accepted: seq<Message>)
    requires InOrder(queue, handed, accepted) && queue != []
    ensures InOrder(queue[1..], handed, accepted) && !HeadHanded(queue[1..], handed)
  {
    assert queue[0] in queue;
    if |queue| > 1 {
      assert queue[0].id < queue[1].id;
    }
  }

  lemma HandInOrder(queue: seq<Entry>, handed: seq<Entry>, accepted: seq<Message>)
    requires InOrder(queue, handed, accepted) && queue != []
    ensures InOrder(queue, handed + [queue[0]], accepted)
    ensures HeadHanded(queue, handed + [queue[0]])
    ensures Ordered(handed + [queue[0]]) <==> Ordered(handed) && !HeadHanded(queue, handed)
  {
    var h := handed + [queue[0]];
    if handed != [] {
      var last := handed[|handed| - 1];
      assert last in handed && queue[0] in queue;
      assert h[|handed| - 1] == last && h[|handed|] == queue[0];
      if Ordered(h) {
        assert forall i :: 0 <= i < |handed| ==> h[i] == handed[i];
      }
    }
  }

  predicate BeforePublishing(f: Fsm) {
    f.state.ConnectingToBroker? || f.state.ConnectedSubscribing?
  }

  /** What a run handler may do to the queue and to the protection of its head. */
  ghost predicate QueueKeptOrCleared(f: Fsm, g: Fsm) {
    && g.ackBetween == f.ackBetween
    && ((g.queue == [] && !g.timerRunning)
        || (g.queue == f.queue && !g.timerRunning && g.state.NetworkDisconnected?)
        || (g.queue == f.queue && g.timerRunning == f.timerRunning
            && (g.state == f.state || BeforePublishing(f))))
  }

  lemma ChangeStateKeepsOrClears(f: Fsm, state: State)
    requires state.NetworkDisconnected? || state.ConnectingToBroker? || BeforePublishing(f)
    requires f.timerRunning ==> f.state.ConnectedPublishing?
    ensures QueueKeptOrCleared(f, ChangeState(f, state))
  {
  }

  /** The mailboxes do not matter. */
  lemma MailboxesAside(f: Fsm, h: Fsm, g: Fsm)
    requires h == f.(mqttEvent := h.mqttEvent) && QueueKeptOrCleared(h, g)
    ensures QueueKeptOrCleared(f, g.(networkEvent := NetworkNoEvent))
  {
  }

  lemma NetworkStageKeepsOrClears(f: Fsm, disconnectPosts: bool)
    requires Shaped(f)
    ensures QueueKeptOrCleared(f, NetworkStage(f, disconnectPosts))
  {
    hide ChangeState;
    var g, h := OnNetworkEvent(f, disconnectPosts), f.(mqttEvent := BrokerNoEvent);
    if g == f {
      MailboxesAside(f, f, f);
    } else {
      var source := if f.state.NetworkDisconnected? then f
                    else if f.networkEvent.NetworkLost? && !f.state.ConnectingToBroker?
                    then HelperDisconnect(h, disconnectPosts)
                    else h;
      var state := if f.networkEvent.NetworkLost? then NetworkDisconnected else ConnectingToBroker;
      assert g == ChangeState(source, state) || g == f;
      hide OnNetworkEvent, QueueKeptOrCleared;
      ChangeStateKeepsOrClears(source, state);
      MailboxesAside(f, source, ChangeState(source, state));
    }
  }

  lemma BrokerStageKeepsOrClears(origin: State, f: Fsm)
    requires Shaped(f) && (f.state == origin || f.mqttEvent == BrokerNoEvent)
    ensures QueueKeptOrCleared(f, BrokerStage(origin, f))
  {
    hide ChangeState;
    if f.mqttEvent == BrokerNoEvent {
      BrokerStageIdle(origin, f);
    } else {
      ChangeStateKeepsOrClears(f, ConnectingToBroker);
      if origin.ConnectingToBroker? {
        ChangeStateKeepsOrClears(f.(connectPending := false), ConnectedSubscribing);
      } else if origin.ConnectedSubscribing? {
        ChangeStateKeepsOrClears(f, ConnectedPublishing);
      }
    }
  }

  lemma KeptOrClearedTwice(f: Fsm, g: Fsm, h: Fsm)
    requires QueueKeptOrCleared(f, g) && QueueKeptOrCleared(g, h)
    ensures QueueKeptOrCleared(f, h)
  {
  }

  lemma HandledKeepsOrClears(f: Fsm, disconnectPosts: bool)
    requires Shaped(f)
    ensures QueueKeptOrCleared(f, Handled(f, disconnectPosts))
  {
    hide NetworkStage, BrokerStage, Shaped, QueueKeptOrCleared;
    var h := NetworkStage(f, disconnectPosts);
    NetworkStageKeepsShape(f, disconnectPosts);
    NetworkStageKeepsOrClears(f, disconnectPosts);
    if f.state.NetworkDisconnected? {
      DisconnectedIgnoresBroker(h);
    } else {
      BrokerStageKeepsOrClears(f.state, h);
      KeptOrClearedTwice(f, h, BrokerStage(f.state, h));
    }
  }

  lemma HandledKeepsTracked(s: System, disconnectPosts: bool)
    requires Tracked(s)
    ensures Tracked(s.(fsm := Handled(s.fsm, disconnectPosts)))
  {
    hide Handled, Shaped;
    HandledKeepsShape(s.fsm, disconnectPosts);
    HandledKeepsOrClears(s.fsm, disconnectPosts);
  }

  lemma HandKeepsTracked(s: System, publishOk: bool)
    requires Tracked(s) && s.fsm.state.ConnectedPublishing? && s.fsm.queue != []
    ensures Tracked(s.(fsm := Serviced(s.fsm, publishOk), handed := s.handed + [s.fsm.queue[0]]))
  {
    hide InOrder;
    HandInOrder(s.fsm.queue, s.handed, s.accepted);
    RemoveInOrder(s.fsm.queue, s.handed + [s.fsm.queue[0]], s.accepted);
  }

  lemma RunKeepsTracked(s: System, disconnectPosts: bool, publishOk: bool)
    requires Tracked(s)
    ensures Tracked(RunStep(s, disconnectPosts, publishOk))
  {
    hide Tracked, Handled, Serviced;
    HandledKeepsTracked(s, disconnectPosts);
    if Hands(s.fsm, disconnectPosts) {
      ServicedWhilePublishing(s.fsm, disconnectPosts);
      HandKeepsTracked(s.(fsm := Handled(s.fsm, disconnectPosts)), publishOk);
    }
  }

  lemma ReactedKeepsTracked(s: System, a: Action)
    requires Tracked(s) && Enabled(s, a) && !a.FsmRun? && !a.PublishEnqueues?
    ensures Tracked(Step(s, a))
  {
    hide InOrder;
    if s.fsm.queue != [] {
      RemoveInOrder(s.fsm.queue, s.handed, s.accepted);
    }
  }

  lemma PublishKeepsTracked(s: System, a: Action)
    requires Tracked(s) && a.PublishEnqueues?
    ensures Tracked(Step(s, a))
  {
    hide InOrder;
    AppendInOrder(s.fsm.queue, s.handed, s.accepted, a.message);
  }

  lemma {:induction false} RunIsTracked(ss: seq<System>, acts: seq<Action>, i: nat)
    requires IsRun(ss, acts) && i < |ss|
    ensures Tracked(ss[i])
  {
    hide Enabled, Hands, RunStep, Accepts, Reacted;
    if i > 0 {
      RunIsTracked(ss, acts, i - 1);
      RunAt(ss, acts, i);
      var s, a := ss[i - 1], acts[i - 1];
      hide Tracked;
      if a.FsmRun? {
        RunKeepsTracked(s, a.disconnectPosts, a.publishOk);
      } else if a.PublishEnqueues? {
        PublishKeepsTracked(s, a);
      } else {
        ReactedKeepsTracked(s, a);
      }
    }
  }

  // At most once.

  /** No pending event makes a publishing machine change state. */
  predicate StaysPublishing(f: Fsm) {
    !f.networkEvent.NetworkLost? && (f.mqttEvent.BrokerNoEvent? || f.mqttEvent.SubscribeAck?)
  }

  /** A machine run from here will hand the head of the queue over: it is publishing, no
      pending event makes it change state, there is a message and no timer runs. */
  predicate ReadyToHand(f: Fsm) {
    && f.state.ConnectedPublishing? && StaysPublishing(f)
    && f.queue != [] && !f.timerRunning
  }

  lemma HandsWhenReady(f: Fsm, disconnectPosts: bool)
    ensures Hands(f, disconnectPosts) <==> ReadyToHand(f)
  {
    hide ChangeState;
    ChangeStateCounts(f, ConnectingToBroker);
    ChangeStateCounts(f.(networkEvent := NetworkNoEvent), ConnectingToBroker);
    if f.networkEvent.NetworkLost? {
      NetworkLossWins(f, disconnectPosts, true);
    }
  }

  /** A run hands a message over while a PUBACK callback has stopped the timer and not yet
      removed that message, sent before, from the head of the queue. */
  ghost predicate Resends(s: System, a: Action) {
    && a.FsmRun? && ReadyToHand(s.fsm)
    && s.fsm.ackBetween && HeadHanded(s.fsm.queue, s.handed)
  }

  /** The message a run hands over was at the head of the queue before the run, and no timer
      was running. */
  lemma HandsTheHead(s: System, disconnectPosts: bool)
    requires Tracked(s) && Hands(s.fsm, disconnectPosts)
    ensures Handled(s.fsm, disconnectPosts).queue == s.fsm.queue
    ensures s.fsm.state.ConnectedPublishing? && !s.fsm.timerRunning
  {
    hide Handled;
    HandledKeepsOrClears(s.fsm, disconnectPosts);
    ServicedWhilePublishing(s.fsm, disconnectPosts);
  }

  lemma StepKeepsHandedOrder(s: System, a: Action)
    requires Tracked(s)
    ensures Ordered(Step(s, a).handed) <==> Ordered(s.handed) && !Resends(s, a)
  {
    hide Handled, Ordered, InOrder, Hands, ReadyToHand, Reacted, Shaped;
    if a.FsmRun? {
      HandsWhenReady(s.fsm, a.disconnectPosts);
    }
    if a.FsmRun? && Hands(s.fsm, a.disconnectPosts) {
      HandsTheHead(s, a.disconnectPosts);
      HandNeedsQueue(s, a.disconnectPosts);
      HandInOrder(s.fsm.queue, s.handed, s.accepted);
    }
  }

  lemma HandNeedsQueue(s: System, disconnectPosts: bool)
    requires Hands(s.fsm, disconnectPosts)
    ensures Handled(s.fsm, disconnectPosts).queue != []
  {
    hide Handled;
  }

  /** At most once and in order: the messages handed to `mqtt_helper_publish` are always
      accepted messages, and in every run each is handed over at most once and in the order
      of acceptance, if and only if no run of the machine resends. */
  lemma {:induction false} AtMostOnceInOrder(ss: seq<System>, acts: seq<Action>, n: nat)
    requires IsRun(ss, acts) && n < |ss|
    ensures Genuine(ss[n].handed, ss[n].accepted)
    ensures Ordered(ss[n].handed) <==> forall i :: 0 <= i < n ==> !Resends(ss[i], acts[i])
  {
    hide Enabled, Step;
    RunIsTracked(ss, acts, n);
    if n > 0 {
      AtMostOnceInOrder(ss, acts, n - 1);
      RunIsTracked(ss, acts, n - 1);
      RunAt(ss, acts, n);
      hide Tracked, Resends, Ordered;
      StepKeepsHandedOrder(ss[n - 1], acts[n - 1]);
    }
  }

  /** The timer stands for the message handed over last, at the head of the queue. */
  ghost predicate TimerMeansSent(s: System) {
    s.fsm.timerRunning ==> HeadHanded(s.fsm.queue, s.handed)
  }

  /** A PUBACK callback removes the head after a timer was started again. */
  predicate RemovesUnderTimer(s: System, a: Action) {
    a.AckRemovesHead? && s.fsm.timerRunning
  }

  lemma RunStepKeepsTimerMeaning(s: System, disconnectPosts: bool, publishOk: bool)
    requires Tracked(s) && TimerMeansSent(s)
    ensures TimerMeansSent(RunStep(s, disconnectPosts, publishOk))
  {
    hide Handled, InOrder, Shaped;
    HandledKeepsOrClears(s.fsm, disconnectPosts);
    if Hands(s.fsm, disconnectPosts) {
      HandsTheHead(s, disconnectPosts);
      var h := s.handed + [s.fsm.queue[0]];
      assert h[|h| - 1] == s.fsm.queue[0];
    }
  }

  lemma StepKeepsTimerMeaning(s: System, a: Action)
    requires Tracked(s) && Enabled(s, a) && TimerMeansSent(s)
    ensures TimerMeansSent(Step(s, a)) <==> !RemovesUnderTimer(s, a)
  {
    hide RunStep, InOrder, Shaped;
    if a.FsmRun? {
      RunStepKeepsTimerMeaning(s, a.disconnectPosts, a.publishOk);
    } else if a.AckRemovesHead? && s.fsm.queue != [] {
      RemoveInOrder(s.fsm.queue, s.handed, s.accepted);
    }
  }

  lemma TimerInitially(s: System)
    requires s == INITIAL
    ensures TimerMeansSent(s)
  {
  }

  /** In every run, a running timer means that the machine is publishing; and throughout the
      run it means that the message handed over last is still at the head of the queue, if
      and only if no PUBACK callback removes a head while the timer runs. */
  lemma {:induction false} TimerGuardsSentMessage(ss: seq<System>, acts: seq<Action>, n: nat)
    requires IsRun(ss, acts) && n < |ss|
    ensures ss[n].fsm.timerRunning ==> ss[n].fsm.state.ConnectedPublishing?
    ensures (forall i :: 0 <= i <= n ==> TimerMeansSent(ss[i]))
            <==> (forall i :: 0 <= i < n ==> !RemovesUnderTimer(ss[i], acts[i]))
  {
    hide Enabled, Step, TimerMeansSent, RemovesUnderTimer;
    RunIsShaped(ss, acts, n);
    if n == 0 {
      TimerInitially(ss[0]);
    } else {
      TimerGuardsSentMessage(ss, acts, n - 1);
      RunIsTracked(ss, acts, n - 1);
      RunAt(ss, acts, n);
      hide Tracked, Shaped;
      if TimerMeansSent(ss[n - 1]) {
        StepKeepsTimerMeaning(ss[n - 1], acts[n - 1]);
      }
    }
  }

  /** No other step comes between the two halves of a PUBACK callback. */
  ghost predicate AcksAreAtomic(acts: seq<Action>) {
    forall i :: 0 <= i < |acts| - 1 && acts[i].AckStopsTimer? ==> acts[i + 1].AckRemovesHead?
  }

  lemma StepKeepsAckBetween(s: System, a: Action)
    requires Tracked(s)
    ensures Step(s, a).fsm.ackBetween
            <==> a.AckStopsTimer? || (s.fsm.ackBetween && !a.AckRemovesHead?)
  {
    hide Handled, InOrder, Shaped;
    if a.FsmRun? {
      HandledKeepsOrClears(s.fsm, a.disconnectPosts);
    }
  }

  lemma {:induction false} AckBetweenOnlyAfterStop(ss: seq<System>, acts: seq<Action>, n: nat)
    requires IsRun(ss, acts) && AcksAreAtomic(acts) && 0 < n < |ss|
    ensures ss[n].fsm.ackBetween <==> acts[n - 1].AckStopsTimer?
  {
    hide Enabled, Step;
    RunIsTracked(ss, acts, n - 1);
    RunAt(ss, acts, n);
    hide Tracked;
    StepKeepsAckBetween(ss[n - 1], acts[n - 1]);
    if n > 1 {
      AckBetweenOnlyAfterStop(ss, acts, n - 1);
      assert acts[n - 2].AckStopsTimer? ==> acts[n - 1].AckRemovesHead?;
    }
  }

  /** Where PUBACK callbacks are never preempted, late and duplicate PUBACKs included, every
      message is handed over at most once and in order, and the timer always stands for the
      message handed over last. */
  lemma AtomicAcksDeliver(ss: seq<System>, acts: seq<Action>, n: nat)
    requires IsRun(ss, acts) && AcksAreAtomic(acts) && n < |ss|
    ensures Ordered(ss[n].handed) && TimerMeansSent(ss[n])
  {
    hide Enabled, Step, Ordered, TimerMeansSent, HeadHanded, ReadyToHand, Tracked;
    forall i | 0 <= i < n ensures !Resends(ss[i], acts[i]) && !RemovesUnderTimer(ss[i], acts[i]) {
      QuietBetweenAckHalves(ss, acts, i);
    }
    AtMostOnceInOrder(ss, acts, n);
    TimerGuardsSentMessage(ss, acts, n);
  }

  lemma QuietBetweenAckHalves(ss: seq<System>, acts: seq<Action>, i: nat)
    requires IsRun(ss, acts) && AcksAreAtomic(acts) && i < |acts|
    ensures !Resends(ss[i], acts[i]) && !RemovesUnderTimer(ss[i], acts[i])
  {
    hide Step, HeadHanded, ReadyToHand;
    var a := acts[i];
    assert StepsAt(ss, acts, i);
    if i > 0 && ss[i].fsm.ackBetween {
      AckBetweenOnlyAfterStop(ss, acts, i);
      assert acts[i - 1].AckStopsTimer? ==> a.AckRemovesHead?;
      RunAt(ss, acts, i);
      StopStopsTimer(ss[i - 1], acts[i - 1]);
    }
  }

  lemma StopStopsTimer(s: System, a: Action)
    requires a.AckStopsTimer?
    ensures !Step(s, a).fsm.timerRunning
  {
  }

  // Connect work.

  /** A machine run comes while the connect work function is at work, and either the network
      was lost or, with no network event pending, the broker has accepted the connection. */
  predicate Interrupts(f: Fsm, a: Action) {
    && a.FsmRun? && f.connectRunning && f.state.ConnectingToBroker?
    && (f.networkEvent.NetworkLost?
        || (f.networkEvent.NetworkNoEvent? && f.mqttEvent.ConnectToBrokerSuccess?))
  }

  /** Connect work is scheduled or running exactly in CONNECTING. */
  predicate Confined(f: Fsm) {
    f.connectPending || f.connectRunning <==> f.state.ConnectingToBroker?
  }

  /** Running connect work is not affected by a run, and outside CONNECTING a run leaves no
      connect work scheduled that was not scheduled outside CONNECTING before. */
  ghost predicate ConnectWorkTracked(f: Fsm, g: Fsm) {
    && g.connectRunning == f.connectRunning
    && (!g.state.ConnectingToBroker? && g.connectPending ==>
          f.connectPending && !f.state.ConnectingToBroker?)
  }

  lemma ChangeStateTracks(f: Fsm, state: State)
    requires state.ConnectingToBroker? || state.NetworkDisconnected?
             || !f.connectPending || !f.state.ConnectingToBroker?
    ensures ConnectWorkTracked(f, ChangeState(f, state))
  {
  }

  lemma NetworkStageTracks(f: Fsm, disconnectPosts: bool)
    ensures ConnectWorkTracked(f, NetworkStage(f, disconnectPosts))
            || NetworkStage(f, disconnectPosts) == f.(networkEvent := NetworkNoEvent)
  {
    hide ChangeState;
    var h := f.(mqttEvent := BrokerNoEvent);
    ChangeStateTracks(f, NetworkDisconnected);
    ChangeStateTracks(f, ConnectingToBroker);
    ChangeStateTracks(h, NetworkDisconnected);
    ChangeStateTracks(h, ConnectingToBroker);
    ChangeStateTracks(HelperDisconnect(h, disconnectPosts), NetworkDisconnected);
  }

  lemma BrokerStageTracks(origin: State, f: Fsm)
    requires f.state == origin || f.mqttEvent == BrokerNoEvent
    ensures ConnectWorkTracked(f, BrokerStage(origin, f))
  {
    hide ChangeState;
    if f.mqttEvent == BrokerNoEvent {
      BrokerStageIdle(origin, f);
    } else {
      ChangeStateTracks(f, ConnectingToBroker);
      if origin.ConnectingToBroker? {
        ChangeStateTracks(f.(connectPending := false), ConnectedSubscribing);
      } else {
        ChangeStateTracks(f, ConnectedPublishing);
      }
    }
  }

  lemma HandledTracks(f: Fsm, disconnectPosts: bool)
    requires Shaped(f)
    ensures ConnectWorkTracked(f, Handled(f, disconnectPosts))
  {
    hide NetworkStage, BrokerStage, Shaped;
    var h := NetworkStage(f, disconnectPosts);
    NetworkStageKeepsShape(f, disconnectPosts);
    NetworkStageTracks(f, disconnectPosts);
    if f.state.NetworkDisconnected? {
      DisconnectedIgnoresBroker(h);
    } else {
      BrokerStageTracks(f.state, h);
    }
  }

  /** From CONNECTING, a run leaves exactly on a lost network, or on an accepted connection
      when no network event is pending. */
  lemma LeavesConnecting(f: Fsm, disconnectPosts: bool)
    requires f.state.ConnectingToBroker?
    ensures !Handled(f, disconnectPosts).state.ConnectingToBroker?
            <==> f.networkEvent.NetworkLost?
                 || (f.networkEvent.NetworkNoEvent? && f.mqttEvent.ConnectToBrokerSuccess?)
  {
    hide ChangeState;
    var g := f.(mqttEvent := BrokerNoEvent);
    ChangeStateCounts(g, ConnectingToBroker);
    ChangeStateCounts(g, NetworkDisconnected);
    ChangeStateCounts(f.(networkEvent := NetworkNoEvent, connectPending := false), ConnectedSubscribing);
  }

  lemma RunConfines(s: System, a: Action)
    requires Shaped(s.fsm) && Confined(s.fsm) && a.FsmRun?
    ensures Confined(Step(s, a).fsm) <==> !Interrupts(s.fsm, a)
  {
    hide Handled, Shaped;
    HandledTracks(s.fsm, a.disconnectPosts);
    if s.fsm.state.ConnectingToBroker? {
      LeavesConnecting(s.fsm, a.disconnectPosts);
    }
    StepKeepsShape(s, a);
    ShapedWhileConnecting(Step(s, a).fsm);
  }

  lemma ShapedWhileConnecting(f: Fsm)
    requires Shaped(f)
    ensures f.state.ConnectingToBroker? ==> f.connectPending || f.connectRunning
  {
  }

  lemma StepConfines(s: System, a: Action)
    requires Shaped(s.fsm) && Enabled(s, a) && Confined(s.fsm)
    ensures Confined(Step(s, a).fsm) <==> !Interrupts(s.fsm, a)
  {
    if a.FsmRun? {
      hide Step;
      RunConfines(s, a);
    }
  }

  /** Connect work is scheduled or running exactly in CONNECTING, throughout a run, if and
      only if no machine run falls into the work function with a lost network, or with an
      accepted connection and no network event, waiting in the mailboxes. */
  lemma {:induction false} ConnectWorkIsConfined(ss: seq<System>, acts: seq<Action>, n: nat)
    requires IsRun(ss, acts) && n < |ss|
    ensures (forall i :: 0 <= i <= n ==> Confined(ss[i].fsm))
            <==> (forall i :: 0 <= i < n ==> !Interrupts(ss[i].fsm, acts[i]))
  {
    hide Enabled, Step;
    if n > 0 {
      ConnectWorkIsConfined(ss, acts, n - 1);
      RunIsShaped(ss, acts, n - 1);
      RunAt(ss, acts, n);
      hide Shaped, Interrupts, Confined;
      if Confined(ss[n - 1].fsm) {
        StepConfines(ss[n - 1], acts[n - 1]);
      }
    }
  }

  /** No other step comes between the two halves of the connect work function. */
  ghost predicate ConnectWorkIsAtomic(acts: seq<Action>) {
    forall i :: 0 <= i < |acts| - 1 && acts[i].ConnectWorkBegins? ==> acts[i + 1].ConnectWorkEnds?
  }

  lemma StepKeepsConnectRunning(s: System, a: Action)
    requires Shaped(s.fsm)
    ensures Step(s, a).fsm.connectRunning
            <==> a.ConnectWorkBegins? || (s.fsm.connectRunning && !a.ConnectWorkEnds?)
  {
    if a.FsmRun? {
      hide Handled, Shaped;
      HandledTracks(s.fsm, a.disconnectPosts);
    }
  }

  lemma {:induction false} ConnectRunningOnlyAfterBegin(ss: seq<System>, acts: seq<Action>, n: nat)
    requires IsRun(ss, acts) && ConnectWorkIsAtomic(acts) && 0 < n < |ss|
    ensures ss[n].fsm.connectRunning <==> acts[n - 1].ConnectWorkBegins?
  {
    hide Enabled, Step;
    RunIsShaped(ss, acts, n - 1);
    RunAt(ss, acts, n);
    hide Shaped;
    StepKeepsConnectRunning(ss[n - 1], acts[n - 1]);
    if n > 1 {
      ConnectRunningOnlyAfterBegin(ss, acts, n - 1);
      assert acts[n - 2].ConnectWorkBegins? ==> acts[n - 1].ConnectWorkEnds?;
    }
  }

  /** Where the connect work function is never interrupted, connect work is scheduled exactly
      in CONNECTING, at every moment at which the function is not at work. */
  lemma AtomicConnectWorkIsConfined(ss: seq<System>, acts: seq<Action>, n: nat)
    requires IsRun(ss, acts) && ConnectWorkIsAtomic(acts) && n < |ss|
    ensures Confined(ss[n].fsm)
    ensures !ss[n].fsm.connectRunning ==>
              (ss[n].fsm.connectPending <==> ss[n].fsm.state.ConnectingToBroker?)
  {
    hide Enabled, Step;
    forall i | 0 <= i < n ensures !Interrupts(ss[i].fsm, acts[i]) {
      if i > 0 && ss[i].fsm.connectRunning {
        ConnectRunningOnlyAfterBegin(ss, acts, i);
        assert acts[i - 1].ConnectWorkBegins? ==> acts[i].ConnectWorkEnds?;
      }
    }
    ConnectWorkIsConfined(ss, acts, n);
  }

  // Concrete runs in which the conditions above fail.

  lemma Then(ss: seq<System>, acts: seq<Action>, a: Action)
    returns (ts: seq<System>, bs: seq<Action>)
    requires IsRun(ss, acts) && Enabled(ss[|acts|], a)
    ensures IsRun(ts, bs) && |bs| == |acts| + 1 && |ss| == |acts| + 1
    ensures ts == ss + [Step(ss[|acts|], a)]
  {
    hide Enabled, Step;
    ts, bs := ss + [Step(ss[|acts|], a)], acts + [a];
    forall i | 0 <= i < |bs| ensures StepsAt(ts, bs, i) {
      assert i < |acts| ==> StepsAt(ss, acts, i);
    }
  }

  lemma Start() returns (ss: seq<System>, acts: seq<Action>)
    ensures IsRun(ss, acts) && ss == [INITIAL] && acts == []
  {
    ss, acts := [INITIAL], [];
  }

  const CONNECTING := IDLE.(state := ConnectingToBroker, connectPending := true, transitions := 1)
  const SUBSCRIBING := IDLE.(state := ConnectedSubscribing, subscribePending := true, transitions := 2)
  const PUBLISHING := IDLE.(state := ConnectedPublishing, transitions := 3)

  /** Posting an event and running the machine once. */
  lemma ThenRun(ss: seq<System>, acts: seq<Action>, a: Action, f: Fsm)
    returns (ts: seq<System>, bs: seq<Action>)
    requires IsRun(ss, acts) && Enabled(ss[|acts|], a) && ss[|acts|].handed == []
    requires a.PostNetworkEvent? || a.PostMqttEvent?
    requires Run(Reacted(ss[|acts|].fsm, a), false, true) == f
    requires !Hands(Reacted(ss[|acts|].fsm, a), false)
    ensures IsRun(ts, bs) && |ts| == |bs| + 1
    ensures ts[|bs|] == ss[|acts|].(fsm := f)
  {
    hide IsRun, Run, Hands, Reacted;
    ts, bs := Then(ss, acts, a);
    ts, bs := Then(ts, bs, FsmRun(false, true));
  }

  /** A run that ends publishing, with nothing sent yet. */
  lemma Connected() returns (ss: seq<System>, acts: seq<Action>)
    ensures IsRun(ss, acts) && |ss| == |acts| + 1
    ensures ss[|acts|] == System(PUBLISHING, 0, [], [])
  {
    hide IsRun;
    ss, acts := Start();
    ss, acts := ThenRun(ss, acts, PostNetworkEvent(NetworkConnectedWithIp), CONNECTING);
    ss, acts := ThenRun(ss, acts, PostMqttEvent(ConnectToBrokerSuccess), SUBSCRIBING);
    ss, acts := ThenRun(ss, acts, PostMqttEvent(SubscribeAck), PUBLISHING);
  }

  /** Without the condition on PUBACK callbacks at-most-once is false: a run that preempts
      the callback after the timer was stopped hands the same message over again. */
  lemma MessageCanBeHandedTwice(m: Message) returns (ss: seq<System>, acts: seq<Action>)
    requires m.qos == 1
    ensures IsRun(ss, acts) && |ss| == |acts| + 1
    ensures ss[|acts|].accepted == [m] && ss[|acts|].handed == [Entry(0, m), Entry(0, m)]
    ensures ss[|acts|].fsm == PUBLISHING.(queue := [Entry(0, m)], timerRunning := true, ackBetween := true)
  {
    hide IsRun;
    ss, acts := Connected();
    ss, acts := Then(ss, acts, PublishChecks);
    ss, acts := Then(ss, acts, PublishEnqueues(m, true));
    ss, acts := Then(ss, acts, FsmRun(false, true));
    ss, acts := Then(ss, acts, AckStopsTimer);
    ss, acts := Then(ss, acts, FsmRun(false, true));
  }

  /** When that callback goes on, the head leaves the queue and the timer runs for nothing: the
      condition of `TimerGuardsSentMessage` can fail. */
  lemma TimerCanOutliveMessage(m: Message) returns (ss: seq<System>, acts: seq<Action>)
    requires m.qos == 1
    ensures IsRun(ss, acts)
    ensures ss[|acts|].fsm.timerRunning && ss[|acts|].fsm.queue == []
  {
    hide IsRun;
    ss, acts := MessageCanBeHandedTwice(m);
    ss, acts := Then(ss, acts, AckRemovesHead);
  }

  /** A slow CONNACK: the first attempt has sent its request and rescheduled itself, and the
      answer comes, and is seen by the machine, while the second attempt sleeps. That leaves
      connect work scheduled while subscribing. */
  lemma ConnectWorkCanOutliveConnection() returns (ss: seq<System>, acts: seq<Action>)
    ensures IsRun(ss, acts)
    ensures ss[|acts|].fsm.state.ConnectedSubscribing? && ss[|acts|].fsm.connectPending
  {
    hide IsRun;
    ss, acts := Start();
    ss, acts := ThenRun(ss, acts, PostNetworkEvent(NetworkConnectedWithIp), CONNECTING);
    ss, acts := Then(ss, acts, ConnectWorkBegins);
    ss, acts := Then(ss, acts, ConnectWorkEnds(false));
    ss, acts := Then(ss, acts, ConnectWorkBegins);
    ss, acts := Then(ss, acts, PostMqttEvent(ConnectToBrokerSuccess));
    ss, acts := Then(ss, acts, FsmRun(false, true));
    ss, acts := Then(ss, acts, ConnectWorkEnds(false));
  }

  /** A network loss while the connect work function sleeps leaves connect work scheduled in
      the disconnected state. */
  lemma ConnectWorkCanStray() returns (ss: seq<System>, acts: seq<Action>)
    ensures IsRun(ss, acts)
    ensures ss[|acts|].fsm.state.NetworkDisconnected? && ss[|acts|].fsm.connectPending
  {
    hide IsRun;
    ss, acts := Start();
    ss, acts := Then(ss, acts, PostNetworkEvent(NetworkConnectedWithIp));
    ss, acts := Then(ss, acts, FsmRun(false, true));
    ss, acts := Then(ss, acts, ConnectWorkBegins);
    ss, acts := Then(ss, acts, PostNetworkEvent(NetworkLost));
    ss, acts := Then(ss, acts, FsmRun(false, true));
    ss, acts := Then(ss, acts, ConnectWorkEnds(false));
  }
}
