/** One cluster head and its nodes over a lossy channel
    (cluster_head_multi_image_fota/net_ipc/src/main.c with
    cluster_node_multi_image_fota/net_ipc/src/main.c).

    Broadcasts and replies, once on the air, may be received any number of times, in any
    order and arbitrarily late, or never. */
module EsbNetwork {
  import opened EsbNode

  const MAX_PAYLOAD := 32
  const RX_MSGQ_MAX_ITEMS := 4
  const TRIGGER := 0x92
  const REPLY := 0x93
  const UNRESOLVED := 0xFF

  type Packet = p: seq<nat> | 1 <= |p| <= MAX_PAYLOAD witness [0]

  /** A receive buffer keeps the bytes of earlier packets beyond the present length. */
  datatype Buffer = Buffer(length: nat, data: seq<nat>)

  ghost predicate ValidBuffer(b: Buffer) {
    |b.data| == MAX_PAYLOAD && b.length <= MAX_PAYLOAD
  }

  datatype Peer = Peer(core: Node, index: nat, rx: Buffer, tx: seq<nat>)

  /** A reply on its way, with the node that sent it; only the bytes are on the air. */
  datatype Reply = Reply(node: nat, bytes: seq<nat>)

  /** `commands` are the commands of the application core that were broadcast, in order. */
  datatype System = System(
    commands: seq<Packet>,
    sent: seq<Packet>,
    peers: seq<Peer>,
    air: seq<Reply>,
    queue: seq<Reply>,
    forwarded: seq<Reply>)

  // The cluster head.

  /** A TX command becomes a broadcast: 0x91 is replaced by the trigger byte. */
  function Broadcast(command: Packet): Packet {
    [if command[0] == 0x91 then TRIGGER else command[0]] + command[1..]
  }

  // A cluster node.

  function ReadPayload(rx: Buffer, p: Packet): (r: Buffer)
    requires ValidBuffer(rx)
    ensures ValidBuffer(r) && r.length == |p|
    ensures r.data[..|p|] == p && r.data[|p|..] == rx.data[|p|..]
  {
    Buffer(|p|, p + rx.data[|p|..])
  }

  /** The ring byte echoed in the reply: only if this node's index has been resolved and
      lies inside the packet. */
  function RingByte(index: nat, length: nat, data: seq<nat>): nat
    requires length <= |data|
  {
    if index != UNRESOLVED && index < length then data[index] else 0
  }

  function ReplyTo(index: nat, rx: Buffer, battery: nat, rssi: nat, lastTxAttempts: nat): seq<nat>
    requires ValidBuffer(rx)
  {
    [REPLY, rx.data[1], RingByte(index, rx.length, rx.data), battery / 20 % 256, rssi % 256,
     lastTxAttempts, 0, 0]
  }

  /** Ring indicator of one byte when the index is unresolved, 0 if it is none. */
  function LegacyRing(b: nat): nat {
    if b in {0x11, 0x21, 0x31} then 1
    else if b in {0x12, 0x22, 0x32} then 2
    else if b in {0x13, 0x23, 0x33} then 3
    else 0
  }

  function ScanRing(data: seq<nat>, present: nat): nat {
    if data == [] then present
    else if LegacyRing(data[0]) != 0 then LegacyRing(data[0])
    else ScanRing(data[1..], present)
  }

  lemma {:induction false} ScanRingInRange(data: seq<nat>, present: nat)
    requires 1 <= present <= 3
    ensures 1 <= ScanRing(data, present) <= 3
  {
    if data != [] {
      ScanRingInRange(data[1..], present);
    }
  }

  function SelectRing(index: nat, rx: Buffer, present: nat): nat
    requires ValidBuffer(rx)
  {
    if index != UNRESOLVED && index < rx.length then
      var ring := rx.data[index] % 16;
      if 1 <= ring <= 3 then ring else present
    else ScanRing(rx.data[..rx.length], present)
  }

  /** ESB_EVENT_RX_RECEIVED. */
  function Hear(n: Peer, p: Packet, battery: nat, rssi: nat): Peer
    requires ValidBuffer(n.rx)
  {
    var rx := ReadPayload(n.rx, p);
    var trigger := rx.data[0] == TRIGGER;
    var ring := SelectRing(n.index, rx, n.core.ring);
    n.(rx := rx,
       tx := if trigger then ReplyTo(n.index, rx, battery, rssi, n.core.lastTxAttempts) else n.tx,
       core := Step(n.core, Received(trigger, ring)))
  }

  // The system.

  datatype Action =
    | Command(command: Packet, writeOk: bool)
    | NodeHears(node: nat, broadcast: nat, battery: nat, rssi: nat)
    | NodeSteps(node: nat, event: Event)
    | HeadHears(reply: nat)
    | Forward

  predicate Possible(s: System, a: Action) {
    match a
    case Command(_, _) => true
    case NodeHears(node, broadcast, _, _) =>
      node < |s.peers| && s.peers[node].core.radio.Listening? && broadcast < |s.sent|
    case NodeSteps(node, event) =>
      node < |s.peers| && !event.Received? && Enabled(s.peers[node].core, event)
    case HeadHears(reply) => reply < |s.air|
    case Forward => s.queue != []
  }

  ghost predicate WellFormed(s: System) {
    forall j :: 0 <= j < |s.peers| ==> ValidBuffer(s.peers[j].rx)
  }

  ghost function Next(s: System, a: Action): System
    requires WellFormed(s) && Possible(s, a)
  {
    match a
    case Command(command, writeOk) =>
      s.(queue := [],
         commands := if writeOk then s.commands + [command] else s.commands,
         sent := if writeOk then s.sent + [Broadcast(command)] else s.sent)
    case NodeHears(node, broadcast, battery, rssi) =>
      s.(peers := s.peers[node := Hear(s.peers[node], s.sent[broadcast], battery, rssi)])
    case NodeSteps(node, event) =>
      var n := s.peers[node];
      s.(peers := s.peers[node := n.(core := Step(n.core, event))],
         air := if Starts(n.core, event) then s.air + [Reply(node, n.tx)] else s.air)
    case HeadHears(reply) =>
      if |s.queue| < RX_MSGQ_MAX_ITEMS then s.(queue := s.queue + [s.air[reply]]) else s
    case Forward =>
      s.(queue := s.queue[1..], forwarded := s.forwarded + [s.queue[0]])
  }

  /** The reply carries the sequence byte and this node's ring byte of one and the same
      trigger broadcast. */
  ghost predicate Answers(reply: seq<nat>, index: nat, broadcast: Packet) {
    && |reply| == 8 && reply[0] == REPLY
    && |broadcast| >= 2 && broadcast[0] == TRIGGER
    && reply[1] == broadcast[1]
    && reply[2] == RingByte(index, |broadcast|, broadcast)
  }

  ghost predicate Justified(s: System, bytes: seq<nat>, index: nat) {
    exists k :: 0 <= k < |s.sent| && Answers(bytes, index, s.sent[k])
  }

  /** The node that sent the reply answered one of the head's broadcasts with it. */
  ghost predicate FromItsNode(s: System, reply: Reply) {
    reply.node < |s.peers| && Justified(s, reply.bytes, s.peers[reply.node].index)
  }

  /** The command with 0x91 as its first byte replaced by 0x92, and nothing else changed. */
  predicate IsBroadcastOf(broadcast: Packet, command: Packet) {
    && |broadcast| == |command| && broadcast[1..] == command[1..]
    && broadcast[0] == (if command[0] == 0x91 then 0x92 else command[0])
  }

  ghost predicate Relayed(commands: seq<Packet>, sent: seq<Packet>) {
    |commands| == |sent| && forall k :: 0 <= k < |sent| ==> IsBroadcastOf(sent[k], commands[k])
  }

  /** A node with an open cycle holds a justified reply, and so are all replies under way. */
  ghost predicate Causal(s: System) {
    && WellFormed(s) && Relayed(s.commands, s.sent)
    && (forall k :: 0 <= k < |s.sent| ==> |s.sent[k]| >= 2)
    && (forall j :: 0 <= j < |s.peers| && CycleOpen(s.peers[j].core) ==>
          Justified(s, s.peers[j].tx, s.peers[j].index))
    && (forall r :: r in s.air ==> FromItsNode(s, r))
    && (forall r :: r in s.queue ==> FromItsNode(s, r))
    && (forall r :: r in s.forwarded ==> FromItsNode(s, r))
  }

  /** A cycle opens only by a trigger, and only an open cycle starts a transmission. */
  lemma OnlyTriggersOpenCycles(n: Node, e: Event)
    requires Enabled(n, e)
    ensures CycleOpen(Step(n, e)) && !Triggers(e) ==> CycleOpen(n)
    ensures Starts(n, e) ==> CycleOpen(n)
  {
    hide DelayIncrease, CountIncrease;
  }

  lemma HearAnswers(n: Peer, p: Packet, battery: nat, rssi: nat)
    requires ValidBuffer(n.rx) && p[0] == TRIGGER && |p| >= 2
    ensures Answers(Hear(n, p, battery, rssi).tx, n.index, p)
  {
    var rx := ReadPayload(n.rx, p);
    assert rx.data[0] == rx.data[..|p|][0];
    assert rx.data[1] == rx.data[..|p|][1];
    assert n.index < |p| ==> rx.data[n.index] == rx.data[..|p|][n.index];
  }

  /** The two-byte condition is exact: the reply to a trigger is independent of what the
      receive buffer held before if and only if the trigger has at least two bytes. The
      sequence byte echoed for a one-byte trigger is left over from an earlier packet. */
  lemma TwoBytesAreNeeded(n: Peer, p: Packet, battery: nat, rssi: nat)
    requires p[0] == TRIGGER
    ensures |p| >= 2 <==>
            forall b1, b2 :: ValidBuffer(b1) && ValidBuffer(b2) ==>
              Hear(n.(rx := b1), p, battery, rssi).tx == Hear(n.(rx := b2), p, battery, rssi).tx
  {
    if |p| >= 2 {
      forall b1, b2 | ValidBuffer(b1) && ValidBuffer(b2)
        ensures Hear(n.(rx := b1), p, battery, rssi).tx == Hear(n.(rx := b2), p, battery, rssi).tx
      {
        HearAnswers(n.(rx := b1), p, battery, rssi);
        HearAnswers(n.(rx := b2), p, battery, rssi);
      }
    } else {
      var b1 := Buffer(0, seq(MAX_PAYLOAD, _ => 0));
      var b2 := Buffer(0, seq(MAX_PAYLOAD, _ => 1));
      assert Hear(n.(rx := b1), p, battery, rssi).tx[1] == 0;
      assert Hear(n.(rx := b2), p, battery, rssi).tx[1] == 1;
    }
  }

  lemma HearWithoutTrigger(n: Peer, p: Packet, battery: nat, rssi: nat)
    requires ValidBuffer(n.rx) && p[0] != TRIGGER
    ensures var m := Hear(n, p, battery, rssi);
            m.tx == n.tx && (CycleOpen(m.core) ==> CycleOpen(n.core))
  {
    var rx := ReadPayload(n.rx, p);
    assert rx.data[0] == rx.data[..|p|][0];
  }

  /** What `s` justifies, a system with more broadcasts and the same node indices justifies. */
  lemma JustificationsPersist(s: System, t: System)
    requires |s.sent| <= |t.sent| && t.sent[..|s.sent|] == s.sent
    requires |s.peers| == |t.peers|
    requires forall j :: 0 <= j < |s.peers| ==> s.peers[j].index == t.peers[j].index
    ensures forall bytes, index :: Justified(s, bytes, index) ==> Justified(t, bytes, index)
    ensures forall reply :: FromItsNode(s, reply) ==> FromItsNode(t, reply)
  {
    hide Answers;
    forall bytes, index | Justified(s, bytes, index) ensures Justified(t, bytes, index) {
      var k :| 0 <= k < |s.sent| && Answers(bytes, index, s.sent[k]);
      assert t.sent[..|s.sent|][k] == t.sent[k];
    }
    hide Justified;
    forall reply | FromItsNode(s, reply) ensures FromItsNode(t, reply) {
      assert Justified(s, reply.bytes, s.peers[reply.node].index);
    }
  }

  lemma BroadcastIsRelayed(command: Packet)
    ensures IsBroadcastOf(Broadcast(command), command)
  {
  }

  lemma CommandKeepsCausal(s: System, command: Packet, writeOk: bool)
    requires Causal(s) && |command| >= 2
    ensures Causal(Next(s, Command(command, writeOk)))
  {
    hide Answers, Justified, FromItsNode, CycleOpen;
    var t := Next(s, Command(command, writeOk));
    BroadcastIsRelayed(command);
    hide Broadcast, IsBroadcastOf;
    JustificationsPersist(s, t);
  }

  lemma HearKeepsCausal(s: System, a: Action)
    requires Causal(s) && Possible(s, a) && a.NodeHears?
    ensures Causal(Next(s, a))
  {
    var n, p, t := s.peers[a.node], s.sent[a.broadcast], Next(s, a);
    if p[0] == TRIGGER {
      HearAnswers(n, p, a.battery, a.rssi);
      assert Justified(t, t.peers[a.node].tx, n.index);
    } else {
      HearWithoutTrigger(n, p, a.battery, a.rssi);
    }
    hide Answers, Hear, CycleOpen;
    JustificationsPersist(s, t);
  }

  lemma StepKeepsCausal(s: System, a: Action)
    requires Causal(s) && Possible(s, a) && a.NodeSteps?
    ensures Causal(Next(s, a))
  {
    var n, t := s.peers[a.node], Next(s, a);
    OnlyTriggersOpenCycles(n.core, a.event);
    hide Answers, Step, Starts, CycleOpen, Enabled;
    JustificationsPersist(s, t);
    if Starts(n.core, a.event) {
      assert FromItsNode(s, Reply(a.node, n.tx));
    }
  }

  lemma HeadKeepsCausal(s: System, a: Action)
    requires Causal(s) && Possible(s, a) && (a.HeadHears? || a.Forward?)
    ensures Causal(Next(s, a))
  {
    hide Answers, Justified, CycleOpen;
    var t := Next(s, a);
    JustificationsPersist(s, t);
  }

  lemma NextKeepsCausal(s: System, a: Action)
    requires Causal(s) && Possible(s, a) && (a.Command? ==> |a.command| >= 2)
    ensures Causal(Next(s, a))
  {
    hide Causal, Next;
    match a {
      case Command(command, writeOk) => CommandKeepsCausal(s, command, writeOk);
      case NodeHears(_, _, _, _) => HearKeepsCausal(s, a);
      case NodeSteps(_, _) => StepKeepsCausal(s, a);
      case _ => HeadKeepsCausal(s, a);
    }
  }

  /** Power-up: nothing sent, every node in its initial state, buffers and replies arbitrary. */
  ghost predicate Initial(s: System) {
    && s.commands == [] && s.sent == [] && s.air == [] && s.queue == [] && s.forwarded == []
    && forall j :: 0 <= j < |s.peers| ==>
         s.peers[j].core == INITIAL && ValidBuffer(s.peers[j].rx)
  }

  ghost predicate IsNetworkRun(ss: seq<System>, steps: seq<Action>) {
    && |ss| == |steps| + 1 && Initial(ss[0])
    && forall i {:trigger steps[i]} :: 0 <= i < |steps| ==>
         WellFormed(ss[i]) && Possible(ss[i], steps[i]) && ss[i + 1] == Next(ss[i], steps[i])
  }

  /** Every command of the run has at least two bytes. */
  ghost predicate LongCommands(steps: seq<Action>) {
    forall i :: 0 <= i < |steps| && steps[i].Command? ==> |steps[i].command| >= 2
  }

  lemma {:induction false} NetworkRunIsCausal(ss: seq<System>, steps: seq<Action>, i: nat)
    requires IsNetworkRun(ss, steps) && LongCommands(steps) && i < |ss|
    ensures Causal(ss[i])
  {
    if i > 0 {
      NetworkRunIsCausal(ss, steps, i - 1);
      var a := steps[i - 1];
      hide Next, Causal, Possible;
      NextKeepsCausal(ss[i - 1], a);
    }
  }

  /** Reply causality: every reply the head forwards carries a sequence byte and the ring byte
      of the node that sent it, taken from one and the same trigger broadcast that the head
      sent earlier. */
  lemma ForwardedRepliesAreCausal(ss: seq<System>, steps: seq<Action>, i: nat, reply: Reply)
    returns (broadcast: nat)
    requires IsNetworkRun(ss, steps) && LongCommands(steps)
    requires i < |ss| && reply in ss[i].forwarded
    ensures reply.node < |ss[i].peers| && broadcast < |ss[i].sent|
    ensures Answers(reply.bytes, ss[i].peers[reply.node].index, ss[i].sent[broadcast])
  {
    NetworkRunIsCausal(ss, steps, i);
    var s := ss[i];
    assert FromItsNode(s, reply);
    broadcast :| 0 <= broadcast < |s.sent|
                 && Answers(reply.bytes, s.peers[reply.node].index, s.sent[broadcast]);
  }

  /** The ring byte of a command for a node. */
  function CommandRing(index: nat, command: Packet): nat {
    if index == 0xFF || index >= |command| then 0
    else if index == 0 then 0x92
    else command[index]
  }

  /** Every reply the head forwards answers a command of the application core that began with
      0x91 or 0x92, and carries its sequence byte and its ring byte for the sender. */
  lemma ForwardedRepliesAnswerCommands(ss: seq<System>, steps: seq<Action>, i: nat, reply: Reply)
    returns (k: nat)
    requires IsNetworkRun(ss, steps) && LongCommands(steps)
    requires i < |ss| && reply in ss[i].forwarded
    ensures reply.node < |ss[i].peers| && k < |ss[i].commands| && |reply.bytes| == 8
    ensures var command := ss[i].commands[k];
            && command[0] in {0x91, 0x92} && |command| >= 2
            && reply.bytes[0] == 0x93 && reply.bytes[1] == command[1]
            && reply.bytes[2] == CommandRing(ss[i].peers[reply.node].index, command)
  {
    k := ForwardedRepliesAreCausal(ss, steps, i, reply);
    NetworkRunIsCausal(ss, steps, i);
    var command, broadcast := ss[i].commands[k], ss[i].sent[k];
    assert IsBroadcastOf(broadcast, command);
    SameTail(broadcast, command);
  }

  lemma SameTail(x: Packet, y: Packet)
    requires |x| == |y| && x[1..] == y[1..]
    ensures forall j :: 1 <= j < |x| ==> x[j] == y[j]
  {
    forall j | 1 <= j < |x| ensures x[j] == y[j] {
      assert x[1..][j - 1] == y[1..][j - 1];
    }
  }
}
