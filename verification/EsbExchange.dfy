/** One exchange between head and node: which ring a packet selects, what a reply reports, how
    many replies wait at the head, and a run from a command to its forwarded reply. */
module EsbExchange {
  import opened EsbNode
  import opened EsbNetwork

  // Ring selection.

  /** The low nibble of a node's own byte selects its ring if it is 1, 2 or 3. */
  lemma ResolvedByteSelects(index: nat, rx: Buffer, present: nat, high: nat, ring: nat)
    requires ValidBuffer(rx) && index != UNRESOLVED && index < rx.length
    requires rx.data[index] == 16 * high + ring && ring < 16
    ensures SelectRing(index, rx, present) == if ring in {1, 2, 3} then ring else present
  {
  }

  /** A legacy indicator has 1, 2 or 3 in both nibbles, and names the ring in the low one. */
  lemma LegacyIndicators(b: nat)
    ensures LegacyRing(b) != 0
            <==> b in {0x11, 0x12, 0x13, 0x21, 0x22, 0x23, 0x31, 0x32, 0x33}
    ensures LegacyRing(b) != 0 ==> LegacyRing(b) == b % 16
  {
  }

  /** As long as the index is not resolved, the first legacy indicator of the packet selects,
      and without one the ring stays. */
  lemma {:induction false} FirstIndicatorSelects(data: seq<nat>, present: nat)
    ensures (forall b :: b in data ==> LegacyRing(b) == 0) ==> ScanRing(data, present) == present
    ensures forall k :: 0 <= k < |data| && LegacyRing(data[k]) != 0
              && (forall j :: 0 <= j < k ==> LegacyRing(data[j]) == 0)
              ==> ScanRing(data, present) == data[k] % 16
  {
    if data != [] {
      FirstIndicatorSelects(data[1..], present);
      LegacyIndicators(data[0]);
      hide LegacyRing;
      forall k | 0 < k < |data| && LegacyRing(data[k]) != 0
                 && (forall j :: 0 <= j < k ==> LegacyRing(data[j]) == 0)
        ensures ScanRing(data, present) == data[k] % 16
      {
        assert data[1..][k - 1] == data[k];
        assert forall j :: 0 <= j < k - 1 ==> data[1..][j] == data[j + 1];
      }
    }
  }

  /** An unresolved node looks at the bytes of the present packet only. */
  lemma UnresolvedLooksAtPacket(rx: Buffer, p: Packet, present: nat)
    requires ValidBuffer(rx)
    ensures SelectRing(UNRESOLVED, ReadPayload(rx, p), present) == ScanRing(p, present)
  {
  }

  // Replies.

  /** A trigger, and nothing else, asks for a reply and prepares it. The reply reports the
      battery voltage in steps of 20 mV, the signal strength of the trigger and the attempts
      of the reply before. */
  lemma ReplyReports(n: Peer, p: Packet, battery: nat, rssi: nat)
    requires ValidBuffer(n.rx) && |n.tx| == 8
    ensures var m := Hear(n, p, battery, rssi);
            && |m.tx| == 8 && m.index == n.index && m.rx == ReadPayload(n.rx, p)
            && m.core.switchToPtx == (n.core.switchToPtx || p[0] == 0x92)
            && (p[0] != 0x92 ==> m.tx == n.tx)
            && (p[0] == 0x92 ==>
                  && m.tx[3] < 256 && m.tx[4] < 256
                  && (battery < 5120 ==> 20 * m.tx[3] <= battery < 20 * m.tx[3] + 20)
                  && (rssi < 256 ==> m.tx[4] == rssi)
                  && m.tx[5] == n.core.lastTxAttempts)
  {
    var rx := ReadPayload(n.rx, p);
    assert rx.data[0] == rx.data[..|p|][0];
  }

  // The head's queue.

  /** At most four replies wait; one more is dropped, and any other is kept at the end until it
      is forwarded, oldest first. A new command drops those that wait. */
  lemma QueueStep(s: System, a: Action)
    requires WellFormed(s) && Possible(s, a) && |s.queue| <= 4
    ensures |Next(s, a).queue| <= 4
    ensures a.HeadHears? ==>
              Next(s, a).queue == if |s.queue| == 4 then s.queue else s.queue + [s.air[a.reply]]
    ensures a.Command? ==> Next(s, a).queue == []
    ensures a.Forward? ==>
              Next(s, a).forwarded + Next(s, a).queue == s.forwarded + s.queue
              && |Next(s, a).forwarded| == |s.forwarded| + 1
  {
    hide Step, Hear;
  }

  lemma {:induction false} QueueHoldsFour(ss: seq<System>, steps: seq<Action>, i: nat)
    requires IsNetworkRun(ss, steps) && i < |ss|
    ensures |ss[i].queue| <= 4
  {
    if i > 0 {
      QueueHoldsFour(ss, steps, i - 1);
      var a := steps[i - 1];
      hide Next, WellFormed, Possible;
      QueueStep(ss[i - 1], a);
    }
  }

  // A run from a command to its reply.

  const COMMAND: seq<nat> := [0x91, 7, 0, 0, 0x21]
  const REPLY_SENT := Reply(0, [0x93, 7, 0x21, 100, 60, 0, 0, 0])

  ghost function Fresh(): (b: Buffer)
    ensures ValidBuffer(b)
  {
    Buffer(0, seq(MAX_PAYLOAD, _ => 0))
  }

  lemma ThenNext(ss: seq<System>, steps: seq<Action>, a: Action)
    returns (ts: seq<System>, bs: seq<Action>)
    requires IsNetworkRun(ss, steps) && WellFormed(ss[|steps|])
    requires EsbNetwork.Possible(ss[|steps|], a)
    ensures IsNetworkRun(ts, bs) && |ts| == |bs| + 1 && ts[|bs|] == Next(ss[|steps|], a)
  {
    hide Next, EsbNetwork.Possible, WellFormed, Initial;
    ts, bs := ss + [Next(ss[|steps|], a)], steps + [a];
    forall i | 0 <= i < |bs|
      ensures WellFormed(ts[i]) && EsbNetwork.Possible(ts[i], bs[i]) && ts[i + 1] == Next(ts[i], bs[i])
    {
      if i < |steps| {
        assert steps[i] == bs[i];
      }
    }
  }

  /** The only node has heard the broadcast of the command. */
  lemma CommandIsHeard() returns (ss: seq<System>, steps: seq<Action>)
    ensures IsNetworkRun(ss, steps) && |ss| == |steps| + 1
    ensures var s := ss[|steps|];
            && s.commands == [COMMAND] && s.sent == [[0x92, 7, 0, 0, 0x21]]
            && |s.peers| == 1 && ValidBuffer(s.peers[0].rx) && s.peers[0].tx == REPLY_SENT.bytes
            && s.peers[0].core == INITIAL.(switchToPtx := true, ring := 1)
            && s.air == [] && s.queue == [] && s.forwarded == []
  {
    var n := Peer(INITIAL, 4, Fresh(), [0x93, 0, 0, 0, 0, 0, 0, 0]);
    var s := System([], [], [n], [], [], []);
    ss, steps := [s], [];
    assert IsNetworkRun(ss, steps);
    hide IsNetworkRun;
    var command: Packet, broadcast: Packet := COMMAND, [0x92, 7, 0, 0, 0x21];
    assert command[1..] == [7, 0, 0, 0x21];
    assert Broadcast(command) == broadcast;
    ss, steps := ThenNext(ss, steps, Command(command, true));
    assert ss[|steps|] == System([command], [broadcast], [n], [], [], []);
    Heard(n);
    hide Hear;
    ss, steps := ThenNext(ss, steps, NodeHears(0, 0, 2000, 60));
  }

  lemma Heard(n: Peer)
    requires ValidBuffer(n.rx) && n.index == 4 && n.core == INITIAL
    ensures var m := Hear(n, [0x92, 7, 0, 0, 0x21], 2000, 60);
            && m.tx == REPLY_SENT.bytes && ValidBuffer(m.rx)
            && m.core == INITIAL.(switchToPtx := true, ring := 1)
  {
    var p: Packet := [0x92, 7, 0, 0, 0x21];
    var rx := ReadPayload(n.rx, p);
    assert rx.data[0] == rx.data[..|p|][0] && rx.data[1] == rx.data[..|p|][1];
    assert rx.data[4] == rx.data[..|p|][4];
    assert ReplyTo(4, rx, 2000, 60, 0) == REPLY_SENT.bytes;
  }

  /** A command that begins with 0x91 does lead to a reply that the head forwards. */
  lemma CommandIsAnswered() returns (ss: seq<System>, steps: seq<Action>)
    ensures IsNetworkRun(ss, steps) && |ss| == |steps| + 1
    ensures ss[|steps|].commands == [COMMAND] && ss[|steps|].forwarded == [REPLY_SENT]
  {
    hide IsNetworkRun;
    ss, steps := CommandIsHeard();
    var step := NodeSteps(0, MainStep(true, true, 0));
    ss, steps := ThenNext(ss, steps, step);
    ss, steps := ThenNext(ss, steps, step);
    ss, steps := ThenNext(ss, steps, HeadHears(0));
    ss, steps := ThenNext(ss, steps, Forward);
  }
}
