/** The cluster head's network core (cluster_head_multi_image_fota/net_ipc/src/main.c): the
    four-slot receive queue between the radio interrupt and the work handler, and the command
    path, proved to be the head's part of EsbNetwork.dfy. */
module EsbHead {
  import opened EsbNetwork

  /** The work handler empties the queue: `Forward` as long as there is something. */
  ghost function Drained(s: System): (r: System)
    requires WellFormed(s)
    ensures r.queue == [] && r.forwarded == s.forwarded + s.queue
    ensures r.commands == s.commands && r.sent == s.sent && r.peers == s.peers && r.air == s.air
    decreases |s.queue|
  {
    if s.queue == [] then s else Drained(Next(s, Forward))
  }

  class HeadCore {
    /** What was written to the radio, the queue, and what was sent to the application core;
        the head sees only the bytes of a reply and never looks at its sender. */
    ghost var commands: seq<Packet>
    var sent: seq<Packet>
    var esbRxMsgq: seq<Reply>
    var ipc: seq<Reply>

    ghost predicate Agrees(s: System)
      reads this
    {
      WellFormed(s) && commands == s.commands && sent == s.sent && esbRxMsgq == s.queue && ipc == s.forwarded
    }

    constructor ()
      ensures sent == [] && esbRxMsgq == [] && ipc == []
    {
      commands, sent, esbRxMsgq, ipc := [], [], [], [];
    }

    /** A TX command in `ep_recv`: pending replies are dropped, and the broadcast is the
        command with 0x91 replaced by the trigger byte. */
    method EpRecvTx(command: Packet, writeOk: bool, ghost s: System)
      requires Agrees(s)
      modifies this`commands, this`sent, this`esbRxMsgq
      ensures Agrees(Next(s, Command(command, writeOk)))
      ensures esbRxMsgq == []
      ensures !writeOk ==> sent == old(sent)
      ensures writeOk ==> |sent| == |old(sent)| + 1 && sent[..|old(sent)|] == old(sent)
      ensures writeOk ==>
                var b := sent[|sent| - 1];
                && |b| == |command| && b[1..] == command[1..]
                && b[0] == (if command[0] == 0x91 then 0x92 else command[0])
    {
      while esbRxMsgq != []
        invariant commands == old(commands) && sent == old(sent) && ipc == old(ipc)
        decreases |esbRxMsgq|
      {
        esbRxMsgq := esbRxMsgq[1..];
      }
      var firstByte := command[0];
      if firstByte == 0x91 {
        firstByte := 0x92;
      }
      var payload := [firstByte];
      if |command| > 1 {
        payload := payload + command[1..];
      }
      assert payload == Broadcast(command);
      if writeOk {
        commands := commands + [command];
        sent := sent + [payload];
      }
    }

    /** ESB_EVENT_RX_RECEIVED in `esb_evt_handler`: a full queue drops the packet. */
    method OnRxReceived(ghost s: System, reply: nat, packet: Reply)
      requires Agrees(s) && Possible(s, HeadHears(reply)) && packet == s.air[reply]
      modifies this`esbRxMsgq
      ensures Agrees(Next(s, HeadHears(reply)))
    {
      if |esbRxMsgq| < RX_MSGQ_MAX_ITEMS {
        esbRxMsgq := esbRxMsgq + [packet];
      }
    }

    /** `esb_rx_work_handler`. */
    method RxWorkHandler(ghost s: System)
      requires Agrees(s)
      modifies this`esbRxMsgq, this`ipc
      ensures Agrees(Drained(s))
      ensures esbRxMsgq == [] && ipc == old(ipc) + old(esbRxMsgq)
    {
      ghost var t := s;
      while esbRxMsgq != []
        invariant Agrees(t) && Drained(t) == Drained(s)
        decreases |esbRxMsgq|
      {
        var rxData := esbRxMsgq[0];
        esbRxMsgq := esbRxMsgq[1..];
        ipc := ipc + [rxData];
        t := Next(t, Forward);
      }
    }
  }

  lemma {:induction false} DrainedIsCausal(s: System)
    requires Causal(s)
    ensures Causal(Drained(s))
    decreases |s.queue|
  {
    if s.queue != [] {
      NextKeepsCausal(s, Forward);
      DrainedIsCausal(Next(s, Forward));
    }
  }
}
