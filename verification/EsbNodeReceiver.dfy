/** The receive branch of the node's interrupt handler
    (cluster_node_multi_image_fota/net_ipc/src/main.c), with its receive buffer and reply
    payload, proved to be the reaction of EsbNetwork.dfy. */
module EsbNodeReceiver {
  import opened EsbNode
  import opened EsbNetwork
  import EsbNodeCore

  const REPLY_LENGTH := 8

  class NodeReceiver {
    const core: EsbNodeCore.NodeCore
    const myPacketIndex: nat
    var rxLength: nat
    const rxData: array<nat>
    const txData: array<nat>

    /** Bytes 0, 6 and 7 of the reply are never written after its definition. */
    ghost predicate Valid()
      reads this, txData
    {
      && rxData.Length == MAX_PAYLOAD && rxLength <= MAX_PAYLOAD && rxData != txData
      && txData.Length == REPLY_LENGTH
      && txData[0] == REPLY && txData[6] == 0 && txData[7] == 0
    }

    ghost function View(): Peer
      reads this, core, rxData, txData
    {
      Peer(core.View(), myPacketIndex, Buffer(rxLength, rxData[..]), txData[..])
    }

    constructor (index: nat)
      ensures Valid() && fresh(core) && fresh(rxData) && fresh(txData)
      ensures View().core == INITIAL && View().index == index && ValidBuffer(View().rx)
    {
      core := new EsbNodeCore.NodeCore();
      myPacketIndex, rxLength := index, 0;
      rxData := new nat[MAX_PAYLOAD](_ => 0);
      txData := new nat[REPLY_LENGTH](i => if i == 0 then REPLY else 0);
    }

    /** `esb_read_rx_payload`: bytes beyond the packet keep what was there. */
    method ReadRxPayload(p: Packet)
      requires Valid()
      modifies this`rxLength, rxData
      ensures Valid() && Buffer(rxLength, rxData[..]) == ReadPayload(old(View().rx), p)
    {
      rxLength := |p|;
      forall i | 0 <= i < |p| {
        rxData[i] := p[i];
      }
    }

    method PrepareReply(battery: nat, rssi: nat)
      requires Valid()
      modifies txData
      ensures Valid()
      ensures txData[..] == ReplyTo(myPacketIndex, View().rx, battery, rssi, core.lastTxAttempts)
    {
      txData[1] := rxData[1];
      if myPacketIndex != UNRESOLVED && myPacketIndex < rxLength {
        txData[2] := rxData[myPacketIndex];
      } else {
        txData[2] := 0;
      }
      txData[3] := battery / 20 % 256;
      txData[4] := rssi % 256;
      txData[5] := core.lastTxAttempts;
    }

    /** The ring named by this node's byte of the packet or, as long as its index is not
        resolved, by the first legacy indicator in it. */
    method ReadRing() returns (ring: nat)
      requires Valid()
      ensures ring == SelectRing(myPacketIndex, View().rx, core.selectedRing)
    {
      ring := core.selectedRing;
      if myPacketIndex != UNRESOLVED && myPacketIndex < rxLength {
        var ringVal := rxData[myPacketIndex] % 16;
        if 1 <= ringVal <= 3 {
          ring := ringVal;
        }
      } else {
        ghost var data := rxData[..rxLength];
        assert rxData[..][..rxLength] == data;
        var i := 0;
        while i < rxLength
          invariant 0 <= i <= rxLength
          invariant ScanRing(data, ring) == ScanRing(data[i..], ring)
        {
          var b := rxData[i];
          assert data[i..][0] == b && data[i..][1..] == data[i + 1..];
          if b == 0x11 || b == 0x21 || b == 0x31 {
            return 1;
          } else if b == 0x12 || b == 0x22 || b == 0x32 {
            return 2;
          } else if b == 0x13 || b == 0x23 || b == 0x33 {
            return 3;
          }
          i := i + 1;
        }
      }
    }

    /** ESB_EVENT_RX_RECEIVED: the whole branch is one reaction of the node. */
    method OnRxReceived(p: Packet, battery: nat, rssi: nat)
      requires Valid()
      modifies this`rxLength, rxData, txData, core
      ensures Valid() && View() == Hear(old(View()), p, battery, rssi)
    {
      hide ReplyTo, SelectRing, ReadPayload, Step;
      ReadRxPayload(p);
      var trigger := rxData[0] == TRIGGER;
      if trigger {
        PrepareReply(battery, rssi);
      }
      var ring := ReadRing();
      core.OnReceived(trigger, ring);
    }
  }
}
