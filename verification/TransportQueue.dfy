/** The outgoing message queue and the heap buffers it owns
    (cluster_head_multi_image_fota/src/transport/transport_queue.c). */
module TransportQueue {
  import opened TransportFsm

  const EINVAL := 22

  datatype Option<T> = None | Some(value: T)

  /** What the message queue stores: two heap addresses and the QoS. */
  datatype Slot = Slot(topic: nat, payload: nat, qos: nat)

  /** The addresses a queue holds, in order. */
  ghost function Addresses(slots: seq<Slot>): (r: seq<nat>)
    ensures |r| == 2 * |slots|
  {
    if slots == [] then [] else [slots[0].topic, slots[0].payload] + Addresses(slots[1..])
  }

  ghost predicate Distinct(a: seq<nat>) {
    forall i, j :: 0 <= i < j < |a| ==> a[i] != a[j]
  }

  /** The live allocations are exactly the two buffers of each queued message, all distinct. */
  ghost predicate Owned(slots: seq<Slot>, heap: map<nat, string>) {
    && Distinct(Addresses(slots))
    && heap.Keys == (set a | a in Addresses(slots))
  }

  ghost function ContentsOf(slots: seq<Slot>, heap: map<nat, string>): (r: seq<Message>)
    ensures |r| == |slots|
  {
    if slots == [] then [] else
      [Message(if slots[0].topic in heap then heap[slots[0].topic] else "",
               if slots[0].payload in heap then heap[slots[0].payload] else "", slots[0].qos)]
      + ContentsOf(slots[1..], heap)
  }

  lemma {:induction false} AddressesAppend(slots: seq<Slot>, s: Slot)
    ensures Addresses(slots + [s]) == Addresses(slots) + [s.topic, s.payload]
  {
    if slots == [] {
      assert [s][1..] == [];
    } else {
      assert (slots + [s])[1..] == slots[1..] + [s];
      AddressesAppend(slots[1..], s);
    }
  }

  /** Contents depend only on the buffers the queue holds. */
  lemma {:induction false} ContentsFrame(slots: seq<Slot>, h1: map<nat, string>, h2: map<nat, string>)
    requires forall a :: a in Addresses(slots) ==> a in h1 && a in h2 && h1[a] == h2[a]
    ensures ContentsOf(slots, h1) == ContentsOf(slots, h2)
  {
    if slots != [] {
      assert slots[0].topic == Addresses(slots)[0] && slots[0].payload == Addresses(slots)[1];
      assert forall a :: a in Addresses(slots[1..]) ==> a in Addresses(slots);
      ContentsFrame(slots[1..], h1, h2);
    }
  }

  lemma {:induction false} ContentsAppend(slots: seq<Slot>, s: Slot, heap: map<nat, string>)
    requires s.topic in heap && s.payload in heap
    ensures ContentsOf(slots + [s], heap)
            == ContentsOf(slots, heap) + [Message(heap[s.topic], heap[s.payload], s.qos)]
  {
    if slots == [] {
      assert [s][1..] == [];
    } else {
      assert (slots + [s])[1..] == slots[1..] + [s];
      ContentsAppend(slots[1..], s, heap);
    }
  }

  /** Two fresh buffers may join the queue. */
  lemma OwnedAppend(slots: seq<Slot>, heap: map<nat, string>, s: Slot, topic: string, payload: string)
    requires Owned(slots, heap)
    requires s.topic !in heap && s.payload !in heap && s.topic != s.payload
    ensures var h := heap[s.topic := topic][s.payload := payload];
            && Owned(slots + [s], h)
            && ContentsOf(slots + [s], h)
               == ContentsOf(slots, heap) + [Message(topic, payload, s.qos)]
  {
    var h := heap[s.topic := topic][s.payload := payload];
    AddressesAppend(slots, s);
    var a := Addresses(slots);
    assert forall x :: x in a ==> x in heap;
    ContentsFrame(slots, heap, h);
    ContentsAppend(slots, s, h);
  }

  /** The head's two buffers differ from each other and from all others the queue holds. */
  lemma HeadIsSeparate(slots: seq<Slot>)
    requires slots != [] && Distinct(Addresses(slots))
    ensures slots[0].topic != slots[0].payload && Distinct(Addresses(slots[1..]))
    ensures slots[0].topic !in Addresses(slots[1..]) && slots[0].payload !in Addresses(slots[1..])
  {
    var a, b := Addresses(slots), Addresses(slots[1..]);
    assert a == [slots[0].topic, slots[0].payload] + b;
    hide Addresses;
    assert a[0] == slots[0].topic && a[1] == slots[0].payload;
    assert forall i :: 0 <= i < |b| ==> b[i] == a[i + 2];
  }

  /** The head's two buffers may leave it. */
  lemma OwnedRemove(slots: seq<Slot>, heap: map<nat, string>)
    requires Owned(slots, heap) && slots != []
    ensures slots[0].topic in heap && slots[0].payload in heap
    ensures slots[0].topic != slots[0].payload
    ensures Owned(slots[1..], heap - {slots[0].topic} - {slots[0].payload})
  {
    var b, s := Addresses(slots[1..]), slots[0];
    HeadIsSeparate(slots);
    assert Addresses(slots) == [s.topic, s.payload] + b;
    hide Addresses, Distinct;
    assert forall x :: x in [s.topic, s.payload] + b <==> x == s.topic || x == s.payload || x in b;
    assert (heap - {s.topic} - {s.payload}).Keys == heap.Keys - {s.topic} - {s.payload};
  }

  /** Releasing the head's buffers leaves the other contents as they were. */
  lemma ContentsAfterRelease(slots: seq<Slot>, heap: map<nat, string>, t: nat, p: nat)
    requires forall a :: a in Addresses(slots) ==> a in heap && a != t && a != p
    ensures ContentsOf(slots, heap - {t} - {p}) == ContentsOf(slots, heap)
  {
    hide Addresses, ContentsOf;
    ContentsFrame(slots, heap, heap - {t} - {p});
  }

  lemma TailAddresses(slots: seq<Slot>, a: nat)
    requires slots != [] && a in Addresses(slots[1..])
    ensures a in Addresses(slots)
  {
  }

  lemma ContentsTail(slots: seq<Slot>, heap: map<nat, string>)
    requires slots != []
    ensures ContentsOf(slots, heap)[1..] == ContentsOf(slots[1..], heap)
  {
  }

  lemma ContentsRemove(slots: seq<Slot>, heap: map<nat, string>)
    requires Owned(slots, heap) && slots != []
    ensures ContentsOf(slots[1..], heap - {slots[0].topic} - {slots[0].payload})
            == ContentsOf(slots, heap)[1..]
  {
    hide Addresses, Distinct, ContentsOf;
    HeadIsSeparate(slots);
    forall a | a in Addresses(slots[1..]) ensures a in heap {
      TailAddresses(slots, a);
      assert a in heap.Keys;
    }
    ContentsAfterRelease(slots[1..], heap, slots[0].topic, slots[0].payload);
    ContentsTail(slots, heap);
  }

  class TransportQueue {
    var slots: seq<Slot>
    /** Live allocations made by this module, with what they hold. */
    var heap: map<nat, string>
    ghost var allocations: nat
    ghost var releases: nat

    ghost predicate Valid()
      reads this
    {
      Owned(slots, heap) && |slots| <= QUEUE_LENGTH && Balanced()
    }

    /** Every allocation is either live or has been released, once. */
    ghost predicate Balanced()
      reads this
    {
      allocations == releases + |heap|
    }

    ghost function Contents(): (r: seq<Message>)
      reads this
      ensures |r| == |slots|
    {
      ContentsOf(slots, heap)
    }

    constructor ()
      ensures Valid() && Contents() == []
    {
      slots, heap := [], map[];
      allocations, releases := 0, 0;
    }

    /** `grant` is the allocator's answer: an address that is not live, or none. */
    method Malloc(content: string, grant: Option<nat>)
      requires grant.Some? ==> grant.value !in heap
      requires Balanced()
      modifies this`heap, this`allocations
      ensures heap == if grant.Some? then old(heap)[grant.value := content] else old(heap)
      ensures Balanced()
    {
      if grant.Some? {
        assert heap[grant.value := content].Keys == heap.Keys + {grant.value};
        heap := heap[grant.value := content];
        allocations := allocations + 1;
      }
    }

    /** Only a live address may be freed. */
    method Free(address: nat)
      requires address in heap && Balanced()
      modifies this`heap, this`releases
      ensures heap == old(heap) - {address} && Balanced()
    {
      assert (heap - {address}).Keys == heap.Keys - {address};
      heap := heap - {address};
      releases := releases + 1;
    }

    /** A message is queued exactly if both strings are given, both buffers are granted and
        there is room; on each of the failure paths the queue and the live allocations are
        as before. */
    method Add(topic: Option<string>, payload: Option<string>, qos: nat,
               topicGrant: Option<nat>, payloadGrant: Option<nat>) returns (err: int)
      requires Valid()
      requires topicGrant.Some? ==> topicGrant.value !in heap
      requires payloadGrant.Some? ==> payloadGrant.value !in heap && payloadGrant != topicGrant
      modifies this
      ensures Valid()
      ensures err == 0 <==> topic.Some? && payload.Some? && topicGrant.Some? && payloadGrant.Some?
                            && |old(Contents())| < QUEUE_LENGTH
      ensures err == -EINVAL <==> topic.None? || payload.None?
      ensures err == 0 ==>
                Contents() == old(Contents()) + [Message(topic.value, payload.value, qos)]
      ensures err != 0 ==> slots == old(slots) && heap == old(heap)
    {
      hide Owned, ContentsOf;
      if topic.None? {
        return -EINVAL;
      }
      if payload.None? {
        return -EINVAL;
      }
      Malloc(topic.value, topicGrant);
      if topicGrant.None? {
        return -1;
      }
      var t := topicGrant.value;
      Malloc(payload.value, payloadGrant);
      if payloadGrant.None? {
        Free(t);
        assert heap == old(heap);
        return -1;
      }
      var p := payloadGrant.value;
      if |slots| == QUEUE_LENGTH {
        Free(t);
        Free(p);
        assert heap == old(heap);
        return -1;
      }
      OwnedAppend(slots, old(heap), Slot(t, p, qos), topic.value, payload.value);
      slots := slots + [Slot(t, p, qos)];
      return 0;
    }

    method Pending() returns (n: nat)
      ensures n == |Contents()|
    {
      n := |slots|;
    }

    method Peek() returns (m: Option<Message>)
      requires Valid()
      ensures m == if Contents() == [] then None else Some(Contents()[0])
    {
      if slots == [] {
        return None;
      }
      OwnedRemove(slots, heap);
      m := Some(Message(heap[slots[0].topic], heap[slots[0].payload], slots[0].qos));
    }

    method Remove() returns (err: int)
      requires Valid()
      modifies this
      ensures Valid()
      ensures err == if old(Contents()) == [] then -1 else 0
      ensures Contents() == if old(Contents()) == [] then [] else old(Contents())[1..]
    {
      hide Owned, ContentsOf;
      if slots == [] {
        return -1;
      }
      var s := slots[0];
      OwnedRemove(slots, heap);
      ContentsRemove(slots, heap);
      slots := slots[1..];
      Free(s.topic);
      Free(s.payload);
      return 0;
    }

    /** Clearing releases every buffer: nothing stays live. */
    method Clear()
      requires Valid()
      modifies this
      ensures Valid() && Contents() == [] && heap == map[] && releases == allocations
    {
      var err := 0;
      while err == 0
        invariant Valid()
        invariant err != 0 ==> Contents() == []
        decreases |slots|, if err == 0 then 1 else 0
      {
        err := Remove();
      }
      assert Addresses(slots) == [];
      assert heap.Keys == {};
    }
  }
}
