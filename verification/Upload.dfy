/**
 * The upload path: one message is written once into a shared buffer and then sealed and sent
 * anew for every subscriber, who differ in the destination byte only.
 */
module Upload {
  import opened Crc
  import opened Frames

  /** A node of the send list; one without a send function is passed over. */
  datatype Subscriber = Subscriber(remoteId: Octet, connected: bool, answer: int)

  datatype Delivery = Delivery(to: Subscriber, frame: seq<Octet>)

  /** What a run over the send list hands to the subscribers, in list order. */
  function Deliveries(list: seq<Subscriber>, a: Fields, payload: seq<Octet>): seq<Delivery> {
    if list == [] then []
    else
      var s := list[|list| - 1];
      Deliveries(list[..|list| - 1], a, payload) +
      if s.connected then [Delivery(s, Package(a.(destId := s.remoteId), payload))] else []
  }

  /** The return value: the answer of the last subscriber served. */
  function LastAnswer(list: seq<Subscriber>): int {
    if list == [] then 0
    else if list[|list| - 1].connected then list[|list| - 1].answer
    else LastAnswer(list[..|list| - 1])
  }

  /** Every delivered frame is accepted by both receivers and carries the subscriber's address and the one message. */
  lemma {:induction false} DeliveriesAccepted(list: seq<Subscriber>, a: Fields, payload: seq<Octet>)
    requires |payload| + NO_PAYLOAD_SIZE < PAYLOAD_LIMIT
    ensures forall d :: d in Deliveries(list, a, payload) ==>
              && d.to in list && d.to.connected && AlinkAccepts(d.frame) && EthAccepts(d.frame)
              && FieldsOf(d.frame) == a.(destId := d.to.remoteId) && PayloadOf(d.frame) == payload
  {
    hide AlinkAccepts, EthAccepts, Package;
    if list != [] {
      var s := list[|list| - 1];
      DeliveriesAccepted(list[..|list| - 1], a, payload);
      var f := Package(a.(destId := s.remoteId), payload);
      PackageIsAccepted(a.(destId := s.remoteId), payload);
      ChecksAgree(f);
    }
  }

  /** Every connected subscriber is served, as often as it stands in the list. */
  lemma {:induction false} EverySubscriberServed(list: seq<Subscriber>, a: Fields, payload: seq<Octet>, s: Subscriber)
    requires s in list && s.connected
    ensures exists d :: d in Deliveries(list, a, payload) && d.to == s
  {
    hide Package;
    var k := |list| - 1;
    if list[k] == s {
      assert Delivery(s, Package(a.(destId := s.remoteId), payload)) in Deliveries(list, a, payload);
    } else {
      assert s in list[..k];
      EverySubscriberServed(list[..k], a, payload, s);
      var d :| d in Deliveries(list[..k], a, payload) && d.to == s;
      assert d in Deliveries(list, a, payload);
    }
  }

  /** One more subscriber at the end of the list. */
  lemma ServedNext(list: seq<Subscriber>, k: nat, a: Fields, payload: seq<Octet>)
    requires k < |list|
    ensures Deliveries(list[..k + 1], a, payload) == Deliveries(list[..k], a, payload) +
              if list[k].connected then [Delivery(list[k], Package(a.(destId := list[k].remoteId), payload))] else []
    ensures LastAnswer(list[..k + 1]) == if list[k].connected then list[k].answer else LastAnswer(list[..k])
  {
    hide Package;
    assert list[..k + 1][..k] == list[..k];
  }

  lemma NobodyServed(a: Fields, payload: seq<Octet>)
    ensures Deliveries([], a, payload) == [] && LastAnswer([]) == 0
  {
  }

  class AlinkUpload {
    var byReq: Octet
    const devId: Octet
    const buffer: array<Octet>

    constructor (devId: Octet, buffer: array<Octet>)
      ensures byReq == 0 && this.devId == devId && this.buffer == buffer
    {
      byReq := 0;
      this.devId := devId;
      this.buffer := buffer;
    }

    /** The buffer holds the message; destination, header checksum and trailer are still open. */
    ghost predicate Prepared(a: Fields, payload: seq<Octet>)
      reads buffer
    {
      && |payload| + NO_PAYLOAD_SIZE <= buffer.Length
      && buffer[..4] == Head(a, |payload|)[..4]
      && buffer[5..CHECKSUM_LEN] == Head(a, |payload|)[5..]
      && buffer[HEADER_SIZE..HEADER_SIZE + |payload|] == payload
    }

    /** The header's fixed fields, in the order in which they are assigned. */
    method Prepare(a: Fields, ghost payload: seq<Octet>, len: nat)
      requires len == |payload| && len + NO_PAYLOAD_SIZE <= buffer.Length
      requires buffer[HEADER_SIZE..HEADER_SIZE + len] == payload
      modifies buffer
      ensures Prepared(a, payload)
    {
      buffer[0] := MAGIC;
      buffer[1] := LengthLow(len);
      buffer[2] := LengthHigh(len);
      buffer[5] := a.sourceId;
      buffer[3] := a.seqNo;
      buffer[6] := a.msgId;
      buffer[7] := a.ans;
      assert buffer[HEADER_SIZE..HEADER_SIZE + len] == payload;
    }

    /** Stands for the message's own task, which writes behind the header. */
    method WritePayload(payload: seq<Octet>)
      requires |payload| + NO_PAYLOAD_SIZE <= buffer.Length
      modifies buffer
      ensures buffer[HEADER_SIZE..HEADER_SIZE + |payload|] == payload
    {
      forall i | 0 <= i < |payload| {
        buffer[HEADER_SIZE + i] := payload[i];
      }
    }

    /** Addresses the prepared message to one subscriber and seals it. */
    method Address(a: Fields, ghost payload: seq<Octet>, len: nat, remoteId: Octet)
      requires len == |payload| && Prepared(a, payload) && buffer.Length < PAYLOAD_LIMIT
      modifies buffer
      ensures Prepared(a, payload)
      ensures buffer[..len + NO_PAYLOAD_SIZE] == Package(a.(destId := remoteId), payload)
    {
      hide Sealed, SumBytes;
      ghost var h := Head(a.(destId := remoteId), len);
      var count := len + NO_PAYLOAD_SIZE;
      buffer[4] := remoteId;
      assert buffer[0..0 + CHECKSUM_LEN] == buffer[..4] + [buffer[4]] + buffer[5..CHECKSUM_LEN];
      assert h == h[..4] + [h[4]] + h[5..];
      var checksum := HeaderChecksum(buffer, 0);
      buffer[8] := checksum;
      assert buffer[..CHECKSUM_LEN] == buffer[..4] + [buffer[4]] + buffer[5..CHECKSUM_LEN] == h;
      assert buffer[..HEADER_SIZE] == buffer[..CHECKSUM_LEN] + [buffer[CHECKSUM_LEN]];
      assert buffer[HEADER_SIZE..HEADER_SIZE + len] == payload;
      assert buffer[..count - 2] == buffer[..HEADER_SIZE] + buffer[HEADER_SIZE..HEADER_SIZE + len];
      ghost var body := buffer[..count - 2];
      SealInPlace(buffer, count, Covered(count));
      assert buffer[..count - 2] == buffer[..count][..count - 2] == body;
      assert buffer[..4] == body[..4] && buffer[5..CHECKSUM_LEN] == body[5..CHECKSUM_LEN];
      assert buffer[HEADER_SIZE..HEADER_SIZE + len] == body[HEADER_SIZE..HEADER_SIZE + len];
    }

    /**
     * Sends one message to the whole list. The payload is what the message's own task writes
     * behind the header; the subscribers' answers come from outside. One sequence number is
     * used up per message, however many subscribers there are.
     */
    method SendPackage(msgId: Octet, ans: Octet, payload: seq<Octet>, list: seq<Subscriber>)
      returns (sent: seq<Delivery>, ret: int)
      requires |payload| + NO_PAYLOAD_SIZE <= buffer.Length < PAYLOAD_LIMIT
      modifies this`byReq, buffer
      ensures sent == Deliveries(list, Fields(old(byReq), 0, devId, msgId, ans), payload)
      ensures ret == LastAnswer(list)
      ensures byReq == if list == [] then old(byReq) else (old(byReq) + 1) % 256
    {
      hide Package, Prepared, Deliveries, LastAnswer;
      NobodyServed(Fields(byReq, 0, devId, msgId, ans), payload);
      sent, ret := [], 0;
      assert list[..0] == [];
      if list == [] {
        return;
      }
      var len := |payload|;
      WritePayload(payload);
      var a := Fields(byReq, 0, devId, msgId, ans);
      Prepare(a, payload, len);
      byReq := (byReq + 1) % 256;
      var k := 0;
      while k < |list|
        invariant 0 <= k <= |list| && Prepared(a, payload) && byReq == (old(byReq) + 1) % 256
        invariant sent == Deliveries(list[..k], a, payload) && ret == LastAnswer(list[..k])
      {
        ServedNext(list, k, a, payload);
        if list[k].connected {
          Address(a, payload, len, list[k].remoteId);
          sent := sent + [Delivery(list[k], buffer[..len + NO_PAYLOAD_SIZE])];
          ret := list[k].answer;
        }
        k := k + 1;
      }
      assert list[..k] == list;
    }
  }
}
