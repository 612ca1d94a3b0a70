/** Send slots reserved for the replies still owed. */
module Reservations {
  import opened SeqNumbers
  import opened Protocol
  import opened PeerInvariants
  import opened History

  /** Every issued reply number has an empty send slot waiting for it. */
  ghost predicate Reserved<S, R>(p: Peer<S, R>) {
    forall k :: 0 <= k - (p.nextSend - p.cap) < |p.replies| ==> k !in p.send
  }

  lemma RoomFacts<S, R>(p: Peer<S, R>, reply: Option<int>, i: int)
    requires p.cap > 0 && Fullness(p, reply) == HasRoom && 0 <= i <= |p.replies|
    ensures |p.replies| < p.cap - 2
    ensures !Blocked(p, i, reply)
  {
  }

  /** With the reservations in place the scan comes down to one slot: there is room exactly
      when fewer than capacity - 2 replies are owed and the slot after the reserved ones is
      empty; and waiting for a packet to arrive is only reported when no reply is owed. */
  lemma FullnessCollapses<S, R>(p: Peer<S, R>)
    requires PeerOk(p) && Reserved(p)
    ensures Fullness(p, None) == HasRoom <==>
            |p.replies| < p.cap - 2 && p.nextSend + |p.replies| - p.cap !in p.send
    ensures Fullness(p, None) == NeedRecv ==> |p.replies| == 0
    ensures Fullness(p, None) == NeedReply && p.cap > 2 ==> |p.replies| > 0
  {
    if Fullness(p, None) == HasRoom { RoomFacts(p, None, |p.replies|); }
    if |p.replies| < p.cap - 2 && p.nextSend + |p.replies| - p.cap !in p.send {
      forall i | 0 <= i <= |p.replies|
        ensures !Blocked(p, i, None)
      {
      }
    }
  }

  /** After `WaitingForReply`, acknowledging one issued number makes the next send succeed. */
  lemma AckMakesRoom<S, R>(p: Peer<S, R>, r: int, unlock: bool, at: int, cst: bool, data: S)
    requires PeerOk(p) && Reserved(p)
    requires TrySend(p, at, cst, data).1 == NeedReply && r in p.replies
    ensures TrySend(AckTo(p, r, unlock), at, cst, data).1 == HasRoom
  {
    UnreserveKeeps(p, r, unlock);
    FullnessCollapses(AckTo(p, r, unlock));
  }

  /** Why a packet has to wait. For a reply: one is owed here, or the packet is SeqCst and the
      lock is taken. For another packet to arrive: the send window is full while no reply is
      owed, or the packet is SeqCst and out of turn. */
  lemma WaitReasons<S, R>(p: Peer<S, R>, n: int, msg: Message<R>)
    requires PeerOk(p) && Reserved(p) && p.cap > 2
    ensures var out := Receive(p, Data(n, msg)).1;
      && (out == Refused(WaitingForReply) ==> |p.replies| > 0 || (msg.seqCst && p.locked))
      && (out == Refused(WaitingForRecv) ==>
           || (|p.replies| == 0 && p.nextSend - p.cap in p.send)
           || (msg.seqCst && n != p.nextRecv))
  {
    if Fullness(p, msg.replyNo) == NeedRecv {
      assert Blocked(p, 0, msg.replyNo);
    }
  }

  /** The slot the reply number `r` points at holds another packet, and is one of the slots
      that delivering one more packet reserves. */
  ghost predicate WrongOccupant<S, R>(p: Peer<S, R>, r: int)
    requires p.cap > 0
  {
    exists k :: k in p.send && k != r && k % p.cap == r % p.cap && 0 <= k - (p.nextSend - p.cap) <= |p.replies|
  }

  /** Delivering a packet reserves a slot for its answer, exactly unless the packet is a
      reply pointing at a slot that another packet occupies. */
  lemma DeliveryReservesIff<S, R>(p: Peer<S, R>, q: Peer<S, R>, first: int, n: int, msg: Message<R>)
    requires PeerOk(p) && Takes(p, q, first, n, msg)
    ensures Reserved(q) <==> !(msg.replyNo.Some? && WrongOccupant(p, msg.replyNo.value))
  {
    var lo := p.nextSend - p.cap;
    forall k | 0 <= k - lo <= |p.replies| && k in p.send
      ensures msg.replyNo.Some? && k % p.cap == msg.replyNo.value % p.cap
    {
      RoomFacts(p, msg.replyNo, k - lo);
      var r := msg.replyNo.value;
      var c := (r - (k + p.cap)) / p.cap;
      assert r - (k + p.cap) == c * p.cap + (r - (k + p.cap)) % p.cap;
      assert r == k + (c + 1) * p.cap;
      ModShift(k, c + 1, p.cap);
    }
    if msg.replyNo.Some? && WrongOccupant(p, msg.replyNo.value) {
      var r := msg.replyNo.value;
      var k :| k in p.send && k != r && k % p.cap == r % p.cap && 0 <= k - lo <= |p.replies|;
      assert k in q.send && 0 <= k - (q.nextSend - q.cap) < |q.replies|;
    }
  }

  /** So a reply that finds the packet it answers always leaves the reservations intact. */
  lemma HonestDeliveryReserves<S, R>(p: Peer<S, R>, q: Peer<S, R>, first: int, n: int, msg: Message<R>)
    requires PeerOk(p) && Takes(p, q, first, n, msg)
    requires msg.replyNo.Some? ==> msg.replyNo.value in p.send
    ensures Reserved(q)
  {
    DeliveryReservesIff(p, q, first, n, msg);
    if msg.replyNo.Some? && WrongOccupant(p, msg.replyNo.value) {
      var r := msg.replyNo.value;
      var k :| k in p.send && k != r && k % p.cap == r % p.cap;
      SlotInjective(k, r, p.cap);
    }
  }

  /** The slot of the next number is free for a send that was let in and for an answer to an
      issued number, and the remaining reservations survive. */
  lemma SlotIsFree<S, R>(p: Peer<S, R>, op: Op<S, R>)
    requires PeerOk(p) && Reserved(p) && Apply(p, op).sent.Some?
    ensures p.nextSend - p.cap !in p.send
    ensures Reserved(Apply(p, op).peer)
  {
    if op.DoSend? {
      FullnessCollapses(p);
      RoomFacts(p, None, 0);
    } else {
      UnreserveKeeps(p, op.replyNo, op.unlock);
    }
  }

  /** Operations that neither send nor deliver keep the reservations. */
  lemma OthersReserve<S, R>(p: Peer<S, R>, op: Op<S, R>)
    requires PeerOk(p) && Reserved(p) && Apply(p, op).sent.None?
    requires Deliveries(Apply(p, op).outcome) == []
    ensures Reserved(Apply(p, op).peer)
  {
    match op
    case DoAck(r, unlock) => UnreserveKeeps(p, r, unlock);
    case DoReceive(frame) => if frame.Data? { ReceiveCases(p, p.nextRecv, frame.seqNo, frame.msg); }
    case DoPumpOnce => PumpCases(p, p.nextRecv);
    case _ =>
  }
}
