/** Why 32-bit numbers are enough between two peers: whatever the length of the run, the
    numbers an engine has to tell apart stay close enough together. */
module Fidelity {
  import opened SeqNumbers
  import opened PeerInvariants
  import opened Rings
  import opened History
  import opened TwoPeers
  import opened Exchange
  import opened Engine
  import P = Protocol

  /** What the engine's methods ask of the state hold in every reachable state: an issued
      number lies within one capacity behind the next to receive, and a stored undelivered
      reply answers a packet still in the send window. */
  lemma EngineContractHolds<D(!new)>(x: Node<D, D>, y: Node<D, D>, c: int, n: int)
    requires Reachable(x, y)
    ensures c in x.peer.replies ==> x.peer.nextRecv - x.peer.cap <= c < x.peer.nextRecv + x.peer.cap
    ensures n in x.peer.recv && x.peer.recv[n].Occupied? && x.peer.recv[n].msg.replyNo.Some? ==>
              x.peer.nextSend - x.peer.cap <= x.peer.recv[n].msg.replyNo.value < x.peer.nextSend
  {
    ReachableGood(x, y);
    if c in x.peer.replies {
      assert Has(x, c) && c in y.sent;
      assert c in y.peer.send || Settled(y, x, c);
      WindowsOverlap(x, y);
    }
    if n in x.peer.recv && x.peer.recv[n].Occupied? && x.peer.recv[n].msg.replyNo.Some? {
      assert !Has(x, n);
      ReplyFindsItsPacket(x, y, n);
    }
  }

  lemma SameSlotSameRoom<S, R>(p: P.Peer<S, R>, r: int, r': int)
    requires p.cap > 0 && r % p.cap == r' % p.cap
    ensures P.Fullness(p, P.Some(r)) == P.Fullness(p, P.Some(r'))
  {
    forall i
      ensures P.Blocked(p, i, P.Some(r)) <==> P.Blocked(p, i, P.Some(r'))
    {
      SameSlot(r, p.nextSend + i, p.cap);
      SameSlot(r', p.nextSend + i, p.cap);
    }
  }

  /** A packet that arrives within 2^31 numbers of the state it meets. */
  ghost predicate Recent<S, R>(p: P.Peer<S, R>, frame: P.Frame<R>) {
    match frame
    case Data(n, _) => p.nextRecv - HALF <= n
    case Ack(r) => p.nextSend - HALF <= r < p.nextSend + HALF
  }

  lemma LiftFrame<D>(frame: P.Frame<D>, nextSend: int, nextRecv: int)
    ensures var back := LiftPacket(WrapFrame(frame), nextSend, nextRecv);
      match frame
      case Ack(r) => back == P.Ack(Lift(Wrap(r), nextSend))
      case Data(n, m) =>
        back == P.Data(Lift(Wrap(n), nextRecv), m.(replyNo := LiftNo(WrapNo(m.replyNo), nextSend)))
  {
    hide Lift, Wrap;
  }

  /** A reply number that comes back changed keeps its slot. */
  lemma LiftKeepsSlot(r: int, base: int, cap: int)
    requires GoodCap(cap)
    ensures Lift(Wrap(r), base) % cap == r % cap
  {
    WrapOfLift(Wrap(r), base);
    WrapKeepsSlot(r, cap);
    WrapKeepsSlot(Lift(Wrap(r), base), cap);
  }

  /** A data packet whose reply number was misread has the same effect, when it is a copy of
      a packet delivered before. */
  lemma OldReplyNumber<S, R>(p: P.Peer<S, R>, n: int, msg: P.Message<R>, msg': P.Message<R>)
    requires PeerOk(p) && n < p.nextRecv + p.cap
    requires n < p.nextRecv || (n in p.recv && p.recv[n].Unlocked? && !Redelivers(p, P.Data(n, msg)))
    requires msg' == msg.(replyNo := msg'.replyNo) && (msg.replyNo.Some? <==> msg'.replyNo.Some?)
    requires msg.replyNo.Some? ==> msg.replyNo.value % p.cap == msg'.replyNo.value % p.cap
    ensures P.Receive(p, P.Data(n, msg')) == P.Receive(p, P.Data(n, msg))
  {
    if n >= p.nextRecv && msg.replyNo.Some? {
      SameSlotSameRoom(p, msg.replyNo.value, msg'.replyNo.value);
    }
  }

  /** A packet sent as 32-bit numbers and read back by the other peer does there exactly what
      the packet itself would, in every reachable state, as long as no copy is more than 2^31
      numbers old; and the receiver's answer is the wrapped one, except that a repeated ack is
      held back when a pending reply's number happens to have the same 32 bits. */
  lemma WireFidelity<D(!new)>(x: Node<D, D>, y: Node<D, D>, frame: P.Frame<D>)
    requires Reachable(x, y) && GoodCap(x.peer.cap)
    requires Enabled(x, y, P.DoReceive(frame)) && Recent(x.peer, frame)
    ensures var back := LiftPacket(WrapFrame(frame), x.peer.nextSend, x.peer.nextRecv);
      && P.Receive(x.peer, back) == P.Receive(x.peer, frame)
      && (ReceiveOutcome(x.peer, back) == WrapOutcome(P.Receive(x.peer, frame).1)
          <==> !(frame.Data? && frame.seqNo < x.peer.nextRecv
                 && AliasPending(x.peer, frame.seqNo) && !P.AnswerPending(x.peer, frame.seqNo)))
  {
    hide Bounded, AnswersOk, Agree, Lift, Wrap, P.Receive, ReceiveOutcome, AliasPending, P.AnswerPending, Books;
    ReachableGood(x, y);
    LiftFrame(frame, x.peer.nextSend, x.peer.nextRecv);
    AliasDecides(x.peer, frame);
    match frame
    case Ack(r) => LiftOfWrap(r, x.peer.nextSend);
    case Data(n, msg) =>
      ArrivalInReach(x, y, n, msg);
      DataFidelity(x, y, n, msg);
      AliasDecides(x.peer, P.Data(n, msg.(replyNo := LiftNo(WrapNo(msg.replyNo), x.peer.nextSend))));
  }

  lemma ArrivalInReach<D>(x: Node<D, D>, y: Node<D, D>, n: int, msg: P.Message<D>)
    requires Inv(x, y) && GoodCap(x.peer.cap) && P.Data(n, msg) in y.out && x.peer.nextRecv - HALF <= n
    ensures n < x.peer.nextRecv + x.peer.cap && Lift(Wrap(n), x.peer.nextRecv) == n
  {
    hide Bounded, AnswersOk;
    WindowsOverlap(x, y);
    LiftOfWrap(n, x.peer.nextRecv);
  }

  lemma DataFidelity<D(!new)>(x: Node<D, D>, y: Node<D, D>, n: int, msg: P.Message<D>)
    requires Inv(x, y) && GoodCap(x.peer.cap) && n < x.peer.nextRecv + x.peer.cap
    requires P.Data(n, msg) in y.out && !Redelivers(x.peer, P.Data(n, msg))
    ensures P.Receive(x.peer, P.Data(n, msg.(replyNo := LiftNo(WrapNo(msg.replyNo), x.peer.nextSend))))
            == P.Receive(x.peer, P.Data(n, msg))
  {
    if msg.replyNo.Some? {
      var r := msg.replyNo.value;
      if Has(x, n) {
        LiftKeepsSlot(r, x.peer.nextSend, x.peer.cap);
        OldReplyNumber(x.peer, n, msg, msg.(replyNo := LiftNo(WrapNo(msg.replyNo), x.peer.nextSend)));
      } else {
        ReplyFindsItsPacket(x, y, n);
        LiftOfWrap(r, x.peer.nextSend);
      }
    }
  }

  /** The engine's outcome differs from the protocol's exactly when a below-range packet only
      seems to have an answer pending. */
  lemma AliasDecides<S, R>(p: P.Peer<S, R>, frame: P.Frame<R>)
    requires p.cap > 0
    ensures ReceiveOutcome(p, frame) == WrapOutcome(P.Receive(p, frame).1) <==>
      !(frame.Data? && frame.seqNo < p.nextRecv && AliasPending(p, frame.seqNo) && !P.AnswerPending(p, frame.seqNo))
    ensures frame.Data? && P.AnswerPending(p, frame.seqNo) ==> AliasPending(p, frame.seqNo)
  {
    hide Wrap;
  }

  /** By 32 bits an answer to n seems pending exactly if one to a number with the same 32 bits
      is; which of the two repeated packets gets is decided by that alone. */
  lemma AliasPendingIff<S, R>(p: P.Peer<S, R>, n: int)
    requires p.cap > 0
    ensures AliasPending(p, n) <==> exists m :: P.AnswerPending(p, m) && Wrap(m) == Wrap(n)
    ensures n < p.nextRecv ==>
              forall msg: P.Message<R> :: ReceiveOutcome(p, P.Data(n, msg)) == P.Refused(
                if exists m :: P.AnswerPending(p, m) && Wrap(m) == Wrap(n) then P.DroppedDuplicate
                else P.DroppedDuplicateResendAck(Wrap(n)))
  {
    hide Wrap;
    if m :| P.AnswerPending(p, m) && Wrap(m) == Wrap(n) {
      if m !in p.replies {
        var k :| k in p.send && p.send[k].msg.replyNo == P.Some(m);
        assert WrapNo(p.send[k].msg.replyNo) == P.Some(Wrap(n));
      }
    }
    if AliasPending(p, n) {
      if c :| c in p.replies && Wrap(c) == Wrap(n) {
        assert P.AnswerPending(p, c);
      } else {
        var k :| k in p.send && WrapNo(p.send[k].msg.replyNo) == P.Some(Wrap(n));
        assert P.AnswerPending(p, p.send[k].msg.replyNo.value);
      }
    }
  }
}
