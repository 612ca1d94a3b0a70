/** A peer together with everything that ever happened to it. */
module History {
  import opened Protocol
  import opened PeerInvariants

  /** How a delivered packet was answered. */
  datatype Answer = ByAck | ByReply(seqNo: int)

  datatype Delivery = Delivery(seqNo: int, seqCst: bool)

  /** The data the application gave to sends and replies; what of it went into the window;
      what a refused send handed straight back; and what acks and replies handed back later. */
  datatype Accounts<S> = Accounts(
    offered: multiset<S>,
    accepted: multiset<S>,
    refused: multiset<S>,
    returned: multiset<S>)

  datatype Node<S, R> = Node(
    peer: Peer<S, R>,
    first: int,
    log: seq<Delivery>,
    sent: map<int, Message<S>>,
    answer: map<int, Answer>,
    out: set<Frame<S>>,
    books: Accounts<S>)

  ghost function Start<S, R>(cap: int, first: int, never: int): Node<S, R> {
    Node(Initial(cap, first, never), first, [], map[], map[], {},
         Accounts(multiset{}, multiset{}, multiset{}, multiset{}))
  }

  ghost function Deliveries<S, R>(outcome: Option<Outcome<int, S, R>>): seq<Delivery> {
    if outcome.Some? && outcome.value.Delivered? && !outcome.value.ok.Acked? then
      [Delivery(outcome.value.ok.replyNo, outcome.value.ok.seqCst)]
    else []
  }

  ghost function Returned<S, R>(outcome: Option<Outcome<int, S, R>>): multiset<S> {
    if outcome.Some? && outcome.value.Delivered? && !outcome.value.ok.Payload? then
      multiset{outcome.value.ok.sendData}
    else multiset{}
  }

  ghost function Given<S, R>(op: Op<S, R>): multiset<S> {
    if op.DoSend? || op.DoReply? then multiset{op.data} else multiset{}
  }

  ghost function Booked<S, R>(books: Accounts<S>, op: Op<S, R>, e: Effect<S, R>): Accounts<S> {
    Accounts(
      books.offered + Given(op),
      if e.sent.Some? then books.accepted + multiset{e.sent.value.data} else books.accepted,
      if op.DoSend? && e.sent.None? then books.refused + multiset{op.data} else books.refused,
      books.returned + Returned(e.outcome))
  }

  ghost function Answers<S, R>(x: Node<S, R>, op: Op<S, R>): map<int, Answer> {
    match op
    case DoReply(_, r, _, _, _) => if r in x.peer.replies then x.answer[r := ByReply(x.peer.nextSend)] else x.answer
    case DoAck(r, _) => if r in x.peer.replies then x.answer[r := ByAck] else x.answer
    case _ => x.answer
  }

  ghost function Record<S, R>(x: Node<S, R>, op: Op<S, R>): Node<S, R>
    requires x.peer.cap > 0
  {
    var e := Apply(x.peer, op);
    Node(e.peer, x.first,
         x.log + Deliveries(e.outcome),
         if e.sent.Some? then x.sent[x.peer.nextSend := e.sent.value] else x.sent,
         Answers(x, op),
         x.out + e.emitted,
         Booked(x.books, op, e))
  }

  /** The branch that delivers a packet a second time: its slot already says delivered,
      and it is let through. */
  ghost predicate Redelivers<S, R>(p: Peer<S, R>, frame: Frame<R>)
    requires p.cap > 0
  {
    && frame.Data?
    && frame.seqNo in p.recv && p.recv[frame.seqNo].Unlocked?
    && Gate(p, frame.seqNo, frame.msg) == HasRoom
  }

  /** The step from `p` to `q` delivers number `n`, which carries `msg`, and nothing else. */
  ghost predicate Takes<S, R>(p: Peer<S, R>, q: Peer<S, R>, first: int, n: int, msg: Message<R>)
    requires p.cap > 0
  {
    && q.cap == p.cap && q.nextSend == p.nextSend
    && (forall m :: WasDelivered(q, first, m) <==> m == n || WasDelivered(p, first, m))
    && (forall k :: k in q.recv ==>
         (k in p.recv && q.recv[k] == p.recv[k]) || (k == n && q.recv[k].Unlocked? && !msg.seqCst))
    && q.replies == p.replies + multiset{n}
    && q.send == (if msg.replyNo.Some? then p.send - {msg.replyNo.value} else p.send)
    && Fullness(p, msg.replyNo) == HasRoom
    && (msg.seqCst ==> n == p.nextRecv && !p.locked)
    && q.locked == (p.locked || msg.seqCst)
    && (n == p.nextRecv ==> q.nextRecv > n)
  }

  ghost function OutcomeOf<S, R>(p: Peer<S, R>, msg: Message<R>, n: int, doPump: bool): Outcome<int, S, R> {
    Delivered(
      if msg.replyNo.Some? && msg.replyNo.value in p.send
      then Reply(n, msg.seqCst, msg.data, p.send[msg.replyNo.value].msg.data)
      else Payload(n, msg.seqCst, msg.data), doPump)
  }

  /** Receiving a data packet delivers it, or stores it, or changes nothing. */
  lemma ReceiveCases<S, R>(p: Peer<S, R>, first: int, n: int, msg: Message<R>)
    requires PeerOk(p) && first <= p.nextRecv
    ensures var (q, out) := Receive(p, Data(n, msg));
      if out.Delivered? then
        && Takes(p, q, first, n, msg) && out == OutcomeOf(p, msg, n, out.doPump)
        && (WasDelivered(p, first, n) <==> Redelivers(p, Data(n, msg)))
      else
        || q == p
        || (n !in p.recv && p.nextRecv <= n < p.nextRecv + p.cap && q == p.(recv := p.recv[n := Occupied(msg)]))
  {
    AdvanceKeeps(p, first);
  }

  lemma PumpCases<S, R>(p: Peer<S, R>, first: int)
    requires PeerOk(p) && first <= p.nextRecv
    ensures var (q, out) := Pump(p);
      if out.Delivered? then
        && p.nextRecv in p.recv && p.recv[p.nextRecv].Occupied?
        && Takes(p, q, first, p.nextRecv, p.recv[p.nextRecv].msg)
        && out == OutcomeOf(p, p.recv[p.nextRecv].msg, p.nextRecv, out.doPump)
      else q == p
  {
    AdvanceKeeps(p, first);
  }

  /** A pump hands over a data packet, or asks to wait. */
  lemma PumpOutcomes<S, R>(p: Peer<S, R>)
    requires p.cap > 0
    ensures match Pump(p).1
      case Delivered(ok, _) => !ok.Acked?
      case Refused(e) => e.WaitingForRecv? || e.WaitingForReply?
  {
  }

  /** A packet told to wait is in the receive window afterwards. */
  lemma WaitingIsStored<S, R>(p: Peer<S, R>, n: int, msg: Message<R>)
    requires PeerOk(p)
    ensures var (q, out) := Receive(p, Data(n, msg));
      out == Refused(WaitingForRecv) || out == Refused(WaitingForReply) ==>
        n in q.recv && (if n in p.recv then q == p else q.recv[n] == Occupied(msg))
  {
  }

  /** A stored packet stays, with its content, until the operation that delivers it. */
  lemma StoredUntilDelivered<S, R>(p: Peer<S, R>, op: Op<S, R>, n: int)
    requires PeerOk(p) && n in p.recv && p.recv[n].Occupied?
    ensures var q, ds := Apply(p, op).peer, Deliveries(Apply(p, op).outcome);
      (n in q.recv && q.recv[n] == p.recv[n]) || (ds != [] && ds[0].seqNo == n)
  {
    match op
    case DoReceive(frame) => if frame.Data? { ReceiveStores(p, frame.seqNo, frame.msg, n); }
    case DoPumpOnce => PumpStores(p, n);
    case _ =>
  }

  lemma ReceiveStores<S, R>(p: Peer<S, R>, m: int, msg: Message<R>, n: int)
    requires PeerOk(p) && n in p.recv && p.recv[n].Occupied?
    ensures var (q, out) := Receive(p, Data(m, msg));
      (n in q.recv && q.recv[n] == p.recv[n]) || (out.Delivered? && !out.ok.Acked? && out.ok.replyNo == n)
  {
    if n != p.nextRecv { AdvanceStores(p, n); }
  }

  lemma PumpStores<S, R>(p: Peer<S, R>, n: int)
    requires PeerOk(p) && n in p.recv && p.recv[n].Occupied?
    ensures var (q, out) := Pump(p);
      (n in q.recv && q.recv[n] == p.recv[n]) || (out.Delivered? && !out.ok.Acked? && out.ok.replyNo == n)
  {
    if n != p.nextRecv { AdvanceStores(p, n); }
  }

  lemma AdvanceStores<S, R>(p: Peer<S, R>, n: int)
    requires PeerOk(p) && n in p.recv && p.recv[n].Occupied? && n != p.nextRecv
    ensures n in Advance(p).recv && Advance(p).recv[n] == p.recv[n]
  {
    var p1 := p.(recv := p.recv - {p.nextRecv}, nextRecv := p.nextRecv + 1);
    FastForwardSkips(p1, p1.nextRecv);
    assert n in p1.recv;
  }
}
