/** Two peers and a network that may lose, repeat and reorder: every packet ever sent
    stays available, and a receive step picks any of them, any number of times. */
module TwoPeers {
  import opened Protocol
  import opened PeerInvariants
  import opened History
  import opened Delivering
  import opened Reservations

  ghost predicate Has<S, R>(x: Node<S, R>, n: int) { WasDelivered(x.peer, x.first, n) }

  /** What one peer's own books say. */
  ghost predicate NodeOk<D>(x: Node<D, D>) {
    && PeerOk(x.peer) && x.first <= x.peer.nextRecv && x.first <= x.peer.nextSend
    && (forall n :: n in x.sent <==> x.first <= n < x.peer.nextSend)
    && (forall k :: k in x.peer.send ==> k in x.sent && x.peer.send[k].msg == x.sent[k])
    && (forall f :: f in x.out && f.Data? ==> f.seqNo in x.sent && x.sent[f.seqNo] == f.msg)
    && (forall n :: n in x.sent ==> Data(n, x.sent[n]) in x.out)
    && AnswersOk(x)
    && Reserved(x.peer)
  }

  /** Each delivered number is pending or answered, never both; the answers are exactly
      the acks and replies sent. */
  ghost predicate AnswersOk<D>(x: Node<D, D>) {
    && (forall r :: Has(x, r) <==> r in x.peer.replies || r in x.answer)
    && (forall r :: r in x.peer.replies ==> x.peer.replies[r] == 1 && r !in x.answer)
    && (forall r :: r in x.answer ==>
         match x.answer[r]
         case ByAck => Ack(r) in x.out
         case ByReply(s) => s in x.sent && x.sent[s].replyNo == Some(r))
    && (forall s :: s in x.sent && x.sent[s].replyNo.Some? ==>
         x.sent[s].replyNo.value in x.answer && x.answer[x.sent[s].replyNo.value] == ByReply(s))
  }

  /** Number r of x is answered at y, and if by a reply, that reply reached x. */
  ghost predicate Settled<D>(x: Node<D, D>, y: Node<D, D>, r: int) {
    && r in y.answer
    && (y.answer[r].ByReply? ==> Has(x, y.answer[r].seqNo))
  }

  /** What y knows of the packets of x, and x of y's answers to them. */
  ghost predicate Agree<D>(x: Node<D, D>, y: Node<D, D>) {
    && (forall n :: Has(y, n) ==> n in x.sent)
    && (forall n :: n in y.peer.recv ==>
         n in x.sent && (if y.peer.recv[n].Occupied? then y.peer.recv[n].msg == x.sent[n] else !x.sent[n].seqCst))
    && (forall r :: Ack(r) in y.out ==> Settled(x, y, r))
    && (forall r :: r in x.sent && r !in x.peer.send ==> Settled(x, y, r))
    && (forall s :: s in y.sent && Has(x, s) && y.sent[s].replyNo.Some? ==>
         y.sent[s].replyNo.value !in x.peer.send)
  }

  ghost predicate Inv<D>(x: Node<D, D>, y: Node<D, D>) {
    && NodeOk(x) && NodeOk(y) && Agree(x, y) && Agree(y, x)
    && x.peer.cap == y.peer.cap && x.first == y.first
  }

  lemma InvSymmetric<D>(x: Node<D, D>, y: Node<D, D>)
    ensures Inv(x, y) <==> Inv(y, x)
  {
  }

  /** x may take a packet only from what y sent. */
  ghost predicate Arrives<D>(x: Node<D, D>, y: Node<D, D>, op: Op<D, D>) {
    op.DoReceive? ==> op.frame in y.out
  }

  /** Besides, it is not one that x would deliver a second time. */
  ghost predicate Enabled<D>(x: Node<D, D>, y: Node<D, D>, op: Op<D, D>)
    requires x.peer.cap > 0
  {
    Arrives(x, y, op) && (op.DoReceive? ==> !Redelivers(x.peer, op.frame))
  }

  /** A reply that has not been delivered yet always finds the packet it answers. */
  lemma ReplyFindsItsPacket<D>(x: Node<D, D>, y: Node<D, D>, s: int)
    requires Inv(x, y)
    requires s in y.sent && y.sent[s].replyNo.Some? && !Has(x, s)
    ensures y.sent[s].replyNo.value in x.peer.send
  {
    var r := y.sent[s].replyNo.value;
    assert Has(y, r);
    assert r in x.peer.send || Settled(x, y, r);
  }

  // ---- The step cases, each against the three parts of the invariant ----

  /** x' is x with `msg` sent under the next number, answering the packet it replies to. */
  ghost predicate Appends<D>(x: Node<D, D>, x': Node<D, D>, msg: Message<D>) {
    var (p, p', n) := (x.peer, x'.peer, x.peer.nextSend);
    && x'.first == x.first && p'.cap == p.cap && p'.nextRecv == p.nextRecv && p'.recv == p.recv
    && p'.nextSend == n + 1
    && p'.send.Keys == p.send.Keys + {n}
    && p'.send[n].msg == msg && (forall k :: k in p.send && k != n ==> p'.send[k].msg == p.send[k].msg)
    && x'.sent == x.sent[n := msg]
    && x'.out == x.out + {Data(n, msg)}
    && (match msg.replyNo
        case None => p'.replies == p.replies && x'.answer == x.answer
        case Some(r) =>
          r in p.replies && p'.replies == p.replies - multiset{r} && x'.answer == x.answer[r := ByReply(n)])
  }

  /** What sending does to the peer: the message goes into the window of a peer that owes the
      same replies, or one fewer. */
  lemma SendUnfolds<S, R>(p: Peer<S, R>, op: Op<S, R>)
    requires p.cap > 0 && Apply(p, op).sent.Some?
    ensures op.DoSend? || (op.DoReply? && op.replyNo in p.replies)
    ensures Apply(p, op).sent.value.replyNo == if op.DoReply? then Some(op.replyNo) else None
    ensures var q := if op.DoReply? then Unreserve(p, op.replyNo, op.unlock) else p;
      Apply(p, op).peer == Insert(q, op.resendAt, Apply(p, op).sent.value)
    ensures Apply(p, op).emitted == {Data(p.nextSend, Apply(p, op).sent.value)}
  {
    hide Fullness, Insert;
  }

  lemma InsertAppends<D>(x: Node<D, D>, op: Op<D, D>)
    requires NodeOk(x) && Apply(x.peer, op).sent.Some?
    ensures Appends(x, Record(x, op), Apply(x.peer, op).sent.value)
  {
    hide Apply, Insert, AnswersOk, Bounded, Reserved, Booked, Deliveries;
    SlotIsFree(x.peer, op);
    SendUnfolds(x.peer, op);
    var q := if op.DoReply? then Unreserve(x.peer, op.replyNo, op.unlock) else x.peer;
    InsertFacts(q, op.resendAt, Apply(x.peer, op).sent.value);
  }

  lemma InsertFacts<S, R>(p: Peer<S, R>, at: int, msg: Message<S>)
    requires p.nextSend - p.cap !in p.send
    ensures var q := Insert(p, at, msg);
      && q.send.Keys == p.send.Keys + {p.nextSend}
      && q.send[p.nextSend].msg == msg
      && (forall k :: k in p.send && k != p.nextSend ==> q.send[k] == p.send[k])
      && q == p.(nextSend := p.nextSend + 1, send := q.send, nextService := q.nextService)
  {
  }

  lemma AppendsFacts<D>(x: Node<D, D>, x': Node<D, D>, msg: Message<D>)
    requires NodeOk(x) && Appends(x, x', msg)
    ensures x.peer.nextSend !in x.sent && forall n :: Has(x', n) <==> Has(x, n)
  {
    hide Bounded, Reserved, AnswersOk;
  }

  lemma PlainAnswersOk<D>(x: Node<D, D>, x': Node<D, D>, msg: Message<D>)
    requires AnswersOk(x) && Appends(x, x', msg) && msg.replyNo == None
    requires x.peer.nextSend !in x.sent && forall n :: Has(x', n) <==> Has(x, n)
    ensures AnswersOk(x')
  {
    hide Has;
  }

  lemma ReplyAnswersOk<D>(x: Node<D, D>, x': Node<D, D>, msg: Message<D>, r: int)
    requires AnswersOk(x) && Appends(x, x', msg) && msg.replyNo == Some(r)
    requires x.peer.nextSend !in x.sent && forall n :: Has(x', n) <==> Has(x, n)
    ensures AnswersOk(x')
  {
    hide Has;
    forall q | q in x'.answer
      ensures match x'.answer[q]
              case ByAck => Ack(q) in x'.out
              case ByReply(s) => s in x'.sent && x'.sent[s].replyNo == Some(q)
    {
      assert q in x.answer || q == r;
    }
  }

  lemma AppendsAnswersOk<D>(x: Node<D, D>, x': Node<D, D>, msg: Message<D>)
    requires NodeOk(x) && Appends(x, x', msg)
    ensures AnswersOk(x')
  {
    hide Bounded, Reserved, AnswersOk, Has, Appends;
    AppendsFacts(x, x', msg);
    match msg.replyNo
    case None => PlainAnswersOk(x, x', msg);
    case Some(r) => ReplyAnswersOk(x, x', msg, r);
  }

  lemma AppendsNodeOk<D>(x: Node<D, D>, x': Node<D, D>, msg: Message<D>)
    requires NodeOk(x) && Appends(x, x', msg) && PeerOk(x'.peer) && Reserved(x'.peer)
    ensures NodeOk(x')
  {
    hide Reserved, AnswersOk;
    AppendsAnswersOk(x, x', msg);
    assert x.peer.nextSend !in x.sent;
  }

  lemma AppendsAgreeOut<D>(x: Node<D, D>, x': Node<D, D>, y: Node<D, D>, msg: Message<D>)
    requires NodeOk(x) && AnswersOk(y) && Agree(x, y) && Appends(x, x', msg)
    ensures Agree(x', y)
  {
    hide Bounded, Reserved;
    assert forall n :: Has(x', n) <==> Has(x, n);
    assert forall r :: Settled(x, y, r) ==> Settled(x', y, r);
    forall s | s in y.sent && Has(x', s) && y.sent[s].replyNo.Some?
      ensures y.sent[s].replyNo.value !in x'.peer.send
    {
      var r := y.sent[s].replyNo.value;
      assert Has(x, s) && r in y.answer && Has(y, r);
      assert r in x'.peer.send ==> r in x.peer.send || r == x.peer.nextSend;
    }
  }

  lemma SettledStays<D>(x: Node<D, D>, x': Node<D, D>, y: Node<D, D>, msg: Message<D>, r: int)
    requires AnswersOk(x) && Appends(x, x', msg) && Settled(y, x, r)
    ensures Settled(y, x', r)
  {
    assert msg.replyNo == Some(r) ==> r !in x.answer;
  }

  lemma AppendsAgreeIn<D>(x: Node<D, D>, x': Node<D, D>, y: Node<D, D>, msg: Message<D>)
    requires NodeOk(x) && Agree(x, y) && Agree(y, x) && Appends(x, x', msg)
    ensures Agree(y, x')
  {
    hide Bounded, Reserved, AnswersOk;
    assert forall n :: Has(x', n) <==> Has(x, n);
    assert !Has(y, x.peer.nextSend);
    forall r | Settled(y, x, r)
      ensures Settled(y, x', r)
    {
      SettledStays(x, x', y, msg, r);
    }
  }

  // ---- x delivers number n of y ----

  ghost predicate TakesIn<D>(x: Node<D, D>, x': Node<D, D>, n: int, msg: Message<D>)
    requires x.peer.cap > 0
  {
    && Takes(x.peer, x'.peer, x.first, n, msg)
    && x'.first == x.first && x'.sent == x.sent && x'.answer == x.answer && x'.out == x.out
  }

  lemma TakesNodeOk<D>(x: Node<D, D>, x': Node<D, D>, n: int, msg: Message<D>)
    requires NodeOk(x) && TakesIn(x, x', n, msg) && PeerOk(x'.peer) && !Has(x, n)
    requires x.first <= x'.peer.nextRecv
    requires msg.replyNo.Some? ==> msg.replyNo.value in x.peer.send
    ensures NodeOk(x')
  {
    HonestDeliveryReserves(x.peer, x'.peer, x.first, n, msg);
    assert forall m :: Has(x', m) <==> m == n || Has(x, m);
  }

  lemma TakesAgreeOut<D>(x: Node<D, D>, x': Node<D, D>, y: Node<D, D>, n: int, msg: Message<D>)
    requires AnswersOk(y) && Agree(x, y) && NodeOk(x) && TakesIn(x, x', n, msg)
    requires n in y.sent && y.sent[n] == msg
    ensures Agree(x', y)
  {
    assert forall m :: Has(x', m) <==> m == n || Has(x, m);
    assert forall r :: Settled(x, y, r) ==> Settled(x', y, r);
  }

  lemma TakesAgreeIn<D>(x: Node<D, D>, x': Node<D, D>, y: Node<D, D>, n: int, msg: Message<D>)
    requires Agree(y, x) && NodeOk(x) && TakesIn(x, x', n, msg)
    requires n in y.sent && y.sent[n] == msg
    ensures Agree(y, x')
  {
    assert forall m :: Has(x', m) <==> m == n || Has(x, m);
    assert forall r :: Settled(y, x, r) ==> Settled(y, x', r);
  }

  lemma TakesInv<D>(x: Node<D, D>, x': Node<D, D>, y: Node<D, D>, n: int, msg: Message<D>)
    requires Inv(x, y) && TakesIn(x, x', n, msg) && PeerOk(x'.peer) && x.first <= x'.peer.nextRecv
    requires n in y.sent && y.sent[n] == msg && !Has(x, n)
    ensures Inv(x', y)
    ensures msg.replyNo.Some? ==> msg.replyNo.value in x.peer.send
  {
    hide Agree, PeerOk;
    if msg.replyNo.Some? { ReplyFindsItsPacket(x, y, n); }
    TakesNodeOk(x, x', n, msg);
    TakesAgreeOut(x, x', y, n, msg);
    TakesAgreeIn(x, x', y, n, msg);
  }

  // ---- x delivers nothing and uses no new number ----

  /** x may drop settled packets from its send window, keep packets of y for later, send its
      own packets again, and ack settled packets of y. */
  ghost predicate Quietly<D>(x: Node<D, D>, x': Node<D, D>, y: Node<D, D>) {
    && StaysPut(x, x')
    && (forall r :: r in x.peer.send && r !in x'.peer.send ==> Settled(x, y, r))
    && (forall n :: n in x'.peer.recv ==>
         || (n in x.peer.recv && x'.peer.recv[n] == x.peer.recv[n])
         || (n in y.sent && x'.peer.recv[n] == Occupied(y.sent[n])))
    && (forall r :: Ack(r) in x'.out ==> Ack(r) in x.out || Settled(y, x, r))
  }

  ghost predicate StaysPut<D>(x: Node<D, D>, x': Node<D, D>) {
    && x'.first == x.first && x'.sent == x.sent && x'.answer == x.answer && x.out <= x'.out
    && x'.peer.cap == x.peer.cap && x'.peer.nextSend == x.peer.nextSend && x'.peer.replies == x.peer.replies
    && x.first <= x'.peer.nextRecv
    && (forall m :: Has(x', m) <==> Has(x, m))
    && (forall k :: k in x'.peer.send ==> k in x.peer.send && x'.peer.send[k].msg == x.peer.send[k].msg)
    && (forall f :: f in x'.out && f.Data? ==>
         f in x.out || (f.seqNo in x.peer.send && f.msg == x.peer.send[f.seqNo].msg))
  }

  lemma QuietlyNodeOk<D>(x: Node<D, D>, x': Node<D, D>)
    requires NodeOk(x) && StaysPut(x, x') && PeerOk(x'.peer)
    ensures NodeOk(x')
  {
    hide Bounded;
  }

  lemma QuietlyAgreeOut<D>(x: Node<D, D>, x': Node<D, D>, y: Node<D, D>)
    requires Agree(x, y) && Quietly(x, x', y)
    ensures Agree(x', y)
  {
    assert forall r :: Settled(x, y, r) ==> Settled(x', y, r);
    forall s | s in y.sent && Has(x', s) && y.sent[s].replyNo.Some?
      ensures y.sent[s].replyNo.value !in x'.peer.send
    {
      var r := y.sent[s].replyNo.value;
      assert Has(x, s) && r !in x.peer.send;
      assert r in x'.peer.send ==> r in x.peer.send;
    }
  }

  lemma QuietlyAgreeIn<D>(x: Node<D, D>, x': Node<D, D>, y: Node<D, D>)
    requires Agree(y, x) && Quietly(x, x', y)
    ensures Agree(y, x')
  {
    assert forall r :: Settled(y, x, r) ==> Settled(y, x', r);
  }

  lemma QuietlyInv<D>(x: Node<D, D>, x': Node<D, D>, y: Node<D, D>)
    requires Inv(x, y) && Quietly(x, x', y) && PeerOk(x'.peer)
    ensures Inv(x', y)
  {
    hide NodeOk, Agree, PeerOk;
    QuietlyNodeOk(x, x');
    QuietlyAgreeOut(x, x', y);
    QuietlyAgreeIn(x, x', y);
  }

  lemma StoreQuietly<D>(x: Node<D, D>, x': Node<D, D>, y: Node<D, D>, n: int, msg: Message<D>)
    requires NodeOk(x)
    requires n in y.sent && y.sent[n] == msg && n !in x.peer.recv && n >= x.peer.nextRecv
    requires x' == x.(peer := x.peer.(recv := x.peer.recv[n := Occupied(msg)]), log := x'.log, books := x'.books)
    ensures Quietly(x, x', y)
  {
    hide Bounded, Reserved, AnswersOk;
    assert forall m :: Has(x', m) <==> Has(x, m);
  }

  lemma RetireQuietly<D>(x: Node<D, D>, x': Node<D, D>, y: Node<D, D>, r: int)
    requires NodeOk(x) && Settled(x, y, r)
    requires x' == x.(peer := TakeSend(x.peer, r), log := x'.log, books := x'.books)
    ensures Quietly(x, x', y)
  {
    hide Bounded, Reserved, AnswersOk;
    assert forall m :: Has(x', m) <==> Has(x, m);
  }

  /** Acking a number again is safe: a reply to it, if there was one, has arrived. */
  lemma ReAckIsSettled<D>(x: Node<D, D>, y: Node<D, D>, n: int)
    requires Inv(x, y) && Has(x, n) && !AnswerPending(x.peer, n)
    ensures Settled(y, x, n)
  {
    assert n in x.answer;
    if x.answer[n].ByReply? {
      var s := x.answer[n].seqNo;
      assert s in x.sent && s !in x.peer.send;
      assert Settled(x, y, s);
    }
  }

  lemma ReAckQuietly<D>(x: Node<D, D>, x': Node<D, D>, y: Node<D, D>, n: int)
    requires NodeOk(x) && Settled(y, x, n)
    requires x' == x.(out := x.out + {Ack(n)}, log := x'.log, books := x'.books)
    ensures Quietly(x, x', y)
  {
    hide Bounded, Reserved, AnswersOk;
    assert forall m :: Has(x', m) <==> Has(x, m);
  }

  /** x sends packets again, or nothing but its lock and timer change. */
  ghost predicate Resends<D>(x: Node<D, D>, x': Node<D, D>) {
    && x' == x.(peer := x'.peer, out := x'.out, log := x'.log, books := x'.books)
    && x'.peer == x.peer.(send := x'.peer.send, locked := x'.peer.locked, nextService := x'.peer.nextService)
    && x'.peer.send.Keys == x.peer.send.Keys
    && (forall k :: k in x.peer.send ==> x'.peer.send[k].msg == x.peer.send[k].msg)
    && (forall f :: f in x'.out ==>
         f in x.out || (f.Data? && f.seqNo in x.peer.send && f.msg == x.peer.send[f.seqNo].msg))
    && x.out <= x'.out
  }

  lemma ResendsQuietly<D>(x: Node<D, D>, x': Node<D, D>, y: Node<D, D>)
    requires NodeOk(x) && Resends(x, x')
    ensures Quietly(x, x', y)
  {
    hide Bounded, Reserved, AnswersOk;
    assert forall m :: Has(x', m) <==> Has(x, m);
    assert forall k :: k in x'.peer.send <==> k in x.peer.send;
  }

  lemma ResendsInv<D>(x: Node<D, D>, x': Node<D, D>, y: Node<D, D>)
    requires Inv(x, y) && PeerOk(x'.peer) && Resends(x, x')
    ensures Inv(x', y)
  {
    hide Agree, Quietly, PeerOk;
    ResendsQuietly(x, x', y);
    QuietlyInv(x, x', y);
  }

  // ---- x acknowledges ----

  ghost predicate Acks<D>(x: Node<D, D>, x': Node<D, D>, r: int, unlock: bool) {
    && x' == x.(peer := Unreserve(x.peer, r, unlock), answer := x.answer[r := ByAck], out := x.out + {Ack(r)},
                log := x'.log, books := x'.books)
  }

  lemma AckAnswersOk<D>(x: Node<D, D>, x': Node<D, D>, r: int, unlock: bool)
    requires AnswersOk(x) && r in x.peer.replies && Acks(x, x', r, unlock)
    ensures AnswersOk(x')
  {
    assert forall m :: Has(x', m) <==> Has(x, m);
    assert forall q :: q in x'.peer.replies <==> q in x.peer.replies && q != r;
  }

  lemma AckNodeOk<D>(x: Node<D, D>, x': Node<D, D>, r: int, unlock: bool)
    requires NodeOk(x) && r in x.peer.replies && Acks(x, x', r, unlock)
    ensures NodeOk(x')
  {
    hide AnswersOk, Bounded;
    UnreserveKeeps(x.peer, r, unlock);
    AckAnswersOk(x, x', r, unlock);
  }

  lemma AckAgreeOut<D>(x: Node<D, D>, x': Node<D, D>, y: Node<D, D>, r: int, unlock: bool)
    requires Agree(x, y) && Acks(x, x', r, unlock)
    ensures Agree(x', y)
  {
    assert forall m :: Has(x', m) <==> Has(x, m);
    assert forall q :: Settled(x, y, q) ==> Settled(x', y, q);
  }

  lemma AckAgreeIn<D>(x: Node<D, D>, x': Node<D, D>, y: Node<D, D>, r: int, unlock: bool)
    requires Agree(y, x) && AnswersOk(x) && r in x.peer.replies && Acks(x, x', r, unlock)
    ensures Agree(y, x')
  {
    assert forall m :: Has(x', m) <==> Has(x, m);
    assert forall q :: Settled(y, x, q) ==> Settled(y, x', q);
  }

  lemma AckInv<D>(x: Node<D, D>, x': Node<D, D>, y: Node<D, D>, r: int, unlock: bool)
    requires Inv(x, y) && r in x.peer.replies && Acks(x, x', r, unlock)
    ensures Inv(x', y)
  {
    hide Agree, PeerOk;
    AckNodeOk(x, x', r, unlock);
    AckAgreeOut(x, x', y, r, unlock);
    AckAgreeIn(x, x', y, r, unlock);
  }

  // ---- Every step ----

  lemma AppendsInv<D>(x: Node<D, D>, y: Node<D, D>, op: Op<D, D>)
    requires Inv(x, y) && Apply(x.peer, op).sent.Some?
    ensures Inv(Record(x, op), y)
  {
    hide Record, Apply, Reserved, Bounded, Agree;
    var x', msg := Record(x, op), Apply(x.peer, op).sent.value;
    InsertAppends(x, op);
    ApplyKeeps(x.peer, op);
    RecordPeer(x, op);
    SlotIsFree(x.peer, op);
    AppendsNodeOk(x, x', msg);
    AppendsAgreeOut(x, x', y, msg);
    AppendsAgreeIn(x, x', y, msg);
  }

  lemma RecordPeer<S, R>(x: Node<S, R>, op: Op<S, R>)
    requires x.peer.cap > 0
    ensures Record(x, op).peer == Apply(x.peer, op).peer && Record(x, op).first == x.first
  {
    hide Apply, Booked, Answers, Deliveries;
  }

  lemma RecordSent<S, R>(x: Node<S, R>, op: Op<S, R>)
    requires x.peer.cap > 0
    ensures var sent := Apply(x.peer, op).sent;
      Record(x, op).sent == if sent.Some? then x.sent[x.peer.nextSend := sent.value] else x.sent
  {
    hide Apply, Booked, Answers, Deliveries;
  }

  lemma RecordReceive<D>(x: Node<D, D>, frame: Frame<D>)
    requires x.peer.cap > 0
    ensures var (q, out) := Receive(x.peer, frame);
      var x' := Record(x, DoReceive(frame));
      x' == x.(peer := q, log := x'.log, books := x'.books,
               out := if frame.Data? && out == Refused(DroppedDuplicateResendAck(frame.seqNo))
                      then x.out + {Ack(frame.seqNo)} else x.out)
  {
    hide Booked, Deliveries;
    assert x.out + {} == x.out;
  }

  lemma RecordPump<D>(x: Node<D, D>)
    requires x.peer.cap > 0
    ensures var x' := Record(x, DoPumpOnce);
      x' == x.(peer := Pump(x.peer).0, log := x'.log, books := x'.books)
  {
    hide Booked, Deliveries, Pump;
    assert x.out + {} == x.out;
  }

  lemma ServiceResends<D>(x: Node<D, D>, now: int, at: int, never: int)
    requires x.peer.cap > 0
    ensures Resends(x, Record(x, DoService(now, at, never)))
  {
    hide Booked, Deliveries, Earliest;
  }

  lemma IdleResends<D>(x: Node<D, D>, op: Op<D, D>)
    requires x.peer.cap > 0 && Apply(x.peer, op).sent.None?
    requires op.DoSend? || op.DoReply? || op.DoUnlock? || (op.DoAck? && op.replyNo !in x.peer.replies)
    ensures Resends(x, Record(x, op))
  {
    hide Booked, Deliveries, Fullness, Insert;
    assert x.out + {} == x.out;
  }

  lemma QuietStepInv<D>(x: Node<D, D>, y: Node<D, D>, op: Op<D, D>)
    requires Inv(x, y) && Apply(x.peer, op).sent.None?
    requires !op.DoReceive? && !op.DoPumpOnce? && (op.DoAck? ==> op.replyNo !in x.peer.replies)
    ensures Inv(Record(x, op), y)
  {
    hide Apply, Record, Resends, Agree;
    ApplyKeeps(x.peer, op);
    RecordPeer(x, op);
    if op.DoService? { ServiceResends(x, op.now, op.resendAt, op.never); } else { IdleResends(x, op); }
    ResendsInv(x, Record(x, op), y);
  }

  /** What Inv says of the packet that arrives. */
  lemma ArrivalFacts<D>(x: Node<D, D>, y: Node<D, D>, frame: Frame<D>)
    requires Inv(x, y) && frame in y.out
    ensures PeerOk(x.peer) && NodeOk(x) && x.first <= x.peer.nextRecv
    ensures match frame
      case Data(n, msg) => n in y.sent && y.sent[n] == msg && x.first <= n
      case Ack(r) => Settled(x, y, r)
  {
    hide Bounded, Reserved, AnswersOk;
  }

  lemma ReceiveInv<D>(x: Node<D, D>, y: Node<D, D>, frame: Frame<D>)
    requires Inv(x, y) && Enabled(x, y, DoReceive(frame))
    ensures Inv(Record(x, DoReceive(frame)), y)
  {
    hide Inv, NodeOk, Record, Receive, Bounded;
    ArrivalFacts(x, y, frame);
    RecordReceive(x, frame);
    ReceiveKeeps(x.peer, frame);
    var x' := Record(x, DoReceive(frame));
    match frame
    case Ack(r) => ReceiveAckInv(x, x', y, r);
    case Data(n, msg) => ReceiveDataInv(x, x', y, n, msg);
  }

  lemma ReceiveAckInv<D>(x: Node<D, D>, x': Node<D, D>, y: Node<D, D>, r: int)
    requires Inv(x, y) && Settled(x, y, r) && PeerOk(x'.peer)
    requires x' == x.(peer := Receive(x.peer, Ack(r)).0, log := x'.log, books := x'.books)
    ensures Inv(x', y)
  {
    hide Agree, Quietly, Bounded;
    assert r !in x.peer.send ==> TakeSend(x.peer, r) == x.peer by {
      if r !in x.peer.send { assert x.peer.send - {r} == x.peer.send; }
    }
    RetireQuietly(x, x', y, r);
    QuietlyInv(x, x', y);
  }

  /** x' is x after receiving packet n of y. */
  ghost predicate Receives<D>(x: Node<D, D>, x': Node<D, D>, n: int, msg: Message<D>)
    requires x.peer.cap > 0
  {
    var (q, out) := Receive(x.peer, Data(n, msg));
    x' == x.(peer := q, log := x'.log, books := x'.books,
             out := if out == Refused(DroppedDuplicateResendAck(n)) then x.out + {Ack(n)} else x.out)
  }

  lemma DuplicateInv<D>(x: Node<D, D>, x': Node<D, D>, y: Node<D, D>, n: int, msg: Message<D>)
    requires Inv(x, y) && Receives(x, x', n, msg) && PeerOk(x'.peer)
    requires x.first <= n < x.peer.nextRecv
    ensures Inv(x', y)
  {
    hide Agree, Quietly, Bounded;
    if AnswerPending(x.peer, n) {
      ResendsQuietly(x, x', y);
    } else {
      ReAckIsSettled(x, y, n);
      ReAckQuietly(x, x', y, n);
    }
    QuietlyInv(x, x', y);
  }

  lemma DeliveredInv<D>(x: Node<D, D>, x': Node<D, D>, y: Node<D, D>, n: int, msg: Message<D>)
    requires Inv(x, y) && Receives(x, x', n, msg) && PeerOk(x'.peer)
    requires n in y.sent && y.sent[n] == msg && !Redelivers(x.peer, Data(n, msg))
    requires Receive(x.peer, Data(n, msg)).1.Delivered?
    ensures Inv(x', y)
  {
    hide Agree, Receive, Bounded;
    ReceiveCases(x.peer, x.first, n, msg);
    ReceiveAdvances(x.peer, Data(n, msg));
    TakesInv(x, x', y, n, msg);
  }

  lemma RefusedInv<D>(x: Node<D, D>, x': Node<D, D>, y: Node<D, D>, n: int, msg: Message<D>)
    requires Inv(x, y) && Receives(x, x', n, msg) && PeerOk(x'.peer)
    requires n in y.sent && y.sent[n] == msg && n >= x.peer.nextRecv
    requires !Receive(x.peer, Data(n, msg)).1.Delivered?
    ensures Inv(x', y)
  {
    hide Agree, Quietly, Bounded;
    ReceiveCases(x.peer, x.first, n, msg);
    if x'.peer == x.peer { ResendsQuietly(x, x', y); } else { StoreQuietly(x, x', y, n, msg); }
    QuietlyInv(x, x', y);
  }

  lemma ReceiveDataInv<D>(x: Node<D, D>, x': Node<D, D>, y: Node<D, D>, n: int, msg: Message<D>)
    requires Inv(x, y) && x.peer.cap > 0 && Receives(x, x', n, msg) && PeerOk(x'.peer)
    requires n in y.sent && y.sent[n] == msg && x.first <= n && !Redelivers(x.peer, Data(n, msg))
    ensures Inv(x', y)
  {
    hide Inv, Receives, Receive, PeerOk, Redelivers;
    if n < x.peer.nextRecv {
      DuplicateInv(x, x', y, n, msg);
    } else if Receive(x.peer, Data(n, msg)).1.Delivered? {
      DeliveredInv(x, x', y, n, msg);
    } else {
      RefusedInv(x, x', y, n, msg);
    }
  }

  lemma PumpInv<D>(x: Node<D, D>, y: Node<D, D>)
    requires Inv(x, y)
    ensures Inv(Record(x, DoPumpOnce), y)
  {
    hide Record, Pump, Bounded, Reserved, AnswersOk;
    var x' := Record(x, DoPumpOnce);
    RecordPump(x);
    PumpKeeps(x.peer);
    PumpCases(x.peer, x.first);
    if Pump(x.peer).1.Delivered? {
      PumpAdvances(x.peer);
      TakesInv(x, x', y, x.peer.nextRecv, x.peer.recv[x.peer.nextRecv].msg);
    } else {
      ResendsInv(x, x', y);
    }
  }

  lemma PumpAdvances<S, R>(p: Peer<S, R>)
    requires PeerOk(p)
    ensures p.nextRecv <= Pump(p).0.nextRecv
  {
    AdvanceKeeps(p, p.nextRecv);
  }

  lemma AckStepInv<D>(x: Node<D, D>, y: Node<D, D>, r: int, unlock: bool)
    requires Inv(x, y) && r in x.peer.replies
    ensures Inv(Record(x, DoAck(r, unlock)), y)
  {
    hide Agree, Booked, Deliveries;
    AckInv(x, Record(x, DoAck(r, unlock)), y, r, unlock);
  }

  /** Every enabled step of either peer keeps the invariant. */
  lemma StepInv<D>(x: Node<D, D>, y: Node<D, D>, op: Op<D, D>)
    requires Inv(x, y) && Enabled(x, y, op)
    ensures Inv(Record(x, op), y)
  {
    assert x.peer.cap > 0;
    hide Inv, Record, Apply;
    if op.DoReceive? {
      ReceiveInv(x, y, op.frame);
    } else if op.DoPumpOnce? {
      PumpInv(x, y);
    } else if op.DoAck? && op.replyNo in x.peer.replies {
      AckStepInv(x, y, op.replyNo, op.unlock);
    } else if Apply(x.peer, op).sent.Some? {
      AppendsInv(x, y, op);
    } else {
      QuietStepInv(x, y, op);
    }
  }
}
