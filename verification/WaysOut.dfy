/** From every state of two peers that is not doomed there is a way on: exactly when a packet can
    still be delivered, and its data still be handed back. */
module WaysOut {
  import opened Protocol
  import opened PeerInvariants
  import opened History
  import opened Reservations
  import opened TwoPeers
  import opened Exchange
  import opened Chains
  import opened Deadlock

  // ---- What one peer can do on its own ----

  /** The operations lead y to y' while x does nothing. */
  ghost predicate Alone<D>(x: Node<D, D>, y: Node<D, D>, ops: seq<Op<D, D>>, y': Node<D, D>)
    decreases |ops|
  {
    if ops == [] then y == y'
    else Inv(x, y) && Enabled(y, x, ops[0]) && Alone(x, Record(y, ops[0]), ops[1..], y')
  }

  /** y can get to y' while x does nothing and y sends nothing new. */
  ghost predicate Gets<D(!new)>(x: Node<D, D>, y: Node<D, D>, y': Node<D, D>) {
    Inv(x, y') && y'.sent == y.sent && exists ops :: Alone(x, y, ops, y')
  }

  lemma SendsNothing<S, R>(p: Peer<S, R>, op: Op<S, R>)
    requires p.cap > 0 && !op.DoSend? && !op.DoReply?
    ensures Apply(p, op).sent.None?
  {
    hide Receive, Pump, Service;
  }

  lemma GetsBy<D(!new)>(x: Node<D, D>, y: Node<D, D>, op: Op<D, D>)
    requires Inv(x, y) && Enabled(y, x, op) && !op.DoSend? && !op.DoReply?
    ensures Gets(x, y, Record(y, op))
  {
    InvFacts(x, y);
    SendsNothing(y.peer, op);
    hide Record, Enabled;
    RecordSent(y, op);
    InvSymmetric(x, y);
    StepInv(y, x, op);
    InvSymmetric(x, Record(y, op));
    hide Inv;
    assert Alone(x, Record(y, op), [], Record(y, op));
    assert Alone(x, y, [op], Record(y, op));
  }

  lemma {:induction false} AloneJoin<D>(x: Node<D, D>, y: Node<D, D>, a: seq<Op<D, D>>, y1: Node<D, D>,
                                        b: seq<Op<D, D>>, y2: Node<D, D>)
    requires Alone(x, y, a, y1) && Alone(x, y1, b, y2)
    ensures Alone(x, y, a + b, y2)
    decreases |a|
  {
    hide Record, Enabled, Inv;
    if a == [] {
      assert a + b == b;
    } else {
      InvFacts(x, y);
      AloneJoin(x, Record(y, a[0]), a[1..], y1, b, y2);
      assert (a + b)[1..] == a[1..] + b;
    }
  }

  lemma GetsThrough<D(!new)>(x: Node<D, D>, y: Node<D, D>, y1: Node<D, D>, y2: Node<D, D>)
    requires Gets(x, y, y1) && Gets(x, y1, y2)
    ensures Gets(x, y, y2)
  {
    hide Alone, Inv;
    var a :| Alone(x, y, a, y1);
    var b :| Alone(x, y1, b, y2);
    AloneJoin(x, y, a, y1, b, y2);
  }

  lemma {:induction false} AloneLeads<D>(x: Node<D, D>, y: Node<D, D>, ops: seq<Op<D, D>>, y': Node<D, D>)
    returns (evs: seq<Event<D>>)
    requires Alone(x, y, ops, y')
    ensures Leads(System(x, y), evs, System(x, y'))
    decreases |ops|
  {
    hide Record, Enabled;
    if ops == [] {
      evs := [];
    } else {
      var rest := AloneLeads(x, Record(y, ops[0]), ops[1..], y');
      evs := [AtB(ops[0])] + rest;
      assert evs[1..] == rest;
      assert Sane(System(x, y));
    }
  }

  /** y' has packet n besides, owes it an answer, and its next slot is free. */
  ghost predicate HasNow<D>(y: Node<D, D>, y': Node<D, D>, n: int) {
    && y'.peer.cap == y.peer.cap && n in y'.peer.replies && Oldest(y'.peer) !in y'.peer.send
    && (forall m :: Has(y', m) <==> m == n || Has(y, m))
  }

  lemma Delivers<D>(y: Node<D, D>, n: int, msg: Message<D>)
    requires PeerOk(y.peer) && y.peer.cap > 2 && y.first <= y.peer.nextRecv
    requires y.peer.replies == multiset{} && !y.peer.locked
    requires Oldest(y.peer) in y.peer.send ==> msg.replyNo == Some(Oldest(y.peer))
    requires msg.seqCst ==> n == y.peer.nextRecv
    requires y.peer.nextRecv <= n < y.peer.nextRecv + y.peer.cap
    ensures HasNow(y, Record(y, DoReceive(Data(n, msg))), n)
  {
    hide Bounded, Receive;
    RecordReceive(y, Data(n, msg));
    RoomFor(y.peer, n, msg);
    ReceiveCases(y.peer, y.first, n, msg);
  }

  lemma UnlockRecord<S, R>(y: Node<S, R>)
    requires y.peer.cap > 0
    ensures Record(y, DoUnlock) == y.(peer := y.peer.(locked := false))
  {
    assert y.out + {} == y.out && y.log + [] == y.log;
    assert Record(y, DoUnlock).books == y.books;
  }

  /** y, whose lock is free, lets packet n of x in. */
  lemma LetsInUnlocked<D(!new)>(x: Node<D, D>, y: Node<D, D>, n: int) returns (y': Node<D, D>)
    requires Inv(x, y) && y.peer.cap > 2 && y.peer.replies == multiset{} && !y.peer.locked
    requires n in x.sent && !Has(y, n)
    requires Oldest(y.peer) in y.peer.send ==> x.sent[n].replyNo == Some(Oldest(y.peer))
    requires x.sent[n].seqCst ==> n == y.peer.nextRecv
    ensures Gets(x, y, y') && HasNow(y, y', n)
  {
    hide Inv, Enabled, Record, HasNow, Gets, PeerOk;
    InvFacts(x, y);
    InRange(x, y, n);
    Delivers(y, n, x.sent[n]);
    GetsBy(x, y, DoReceive(Data(n, x.sent[n])));
    y' := Record(y, DoReceive(Data(n, x.sent[n])));
  }

  /** y lets packet n of x in, having released its lock. */
  lemma LetsIn<D(!new)>(x: Node<D, D>, y: Node<D, D>, n: int) returns (y': Node<D, D>)
    requires Inv(x, y) && y.peer.cap > 2 && y.peer.replies == multiset{}
    requires n in x.sent && !Has(y, n)
    requires Oldest(y.peer) in y.peer.send ==> x.sent[n].replyNo == Some(Oldest(y.peer))
    requires x.sent[n].seqCst ==> n == y.peer.nextRecv
    ensures Gets(x, y, y') && HasNow(y, y', n)
  {
    hide Inv, Record, Alone;
    InvFacts(x, y);
    UnlockRecord(y);
    var y1 := Record(y, DoUnlock);
    GetsBy(x, y, DoUnlock);
    y' := LetsInUnlocked(x, y1, n);
    GetsThrough(x, y, y1, y');
  }

  // ---- y answers the packet that holds x up ----

  /** y acks a number it owes an answer. */
  lemma AcksOwed<D(!new)>(x: Node<D, D>, y: Node<D, D>, r: int) returns (y': Node<D, D>)
    requires Inv(x, y) && r in y.peer.replies
    ensures Gets(x, y, y') && Ack(r) in y'.out
    ensures y'.peer == Unreserve(y.peer, r, false) && y'.first == y.first
  {
    hide Inv, Booked, Gets;
    InvFacts(x, y);
    y' := Record(y, DoAck(r, false));
    GetsBy(x, y, DoAck(r, false));
  }

  lemma SomeOwed(replies: multiset<int>) returns (r: int)
    requires |replies| > 0
    ensures r in replies
  {
    if forall c :: c !in replies { assert false; }
    r :| r in replies;
  }

  /** y acks all it owes an answer. */
  lemma {:induction false} AcksAll<D(!new)>(x: Node<D, D>, y: Node<D, D>) returns (y': Node<D, D>)
    requires Inv(x, y)
    ensures Gets(x, y, y') && y'.peer == y.peer.(replies := multiset{}) && y'.first == y.first
    decreases |y.peer.replies|
  {
    hide Inv;
    if |y.peer.replies| == 0 {
      y' := y;
      assert Alone(x, y, [], y);
    } else {
      var r := SomeOwed(y.peer.replies);
      var y1 := AcksOwed(x, y, r);
      y' := AcksAll(x, y1);
      GetsThrough(x, y, y1, y');
    }
  }

  lemma OldestIsNext<D>(x: Node<D, D>, y: Node<D, D>)
    requires Inv(x, y) && Oldest(x.peer) in x.peer.send && !Has(y, Oldest(x.peer))
    ensures Oldest(x.peer) == y.peer.nextRecv && Oldest(x.peer) in x.sent
  {
    InvSymmetric(x, y);
    WindowsOverlap(y, x);
  }

  /** y, which has a free slot, takes the next packet it does not have. */
  lemma TakesNext<D(!new)>(x: Node<D, D>, y: Node<D, D>) returns (y': Node<D, D>)
    requires Inv(x, y) && y.peer.cap > 2 && Oldest(y.peer) !in y.peer.send && y.peer.nextRecv in x.sent
    ensures Gets(x, y, y') && HasNow(y, y', y.peer.nextRecv) && y'.peer.nextRecv > y.peer.nextRecv
  {
    NextIsMissing(x, y);
    hide Inv, Gets, Has, HasNow;
    var y1 := AcksAll(x, y);
    GetsInv(x, y, y1);
    SameHas(y, y1);
    y' := LetsIn(x, y1, y.peer.nextRecv);
    GetsInv(x, y1, y');
    GetsThrough(x, y, y1, y');
    HasNowToo(y, y1, y', y.peer.nextRecv);
    MovesOn(x, y, y');
  }

  lemma NextIsMissing<D>(x: Node<D, D>, y: Node<D, D>)
    requires Inv(x, y)
    ensures !Has(y, y.peer.nextRecv)
  {
  }

  lemma SameHas<D>(y: Node<D, D>, y': Node<D, D>)
    requires y'.first == y.first && y'.peer.nextRecv == y.peer.nextRecv && y'.peer.recv == y.peer.recv
    ensures forall m :: Has(y', m) <==> Has(y, m)
  {
  }

  lemma HasNowToo<D>(y: Node<D, D>, y1: Node<D, D>, y': Node<D, D>, n: int)
    requires HasNow(y1, y', n) && y1.peer.cap == y.peer.cap && forall m :: Has(y1, m) <==> Has(y, m)
    ensures HasNow(y, y', n)
  {
    hide Has;
  }

  lemma MovesOn<D>(x: Node<D, D>, y: Node<D, D>, y': Node<D, D>)
    requires Inv(x, y) && Inv(x, y') && HasNow(y, y', y.peer.nextRecv)
    ensures y'.peer.nextRecv > y.peer.nextRecv
  {
    NextIsMissing(x, y');
    assert !Has(y', y'.peer.nextRecv);
    assert Has(y', y.peer.nextRecv);
    assert y'.first <= y'.peer.nextRecv && y'.first == y.first;
  }

  /** y has a free slot: it takes the packet that x waits for, and acks it. */
  lemma TakesAndAcks<D(!new)>(x: Node<D, D>, y: Node<D, D>) returns (y': Node<D, D>)
    requires Inv(x, y) && y.peer.cap > 2
    requires Oldest(x.peer) in x.peer.send && !Has(y, Oldest(x.peer)) && Oldest(y.peer) !in y.peer.send
    ensures Gets(x, y, y') && Ack(Oldest(x.peer)) in y'.out
  {
    OldestIsNext(x, y);
    hide Inv, Gets, Has;
    var y1 := TakesNext(x, y);
    GetsInv(x, y, y1);
    y' := AcksOwed(x, y1, Oldest(x.peer));
    GetsThrough(x, y, y1, y');
  }

  /** y, which is not stuck, frees its next slot, and owes an answer to what it takes in for it. */
  ghost predicate Frees<D>(y: Node<D, D>, y': Node<D, D>) {
    && y'.peer.cap == y.peer.cap && Oldest(y'.peer) !in y'.peer.send
    && (forall m :: Has(y, m) ==> Has(y', m))
    && (forall m :: Has(y', m) ==> Has(y, m) || m in y'.peer.replies)
  }

  lemma FreesSlot<D(!new)>(x: Node<D, D>, y: Node<D, D>) returns (y': Node<D, D>)
    requires Inv(x, y) && y.peer.cap > 2 && !Stuck(y, x)
    ensures Gets(x, y, y') && Frees(y, y')
  {
    hide Inv, Has, Gets, HasNow;
    var o := Oldest(y.peer);
    if o !in y.peer.send {
      y' := y;
      GetsNothing(x, y);
    } else if Ack(o) in x.out {
      y' := IsAcked(x, y, o);
    } else {
      var s :| Answering(x, s, o) && !(x.sent[s].seqCst && s != y.peer.nextRecv);
      y' := TakesReply(x, y, s);
    }
  }

  lemma TakesReply<D(!new)>(x: Node<D, D>, y: Node<D, D>, s: int) returns (y': Node<D, D>)
    requires Inv(x, y) && y.peer.cap > 2 && Oldest(y.peer) in y.peer.send
    requires Answering(x, s, Oldest(y.peer)) && (x.sent[s].seqCst ==> s == y.peer.nextRecv)
    ensures Gets(x, y, y') && Frees(y, y')
  {
    FullOwesNothing(x, y, s);
    hide Inv, Has, Gets;
    y' := LetsIn(x, y, s);
  }

  lemma GetsNothing<D(!new)>(x: Node<D, D>, y: Node<D, D>)
    requires Inv(x, y)
    ensures Gets(x, y, y)
  {
    hide Inv;
    assert Alone(x, y, [], y);
  }

  lemma GetsInv<D(!new)>(x: Node<D, D>, y: Node<D, D>, y': Node<D, D>)
    requires Gets(x, y, y')
    ensures Inv(x, y') && y'.sent == y.sent
  {
  }

  lemma IsAcked<D(!new)>(x: Node<D, D>, y: Node<D, D>, r: int) returns (y': Node<D, D>)
    requires Inv(x, y) && r in y.peer.send && Ack(r) in x.out
    ensures Gets(x, y, y') && y'.peer == TakeSend(y.peer, r)
    ensures forall n :: Has(y', n) <==> Has(y, n)
  {
    hide Inv, Booked, Gets;
    InvFacts(x, y);
    y' := Record(y, DoReceive(Ack(r)));
    GetsBy(x, y, DoReceive(Ack(r)));
  }

  lemma FullOwesNothing<D>(x: Node<D, D>, y: Node<D, D>, s: int)
    requires Inv(x, y) && Oldest(y.peer) in y.peer.send && Answering(x, s, Oldest(y.peer))
    ensures y.peer.replies == multiset{} && !Has(y, s)
  {
    assert Reserved(y.peer);
  }

  /** A stuck peer that is not doomed can be helped: the other one acks what x waits for, or
      first makes room for it. */
  lemma Escape<D(!new)>(x: Node<D, D>, y: Node<D, D>) returns (y': Node<D, D>)
    requires Inv(x, y) && y.peer.cap > 2 && Stuck(x, y) && !Doomed(x, y)
    ensures Gets(x, y, y') && !Stuck(x, y')
  {
    hide Inv, Alone, Has;
    var o := Oldest(x.peer);
    if Has(y, o) {
      OwedToStuck(x, y);
      y' := AcksOwed(x, y, o);
    } else {
      var y1 := FreesSlot(x, y);
      if Has(y1, o) {
        y' := AcksOwed(x, y1, o);
      } else {
        y' := TakesAndAcks(x, y1);
      }
      GetsThrough(x, y, y1, y');
    }
  }

  lemma OwedToStuck<D>(x: Node<D, D>, y: Node<D, D>)
    requires Inv(x, y) && Stuck(x, y) && !Doomed(x, y) && Has(y, Oldest(x.peer))
    ensures Oldest(x.peer) in y.peer.replies
  {
    var o := Oldest(x.peer);
    AckedIff(x, y, o);
    if o !in y.peer.replies {
      assert o in y.answer && y.answer[o].ByReply?;
      assert Answering(y, y.answer[o].seqNo, o);
    }
  }

  // ---- Exactly the doomed peers are stuck for ever ----

  lemma GetsReachesB<D(!new)>(x: Node<D, D>, y: Node<D, D>, y': Node<D, D>)
    requires Gets(x, y, y')
    ensures Reaches(System(x, y), System(x, y'))
  {
    hide Alone, Leads, Inv;
    var ops :| Alone(x, y, ops, y');
    var evs := AloneLeads(x, y, ops, y');
  }

  lemma GetsReachesA<D(!new)>(x: Node<D, D>, y: Node<D, D>, x': Node<D, D>)
    requires Gets(y, x, x')
    ensures Reaches(System(x, y), System(x', y))
  {
    hide Gets, Reaches;
    GetsReachesB(y, x, x');
    ReachesSwapped(System(y, x), System(y, x'));
  }

  /** A peer is stuck, and stays so whatever both peers and the network do, exactly if it is
      doomed. */
  lemma StuckForeverIff<D(!new)>(x: Node<D, D>, y: Node<D, D>)
    requires Reachable(x, y) && x.peer.cap > 2
    ensures Doomed(x, y) <==> forall t :: Reaches(System(x, y), t) ==> Stuck(t.a, t.b)
  {
    ReachableGood(x, y);
    hide Inv, Books, Reachable, Reaches;
    if Doomed(x, y) {
      forall t | Reaches(System(x, y), t)
        ensures Stuck(t.a, t.b)
      {
        ReachesDoomed(System(x, y), t);
      }
    } else {
      var y' := Unsticks(x, y);
      GetsReachesB(x, y, y');
    }
  }

  lemma Unsticks<D(!new)>(x: Node<D, D>, y: Node<D, D>) returns (y': Node<D, D>)
    requires Inv(x, y) && x.peer.cap > 2 && !Doomed(x, y)
    ensures Gets(x, y, y') && !Stuck(x, y')
  {
    assert y.peer.cap == x.peer.cap;
    hide Inv, Doomed, Stuck;
    if !Stuck(x, y) {
      y' := y;
      assert Alone(x, y, [], y);
    } else {
      y' := Escape(x, y);
    }
  }

  // ---- Exactly when a packet can still be delivered ----

  lemma AllBefore<D>(x: Node<D, D>, y: Node<D, D>, n: int)
    requires Inv(x, y) && n in x.sent && !Has(y, n)
    ensures y.peer.nextRecv <= n && y.peer.nextRecv in x.sent
  {
  }

  /** y, which has a free slot, takes all packets it does not have, up to packet n of x. */
  lemma {:induction false} TakesUpTo<D(!new)>(x: Node<D, D>, y: Node<D, D>, n: int) returns (y': Node<D, D>)
    requires Inv(x, y) && y.peer.cap > 2 && Oldest(y.peer) !in y.peer.send && n in x.sent && !Has(y, n)
    ensures Gets(x, y, y') && n in y'.peer.replies && Has(y', n)
    decreases n - y.peer.nextRecv
  {
    AllBefore(x, y, n);
    hide Inv, Alone, Has;
    var y1 := TakesNext(x, y);
    if n == y.peer.nextRecv {
      y' := y1;
    } else {
      y' := TakesUpTo(x, y1, n) by { AllBefore(x, y1, n); }
      GetsThrough(x, y, y1, y');
    }
  }

  /** x and y come to a state in which x has packet n of y, owes it an answer, and nothing new
      was sent. */
  lemma CanDeliver<D(!new)>(x: Node<D, D>, y: Node<D, D>, n: int) returns (t: System<D>)
    requires Inv(x, y) && x.peer.cap > 2 && n in y.sent && !Has(x, n) && !Doomed(x, y)
    ensures Reaches(System(x, y), t) && Inv(t.a, t.b)
    ensures Has(t.a, n) && n in t.a.peer.replies && t.a.sent == x.sent && t.b.sent == y.sent
  {
    hide Doomed, Stuck, Has, Alone, Reaches, Inv;
    var y1 := Unsticks(x, y);
    GetsReachesB(x, y, y1);
    InvSymmetric(x, y1);
    var x1 := FreesSlot(y1, x);
    var x2 := x1;
    if !Has(x1, n) {
      x2 := TakesUpTo(y1, x1, n);
      GetsThrough(y1, x, x1, x2);
    }
    GetsReachesA(x, y1, x2);
    t := System(x2, y1);
    InvSymmetric(x2, y1);
    ReachesOn(System(x, y), System(x, y1), t);
  }

  /** A packet that was sent, and is not delivered yet, is never delivered, whatever both peers
      and the network do, exactly if its receiver is doomed. */
  lemma NeverDeliveredIff<D(!new)>(x: Node<D, D>, y: Node<D, D>, n: int)
    requires Reachable(x, y) && x.peer.cap > 2 && n in y.sent && !Has(x, n)
    ensures Doomed(x, y) <==> forall t :: Reaches(System(x, y), t) ==> !Has(t.a, n)
  {
    ReachableGood(x, y);
    hide Inv, Books, Reachable, Reaches, Doomed, Has;
    if Doomed(x, y) {
      forall t | Reaches(System(x, y), t)
        ensures !Has(t.a, n)
      {
        ReachesDoomed(System(x, y), t);
      }
    } else {
      var t := CanDeliver(x, y, n);
    }
  }

  // ---- Exactly when the data of a packet can still be handed back ----

  /** Packet r of x needs a delivery that is out of reach: its own at y, or that of the reply to
      it at x. */
  ghost predicate OutOfReach<D>(x: Node<D, D>, y: Node<D, D>, r: int) {
    if Has(y, r) then (exists s :: Answering(y, s, r)) && Doomed(x, y) else Doomed(y, x)
  }

  lemma UndeliveredStays<D>(x: Node<D, D>, y: Node<D, D>, r: int)
    requires Inv(x, y) && r in x.sent && !Has(y, r)
    ensures r in x.peer.send
  {
    assert r !in x.peer.send ==> Settled(x, y, r);
  }

  lemma AnswerUndelivered<D>(x: Node<D, D>, y: Node<D, D>, r: int, s: int)
    requires Inv(x, y) && r in x.sent && Answering(y, s, r)
    ensures r in x.peer.send <==> !Has(x, s)
    ensures Has(y, r)
  {
    assert r !in x.peer.send ==> Settled(x, y, r);
  }

  lemma OutOfReachStays<D(!new)>(x: Node<D, D>, y: Node<D, D>, r: int, t: System<D>)
    requires Inv(x, y) && r in x.peer.send && OutOfReach(x, y, r) && Reaches(System(x, y), t)
    ensures r in t.a.peer.send
  {
    assert r in x.sent;
    hide Inv, Reaches, Doomed, Has;
    ReachesKeeps(System(x, y), t);
    if s :| Answering(y, s, r) {
      AnswerUndelivered(x, y, r, s);
      ReachesDoomed(System(x, y), t);
      AnswerUndelivered(t.a, t.b, r, s);
    } else {
      InvSymmetric(x, y);
      ReachesSwapped(System(x, y), t);
      ReachesDoomed(System(y, x), Swap(t));
      UndeliveredStays(t.a, t.b, r);
    }
  }

  /** An ack from y takes packet r out of x's window. */
  lemma AckComesBack<D(!new)>(x: Node<D, D>, y: Node<D, D>, r: int) returns (t: System<D>)
    requires Inv(x, y) && r in x.peer.send && (r in y.peer.replies || Ack(r) in y.out)
    ensures Reaches(System(x, y), t) && r !in t.a.peer.send
  {
    hide Inv, Reaches, Gets;
    var y1 := y;
    if Ack(r) !in y.out { y1 := AcksOwed(x, y, r); } else { GetsNothing(x, y); }
    GetsReachesB(x, y, y1);
    GetsInv(x, y, y1);
    InvSymmetric(x, y1);
    var x1 := IsAcked(y1, x, r);
    GetsReachesA(x, y1, x1);
    t := System(x1, y1);
    ReachesOn(System(x, y), System(x, y1), t);
  }

  lemma AnswerOfDelivered<D>(x: Node<D, D>, y: Node<D, D>, r: int)
    requires Inv(x, y) && Has(y, r) && r in x.peer.send
    ensures r in y.peer.replies || Ack(r) in y.out || exists s :: Answering(y, s, r)
  {
    AckedIff(x, y, r);
    if r in y.answer && y.answer[r].ByReply? { assert Answering(y, y.answer[r].seqNo, r); }
  }

  lemma CanReturn<D(!new)>(x: Node<D, D>, y: Node<D, D>, r: int) returns (t: System<D>)
    requires Inv(x, y) && x.peer.cap > 2 && r in x.peer.send && !OutOfReach(x, y, r)
    ensures Reaches(System(x, y), t) && r !in t.a.peer.send
  {
    assert r in x.sent && y.peer.cap == x.peer.cap;
    hide Inv, Reaches, Doomed, Has;
    if Has(y, r) {
      t := CanReturnAnswered(x, y, r);
    } else {
      InvSymmetric(x, y);
      var u := CanDeliver(y, x, r);
      ReachesSwapped(System(y, x), u);
      t := Swap(u);
      InvSymmetric(u.a, u.b);
      if r in t.a.peer.send {
        var v := AckComesBack(t.a, t.b, r);
        ReachesOn(System(x, y), t, v);
        t := v;
      }
    }
  }

  lemma CanReturnAnswered<D(!new)>(x: Node<D, D>, y: Node<D, D>, r: int) returns (t: System<D>)
    requires Inv(x, y) && x.peer.cap > 2 && r in x.peer.send && r in x.sent && Has(y, r) && !OutOfReach(x, y, r)
    ensures Reaches(System(x, y), t) && r !in t.a.peer.send
  {
    hide Inv, Reaches, Doomed, Has;
    AnswerOfDelivered(x, y, r);
    if s :| Answering(y, s, r) {
      AnswerUndelivered(x, y, r, s);
      t := CanDeliver(x, y, s);
      AnswerUndelivered(t.a, t.b, r, s);
    } else {
      t := AckComesBack(x, y, r);
    }
  }

  /** A packet stays in its sender's window for ever, and its data is never handed back, exactly
      if it is out of reach. */
  lemma NeverReturnedIff<D(!new)>(x: Node<D, D>, y: Node<D, D>, r: int)
    requires Reachable(x, y) && x.peer.cap > 2 && r in x.peer.send
    ensures OutOfReach(x, y, r) <==> forall t :: Reaches(System(x, y), t) ==> r in t.a.peer.send
  {
    ReachableGood(x, y);
    hide Inv, Books, Reachable, Reaches, OutOfReach;
    if OutOfReach(x, y, r) {
      forall t | Reaches(System(x, y), t)
        ensures r in t.a.peer.send
      {
        OutOfReachStays(x, y, r, t);
      }
    } else {
      var t := CanReturn(x, y, r);
    }
  }
}
