/** Two runs, without any loss on the network, into states that nothing leads out of. */
module DeadlockRuns {
  import opened Protocol
  import opened PeerInvariants
  import opened History
  import opened Delivering
  import opened TwoPeers
  import opened Exchange
  import opened Chains
  import opened Redelivery
  import opened Deadlock

  ghost function Items<D>(k: int, d: D): map<int, SendEntry<D>> {
    if k <= 0 then map[] else Items(k - 1, d)[k - 1 := Item(d)]
  }

  lemma {:induction false} ItemsAre<D>(k: int, d: D)
    ensures forall i :: i in Items(k, d) <==> 0 <= i < k
    ensures forall i :: i in Items(k, d) ==> Items(k, d)[i] == Item(d)
  {
    if k <= 0 {
    } else {
      ItemsAre(k - 1, d);
    }
  }

  /** A new peer that has sent k packets. */
  ghost function Filling<D>(cap: int, k: int, d: D): Peer<D, D> {
    Peer(cap, k, 0, Items(k, d), map[], multiset{}, false, 0)
  }

  lemma SendsOneMore<D>(cap: int, k: int, d: D)
    requires cap > 2 && 0 <= k < cap
    ensures Apply(Filling(cap, k, d), Put(d)).peer == Filling(cap, k + 1, d)
  {
    var p := Filling(cap, k, d);
    ItemsAre(k, d);
    assert !Blocked(p, 0, None);
    assert p.send - {k - cap} == p.send;
  }

  /** x goes on sending until it has sent n packets. */
  lemma {:induction false} Fills<D(!new)>(x: Node<D, D>, y: Node<D, D>, cap: int, k: int, n: int, d: D)
    returns (x': Node<D, D>)
    requires Reachable(x, y) && cap > 2 && 0 <= k <= n <= cap && x.peer == Filling(cap, k, d)
    ensures Reachable(x', y) && x'.peer == Filling(cap, n, d) && x'.first == x.first
    decreases n - k
  {
    hide Filling, Apply, Reachable;
    if k == n {
      x' := x;
    } else {
      SendsOneMore(cap, k, d);
      assert x.peer.cap > 0 by { ReachableGood(x, y); InvSymmetric(x, y); InvFacts(y, x); }
      Steps(x, y, Put(d));
      RecordPeer(x, Put(d));
      x' := Fills(Record(x, Put(d)), y, cap, k + 1, n, d);
    }
  }

  lemma Starts<D(!new)>(cap: int, d: D) returns (x: Node<D, D>)
    requires cap > 2
    ensures Reachable(x, x) && x.peer == Filling(cap, 0, d) && x.first == 0
  {
    hide Reachable;
    x := Start(cap, 0, 0);
    ReachableStart<D>(cap, 0, 0);
    assert Filling(cap, 0, d).send == map[];
  }

  /** A peer that heard nothing acked nothing and answered nothing. */
  lemma HeardNothing<D>(x: Node<D, D>, y: Node<D, D>, n: int)
    requires Inv(x, y) && y.peer.recv == map[] && y.peer.nextRecv == y.first
    ensures !Has(y, n) && Ack(n) !in y.out && forall s :: !Answering(y, s, n)
  {
    hide Bounded;
    assert Ack(n) in y.out ==> Settled(x, y, n);
    forall s
      ensures !Answering(y, s, n)
    {
      assert Answering(y, s, n) ==> n in y.answer;
    }
  }

  lemma FullIsDoomed<D>(x: Node<D, D>, y: Node<D, D>, cap: int, d: D)
    requires cap > 2 && x.peer == y.peer == Filling(cap, cap, d)
    requires !Has(x, 0) && Ack(0) !in x.out && (forall s :: !Answering(x, s, 0))
    requires !Has(y, 0) && Ack(0) !in y.out && (forall s :: !Answering(y, s, 0))
    ensures Doomed(x, y)
  {
    hide Has, Answering;
    ItemsAre(cap, d);
    assert Oldest(x.peer) == Oldest(y.peer) == 0 && 0 in x.peer.send;
  }

  lemma SentHolds<D>(x: Node<D, D>, y: Node<D, D>)
    requires Inv(x, y)
    ensures forall k :: k in x.peer.send ==>
              k in x.sent && x.peer.send[k].msg == x.sent[k] && Data(k, x.sent[k]) in x.out
  {
  }

  lemma SomeLogged(log: seq<Delivery>)
    requires log != []
    ensures exists n :: Logged(log, n)
  {
    assert Logged(log, log[0].seqNo);
  }

  lemma NothingLogged<D(!new)>(x: Node<D, D>, cap: int, d: D)
    requires Books(x) && x.first == 0 && x.peer == Filling(cap, cap, d)
    ensures x.log == []
  {
    assert forall n :: !WasDelivered(x.peer, x.first, n);
    if x.log != [] { SomeLogged(x.log); }
  }

  /** Both peers fill their windows before they hear from each other. From then on neither can
      process a packet, since it could not answer, and neither gets an answer: nothing is ever
      delivered, for any capacity, even over a perfect network. */
  lemma BothWindowsFull<D(!new)>(cap: int, d: D) returns (x: Node<D, D>, y: Node<D, D>)
    requires cap > 2
    ensures Reachable(x, y) && x.peer == y.peer == Filling(cap, cap, d)
    ensures Doomed(x, y) && Doomed(y, x)
    ensures x.sent != map[] && y.sent != map[]
    ensures forall t :: Reaches(System(x, y), t) ==> t.a.log == [] && t.b.log == []
  {
    hide Reachable;
    var z := Starts(cap, d);
    x := Fills(z, z, cap, 0, cap, d);
    ReachableSymmetric(x, z);
    y := Fills(z, x, cap, 0, cap, d);
    ReachableSymmetric(y, x);
    ReachableGood(x, y);
    hide Books, Inv;
    InvSymmetric(x, y);
    HeardNothing(x, y, 0);
    HeardNothing(y, x, 0);
    FullIsDoomed(x, y, cap, d);
    FullIsDoomed(y, x, cap, d);
    NothingLogged(x, cap, d);
    NothingLogged(y, cap, d);
    ItemsAre(cap, d);
    SentHolds(x, y);
    SentHolds(y, x);
    hide Doomed, Reaches;
    forall t | Reaches(System(x, y), t)
      ensures t.a.log == [] && t.b.log == []
    {
      ReachesDoomed(System(x, y), t);
      ReachesSwapped(System(x, y), t);
      ReachesDoomed(System(y, x), Swap(t));
    }
  }

  lemma FirstIsOut<D>(x: Node<D, D>, y: Node<D, D>, d: D)
    requires Inv(x, y) && x.peer == Filling(4, 4, d)
    ensures Plain(0, d) in x.out
  {
    hide Inv;
    ItemsAre(4, d);
    SentHolds(x, y);
    assert 0 in x.peer.send;
  }

  // ---- A peer that waits for a reply it can never take ----

  /** A peer that sent number 0 has delivered the other's number 0. */
  ghost function Deciding<D>(d: D): Peer<D, D> {
    Peer(4, 1, 1, map[0 := Item(d)], map[], multiset{0}, false, 0)
  }

  lemma FirstArrives<D>(d: D)
    ensures var p := Filling(4, 1, d);
      Apply(p, DoReceive(Plain(0, d))).peer == Deciding(d) && !Redelivers(p, Plain(0, d))
  {
    var p := Filling(4, 1, d);
    assert !Blocked(p, 0, None);
    assert p.recv - {0} == map[];
    assert p.send == Items(0, d)[0 := Item(d)];
  }

  /** The answer to number 0, in order. */
  ghost function InOrder<D>(d: D): Op<D, D> { DoReply(0, 0, false, true, d) }

  lemma AnswersInOrder<D>(d: D)
    ensures var e := Apply(Deciding(d), InOrder(d));
      e.sent == Some(Message(Some(0), true, d)) && e.peer.nextSend == 2 && e.peer.nextRecv == 1 && e.peer.cap == 4
      && e.peer.send.Keys == {0, 1}
  {
  }

  /** Only x fills its window. y sends one packet, takes number 0 of x, and answers it with a
      SeqCst reply. x cannot take y's first packet, since it could not answer it; and it cannot
      take the reply, which would make room, before that packet. x waits for ever. */
  lemma ReplyNeverTaken<D(!new)>(d: D) returns (x: Node<D, D>, y: Node<D, D>)
    ensures Reachable(x, y) && Doomed(x, y) && !Stuck(y, x)
    ensures Answering(y, 1, 0) && 0 in x.peer.send && x.peer.replies == multiset{}
  {
    hide Reachable, Inv, Books, Record, Apply, Stuck;
    var z := Starts(4, d);
    x := Fills(z, z, 4, 0, 4, d);
    ReachableSymmetric(x, z);
    var y1 := Fills(z, x, 4, 0, 1, d);
    ReachableGood(y1, x);
    InvSymmetric(x, y1);
    FirstIsOut(x, y1, d);
    FirstArrives(d);
    Steps(y1, x, DoReceive(Plain(0, d)));
    var y2 := Record(y1, DoReceive(Plain(0, d)));
    AnswersInOrder(d);
    Steps(y2, x, InOrder(d));
    y := Record(y2, InOrder(d));
    RecordSent(y2, InOrder(d));
    ReachableGood(x, y);
    WaitsForReply(x, y, d);
  }

  lemma WaitsForReply<D>(x: Node<D, D>, y: Node<D, D>, d: D)
    requires Inv(x, y) && x.peer == Filling(4, 4, d) && Answering(y, 1, 0) && y.sent[1].seqCst
    requires y.peer.nextSend == 2 && y.peer.cap == 4 && y.peer.send.Keys == {0, 1}
    ensures Doomed(x, y) && !Stuck(y, x)
  {
    hide Inv;
    ItemsAre(4, d);
    AckedIff(x, y, 0);
    OneSuccessor(x, y, 0);
    AnswerOf(x, y, 1);
  }

  lemma AnswerOf<D>(x: Node<D, D>, y: Node<D, D>, s: int)
    requires Inv(x, y) && s in y.sent && y.sent[s].replyNo.Some?
    ensures var r := y.sent[s].replyNo.value; r in y.answer && y.answer[r] == ByReply(s)
  {
  }
}
