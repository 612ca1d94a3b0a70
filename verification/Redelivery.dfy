/** What goes wrong when a copy of a packet arrives while its slot says delivered: the promise
    of exactly-once, lossless transport does not survive the redelivering branch. */
module Redelivery {
  import opened Protocol
  import opened History
  import opened Delivering
  import opened Reservations
  import opened Conservation

  ghost function Peer4<S, R>(nextSend: int, send: map<int, SendEntry<S>>, replies: multiset<int>): Peer<S, R> {
    Peer(4, nextSend, 0, send, map[1 := Unlocked], replies, false, 0)
  }

  ghost function Item<S>(d: S): SendEntry<S> { SendEntry(Message(None, false, d), 0) }

  ghost function Plain<D>(n: int, d: D): Frame<D> { Data(n, Message(None, false, d)) }

  ghost function Put<S, R>(d: S): Op<S, R> { DoSend(0, false, d) }

  /** The packet that arrives twice: number 1, answering number 0. */
  ghost function Twice<S, R>(e: R): Op<S, R> { DoReceive(Data(1, Message(Some(0), false, e))) }

  /** One peer sends number 0 and gets its answer; sends 1 to 3 and gets their acks; sends 4
      to 6; gets a second copy of the answer to 0; and answers what it was handed, twice. */
  ghost function LossyRun<S, R>(d: S, e: R): seq<Op<S, R>> {
    [Put(d), Twice(e), Put(d), Put(d), Put(d),
     DoReceive(Ack(1)), DoReceive(Ack(2)), DoReceive(Ack(3)),
     Put(d), Put(d), Put(d), Twice(e),
     DoReply(0, 1, false, false, d), DoReply(0, 1, false, false, d)]
  }

  /** After k operations of the run the peer is in state p, and nothing is missing. */
  ghost predicate At<S(!new), R>(ops: seq<Op<S, R>>, k: int, p: Peer<S, R>)
    requires 0 <= k <= |ops|
  {
    var x := Run(4, 0, 1, ops[..k]);
    x.peer == p && Conserved(x)
  }

  lemma Grow<S(!new), R>(ops: seq<Op<S, R>>, k: int, p: Peer<S, R>, q: Peer<S, R>)
    requires 0 <= k < |ops| && At(ops, k, p)
    requires p.cap > 0 && Apply(p, ops[k]).peer == q && !Loses(p, ops[k])
    ensures At(ops, k + 1, q)
  {
    hide Apply, Loses, Lost;
    assert ops[..k + 1][..k] == ops[..k];
    ConservedIff(Run(4, 0, 1, ops[..k]), ops[k]);
  }

  lemma Begins<S(!new), R>(ops: seq<Op<S, R>>)
    ensures At(ops, 0, Initial(4, 0, 1))
  {
    forall d ensures Lost(Run(4, 0, 1, ops[..0]), d) == 0 { StartsEven<S, R>(4, 0, 1, d); }
  }

  lemma FirstPut<S(!new), R>(ops: seq<Op<S, R>>, d: S)
    requires |ops| > 0 && ops[0] == Put(d) && At(ops, 0, Initial(4, 0, 1))
    ensures At(ops, 1, AfterPut(d))
  {
    var p: Peer<S, R> := Initial(4, 0, 1);
    assert !Blocked(p, 0, None);
    hide At, Loses;
    NoLoss(p, ops[0]);
    Grow(ops, 0, p, AfterPut(d));
  }

  ghost function AfterPut<S, R>(d: S): Peer<S, R> { Peer(4, 1, 0, map[0 := Item(d)], map[], multiset{}, false, 0) }

  lemma NoLoss<S, R>(p: Peer<S, R>, op: Op<S, R>)
    requires p.cap > 0 && p.nextSend - p.cap !in p.send && !op.DoReply?
    ensures !Loses(p, op)
  {
  }

  lemma FirstCopyEffect<S, R>(d: S, e: R)
    ensures Apply(AfterPut<S, R>(d), Twice(e)).peer == Peer4(1, map[], multiset{1})
  {
    var p: Peer<S, R> := AfterPut(d);
    assert Fullness(p, Some(0)) == HasRoom;
    assert p.send - {0} == map[];
  }

  lemma FirstCopy<S(!new), R>(ops: seq<Op<S, R>>, d: S, e: R)
    requires |ops| > 1 && ops[1] == Twice(e) && At(ops, 1, AfterPut(d))
    ensures At(ops, 2, Peer4(1, map[], multiset{1}))
  {
    hide At, Apply, Loses, Peer4;
    FirstCopyEffect<S, R>(d, e);
    NoLoss(AfterPut<S, R>(d), Twice(e));
    Grow(ops, 1, AfterPut(d), Peer4(1, map[], multiset{1}));
  }

  lemma PutEffect<S, R>(d: S, n: int, send: map<int, SendEntry<S>>)
    requires n - 4 !in send && n - 3 !in send
    ensures var p: Peer<S, R> := Peer4(n, send, multiset{1});
      Apply(p, Put(d)).peer == Peer4(n + 1, send[n := Item(d)], multiset{1}) && !Loses(p, Put(d))
  {
    var p: Peer<S, R> := Peer4(n, send, multiset{1});
    assert !Blocked(p, 0, None) && !Blocked(p, 1, None);
    assert send - {n - 4} == send;
  }

  lemma PutStep<S(!new), R>(ops: seq<Op<S, R>>, k: int, d: S, n: int, send: map<int, SendEntry<S>>)
    requires 0 <= k < |ops| && ops[k] == Put(d) && At(ops, k, Peer4(n, send, multiset{1}))
    requires n - 4 !in send && n - 3 !in send
    ensures At(ops, k + 1, Peer4(n + 1, send[n := Item(d)], multiset{1}))
  {
    hide At, Apply, Loses, Put, Item;
    PutEffect<S, R>(d, n, send);
    Grow(ops, k, Peer4(n, send, multiset{1}), Peer4(n + 1, send[n := Item(d)], multiset{1}));
  }

  lemma AckStep<S(!new), R>(ops: seq<Op<S, R>>, k: int, n: int, send: map<int, SendEntry<S>>, r: int)
    requires 0 <= k < |ops| && ops[k] == DoReceive(Ack(r)) && r in send && At(ops, k, Peer4(n, send, multiset{1}))
    ensures At(ops, k + 1, Peer4(n, send - {r}, multiset{1}))
  {
    Grow(ops, k, Peer4(n, send, multiset{1}), Peer4(n, send - {r}, multiset{1}));
  }

  /** The second copy is let through although the slot its reply number points at belongs to
      number 4 by now; the packet it answers is not found, and number 8 stays unreserved. */
  lemma SecondCopy<S, R>(e: R, send: map<int, SendEntry<S>>)
    requires send.Keys == {4, 5, 6}
    ensures var p: Peer<S, R> := Peer4(7, send, multiset{1});
      var q: Peer<S, R> := Peer4(7, send, multiset{1, 1});
      && RedeliversOp(p, Twice(e))
      && Apply(p, Twice(e)).peer == q && !Loses(p, Twice(e))
      && !Reserved(q)
  {
    var p: Peer<S, R> := Peer4(7, send, multiset{1});
    assert Fullness(p, Some(0)) == HasRoom;
    assert p.recv[1 := Unlocked] == p.recv;
    assert 4 in send;
  }

  lemma SecondCopyStep<S(!new), R>(ops: seq<Op<S, R>>, k: int, e: R, send: map<int, SendEntry<S>>)
    requires 0 <= k < |ops| && ops[k] == Twice(e) && At(ops, k, Peer4(7, send, multiset{1}))
    requires send.Keys == {4, 5, 6}
    ensures At(ops, k + 1, Peer4(7, send, multiset{1, 1}))
  {
    hide At, Apply, Loses, Reserved, RedeliversOp;
    SecondCopy<S, R>(e, send);
    Grow(ops, k, Peer4(7, send, multiset{1}), Peer4(7, send, multiset{1, 1}));
  }

  lemma ReplyEffect<S, R>(d: S, send: map<int, SendEntry<S>>)
    requires send.Keys == {4, 5, 6}
    ensures var p: Peer<S, R> := Peer4(7, send, multiset{1, 1});
      var op: Op<S, R> := DoReply(0, 1, false, false, d);
      && Apply(p, op).peer == Peer4(8, send[7 := SendEntry(Message(Some(1), false, d), 0)], multiset{1})
      && !Loses(p, op)
  {
    assert multiset{1, 1} - multiset{1} == multiset{1};
    assert send - {3} == send;
  }

  lemma ReplyStep<S(!new), R>(ops: seq<Op<S, R>>, k: int, d: S, send: map<int, SendEntry<S>>)
    requires 0 <= k < |ops| && ops[k] == DoReply(0, 1, false, false, d) && At(ops, k, Peer4(7, send, multiset{1, 1}))
    requires send.Keys == {4, 5, 6}
    ensures At(ops, k + 1, Peer4(8, send[7 := SendEntry(Message(Some(1), false, d), 0)], multiset{1}))
  {
    hide At, Apply, Loses;
    ReplyEffect<S, R>(d, send);
    Grow(ops, k, Peer4(7, send, multiset{1, 1}),
         Peer4(8, send[7 := SendEntry(Message(Some(1), false, d), 0)], multiset{1}));
  }

  lemma UpToTheAcks<S(!new), R>(ops: seq<Op<S, R>>, d: S, e: R)
    requires ops == LossyRun(d, e)
    ensures At(ops, 8, Peer4(4, map[], multiset{1}))
  {
    hide At, Peer4;
    var i := Item(d);
    Begins(ops);
    FirstPut(ops, d);
    FirstCopy(ops, d, e);
    PutStep(ops, 2, d, 1, map[]);
    PutStep(ops, 3, d, 2, map[1 := i]);
    PutStep(ops, 4, d, 3, map[1 := i, 2 := i]);
    AckStep(ops, 5, 4, map[1 := i, 2 := i, 3 := i], 1);
    AckStep(ops, 6, 4, map[1 := i, 2 := i, 3 := i] - {1}, 2);
    AckStep(ops, 7, 4, map[1 := i, 2 := i, 3 := i] - {1} - {2}, 3);
    assert map[1 := i, 2 := i, 3 := i] - {1} - {2} - {3} == map[];
  }

  lemma UpToTheSecondCopy<S(!new), R>(ops: seq<Op<S, R>>, d: S, e: R)
    requires ops == LossyRun(d, e)
    ensures At(ops, 11, Peer4(7, map[4 := Item(d), 5 := Item(d), 6 := Item(d)], multiset{1}))
  {
    hide At, Peer4;
    var i := Item(d);
    UpToTheAcks(ops, d, e);
    PutStep(ops, 8, d, 4, map[]);
    PutStep(ops, 9, d, 5, map[4 := i]);
    PutStep(ops, 10, d, 6, map[4 := i, 5 := i]);
  }

  lemma DeliveredAgain<S(!new), R>(ops: seq<Op<S, R>>, e: R, send: map<int, SendEntry<S>>)
    requires |ops| > 11 && ops[11] == Twice(e) && At(ops, 11, Peer4(7, send, multiset{1}))
    requires RedeliversOp<S, R>(Peer4(7, send, multiset{1}), Twice(e))
    ensures !AtMostOnce(Run(4, 0, 1, ops).log, 1)
  {
    hide Redelivers;
    assert RedeliversAt(4, 0, 1, ops, 11, 1);
    AtMostOnceIff(4, 0, 1, ops, 1);
  }

  lemma LastStep<S(!new), R>(ops: seq<Op<S, R>>, send: map<int, SendEntry<S>>, d: S)
    requires |ops| == 14 && ops[13] == DoReply(0, 1, false, false, d) && 4 in send
    requires At(ops, 13, Peer4(8, send[7 := SendEntry(Message(Some(1), false, d), 0)], multiset{1}))
    ensures Overwrites(Run(4, 0, 1, ops[..13]).peer, ops[13])
    ensures !Conserved(Run(4, 0, 1, ops))
  {
    hide Lost;
    var x := Run(4, 0, 1, ops[..13]);
    assert Run(4, 0, 1, ops) == Record(x, ops[13]);
    ConservedIff(x, ops[13]);
  }

  /** In that run number 1 is delivered twice; then the second answer to it takes the slot of
      number 4, whose data is gone: never acked or answered, and no longer in the window. */
  lemma RedeliveryLosesData<S(!new), R>(d: S, e: R)
    ensures var ops: seq<Op<S, R>> := LossyRun(d, e);
      && !AtMostOnce(Run(4, 0, 1, ops).log, 1)
      && Overwrites(Run(4, 0, 1, ops[..13]).peer, ops[13])
      && !Conserved(Run(4, 0, 1, ops))
  {
    hide At, Run, Overwrites, Conserved, AtMostOnce, Peer4, RedeliversOp, Reserved, Apply, Loses;
    var ops: seq<Op<S, R>> := LossyRun(d, e);
    var send := map[4 := Item(d), 5 := Item(d), 6 := Item(d)];
    UpToTheSecondCopy(ops, d, e);
    SecondCopy<S, R>(e, send);
    SecondCopyStep(ops, 11, e, send);
    DeliveredAgain(ops, e, send);
    ReplyStep(ops, 12, d, send);
    LastStep(ops, send, d);
  }

  // ---- Two peers and one repeated packet ----

  lemma SenderEmits<S, R>(d: S)
    ensures var a: Node<S, R> := Record(Record(Start(4, 0, 1), Put(d)), Put(d));
      Plain(1, d) in a.out
  {
    var a0: Node<S, R> := Start(4, 0, 1);
    assert Fullness(a0.peer, None) == HasRoom;
    var a1 := Record(a0, Put(d));
    assert a1.peer == Peer(4, 1, 0, map[0 := Item(d)], map[], multiset{}, false, 0);
    assert Fullness(a1.peer, None) == HasRoom;
  }

  /** The shortest failure: one peer sends two packets, and the network hands the second one
      to the other peer twice. It is delivered twice. */
  lemma TwoPeersDeliverTwice<D>(d: D)
    ensures var copy: Frame<D> := Plain(1, d);
      var a: Node<D, D> := Record(Record(Start(4, 0, 1), Put(d)), Put(d));
      var b: Node<D, D> := Record(Record(Start(4, 0, 1), DoReceive(copy)), DoReceive(copy));
      && copy in a.out
      && b.log == [Delivery(1, false), Delivery(1, false)] && !AtMostOnce(b.log, 1)
  {
    hide Record;
    SenderEmits<D, D>(d);
    var copy: Frame<D> := Plain(1, d);
    var b0: Node<D, D> := Start(4, 0, 1);
    var b1 := Record(b0, DoReceive(copy));
    TakesCopy(b0, map[], multiset{}, 1, d);
    var b2 := Record(b1, DoReceive(copy));
    TakesCopy(b1, map[1 := Unlocked], multiset{1}, 1, d);
    assert b2.log[0].seqNo == 1 && b2.log[1].seqNo == 1;
  }

  lemma TakesCopy<D>(b: Node<D, D>, recv: map<int, RecvEntry<D>>, replies: multiset<int>, never: int, d: D)
    requires b.peer == Peer(4, 0, 0, map[], recv, replies, false, never) && |replies| < 2
    ensures var b' := Record(b, DoReceive(Plain(1, d)));
      && b'.log == b.log + [Delivery(1, false)]
      && b'.peer == Peer(4, 0, 0, map[], recv[1 := Unlocked], replies + multiset{1}, false, never)
  {
    assert Fullness(b.peer, None) == HasRoom;
  }
}
