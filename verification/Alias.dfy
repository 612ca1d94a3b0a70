/** A run after which the 32-bit engine and the unbounded protocol give different outcomes: a
    reply waits unanswered while 2^32 packets pass it, and an ack is held back because of it. */
module Alias {
  import opened SeqNumbers
  import opened Protocol
  import opened History
  import opened TwoPeers
  import opened Exchange
  import opened Redelivery
  import opened Fidelity
  import Engine

  /** The peer whose reply to number 0 still waits in its send window. */
  ghost function Replier<D>(next: int, replies: multiset<int>, d: D): Peer<D, D> {
    Peer(4, 1, next, map[0 := SendEntry(Message(Some(0), false, d), 0)], map[], replies, false, 0)
  }

  /** The peer that got this reply, has not answered it yet, and goes on sending. */
  ghost function Sender<D>(next: int, send: map<int, SendEntry<D>>): Peer<D, D> {
    Peer(4, next, 1, send, map[], multiset{0}, false, 0)
  }

  // ---- What the operations of one round do ----

  lemma SenderSends<D>(n: int, d: D)
    requires n >= 1
    ensures var e := Apply(Sender<D>(n, map[]), Put(d));
      e.peer == Sender(n + 1, map[n := Item(d)]) && e.emitted == {Plain(n, d)}
  {
    var p := Sender<D>(n, map[]);
    assert !Blocked(p, 0, None) && !Blocked(p, 1, None);
    assert p.send - {n - 4} == map[];
  }

  lemma ReplierTakes<D>(n: int, d: D)
    requires n >= 1
    ensures var p := Replier(n, multiset{}, d);
      Apply(p, DoReceive(Plain(n, d))).peer == Replier(n + 1, multiset{n}, d) && !Redelivers(p, Plain(n, d))
  {
    var p := Replier(n, multiset{}, d);
    assert !Blocked(p, 0, None);
    assert p.recv - {n} == map[];
  }

  lemma ReplierAcks<D>(n: int, d: D)
    ensures var e := Apply(Replier(n + 1, multiset{n}, d), DoAck(n, false));
      e.peer == Replier(n + 1, multiset{}, d) && e.emitted == {Ack(n)}
  {
    assert multiset{n} - multiset{n} == multiset{};
  }

  lemma SenderIsAcked<D>(n: int, d: D)
    ensures Apply(Sender(n + 1, map[n := Item(d)]), DoReceive(Ack(n))).peer == Sender<D>(n + 1, map[])
  {
    assert map[n := Item(d)] - {n} == map[];
  }

  // ---- The rounds ----

  /** Everything up to number n was acked, except that x's reply to number 0 is not answered. */
  ghost predicate CaughtUp<D(!new)>(x: Node<D, D>, y: Node<D, D>, n: int, d: D) {
    Reachable(x, y) && x.peer == Replier(n, multiset{}, d) && y.peer == Sender(n, map[])
  }

  /** Besides, y has sent number n, which x has delivered and acked; the ack is still out. */
  ghost predicate AckIsOut<D(!new)>(x: Node<D, D>, y: Node<D, D>, n: int, d: D) {
    && Reachable(x, y) && x.peer == Replier(n + 1, multiset{}, d) && y.peer == Sender(n + 1, map[n := Item(d)])
    && Plain(n, d) in y.out && Ack(n) in x.out
  }

  lemma SendRound<D(!new)>(x: Node<D, D>, y: Node<D, D>, n: int, d: D) returns (x': Node<D, D>, y': Node<D, D>)
    requires CaughtUp(x, y, n, d) && n >= 1
    ensures AckIsOut(x', y', n, d)
  {
    hide Record, Apply, Redelivers, Reachable;
    SenderSends(n, d);
    ReachableSymmetric(x, y);
    Steps(y, x, Put(d));
    y' := Record(y, Put(d));
    ReplierTakes(n, d);
    Steps(x, y', DoReceive(Plain(n, d)));
    var x1 := Record(x, DoReceive(Plain(n, d)));
    ReplierAcks(n, d);
    Steps(x1, y', DoAck(n, false));
    x' := Record(x1, DoAck(n, false));
  }

  lemma AckRound<D(!new)>(x: Node<D, D>, y: Node<D, D>, n: int, d: D) returns (y': Node<D, D>)
    requires AckIsOut(x, y, n, d)
    ensures CaughtUp(x, y', n + 1, d)
  {
    hide Record, Apply, Reachable;
    SenderIsAcked(n, d);
    ReachableSymmetric(x, y);
    Steps(y, x, DoReceive(Ack(n)));
    y' := Record(y, DoReceive(Ack(n)));
  }

  ghost function Waiting0<D>(d: D): Peer<D, D> { Peer(4, 1, 0, map[0 := Item(d)], map[], multiset{}, false, 0) }

  ghost function Owing0<D>(): Peer<D, D> { Peer(4, 0, 1, map[], map[], multiset{0}, false, 0) }

  lemma FirstSend<D>(d: D)
    ensures var e := Apply(Initial<D, D>(4, 0, 0), Put(d));
      e.peer == Waiting0(d) && e.emitted == {Plain(0, d)}
  {
    var p := Initial<D, D>(4, 0, 0);
    assert !Blocked(p, 0, None);
    assert p.send - {-4} == map[];
  }

  lemma FirstDelivery<D>(d: D)
    ensures var p := Initial<D, D>(4, 0, 0);
      && Apply(p, DoReceive(Plain(0, d))).peer == Owing0<D>()
      && !Redelivers(p, Plain(0, d))
  {
    var p := Initial<D, D>(4, 0, 0);
    assert !Blocked(p, 0, None);
    assert p.recv - {0} == map[];
  }

  ghost function FirstAnswer<D>(d: D): Frame<D> { Data(0, Message(Some(0), false, d)) }

  lemma FirstReply<D>(d: D)
    ensures var e := Apply(Owing0<D>(), DoReply(0, 0, false, false, d));
      e.peer == Replier(1, multiset{}, d) && e.emitted == {FirstAnswer(d)}
  {
    assert multiset{0} - multiset{0} == multiset{};
    var p := Owing0<D>();
    assert p.send - {-4} == p.send;
  }

  lemma FirstAnswered<D>(d: D)
    ensures var p := Waiting0(d);
      Apply(p, DoReceive(FirstAnswer(d))).peer == Sender<D>(1, map[]) && !Redelivers(p, FirstAnswer(d))
  {
    var p := Waiting0(d);
    assert !Blocked(p, 0, Some(0));
    assert p.send - {0} == map[] && p.recv - {0} == map[];
  }

  /** Number 0 and its reply are exchanged; the reply's guard is kept. */
  lemma Opening<D(!new)>(d: D) returns (x: Node<D, D>, y: Node<D, D>)
    ensures CaughtUp(x, y, 1, d)
  {
    hide Record, Apply, Redelivers, Reachable;
    var s: Node<D, D> := Start(4, 0, 0);
    ReachableStart<D>(4, 0, 0);
    FirstSend(d);
    Steps(s, s, Put(d));
    var y1 := Record(s, Put(d));
    FirstDelivery(d);
    Steps(s, y1, DoReceive(Plain(0, d)));
    var x1 := Record(s, DoReceive(Plain(0, d)));
    FirstReply(d);
    Steps(x1, y1, DoReply(0, 0, false, false, d));
    x := Record(x1, DoReply(0, 0, false, false, d));
    FirstAnswered(d);
    Steps(y1, x, DoReceive(FirstAnswer(d)));
    y := Record(y1, DoReceive(FirstAnswer(d)));
  }

  lemma {:induction false} Rounds<D(!new)>(n: int, d: D) returns (x: Node<D, D>, y: Node<D, D>)
    requires n >= 1
    ensures CaughtUp(x, y, n, d)
    decreases n
  {
    hide CaughtUp, AckIsOut;
    if n == 1 {
      x, y := Opening(d);
    } else {
      var x0, y0 := Rounds(n - 1, d);
      var y1;
      x, y1 := SendRound(x0, y0, n - 1, d);
      y := AckRound(x, y1, n - 1, d);
    }
  }

  /** In that state number 2^32 waits in y's window for an ack that may have been lost. The
      protocol would ack another copy of it again; the engine drops the copy, because the
      reply to number 0 looks like a pending reply to number 2^32. */
  lemma ReAckHeldBack<D(!new)>(d: D) returns (x: Node<D, D>, y: Node<D, D>)
    ensures Reachable(x, y) && GoodCap(x.peer.cap)
    ensures var copy := Plain(TWO32, d);
      && Enabled(x, y, DoReceive(copy)) && Recent(x.peer, copy) && TWO32 in y.peer.send
      && Receive(x.peer, copy).1 == Refused(DroppedDuplicateResendAck(TWO32))
      && Engine.ReceiveOutcome(x.peer, copy) == Refused(DroppedDuplicate)
    ensures Engine.AliasPending(x.peer, TWO32) && !AnswerPending(x.peer, TWO32)
  {
    hide Reachable;
    var x0, y0 := Rounds(TWO32, d);
    x, y := SendRound(x0, y0, TWO32, d);
    assert 0 in x.peer.send && Wrap(0) == Wrap(TWO32);
  }
}
