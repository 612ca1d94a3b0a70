/** When a peer can never go on: exactly which states no packet and no call can lead out of. As
    in Exchange, the network loses, repeats and reorders, and no copy is delivered twice. */
module Deadlock {
  import opened SeqNumbers
  import opened Protocol
  import opened PeerInvariants
  import opened History
  import opened Reservations
  import opened TwoPeers
  import opened Exchange
  import opened Chains

  /** The number whose slot the next packet of this peer needs. */
  ghost function Oldest<S, R>(p: Peer<S, R>): int { p.nextSend - p.cap }

  /** The slot x needs is taken by a packet that y did not ack; and y did not reply to it either,
      or did so with a SeqCst packet that is not the next one x is waiting for. */
  ghost predicate Stuck<D>(x: Node<D, D>, y: Node<D, D>) {
    var o := Oldest(x.peer);
    && o in x.peer.send && Ack(o) !in y.out
    && (forall s :: Answering(y, s, o) ==> y.sent[s].seqCst && s != x.peer.nextRecv)
  }

  /** x is stuck for good: the packet it waits for was answered in such a way, or was not even
      delivered at y, which is stuck too. */
  ghost predicate Doomed<D>(x: Node<D, D>, y: Node<D, D>) {
    var o := Oldest(x.peer);
    && Stuck(x, y)
    && ((exists s :: Answering(y, s, o)) || (!Has(y, o) && Stuck(y, x)))
  }

  // ---- What a stuck peer can do ----

  lemma StuckOwesNothing<D>(x: Node<D, D>, y: Node<D, D>)
    requires Inv(x, y) && Stuck(x, y)
    ensures x.peer.replies == multiset{}
  {
    assert Reserved(x.peer);
  }

  lemma AckedIff<D>(x: Node<D, D>, y: Node<D, D>, r: int)
    requires Inv(x, y) && r in x.peer.send
    ensures Ack(r) in y.out <==> r in y.answer && y.answer[r] == ByAck
  {
    hide Bounded, Reserved;
    assert Ack(r) in y.out ==> Settled(x, y, r);
  }

  /** x stays as it is, as far as anyone else can tell. */
  ghost predicate Still<D>(x: Node<D, D>, x': Node<D, D>) {
    && x'.log == x.log && x'.sent == x.sent && x'.answer == x.answer && x'.first == x.first
    && x'.peer.cap == x.peer.cap && x'.peer.nextSend == x.peer.nextSend && x'.peer.nextRecv == x.peer.nextRecv
    && Oldest(x.peer) in x'.peer.send
    && (forall n :: Has(x', n) <==> Has(x, n))
  }

  /** With its next slot taken a peer lets through only a reply to the packet in that slot, and
      a SeqCst one only in its turn. */
  lemma OnlyItsReply<S, R>(p: Peer<S, R>, n: int, msg: Message<R>)
    requires PeerOk(p) && Oldest(p) in p.send && Gate(p, n, msg) == HasRoom
    requires msg.replyNo.Some? ==> msg.replyNo.value in p.send
    ensures msg.replyNo == Some(Oldest(p)) && (msg.seqCst ==> n == p.nextRecv)
  {
    RoomFacts(p, msg.replyNo, 0);
    var r := msg.replyNo.value;
    SameSlot(r, p.nextSend, p.cap);
    SlotPeriod(p.nextSend, p.cap);
    SlotInjective(r, Oldest(p), p.cap);
  }

  lemma NothingArrives<D>(x: Node<D, D>, y: Node<D, D>, n: int, msg: Message<D>)
    requires Inv(x, y) && Stuck(x, y) && n in y.sent && y.sent[n] == msg && !Has(x, n)
    ensures Gate(x.peer, n, msg) != HasRoom
  {
    hide Gate, Bounded, Reserved, AnswersOk;
    if Gate(x.peer, n, msg) == HasRoom {
      if msg.replyNo.Some? { ReplyFindsItsPacket(x, y, n); }
      OnlyItsReply(x.peer, n, msg);
    }
  }

  lemma AckStays<D>(x: Node<D, D>, r: int)
    requires PeerOk(x.peer) && Oldest(x.peer) in x.peer.send && r != Oldest(x.peer)
    ensures Still(x, Record(x, DoReceive(Ack(r))))
  {
    hide Bounded, Booked;
  }

  lemma DataStays<D>(x: Node<D, D>, n: int, msg: Message<D>)
    requires PeerOk(x.peer) && Oldest(x.peer) in x.peer.send
    requires n >= x.peer.nextRecv ==> Gate(x.peer, n, msg) != HasRoom
    ensures Still(x, Record(x, DoReceive(Data(n, msg))))
  {
    hide Bounded, Booked, Gate;
  }

  lemma ReceiveStays<D>(x: Node<D, D>, y: Node<D, D>, frame: Frame<D>)
    requires Inv(x, y) && Stuck(x, y) && Enabled(x, y, DoReceive(frame))
    ensures Still(x, Record(x, DoReceive(frame)))
  {
    hide Bounded, Gate, Reserved, AnswersOk, Still, Record;
    match frame
    case Ack(r) => AckStays(x, r);
    case Data(n, msg) =>
      if n >= x.peer.nextRecv && Gate(x.peer, n, msg) == HasRoom { NothingArrives(x, y, n, msg); }
      DataStays(x, n, msg);
  }

  lemma PumpStays<D>(x: Node<D, D>, y: Node<D, D>)
    requires Inv(x, y) && Stuck(x, y)
    ensures Still(x, Record(x, DoPumpOnce))
  {
    hide Bounded, Reserved, AnswersOk, Gate, Booked;
    var n := x.peer.nextRecv;
    if n in x.peer.recv && x.peer.recv[n].Occupied? { NothingArrives(x, y, n, x.peer.recv[n].msg); }
  }

  lemma RestStays<D>(x: Node<D, D>, op: Op<D, D>)
    requires PeerOk(x.peer) && Oldest(x.peer) in x.peer.send && x.peer.replies == multiset{}
    requires !op.DoReceive? && !op.DoPumpOnce?
    ensures Still(x, Record(x, op)) && Apply(x.peer, op).sent.None?
  {
    hide Booked, Earliest;
    assert Blocked(x.peer, 0, None);
  }

  /** A stuck peer delivers nothing and puts nothing into its window, whatever it does. */
  lemma NothingPasses<D>(x: Node<D, D>, y: Node<D, D>, op: Op<D, D>)
    requires Inv(x, y) && Stuck(x, y) && Enabled(x, y, op)
    ensures Still(x, Record(x, op)) && Inv(Record(x, op), y)
  {
    hide Inv, Stuck, Still, Enabled, Record;
    StepInv(x, y, op);
    if op.DoReceive? {
      ReceiveStays(x, y, op.frame);
    } else if op.DoPumpOnce? {
      PumpStays(x, y);
    } else {
      StuckOwesNothing(x, y);
      StuckIsFull(x, y);
      RestStays(x, op);
    }
  }

  lemma StuckIsFull<D>(x: Node<D, D>, y: Node<D, D>)
    requires Inv(x, y) && Stuck(x, y)
    ensures PeerOk(x.peer) && Oldest(x.peer) in x.peer.send
  {
  }

  /** The operation sends a new packet, or delivers one, or frees the slot that x needs. */
  ghost predicate Moves<S, R>(p: Peer<S, R>, op: Op<S, R>)
    requires p.cap > 0
  {
    var e := Apply(p, op);
    e.sent.Some? || Deliveries(e.outcome) != [] || (Oldest(p) in p.send && Oldest(p) !in e.peer.send)
  }

  /** A peer that owes nothing and has its lock free is stuck exactly if no call on it and no
      packet that the other one sent gets it anywhere. */
  lemma StuckNowIff<D(!new)>(x: Node<D, D>, y: Node<D, D>, d: D)
    requires Reachable(x, y) && x.peer.cap > 2 && x.peer.replies == multiset{} && !x.peer.locked
    ensures Stuck(x, y) <==> forall op :: Enabled(x, y, op) ==> !Moves(x.peer, op)
  {
    hide Inv, Books, Reachable, Moves, Enabled, Stuck;
    ReachableGood(x, y);
    if Stuck(x, y) {
      forall op | Enabled(x, y, op)
        ensures !Moves(x.peer, op)
      {
        NothingMoves(x, y, op);
      }
    } else {
      var op := WhatMoves(x, y, d);
    }
  }

  lemma NothingMoves<D>(x: Node<D, D>, y: Node<D, D>, op: Op<D, D>)
    requires Inv(x, y) && Stuck(x, y) && Enabled(x, y, op)
    ensures !Moves(x.peer, op)
  {
    assert x.peer.cap > 0;
    hide Inv, Enabled, Stuck, Apply, Booked, Answers, Has;
    NothingPasses(x, y, op);
    if Apply(x.peer, op).sent.Some? { SendUnfolds(x.peer, op); }
    assert |x.log + Deliveries(Apply(x.peer, op).outcome)| == |x.log|;
  }

  lemma WhatMoves<D>(x: Node<D, D>, y: Node<D, D>, d: D) returns (op: Op<D, D>)
    requires Inv(x, y) && x.peer.cap > 2 && x.peer.replies == multiset{} && !x.peer.locked && !Stuck(x, y)
    ensures Enabled(x, y, op) && Moves(x.peer, op)
  {
    hide Inv, Bounded, Fullness, Receive;
    InvFacts(y, x) by { InvSymmetric(x, y); }
    var o := Oldest(x.peer);
    if o !in x.peer.send {
      op := DoSend(0, false, d);
      SendsNow(x.peer, op);
    } else if Ack(o) in y.out {
      op := DoReceive(Ack(o));
      AckFrees(x.peer, o);
    } else {
      var s :| Answering(y, s, o) && !(y.sent[s].seqCst && s != x.peer.nextRecv);
      op := DoReceive(Data(s, y.sent[s]));
      FreshReply(x, y, s);
      RoomFor(x.peer, s, y.sent[s]);
      ReceiveCases(x.peer, x.first, s, y.sent[s]);
    }
  }

  lemma SendsNow<S, R>(p: Peer<S, R>, op: Op<S, R>)
    requires p.cap > 2 && p.replies == multiset{} && Oldest(p) !in p.send && op.DoSend?
    ensures Apply(p, op).sent.Some?
  {
    assert !Blocked(p, 0, None);
  }

  lemma AckFrees<S, R>(p: Peer<S, R>, o: int)
    requires p.cap > 0
    ensures o !in Apply<S, R>(p, DoReceive(Ack(o))).peer.send
  {
  }

  lemma FreshReply<D>(x: Node<D, D>, y: Node<D, D>, s: int)
    requires Inv(x, y) && Oldest(x.peer) in x.peer.send && Answering(y, s, Oldest(x.peer))
    ensures !Has(x, s) && x.peer.nextRecv <= s < x.peer.nextRecv + x.peer.cap
    ensures Enabled(x, y, DoReceive(Data(s, y.sent[s])))
  {
    hide Gate, Bounded, AnswersOk, Reserved;
    InvSymmetric(x, y);
    InRange(y, x, s);
  }

  lemma RoomFor<S, R>(p: Peer<S, R>, n: int, msg: Message<R>)
    requires PeerOk(p) && p.cap > 2 && p.replies == multiset{} && !p.locked
    requires Oldest(p) in p.send ==> msg.replyNo == Some(Oldest(p))
    requires msg.seqCst ==> n == p.nextRecv
    requires p.nextRecv <= n < p.nextRecv + p.cap
    ensures Receive(p, Data(n, msg)).1.Delivered?
  {
    SlotPeriod(p.nextSend, p.cap);
    SameSlot(Oldest(p), p.nextSend, p.cap);
    assert !Blocked(p, 0, msg.replyNo);
  }

  lemma InRange<D>(x: Node<D, D>, y: Node<D, D>, n: int)
    requires Inv(x, y) && n in x.sent && !Has(y, n)
    ensures y.peer.nextRecv <= n < y.peer.nextRecv + y.peer.cap
    ensures Enabled(y, x, DoReceive(Data(n, x.sent[n])))
  {
    hide Gate, Bounded, AnswersOk, Agree, Reserved;
    InvSymmetric(x, y);
    WindowsOverlap(y, x);
  }

  lemma InvFacts<D>(x: Node<D, D>, y: Node<D, D>)
    requires Inv(x, y)
    ensures PeerOk(y.peer) && y.first <= y.peer.nextRecv && y.peer.cap > 0
  {
  }

  // ---- A doomed peer stays doomed ----

  lemma StillStuck<D>(x: Node<D, D>, x': Node<D, D>, y: Node<D, D>)
    requires Stuck(x, y) && Still(x, x')
    ensures Stuck(x', y) && Oldest(x'.peer) == Oldest(x.peer) && x'.sent == x.sent && x'.answer == x.answer
  {
  }

  /** Whether a peer is stuck depends only on what the other one sent and acked. */
  lemma SameSentSameStuck<D>(x: Node<D, D>, y: Node<D, D>, y': Node<D, D>)
    requires Inv(x, y) && Inv(x, y') && y'.sent == y.sent && y'.answer == y.answer && Stuck(x, y)
    ensures Stuck(x, y')
    ensures forall s :: Answering(y, s, Oldest(x.peer)) ==> Answering(y', s, Oldest(x.peer))
  {
    hide Inv;
    AckedIff(x, y, Oldest(x.peer));
    AckedIff(x, y', Oldest(x.peer));
  }

  lemma DoomedAtX<D>(x: Node<D, D>, y: Node<D, D>, op: Op<D, D>)
    requires Inv(x, y) && Doomed(x, y) && Enabled(x, y, op)
    ensures var x' := Record(x, op); Inv(x', y) && Doomed(x', y) && Still(x, x')
  {
    assert x.peer.cap > 0;
    hide Inv, Enabled, Record, Stuck, Has, Answering, Still, Oldest;
    NothingPasses(x, y, op);
    var x' := Record(x, op);
    StillStuck(x, x', y);
    if Stuck(y, x) {
      InvSymmetric(x, y);
      InvSymmetric(x', y);
      SameSentSameStuck(y, x, x');
    }
  }

  lemma AnswerIsKept<D>(x: Node<D, D>, y: Node<D, D>, y': Node<D, D>, s: int)
    requires Inv(x, y') && Extends(y, y') && Stuck(x, y) && Answering(y, s, Oldest(x.peer))
    ensures Doomed(x, y')
  {
    hide Bounded, Reserved, Agree, PeerOk;
    var o := Oldest(x.peer);
    AckedIff(x, y', o);
    OneSuccessor(x, y', o);
    assert Answering(y', s, o);
    assert y'.answer[o] == ByReply(s);
  }

  lemma BothStayStuck<D>(x: Node<D, D>, y: Node<D, D>, y': Node<D, D>)
    requires Inv(x, y) && Inv(x, y') && Still(y, y')
    requires Stuck(x, y) && Stuck(y, x) && !Has(y, Oldest(x.peer))
    ensures Doomed(x, y')
  {
    hide Inv, Has, Stuck;
    StillStuck(y, y', x);
    SameSentSameStuck(x, y, y');
  }

  lemma DoomedAtY<D>(x: Node<D, D>, y: Node<D, D>, op: Op<D, D>)
    requires Inv(x, y) && Doomed(x, y) && Enabled(y, x, op)
    ensures var y' := Record(y, op); Inv(x, y') && Doomed(x, y')
  {
    assert y.peer.cap > 0;
    hide Inv, Enabled, Record, Stuck, Has, Answering, Still, Extends;
    InvSymmetric(x, y);
    StepInv(y, x, op);
    var y' := Record(y, op);
    InvSymmetric(x, y');
    if s :| Answering(y, s, Oldest(x.peer)) {
      OwedIsSent(y, x);
      StepExtends(y, op);
      AnswerIsKept(x, y, y', s);
    } else {
      NothingPasses(y, x, op);
      BothStayStuck(x, y, y');
    }
  }

  // ---- Continuations ----

  /** The events lead from s to t, each of them allowed where it happens. */
  ghost predicate Leads<D>(s: System<D>, evs: seq<Event<D>>, t: System<D>)
    decreases |evs|
  {
    if evs == [] then s == t
    else Sane(s) && Allowed(s, evs[0]) && Leads(Next(s, evs[0]), evs[1..], t)
  }

  /** Whatever the peers and the network do, a doomed peer delivers nothing more, and nothing
      more is accepted for sending. */
  lemma {:induction false} DoomedForever<D>(s: System<D>, evs: seq<Event<D>>, t: System<D>)
    requires Inv(s.a, s.b) && Doomed(s.a, s.b) && Leads(s, evs, t)
    ensures Doomed(t.a, t.b) && t.a.log == s.a.log && t.a.sent == s.a.sent
    ensures forall n :: Has(t.a, n) <==> Has(s.a, n)
    decreases |evs|
  {
    hide Inv, Doomed, Enabled, Record, Has;
    if evs == [] {
    } else {
      match evs[0] {
        case AtA(op) => DoomedAtX(s.a, s.b, op);
        case AtB(op) => DoomedAtY(s.a, s.b, op);
      }
      DoomedForever(Next(s, evs[0]), evs[1..], t);
    }
  }

  lemma {:induction false} LeadsKeeps<D>(s: System<D>, evs: seq<Event<D>>, t: System<D>)
    requires Inv(s.a, s.b) && Leads(s, evs, t)
    ensures Inv(t.a, t.b) && Extends(s.a, t.a) && Extends(s.b, t.b)
    decreases |evs|
  {
    hide Inv, Enabled, Record;
    if evs == [] {
    } else {
      OneStepKeeps(s, evs[0]);
      LeadsKeeps(Next(s, evs[0]), evs[1..], t);
    }
  }

  lemma OneStepKeeps<D>(s: System<D>, ev: Event<D>)
    requires Inv(s.a, s.b) && Sane(s) && Allowed(s, ev)
    ensures var t := Next(s, ev); Inv(t.a, t.b) && Extends(s.a, t.a) && Extends(s.b, t.b)
  {
    hide Inv, Enabled, Record;
    InvSymmetric(s.a, s.b);
    match ev
    case AtA(op) =>
      StepInv(s.a, s.b, op);
      OwedIsSent(s.a, s.b);
      StepExtends(s.a, op);
    case AtB(op) =>
      StepInv(s.b, s.a, op);
      InvSymmetric(s.a, Record(s.b, op));
      OwedIsSent(s.b, s.a);
      StepExtends(s.b, op);
  }

  ghost function Swap<D>(s: System<D>): System<D> { System(s.b, s.a) }

  ghost function Mirror<D>(evs: seq<Event<D>>): seq<Event<D>> {
    if evs == [] then [] else [if evs[0].AtA? then AtB(evs[0].op) else AtA(evs[0].op)] + Mirror(evs[1..])
  }

  /** Both peers are alike. */
  lemma {:induction false} LeadsMirror<D>(s: System<D>, evs: seq<Event<D>>, t: System<D>)
    requires Leads(s, evs, t)
    ensures Leads(Swap(s), Mirror(evs), Swap(t))
    decreases |evs|
  {
    hide Enabled, Record;
    if evs == [] {
    } else {
      LeadsMirror(Next(s, evs[0]), evs[1..], t);
      assert Mirror(evs)[1..] == Mirror(evs[1..]);
    }
  }

  lemma {:induction false} LeadsJoin<D>(s: System<D>, a: seq<Event<D>>, t: System<D>, b: seq<Event<D>>, u: System<D>)
    requires Leads(s, a, t) && Leads(t, b, u)
    ensures Leads(s, a + b, u)
    decreases |a|
  {
    hide Enabled, Record;
    if a == [] {
      assert a + b == b;
    } else {
      LeadsJoin(Next(s, a[0]), a[1..], t, b, u);
      assert (a + b)[1..] == a[1..] + b;
    }
  }

  /** Some continuation of s comes to t. */
  ghost predicate Reaches<D(!new)>(s: System<D>, t: System<D>) {
    exists evs :: Leads(s, evs, t)
  }

  lemma ReachesKeeps<D(!new)>(s: System<D>, t: System<D>)
    requires Inv(s.a, s.b) && Reaches(s, t)
    ensures Inv(t.a, t.b) && Extends(s.a, t.a) && Extends(s.b, t.b)
  {
    hide Leads, Inv;
    var evs :| Leads(s, evs, t);
    LeadsKeeps(s, evs, t);
  }

  lemma ReachesDoomed<D(!new)>(s: System<D>, t: System<D>)
    requires Inv(s.a, s.b) && Doomed(s.a, s.b) && Reaches(s, t)
    ensures Doomed(t.a, t.b) && t.a.log == s.a.log && t.a.sent == s.a.sent
    ensures forall n :: Has(t.a, n) <==> Has(s.a, n)
  {
    hide Leads, Inv, Doomed, Has;
    var evs :| Leads(s, evs, t);
    DoomedForever(s, evs, t);
  }

  lemma ReachesSwapped<D(!new)>(s: System<D>, t: System<D>)
    requires Reaches(s, t)
    ensures Reaches(Swap(s), Swap(t))
  {
    hide Leads;
    var evs :| Leads(s, evs, t);
    LeadsMirror(s, evs, t);
  }

  lemma ReachesOn<D(!new)>(s: System<D>, t: System<D>, u: System<D>)
    requires Reaches(s, t) && Reaches(t, u)
    ensures Reaches(s, u)
  {
    hide Leads;
    var a :| Leads(s, a, t);
    var b :| Leads(t, b, u);
    LeadsJoin(s, a, t, b, u);
  }
}
