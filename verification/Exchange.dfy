/** Whole runs of two peers over a network that loses, repeats and reorders, and what both
    may rely on. */
module Exchange {
  import opened Protocol
  import opened PeerInvariants
  import opened History
  import opened Delivering
  import opened Reservations
  import opened Conservation
  import opened TwoPeers

  datatype System<D> = System(a: Node<D, D>, b: Node<D, D>)

  datatype Event<D> = AtA(op: Op<D, D>) | AtB(op: Op<D, D>)

  ghost predicate Sane<D>(s: System<D>) { s.a.peer.cap >= 2 && s.b.peer.cap >= 2 }

  ghost function Next<D>(s: System<D>, ev: Event<D>): System<D>
    requires Sane(s)
  {
    match ev
    case AtA(op) => s.(a := Record(s.a, op))
    case AtB(op) => s.(b := Record(s.b, op))
  }

  /** A peer receives only what the other one sent, and no copy takes the branch that
      delivers a number a second time. */
  ghost predicate Allowed<D>(s: System<D>, ev: Event<D>)
    requires Sane(s)
  {
    match ev
    case AtA(op) => Enabled(s.a, s.b, op)
    case AtB(op) => Enabled(s.b, s.a, op)
  }

  ghost function Begin<D>(cap: int, first: int, never: int): System<D> {
    System(Start(cap, first, never), Start(cap, first, never))
  }

  ghost predicate IsStep<D>(s: System<D>, ev: Event<D>, t: System<D>) {
    Sane(s) && Allowed(s, ev) && t == Next(s, ev)
  }

  /** A run: its states, from the beginning on, and the events between them. */
  ghost predicate IsRun<D>(cap: int, first: int, never: int, states: seq<System<D>>, evs: seq<Event<D>>) {
    && cap >= 2 && |states| == |evs| + 1
    && states[0] == Begin(cap, first, never)
    && (forall i :: 0 <= i < |states| ==> Sane(states[i]))
    && (forall i :: 0 <= i < |evs| ==> IsStep(states[i], evs[i], states[i + 1]))
  }

  /** x and y are the two peers, either way round, at the end of some run. */
  ghost predicate Reachable<D(!new)>(x: Node<D, D>, y: Node<D, D>) {
    exists cap, first, never, states: seq<System<D>>, evs: seq<Event<D>> ::
      && IsRun(cap, first, never, states, evs)
      && (states[|evs|] == System(x, y) || states[|evs|] == System(y, x))
  }

  ghost predicate Books<D(!new)>(x: Node<D, D>) {
    && LogOk(x) && SeqCstOrdered(x.log) && SeqCstBarrier(x.log, x.first)
    && (forall n :: AtMostOnce(x.log, n))
    && WindowKept(x) && (forall d :: Lost(x, d) >= 0)
  }

  ghost predicate Good<D(!new)>(s: System<D>) { Inv(s.a, s.b) && Books(s.a) && Books(s.b) }

  lemma StepBooks<D(!new)>(x: Node<D, D>, y: Node<D, D>, op: Op<D, D>)
    requires Inv(x, y) && Books(x) && Enabled(x, y, op)
    ensures Books(Record(x, op))
  {
    hide LogOk, Record, Lost, WindowKept, Bounded;
    LogStep(x, op);
    forall n ensures AtMostOnce(Record(x, op).log, n) { OnceMore(x, op, n); }
    NeverOverwrites(x, op);
    WindowKeptIff(x, op);
    ConservedIff(x, op);
  }

  lemma NeverOverwrites<D>(x: Node<D, D>, op: Op<D, D>)
    requires NodeOk(x)
    ensures !Overwrites(x.peer, op)
  {
    hide Apply, Bounded, AnswersOk;
    if Apply(x.peer, op).sent.Some? { SlotIsFree(x.peer, op); }
  }

  lemma NextGood<D(!new)>(s: System<D>, ev: Event<D>)
    requires Good(s) && Allowed(s, ev)
    ensures Good(Next(s, ev))
  {
    match ev
    case AtA(op) => StepInv(s.a, s.b, op); StepBooks(s.a, s.b, op);
    case AtB(op) => StepInv(s.b, s.a, op); StepBooks(s.b, s.a, op);
  }

  lemma StepGood<D(!new)>(s: System<D>, ev: Event<D>, t: System<D>)
    requires Good(s) && IsStep(s, ev, t)
    ensures Good(t)
  {
    hide Good, Enabled, Record;
    NextGood(s, ev);
  }

  lemma BeginGood<D(!new)>(cap: int, first: int, never: int)
    requires cap >= 2
    ensures Good<D>(Begin(cap, first, never))
  {
    var x: Node<D, D> := Start(cap, first, never);
    assert forall n :: !WasDelivered(x.peer, first, n);
    forall d: D ensures Missing(x, d) == 0 && Lost(x, d) == 0 { StartsEven<D, D>(cap, first, never, d); }
  }

  /** Every state of every run satisfies the invariant, and both peers' books are in order. */
  lemma {:induction false} RunGood<D(!new)>(cap: int, first: int, never: int,
                                            states: seq<System<D>>, evs: seq<Event<D>>, i: int)
    requires IsRun(cap, first, never, states, evs) && 0 <= i <= |evs|
    ensures Good(states[i])
  {
    hide Good, IsStep, Begin;
    if i == 0 {
      BeginGood<D>(cap, first, never);
    } else {
      RunGood(cap, first, never, states, evs, i - 1);
      StepGood(states[i - 1], evs[i - 1], states[i]);
    }
  }

  lemma ReachableGood<D(!new)>(x: Node<D, D>, y: Node<D, D>)
    requires Reachable(x, y)
    ensures Inv(x, y) && Books(x) && Books(y)
  {
    var cap, first, never, states: seq<System<D>>, evs: seq<Event<D>> :|
      && IsRun(cap, first, never, states, evs)
      && (states[|evs|] == System(x, y) || states[|evs|] == System(y, x));
    RunGood(cap, first, never, states, evs, |evs|);
  }

  lemma ReachableStart<D(!new)>(cap: int, first: int, never: int)
    requires cap >= 2
    ensures Reachable<D>(Start(cap, first, never), Start(cap, first, never))
  {
    var states: seq<System<D>> := [Begin(cap, first, never)];
    assert IsRun(cap, first, never, states, []);
  }

  lemma ReachableSymmetric<D(!new)>(x: Node<D, D>, y: Node<D, D>)
    requires Reachable(x, y)
    ensures Reachable(y, x)
  {
    hide IsStep, Begin, Sane;
  }

  /** An enabled step of either peer leads on to a reachable state. */
  lemma ReachableStep<D(!new)>(x: Node<D, D>, y: Node<D, D>, op: Op<D, D>)
    requires Reachable(x, y) && x.peer.cap > 0 && Enabled(x, y, op)
    ensures Reachable(Record(x, op), y)
  {
    hide IsStep, Begin, Enabled, Record, Inv, Books;
    var cap, first, never, states: seq<System<D>>, evs: seq<Event<D>> :|
      && IsRun(cap, first, never, states, evs)
      && (states[|evs|] == System(x, y) || states[|evs|] == System(y, x));
    ReachableGood(x, y);
    StaysSane(x, y, op);
    RunReaches(cap, first, never, states, evs, x, y, op);
  }

  lemma RunReaches<D(!new)>(cap: int, first: int, never: int, states: seq<System<D>>, evs: seq<Event<D>>,
                            x: Node<D, D>, y: Node<D, D>, op: Op<D, D>)
    requires IsRun(cap, first, never, states, evs)
    requires states[|evs|] == System(x, y) || states[|evs|] == System(y, x)
    requires x.peer.cap > 0 && Enabled(x, y, op) && Record(x, op).peer.cap >= 2
    ensures Reachable(Record(x, op), y)
  {
    hide Enabled, Record, Begin, IsStep;
    var ev := if states[|evs|] == System(x, y) then AtA(op) else AtB(op);
    RunExtends(cap, first, never, states, evs, ev);
  }

  lemma StaysSane<D>(x: Node<D, D>, y: Node<D, D>, op: Op<D, D>)
    requires Inv(x, y)
    ensures Record(x, op).peer.cap >= 2
  {
    hide Bounded, Record, Apply, Agree;
    ApplyKeeps(x.peer, op);
    RecordPeer(x, op);
  }

  lemma RunExtends<D(!new)>(cap: int, first: int, never: int, states: seq<System<D>>, evs: seq<Event<D>>, ev: Event<D>)
    requires IsRun(cap, first, never, states, evs)
    requires Allowed(states[|evs|], ev) && Sane(Next(states[|evs|], ev))
    ensures IsRun(cap, first, never, states + [Next(states[|evs|], ev)], evs + [ev])
  {
    hide Allowed, Next, Begin;
    var states', evs' := states + [Next(states[|evs|], ev)], evs + [ev];
    forall i | 0 <= i < |evs'|
      ensures IsStep(states'[i], evs'[i], states'[i + 1])
    {
      if i < |evs| { assert IsStep(states[i], evs[i], states[i + 1]); }
    }
  }

  /** The same, both ways round, with what the step does to its peer and the network. */
  lemma Steps<D(!new)>(x: Node<D, D>, y: Node<D, D>, op: Op<D, D>)
    requires Reachable(x, y) && x.peer.cap > 0 && Enabled(x, y, op)
    ensures var x' := Record(x, op);
      && Reachable(x', y) && Reachable(y, x')
      && x'.peer == Apply(x.peer, op).peer && x'.out == x.out + Apply(x.peer, op).emitted
  {
    hide Apply, Booked, Answers, Deliveries, Reachable, Redelivers;
    ReachableStep(x, y, op);
    ReachableSymmetric(Record(x, op), y);
  }

  // ---- What every run guarantees ----

  /** Topology: whatever x delivers is what y sent under that number, for the first time; a
      reply is handed over together with exactly the packet it answers, which y delivered
      once and answered only this way. */
  lemma TopologyAgreement<D(!new)>(x: Node<D, D>, y: Node<D, D>, op: Op<D, D>)
    requires Reachable(x, y) && Enabled(x, y, op)
    requires Deliveries(Apply(x.peer, op).outcome) != []
    ensures var ok := Apply(x.peer, op).outcome.value.ok;
      var s := ok.replyNo;
      && s in y.sent && ok.recvData == y.sent[s].data && ok.seqCst == y.sent[s].seqCst
      && !Logged(x.log, s)
      && match y.sent[s].replyNo
         case None => ok.Payload?
         case Some(r) =>
           && ok.Reply? && r in x.sent && ok.sendData == x.sent[r].data
           && Logged(y.log, r) && AtMostOnce(y.log, r)
           && (forall k :: k in y.sent && y.sent[k].replyNo == Some(r) ==> k == s)
           && Ack(r) !in y.out
  {
    hide Apply, Inv, WasDelivered, SeqCstBarrier, SeqCstOrdered, Deliveries, Enabled;
    ReachableGood(x, y);
    WhatIsDelivered(x, y, op);
    ReplyPairs(x, y, Apply(x.peer, op).outcome.value.ok.replyNo);
  }

  /** A delivery is that of a packet of y, under its number, which x did not have before. */
  lemma WhatIsDelivered<D>(x: Node<D, D>, y: Node<D, D>, op: Op<D, D>)
    requires Inv(x, y) && Enabled(x, y, op) && Deliveries(Apply(x.peer, op).outcome) != []
    ensures var out := Apply(x.peer, op).outcome;
      && out.Some? && out.value.Delivered? && !out.value.ok.Acked?
      && var s := out.value.ok.replyNo;
      s in y.sent && !Has(x, s) && out.value == OutcomeOf(x.peer, y.sent[s], s, out.value.doPump)
  {
    hide Receive, Pump, Bounded, Reserved, AnswersOk, Gate;
    if op.DoReceive? {
      match op.frame {
        case Ack(r) => AckDelivers(x.peer, r);
        case Data(n, msg) => ReceiveCases(x.peer, x.first, n, msg);
      }
    } else {
      OnlyThesePass(x.peer, op);
      PumpCases(x.peer, x.first);
    }
  }

  lemma OnlyThesePass<S, R>(p: Peer<S, R>, op: Op<S, R>)
    requires p.cap > 0 && Deliveries(Apply(p, op).outcome) != []
    ensures op.DoReceive? || op.DoPumpOnce?
  {
    hide Receive, Pump;
  }

  lemma ReplyPairs<D>(x: Node<D, D>, y: Node<D, D>, s: int)
    requires Inv(x, y) && s in y.sent && !Has(x, s)
    ensures match y.sent[s].replyNo
      case None => true
      case Some(r) =>
        && r in x.peer.send && r in x.sent && x.peer.send[r].msg == x.sent[r]
        && Has(y, r) && Ack(r) !in y.out
        && (forall k :: k in y.sent && y.sent[k].replyNo == Some(r) ==> k == s)
  {
    if y.sent[s].replyNo.Some? {
      ReplyFindsItsPacket(x, y, s);
      assert Ack(y.sent[s].replyNo.value) in y.out ==> Settled(x, y, y.sent[s].replyNo.value);
    }
  }

  /** An ack takes out exactly a packet that the remote delivered and chose to ack. */
  lemma AckEndsExchange<D(!new)>(x: Node<D, D>, y: Node<D, D>, r: int)
    requires Reachable(x, y) && Ack(r) in y.out && r in x.peer.send
    ensures r in x.sent && Receive(x.peer, Ack(r)).1 == Delivered(Acked(x.sent[r].data), false)
    ensures Logged(y.log, r) && r in y.answer && y.answer[r] == ByAck
    ensures forall k :: k in y.sent ==> y.sent[k].replyNo != Some(r)
  {
    ReachableGood(x, y);
    LiveAck(x, y, r);
  }

  lemma LiveAck<D>(x: Node<D, D>, y: Node<D, D>, r: int)
    requires Inv(x, y) && Ack(r) in y.out && r in x.peer.send
    ensures Has(y, r) && r in y.answer && y.answer[r] == ByAck && r in x.sent && x.peer.send[r].msg == x.sent[r]
    ensures forall k :: k in y.sent ==> y.sent[k].replyNo != Some(r)
  {
    assert Settled(x, y, r);
  }

  /** Every ack ever sent, repeated ones included, is for a delivered packet; and when that
      packet was answered by a reply, the reply had already been delivered. */
  lemma AckSoundness<D(!new)>(x: Node<D, D>, y: Node<D, D>, r: int)
    requires Reachable(x, y) && Ack(r) in y.out
    ensures Logged(y.log, r) && r !in y.peer.replies
    ensures forall s :: s in y.sent && y.sent[s].replyNo == Some(r) ==> Logged(x.log, s)
  {
    ReachableGood(x, y);
    assert Settled(x, y, r) && Has(y, r);
    forall s | s in y.sent && y.sent[s].replyNo == Some(r)
      ensures Logged(x.log, s)
    {
      assert Has(x, s);
    }
  }

  /** No exchange is orphaned: a packet still waiting in x's send window is undelivered, or
      being decided at y, or answered by a reply waiting in y's send window, or acked. */
  lemma NoOrphan<D(!new)>(x: Node<D, D>, y: Node<D, D>, r: int)
    requires Reachable(x, y) && r in x.peer.send
    ensures || !Logged(y.log, r)
            || r in y.peer.replies
            || (exists s :: s in y.peer.send && y.peer.send[s].msg.replyNo == Some(r))
            || Ack(r) in y.out
  {
    ReachableGood(x, y);
    if Logged(y.log, r) && r !in y.peer.replies && Ack(r) !in y.out {
      assert Has(y, r);
      var s := y.answer[r].seqNo;
      assert s in y.peer.send || Settled(y, x, s);
    }
  }

  lemma WindowsOverlap<D>(x: Node<D, D>, y: Node<D, D>)
    requires Inv(x, y)
    ensures y.peer.nextSend - y.peer.cap <= x.peer.nextRecv <= y.peer.nextSend
  {
    if x.peer.nextRecv > y.peer.nextSend {
      assert Has(x, x.peer.nextRecv - 1);
    }
    if x.peer.nextRecv < y.peer.nextSend {
      var n := x.peer.nextRecv;
      assert n in y.sent && !Has(x, n);
      assert n in y.peer.send || Settled(y, x, n);
    }
  }

  /** A repeated packet is never dropped in silence: its answer is being decided, or waits in
      the send window, or an ack is out, sent again if need be. */
  lemma DuplicateIsAnswered<D(!new)>(x: Node<D, D>, y: Node<D, D>, n: int, msg: Message<D>)
    requires Reachable(x, y) && Data(n, msg) in y.out && n < x.peer.nextRecv
    ensures Logged(x.log, n)
    ensures var x' := Record(x, DoReceive(Data(n, msg)));
      || n in x'.peer.replies
      || (exists k :: k in x'.peer.send && x'.peer.send[k].msg.replyNo == Some(n))
      || Ack(n) in x'.out
  {
    hide Record, Inv;
    ReachableGood(x, y);
    DuplicateAnswered(x, y, n, msg);
  }

  lemma DuplicateAnswered<D>(x: Node<D, D>, y: Node<D, D>, n: int, msg: Message<D>)
    requires Inv(x, y) && Data(n, msg) in y.out && n < x.peer.nextRecv
    ensures Has(x, n)
    ensures var x' := Record(x, DoReceive(Data(n, msg)));
      AnswerPending(x'.peer, n) || Ack(n) in x'.out
  {
    hide Bounded, Reserved, AnswersOk;
    RecordReceive(x, Data(n, msg));
  }

  /** The windows of both ends overlap, so an arriving packet is never above range. */
  lemma WindowAgreement<D(!new)>(x: Node<D, D>, y: Node<D, D>)
    requires Reachable(x, y)
    ensures y.peer.nextSend - y.peer.cap <= x.peer.nextRecv <= y.peer.nextSend
    ensures forall frame :: frame in y.out ==> Receive(x.peer, frame).1 != Refused(DroppedTooEarly)
  {
    hide Receive, Settled, AnswersOk;
    ReachableGood(x, y);
    WindowsOverlap(x, y);
    forall frame | frame in y.out
      ensures Receive(x.peer, frame).1 != Refused(DroppedTooEarly)
    {
      NeverTooEarly(x.peer, frame);
    }
  }

  lemma NeverTooEarly<S, R>(p: Peer<S, R>, frame: Frame<R>)
    requires p.cap > 0 && (frame.Data? ==> frame.seqNo < p.nextRecv + p.cap)
    ensures Receive(p, frame).1 != Refused(DroppedTooEarly)
  {
  }

  /** The next send slots are kept empty for the replies owed, so a reply or an ack for an
      issued number always succeeds and displaces nothing. */
  lemma ReservationSafety<D(!new)>(x: Node<D, D>, y: Node<D, D>, r: int, op: Op<D, D>)
    requires Reachable(x, y)
    requires (op.DoReply? || op.DoAck?) && op.replyNo == r
    ensures |x.peer.replies| <= x.peer.cap - 2 && Reserved(x.peer)
    ensures forall k :: k in x.peer.send ==> x.peer.nextSend - x.peer.cap <= k < x.peer.nextSend
    ensures r in x.peer.replies <==> Apply(x.peer, op).emitted != {}
    ensures r in x.peer.replies ==> x.peer.replies[r] == 1 && r !in Apply(x.peer, op).peer.replies
    ensures !Overwrites(x.peer, op)
  {
    ReachableGood(x, y);
    AnswerSafety(x, r, op);
  }

  lemma AnswerSafety<D>(x: Node<D, D>, r: int, op: Op<D, D>)
    requires NodeOk(x) && (op.DoReply? || op.DoAck?) && op.replyNo == r
    ensures r in x.peer.replies <==> Apply(x.peer, op).emitted != {}
    ensures r in x.peer.replies ==> x.peer.replies[r] == 1 && r !in Apply(x.peer, op).peer.replies
    ensures !Overwrites(x.peer, op)
  {
    hide Bounded, Insert;
    if Apply(x.peer, op).sent.Some? { SlotIsFree(x.peer, op); }
    if r in x.peer.replies {
      assert (if op.DoReply? then Data(x.peer.nextSend, Message(Some(r), op.seqCst, op.data)) else Ack(r))
             in Apply(x.peer, op).emitted;
      ReplyLeaves(x.peer, r, op);
    }
  }

  lemma ReplyLeaves<D>(p: Peer<D, D>, r: int, op: Op<D, D>)
    requires p.cap > 0 && (op.DoReply? || op.DoAck?) && op.replyNo == r && p.replies[r] == 1
    ensures r !in Apply(p, op).peer.replies
  {
  }

  /** Every number is delivered at most once; SeqCst packets in order and after everything
      sent before them; and no data that was sent is lost or handed back twice. */
  lemma LosslessOrderedDelivery<D(!new)>(x: Node<D, D>, y: Node<D, D>, n: int)
    requires Reachable(x, y)
    ensures AtMostOnce(x.log, n)
    ensures Logged(x.log, n) ==> n in y.sent
    ensures n in y.sent && !Logged(x.log, n) ==> n in y.peer.send && y.peer.send[n].msg == y.sent[n]
    ensures SeqCstOrdered(x.log) && SeqCstBarrier(x.log, x.first)
    ensures WindowKept(x)
  {
    ReachableGood(x, y);
    if n in y.sent && !Logged(x.log, n) {
      assert !Has(x, n);
      assert n in y.peer.send || Settled(y, x, n);
    } else if Logged(x.log, n) {
      assert Has(x, n);
    }
  }

  /** All data the applications gave away is accounted for, exactly as long as nobody replies
      to a number that was not issued. */
  lemma {:induction false} DataConservedIff<D(!new)>(cap: int, first: int, never: int,
                                                     states: seq<System<D>>, evs: seq<Event<D>>, i: int)
    requires IsRun(cap, first, never, states, evs) && 0 <= i <= |evs|
    ensures Conserved(states[i].a) <==> forall j :: 0 <= j < i ==> !DiscardsAtA(states[j], evs[j])
    ensures Conserved(states[i].b) <==> forall j :: 0 <= j < i ==> !DiscardsAtB(states[j], evs[j])
  {
    hide Books, Lost, Record, Loses, Inv;
    if i == 0 {
      forall d ensures Lost(states[0].a, d) == 0 && Lost(states[0].b, d) == 0 {
        StartsEven<D, D>(cap, first, never, d);
      }
    } else {
      DataConservedIff(cap, first, never, states, evs, i - 1);
      RunGood(cap, first, never, states, evs, i - 1);
      assert IsStep(states[i - 1], evs[i - 1], states[i]);
      ConservedStep(states[i - 1], evs[i - 1]);
    }
  }

  ghost predicate DiscardsAtA<D>(s: System<D>, ev: Event<D>) { ev.AtA? && Discards(s.a.peer, ev.op) }

  ghost predicate DiscardsAtB<D>(s: System<D>, ev: Event<D>) { ev.AtB? && Discards(s.b.peer, ev.op) }

  lemma ConservedStep<D(!new)>(s: System<D>, ev: Event<D>)
    requires Good(s) && Sane(s)
    ensures Conserved(Next(s, ev).a) <==> Conserved(s.a) && !DiscardsAtA(s, ev)
    ensures Conserved(Next(s, ev).b) <==> Conserved(s.b) && !DiscardsAtB(s, ev)
  {
    hide Lost, Record, LogOk, Bounded, Agree, AnswersOk, Reserved;
    var x := if ev.AtA? then s.a else s.b;
    NeverOverwrites(x, ev.op);
    ConservedIff(x, ev.op);
  }
}
