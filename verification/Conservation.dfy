/** Data handed to the send window stays there until an ack or a reply hands it back. */
module Conservation {
  import opened Protocol
  import opened PeerInvariants
  import opened History
  import opened Delivering
  import opened Reservations

  /** The numbers of the entries holding `d`. */
  ghost function Holding<S>(send: map<int, SendEntry<S>>, d: S): set<int> {
    set k | k in send && send[k].msg.data == d
  }

  /** How many copies of `d` went into the window and are unaccounted for. */
  ghost function Missing<S, R>(x: Node<S, R>, d: S): int {
    x.books.accepted[d] - |Holding(x.peer.send, d)| - x.books.returned[d]
  }

  /** How many copies of `d` the application gave away and will never see again. */
  ghost function Lost<S, R>(x: Node<S, R>, d: S): int {
    x.books.offered[d] - |Holding(x.peer.send, d)| - x.books.returned[d] - x.books.refused[d]
  }

  /** As multisets: what went into the window is there still or was handed back, once. */
  ghost predicate WindowKept<S(!new), R>(x: Node<S, R>) {
    forall d :: Missing(x, d) == 0
  }

  /** As multisets: the data given to sends and replies is still in the window, or was handed
      back: by the send that refused it, or later by an ack or a reply, and only once. */
  ghost predicate Conserved<S(!new), R>(x: Node<S, R>) {
    forall d :: Lost(x, d) == 0
  }

  /** A reply to an issued number is put into a slot that is still taken. */
  ghost predicate Overwrites<S, R>(p: Peer<S, R>, op: Op<S, R>) {
    op.DoReply? && op.replyNo in p.replies && p.nextSend - p.cap in p.send
  }

  /** Nothing but such a reply is ever put into a taken slot: a send finds its slot empty. */
  lemma OverwritesIff<S, R>(p: Peer<S, R>, op: Op<S, R>)
    requires p.cap > 0
    ensures Overwrites(p, op) <==> Apply(p, op).sent.Some? && p.nextSend - p.cap in p.send
  {
    hide Fullness, Insert, Receive, Pump, Service;
    if op.DoSend? && Fullness(p, None) == HasRoom { RoomFacts(p, None, 0); }
  }

  /** A reply is given data although its number was never issued, or used up before. */
  ghost predicate Discards<S, R>(p: Peer<S, R>, op: Op<S, R>) {
    op.DoReply? && op.replyNo !in p.replies
  }

  ghost function One(b: bool): int { if b then 1 else 0 }

  lemma PutHolding<S>(send: map<int, SendEntry<S>>, k: int, e: SendEntry<S>, d: S)
    requires k !in send
    ensures |Holding(send[k := e], d)| == |Holding(send, d)| + One(e.msg.data == d)
  {
    assert Holding(send[k := e], d) == Holding(send, d) + if e.msg.data == d then {k} else {};
  }

  lemma TakeHolding<S>(send: map<int, SendEntry<S>>, k: int, d: S)
    ensures |Holding(send - {k}, d)| == |Holding(send, d)| - One(k in send && send[k].msg.data == d)
  {
    assert Holding(send - {k}, d) == Holding(send, d) - {k};
  }

  lemma InsertHolding<S, R>(p: Peer<S, R>, at: int, msg: Message<S>, d: S)
    requires PeerOk(p)
    ensures |Holding(Insert(p, at, msg).send, d)| == |Holding(p.send, d)| + One(msg.data == d)
              - One(p.nextSend - p.cap in p.send && p.send[p.nextSend - p.cap].msg.data == d)
  {
    TakeHolding(p.send, p.nextSend - p.cap, d);
    PutHolding(p.send - {p.nextSend - p.cap}, p.nextSend, SendEntry(msg, at), d);
  }

  lemma ServiceHolding<S, R>(p: Peer<S, R>, now: int, at: int, never: int, d: S)
    ensures Holding(Service(p, now, at, never).send, d) == Holding(p.send, d)
  {
  }

  /** Data taken out of the window by an arriving or pumped packet is handed back. */
  lemma DeliverHolding<S, R>(p: Peer<S, R>, q: Peer<S, R>, outcome: Outcome<int, S, R>, n: int, msg: Message<R>, d: S)
    requires p.cap > 0 && Takes(p, q, p.nextRecv, n, msg)
    requires outcome.Delivered? && outcome == OutcomeOf(p, msg, n, outcome.doPump)
    ensures |Holding(q.send, d)| + Returned(Some(outcome))[d] == |Holding(p.send, d)|
  {
    if msg.replyNo.Some? { TakeHolding(p.send, msg.replyNo.value, d); }
  }

  lemma ReceiveHolding<S, R>(p: Peer<S, R>, frame: Frame<R>, d: S)
    requires PeerOk(p)
    ensures |Holding(Receive(p, frame).0.send, d)| + Returned(Some(Receive(p, frame).1))[d] == |Holding(p.send, d)|
  {
    match frame
    case Ack(r) => TakeHolding(p.send, r, d);
    case Data(n, msg) =>
      ReceiveCases(p, p.nextRecv, n, msg);
      var (q, out) := Receive(p, frame);
      if out.Delivered? { DeliverHolding(p, q, out, n, msg, d); }
  }

  lemma PumpHolding<S, R>(p: Peer<S, R>, d: S)
    requires PeerOk(p)
    ensures |Holding(Pump(p).0.send, d)| + Returned(Some(Pump(p).1))[d] == |Holding(p.send, d)|
  {
    PumpCases(p, p.nextRecv);
    var (q, out) := Pump(p);
    if out.Delivered? { DeliverHolding(p, q, out, p.nextRecv, p.recv[p.nextRecv].msg, d); }
  }

  lemma SendHolding<S, R>(p: Peer<S, R>, op: Op<S, R>, d: S)
    requires PeerOk(p) && Apply(p, op).sent.Some?
    ensures |Holding(Apply(p, op).peer.send, d)| == |Holding(p.send, d)| + One(Apply(p, op).sent.value.data == d)
              - One(p.nextSend - p.cap in p.send && p.send[p.nextSend - p.cap].msg.data == d)
  {
    if op.DoSend? {
      InsertHolding(p, op.resendAt, Message(None, op.seqCst, op.data), d);
    } else {
      var q := Unreserve(p, op.replyNo, op.unlock);
      UnreserveKeeps(p, op.replyNo, op.unlock);
      InsertHolding(q, op.resendAt, Message(Some(op.replyNo), op.seqCst, op.data), d);
    }
  }

  /** What the operation took into the window, minus what it took out or handed back. */
  ghost function Leak<S, R>(p: Peer<S, R>, op: Op<S, R>, d: S): int
    requires p.cap > 0
  {
    var e := Apply(p, op);
    One(e.sent.Some? && e.sent.value.data == d) - Returned(e.outcome)[d]
    + |Holding(p.send, d)| - |Holding(e.peer.send, d)|
  }

  lemma MissingLeaks<S, R>(x: Node<S, R>, op: Op<S, R>, d: S)
    requires x.peer.cap > 0
    ensures Missing(Record(x, op), d) == Missing(x, d) + Leak(x.peer, op, d)
  {
    hide Apply, Holding, Returned, Answers, Deliveries;
  }

  lemma QuietLeaks<S, R>(p: Peer<S, R>, op: Op<S, R>, d: S)
    requires p.cap > 0 && !op.DoReceive? && !op.DoPumpOnce? && Apply(p, op).sent.None?
    ensures Leak(p, op, d) == 0
  {
    hide Holding, Fullness, Insert, Resent, Earliest;
    if op.DoService? { ServiceHolding(p, op.now, op.resendAt, op.never, d); }
  }

  lemma ArrivalLeaks<S, R>(p: Peer<S, R>, op: Op<S, R>, d: S)
    requires PeerOk(p) && (op.DoReceive? || op.DoPumpOnce?)
    ensures Leak(p, op, d) == 0
  {
    hide Bounded, Receive, Pump, Holding, Returned;
    if op.DoReceive? { ReceiveHolding(p, op.frame, d); } else { PumpHolding(p, d); }
  }

  /** Data leaks out of the window only where a message is put into a taken slot. */
  lemma LeakIs<S, R>(p: Peer<S, R>, op: Op<S, R>, d: S)
    requires PeerOk(p)
    ensures Leak(p, op, d) == One(Overwrites(p, op) && p.send[p.nextSend - p.cap].msg.data == d)
  {
    hide Bounded, Holding, Overwrites;
    OverwritesIff(p, op);
    if op.DoReceive? || op.DoPumpOnce? {
      ArrivalLeaks(p, op, d);
      ArrivalSendsNothing(p, op);
    } else if Apply(p, op).sent.Some? {
      hide Apply;
      SendHolding(p, op, d);
      SendReturnsNothing(p, op);
    } else {
      QuietLeaks(p, op, d);
    }
  }

  /** What one operation does to the account of `d`. */
  lemma MissingStep<S, R>(x: Node<S, R>, op: Op<S, R>, d: S)
    requires PeerOk(x.peer)
    ensures Missing(Record(x, op), d) ==
      Missing(x, d) + One(Overwrites(x.peer, op) && x.peer.send[x.peer.nextSend - x.peer.cap].msg.data == d)
  {
    hide Bounded, Missing, Record, Leak, Overwrites;
    MissingLeaks(x, op, d);
    LeakIs(x.peer, op, d);
  }

  lemma ArrivalSendsNothing<S, R>(p: Peer<S, R>, op: Op<S, R>)
    requires p.cap > 0 && (op.DoReceive? || op.DoPumpOnce?)
    ensures Apply(p, op).sent == None
  {
    hide Receive, Pump;
  }

  lemma SendReturnsNothing<S, R>(p: Peer<S, R>, op: Op<S, R>)
    requires p.cap > 0 && Apply(p, op).sent.Some?
    ensures Returned(Apply(p, op).outcome) == multiset{}
  {
    hide Receive, Pump, Fullness, Insert;
  }

  /** The two accounts differ by the data that replies to numbers not issued threw away. */
  lemma LostStep<S, R>(x: Node<S, R>, op: Op<S, R>, d: S)
    requires PeerOk(x.peer)
    ensures Lost(Record(x, op), d) - Lost(x, d) ==
      Missing(Record(x, op), d) - Missing(x, d) + One(Discards(x.peer, op) && op.data == d)
  {
    hide Bounded, Receive, Pump, Fullness, Insert, Holding, Service;
  }

  /** The window loses and repeats nothing, except when a message is put into a taken slot. */
  lemma WindowKeptIff<S(!new), R>(x: Node<S, R>, op: Op<S, R>)
    requires PeerOk(x.peer) && WindowKept(x)
    ensures WindowKept(Record(x, op)) <==> !Overwrites(x.peer, op)
  {
    hide Bounded, Apply, Record, Missing;
    forall d ensures Missing(Record(x, op), d) ==
      One(Overwrites(x.peer, op) && x.peer.send[x.peer.nextSend - x.peer.cap].msg.data == d)
    {
      MissingStep(x, op, d);
    }
    if Overwrites(x.peer, op) {
      assert Missing(Record(x, op), x.peer.send[x.peer.nextSend - x.peer.cap].msg.data) == 1;
    }
  }

  // ---- All data given to sends and replies ----

  ghost predicate Loses<S, R>(p: Peer<S, R>, op: Op<S, R>)
    requires p.cap > 0
  {
    Overwrites(p, op) || Discards(p, op)
  }

  /** The data that a losing operation loses. */
  ghost function LostData<S, R>(p: Peer<S, R>, op: Op<S, R>): S
    requires p.cap > 0 && Loses(p, op)
  {
    if Overwrites(p, op) then p.send[p.nextSend - p.cap].msg.data else op.data
  }

  lemma LossStep<S, R>(x: Node<S, R>, op: Op<S, R>, d: S)
    requires PeerOk(x.peer)
    ensures Lost(Record(x, op), d) == Lost(x, d) + One(Loses(x.peer, op) && LostData(x.peer, op) == d)
  {
    hide Bounded, Record, Lost, Missing;
    MissingStep(x, op, d);
    LostStep(x, op, d);
  }

  /** No operation loses or repeats data, except a message put into a taken slot, and a reply
      to a number that was not issued; and a loss is never made up for. */
  lemma ConservedIff<S(!new), R>(x: Node<S, R>, op: Op<S, R>)
    requires PeerOk(x.peer) && forall d :: Lost(x, d) >= 0
    ensures Conserved(Record(x, op)) <==> Conserved(x) && !Loses(x.peer, op)
    ensures forall d :: Lost(Record(x, op), d) >= 0
  {
    hide Bounded, Record, Lost, Loses, LostData;
    var x' := Record(x, op);
    forall d
      ensures Lost(x', d) == Lost(x, d) + One(Loses(x.peer, op) && LostData(x.peer, op) == d)
    {
      LossStep(x, op, d);
    }
    if Loses(x.peer, op) {
      assert Lost(x', LostData(x.peer, op)) > 0;
    }
    if !Conserved(x) {
      var d :| Lost(x, d) != 0;
      assert Lost(x', d) > 0;
    }
  }

  // ---- Whole runs ----

  /** Step k of the run loses data. */
  ghost predicate LosesAt<S, R>(cap: int, first: int, never: int, ops: seq<Op<S, R>>, k: int)
    requires cap >= 2 && 0 <= k < |ops|
  {
    Loses(Run(cap, first, never, ops[..k]).peer, ops[k])
  }

  ghost predicate NeverLoses<S, R>(cap: int, first: int, never: int, ops: seq<Op<S, R>>)
    requires cap >= 2
  {
    forall k :: 0 <= k < |ops| ==> !LosesAt(cap, first, never, ops, k)
  }

  lemma NeverLosesSnoc<S, R>(cap: int, first: int, never: int, pre: seq<Op<S, R>>, op: Op<S, R>)
    requires cap >= 2
    ensures NeverLoses(cap, first, never, pre + [op]) <==>
            NeverLoses(cap, first, never, pre) && !Loses(Run(cap, first, never, pre).peer, op)
  {
    hide Run, Loses;
    var ops := pre + [op];
    forall k | 0 <= k < |pre|
      ensures LosesAt(cap, first, never, ops, k) <==> LosesAt(cap, first, never, pre, k)
    {
      assert ops[..k] == pre[..k];
    }
    assert ops[..|pre|] == pre;
    assert LosesAt(cap, first, never, ops, |pre|) <==> Loses(Run(cap, first, never, pre).peer, op);
  }

  lemma StartsEven<S, R>(cap: int, first: int, never: int, d: S)
    ensures Lost<S, R>(Start(cap, first, never), d) == 0 && Missing<S, R>(Start(cap, first, never), d) == 0
  {
    var x: Node<S, R> := Start(cap, first, never);
    assert Holding(x.peer.send, d) == {};
  }

  /** Whatever packets arrive, all data given to sends and replies is accounted for exactly
      when no step of the run puts a message into a taken slot or replies to a number that was
      not issued. */
  lemma {:induction false} AllConservedIff<S(!new), R>(cap: int, first: int, never: int, ops: seq<Op<S, R>>)
    requires cap >= 2
    ensures Conserved(Run(cap, first, never, ops)) <==> NeverLoses(cap, first, never, ops)
    ensures forall d :: Lost(Run(cap, first, never, ops), d) >= 0
  {
    hide Lost, Record, Loses;
    if ops == [] {
      forall d ensures Lost(Run(cap, first, never, ops), d) == 0 { StartsEven<S, R>(cap, first, never, d); }
    } else {
      var pre, op := ops[..|ops| - 1], ops[|ops| - 1];
      assert ops == pre + [op];
      AllConservedIff(cap, first, never, pre);
      NeverLosesSnoc(cap, first, never, pre, op);
      ConservedIff(Run(cap, first, never, pre), op);
    }
  }

  /** A reply to a number that was never issued loses its data. */
  lemma UnissuedReplyLoses<S(!new), R>(d: S)
    ensures var ops: seq<Op<S, R>> := [DoReply(0, 0, false, false, d)];
      Lost(Run(4, 0, 1, ops), d) > 0
  {
    var ops: seq<Op<S, R>> := [DoReply(0, 0, false, false, d)];
    var x: Node<S, R> := Start(4, 0, 1);
    hide Record, Lost;
    assert ops[..0] == [];
    assert Run(4, 0, 1, ops[..0]) == x;
    assert Run(4, 0, 1, ops) == Record(Run(4, 0, 1, ops[..0]), ops[0]);
    StartsEven<S, R>(4, 0, 1, d);
    LossStep(x, ops[0], d);
    assert Discards(x.peer, ops[0]) && !Overwrites(x.peer, ops[0]);
  }
}
