/** What one peer delivers, for any stream of operations and any packets at all. */
module Delivering {
  import opened Protocol
  import opened PeerInvariants
  import opened History

  ghost predicate Logged(log: seq<Delivery>, n: int) {
    exists i :: 0 <= i < |log| && log[i].seqNo == n
  }

  ghost predicate AtMostOnce(log: seq<Delivery>, n: int) {
    forall i, j :: 0 <= i < j < |log| ==> !(log[i].seqNo == n && log[j].seqNo == n)
  }

  /** SeqCst packets are delivered in the order of their numbers. */
  ghost predicate SeqCstOrdered(log: seq<Delivery>) {
    forall i, j :: 0 <= i < j < |log| && log[i].seqCst && log[j].seqCst ==> log[i].seqNo < log[j].seqNo
  }

  /** Before a SeqCst packet every earlier number was delivered. */
  ghost predicate SeqCstBarrier(log: seq<Delivery>, first: int) {
    forall j, m :: 0 <= j < |log| && log[j].seqCst && first <= m < log[j].seqNo ==> Logged(log[..j], m)
  }

  /** The log, the counter and the window tell the same story. */
  ghost predicate LogOk<S, R>(x: Node<S, R>) {
    && PeerOk(x.peer) && x.first <= x.peer.nextRecv
    && (forall n :: Logged(x.log, n) <==> WasDelivered(x.peer, x.first, n))
    && (forall j :: 0 <= j < |x.log| && x.log[j].seqCst ==> x.log[j].seqNo < x.peer.nextRecv)
  }

  ghost predicate RedeliversOp<S, R>(p: Peer<S, R>, op: Op<S, R>)
    requires p.cap > 0
  {
    op.DoReceive? && Redelivers(p, op.frame)
  }

  /** An operation delivers at most one number; that number was delivered before exactly
      when the operation takes the redelivering branch; and a SeqCst packet is delivered
      only as the next number in sequence. */
  ghost predicate DeliversRight<S, R>(p: Peer<S, R>, first: int, op: Op<S, R>)
    requires p.cap > 0
  {
    var q, ds := Apply(p, op).peer, Deliveries(Apply(p, op).outcome);
    && p.nextRecv <= q.nextRecv
    && |ds| <= 1
    && (forall m :: WasDelivered(q, first, m) <==> WasDelivered(p, first, m) || (ds != [] && m == ds[0].seqNo))
    && (ds != [] ==>
         && (WasDelivered(p, first, ds[0].seqNo) <==> RedeliversOp(p, op))
         && (ds[0].seqCst ==> ds[0].seqNo == p.nextRecv < q.nextRecv))
    && (RedeliversOp(p, op) ==> ds != [] && ds[0].seqNo == op.frame.seqNo)
  }

  lemma ApplyReceive<S, R>(p: Peer<S, R>, frame: Frame<R>)
    requires p.cap > 0
    ensures var e := Apply<S, R>(p, DoReceive(frame));
      e.peer == Receive(p, frame).0 && e.outcome == Some(Receive(p, frame).1)
  {
    hide Receive;
  }

  lemma AckDelivers<S, R>(p: Peer<S, R>, r: int)
    requires p.cap > 0
    ensures var (q, out) := Receive(p, Ack(r));
      q.recv == p.recv && q.nextRecv == p.nextRecv && Deliveries(Some(out)) == []
  {
  }

  lemma ReceiveDeliversRight<S, R>(p: Peer<S, R>, first: int, frame: Frame<R>)
    requires PeerOk(p) && first <= p.nextRecv
    ensures DeliversRight<S, R>(p, first, DoReceive(frame))
  {
    hide Bounded, Apply, Receive, Gate, Fullness;
    ApplyReceive(p, frame);
    match frame
    case Ack(r) => AckDelivers(p, r);
    case Data(n, msg) =>
      ReceiveCases(p, first, n, msg);
      ReceiveAdvances(p, frame);
      if Redelivers(p, frame) { RedeliversIsDelivered(p, frame); }
  }

  lemma RedeliversIsDelivered<S, R>(p: Peer<S, R>, frame: Frame<R>)
    requires PeerOk(p) && Redelivers(p, frame)
    ensures Receive(p, frame).1.Delivered?
  {
    hide Gate;
  }

  lemma ReceiveAdvances<S, R>(p: Peer<S, R>, frame: Frame<R>)
    requires PeerOk(p)
    ensures p.nextRecv <= Receive(p, frame).0.nextRecv
  {
    AdvanceKeeps(p, p.nextRecv);
  }

  lemma PumpDeliversRight<S, R>(p: Peer<S, R>, first: int)
    requires PeerOk(p) && first <= p.nextRecv
    ensures DeliversRight<S, R>(p, first, DoPumpOnce)
  {
    AdvanceKeeps(p, first);
    PumpCases(p, first);
  }

  ghost predicate KeepsRecv<S, R>(p: Peer<S, R>, op: Op<S, R>)
    requires p.cap > 0
  {
    var e := Apply(p, op);
    e.peer.recv == p.recv && e.peer.nextRecv == p.nextRecv && e.outcome == None
  }

  lemma SendKeepsRecv<S, R>(p: Peer<S, R>, op: Op<S, R>)
    requires p.cap > 0 && (op.DoSend? || op.DoReply?)
    ensures KeepsRecv(p, op)
  {
    hide Fullness, Insert;
    match op
    case DoSend(at, cst, data) => InsertKeepsRecv(p, at, Message(None, cst, data));
    case DoReply(at, r, unlock, cst, data) =>
      InsertKeepsRecv(Unreserve(p, r, unlock), at, Message(Some(r), cst, data));
  }

  lemma InsertKeepsRecv<S, R>(p: Peer<S, R>, at: int, msg: Message<S>)
    ensures Insert(p, at, msg).recv == p.recv && Insert(p, at, msg).nextRecv == p.nextRecv
  {
  }

  lemma QuietKeepsRecv<S, R>(p: Peer<S, R>, op: Op<S, R>)
    requires p.cap > 0 && (op.DoAck? || op.DoUnlock? || op.DoService?)
    ensures KeepsRecv(p, op)
  {
    hide Resent, Earliest;
  }

  lemma OthersDeliverNothing<S, R>(p: Peer<S, R>, first: int, op: Op<S, R>)
    requires p.cap > 0 && !op.DoReceive? && !op.DoPumpOnce?
    ensures DeliversRight(p, first, op)
  {
    hide Apply;
    if op.DoSend? || op.DoReply? { SendKeepsRecv(p, op); } else { QuietKeepsRecv(p, op); }
  }

  lemma StepDelivers<S, R>(x: Node<S, R>, op: Op<S, R>)
    requires PeerOk(x.peer) && x.first <= x.peer.nextRecv
    ensures PeerOk(Apply(x.peer, op).peer)
    ensures DeliversRight(x.peer, x.first, op)
  {
    hide Bounded, Apply, DeliversRight;
    ApplyKeeps(x.peer, op);
    match op
    case DoReceive(frame) => ReceiveDeliversRight<S, R>(x.peer, x.first, frame);
    case DoPumpOnce => PumpDeliversRight<S, R>(x.peer, x.first);
    case _ => OthersDeliverNothing(x.peer, x.first, op);
  }

  lemma LogAppend(log: seq<Delivery>, d: Delivery, m: int)
    ensures Logged(log + [d], m) <==> Logged(log, m) || m == d.seqNo
  {
    if Logged(log, m) {
      var i :| 0 <= i < |log| && log[i].seqNo == m;
      assert (log + [d])[i].seqNo == m;
    }
    assert (log + [d])[|log|] == d;
  }

  lemma LogStep<S, R>(x: Node<S, R>, op: Op<S, R>)
    requires LogOk(x) && SeqCstOrdered(x.log) && SeqCstBarrier(x.log, x.first)
    ensures var x' := Record(x, op); LogOk(x') && SeqCstOrdered(x'.log) && SeqCstBarrier(x'.log, x'.first)
  {
    hide Apply, Booked, Answers, Bounded, RedeliversOp;
    StepDelivers(x, op);
    var x', ds := Record(x, op), Deliveries(Apply(x.peer, op).outcome);
    if ds == [] {
      assert x'.log == x.log;
    } else {
      assert x'.log == x.log + [ds[0]];
      forall m
        ensures Logged(x'.log, m) <==> Logged(x.log, m) || m == ds[0].seqNo
      {
        LogAppend(x.log, ds[0], m);
      }
      forall j, m | 0 <= j < |x'.log| && x'.log[j].seqCst && x.first <= m < x'.log[j].seqNo
        ensures Logged(x'.log[..j], m)
      {
        assert x'.log[..j] == x.log[..j];
        if j == |x.log| {
          assert x.log[..j] == x.log;
          assert WasDelivered(x.peer, x.first, m);
        }
      }
    }
  }

  // ---- Runs of one peer ----

  ghost function After<S, R>(x: Node<S, R>, ops: seq<Op<S, R>>): (r: Node<S, R>)
    requires PeerOk(x.peer)
    ensures PeerOk(r.peer)
  {
    if ops == [] then x
    else
      var y := After(x, ops[..|ops| - 1]);
      ApplyKeeps(y.peer, ops[|ops| - 1]);
      Record(y, ops[|ops| - 1])
  }

  ghost function Run<S, R>(cap: int, first: int, never: int, ops: seq<Op<S, R>>): (r: Node<S, R>)
    requires cap >= 2
    ensures PeerOk(r.peer)
  {
    After(Start(cap, first, never), ops)
  }

  /** For any operations on any packets: the bounded window and the counter stand for
      exactly the set of numbers delivered so far; SeqCst packets come out in increasing
      order; and each of them comes after every earlier number. */
  lemma {:induction false} DeliveryHistory<S, R>(cap: int, first: int, never: int, ops: seq<Op<S, R>>)
    requires cap >= 2
    ensures var x := Run(cap, first, never, ops);
      && x.first == first && LogOk(x)
      && SeqCstOrdered(x.log)
      && SeqCstBarrier(x.log, first)
  {
    if ops == [] {
    } else {
      DeliveryHistory(cap, first, never, ops[..|ops| - 1]);
      LogStep(Run(cap, first, never, ops[..|ops| - 1]), ops[|ops| - 1]);
    }
  }

  /** Step k of the run delivers number n although it was delivered before. */
  ghost predicate RedeliversAt<S, R>(cap: int, first: int, never: int, ops: seq<Op<S, R>>, k: int, n: int)
    requires cap >= 2 && 0 <= k < |ops|
  {
    && ops[k].DoReceive? && ops[k].frame.Data? && ops[k].frame.seqNo == n
    && RedeliversOp(Run(cap, first, never, ops[..k]).peer, ops[k])
  }

  lemma OnceMore<S, R>(x: Node<S, R>, op: Op<S, R>, n: int)
    requires LogOk(x)
    ensures AtMostOnce(Record(x, op).log, n) <==>
            AtMostOnce(x.log, n) && !(RedeliversOp(x.peer, op) && op.frame.seqNo == n)
  {
    StepDelivers(x, op);
    OneMore(x.log, Deliveries(Apply(x.peer, op).outcome), n);
  }

  ghost predicate NeverRedelivers<S, R>(cap: int, first: int, never: int, ops: seq<Op<S, R>>, n: int)
    requires cap >= 2
  {
    forall k :: 0 <= k < |ops| ==> !RedeliversAt(cap, first, never, ops, k, n)
  }

  lemma NeverRedeliversSnoc<S, R>(cap: int, first: int, never: int, pre: seq<Op<S, R>>, op: Op<S, R>, n: int)
    requires cap >= 2
    ensures NeverRedelivers(cap, first, never, pre + [op], n) <==>
            NeverRedelivers(cap, first, never, pre, n)
            && !(RedeliversOp(Run(cap, first, never, pre).peer, op) && op.frame.seqNo == n)
  {
    var ops := pre + [op];
    forall k | 0 <= k < |pre|
      ensures RedeliversAt(cap, first, never, ops, k, n) <==> RedeliversAt(cap, first, never, pre, k, n)
    {
      assert ops[..k] == pre[..k];
    }
    assert ops[..|pre|] == pre;
    assert RedeliversAt(cap, first, never, ops, |pre|, n) <==>
      RedeliversOp(Run(cap, first, never, pre).peer, op) && op.frame.seqNo == n;
  }

  lemma AtMostOnceSnoc<S, R>(cap: int, first: int, never: int, pre: seq<Op<S, R>>, op: Op<S, R>, n: int)
    requires cap >= 2
    requires AtMostOnce(Run(cap, first, never, pre).log, n) <==> NeverRedelivers(cap, first, never, pre, n)
    ensures AtMostOnce(Run(cap, first, never, pre + [op]).log, n) <==>
            NeverRedelivers(cap, first, never, pre + [op], n)
  {
    hide LogOk, AtMostOnce, RedeliversOp, NeverRedelivers, Record, SeqCstBarrier, SeqCstOrdered;
    assert (pre + [op])[..|pre|] == pre;
    DeliveryHistory(cap, first, never, pre);
    NeverRedeliversSnoc(cap, first, never, pre, op, n);
    OnceMore(Run(cap, first, never, pre), op, n);
  }

  /** A number is delivered at most once exactly when no copy of it arrives while its slot
      says delivered and the packet is let through. */
  lemma {:induction false} AtMostOnceIff<S, R>(cap: int, first: int, never: int, ops: seq<Op<S, R>>, n: int)
    requires cap >= 2
    ensures AtMostOnce(Run(cap, first, never, ops).log, n) <==> NeverRedelivers(cap, first, never, ops, n)
  {
    if ops == [] {
    } else {
      var pre, op := ops[..|ops| - 1], ops[|ops| - 1];
      assert ops == pre + [op];
      AtMostOnceIff(cap, first, never, pre, n);
      AtMostOnceSnoc(cap, first, never, pre, op, n);
    }
  }

  lemma OneMore(log: seq<Delivery>, ds: seq<Delivery>, n: int)
    requires |ds| <= 1
    ensures AtMostOnce(log + ds, n) <==> AtMostOnce(log, n) && !(ds != [] && ds[0].seqNo == n && Logged(log, n))
  {
    var all := log + ds;
    assert forall i :: 0 <= i < |log| ==> all[i] == log[i];
    if ds == [] {
      assert all == log;
    } else {
      assert all[|log|] == ds[0];
    }
  }

  /** Numbers whose copies are all SeqCst are delivered at most once, unconditionally. */
  lemma SeqCstAtMostOnce<S, R>(cap: int, first: int, never: int, ops: seq<Op<S, R>>, n: int)
    requires cap >= 2
    requires forall k :: 0 <= k < |ops| && ops[k].DoReceive? && ops[k].frame.Data? && ops[k].frame.seqNo == n ==>
               ops[k].frame.msg.seqCst
    ensures AtMostOnce(Run(cap, first, never, ops).log, n)
  {
    AtMostOnceIff(cap, first, never, ops, n);
  }

  // ---- The smallest capacity ----

  /** Nothing was sent, delivered, or let in. */
  ghost predicate Mute<S, R>(x: Node<S, R>) {
    && x.log == [] && x.sent == map[]
    && x.peer.cap == 2 && x.peer.replies == multiset{}
  }

  lemma NoRoomAtTwo<S, R>(p: Peer<S, R>, reply: Option<int>)
    requires p.cap == 2
    ensures Fullness(p, reply) == NeedReply
  {
  }

  lemma MuteStep<S, R>(x: Node<S, R>, op: Op<S, R>)
    requires Mute(x)
    ensures Mute(Record(x, op))
  {
    hide Booked, Answers, Earliest;
    NoRoomAtTwo(x.peer, None);
    if op.DoReceive? && op.frame.Data? { NoRoomAtTwo(x.peer, op.frame.msg.replyNo); }
    if op.DoPumpOnce? && x.peer.nextRecv in x.peer.recv && x.peer.recv[x.peer.nextRecv].Occupied? {
      NoRoomAtTwo(x.peer, x.peer.recv[x.peer.nextRecv].msg.replyNo);
    }
  }

  lemma {:induction false} RunIsMute<S, R>(first: int, never: int, ops: seq<Op<S, R>>)
    ensures Mute(Run(2, first, never, ops))
  {
    hide Record;
    if ops == [] {
    } else {
      RunIsMute(first, never, ops[..|ops| - 1]);
      MuteStep(Run(2, first, never, ops[..|ops| - 1]), ops[|ops| - 1]);
    }
  }

  /** A peer of capacity 2 never sends or delivers anything; one of any other capacity does. */
  lemma MuteIff<S(!new), R(!new)>(cap: int, first: int, never: int, d: S)
    requires cap >= 2
    ensures (forall ops: seq<Op<S, R>> ::
               Run(cap, first, never, ops).log == [] && Run(cap, first, never, ops).sent == map[]) <==> cap == 2
  {
    if cap == 2 {
      forall ops: seq<Op<S, R>>
        ensures Run(cap, first, never, ops).log == [] && Run(cap, first, never, ops).sent == map[]
      {
        RunIsMute(first, never, ops);
      }
    } else {
      FirstIsSent<S, R>(cap, first, never, d);
    }
  }

  lemma FirstIsSent<S, R>(cap: int, first: int, never: int, d: S)
    requires cap > 2
    ensures var ops: seq<Op<S, R>> := [DoSend(0, false, d)];
      first in Run(cap, first, never, ops).sent
  {
    var ops: seq<Op<S, R>> := [DoSend(0, false, d)];
    assert ops[..0] == [];
    assert Run(cap, first, never, ops) == Record(Run(cap, first, never, ops[..0]), ops[0]);
    assert !Blocked(Initial<S, R>(cap, first, never), 0, None);
  }
}
