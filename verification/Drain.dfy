/** Emptying the receive window: pump, hand the packet over, acknowledge it, until the pump
    says that nothing more is ready. */
module Drain {
  import opened SeqNumbers
  import opened PeerInvariants
  import opened Rings
  import opened Engine
  import opened SingleThread
  import P = Protocol

  /** Where the run of stored numbers that starts at n ends. */
  ghost function RunEnd<R>(recv: map<int, P.RecvEntry<R>>, n: int): (end: int)
    ensures n <= end && end !in recv
    ensures forall k :: n <= k < end ==> k in recv
    decreases |recv|
  {
    if n in recv then
      var end := RunEnd(recv - {n}, n + 1);
      assert forall k :: n <= k < end ==> k in recv by {
        forall k | n <= k < end ensures k in recv { assert k == n || k in recv - {n}; }
      }
      end
    else n
  }

  /** Nothing stands in the way of processing the next stored packet. */
  ghost predicate Ready<S, R>(p: P.Peer<S, R>) {
    PeerOk(p) && !p.locked && P.Fullness(p, P.None) == P.HasRoom
  }

  /** The state after one packet was pumped, and acknowledged with its lock released. */
  ghost function PumpAndAck<S, R>(p: P.Peer<S, R>): P.Peer<S, R>
    requires p.cap > 0 && p.nextRecv in p.recv && p.recv[p.nextRecv].Occupied?
  {
    P.AckTo(P.Pump(p).0, p.nextRecv, p.recv[p.nextRecv].msg.seqCst)
  }

  lemma FewerEntriesMoreRoom<S, R>(p: P.Peer<S, R>, q: P.Peer<S, R>, reply: P.Option<int>)
    requires p.cap > 0 && P.Fullness(p, P.None) == P.HasRoom
    requires q.cap == p.cap && q.nextSend == p.nextSend && q.replies == p.replies && q.send.Keys <= p.send.Keys
    ensures P.Fullness(q, reply) == P.HasRoom
  {
    forall i | 0 <= i <= |p.replies|
      ensures !P.Blocked(q, i, reply)
    {
      assert !P.Blocked(p, i, P.None);
    }
  }

  lemma PumpAndAckStep<S, R>(p: P.Peer<S, R>)
    requires Ready(p) && p.nextRecv in p.recv
    ensures var (q, out) := P.Pump(p);
      && p.recv[p.nextRecv].Occupied?
      && out.Delivered? && !out.ok.Acked? && out.ok.replyNo == p.nextRecv
      && out.ok.recvData == p.recv[p.nextRecv].msg.data && out.ok.seqCst == p.recv[p.nextRecv].msg.seqCst
      && q.nextRecv == P.Advance(p).nextRecv
      && out.doPump == (q.nextRecv in P.Advance(p).recv)
      && q.replies == p.replies + multiset{p.nextRecv}
    ensures var q := PumpAndAck(p);
      && Ready(q)
      && q == P.Advance(p).(send := q.send) && q.send.Keys <= p.send.Keys
  {
    var msg, adv := p.recv[p.nextRecv].msg, P.Advance(p);
    FewerEntriesMoreRoom(p, p, msg.replyNo);
    AdvanceKeeps(p, p.nextRecv);
    PumpKeeps(p);
    assert p.replies + multiset{p.nextRecv} - multiset{p.nextRecv} == p.replies;
    UnreserveKeeps(P.Pump(p).0, p.nextRecv, msg.seqCst);
    FewerEntriesMoreRoom(p, PumpAndAck(p), P.None);
  }

  /** How far a drain that started in p has come: everything from its first number up to the
      next one was stored; the stored ones were delivered in order, `ns`; the rest is left. */
  ghost predicate Drained<S, R>(p: P.Peer<S, R>, m: P.Peer<S, R>, ns: seq<int>) {
    && m == p.(recv := m.recv, nextRecv := m.nextRecv, send := m.send) && m.send.Keys <= p.send.Keys
    && p.nextRecv <= m.nextRecv
    && (forall k :: p.nextRecv <= k < m.nextRecv ==> k in p.recv)
    && (forall k :: k in m.recv <==> k in p.recv && k >= m.nextRecv)
    && (forall k :: k in m.recv ==> m.recv[k] == p.recv[k])
    && Increasing(ns) && |ns| <= m.nextRecv - p.nextRecv
    && (forall n :: n in ns <==> n in p.recv && n < m.nextRecv && p.recv[n].Occupied?)
  }

  lemma DrainedStart<S, R>(p: P.Peer<S, R>)
    requires Ready(p)
    ensures Drained(p, p, [])
  {
  }

  lemma AdvanceSkips<S, R>(p: P.Peer<S, R>)
    requires PeerOk(p)
    ensures var q := P.Advance(p);
      && p.nextRecv < q.nextRecv && q == p.(recv := q.recv, nextRecv := q.nextRecv)
      && (forall n :: p.nextRecv < n < q.nextRecv ==> n in p.recv && p.recv[n].Unlocked?)
      && (forall n :: n in q.recv <==> n in p.recv && n >= q.nextRecv)
      && (forall n :: n in q.recv ==> q.recv[n] == p.recv[n])
  {
    var p1 := p.(recv := p.recv - {p.nextRecv}, nextRecv := p.nextRecv + 1);
    FastForwardSkips(p1, p1.nextRecv);
    var q := P.Advance(p);
    forall n | p.nextRecv < n < q.nextRecv
      ensures n in p.recv && p.recv[n].Unlocked?
    {
      assert n in p1.recv;
    }
  }

  /** m' is m, except perhaps for the reply number of the packet stored next. */
  ghost predicate Rereads<S, R>(m: P.Peer<S, R>, m': P.Peer<S, R>) {
    var n := m.nextRecv;
    && m' == m.(recv := m'.recv) && m'.recv.Keys == m.recv.Keys
    && (forall k :: k in m.recv && k != n ==> m'.recv[k] == m.recv[k])
    && (n in m.recv && m.recv[n].Occupied? ==> m'.recv[n].Occupied? && m'.recv[n].msg.data == m.recv[n].msg.data)
  }

  lemma RereadIs<S, R>(m: P.Peer<S, R>)
    requires Ready(m)
    ensures Rereads(m, Reread(m)) && Ready(Reread(m))
  {
    forall i ensures P.Blocked(Reread(m), i, P.None) <==> P.Blocked(m, i, P.None) {
    }
  }

  lemma DrainedStep<S, R>(p: P.Peer<S, R>, m: P.Peer<S, R>, m': P.Peer<S, R>, ns: seq<int>)
    requires Drained(p, m, ns) && Ready(m) && m.nextRecv in m.recv && PeerOk(p)
    requires Rereads(m, m') && Ready(m')
    ensures m.recv[m.nextRecv].Occupied? && m'.recv[m.nextRecv].Occupied?
    ensures Drained(p, PumpAndAck(m'), ns + [m.nextRecv])
    ensures PumpAndAck(m').nextRecv <= p.nextRecv + p.cap && Ready(PumpAndAck(m'))
  {
    PumpAndAckStep(m');
    AdvanceSkips(m');
    var q, ns' := PumpAndAck(m'), ns + [m.nextRecv];
    forall i | 0 <= i < |ns| ensures ns[i] < m.nextRecv { assert ns[i] in ns; }
    forall n
      ensures n in ns' <==> n in p.recv && n < q.nextRecv && p.recv[n].Occupied?
    {
      assert n in ns' <==> n in ns || n == m.nextRecv;
    }
    forall k | p.nextRecv <= k < q.nextRecv
      ensures k in p.recv
    {
      assert k < m.nextRecv || k == m.nextRecv || k in m.recv;
    }
    assert q.nextRecv - 1 in p.recv;
  }

  lemma {:induction false} RunEndIs<R>(recv: map<int, P.RecvEntry<R>>, n: int, end: int)
    requires n <= end && end !in recv && forall k :: n <= k < end ==> k in recv
    ensures RunEnd(recv, n) == end
    decreases |recv|
  {
    if n !in recv {
    } else {
      RunEndIs(recv - {n}, n + 1, end);
    }
  }

  lemma PumpedNumber<S, R>(m: P.Peer<S, R>)
    requires Ready(m) && m.nextRecv in m.recv
    ensures var (q, out) := P.Pump(m);
      && m.recv[m.nextRecv].Occupied? && out.Delivered? && !out.ok.Acked? && out.ok.replyNo == m.nextRecv
      && out.ok.recvData == m.recv[m.nextRecv].msg.data
      && m.nextRecv in q.replies
      && P.AckTo(q, m.nextRecv, out.ok.seqCst) == PumpAndAck(m)
      && out.doPump == (PumpAndAck(m).nextRecv in PumpAndAck(m).recv)
  {
    PumpAndAckStep(m);
  }

  /** One round of the drain. */
  method PumpOne<S, R>(e: SeqEx<S, R>) returns (item: (SeqNo, R), doPump: bool)
    requires e.Valid() && Ready(e.model) && e.model.nextRecv in e.model.recv
    modifies e`nextRecvSeqNo, e`concurrentRepliesTotal, e`isLocked, e`model, e`issued,
      e.concurrentReplies, e.sendWindow, e.recvWindow
    ensures e.Valid()
    ensures var m, n := Reread(old(e.model)), old(e.model.nextRecv);
      && n in m.recv && m.recv[n].Occupied? && e.model == PumpAndAck(m)
      && item == (Wrap(n), m.recv[n].msg.data)
    ensures doPump == (e.model.nextRecv in e.model.recv)
  {
    hide SendRing, RecvRing, ReplyTable, Wrap, Lift, P.Pump, P.Fullness, P.AckTo, P.Advance, PumpAndAck, Reread;
    RereadIs(e.model);
    ghost var m := Reread(e.model);
    PumpedNumber(m);
    ghost var o := P.Pump(m).1;
    var out := e.TryPumpRaw();
    assert out == WrapOutcome(o) && o.Delivered? && !o.ok.Acked?;
    var ack;
    ghost var r;
    ack, r := e.AckRawAndDirect(out.ok.replyNo, out.ok.seqCst, m.nextRecv);
    return (out.ok.replyNo, out.ok.recvData), out.doPump;
  }

  /** The drain, when every packet handed over is acknowledged before the next is pumped:
      it delivers exactly the undelivered packets of the contiguous run that starts at the
      next number, in increasing order, in at most `cap` rounds, and leaves the slot after
      the run empty. */
  method DrainWindow<S, R>(e: SeqEx<S, R>) returns (got: seq<(SeqNo, R)>, ghost ns: seq<int>)
    requires e.Valid() && Ready(e.model) && e.model.nextRecv in e.model.recv
    modifies e`nextRecvSeqNo, e`concurrentRepliesTotal, e`isLocked, e`model, e`issued,
      e.concurrentReplies, e.sendWindow, e.recvWindow
    ensures e.Valid() && Ready(e.model)
    ensures e.model.nextRecv == RunEnd(old(e.model.recv), old(e.model.nextRecv))
    ensures e.model.nextRecv !in e.model.recv
    ensures e.model.replies == old(e.model.replies)
    ensures Increasing(ns) && |got| == |ns| <= e.cap
    ensures forall n :: n in ns <==> n in old(e.model.recv) && n < e.model.nextRecv && old(e.model.recv)[n].Occupied?
    ensures forall i :: 0 <= i < |ns| ==>
              ns[i] in old(e.model.recv) && old(e.model.recv)[ns[i]].Occupied?
              && got[i] == (Wrap(ns[i]), old(e.model.recv)[ns[i]].msg.data)
  {
    hide SendRing, RecvRing, ReplyTable, Wrap, Bounded, PumpAndAck, Reread, RunEnd;
    ghost var p := e.model;
    got, ns := [], [];
    DrainedStart(p);
    var doPump := true;
    while doPump
      invariant e.Valid() && Ready(e.model) && Drained(p, e.model, ns) && e.model.nextRecv <= p.nextRecv + p.cap
      invariant doPump == (e.model.nextRecv in e.model.recv)
      invariant |got| == |ns|
      invariant forall i :: 0 <= i < |ns| ==>
                  ns[i] in p.recv && p.recv[ns[i]].Occupied? && got[i] == (Wrap(ns[i]), p.recv[ns[i]].msg.data)
      decreases p.nextRecv + p.cap - e.model.nextRecv
    {
      ghost var m := e.model;
      RereadIs(m);
      DrainedStep(p, m, Reread(m), ns);
      var item;
      item, doPump := PumpOne(e);
      got := got + [item];
      ns := ns + [m.nextRecv];
    }
    RunEndIs(p.recv, p.nextRecv, e.model.nextRecv);
  }
}
