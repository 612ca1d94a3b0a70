/** What every operation of one peer keeps, whatever packets arrive. */
module PeerInvariants {
  import opened Protocol

  /** Entries sit within one capacity of their counter, and at most CAP - 2 replies are owed. */
  ghost predicate Bounded<S, R>(p: Peer<S, R>) {
    && p.cap >= 2
    && (forall k :: k in p.send ==> p.nextSend - p.cap <= k < p.nextSend)
    && (forall k :: k in p.recv ==> p.nextRecv <= k < p.nextRecv + p.cap)
    && |p.replies| <= p.cap - 2
    && (forall c :: c in p.replies ==> c < p.nextRecv + p.cap)
  }

  /** The timer is not later than any pending resend. */
  ghost predicate TimerOk<S, R>(p: Peer<S, R>) {
    forall k :: k in p.send ==> p.nextService <= p.send[k].resendTime
  }

  /** Besides, the next number to receive is never one already delivered. */
  ghost predicate WindowsOk<S, R>(p: Peer<S, R>) {
    p.cap >= 2 && Bounded(p) && !(p.nextRecv in p.recv && p.recv[p.nextRecv].Unlocked?)
  }

  /** What holds between any two operations. */
  ghost predicate PeerOk<S, R>(p: Peer<S, R>) { WindowsOk(p) && TimerOk(p) }

  /** The numbers delivered to the application, as the bounded window remembers them. */
  ghost predicate WasDelivered<S, R>(p: Peer<S, R>, first: int, n: int) {
    first <= n < p.nextRecv || (n in p.recv && p.recv[n].Unlocked?)
  }

  /** `fast_forward` skips exactly the run of already delivered numbers at `nextRecv`. */
  lemma {:induction false} FastForwardSkips<S, R>(p: Peer<S, R>, first: int)
    requires first <= p.nextRecv
    requires forall k :: k in p.recv ==> p.nextRecv <= k
    ensures var q := FastForward(p);
      && p.nextRecv <= q.nextRecv
      && q == p.(recv := q.recv, nextRecv := q.nextRecv)
      && (forall n :: p.nextRecv <= n < q.nextRecv ==> n in p.recv && p.recv[n].Unlocked?)
      && (forall n :: n in q.recv <==> n in p.recv && n >= q.nextRecv)
      && (forall n :: n in q.recv ==> q.recv[n] == p.recv[n])
      && !(q.nextRecv in p.recv && p.recv[q.nextRecv].Unlocked?)
      && (forall n :: WasDelivered(q, first, n) <==> WasDelivered(p, first, n))
    decreases |p.recv|
  {
    if !(p.nextRecv in p.recv && p.recv[p.nextRecv].Unlocked?) {
    } else {
      var p1 := p.(recv := p.recv - {p.nextRecv}, nextRecv := p.nextRecv + 1);
      FastForwardSkips(p1, first);
      var q := FastForward(p1);
      forall n | p.nextRecv <= n < q.nextRecv
        ensures n in p.recv && p.recv[n].Unlocked?
      {
        assert n == p.nextRecv || n in p1.recv;
      }
    }
  }

  lemma {:induction false} EarliestIsLeast<S>(send: map<int, SendEntry<S>>, lo: int, hi: int, best: int)
    ensures var e := Earliest(send, lo, hi, best);
      && e <= best
      && (forall k :: lo <= k < hi && k in send ==> e <= send[k].resendTime)
      && (e == best || exists k :: lo <= k < hi && k in send && e == send[k].resendTime)
    decreases hi - lo
  {
    if lo >= hi {
    } else {
      EarliestIsLeast(send, lo, hi - 1, best);
    }
  }

  lemma AdvanceKeeps<S, R>(p: Peer<S, R>, first: int)
    requires PeerOk(p) && first <= p.nextRecv
    ensures var q := Advance(p);
      && PeerOk(q)
      && q == p.(recv := q.recv, nextRecv := q.nextRecv)
      && p.nextRecv < q.nextRecv
      && (forall n :: n in q.recv ==> n in p.recv && q.recv[n] == p.recv[n])
      && (forall n :: WasDelivered(q, first, n) <==> n == p.nextRecv || WasDelivered(p, first, n))
  {
    FastForwardSkips(p.(recv := p.recv - {p.nextRecv}, nextRecv := p.nextRecv + 1), first);
  }

  lemma AcceptKeeps<S, R>(p: Peer<S, R>, n: int, msg: Message<R>, doPump: bool)
    requires PeerOk(p) && |p.replies| < p.cap - 2 && n < p.nextRecv + p.cap
    ensures PeerOk(Accept(p, n, msg, doPump).0) && Accept(p, n, msg, doPump).0.cap == p.cap
  {
  }

  lemma ReceiveKeeps<S, R>(p: Peer<S, R>, frame: Frame<R>)
    requires PeerOk(p)
    ensures PeerOk(Receive(p, frame).0) && Receive(p, frame).0.cap == p.cap
  {
    if frame.Data? {
      var n, msg := frame.seqNo, frame.msg;
      if p.nextRecv <= n < p.nextRecv + p.cap && Gate(p, n, msg) == HasRoom {
        if n == p.nextRecv {
          AdvanceKeeps(p, p.nextRecv);
          AcceptKeeps(Advance(p), n, msg, DoPump(Advance(p)));
        } else {
          AcceptKeeps(p.(recv := p.recv[n := Unlocked]), n, msg, false);
        }
      }
    }
  }

  lemma PumpKeeps<S, R>(p: Peer<S, R>)
    requires PeerOk(p)
    ensures PeerOk(Pump(p).0) && Pump(p).0.cap == p.cap
  {
    AdvanceKeeps(p, p.nextRecv);
    if p.nextRecv in p.recv && Gate(p, p.nextRecv, p.recv[p.nextRecv].msg) == HasRoom {
      AcceptKeeps(Advance(p), p.nextRecv, p.recv[p.nextRecv].msg, DoPump(Advance(p)));
    }
  }

  lemma InsertKeeps<S, R>(p: Peer<S, R>, at: int, msg: Message<S>)
    requires PeerOk(p)
    ensures PeerOk(Insert(p, at, msg))
  {
  }

  lemma UnreserveKeeps<S, R>(p: Peer<S, R>, r: int, unlock: bool)
    requires PeerOk(p)
    ensures PeerOk(Unreserve(p, r, unlock))
    ensures r in p.replies ==> |Unreserve(p, r, unlock).replies| == |p.replies| - 1
  {
    assert |p.replies - multiset{r}| <= |p.replies|;
  }

  lemma ServiceKeeps<S, R>(p: Peer<S, R>, now: int, at: int, never: int)
    requires PeerOk(p)
    ensures PeerOk(Service(p, now, at, never))
  {
    EarliestIsLeast(Resent(p.send, now, at), p.nextSend - p.cap, p.nextSend, never);
  }

  /** After a scan the timer stands at the earliest pending resend, or at `never` when the
      window is empty; entries that were not due keep their times. */
  lemma ServiceTimer<S, R>(p: Peer<S, R>, now: int, at: int, never: int)
    requires PeerOk(p) && p.nextService <= now && at <= never
    requires forall k :: k in p.send ==> p.send[k].resendTime <= never
    ensures var q := Service(p, now, at, never);
      && (forall k :: k in q.send ==> q.nextService <= q.send[k].resendTime)
      && (q.send == map[] ==> q.nextService == never)
      && (q.send != map[] ==> exists k :: k in q.send && q.nextService == q.send[k].resendTime)
      && q.send.Keys == p.send.Keys
      && (forall k :: k in p.send && !Due(p.send, k, now) ==> q.send[k] == p.send[k])
  {
    var q := Service(p, now, at, never);
    EarliestIsLeast(q.send, p.nextSend - p.cap, p.nextSend, never);
    assert q.send == map[] || exists k :: k in q.send;
  }

  lemma AnswerKeeps<S, R>(p: Peer<S, R>, at: int, r: int, unlock: bool, cst: bool, data: S)
    requires PeerOk(p)
    ensures PeerOk(ReplyTo(p, at, r, unlock, cst, data))
    ensures PeerOk(AckTo(p, r, unlock))
  {
    UnreserveKeeps(p, r, unlock);
    InsertKeeps(Unreserve(p, r, unlock), at, Message(Some(r), cst, data));
  }

  lemma UnlockKeeps<S, R>(p: Peer<S, R>)
    requires PeerOk(p)
    ensures PeerOk(p.(locked := false))
  {
  }

  /** Every operation, on any packet, keeps the windows within their bounds. */
  lemma ApplyKeeps<S, R>(p: Peer<S, R>, op: Op<S, R>)
    requires PeerOk(p)
    ensures PeerOk(Apply(p, op).peer)
    ensures Apply(p, op).peer.cap == p.cap
  {
    hide Bounded, Receive, Pump;
    match op
    case DoSend(at, cst, data) => InsertKeeps(p, at, Message(None, cst, data));
    case DoReceive(frame) => ReceiveKeeps(p, frame);
    case DoPumpOnce => PumpKeeps(p);
    case DoReply(at, r, unlock, cst, data) => AnswerKeeps(p, at, r, unlock, cst, data);
    case DoAck(r, unlock) => UnreserveKeeps(p, r, unlock);
    case DoUnlock => UnlockKeeps(p);
    case DoService(now, at, never) => ServiceKeeps(p, now, at, never);
  }
}
