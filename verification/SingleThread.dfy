/** The calls an application makes on an engine it owns alone: receiving with the automatic
    repeated ack, answering, resending, and draining the receive window. */
module SingleThread {
  import opened SeqNumbers
  import opened PeerInvariants
  import opened Rings
  import opened Engine
  import P = Protocol

  /** `try_receive_raw`: a repeated ack goes out here, and is reported as a duplicate. */
  method TryReceiveRaw<S, R>(e: SeqEx<S, R>, packet: Packet<R>)
    returns (out: P.Outcome<SeqNo, S, R>, sent: Option<Packet<S>>)
    requires e.Valid()
    modifies e`nextRecvSeqNo, e`concurrentRepliesTotal, e`isLocked, e`model, e`issued,
      e.concurrentReplies, e.sendWindow, e.recvWindow
    ensures e.Valid()
    ensures var frame := LiftPacket(packet, old(e.model.nextSend), old(e.model.nextRecv));
      var raw := ReceiveOutcome(old(e.model), frame);
      && e.model == P.Receive(old(e.model), frame).0
      && if raw.Refused? && raw.error.DroppedDuplicateResendAck?
         then out == P.Refused(P.DroppedDuplicate) && sent == P.Some(Ack(packet.seqNo))
         else out == raw && sent == P.None
  {
    out := e.TryReceiveRawAndDirect(packet);
    ghost var frame := LiftPacket(packet, old(e.model.nextSend), old(e.model.nextRecv));
    if frame.Data? { WrapOfLift(packet.seqNo, old(e.model.nextRecv)); }
    if out.Refused? && out.error.DroppedDuplicateResendAck? {
      return P.Refused(P.DroppedDuplicate), P.Some(Ack(out.error.seqNo));
    }
    return out, P.None;
  }

  // ---- The resend loop ----

  ghost predicate Increasing(ks: seq<int>) {
    forall i, j :: 0 <= i < j < |ks| ==> ks[i] < ks[j]
  }

  /** The window after the entries below c that were due have been sent again. */
  ghost function ResentBelow<S>(send: map<int, P.SendEntry<S>>, now: int, at: int, c: int): map<int, P.SendEntry<S>> {
    map k | k in send :: if k < c && P.Due(send, k, now) then send[k].(resendTime := at) else send[k]
  }

  lemma {:induction false} EarliestJoin<S>(send: map<int, P.SendEntry<S>>, lo: int, mid: int, hi: int, best: int)
    requires lo <= mid <= hi
    ensures P.Earliest(send, mid, hi, P.Earliest(send, lo, mid, best)) == P.Earliest(send, lo, hi, best)
    decreases hi - mid
  {
    if mid == hi {
    } else {
      EarliestJoin(send, lo, mid, hi - 1, best);
    }
  }

  lemma {:induction false} EarliestFrame<S>(a: map<int, P.SendEntry<S>>, b: map<int, P.SendEntry<S>>,
                                            lo: int, hi: int, best: int)
    requires forall k :: lo <= k < hi ==> (k in a <==> k in b)
    requires forall k :: lo <= k < hi && k in a ==> a[k].resendTime == b[k].resendTime
    ensures P.Earliest(a, lo, hi, best) == P.Earliest(b, lo, hi, best)
    decreases hi - lo
  {
    if lo >= hi {
    } else {
      EarliestFrame(a, b, lo, hi - 1, best);
      assert hi - 1 in a <==> hi - 1 in b;
    }
  }

  /** A scan inside the window sees the window. */
  lemma ScanSees<S, R>(m: P.Peer<S, R>, now: int, c: int, k: int, best: int)
    requires WindowsOk(m) && m.nextSend - m.cap <= c <= k <= m.nextSend
    ensures P.Earliest(Seen(m, c), c, k, best) == P.Earliest(m.send, c, k, best)
    ensures forall j :: c <= j ==> (P.Due(Seen(m, c), j, now) <==> P.Due(m.send, j, now))
    ensures k < m.nextSend ==> SlotMate(m, k) == k
  {
    hide Bounded, Seen, SlotMate;
    forall j | c <= j
      ensures j in Seen(m, c) <==> j in m.send
      ensures j in m.send ==> Seen(m, c)[j] == m.send[j]
    {
      SeenInWindow(m, c, j);
    }
    EarliestFrame(Seen(m, c), m.send, c, k, best);
    SlotMateIs(m, k);
  }

  /** One packet sent again moves the scan past it. */
  lemma ScanAdvances<S>(send: map<int, P.SendEntry<S>>, now: int, at: int, lo: int, c: int, k: int)
    requires lo <= c <= k && P.Due(send, k, now)
    requires forall j :: c <= j < k ==> !P.Due(ResentBelow(send, now, at, c), j, now)
    ensures var part := ResentBelow(send, now, at, c);
      var more := part[k := part[k].(resendTime := at)];
      && more == ResentBelow(send, now, at, k + 1)
      && (forall j :: c <= j < k ==> !P.Due(send, j, now))
      && P.Earliest(more, lo, k + 1, I64_MAX)
         == P.Min(P.Earliest(part, c, k, P.Earliest(part, lo, c, I64_MAX)), at)
  {
    var part := ResentBelow(send, now, at, c);
    var more := part[k := part[k].(resendTime := at)];
    forall j | c <= j < k
      ensures !P.Due(send, j, now)
    {
      assert P.Due(part, j, now) <==> P.Due(send, j, now);
    }
    EarliestJoin(part, lo, c, k, I64_MAX);
    EarliestFrame(part, more, lo, k, I64_MAX);
  }

  /** The scan found nothing more to send: the window has been gone through. */
  lemma ScanEnds<S>(send: map<int, P.SendEntry<S>>, now: int, at: int, lo: int, c: int, hi: int)
    requires lo <= c <= hi && (forall k :: k in send ==> k < hi)
    requires forall j :: c <= j < hi ==> !P.Due(ResentBelow(send, now, at, c), j, now)
    ensures var part := ResentBelow(send, now, at, c);
      && part == P.Resent(send, now, at)
      && (forall j :: c <= j ==> !P.Due(send, j, now))
      && P.Earliest(part, c, hi, P.Earliest(part, lo, c, I64_MAX)) == P.Earliest(part, lo, hi, I64_MAX)
  {
    var part := ResentBelow(send, now, at, c);
    forall j | c <= j
      ensures !P.Due(send, j, now)
    {
      if j in send { assert P.Due(part, j, now) <==> P.Due(send, j, now); }
    }
    EarliestJoin(part, lo, c, hi, I64_MAX);
  }

  /** The packets sent so far are those of the due entries below c, in order, once each. */
  ghost predicate Collected<S>(send: map<int, P.SendEntry<S>>, now: int, c: int, ks: seq<int>, sent: seq<Packet<S>>) {
    && Increasing(ks) && |sent| == |ks|
    && (forall k :: k in ks <==> k < c && P.Due(send, k, now))
    && (forall i :: 0 <= i < |ks| ==> ks[i] in send && sent[i] == WrapFrame(P.Data(ks[i], send[ks[i]].msg)))
  }

  lemma CollectOne<S>(send: map<int, P.SendEntry<S>>, now: int, c: int, k: int, ks: seq<int>, sent: seq<Packet<S>>)
    requires Collected(send, now, c, ks, sent) && c <= k && P.Due(send, k, now)
    requires forall j :: c <= j < k ==> !P.Due(send, j, now)
    ensures Collected(send, now, k + 1, ks + [k], sent + [WrapFrame(P.Data(k, send[k].msg))])
  {
    forall i | 0 <= i < |ks| ensures ks[i] < c { assert ks[i] in ks; }
    forall j ensures j in ks + [k] <==> j < k + 1 && P.Due(send, j, now) {
      assert j in ks + [k] <==> j in ks || j == k;
    }
  }

  /** What holds between two calls of the scan. */
  ghost predicate Scanning<S, R>(m: P.Peer<S, R>, p: P.Peer<S, R>, now: int, at: int, c: int, started: bool, best: int)
  {
    && p.nextSend - p.cap <= c <= p.nextSend
    && m == p.(send := ResentBelow(p.send, now, at, c))
    && best == P.Earliest(m.send, p.nextSend - p.cap, c, I64_MAX)
    && (if started then p.nextService <= now else c == p.nextSend - p.cap)
  }

  lemma ScanStarts<S, R>(p: P.Peer<S, R>, now: int, at: int)
    requires PeerOk(p)
    ensures Scanning(p, p, now, at, p.nextSend - p.cap, false, I64_MAX)
    ensures Collected(p.send, now, p.nextSend - p.cap, [], [])
  {
    assert ResentBelow(p.send, now, at, p.nextSend - p.cap) == p.send;
  }

  lemma ScanBest<S, R>(m: P.Peer<S, R>, p: P.Peer<S, R>, now: int, at: int, c: int, started: bool, best: int)
    requires WindowsOk(m) && Scanning(m, p, now, at, c, started, best)
    ensures forall j :: j in m.send && j < c ==> best <= m.send[j].resendTime
  {
    EarliestIsLeast(m.send, p.nextSend - p.cap, c, I64_MAX);
  }

  lemma ScanGoesOn<S, R>(m: P.Peer<S, R>, p: P.Peer<S, R>, now: int, at: int, c: int, k: int,
                         started: bool, best: int, m': P.Peer<S, R>, best': int)
    requires Scanning(m, p, now, at, c, started, best)
    requires c <= k < p.nextSend && P.Due(m.send, k, now) && p.nextService <= now
    requires forall j :: c <= j < k ==> !P.Due(m.send, j, now)
    requires m' == m.(send := m.send[k := m.send[k].(resendTime := at)])
    requires best' == P.Min(P.Earliest(m.send, c, k, best), at)
    ensures Scanning(m', p, now, at, k + 1, true, best')
    ensures P.Due(p.send, k, now) && m.send[k].msg == p.send[k].msg
    ensures forall j :: c <= j < k ==> !P.Due(p.send, j, now)
  {
    assert P.Due(p.send, k, now);
    ScanAdvances(p.send, now, at, p.nextSend - p.cap, c, k);
  }

  lemma ScanStops<S, R>(m: P.Peer<S, R>, p: P.Peer<S, R>, now: int, at: int, c: int,
                        started: bool, best: int, m': P.Peer<S, R>)
    requires PeerOk(p) && Scanning(m, p, now, at, c, started, best) && p.nextService <= now
    requires forall j :: c <= j < p.nextSend ==> !P.Due(m.send, j, now)
    requires m' == m.(nextService := P.Earliest(m.send, c, p.nextSend, best))
    ensures m' == P.Service(p, now, at, I64_MAX)
    ensures forall j :: c <= j ==> !P.Due(p.send, j, now)
  {
    ScanEnds(p.send, now, at, p.nextSend - p.cap, c, p.nextSend);
  }

  /** `service`: sends every entry that is due exactly once, in the order of their numbers,
      restarts their timers, and leaves the engine's timer at the earliest pending time. */
  method Service<S, R>(e: SeqEx<S, R>, currentTime: int) returns (sent: seq<Packet<S>>, wait: int, ghost ks: seq<int>)
    requires e.Valid() && currentTime + e.resendInterval <= I64_MAX
    modifies e`nextServiceTimestamp, e`model, e.sendWindow
    ensures e.Valid()
    ensures e.model == P.Service(old(e.model), currentTime, currentTime + e.resendInterval, I64_MAX)
    ensures Increasing(ks) && |sent| == |ks|
    ensures forall k :: k in ks <==>
              old(e.model.nextService) <= currentTime && P.Due(old(e.model.send), k, currentTime)
    ensures forall i :: 0 <= i < |ks| ==>
              ks[i] in old(e.model.send) && sent[i] == WrapFrame(P.Data(ks[i], old(e.model.send)[ks[i]].msg))
    ensures wait == P.Min(e.resendInterval, e.model.nextService - currentTime)
  {
    hide SendRing, RecvRing, ReplyTable, Wrap, ResentBelow, Bounded, P.Earliest, Increasing, Seen, SlotMate;
    ghost var p, at, c := e.model, currentTime + e.resendInterval, e.model.nextSend - e.model.cap;
    sent, ks := [], [];
    var packet: Option<Packet<S>>, iter: Option<ServiceIter> := P.None, P.None;
    ScanStarts(p, currentTime, at);
    while true
      invariant e.Steady() && (iter.None? ==> e.Valid()) && e.CursorOf(iter) == c
      invariant Scanning(e.model, p, currentTime, at, c, iter.Some?, SeqEx<S, R>.BestOf(iter))
      invariant Collected(p.send, currentTime, c, ks, sent) && (iter.None? ==> ks == [])
      decreases p.nextSend - c
    {
      ghost var m, best, k := e.model, SeqEx<S, R>.BestOf(iter), 0;
      ghost var started := iter.Some?;
      ScanBest(m, p, currentTime, at, c, started, best);
      packet, iter, k := e.ServiceDirect(currentTime, iter);
      ScanSees(m, currentTime, c, if packet.None? then m.nextSend else k, best);
      if packet.None? {
        if p.nextService <= currentTime {
          ScanStops(m, p, currentTime, at, c, started, best, e.model);
        }
        break;
      }
      ScanGoesOn(m, p, currentTime, at, c, k, started, best, e.model, SeqEx<S, R>.BestOf(iter));
      CollectOne(p.send, currentTime, c, k, ks, sent);
      sent, ks, c := sent + [packet.value], ks + [k], k + 1;
    }
    wait := P.Min(e.resendInterval, e.nextServiceTimestamp - currentTime);
  }
}
