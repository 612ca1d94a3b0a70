/** The packets, window slots and 32-bit numbers the program works with, and the unbounded
    state they stand for. */
module Rings {
  import opened SeqNumbers
  import opened PeerInvariants
  import P = Protocol

  type Option<+T> = P.Option<T>

  datatype Packet<+D> =
    | Payload(seqNo: SeqNo, data: D)
    | SeqCstPayload(seqNo: SeqNo, data: D)
    | Reply(seqNo: SeqNo, replyNo: SeqNo, data: D)
    | SeqCstReply(seqNo: SeqNo, replyNo: SeqNo, data: D)
    | Ack(replyNo: SeqNo)
  {
    predicate IsSeqCst() { SeqCstPayload? || SeqCstReply? }

    function SetSeqCst(seqCst: bool): Packet<D> {
      match this
      case Payload(s, d) => if seqCst then SeqCstPayload(s, d) else Payload(s, d)
      case SeqCstPayload(s, d) => if seqCst then SeqCstPayload(s, d) else Payload(s, d)
      case Reply(s, r, d) => if seqCst then SeqCstReply(s, r, d) else Reply(s, r, d)
      case SeqCstReply(s, r, d) => if seqCst then SeqCstReply(s, r, d) else Reply(s, r, d)
      case Ack(r) => Ack(r)
    }
  }

  datatype SendEntry<+S> =
    SendEntry(seqNo: SeqNo, replyNo: Option<SeqNo>, seqCst: bool, nextResendTime: int, data: S)
  {
    function ToPacket(): Packet<S> {
      var p := if replyNo.Some? then Reply(seqNo, replyNo.value, data) else Payload(seqNo, data);
      p.SetSeqCst(seqCst)
    }
  }

  datatype RecvEntry<+R> =
    | Occupied(seqNo: SeqNo, replyNo: Option<SeqNo>, seqCst: bool, data: R)
    | Unlocked(seqNo: SeqNo)
    | Empty

  // ---- Reading 32-bit values as unbounded ones and back ----

  function WrapNo(r: Option<int>): Option<SeqNo> {
    if r.Some? then P.Some(Wrap(r.value)) else P.None
  }

  function LiftNo(r: Option<SeqNo>, base: int): Option<int> {
    if r.Some? then P.Some(Lift(r.value, base)) else P.None
  }

  function WrapFrame<D>(f: P.Frame<D>): Packet<D> {
    match f
    case Data(n, m) =>
      var p := if m.replyNo.Some? then Reply(Wrap(n), Wrap(m.replyNo.value), m.data) else Payload(Wrap(n), m.data);
      p.SetSeqCst(m.seqCst)
    case Ack(r) => Ack(Wrap(r))
  }

  /** Sequence numbers are read near the next number to receive, reply numbers near the
      next number to send. */
  function LiftPacket<D>(packet: Packet<D>, nextSend: int, nextRecv: int): P.Frame<D> {
    match packet
    case Payload(s, d) => P.Data(Lift(s, nextRecv), P.Message(P.None, false, d))
    case SeqCstPayload(s, d) => P.Data(Lift(s, nextRecv), P.Message(P.None, true, d))
    case Reply(s, r, d) => P.Data(Lift(s, nextRecv), P.Message(P.Some(Lift(r, nextSend)), false, d))
    case SeqCstReply(s, r, d) => P.Data(Lift(s, nextRecv), P.Message(P.Some(Lift(r, nextSend)), true, d))
    case Ack(r) => P.Ack(Lift(r, nextSend))
  }

  function WrapOk<S, R>(ok: P.RecvOk<int, S, R>): P.RecvOk<SeqNo, S, R> {
    match ok
    case Payload(n, c, d) => P.Payload(Wrap(n), c, d)
    case Reply(n, c, d, s) => P.Reply(Wrap(n), c, d, s)
    case Acked(s) => P.Acked(s)
  }

  function WrapError(e: P.RecvError<int>): P.RecvError<SeqNo> {
    match e
    case DroppedTooEarly => P.DroppedTooEarly
    case DroppedDuplicate => P.DroppedDuplicate
    case DroppedDuplicateResendAck(n) => P.DroppedDuplicateResendAck(Wrap(n))
    case WaitingForRecv => P.WaitingForRecv
    case WaitingForReply => P.WaitingForReply
  }

  function WrapOutcome<S, R>(o: P.Outcome<int, S, R>): P.Outcome<SeqNo, S, R> {
    match o
    case Delivered(ok, pump) => P.Delivered(WrapOk(ok), pump)
    case Refused(e) => P.Refused(WrapError(e))
  }

  /** The packet on the wire is of the kind the message says, with both numbers wrapped. */
  lemma WireImage<D>(n: int, msg: P.Message<D>, r: int)
    ensures WrapFrame(P.Data(n, msg)) ==
      match (msg.replyNo, msg.seqCst)
      case (None, false) => Payload(Wrap(n), msg.data)
      case (None, true) => SeqCstPayload(Wrap(n), msg.data)
      case (Some(c), false) => Reply(Wrap(n), Wrap(c), msg.data)
      case (Some(c), true) => SeqCstReply(Wrap(n), Wrap(c), msg.data)
    ensures WrapFrame<D>(P.Ack(r)) == Ack(Wrap(r))
  {
  }

  /** Wrapping an outcome changes its numbers only: the kind of item or error, the data, the
      SeqCst mark and the pump flag stay. */
  lemma WrappedOutcome<S, R>(o: P.Outcome<int, S, R>)
    ensures var w := WrapOutcome(o);
      match o
      case Delivered(Payload(n, c, d), pump) => w == P.Delivered(P.Payload(Wrap(n), c, d), pump)
      case Delivered(Reply(n, c, d, s), pump) => w == P.Delivered(P.Reply(Wrap(n), c, d, s), pump)
      case Delivered(Acked(s), pump) => w == P.Delivered(P.Acked(s), pump)
      case Refused(DroppedTooEarly) => w == P.Refused(P.DroppedTooEarly)
      case Refused(DroppedDuplicate) => w == P.Refused(P.DroppedDuplicate)
      case Refused(DroppedDuplicateResendAck(n)) => w == P.Refused(P.DroppedDuplicateResendAck(Wrap(n)))
      case Refused(WaitingForRecv) => w == P.Refused(P.WaitingForRecv)
      case Refused(WaitingForReply) => w == P.Refused(P.WaitingForReply)
  {
  }

  // ---- The rings ----

  ghost function SendSlot<S>(send: map<int, P.SendEntry<S>>, k: int): Option<SendEntry<S>> {
    if k in send then
      var e := send[k];
      P.Some(SendEntry(Wrap(k), WrapNo(e.msg.replyNo), e.msg.seqCst, e.resendTime, e.msg.data))
    else P.None
  }

  ghost function RecvSlot<R>(recv: map<int, P.RecvEntry<R>>, k: int): RecvEntry<R> {
    if k !in recv then Empty
    else match recv[k]
      case Occupied(m) => Occupied(Wrap(k), WrapNo(m.replyNo), m.seqCst, m.data)
      case Unlocked => Unlocked(Wrap(k))
  }

  /** Slot k % cap holds what is known of number k, for the last cap numbers issued. */
  ghost predicate SendRing<S, R>(w: seq<Option<SendEntry<S>>>, p: P.Peer<S, R>) {
    && p.cap > 0 && |w| == p.cap
    && forall k :: p.nextSend - p.cap <= k < p.nextSend ==> w[k % p.cap] == SendSlot(p.send, k)
  }

  /** Slot k % cap holds what is known of number k, for the next cap numbers expected. */
  ghost predicate RecvRing<S, R>(w: seq<RecvEntry<R>>, p: P.Peer<S, R>) {
    && p.cap > 0 && |w| == p.cap
    && forall k :: p.nextRecv <= k < p.nextRecv + p.cap ==> w[k % p.cap] == RecvSlot(p.recv, k)
  }

  lemma SendRingPut<S, R>(w: seq<Option<SendEntry<S>>>, p: P.Peer<S, R>, at: int, msg: P.Message<S>)
    requires SendRing(w, p)
    ensures SendRing(w[p.nextSend % p.cap := SendSlot(P.Insert(p, at, msg).send, p.nextSend)], P.Insert(p, at, msg))
  {
    var q := P.Insert(p, at, msg);
    forall k | q.nextSend - q.cap <= k < p.nextSend
      ensures k % p.cap != p.nextSend % p.cap && SendSlot(q.send, k) == SendSlot(p.send, k)
    {
      if k % p.cap == p.nextSend % p.cap { SlotInjective(k, p.nextSend, p.cap); }
    }
  }

  /** Overwriting the slot of one number in reach changes only that number's entry. */
  lemma SendRingSet<S, R>(w: seq<Option<SendEntry<S>>>, p: P.Peer<S, R>, q: P.Peer<S, R>, r: int)
    requires SendRing(w, p) && p.nextSend - p.cap <= r < p.nextSend
    requires q.cap == p.cap && q.nextSend == p.nextSend
    requires forall k :: k != r ==> SendSlot(q.send, k) == SendSlot(p.send, k)
    ensures SendRing(w[r % p.cap := SendSlot(q.send, r)], q)
  {
    forall k | p.nextSend - p.cap <= k < p.nextSend && k != r
      ensures k % p.cap != r % p.cap
    {
      if k % p.cap == r % p.cap { SlotInjective(k, r, p.cap); }
    }
  }

  lemma RecvRingSet<S, R>(w: seq<RecvEntry<R>>, p: P.Peer<S, R>, q: P.Peer<S, R>, n: int)
    requires RecvRing(w, p) && p.nextRecv <= n < p.nextRecv + p.cap
    requires q.cap == p.cap && q.nextRecv == p.nextRecv
    requires forall k :: k != n ==> RecvSlot(q.recv, k) == RecvSlot(p.recv, k)
    ensures RecvRing(w[n % p.cap := RecvSlot(q.recv, n)], q)
  {
    forall k | p.nextRecv <= k < p.nextRecv + p.cap && k != n
      ensures k % p.cap != n % p.cap
    {
      if k % p.cap == n % p.cap { SlotInjective(k, n, p.cap); }
    }
  }

  /** Emptying the slot of the next number and counting on moves the window by one. */
  lemma RecvRingNext<S, R>(w: seq<RecvEntry<R>>, p: P.Peer<S, R>)
    requires RecvRing(w, p) && Bounded(p)
    ensures RecvRing(w[p.nextRecv % p.cap := Empty], p.(recv := p.recv - {p.nextRecv}, nextRecv := p.nextRecv + 1))
  {
    var n, q := p.nextRecv, p.(recv := p.recv - {p.nextRecv}, nextRecv := p.nextRecv + 1);
    forall k | n < k <= n + p.cap
      ensures w[n % p.cap := Empty][k % p.cap] == RecvSlot(q.recv, k)
    {
      if k == n + p.cap {
        SlotPeriod(n, p.cap);
      } else if k % p.cap == n % p.cap {
        SlotInjective(k, n, p.cap);
      }
    }
  }

  /** The 32-bit test on an occupant's number decides membership in the unbounded window. */
  lemma SendSlotTest<S, R>(w: seq<Option<SendEntry<S>>>, p: P.Peer<S, R>, r: int)
    requires SendRing(w, p) && Bounded(p) && GoodCap(p.cap)
    requires p.nextSend - HALF <= r < p.nextSend + HALF
    ensures var slot := w[Wrap(r) % p.cap];
      && (r in p.send <==> slot.Some? && slot.value.seqNo == Wrap(r))
      && (r in p.send ==> slot == SendSlot(p.send, r))
  {
    WrapKeepsSlot(r, p.cap);
    var k := Occupant(r, p.nextSend - p.cap, p.cap);
    if k != r && w[Wrap(r) % p.cap].Some? && Wrap(k) == Wrap(r) {
      WrapInjective(k, r);
    }
  }

  /** The number in [lo, lo + cap) that has the slot of r. */
  lemma Occupant(r: int, lo: int, cap: int) returns (k: int)
    requires cap > 0
    ensures lo <= k < lo + cap && k % cap == r % cap
  {
    k := lo + (r - lo) % cap;
    var q := (r - lo) / cap;
    assert r == k + q * cap;
    ModShift(k, q, cap);
  }

  /** The first |issued| cells of the table hold the issued reply numbers. */
  ghost predicate ReplyTable(t: seq<SeqNo>, issued: seq<int>, replies: multiset<int>) {
    && |issued| <= |t|
    && multiset(issued) == replies
    && forall i :: 0 <= i < |issued| ==> t[i] == Wrap(issued[i])
  }

  /** Numbers with the same 32 bits can trade places: the cells do not tell them apart. */
  lemma Relabel(t: seq<SeqNo>, issued: seq<int>, replies: multiset<int>, i: int, want: int) returns (again: seq<int>)
    requires ReplyTable(t, issued, replies) && 0 <= i < |issued| && want in replies && Wrap(want) == t[i]
    ensures ReplyTable(t, again, replies) && |again| == |issued| && again[i] == want
  {
    assert want in multiset(issued);
    var j :| 0 <= j < |issued| && issued[j] == want;
    again := issued[i := issued[j]][j := issued[i]];
  }

  /** Moving the last number into cell i removes the number that was there. */
  lemma SwapRemove(t: seq<SeqNo>, issued: seq<int>, replies: multiset<int>, i: int) returns (rest: seq<int>)
    requires ReplyTable(t, issued, replies) && 0 <= i < |issued|
    ensures |rest| == |issued| - 1 < |t| && issued[i] in replies
    ensures ReplyTable(t[i := t[|issued| - 1]], rest, replies - multiset{issued[i]})
  {
    var last := |issued| - 1;
    assert issued[i] in multiset(issued);
    rest := issued[i := issued[last]][..last];
    assert issued == issued[..last] + [issued[last]];
    if i < last {
      assert rest == issued[..last][i := issued[last]];
    } else {
      assert rest == issued[..last];
    }
  }

  lemma TableAdd(t: seq<SeqNo>, issued: seq<int>, replies: multiset<int>, n: int)
    requires ReplyTable(t, issued, replies) && |issued| < |t|
    ensures ReplyTable(t[|issued| := Wrap(n)], issued + [n], replies + multiset{n})
  {
  }
}
