/** What every operation of one peer does and answers, for any state and any packet, in words of
    its windows, its counters, the replies it owes and its lock. */
module Outcomes {
  import opened SeqNumbers
  import opened Protocol
  import opened PeerInvariants
  import opened Reservations

  // ---- Room ----

  /** The slot of the i-th coming number is empty, or is that of the packet answered. */
  ghost predicate Usable<S, R>(p: Peer<S, R>, i: int, reply: Option<int>)
    requires p.cap > 0
  {
    || p.nextSend + i - p.cap !in p.send
    || (reply.Some? && reply.value % p.cap == (p.nextSend + i) % p.cap)
  }

  /** One more answer can be owed: there is a place for it in the table, and a slot for it after
      the slots of the answers owed already. */
  ghost predicate Fits<S, R>(p: Peer<S, R>, reply: Option<int>)
    requires p.cap > 0
  {
    |p.replies| < p.cap - 2 && forall i :: 0 <= i <= |p.replies| ==> Usable(p, i, reply)
  }

  /** What is missing is a packet from the remote: the very next slot is taken. */
  ghost predicate NextTaken<S, R>(p: Peer<S, R>, reply: Option<int>)
    requires p.cap > 0
  {
    |p.replies| < p.cap - 2 && !Usable(p, 0, reply)
  }

  /** What is missing is an answer to the remote: the table is full, or the next slot could be
      used but one of those after it is taken. */
  ghost predicate LaterTaken<S, R>(p: Peer<S, R>, reply: Option<int>)
    requires p.cap > 0
  {
    || |p.replies| >= p.cap - 2
    || (Usable(p, 0, reply) && exists i :: 0 < i <= |p.replies| && !Usable(p, i, reply))
  }

  lemma UsableIff<S, R>(p: Peer<S, R>, i: int, reply: Option<int>)
    requires p.cap > 0
    ensures Blocked(p, i, reply) <==> !Usable(p, i, reply)
  {
    if reply.Some? { SameSlot(reply.value, p.nextSend + i, p.cap); }
  }

  lemma RoomIs<S, R>(p: Peer<S, R>, reply: Option<int>)
    requires p.cap > 0
    ensures Fits(p, reply) <==> Fullness(p, reply) == HasRoom
    ensures NextTaken(p, reply) <==> Fullness(p, reply) == NeedRecv
    ensures LaterTaken(p, reply) <==> Fullness(p, reply) == NeedReply
  {
    forall i ensures Blocked(p, i, reply) <==> !Usable(p, i, reply) { UsableIff(p, i, reply); }
  }

  // ---- Packets that arrive ----

  ghost predicate InRange<S, R>(p: Peer<S, R>, n: int) { p.nextRecv <= n < p.nextRecv + p.cap }

  /** A packet in range is delivered exactly if one more answer can be owed, and it is not a
      SeqCst packet that is out of turn or locked out. */
  lemma ReceiveDeliversIff<S, R>(p: Peer<S, R>, n: int, msg: Message<R>)
    requires PeerOk(p) && InRange(p, n)
    ensures Receive(p, Data(n, msg)).1.Delivered? <==>
      Fits(p, msg.replyNo) && (msg.seqCst ==> n == p.nextRecv && !p.locked)
  {
    hide Fullness, Fits, NextTaken, LaterTaken;
    RoomIs(p, msg.replyNo);
  }

  /** The packet has to wait for an answer to be sent here, or for the lock. */
  ghost predicate WaitsForReply<S, R>(p: Peer<S, R>, n: int, msg: Message<R>)
    requires p.cap > 0
  {
    LaterTaken(p, msg.replyNo) || (Fits(p, msg.replyNo) && msg.seqCst && n == p.nextRecv && p.locked)
  }

  /** The packet has to wait for another one from the remote. */
  ghost predicate WaitsForRecv<S, R>(p: Peer<S, R>, n: int, msg: Message<R>)
    requires p.cap > 0
  {
    NextTaken(p, msg.replyNo) || (Fits(p, msg.replyNo) && msg.seqCst && n != p.nextRecv)
  }

  /** An answer to n is being decided, or waits in the window for its own answer. */
  ghost predicate AnswerOut<S, R>(p: Peer<S, R>, n: int) {
    n in p.replies || exists k :: k in p.send && p.send[k].msg.replyNo == Some(n)
  }

  /** Why a packet is refused: exactly one reason for each answer. A SeqCst packet both out of
      turn and locked out waits for the packets before it. */
  lemma WhyRefused<S, R>(p: Peer<S, R>, frame: Frame<R>)
    requires PeerOk(p)
    ensures var out := Receive(p, frame).1;
      match frame
      case Ack(r) => if r in p.send then out.Delivered? else out == Refused(DroppedDuplicate)
      case Data(n, msg) =>
        && (out == Refused(DroppedTooEarly) <==> n >= p.nextRecv + p.cap)
        && (out == Refused(DroppedDuplicate) <==> n < p.nextRecv && AnswerOut(p, n))
        && (out == Refused(DroppedDuplicateResendAck(n)) <==> n < p.nextRecv && !AnswerOut(p, n))
        && (out == Refused(WaitingForRecv) <==> InRange(p, n) && WaitsForRecv(p, n, msg))
        && (out == Refused(WaitingForReply) <==> InRange(p, n) && WaitsForReply(p, n, msg))
  {
    hide Fullness, Fits, NextTaken, LaterTaken;
    if frame.Data? { RoomIs(p, frame.msg.replyNo); }
  }

  /** A refused packet changes nothing, unless it is told to wait and its number is new: then it
      is stored, and nothing else changes. */
  lemma RefusedKeeps<S, R>(p: Peer<S, R>, frame: Frame<R>)
    requires PeerOk(p) && Receive(p, frame).1.Refused?
    ensures var (q, out) := Receive(p, frame);
      if frame.Data? && InRange(p, frame.seqNo) && frame.seqNo !in p.recv
      then q == p.(recv := p.recv[frame.seqNo := Occupied(frame.msg)])
      else q == p
  {
    hide Gate;
  }

  /** An ack of a number in the window hands its data back and takes the entry out, nothing
      else; it never asks for a pump. */
  lemma AckedIs<S, R>(p: Peer<S, R>, r: int)
    requires p.cap > 0 && r in p.send
    ensures var (q, out) := Receive<S, R>(p, Ack(r));
      && out == Delivered(Acked(p.send[r].msg.data), false)
      && q == p.(send := q.send) && q.send.Keys == p.send.Keys - {r}
      && (forall k :: k in q.send ==> q.send[k] == p.send[k])
  {
  }

  // ---- Pumping ----

  ghost predicate StoredNext<S, R>(p: Peer<S, R>) { p.nextRecv in p.recv && p.recv[p.nextRecv].Occupied? }

  lemma PumpDeliversIff<S, R>(p: Peer<S, R>)
    requires PeerOk(p)
    ensures Pump(p).1.Delivered? <==>
      && StoredNext(p)
      && var msg := p.recv[p.nextRecv].msg; Fits(p, msg.replyNo) && (msg.seqCst ==> !p.locked)
  {
    hide Fullness, Fits, NextTaken, LaterTaken;
    if StoredNext(p) { RoomIs(p, p.recv[p.nextRecv].msg.replyNo); }
  }

  /** Why a pump refuses: nothing is stored next, or it waits for the reason a packet would. */
  lemma WhyNotPumped<S, R>(p: Peer<S, R>)
    requires PeerOk(p)
    ensures var out := Pump(p).1;
      if !StoredNext(p) then out == Refused(WaitingForRecv)
      else
        var msg := p.recv[p.nextRecv].msg;
        && (out == Refused(WaitingForRecv) <==> WaitsForRecv(p, p.nextRecv, msg))
        && (out == Refused(WaitingForReply) <==> WaitsForReply(p, p.nextRecv, msg))
  {
    hide Fullness, Fits, NextTaken, LaterTaken;
    if StoredNext(p) { RoomIs(p, p.recv[p.nextRecv].msg.replyNo); }
  }

  /** With the slots of the answers owed kept free: the next slot is taken only while nothing is
      owed, and any other lack of room is due to an answer owed. */
  lemma RoomWhenReserved<S, R>(p: Peer<S, R>, reply: Option<int>)
    requires PeerOk(p) && Reserved(p) && p.cap > 2
    ensures NextTaken(p, reply) <==> |p.replies| == 0 && !Usable(p, 0, reply)
    ensures LaterTaken(p, reply) <==> |p.replies| > 0 && !Fits(p, reply)
  {
    if |p.replies| > 0 { assert Usable(p, 0, reply); }
  }

  /** So a pump answers `WaitingForReply` exactly if a packet is stored next, and it has no room
      while an answer is owed, or has room but is a SeqCst packet locked out; and
      `WaitingForRecv` exactly if nothing is stored next, or nothing is owed and the slot needed
      is taken by a packet that is not the one answered. */
  lemma PumpReasons<S, R>(p: Peer<S, R>)
    requires PeerOk(p) && Reserved(p) && p.cap > 2
    ensures var out := Pump(p).1;
      && (out == Refused(WaitingForReply) <==>
           && StoredNext(p)
           && var msg := p.recv[p.nextRecv].msg;
           if Fits(p, msg.replyNo) then msg.seqCst && p.locked else |p.replies| > 0)
      && (out == Refused(WaitingForRecv) <==> StoredNext(p) ==>
           |p.replies| == 0 && !Usable(p, 0, p.recv[p.nextRecv].msg.replyNo))
  {
    WhyNotPumped(p);
    if StoredNext(p) { RoomWhenReserved(p, p.recv[p.nextRecv].msg.replyNo); }
  }

  // ---- The pump flag ----

  /** A delivery asks for a pump exactly if it was that of the next number, and a packet waits at
      the number that is next now. */
  lemma ReceiveFlag<S, R>(p: Peer<S, R>, n: int, msg: Message<R>)
    requires PeerOk(p) && Receive(p, Data(n, msg)).1.Delivered?
    ensures var (q, out) := Receive(p, Data(n, msg));
      out.doPump <==> n == p.nextRecv && StoredNext(q)
  {
    hide Gate;
    AdvanceKeeps(p, p.nextRecv);
  }

  lemma PumpFlag<S, R>(p: Peer<S, R>)
    requires PeerOk(p) && Pump(p).1.Delivered?
    ensures Pump(p).1.doPump <==> StoredNext(Pump(p).0)
  {
    hide Gate;
    AdvanceKeeps(p, p.nextRecv);
  }

  // ---- Sending and answering ----

  /** q is p with one more entry, under the next number; its slot held nothing else. */
  ghost predicate Adds<S, R>(p: Peer<S, R>, q: Peer<S, R>, e: SendEntry<S>) {
    && q.cap == p.cap && q.nextSend == p.nextSend + 1 && q.nextRecv == p.nextRecv && q.recv == p.recv
    && (forall k :: k in q.send <==> k == p.nextSend || (k in p.send && k != p.nextSend - p.cap))
    && (forall k :: k in q.send ==> q.send[k] == if k == p.nextSend then e else p.send[k])
  }

  /** A send is accepted exactly if there is room, and then emits its packet and keeps it under
      the next number, to be sent again at `at`; otherwise nothing changes, and the error says
      whether the very next slot is taken. */
  lemma SendIs<S, R>(p: Peer<S, R>, at: int, cst: bool, d: S)
    requires PeerOk(p)
    ensures var (q, room) := TrySend(p, at, cst, d);
      var e := Apply<S, R>(p, DoSend(at, cst, d));
      var msg := Message(None, cst, d);
      && e.peer == q && e.outcome == None
      && (room == HasRoom <==> Fits(p, None)) && (room == NeedRecv <==> NextTaken(p, None))
      && if Fits(p, None)
         then Adds(p, q, SendEntry(msg, at)) && q.replies == p.replies && q.locked == p.locked
              && e.emitted == {Data(p.nextSend, msg)} && e.sent == Some(msg)
         else q == p && e.emitted == {} && e.sent == None
  {
    hide Fullness, Fits, NextTaken, LaterTaken;
    RoomIs(p, None);
    NotBoth(p, None);
  }

  lemma NotBoth<S, R>(p: Peer<S, R>, reply: Option<int>)
    requires p.cap > 0
    ensures !(Fits(p, reply) && NextTaken(p, reply))
  {
  }

  /** A reply to an issued number uses up one issue of it, releases the lock if asked to, and
      goes out and into the window; to any other number it does nothing. */
  lemma ReplyIs<S, R>(p: Peer<S, R>, at: int, r: int, unlock: bool, cst: bool, d: S)
    requires PeerOk(p)
    ensures var e := Apply<S, R>(p, DoReply(at, r, unlock, cst, d));
      var q, msg := e.peer, Message(Some(r), cst, d);
      && e.outcome == None
      && if r in p.replies
         then Adds(p, q, SendEntry(msg, at)) && q.replies == p.replies - multiset{r}
              && (q.locked <==> p.locked && !unlock)
              && e.emitted == {Data(p.nextSend, msg)} && e.sent == Some(msg)
         else q == p && e.emitted == {} && e.sent == None
  {
  }

  /** An ack of an issued number uses up one issue of it, releases the lock if asked to, and goes
      out; of any other number it does nothing. */
  lemma AckIs<S, R>(p: Peer<S, R>, r: int, unlock: bool)
    requires p.cap > 0
    ensures var e := Apply<S, R>(p, DoAck(r, unlock));
      var q := e.peer;
      && e.outcome == None && e.sent == None
      && if r in p.replies
         then q == p.(replies := p.replies - multiset{r}, locked := q.locked)
              && (q.locked <==> p.locked && !unlock) && e.emitted == {Ack(r)}
         else q == p && e.emitted == {}
  {
  }

  lemma UnlockIs<S, R>(p: Peer<S, R>)
    requires p.cap > 0
    ensures var e := Apply<S, R>(p, DoUnlock);
      && !e.peer.locked && e.peer == p.(locked := false)
      && e.emitted == {} && e.sent == None && e.outcome == None
  {
  }

  /** Receiving and pumping send nothing new; only a packet that is to be acked again makes
      something go out, that ack. */
  lemma ArrivalEmits<S, R>(p: Peer<S, R>, frame: Frame<R>)
    requires PeerOk(p)
    ensures var e := Apply<S, R>(p, DoReceive(frame));
      && e.sent == None && e.outcome == Some(Receive(p, frame).1) && e.peer == Receive(p, frame).0
      && e.emitted == if frame.Data? && frame.seqNo < p.nextRecv && !AnswerOut(p, frame.seqNo)
                      then {Ack(frame.seqNo)} else {}
    ensures var e := Apply<S, R>(p, DoPumpOnce);
      && e.sent == None && e.outcome == Some(Pump(p).1) && e.peer == Pump(p).0 && e.emitted == {}
  {
    hide Pump, Receive, AnswerOut;
    WhyRefused(p, frame);
    ReAckNumber(p, frame);
  }

  lemma ReAckNumber<S, R>(p: Peer<S, R>, frame: Frame<R>)
    requires p.cap > 0
    ensures var out := Receive(p, frame).1;
      out.Refused? && out.error.DroppedDuplicateResendAck? ==> frame.Data? && out.error.seqNo == frame.seqNo
  {
    hide Gate, Advance;
  }

  // ---- The timer ----

  lemma StartsIdle<S, R>(cap: int, first: int, never: int)
    ensures var p: Peer<S, R> := Initial(cap, first, never);
      && p.cap == cap && p.nextSend == p.nextRecv == first && p.nextService == never && !p.locked
      && p.send == map[] && p.recv == map[] && p.replies == multiset{}
  {
  }

  /** Apart from the resend scan, the timer changes only when a packet is sent, and then to the
      earlier of its old time and the time that packet is to be sent again. */
  lemma TimerAfter<S, R>(p: Peer<S, R>, op: Op<S, R>)
    requires PeerOk(p) && !op.DoService?
    ensures var e := Apply(p, op);
      if e.sent.None? then e.peer.nextService == p.nextService
      else
        && (op.DoSend? || op.DoReply?)
        && e.peer.nextService <= p.nextService && e.peer.nextService <= op.resendAt
        && (e.peer.nextService == p.nextService || e.peer.nextService == op.resendAt)
  {
    hide Fullness, Gate;
    if op.DoReceive? || op.DoPumpOnce? { AdvanceKeeps(p, p.nextRecv); }
  }

  /** A scan before its time does nothing. One in time sends every due entry, which will be due
      again at `at`, keeps all others as they are, and leaves everything but the timer alone. */
  lemma ScanIs<S, R>(p: Peer<S, R>, now: int, at: int, never: int)
    requires PeerOk(p)
    ensures var e := Apply<S, R>(p, DoService(now, at, never));
      var q := e.peer;
      && e.sent == None && e.outcome == None
      && if p.nextService > now then q == p && e.emitted == {}
         else
           && q == p.(send := q.send, nextService := q.nextService) && q.send.Keys == p.send.Keys
           && (forall k :: k in p.send ==>
                q.send[k] == if p.send[k].resendTime <= now then SendEntry(p.send[k].msg, at) else p.send[k])
           && (forall f :: f in e.emitted <==>
                f.Data? && f.seqNo in p.send && p.send[f.seqNo].resendTime <= now && f.msg == p.send[f.seqNo].msg)
  {
    hide Earliest;
  }
}
