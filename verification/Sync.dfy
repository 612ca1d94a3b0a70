/** The thread-safe interface as the program has it. The engine sits behind a mutex, and every
    method here is one critical section; guards are objects that threads own. Each method is
    proved to be one step of the guard protocol. */
module Sync {
  import opened SeqNumbers
  import opened PeerInvariants
  import opened Rings
  import opened Engine
  import opened Guards
  import opened Outcomes
  import History
  import SingleThread
  import P = Protocol

  /** Owned by the thread that processes a delivered packet. */
  class ReplyGuard {
    const replyNo: SeqNo
    var isHoldingLock: bool
    ghost const id: int

    constructor (replyNo: SeqNo, isHoldingLock: bool, ghost id: int)
      ensures this.replyNo == replyNo && this.isHoldingLock == isHoldingLock && this.id == id
    {
      this.replyNo, this.isHoldingLock, this.id := replyNo, isHoldingLock, id;
    }
  }

  /** What is left of a guard that was answered but keeps the lock. */
  class SeqCstGuard {
    ghost const id: int

    constructor (ghost id: int)
      ensures this.id == id
    {
      this.id := id;
    }
  }

  datatype TryRecvError = NeedsReply | OutOfSequence | SessionClosed

  datatype Received<+E, +S, +R> =
    | Failed(error: E)
    | AckReceived(sendData: S)
    | Item(guard: ReplyGuard, recvData: R, answered: Option<S>, doPump: bool)

  datatype SendOutcome<+S> = Accepted(packet: Packet<S>) | Rejected(error: P.Room, data: S) | SendClosed(data: S)

  datatype PassOutcome<+S> = PassSent(packet: Packet<S>) | PassWaits(error: P.Room, data: S) | PassClosed

  function SyncError<N>(e: P.RecvError<N>): TryRecvError {
    if e.WaitingForReply? then NeedsReply else OutOfSequence
  }

  class SharedSeqEx<S, R> {
    const engine: SeqEx<S, R>
    var closed: bool
    ghost var shared: Shared<S, R>

    ghost predicate Valid()
      reads this, engine, engine.sendWindow, engine.recvWindow, engine.concurrentReplies
    {
      && engine.Valid() && shared.peer == engine.model && shared.closed == closed
      && GuardsOk(shared)
    }

    /** The thread's guard is one the protocol knows of. */
    ghost predicate Live(g: ReplyGuard)
      reads this, g
    {
      && g.id in shared.guards && shared.guards[g.id].holding == g.isHoldingLock
      && g.replyNo == Wrap(shared.guards[g.id].replyNo)
    }

    constructor (cap: int, retryInterval: int, initialSeqNo: SeqNo)
      requires GoodCap(cap)
      ensures Valid() && shared == Opened(cap, initialSeqNo, I64_MAX)
      ensures engine.resendInterval == retryInterval
      ensures fresh(engine) && fresh(engine.sendWindow) && fresh(engine.recvWindow) && fresh(engine.concurrentReplies)
    {
      engine := new SeqEx(cap, retryInterval, initialSeqNo);
      closed := false;
      shared := Opened(cap, initialSeqNo, I64_MAX);
      new;
      CriticalSection<S, R>(cap, initialSeqNo, I64_MAX, []);
    }

    /** A live guard's number is an issued one. */
    lemma GuardNumber(g: ReplyGuard)
      requires Valid() && Live(g)
      ensures shared.guards[g.id].replyNo in engine.model.replies
    {
      ForgetHolders(shared, g.id);
    }

    /** The packet that answers the guard's packet, under the next number. */
    static ghost function ReplyPacket(s: Shared<S, R>, id: int, seqCst: bool, data: S): Packet<S>
      requires id in s.guards
    {
      WrapFrame(P.Data(s.peer.nextSend, P.Message(P.Some(s.guards[id].replyNo), seqCst, data)))
    }

    /** Puts a delivered item into a guard, which holds the lock if the packet is SeqCst. */
    method FromRaw<E>(out: P.Outcome<SeqNo, S, R>, ghost o: P.Outcome<int, S, R>) returns (r: Received<E, S, R>)
      requires out.Delivered? && out == WrapOutcome(o)
      ensures match r
        case Item(g, data, answered, pump) =>
          && !o.ok.Acked?
          && fresh(g) && g.id == shared.nextId && g.replyNo == Wrap(o.ok.replyNo) && g.isHoldingLock == o.ok.seqCst
          && data == o.ok.recvData && pump == o.doPump
          && answered == (if o.ok.Reply? then P.Some(o.ok.sendData) else P.None)
        case AckReceived(data) => o.ok == P.Acked(data)
        case Failed(_) => false
    {
      match out.ok
      case Acked(data) => return AckReceived(data);
      case Payload(n, cst, data) =>
        var g := new ReplyGuard(n, cst, shared.nextId);
        return Item(g, data, P.None, out.doPump);
      case Reply(n, cst, data, sent) =>
        var g := new ReplyGuard(n, cst, shared.nextId);
        return Item(g, data, P.Some(sent), out.doPump);
    }

    /** The 32-bit outcome says the same as the protocol's, as far as a caller can tell. */
    static lemma RawAgrees(p: P.Peer<S, R>, frame: P.Frame<R>)
      requires p.cap > 0
      ensures var raw, o := ReceiveOutcome(p, frame), P.Receive(p, frame).1;
        if raw.Delivered? then o.Delivered? && raw == WrapOutcome(o)
        else o.Refused? && SyncError(raw.error) == SyncError(o.error)
             && (raw.error.DroppedDuplicateResendAck? ==> SyncError(o.error) == OutOfSequence)
    {
      hide Wrap, AliasPending, P.AnswerPending, P.Accept, P.Gate, P.Advance;
    }

    /** A packet is stored, and a reply owed here, or the lock, stands in its way. */
    static ghost predicate MustReply(p: P.Peer<S, R>, frame: P.Frame<R>)
      requires p.cap > 0
    {
      && P.Receive(p, frame).1 == P.Refused(P.WaitingForReply)
      && frame.Data? && InRange(p, frame.seqNo) && WaitsForReply(p, frame.seqNo, frame.msg)
    }

    /** A packet is dropped, as too early or as a duplicate, or has to wait for another one. */
    static ghost predicate NothingToDo(p: P.Peer<S, R>, frame: P.Frame<R>)
      requires p.cap > 0
    {
      var o := P.Receive(p, frame).1;
      || o == P.Refused(P.WaitingForRecv) || o == P.Refused(P.DroppedTooEarly)
      || o == P.Refused(P.DroppedDuplicate)
      || (frame.Data? && o == P.Refused(P.DroppedDuplicateResendAck(frame.seqNo)))
    }

    static lemma ErrorsNamed(p: P.Peer<S, R>, frame: P.Frame<R>)
      requires PeerOk(p)
      ensures var o := P.Receive(p, frame).1;
        && (o.Refused? && SyncError(o.error) == NeedsReply <==> MustReply(p, frame))
        && (o.Refused? && SyncError(o.error) == OutOfSequence <==> NothingToDo(p, frame))
        && (o.Refused? ==> SyncError(o.error) != SessionClosed)
    {
      hide P.Receive, Fits, LaterTaken, NextTaken, AnswerOut;
      WhyRefused(p, frame);
      if frame.Data? && InRange(p, frame.seqNo) { ReceiveDeliversIff(p, frame.seqNo, frame.msg); }
      Outcomes.ReAckNumber(p, frame);
    }

    /** What a caller learns from the 32-bit outcome, once a repeated ack was sent for it. */
    static lemma ReceiveErrors(p: P.Peer<S, R>, frame: P.Frame<R>)
      requires PeerOk(p)
      ensures var raw, o := ReceiveOutcome(p, frame), P.Receive(p, frame).1;
        if raw.Delivered? then
          o.Delivered? && raw == WrapOutcome(o) && !MustReply(p, frame) && !NothingToDo(p, frame)
        else
          var e := SyncError(if raw.error.DroppedDuplicateResendAck? then P.DroppedDuplicate else raw.error);
          && o.Refused? && e == SyncError(o.error) != SessionClosed
          && (e == NeedsReply <==> MustReply(p, frame)) && (e == OutOfSequence <==> NothingToDo(p, frame))
    {
      hide P.Receive, ReceiveOutcome, MustReply, NothingToDo, WrapOutcome;
      RawAgrees(p, frame);
      ErrorsNamed(p, frame);
      if P.Receive(p, frame).1.Delivered? { DeliveredIsNoError(p, frame); }
    }

    static lemma DeliveredIsNoError(p: P.Peer<S, R>, frame: P.Frame<R>)
      requires p.cap > 0 && P.Receive(p, frame).1.Delivered?
      ensures !MustReply(p, frame) && !NothingToDo(p, frame)
    {
      hide P.Receive;
    }

    method TryReceive(packet: Packet<R>) returns (r: Received<TryRecvError, S, R>, sent: Option<Packet<S>>)
      requires Valid()
      modifies this`shared, engine`nextRecvSeqNo, engine`concurrentRepliesTotal, engine`isLocked, engine`model,
        engine`issued, engine.concurrentReplies, engine.sendWindow, engine.recvWindow
      ensures Valid()
      ensures closed <==> r == Failed(SessionClosed)
      ensures var frame := LiftPacket(packet, old(engine.model.nextSend), old(engine.model.nextRecv));
        && (!closed && r == Failed(NeedsReply) <==> !closed && MustReply(old(engine.model), frame))
        && (!closed && r == Failed(OutOfSequence) <==> !closed && NothingToDo(old(engine.model), frame))
      ensures var frame := LiftPacket(packet, old(engine.model.nextSend), old(engine.model.nextRecv));
        var raw, o := ReceiveOutcome(old(engine.model), frame), P.Receive(old(engine.model), frame).1;
        && shared == Perform(old(shared), Call.TryReceive(frame))
        && sent == (if !closed && raw.Refused? && raw.error.DroppedDuplicateResendAck?
                    then P.Some(Ack(packet.seqNo)) else P.None)
        && match r
           case Failed(e) => (if closed then e == SessionClosed else o.Refused? && e == SyncError(o.error))
           case AckReceived(data) => !closed && o.Delivered? && o.ok == P.Acked(data)
           case Item(g, data, answered, pump) =>
             && !closed && o.Delivered? && !o.ok.Acked? && fresh(g) && Live(g) && g.id == old(shared.nextId)
             && pump == o.doPump && data == o.ok.recvData
             && answered == (if o.ok.Reply? then P.Some(o.ok.sendData) else P.None)
    {
      hide SendRing, RecvRing, ReplyTable, Wrap, Lift, LiftPacket, GuardsOk, P.Receive, ReceiveOutcome, WrapOutcome,
        MustReply, NothingToDo, SyncError, Bounded;
      if closed {
        return Failed(SessionClosed), P.None;
      }
      ghost var frame := LiftPacket(packet, engine.model.nextSend, engine.model.nextRecv);
      ghost var o := P.Receive(engine.model, frame).1;
      PerformOk(shared, Call.TryReceive(frame));
      ReceiveErrors(engine.model, frame);
      var out;
      out, sent := SingleThread.TryReceiveRaw(engine, packet);
      match out {
        case Refused(e) => r := Failed(SyncError(e));
        case Delivered(_, _) => r := FromRaw(out, o);
      }
      shared := Perform(shared, Call.TryReceive(frame));
    }

    /** The same, with the reply number of the next stored packet read near the send counter. */
    static ghost function RereadShared(s: Shared<S, R>): Shared<S, R> { s.(peer := Reread(s.peer)) }

    static lemma RereadOk(s: Shared<S, R>)
      requires GuardsOk(s) && PeerOk(s.peer)
      ensures GuardsOk(RereadShared(s)) && PeerOk(Reread(s.peer)) && Reread(s.peer).cap == s.peer.cap
    {
      PeerSwap(s, Reread(s.peer));
    }

    /** Pumping goes on after the session was closed. */
    method TryPump() returns (r: Received<P.Room, S, R>)
      requires Valid()
      modifies this`shared, engine`nextRecvSeqNo, engine`concurrentRepliesTotal, engine`isLocked, engine`model,
        engine`issued, engine.concurrentReplies, engine.sendWindow, engine.recvWindow
      ensures Valid() && shared == Perform(RereadShared(old(shared)), Call.TryPump)
      ensures old(engine.StoredInReach()) ==> RereadShared(old(shared)) == old(shared)
      ensures var o := P.Pump(Reread(old(engine.model))).1;
        match r
        case Failed(e) => o == P.Refused(if e == P.NeedRecv then P.WaitingForRecv else P.WaitingForReply)
        case AckReceived(_) => false
        case Item(g, data, answered, pump) =>
          && o.Delivered? && !o.ok.Acked? && fresh(g) && Live(g) && g.id == old(shared.nextId)
          && pump == o.doPump && data == o.ok.recvData
          && answered == (if o.ok.Reply? then P.Some(o.ok.sendData) else P.None)
    {
      hide SendRing, RecvRing, ReplyTable, Wrap, GuardsOk, P.Pump, Reread, Bounded, WindowsOk, TimerOk;
      ghost var s := RereadShared(shared);
      RereadOk(shared);
      ghost var o := P.Pump(s.peer).1;
      PerformOk(s, Call.TryPump);
      History.PumpOutcomes(s.peer);
      var out := engine.TryPumpRaw();
      match out {
        case Refused(e) => r := Failed(if e == P.WaitingForRecv then P.NeedRecv else P.NeedReply);
        case Delivered(_, _) => r := FromRaw(out, o);
      }
      shared := Perform(s, Call.TryPump);
    }

    method TrySend(currentTime: int, seqCst: bool, data: S) returns (r: SendOutcome<S>)
      requires Valid() && currentTime + engine.resendInterval <= I64_MAX
      modifies this`shared, engine`nextSendSeqNo, engine`nextServiceTimestamp, engine`model, engine.sendWindow
      ensures Valid()
      ensures var at := currentTime + engine.resendInterval;
        && shared == Perform(old(shared), TrySendCall(at, seqCst, data))
        && r == if closed then SendClosed(data)
                else if P.TrySend(old(engine.model), at, seqCst, data).1 == P.HasRoom
                then Accepted(WrapFrame(P.Data(old(engine.model.nextSend), P.Message(P.None, seqCst, data))))
                else Rejected(P.TrySend(old(engine.model), at, seqCst, data).1, data)
    {
      hide SendRing, RecvRing, ReplyTable, Wrap, GuardsOk, P.TrySend;
      if closed {
        return SendClosed(data);
      }
      ghost var call := TrySendCall(currentTime + engine.resendInterval, seqCst, data);
      PerformOk(shared, call);
      var sent := engine.TrySendDirect(currentTime, seqCst, data);
      shared := Perform(shared, call);
      match sent
      case Sent(p) => return Accepted(p);
      case Refused(e, d) => return Rejected(e, d);
    }

    /** One pass of the loop of a blocking send: it sends, or waits, or finds the session closed
        and then fails without giving the data back. */
    method SendPass(currentTime: int, seqCst: bool, data: S) returns (r: PassOutcome<S>)
      requires Valid() && currentTime + engine.resendInterval <= I64_MAX
      modifies this`shared, engine`nextSendSeqNo, engine`nextServiceTimestamp, engine`model, engine.sendWindow
      ensures Valid()
      ensures var at := currentTime + engine.resendInterval;
        && shared == Perform(old(shared), BlockingSend(at, seqCst, data))
        && r == if closed then PassClosed
                else if P.TrySend(old(engine.model), at, seqCst, data).1 == P.HasRoom
                then PassSent(WrapFrame(P.Data(old(engine.model.nextSend), P.Message(P.None, seqCst, data))))
                else PassWaits(P.TrySend(old(engine.model), at, seqCst, data).1, data)
    {
      hide SendRing, RecvRing, ReplyTable, Wrap, GuardsOk, P.TrySend;
      if closed {
        return PassClosed;
      }
      ghost var call := BlockingSend(currentTime + engine.resendInterval, seqCst, data);
      PerformOk(shared, call);
      var sent := engine.TrySendDirect(currentTime, seqCst, data);
      shared := Perform(shared, call);
      match sent
      case Sent(p) => return PassSent(p);
      case Refused(e, d) => return PassWaits(e, d);
    }

    /** Sends again what is due, in the order of the numbers, on a closed session too. */
    method Service(currentTime: int) returns (sent: seq<Packet<S>>, wait: int, ghost ks: seq<int>)
      requires Valid() && currentTime + engine.resendInterval <= I64_MAX
      modifies this`shared, engine`nextServiceTimestamp, engine`model, engine.sendWindow
      ensures Valid()
      ensures shared ==
        Perform(old(shared), ServiceCall(currentTime, currentTime + engine.resendInterval, I64_MAX))
      ensures SingleThread.Increasing(ks) && |sent| == |ks|
      ensures forall k :: k in ks <==>
                old(engine.model.nextService) <= currentTime && P.Due(old(engine.model.send), k, currentTime)
      ensures forall i :: 0 <= i < |ks| ==>
                ks[i] in old(engine.model.send)
                && sent[i] == WrapFrame(P.Data(ks[i], old(engine.model.send)[ks[i]].msg))
      ensures wait == P.Min(engine.resendInterval, engine.model.nextService - currentTime)
    {
      hide SendRing, RecvRing, ReplyTable, Wrap, GuardsOk, P.Service;
      ghost var call := ServiceCall(currentTime, currentTime + engine.resendInterval, I64_MAX);
      PerformOk(shared, call);
      sent, wait, ks := SingleThread.Service(engine, currentTime);
      shared := Perform(shared, call);
    }

    /** Answers with a reply; afterwards the guard is gone, and the lock with it. On a closed
        session the guard is dropped instead, and the data too. */
    method Reply(g: ReplyGuard, currentTime: int, seqCst: bool, data: S) returns (sent: Option<Packet<S>>)
      requires Valid() && Live(g) && currentTime + engine.resendInterval <= I64_MAX
      modifies this`shared, engine`nextSendSeqNo, engine`nextServiceTimestamp, engine`concurrentRepliesTotal,
        engine`isLocked, engine`model, engine`issued, engine.concurrentReplies, engine.sendWindow
      ensures Valid()
      ensures shared == Perform(old(shared), ReplyWith(g.id, currentTime + engine.resendInterval, seqCst, data))
      ensures sent == if closed then P.None else P.Some(ReplyPacket(old(shared), g.id, seqCst, data))
      ensures closed ==> engine.model == old(engine.model)
    {
      hide SendRing, RecvRing, ReplyTable, Wrap, Lift, GuardsOk, P.ReplyTo;
      ghost var call := ReplyWith(g.id, currentTime + engine.resendInterval, seqCst, data);
      GuardNumber(g);
      PerformOk(shared, call);
      if closed {
        sent := Drop(g);
        return;
      }
      ghost var r;
      sent, r := engine.ReplyRawAndDirect(currentTime, g.replyNo, g.isHoldingLock, seqCst, data,
                                          shared.guards[g.id].replyNo);
      shared := Perform(shared, call);
    }

    /** Answers with a reply and keeps the lock, if this guard has it. */
    method ReplyStayLocked(g: ReplyGuard, currentTime: int, seqCst: bool, data: S)
      returns (rest: SeqCstGuard?, sent: Option<Packet<S>>)
      requires Valid() && Live(g) && currentTime + engine.resendInterval <= I64_MAX
      modifies this`shared, engine`nextSendSeqNo, engine`nextServiceTimestamp, engine`concurrentRepliesTotal,
        engine`isLocked, engine`model, engine`issued, engine.concurrentReplies, engine.sendWindow
      ensures Valid()
      ensures shared ==
        Perform(old(shared), Call.ReplyStayLocked(g.id, currentTime + engine.resendInterval, seqCst, data))
      ensures sent == if closed then P.None else P.Some(ReplyPacket(old(shared), g.id, seqCst, data))
      ensures closed ==> engine.model == old(engine.model)
      ensures rest != null <==> g.isHoldingLock
      ensures rest != null ==> fresh(rest) && rest.id in shared.lockGuards
    {
      hide SendRing, RecvRing, ReplyTable, Wrap, Lift, GuardsOk, P.ReplyTo;
      ghost var call := Call.ReplyStayLocked(g.id, currentTime + engine.resendInterval, seqCst, data);
      GuardNumber(g);
      PerformOk(shared, call);
      rest := ConsumeLock(g);
      sent := P.None;
      if !closed {
        ghost var r;
        sent, r := engine.ReplyRawAndDirect(currentTime, g.replyNo, false, seqCst, data, shared.guards[g.id].replyNo);
      }
      shared := Perform(shared, call);
    }

    /** Turns the lock of a guard that is being consumed into a lock guard. */
    method ConsumeLock(g: ReplyGuard) returns (rest: SeqCstGuard?)
      ensures rest != null <==> g.isHoldingLock
      ensures rest != null ==> fresh(rest) && rest.id == shared.nextId
    {
      if g.isHoldingLock {
        rest := new SeqCstGuard(shared.nextId);
      } else {
        rest := null;
      }
    }

    /** Answers with an ack and keeps the lock, if this guard has it. */
    method AckNow(g: ReplyGuard) returns (rest: SeqCstGuard?, sent: Option<Packet<S>>)
      requires Valid() && Live(g)
      modifies this`shared, engine`concurrentRepliesTotal, engine`isLocked, engine`model, engine`issued,
        engine.concurrentReplies
      ensures Valid() && shared == Perform(old(shared), AckGuard(g.id))
      ensures sent == if closed then P.None else P.Some(Ack(g.replyNo))
      ensures rest != null <==> g.isHoldingLock
      ensures rest != null ==> fresh(rest) && rest.id in shared.lockGuards
    {
      hide SendRing, RecvRing, ReplyTable, Wrap, Lift, GuardsOk, P.AckTo;
      GuardNumber(g);
      PerformOk(shared, AckGuard(g.id));
      sent := P.None;
      if !closed {
        ghost var r;
        sent, r := engine.AckRawAndDirect(g.replyNo, false, shared.guards[g.id].replyNo);
      }
      rest := ConsumeLock(g);
      shared := Perform(shared, AckGuard(g.id));
    }

    /** Gives the lock up early; the packet still has to be answered. */
    method UnlockNow(g: ReplyGuard) returns (had: bool)
      requires Valid() && Live(g)
      modifies this`shared, engine`isLocked, engine`model, g
      ensures Valid() && shared == Perform(old(shared), UnlockGuard(g.id)) && Live(g)
      ensures had == old(g.isHoldingLock) && !g.isHoldingLock
    {
      hide SendRing, RecvRing, ReplyTable, Wrap, GuardsOk;
      PerformOk(shared, UnlockGuard(g.id));
      had := g.isHoldingLock;
      if had {
        g.isHoldingLock := false;
        engine.Unlock();
      }
      shared := Perform(shared, UnlockGuard(g.id));
    }

    /** The destructor of a reply guard: an ack, which releases the lock too; nothing at all on
        a closed session. */
    method Drop(g: ReplyGuard) returns (sent: Option<Packet<S>>)
      requires Valid() && Live(g)
      modifies this`shared, engine`concurrentRepliesTotal, engine`isLocked, engine`model, engine`issued,
        engine.concurrentReplies
      ensures Valid() && shared == Perform(old(shared), DropGuard(g.id))
      ensures sent == if closed then P.None else P.Some(Ack(g.replyNo))
    {
      hide SendRing, RecvRing, ReplyTable, Wrap, Lift, GuardsOk, P.AckTo;
      GuardNumber(g);
      PerformOk(shared, DropGuard(g.id));
      sent := P.None;
      if !closed {
        ghost var r;
        sent, r := engine.AckRawAndDirect(g.replyNo, g.isHoldingLock, shared.guards[g.id].replyNo);
      }
      shared := Perform(shared, DropGuard(g.id));
    }

    /** The destructor of a lock guard. */
    method DropLock(c: SeqCstGuard)
      requires Valid() && c.id in shared.lockGuards
      modifies this`shared, engine`isLocked, engine`model
      ensures Valid() && shared == Perform(old(shared), DropLockGuard(c.id))
    {
      hide SendRing, RecvRing, ReplyTable, Wrap, GuardsOk;
      PerformOk(shared, DropLockGuard(c.id));
      engine.Unlock();
      shared := Perform(shared, DropLockGuard(c.id));
    }

    /** Sending and receiving stop; pumping and answering what is left do not fail. */
    method CloseSession()
      requires Valid()
      modifies this`shared, this`closed
      ensures Valid() && closed && shared == Perform(old(shared), Close)
    {
      hide SendRing, RecvRing, ReplyTable, Wrap, GuardsOk;
      PerformOk(shared, Close);
      closed := true;
      shared := Perform(shared, Close);
    }
  }
}
