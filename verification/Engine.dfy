/** The engine as the program has it: rings of fixed size, 32-bit counters, a table of reply
    numbers, all updated in place. Each method is proved to do to the state `model` it
    stands for exactly what the unbounded protocol does. */
module Engine {
  import opened SeqNumbers
  import opened PeerInvariants
  import opened Rings
  import P = Protocol

  datatype SendResult<+S, +F> = Sent(packet: Packet<S>) | Refused(error: P.Room, data: F)

  /** The state with the reply number of the next stored packet read from its 32 bits, near
      the present send counter. */
  ghost function Reread<S, R>(p: P.Peer<S, R>): P.Peer<S, R> {
    if p.nextRecv in p.recv && p.recv[p.nextRecv].Occupied? then
      var m := p.recv[p.nextRecv].msg;
      p.(recv := p.recv[p.nextRecv := P.Occupied(m.(replyNo := LiftNo(WrapNo(m.replyNo), p.nextSend)))])
    else p
  }

  /** Only the reply number of the next stored packet is read anew: it keeps its 32 bits, and lies
      within 2^31 of the send counter. */
  lemma RereadFacts<S, R>(p: P.Peer<S, R>)
    ensures var q, n := Reread(p), p.nextRecv;
      && q == p.(recv := q.recv) && q.recv.Keys == p.recv.Keys
      && (forall k :: k in p.recv && (k != n || p.recv[k].Unlocked?) ==> q.recv[k] == p.recv[k])
      && (n in p.recv && p.recv[n].Occupied? ==>
           && q.recv[n].Occupied? && q.recv[n].msg == p.recv[n].msg.(replyNo := q.recv[n].msg.replyNo)
           && WrapNo(q.recv[n].msg.replyNo) == WrapNo(p.recv[n].msg.replyNo))
    ensures NextInReach(Reread(p))
  {
    var n := p.nextRecv;
    if n in p.recv && p.recv[n].Occupied? && p.recv[n].msg.replyNo.Some? {
      WrapOfLift(Wrap(p.recv[n].msg.replyNo.value), p.nextSend);
    }
  }

  /** The reply number of the next stored packet lies within 2^31 of the send counter. */
  ghost predicate NextInReach<S, R>(p: P.Peer<S, R>) {
    var n := p.nextRecv;
    n in p.recv && p.recv[n].Occupied? && p.recv[n].msg.replyNo.Some? ==>
      p.nextSend - HALF <= p.recv[n].msg.replyNo.value < p.nextSend + HALF
  }

  /** The number whose slot number k shares, among the last cap numbers. */
  ghost function SlotMate<S, R>(p: P.Peer<S, R>, k: int): int
    requires p.cap > 0
  {
    var base := p.nextSend - p.cap;
    base + (k - base) % p.cap
  }

  /** The window as a scan from number lo on sees it: under each number the entry of its slot.
      A scan that starts inside the window sees the window itself. */
  ghost function Seen<S, R>(p: P.Peer<S, R>, lo: int): map<int, P.SendEntry<S>>
    requires p.cap > 0
  {
    map k | lo <= k < p.nextSend && SlotMate(p, k) in p.send :: p.send[SlotMate(p, k)]
  }

  lemma SlotMateIs<S, R>(p: P.Peer<S, R>, k: int)
    requires p.cap > 0
    ensures var m := SlotMate(p, k);
      && p.nextSend - p.cap <= m < p.nextSend && m % p.cap == k % p.cap
      && (p.nextSend - p.cap <= k < p.nextSend ==> m == k)
  {
    var base := p.nextSend - p.cap;
    var q := (k - base) / p.cap;
    assert k == SlotMate(p, k) + q * p.cap;
    ModShift(SlotMate(p, k), q, p.cap);
  }

  lemma SeenInWindow<S, R>(p: P.Peer<S, R>, lo: int, k: int)
    requires WindowsOk(p) && p.nextSend - p.cap <= lo <= k
    ensures k in Seen(p, lo) <==> k in p.send
    ensures k in p.send ==> Seen(p, lo)[k] == p.send[k]
  {
    SlotMateIs(p, k);
  }

  datatype ServiceIter = ServiceIter(seqNo: SeqNo, nextTime: int)

  /** The outcome for a packet, as computed on 32-bit numbers: below the range an answer
      counts as pending when its 32-bit number matches. */
  ghost predicate AliasPending<S, R>(p: P.Peer<S, R>, n: int) {
    || (exists c :: c in p.replies && Wrap(c) == Wrap(n))
    || (exists k :: k in p.send && WrapNo(p.send[k].msg.replyNo) == P.Some(Wrap(n)))
  }

  ghost function ReceiveOutcome<S, R>(p: P.Peer<S, R>, frame: P.Frame<R>): P.Outcome<SeqNo, S, R>
    requires p.cap > 0
  {
    if frame.Data? && frame.seqNo < p.nextRecv then
      P.Refused(if AliasPending(p, frame.seqNo) then P.DroppedDuplicate
                else P.DroppedDuplicateResendAck(Wrap(frame.seqNo)))
    else WrapOutcome(P.Receive(p, frame).1)
  }

  class SeqEx<S, R> {
    const cap: int
    var resendInterval: int
    var nextServiceTimestamp: int
    var nextSendSeqNo: SeqNo
    var nextRecvSeqNo: SeqNo
    const sendWindow: array<Option<SendEntry<S>>>
    const recvWindow: array<RecvEntry<R>>
    const concurrentReplies: array<SeqNo>
    var concurrentRepliesTotal: int
    var isLocked: bool

    ghost var model: P.Peer<S, R>
    ghost var issued: seq<int>

    ghost predicate Coupled()
      reads this, sendWindow, recvWindow, concurrentReplies
    {
      && GoodCap(cap) && model.cap == cap
      && recvWindow as object != sendWindow && recvWindow as object != concurrentReplies
      && sendWindow as object != concurrentReplies
      && nextSendSeqNo == Wrap(model.nextSend)
      && nextRecvSeqNo == Wrap(model.nextRecv)
      && nextServiceTimestamp == model.nextService
      && isLocked == model.locked
      && SendRing(sendWindow[..], model)
      && RecvRing(recvWindow[..], model)
      && sendWindow.Length == cap && recvWindow.Length == cap && concurrentReplies.Length == cap
      && concurrentRepliesTotal == |issued| == |model.replies|
      && ReplyTable(concurrentReplies[..], issued, model.replies)
      && Bounded(model)
    }

    ghost predicate Valid()
      reads this, sendWindow, recvWindow, concurrentReplies
    {
      Coupled() && PeerOk(model)
    }

    /** Valid, except that the timer may be late: what holds while a resend scan is going on. */
    ghost predicate Steady()
      reads this, sendWindow, recvWindow, concurrentReplies
    {
      Coupled() && WindowsOk(model)
    }

    constructor (cap: int, retryInterval: int, initialSeqNo: SeqNo)
      requires GoodCap(cap)
      ensures Valid() && this.cap == cap && resendInterval == retryInterval
      ensures model == P.Initial(cap, initialSeqNo, I64_MAX)
      ensures fresh(sendWindow) && fresh(recvWindow) && fresh(concurrentReplies)
    {
      this.cap := cap;
      resendInterval := retryInterval;
      nextServiceTimestamp := I64_MAX;
      nextSendSeqNo, nextRecvSeqNo := initialSeqNo, initialSeqNo;
      recvWindow := new RecvEntry<R>[cap](_ => Empty);
      sendWindow := new Option<SendEntry<S>>[cap](_ => P.None);
      concurrentReplies := new SeqNo[cap](_ => 0);
      concurrentRepliesTotal := 0;
      isLocked := false;
      model := P.Initial(cap, initialSeqNo, I64_MAX);
      issued := [];
    }

    method IsFullInner(replyNo: Option<SeqNo>, ghost reply: Option<int>) returns (room: P.Room)
      requires Coupled() && WrapNo(reply) == replyNo
      ensures room == P.Fullness(model, reply)
    {
      if concurrentRepliesTotal >= concurrentReplies.Length - 2 {
        return P.NeedReply;
      }
      var replyIdx := if replyNo.Some? then replyNo.value % sendWindow.Length else sendWindow.Length;
      for i := 0 to 1 + concurrentRepliesTotal
        invariant forall j :: 0 <= j < i ==> !P.Blocked(model, j, reply)
      {
        var idx := WrappingAdd(nextSendSeqNo, i) % sendWindow.Length;
        ScanStep(sendWindow[..], model, i, reply);
        if sendWindow[idx].Some? && replyIdx != idx {
          return if i == 0 then P.NeedRecv else P.NeedReply;
        }
      }
      return P.HasRoom;
    }

    static lemma ScanStep(w: seq<Option<SendEntry<S>>>, m: P.Peer<S, R>, i: int, reply: Option<int>)
      requires SendRing(w, m) && GoodCap(m.cap) && 0 <= i < m.cap
      ensures var idx := WrappingAdd(Wrap(m.nextSend), i) % m.cap;
        P.Blocked(m, i, reply) <==>
        w[idx].Some? && idx != (if reply.Some? then Wrap(reply.value) % m.cap else m.cap)
    {
      var k := m.nextSend + i;
      WrapStep(m.nextSend, i);
      WrapKeepsSlot(k, m.cap);
      SlotPeriod(k, m.cap);
      if reply.Some? {
        WrapKeepsSlot(reply.value, m.cap);
        SameSlot(reply.value, k, m.cap);
      }
    }

    method TakeSend(replyNo: SeqNo, ghost r: int) returns (data: Option<S>)
      requires Coupled() && replyNo == Wrap(r) && model.nextSend - HALF <= r < model.nextSend + HALF
      modifies this`model, sendWindow
      ensures Coupled() && model == P.TakeSend(old(model), r)
      ensures data == if r in old(model.send) then P.Some(old(model.send)[r].msg.data) else P.None
    {
      var idx := replyNo % sendWindow.Length;
      SendSlotTest(sendWindow[..], model, r);
      WrapKeepsSlot(r, cap);
      var slot := sendWindow[idx];
      if slot.Some? && slot.value.seqNo == replyNo {
        SendRingSet(sendWindow[..], model, P.TakeSend(model, r), r);
        sendWindow[idx] := P.None;
        model := P.TakeSend(model, r);
        return P.Some(slot.value.data);
      } else {
        assert model.send - {r} == model.send;
        return P.None;
      }
    }

    static lemma Shrinks(p: P.Peer<S, R>, r: int, w: seq<Option<SendEntry<S>>>, v: seq<RecvEntry<R>>)
      returns (q: P.Peer<S, R>)
      requires Bounded(p) && r in p.replies && SendRing(w, p) && RecvRing(v, p)
      ensures q == p.(replies := p.replies - multiset{r})
      ensures Bounded(q) && |q.replies| == |p.replies| - 1 && SendRing(w, q) && RecvRing(v, q)
    {
      q := p.(replies := p.replies - multiset{r});
    }

    method SwapRemoveAt(i: int)
      requires Coupled() && 0 <= i < |issued|
      modifies this`concurrentRepliesTotal, this`model, this`issued, concurrentReplies
      ensures Coupled() && model == old(model).(replies := old(model.replies) - multiset{old(issued[i])})
    {
      hide SendRing, RecvRing, ReplyTable, Bounded, Wrap;
      ghost var r, table, last := issued[i], concurrentReplies[..], |issued| - 1;
      ghost var rest := SwapRemove(table, issued, model.replies, i);
      ghost var q := Shrinks(model, r, sendWindow[..], recvWindow[..]);
      concurrentRepliesTotal := concurrentRepliesTotal - 1;
      concurrentReplies[i] := concurrentReplies[concurrentRepliesTotal];
      model := q;
      issued := rest;
      assert concurrentReplies[..] == table[i := table[last]];
    }

    /** Takes an issued number with these 32 bits out of the table; `r` is that number. Issued
        numbers with the same 32 bits cannot be told apart, so any of them may be meant. */
    method RemoveReservation(replyNo: SeqNo, ghost want: int) returns (found: bool, ghost r: int)
      requires Coupled()
      modifies this`concurrentRepliesTotal, this`model, this`issued, concurrentReplies
      ensures Coupled()
      ensures found == exists c :: c in old(model.replies) && Wrap(c) == replyNo
      ensures found ==> r in old(model.replies) && Wrap(r) == replyNo
      ensures want in old(model.replies) && Wrap(want) == replyNo ==> found && r == want
      ensures found ==> model == old(model).(replies := old(model.replies) - multiset{r})
      ensures !found ==> model == old(model)
    {
      r := 0;
      for i := 0 to concurrentRepliesTotal
        invariant Coupled() && model == old(model) && issued == old(issued)
        invariant forall j :: 0 <= j < i ==> Wrap(issued[j]) != replyNo
      {
        assert issued[i] in multiset(issued);
        if concurrentReplies[i] == replyNo {
          if want in model.replies && Wrap(want) == replyNo {
            issued := Relabel(concurrentReplies[..], issued, model.replies, i, want);
          }
          r := issued[i];
          SwapRemoveAt(i);
          return true, r;
        }
      }
      NoneIssued(issued, model.replies, replyNo);
      return false, 0;
    }

    static lemma NoneIssued(issued: seq<int>, replies: multiset<int>, replyNo: SeqNo)
      requires multiset(issued) == replies && forall j :: 0 <= j < |issued| ==> Wrap(issued[j]) != replyNo
      ensures forall c :: c in replies ==> Wrap(c) != replyNo
    {
      forall c | c in replies
        ensures Wrap(c) != replyNo
      {
        assert c in multiset(issued);
        var j :| 0 <= j < |issued| && issued[j] == c;
      }
    }

    /** The number the next send will carry. */
    method SeqNoOfNext() returns (n: SeqNo)
      requires Coupled()
      ensures n == Wrap(model.nextSend)
    {
      return nextSendSeqNo;
    }

    static lemma Inserted(p: P.Peer<S, R>, at: int, msg: P.Message<S>,
                          w: seq<Option<SendEntry<S>>>, v: seq<RecvEntry<R>>)
      returns (q: P.Peer<S, R>)
      requires PeerOk(p) && SendRing(w, p) && RecvRing(v, p) && GoodCap(p.cap)
      ensures q == P.Insert(p, at, msg)
      ensures PeerOk(q) && RecvRing(v, q)
      ensures SendRing(w[Wrap(p.nextSend) % p.cap :=
        P.Some(SendEntry(Wrap(p.nextSend), WrapNo(msg.replyNo), msg.seqCst, at, msg.data))], q)
      ensures Wrap(q.nextSend) == WrappingAdd(Wrap(p.nextSend), 1)
    {
      q := P.Insert(p, at, msg);
      SendRingPut(w, p, at, msg);
      WrapKeepsSlot(p.nextSend, p.cap);
      WrapStep(p.nextSend, 1);
      InsertKeeps(p, at, msg);
    }

    /** Puts a packet under the next number, into its slot, whatever the slot holds. */
    method InsertEntry(currentTime: int, replyNo: Option<SeqNo>, seqCst: bool, data: S, ghost reply: Option<int>)
      returns (packet: Packet<S>)
      requires Valid() && replyNo == WrapNo(reply) && currentTime + resendInterval <= I64_MAX
      modifies this`nextSendSeqNo, this`nextServiceTimestamp, this`model, sendWindow
      ensures Valid()
      ensures model == P.Insert(old(model), currentTime + resendInterval, P.Message(reply, seqCst, data))
      ensures packet == WrapFrame(P.Data(old(model.nextSend), P.Message(reply, seqCst, data)))
    {
      hide Wrap, WrappingAdd;
      var seqNo := nextSendSeqNo;
      nextSendSeqNo := WrappingAdd(nextSendSeqNo, 1);
      var nextResendTime := currentTime + resendInterval;
      if nextServiceTimestamp > nextResendTime {
        nextServiceTimestamp := nextResendTime;
      }
      var entry := SendEntry(seqNo, replyNo, seqCst, nextResendTime, data);
      ghost var q := Inserted(model, nextResendTime, P.Message(reply, seqCst, data), sendWindow[..], recvWindow[..]);
      sendWindow[seqNo % sendWindow.Length] := P.Some(entry);
      model := q;
      return entry.ToPacket();
    }

    method TrySendDirectWith(currentTime: int, seqCst: bool, f: SeqNo -> S) returns (r: SendResult<S, SeqNo -> S>)
      requires Valid() && currentTime + resendInterval <= I64_MAX
      modifies this`nextSendSeqNo, this`nextServiceTimestamp, this`model, sendWindow
      ensures Valid()
      ensures var at, data := currentTime + resendInterval, f(Wrap(old(model.nextSend)));
        var (q, room) := P.TrySend(old(model), at, seqCst, data);
        && model == q
        && r == if room == P.HasRoom
                then Sent(WrapFrame(P.Data(old(model.nextSend), P.Message(P.None, seqCst, data))))
                else Refused(room, f)
    {
      var room := IsFullInner(P.None, P.None);
      if room != P.HasRoom {
        return Refused(room, f);
      }
      var packet := InsertEntry(currentTime, P.None, seqCst, f(nextSendSeqNo), P.None);
      return Sent(packet);
    }

    method TrySendDirect(currentTime: int, seqCst: bool, data: S) returns (r: SendResult<S, S>)
      requires Valid() && currentTime + resendInterval <= I64_MAX
      modifies this`nextSendSeqNo, this`nextServiceTimestamp, this`model, sendWindow
      ensures Valid()
      ensures var (q, room) := P.TrySend(old(model), currentTime + resendInterval, seqCst, data);
        && model == q
        && r == if room == P.HasRoom
                then Sent(WrapFrame(P.Data(old(model.nextSend), P.Message(P.None, seqCst, data))))
                else Refused(room, data)
    {
      var r' := TrySendDirectWith(currentTime, seqCst, _ => data);
      match r'
      case Sent(packet) => return Sent(packet);
      case Refused(e, _) => return Refused(e, data);
    }

    static lemma MovedOn(p: P.Peer<S, R>, w: seq<Option<SendEntry<S>>>, v: seq<RecvEntry<R>>)
      returns (q: P.Peer<S, R>)
      requires Bounded(p) && SendRing(w, p) && RecvRing(v, p) && GoodCap(p.cap)
      ensures q == p.(recv := p.recv - {p.nextRecv}, nextRecv := p.nextRecv + 1)
      ensures Bounded(q) && SendRing(w, q) && RecvRing(v[Wrap(p.nextRecv) % p.cap := Empty], q)
      ensures Wrap(q.nextRecv) == WrappingAdd(Wrap(p.nextRecv), 1)
    {
      q := p.(recv := p.recv - {p.nextRecv}, nextRecv := p.nextRecv + 1);
      WrapKeepsSlot(p.nextRecv, p.cap);
      WrapStep(p.nextRecv, 1);
      RecvRingNext(v, p);
    }

    /** Empties the slot of the next number and moves on by one. */
    method MoveOn()
      requires Coupled()
      modifies this`nextRecvSeqNo, this`model, recvWindow
      ensures Coupled()
      ensures model ==
        old(model).(recv := old(model.recv) - {old(model.nextRecv)}, nextRecv := old(model.nextRecv) + 1)
    {
      hide Wrap, WrappingAdd, ReplyTable;
      ghost var q := MovedOn(model, sendWindow[..], recvWindow[..]);
      recvWindow[nextRecvSeqNo % recvWindow.Length] := Empty;
      nextRecvSeqNo := WrappingAdd(nextRecvSeqNo, 1);
      model := q;
    }

    static lemma NextSlot(p: P.Peer<S, R>, v: seq<RecvEntry<R>>)
      requires RecvRing(v, p) && GoodCap(p.cap)
      ensures v[Wrap(p.nextRecv) % p.cap] == RecvSlot(p.recv, p.nextRecv)
    {
      WrapKeepsSlot(p.nextRecv, p.cap);
    }

    /** Skips the numbers already delivered; says whether a stored packet comes next. */
    method FastForward() returns (doPump: bool)
      requires Coupled() && TimerOk(model)
      modifies this`nextRecvSeqNo, this`model, recvWindow
      ensures Valid() && model == P.FastForward(old(model))
      ensures doPump == P.DoPump(model)
    {
      hide Wrap, SendRing, RecvRing, ReplyTable;
      while true
        invariant Coupled() && P.FastForward(model) == P.FastForward(old(model))
        invariant model == old(model).(recv := model.recv, nextRecv := model.nextRecv)
        decreases |model.recv|
      {
        var i := nextRecvSeqNo % recvWindow.Length;
        NextSlot(model, recvWindow[..]);
        match recvWindow[i] {
          case Unlocked(seqNo) =>
            assert seqNo == nextRecvSeqNo;
            MoveOn();
          case Occupied(_, _, _, _) => return true;
          case Empty => return false;
        }
      }
    }

    static lemma Grows(p: P.Peer<S, R>, n: int, seqCst: bool, w: seq<Option<SendEntry<S>>>, v: seq<RecvEntry<R>>)
      returns (q: P.Peer<S, R>)
      requires PeerOk(p) && |p.replies| < p.cap - 2 && n < p.nextRecv + p.cap && SendRing(w, p) && RecvRing(v, p)
      ensures q == p.(replies := p.replies + multiset{n}, locked := p.locked || seqCst)
      ensures PeerOk(q) && |q.replies| == |p.replies| + 1 && SendRing(w, q) && RecvRing(v, q)
    {
      q := p.(replies := p.replies + multiset{n}, locked := p.locked || seqCst);
    }

    /** Issues the reply number and takes the lock for a SeqCst packet. */
    method Issue(seqNo: SeqNo, seqCst: bool, ghost n: int)
      requires Valid() && |model.replies| < cap - 2 && n < model.nextRecv + cap && seqNo == Wrap(n)
      modifies this`concurrentRepliesTotal, this`isLocked, this`model, this`issued, concurrentReplies
      ensures Valid()
      ensures model == old(model).(replies := old(model.replies) + multiset{n}, locked := old(model.locked) || seqCst)
    {
      ghost var table := concurrentReplies[..];
      ghost var q := Grows(model, n, seqCst, sendWindow[..], recvWindow[..]);
      TableAdd(table, issued, model.replies, n);
      concurrentReplies[concurrentRepliesTotal] := seqNo;
      concurrentRepliesTotal := concurrentRepliesTotal + 1;
      if seqCst {
        isLocked := true;
      }
      issued := issued + [n];
      model := q;
      assert concurrentReplies[..] == table[|issued| - 1 := seqNo];
    }

    /** Hands a packet to the application, with the packet it answers if that still waits. */
    method Admit(seqNo: SeqNo, replyNo: Option<SeqNo>, seqCst: bool, data: R, doPump: bool,
                 ghost n: int, ghost reply: Option<int>)
      returns (out: P.Outcome<SeqNo, S, R>)
      requires Valid() && |model.replies| < cap - 2 && n < model.nextRecv + cap
      requires seqNo == Wrap(n) && replyNo == WrapNo(reply)
      requires reply.Some? ==> model.nextSend - HALF <= reply.value < model.nextSend + HALF
      modifies this`concurrentRepliesTotal, this`isLocked, this`model, this`issued, concurrentReplies, sendWindow
      ensures Valid()
      ensures var (q, o) := P.Accept(old(model), n, P.Message(reply, seqCst, data), doPump);
        model == q && out == WrapOutcome(o)
    {
      Issue(seqNo, seqCst, n);
      if replyNo.Some? {
        var sendData := TakeSend(replyNo.value, reply.value);
        if sendData.Some? {
          return P.Delivered(P.Reply(seqNo, seqCst, data, sendData.value), doPump);
        }
        assert model.send == old(model.send);
      }
      return P.Delivered(P.Payload(seqNo, seqCst, data), doPump);
    }

    static lemma AnswerInSlot(w: seq<Option<SendEntry<S>>>, p: P.Peer<S, R>, j: int, seqNo: SeqNo)
      requires SendRing(w, p) && 0 <= j < p.cap && w[j].Some? && w[j].value.replyNo == P.Some(seqNo)
      ensures exists k :: k in p.send && WrapNo(p.send[k].msg.replyNo) == P.Some(seqNo)
    {
      var k := Occupant(j, p.nextSend - p.cap, p.cap);
      assert w[j] == SendSlot(p.send, k);
    }

    static lemma NoAnswerInSlots(w: seq<Option<SendEntry<S>>>, p: P.Peer<S, R>, k: int, seqNo: SeqNo)
      requires SendRing(w, p) && Bounded(p) && k in p.send
      requires forall i :: 0 <= i < |w| ==> !(w[i].Some? && w[i].value.replyNo == P.Some(seqNo))
      ensures WrapNo(p.send[k].msg.replyNo) != P.Some(seqNo)
    {
      assert w[k % p.cap] == SendSlot(p.send, k);
    }

    method SendWindowAnswers(seqNo: SeqNo) returns (found: bool)
      requires Coupled()
      ensures found == exists k :: k in model.send && WrapNo(model.send[k].msg.replyNo) == P.Some(seqNo)
    {
      ghost var w := sendWindow[..];
      for j := 0 to sendWindow.Length
        invariant forall i :: 0 <= i < j ==> !(w[i].Some? && w[i].value.replyNo == P.Some(seqNo))
      {
        var entry := sendWindow[j];
        assert entry == w[j];
        if entry.Some? && entry.value.replyNo == P.Some(seqNo) {
          AnswerInSlot(w, model, j, seqNo);
          return true;
        }
      }
      forall k | k in model.send
        ensures WrapNo(model.send[k].msg.replyNo) != P.Some(seqNo)
      {
        NoAnswerInSlots(w, model, k, seqNo);
      }
      return false;
    }

    method RepliesHold(seqNo: SeqNo) returns (found: bool)
      requires Coupled()
      ensures found == exists c :: c in model.replies && Wrap(c) == seqNo
    {
      for i := 0 to concurrentRepliesTotal
        invariant forall j :: 0 <= j < i ==> concurrentReplies[j] != seqNo
      {
        if concurrentReplies[i] == seqNo {
          assert issued[i] in multiset(issued);
          return true;
        }
      }
      forall c | c in model.replies
        ensures Wrap(c) != seqNo
      {
        assert c in multiset(issued);
        var i :| 0 <= i < |issued| && issued[i] == c;
        assert concurrentReplies[i] == Wrap(c);
      }
      return false;
    }

    /** Whether some answer to this number is still on its way, judged by 32-bit numbers. */
    method AnswerIsPending(seqNo: SeqNo, ghost n: int) returns (pending: bool)
      requires Coupled() && seqNo == Wrap(n)
      ensures pending == AliasPending(model, n)
    {
      pending := SendWindowAnswers(seqNo);
      if !pending {
        pending := RepliesHold(seqNo);
      }
    }

    /** Keeps a packet that cannot be processed yet, unless its slot is taken already. */
    method Keep(seqNo: SeqNo, replyNo: Option<SeqNo>, seqCst: bool, data: R, ghost n: int, ghost reply: Option<int>)
      requires Valid() && model.nextRecv <= n < model.nextRecv + cap
      requires seqNo == Wrap(n) && replyNo == WrapNo(reply)
      modifies this`model, recvWindow
      ensures Valid()
      ensures model == if n in old(model.recv) then old(model)
        else old(model).(recv := old(model.recv)[n := P.Occupied(P.Message(reply, seqCst, data))])
    {
      var i := seqNo % recvWindow.Length;
      WrapKeepsSlot(n, cap);
      assert recvWindow[i] == RecvSlot(model.recv, n);
      var isDuplicate := recvWindow[i].Occupied? || recvWindow[i].Unlocked?;
      if !isDuplicate {
        ghost var q := model.(recv := model.recv[n := P.Occupied(P.Message(reply, seqCst, data))]);
        RecvRingSet(recvWindow[..], model, q, n);
        recvWindow[i] := Occupied(seqNo, replyNo, seqCst, data);
        model := q;
      }
    }

    /** Empties the slot of the next number, moves on, and skips what was delivered. */
    method AdvanceNext() returns (doPump: bool)
      requires Valid()
      modifies this`nextRecvSeqNo, this`model, recvWindow
      ensures Valid() && model == P.Advance(old(model)) && doPump == P.DoPump(model)
    {
      hide SendRing, RecvRing, ReplyTable, Wrap;
      MoveOn();
      doPump := FastForward();
    }

    method MarkDelivered(seqNo: SeqNo, ghost n: int)
      requires Valid() && model.nextRecv < n < model.nextRecv + cap && seqNo == Wrap(n)
      modifies this`model, recvWindow
      ensures Valid() && model == old(model).(recv := old(model.recv)[n := P.Unlocked])
    {
      ghost var q := model.(recv := model.recv[n := P.Unlocked]);
      WrapKeepsSlot(n, cap);
      RecvRingSet(recvWindow[..], model, q, n);
      recvWindow[seqNo % recvWindow.Length] := Unlocked(seqNo);
      model := q;
    }

    method MustWait(seqNo: SeqNo, replyNo: Option<SeqNo>, seqCst: bool, ghost n: int, ghost msg: P.Message<R>)
      returns (waitRecv: bool, waitReply: bool)
      requires Valid() && model.nextRecv <= n < model.nextRecv + cap
      requires seqNo == Wrap(n) && replyNo == WrapNo(msg.replyNo) && seqCst == msg.seqCst
      ensures waitRecv <==> P.Gate(model, n, msg) == P.NeedRecv
      ensures !waitRecv && waitReply <==> P.Gate(model, n, msg) == P.NeedReply
    {
      hide SendRing, RecvRing, ReplyTable, Bounded, Wrap, WrapNo;
      var isNext := WrappingSub(seqNo, nextRecvSeqNo) == 0;
      WrapDistance(n, model.nextRecv);
      var room := IsFullInner(replyNo, msg.replyNo);
      match room
      case HasRoom => return seqCst && !isNext, seqCst && isLocked;
      case NeedRecv => return true, false;
      case NeedReply => return false, true;
    }

    /** Marks the number delivered, moving the window on when it is the next one. */
    method Consume(seqNo: SeqNo, ghost n: int) returns (doPump: bool)
      requires Valid() && model.nextRecv <= n < model.nextRecv + cap && seqNo == Wrap(n)
      modifies this`nextRecvSeqNo, this`model, recvWindow
      ensures Valid()
      ensures n == old(model.nextRecv) ==> model == P.Advance(old(model)) && doPump == P.DoPump(model)
      ensures n != old(model.nextRecv) ==> model == old(model).(recv := old(model.recv)[n := P.Unlocked]) && !doPump
    {
      var isNext := WrappingSub(seqNo, nextRecvSeqNo) == 0;
      WrapDistance(n, model.nextRecv);
      if isNext {
        doPump := AdvanceNext();
      } else {
        MarkDelivered(seqNo, n);
        doPump := false;
      }
    }

    /** What letting an in-range packet through comes down to. */
    static lemma AdmissionUnfolds(p: P.Peer<S, R>, n: int, msg: P.Message<R>)
      requires PeerOk(p) && p.nextRecv <= n < p.nextRecv + p.cap && P.Gate(p, n, msg) == P.HasRoom
      ensures |p.replies| < p.cap - 2
      ensures var q := P.Advance(p);
        && q.nextRecv > p.nextRecv && q.replies == p.replies && q.nextSend == p.nextSend && q.cap == p.cap
      ensures P.Receive(p, P.Data(n, msg)) ==
        if n == p.nextRecv then P.Accept(P.Advance(p), n, msg, P.DoPump(P.Advance(p)))
        else P.Accept(p.(recv := p.recv[n := P.Unlocked]), n, msg, false)
    {
      AdvanceKeeps(p, p.nextRecv);
    }

    method ReceiveInRange(seqNo: SeqNo, replyNo: Option<SeqNo>, seqCst: bool, data: R,
                          ghost n: int, ghost msg: P.Message<R>)
      returns (out: P.Outcome<SeqNo, S, R>)
      requires Valid() && model.nextRecv <= n < model.nextRecv + cap
      requires seqNo == Wrap(n) && replyNo == WrapNo(msg.replyNo) && seqCst == msg.seqCst && data == msg.data
      requires msg.replyNo.Some? ==> model.nextSend - HALF <= msg.replyNo.value < model.nextSend + HALF
      modifies this`nextRecvSeqNo, this`concurrentRepliesTotal, this`isLocked, this`model, this`issued,
        concurrentReplies, sendWindow, recvWindow
      ensures Valid()
      ensures var (q, o) := P.Receive(old(model), P.Data(n, msg)); model == q && out == WrapOutcome(o)
    {
      hide SendRing, RecvRing, ReplyTable, Bounded, Wrap, WrapNo;
      var waitRecv, waitReply := MustWait(seqNo, replyNo, seqCst, n, msg);
      if waitRecv || waitReply {
        Keep(seqNo, replyNo, seqCst, data, n, msg.replyNo);
        return P.Refused(if waitRecv then P.WaitingForRecv else P.WaitingForReply);
      }
      AdmissionUnfolds(model, n, msg);
      var doPump := Consume(seqNo, n);
      out := Admit(seqNo, replyNo, seqCst, data, doPump, n, msg.replyNo);
    }

    /** Processes a packet from the network, any packet. */
    method TryReceiveRawAndDirect(packet: Packet<R>) returns (out: P.Outcome<SeqNo, S, R>)
      requires Valid()
      modifies this`nextRecvSeqNo, this`concurrentRepliesTotal, this`isLocked, this`model, this`issued,
        concurrentReplies, sendWindow, recvWindow
      ensures Valid()
      ensures var frame := LiftPacket(packet, old(model.nextSend), old(model.nextRecv));
        model == P.Receive(old(model), frame).0 && out == ReceiveOutcome(old(model), frame)
    {
      ghost var frame := LiftPacket(packet, model.nextSend, model.nextRecv);
      if packet.Ack? {
        WrapOfLift(packet.replyNo, model.nextSend);
        var sendData := TakeSend(packet.replyNo, frame.replyNo);
        if sendData.Some? {
          return P.Delivered(P.Acked(sendData.value), false);
        }
        assert old(model.send) - {frame.replyNo} == old(model.send);
        return P.Refused(P.DroppedDuplicate);
      }
      var seqCst, seqNo, data := packet.IsSeqCst(), packet.seqNo, packet.data;
      var replyNo: Option<SeqNo> := if packet.Reply? || packet.SeqCstReply? then P.Some(packet.replyNo) else P.None;
      ghost var n, reply := frame.seqNo, frame.msg.replyNo;
      WrapOfLift(seqNo, model.nextRecv);
      if replyNo.Some? { WrapOfLift(replyNo.value, model.nextSend); }

      var normalizedSeqNo := WrappingSub(seqNo, nextRecvSeqNo);
      var isBelowRange := normalizedSeqNo > (TWO32 - 1) / 2;
      var isAboveRange := !isBelowRange && normalizedSeqNo >= recvWindow.Length;
      if isBelowRange {
        var pending := AnswerIsPending(seqNo, n);
        return P.Refused(if pending then P.DroppedDuplicate else P.DroppedDuplicateResendAck(seqNo));
      } else if isAboveRange {
        return P.Refused(P.DroppedTooEarly);
      }
      out := ReceiveInRange(seqNo, replyNo, seqCst, data, n, frame.msg);
    }

    /** A stored reply number can be told apart from every number in the send window. */
    ghost predicate StoredInReach()
      reads this
    {
      forall n :: n in model.recv && model.recv[n].Occupied? && model.recv[n].msg.replyNo.Some? ==>
        model.nextSend - HALF <= model.recv[n].msg.replyNo.value < model.nextSend + HALF
    }

    static lemma RereadCouples(p: P.Peer<S, R>, w: seq<Option<SendEntry<S>>>, v: seq<RecvEntry<R>>)
      returns (q: P.Peer<S, R>)
      requires PeerOk(p) && SendRing(w, p) && RecvRing(v, p)
      ensures q == Reread(p) && q == p.(recv := q.recv)
      ensures PeerOk(q) && SendRing(w, q) && RecvRing(v, q) && NextInReach(q)
    {
      q := Reread(p);
      var n := p.nextRecv;
      if n in p.recv && p.recv[n].Occupied? && p.recv[n].msg.replyNo.Some? {
        WrapOfLift(Wrap(p.recv[n].msg.replyNo.value), p.nextSend);
      }
      forall k ensures RecvSlot(q.recv, k) == RecvSlot(p.recv, k) {
      }
    }

    static lemma RereadInReach(p: P.Peer<S, R>)
      requires NextInReach(p)
      ensures Reread(p) == p
    {
      var n := p.nextRecv;
      if n in p.recv && p.recv[n].Occupied? && p.recv[n].msg.replyNo.Some? {
        LiftOfWrap(p.recv[n].msg.replyNo.value, p.nextSend);
      }
    }

    /** Processes the stored packet that comes next. Its reply number is read near the present
        send counter, which changes nothing while it is in reach. */
    method TryPumpRaw() returns (out: P.Outcome<SeqNo, S, R>)
      requires Valid()
      modifies this`nextRecvSeqNo, this`concurrentRepliesTotal, this`isLocked, this`model, this`issued,
        concurrentReplies, sendWindow, recvWindow
      ensures Valid()
      ensures var (q, o) := P.Pump(Reread(old(model))); model == q && out == WrapOutcome(o)
      ensures old(StoredInReach()) ==> Reread(old(model)) == old(model)
    {
      hide SendRing, ReplyTable, Wrap, Lift;
      if StoredInReach() { RereadInReach(model); }
      ghost var q := RereadCouples(model, sendWindow[..], recvWindow[..]);
      model := q;
      out := PumpReread();
    }

    method PumpReread() returns (out: P.Outcome<SeqNo, S, R>)
      requires Valid() && NextInReach(model)
      modifies this`nextRecvSeqNo, this`concurrentRepliesTotal, this`isLocked, this`model, this`issued,
        concurrentReplies, sendWindow, recvWindow
      ensures Valid()
      ensures var (q, o) := P.Pump(old(model)); model == q && out == WrapOutcome(o)
    {
      hide SendRing, RecvRing, ReplyTable, Wrap;
      ghost var n := model.nextRecv;
      var i := nextRecvSeqNo % recvWindow.Length;
      NextSlot(model, recvWindow[..]);
      match recvWindow[i] {
        case Occupied(seqNo, replyNo, seqCst, data) =>
          ghost var reply := model.recv[n].msg.replyNo;
          var room := IsFullInner(replyNo, reply);
          if room != P.HasRoom {
            return P.Refused(if room == P.NeedRecv then P.WaitingForRecv else P.WaitingForReply);
          }
          if !seqCst || !isLocked {
            AdvanceKeeps(model, n);
            var doPump := AdvanceNext();
            out := Admit(seqNo, replyNo, seqCst, data, doPump, n, reply);
            return;
          }
          return P.Refused(P.WaitingForReply);
        case _ => return P.Refused(P.WaitingForRecv);
      }
    }

    /** An issued reply number can be told apart from every other by its 32 bits. */
    ghost predicate RepliesInReach()
      reads this
    {
      forall c :: c in model.replies ==> model.nextRecv - HALF <= c < model.nextRecv + HALF
    }

    /** Answers with a reply if a number with these 32 bits is issued. `r` is that number: the one
        the caller means, if it was issued; and while the issued numbers are in reach, the one
        read near the receive counter. */
    method ReplyRawAndDirect(currentTime: int, replyNo: SeqNo, unlock: bool, seqCst: bool, data: S, ghost want: int)
      returns (packet: Option<Packet<S>>, ghost r: int)
      requires Valid() && currentTime + resendInterval <= I64_MAX
      modifies this`nextSendSeqNo, this`nextServiceTimestamp, this`concurrentRepliesTotal, this`isLocked, this`model,
        this`issued, concurrentReplies, sendWindow
      ensures Valid() && Wrap(r) == replyNo
      ensures r in old(model.replies) <==> exists c :: c in old(model.replies) && Wrap(c) == replyNo
      ensures want in old(model.replies) && Wrap(want) == replyNo ==> r == want
      ensures old(RepliesInReach()) ==> r == Lift(replyNo, old(model.nextRecv))
      ensures model == P.ReplyTo(old(model), currentTime + resendInterval, r, unlock, seqCst, data)
      ensures packet == if r in old(model.replies)
        then P.Some(WrapFrame(P.Data(old(model.nextSend), P.Message(P.Some(r), seqCst, data))))
        else P.None
    {
      hide SendRing, RecvRing, ReplyTable, Bounded, Wrap, Lift;
      OnlyOneMatches(replyNo);
      var found;
      found, r := RemoveReservation(replyNo, want);
      if !found {
        r := Lift(replyNo, model.nextRecv);
        return P.None, r;
      }
      if unlock {
        Unlock();
      }
      assert model == P.Unreserve(old(model), r, unlock);
      var p := InsertEntry(currentTime, P.Some(replyNo), seqCst, data, P.Some(r));
      return P.Some(p), r;
    }

    lemma OnlyOneMatches(replyNo: SeqNo)
      ensures Wrap(Lift(replyNo, model.nextRecv)) == replyNo
      ensures RepliesInReach() ==>
                forall c :: c in model.replies && Wrap(c) == replyNo ==> c == Lift(replyNo, model.nextRecv)
    {
      WrapOfLift(replyNo, model.nextRecv);
      if RepliesInReach() {
        forall c | c in model.replies && Wrap(c) == replyNo
          ensures c == Lift(replyNo, model.nextRecv)
        {
          LiftOfWrap(c, model.nextRecv);
        }
      }
    }

    /** Answers with an ack if a number with these 32 bits is issued; `r` as above. */
    method AckRawAndDirect(replyNo: SeqNo, unlock: bool, ghost want: int)
      returns (packet: Option<Packet<S>>, ghost r: int)
      requires Valid()
      modifies this`concurrentRepliesTotal, this`isLocked, this`model, this`issued, concurrentReplies
      ensures Valid() && Wrap(r) == replyNo
      ensures r in old(model.replies) <==> exists c :: c in old(model.replies) && Wrap(c) == replyNo
      ensures want in old(model.replies) && Wrap(want) == replyNo ==> r == want
      ensures old(RepliesInReach()) ==> r == Lift(replyNo, old(model.nextRecv))
      ensures model == P.AckTo(old(model), r, unlock)
      ensures packet == if r in old(model.replies) then P.Some(Ack(replyNo)) else P.None
    {
      hide SendRing, RecvRing, ReplyTable, Bounded, Wrap, Lift;
      OnlyOneMatches(replyNo);
      var found;
      found, r := RemoveReservation(replyNo, want);
      if !found {
        r := Lift(replyNo, model.nextRecv);
        return P.None, r;
      }
      if unlock {
        Unlock();
      }
      return P.Some(Ack(replyNo)), r;
    }

    method Unlock()
      requires Valid()
      modifies this`isLocked, this`model
      ensures Valid() && model == old(model).(locked := false)
    {
      isLocked := false;
      model := model.(locked := false);
    }

    // ---- Resending ----

    /** Where a scan stands, as an unbounded number. */
    ghost function CursorOf(iter: Option<ServiceIter>): int
      reads this
    {
      if iter.None? then model.nextSend - cap
      else model.nextSend - WrappingSub(nextSendSeqNo, iter.value.seqNo)
    }

    static ghost function BestOf(iter: Option<ServiceIter>): int {
      if iter.None? then I64_MAX else iter.value.nextTime
    }

    static lemma Retimed(p: P.Peer<S, R>, k: int, at: int, w: seq<Option<SendEntry<S>>>, v: seq<RecvEntry<R>>)
      returns (q: P.Peer<S, R>)
      requires WindowsOk(p) && SendRing(w, p) && RecvRing(v, p) && GoodCap(p.cap) && k in p.send
      ensures q == p.(send := p.send[k := p.send[k].(resendTime := at)])
      ensures WindowsOk(q) && RecvRing(v, q)
      ensures var i := Wrap(k) % p.cap;
        && w[i].Some? && w[i].value.ToPacket() == WrapFrame(P.Data(k, p.send[k].msg))
        && SendRing(w[i := P.Some(w[i].value.(nextResendTime := at))], q)
    {
      q := p.(send := p.send[k := p.send[k].(resendTime := at)]);
      SendRingSet(w, p, q, k);
      WrapKeepsSlot(k, p.cap);
      assert w[k % p.cap] == SendSlot(p.send, k);
    }

    static lemma TimerSet(p: P.Peer<S, R>, lo: int, best: int, w: seq<Option<SendEntry<S>>>, v: seq<RecvEntry<R>>)
      returns (q: P.Peer<S, R>)
      requires WindowsOk(p) && SendRing(w, p) && RecvRing(v, p)
      requires forall k :: k in p.send && k < lo ==> best <= p.send[k].resendTime
      ensures q == p.(nextService := P.Earliest(Seen(p, lo), lo, p.nextSend, best))
      ensures PeerOk(q) && SendRing(w, q) && RecvRing(v, q)
    {
      q := p.(nextService := P.Earliest(Seen(p, lo), lo, p.nextSend, best));
      EarliestIsLeast(Seen(p, lo), lo, p.nextSend, best);
      forall k | k in p.send && lo <= k
        ensures q.nextService <= p.send[k].resendTime
      {
        SlotMateIs(p, k);
        assert k in Seen(p, lo);
      }
    }

    static lemma CursorFacts(next: SeqNo, nextSend: int, seqNo: SeqNo)
      requires next == Wrap(nextSend)
      ensures seqNo == Wrap(nextSend - WrappingSub(next, seqNo))
    {
    }

    /** What the scan finds in the slot of number k. */
    static lemma SlotSeen(p: P.Peer<S, R>, w: seq<Option<SendEntry<S>>>, lo: int, k: int)
      requires SendRing(w, p) && GoodCap(p.cap) && lo <= k < p.nextSend
      ensures var slot := w[Wrap(k) % p.cap];
        && (slot.Some? <==> k in Seen(p, lo))
        && (slot.Some? ==> slot.value.nextResendTime == Seen(p, lo)[k].resendTime)
    {
      WrapKeepsSlot(k, p.cap);
      SlotMateIs(p, k);
      assert w[SlotMate(p, k) % p.cap] == SendSlot(p.send, SlotMate(p, k));
    }

    /** Scans for the next entry that is due, collecting the earliest time of the others. */
    method FindDue(currentTime: int, from: ServiceIter, ghost lo: int)
      returns (found: bool, it: ServiceIter, ghost k: int)
      requires Steady() && from.seqNo == Wrap(lo) && model.nextSend - TWO32 < lo <= model.nextSend
      ensures lo <= k <= model.nextSend && it.seqNo == Wrap(k)
      ensures found == (k < model.nextSend) && (found ==> P.Due(Seen(model, lo), k, currentTime))
      ensures forall j :: lo <= j < k ==> !P.Due(Seen(model, lo), j, currentTime)
      ensures it.nextTime == P.Earliest(Seen(model, lo), lo, k, from.nextTime)
    {
      hide SendRing, RecvRing, ReplyTable, Wrap, Seen;
      it, k := from, lo;
      ghost var seen := Seen(model, lo);
      while it.seqNo != nextSendSeqNo
        invariant lo <= k <= model.nextSend && it.seqNo == Wrap(k)
        invariant it.nextTime == P.Earliest(seen, lo, k, from.nextTime)
        invariant forall j :: lo <= j < k ==> !P.Due(seen, j, currentTime)
        decreases model.nextSend - k
      {
        var idx := it.seqNo % sendWindow.Length;
        SlotSeen(model, sendWindow[..], lo, k);
        WrapStep(k, 1);
        var entry := sendWindow[idx];
        if entry.Some? && entry.value.nextResendTime <= currentTime {
          return true, it, k;
        }
        it := ServiceIter(WrappingAdd(it.seqNo, 1),
                          if entry.Some? then P.Min(it.nextTime, entry.value.nextResendTime) else it.nextTime);
        k := k + 1;
      }
      WrapInjectiveAt(k);
      return false, it, k;
    }

    lemma WrapInjectiveAt(k: int)
      requires Coupled() && model.nextSend - TWO32 < k <= model.nextSend && Wrap(k) == nextSendSeqNo
      ensures k == model.nextSend
    {
      WrapInjective(k, model.nextSend);
    }

    /** Restarts the timer of entry k and gives its packet. */
    method SendAgain(seqNo: SeqNo, nextResendTime: int, ghost k: int) returns (packet: Packet<S>)
      requires Steady() && k in model.send && seqNo % cap == Wrap(k) % cap
      modifies this`model, sendWindow
      ensures Steady()
      ensures model == old(model).(send := old(model.send)[k := old(model.send)[k].(resendTime := nextResendTime)])
      ensures packet == WrapFrame(P.Data(k, old(model.send)[k].msg))
    {
      hide RecvRing, ReplyTable, Wrap;
      var idx := seqNo % sendWindow.Length;
      ghost var q := Retimed(model, k, nextResendTime, sendWindow[..], recvWindow[..]);
      var again := sendWindow[idx].value.(nextResendTime := nextResendTime);
      sendWindow[idx] := P.Some(again);
      model := q;
      return again.ToPacket();
    }

    static lemma SlotMateSlot(p: P.Peer<S, R>, lo: int, k: int)
      requires GoodCap(p.cap) && k in Seen(p, lo)
      ensures SlotMate(p, k) in p.send && Wrap(SlotMate(p, k)) % p.cap == Wrap(k) % p.cap
    {
      SlotMateIs(p, k);
      WrapKeepsSlot(k, p.cap);
      WrapKeepsSlot(SlotMate(p, k), p.cap);
    }

    /** Finds the next entry that is due, marks it sent again, and returns its packet; at the
        end of the window sets the timer. The scan stood at number `k`, and the packet is that
        of the entry in its slot: entry k itself, unless the window has moved past the cursor
        since the scan began. */
    method ServiceDirect(currentTime: int, iter: Option<ServiceIter>)
      returns (packet: Option<Packet<S>>, next: Option<ServiceIter>, ghost k: int)
      requires Steady() && currentTime + resendInterval <= I64_MAX
      requires forall j :: j in model.send && j < CursorOf(iter) ==> BestOf(iter) <= model.send[j].resendTime
      modifies this`nextServiceTimestamp, this`model, sendWindow
      ensures Steady() && (packet.None? && (old(Valid()) || old(model.nextService) <= currentTime) ==> Valid())
      ensures old(model.nextService) > currentTime ==> packet.None? && next == iter && model == old(model)
      ensures old(model.nextService) <= currentTime ==>
        var lo, p, at := old(CursorOf(iter)), old(model), currentTime + resendInterval;
        && next.Some?
        && match packet
           case Some(sent) =>
             var m := SlotMate(p, k);
             && lo <= k < p.nextSend && P.Due(Seen(p, lo), k, currentTime) && m in p.send
             && (forall j :: lo <= j < k ==> !P.Due(Seen(p, lo), j, currentTime))
             && sent == WrapFrame(P.Data(m, p.send[m].msg))
             && model == p.(send := p.send[m := p.send[m].(resendTime := at)])
             && CursorOf(next) == k + 1
             && next.value.nextTime == P.Min(P.Earliest(Seen(p, lo), lo, k, BestOf(iter)), at)
           case None =>
             && (forall j :: lo <= j < p.nextSend ==> !P.Due(Seen(p, lo), j, currentTime))
             && model == p.(nextService := P.Earliest(Seen(p, lo), lo, p.nextSend, BestOf(iter)))
    {
      hide SendRing, RecvRing, ReplyTable, Wrap, Seen, SlotMate, Bounded, P.Earliest;
      if nextServiceTimestamp > currentTime {
        return P.None, iter, 0;
      }
      var from :=
        if iter.Some? then iter.value
        else ServiceIter(WrappingSub(nextSendSeqNo, sendWindow.Length), I64_MAX);
      ghost var lo := CursorOf(iter);
      CursorFacts(nextSendSeqNo, model.nextSend, from.seqNo);
      WrapStep(model.nextSend, cap);
      var found, it;
      found, it, k := FindDue(currentTime, from, lo);
      if found {
        var nextResendTime := currentTime + resendInterval;
        WrapStep(k, 1);
        WrapDistance(model.nextSend, k + 1);
        SlotMateSlot(model, lo, k);
        var p := SendAgain(it.seqNo, nextResendTime, SlotMate(model, k));
        return P.Some(p), P.Some(ServiceIter(WrappingAdd(it.seqNo, 1), P.Min(it.nextTime, nextResendTime))), k;
      }
      SetTimer(it.nextTime, lo, BestOf(iter));
      return P.None, P.Some(it), 0;
    }

    method SetTimer(time: int, ghost lo: int, ghost best: int)
      requires Steady() && time == P.Earliest(Seen(model, lo), lo, model.nextSend, best)
      requires forall j :: j in model.send && j < lo ==> best <= model.send[j].resendTime
      modifies this`nextServiceTimestamp, this`model
      ensures Valid() && model == old(model).(nextService := time)
    {
      hide SendRing, RecvRing, ReplyTable, Seen, Bounded, P.Earliest;
      ghost var q := TimerSet(model, lo, best, sendWindow[..], recvWindow[..]);
      nextServiceTimestamp := time;
      model := q;
    }
  }
}
