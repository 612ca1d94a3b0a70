/** One peer of the exchange, on unbounded sequence numbers: the send and the receive
    window are maps from numbers to entries instead of rings, the reply table is a
    multiset, and every operation is a function from state to state. */
module Protocol {
  datatype Option<+T> = None | Some(value: T)

  /** What one sequence number carries; it never changes once the number is used. */
  datatype Message<+D> = Message(replyNo: Option<int>, seqCst: bool, data: D)

  datatype SendEntry<+S> = SendEntry(msg: Message<S>, resendTime: int)

  datatype RecvEntry<+R> = Occupied(msg: Message<R>) | Unlocked

  /** A packet on the network. */
  datatype Frame<+D> = Data(seqNo: int, msg: Message<D>) | Ack(replyNo: int)

  /** Whether the windows can take one more number. */
  datatype Room = HasRoom | NeedRecv | NeedReply

  datatype RecvOk<+N, +S, +R> =
    | Payload(replyNo: N, seqCst: bool, recvData: R)
    | Reply(replyNo: N, seqCst: bool, recvData: R, sendData: S)
    | Acked(sendData: S)

  datatype RecvError<+N> =
    | DroppedTooEarly
    | DroppedDuplicate
    | DroppedDuplicateResendAck(seqNo: N)
    | WaitingForRecv
    | WaitingForReply

  datatype Outcome<+N, +S, +R> =
    | Delivered(ok: RecvOk<N, S, R>, doPump: bool)
    | Refused(error: RecvError<N>)

  datatype Peer<S, R> = Peer(
    cap: int,
    nextSend: int,
    nextRecv: int,
    send: map<int, SendEntry<S>>,
    recv: map<int, RecvEntry<R>>,
    replies: multiset<int>,
    locked: bool,
    nextService: int)

  ghost function Initial<S, R>(cap: int, first: int, never: int): Peer<S, R> {
    Peer(cap, first, first, map[], map[], multiset{}, false, never)
  }

  // ---- The send window ----

  /** The slot of the i-th coming number is taken, and not by the packet that `reply`
      would free. */
  ghost predicate Blocked<S, R>(p: Peer<S, R>, i: int, reply: Option<int>)
    requires p.cap > 0
  {
    p.nextSend + i - p.cap in p.send
    && !(reply.Some? && (reply.value - (p.nextSend + i)) % p.cap == 0)
  }

  ghost function Fullness<S, R>(p: Peer<S, R>, reply: Option<int>): Room
    requires p.cap > 0
  {
    if |p.replies| >= p.cap - 2 then NeedReply
    else if Blocked(p, 0, reply) then NeedRecv
    else if exists i :: 0 < i <= |p.replies| && Blocked(p, i, reply) then NeedReply
    else HasRoom
  }

  /** Puts a message under the next number; whatever still had its slot is overwritten. */
  ghost function Insert<S, R>(p: Peer<S, R>, resendAt: int, msg: Message<S>): Peer<S, R> {
    p.(nextSend := p.nextSend + 1,
       send := (p.send - {p.nextSend - p.cap})[p.nextSend := SendEntry(msg, resendAt)],
       nextService := if p.nextService > resendAt then resendAt else p.nextService)
  }

  ghost function TrySend<S, R>(p: Peer<S, R>, resendAt: int, seqCst: bool, data: S): (Peer<S, R>, Room)
    requires p.cap > 0
  {
    var room := Fullness(p, None);
    if room == HasRoom then (Insert(p, resendAt, Message(None, seqCst, data)), room) else (p, room)
  }

  ghost function TakeSend<S, R>(p: Peer<S, R>, r: int): Peer<S, R> {
    p.(send := p.send - {r})
  }

  // ---- The receive window ----

  ghost function FastForward<S, R>(p: Peer<S, R>): Peer<S, R>
    decreases |p.recv|
  {
    if p.nextRecv in p.recv && p.recv[p.nextRecv].Unlocked? then
      FastForward(p.(recv := p.recv - {p.nextRecv}, nextRecv := p.nextRecv + 1))
    else p
  }

  ghost function Advance<S, R>(p: Peer<S, R>): Peer<S, R> {
    FastForward(p.(recv := p.recv - {p.nextRecv}, nextRecv := p.nextRecv + 1))
  }

  ghost predicate DoPump<S, R>(p: Peer<S, R>) { p.nextRecv in p.recv }

  /** Issues the reply number `n`, takes the lock for a SeqCst packet, and pairs a reply
      with the packet it answers when that is still in the send window. */
  ghost function Accept<S, R>(p: Peer<S, R>, n: int, msg: Message<R>, doPump: bool): (Peer<S, R>, Outcome<int, S, R>)
  {
    var q := p.(replies := p.replies + multiset{n}, locked := p.locked || msg.seqCst);
    if msg.replyNo.Some? && msg.replyNo.value in p.send then
      (TakeSend(q, msg.replyNo.value),
       Delivered(Reply(n, msg.seqCst, msg.data, p.send[msg.replyNo.value].msg.data), doPump))
    else
      (q, Delivered(Payload(n, msg.seqCst, msg.data), doPump))
  }

  /** A reply to `n` is still being decided, or sent and not yet acknowledged. */
  ghost predicate AnswerPending<S, R>(p: Peer<S, R>, n: int) {
    n in p.replies || exists k :: k in p.send && p.send[k].msg.replyNo == Some(n)
  }

  /** Whether an in-range packet may be processed right now. */
  ghost function Gate<S, R>(p: Peer<S, R>, n: int, msg: Message<R>): Room
    requires p.cap > 0
  {
    var room := Fullness(p, msg.replyNo);
    if room != HasRoom then room
    else if msg.seqCst && n != p.nextRecv then NeedRecv
    else if msg.seqCst && p.locked then NeedReply
    else HasRoom
  }

  ghost function Receive<S, R>(p: Peer<S, R>, frame: Frame<R>): (Peer<S, R>, Outcome<int, S, R>)
    requires p.cap > 0
  {
    match frame
    case Ack(r) =>
      if r in p.send then (TakeSend(p, r), Delivered(Acked(p.send[r].msg.data), false))
      else (p, Refused(DroppedDuplicate))
    case Data(n, msg) =>
      if n < p.nextRecv then
        (p, Refused(if AnswerPending(p, n) then DroppedDuplicate else DroppedDuplicateResendAck(n)))
      else if n >= p.nextRecv + p.cap then (p, Refused(DroppedTooEarly))
      else
        var room := Gate(p, n, msg);
        if room != HasRoom then
          (if n in p.recv then p else p.(recv := p.recv[n := Occupied(msg)]),
           Refused(if room == NeedRecv then WaitingForRecv else WaitingForReply))
        else if n == p.nextRecv then
          var q := Advance(p);
          Accept(q, n, msg, DoPump(q))
        else
          Accept(p.(recv := p.recv[n := Unlocked]), n, msg, false)
  }

  ghost function Pump<S, R>(p: Peer<S, R>): (Peer<S, R>, Outcome<int, S, R>)
    requires p.cap > 0
  {
    if p.nextRecv in p.recv && p.recv[p.nextRecv].Occupied? then
      var msg := p.recv[p.nextRecv].msg;
      var room := Gate(p, p.nextRecv, msg);
      if room == HasRoom then
        var q := Advance(p);
        Accept(q, p.nextRecv, msg, DoPump(q))
      else (p, Refused(if room == NeedRecv then WaitingForRecv else WaitingForReply))
    else (p, Refused(WaitingForRecv))
  }

  // ---- Answering ----

  ghost function Unreserve<S, R>(p: Peer<S, R>, r: int, unlock: bool): Peer<S, R> {
    p.(replies := p.replies - multiset{r}, locked := p.locked && !unlock)
  }

  ghost function ReplyTo<S, R>(p: Peer<S, R>, resendAt: int, r: int, unlock: bool, seqCst: bool, data: S): Peer<S, R>
  {
    if r in p.replies then Insert(Unreserve(p, r, unlock), resendAt, Message(Some(r), seqCst, data)) else p
  }

  ghost function AckTo<S, R>(p: Peer<S, R>, r: int, unlock: bool): Peer<S, R> {
    if r in p.replies then Unreserve(p, r, unlock) else p
  }

  // ---- The resend timer ----

  function Min(a: int, b: int): int { if a < b then a else b }

  /** The least of `best` and the resend times of the entries numbered lo to hi - 1. */
  ghost function Earliest<S>(send: map<int, SendEntry<S>>, lo: int, hi: int, best: int): int
    decreases hi - lo
  {
    if lo >= hi then best
    else
      var e := Earliest(send, lo, hi - 1, best);
      if hi - 1 in send then Min(e, send[hi - 1].resendTime) else e
  }

  ghost predicate Due<S>(send: map<int, SendEntry<S>>, k: int, now: int) {
    k in send && send[k].resendTime <= now
  }

  ghost function Resent<S>(send: map<int, SendEntry<S>>, now: int, resendAt: int): map<int, SendEntry<S>> {
    map k | k in send :: if Due(send, k, now) then send[k].(resendTime := resendAt) else send[k]
  }

  ghost function Service<S, R>(p: Peer<S, R>, now: int, resendAt: int, never: int): Peer<S, R> {
    if p.nextService <= now then
      var send := Resent(p.send, now, resendAt);
      p.(send := send, nextService := Earliest(send, p.nextSend - p.cap, p.nextSend, never))
    else p
  }

  // ---- One operation of a peer, any of them ----

  datatype Op<+S, +R> =
    | DoSend(resendAt: int, seqCst: bool, data: S)
    | DoReceive(frame: Frame<R>)
    | DoPumpOnce
    | DoReply(resendAt: int, replyNo: int, unlock: bool, seqCst: bool, data: S)
    | DoAck(replyNo: int, unlock: bool)
    | DoUnlock
    | DoService(now: int, resendAt: int, never: int)

  /** What an operation does: the new state, the packets handed to the transport, the
      message put under a new number, and what was delivered to the application. */
  datatype Effect<S(==), R> = Effect(
    peer: Peer<S, R>,
    emitted: set<Frame<S>>,
    sent: Option<Message<S>>,
    outcome: Option<Outcome<int, S, R>>)

  ghost function Quiet<S, R>(p: Peer<S, R>): Effect<S, R> { Effect(p, {}, None, None) }

  ghost function Apply<S, R>(p: Peer<S, R>, op: Op<S, R>): Effect<S, R>
    requires p.cap > 0
  {
    match op
    case DoSend(at, cst, data) =>
      var (q, room) := TrySend(p, at, cst, data);
      var msg := Message(None, cst, data);
      if room == HasRoom then Effect(q, {Data(p.nextSend, msg)}, Some(msg), None) else Quiet(q)
    case DoReceive(frame) =>
      var (q, out) := Receive(p, frame);
      var acks := if out.Refused? && out.error.DroppedDuplicateResendAck? then {Ack(out.error.seqNo)} else {};
      Effect(q, acks, None, Some(out))
    case DoPumpOnce =>
      var (q, out) := Pump(p);
      Effect(q, {}, None, Some(out))
    case DoReply(at, r, unlock, cst, data) =>
      var msg := Message(Some(r), cst, data);
      var q := ReplyTo(p, at, r, unlock, cst, data);
      if r in p.replies then Effect(q, {Data(p.nextSend, msg)}, Some(msg), None) else Quiet(q)
    case DoAck(r, unlock) =>
      Effect(AckTo(p, r, unlock), if r in p.replies then {Ack(r)} else {}, None, None)
    case DoUnlock => Quiet(p.(locked := false))
    case DoService(now, at, never) =>
      var due := if p.nextService <= now
                 then set k | k in p.send && Due(p.send, k, now) :: Data(k, p.send[k].msg)
                 else {};
      Effect(Service(p, now, at, never), due, None, None)
  }
}
