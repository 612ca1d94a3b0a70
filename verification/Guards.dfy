/** The guards of the thread-safe interface. Every call takes the engine's mutex for its whole
    critical section, so one call is one atomic step; calls of all threads interleave freely. */
module Guards {
  import opened Protocol
  import opened PeerInvariants
  import opened History
  import opened Outcomes

  /** Owed for one delivered packet; consumed by answering it. */
  datatype Guard = Guard(replyNo: int, holding: bool)

  /** The shared engine and the guards threads own: reply guards, and lock guards left over
      from answered SeqCst packets. */
  datatype Shared<S, R> = Shared(
    peer: Peer<S, R>,
    closed: bool,
    guards: map<int, Guard>,
    lockGuards: set<int>,
    nextId: int)

  /** What a thread may call. A blocking send is a loop of passes, each under the mutex, which
      ends when a pass sends or finds the session closed. */
  datatype Call<+S, +R> =
    | TryReceive(frame: Frame<R>)
    | TryPump
    | TrySendCall(resendAt: int, seqCst: bool, data: S)
    | BlockingSend(resendAt: int, seqCst: bool, data: S)
    | ServiceCall(now: int, resendAt: int, never: int)
    | ReplyWith(id: int, resendAt: int, seqCst: bool, data: S)
    | ReplyStayLocked(id: int, resendAt: int, seqCst: bool, data: S)
    | AckGuard(id: int)
    | UnlockGuard(id: int)
    | DropGuard(id: int)
    | DropLockGuard(id: int)
    | Close

  ghost function Opened<S, R>(cap: int, first: int, never: int): Shared<S, R> {
    Shared(Initial(cap, first, never), false, map[], {}, 0)
  }

  /** A thread calls only on guards it owns, and a consumed guard is gone. */
  ghost predicate Owned<S, R>(s: Shared<S, R>, call: Call<S, R>) {
    match call
    case ReplyWith(id, _, _, _) => id in s.guards
    case ReplyStayLocked(id, _, _, _) => id in s.guards
    case AckGuard(id) => id in s.guards
    case UnlockGuard(id) => id in s.guards
    case DropGuard(id) => id in s.guards
    case DropLockGuard(id) => id in s.lockGuards
    case _ => true
  }

  /** A delivered packet comes with a new guard, holding the lock if the packet is SeqCst. */
  ghost function HandOut<S, R>(s: Shared<S, R>, q: Peer<S, R>, out: Outcome<int, S, R>): Shared<S, R> {
    if out.Delivered? && !out.ok.Acked? then
      s.(peer := q, guards := s.guards[s.nextId := Guard(out.ok.replyNo, out.ok.seqCst)], nextId := s.nextId + 1)
    else s.(peer := q)
  }

  ghost function Forget<S, R>(s: Shared<S, R>, id: int): Shared<S, R> {
    s.(guards := s.guards - {id})
  }

  /** Consumes a reply guard, keeping the lock in a lock guard if it was holding it. */
  ghost function ConsumeLock<S, R>(s: Shared<S, R>, id: int): Shared<S, R>
    requires id in s.guards
  {
    if s.guards[id].holding
    then Forget(s, id).(lockGuards := s.lockGuards + {s.nextId}, nextId := s.nextId + 1)
    else Forget(s, id)
  }

  ghost function Perform<S, R>(s: Shared<S, R>, call: Call<S, R>): Shared<S, R>
    requires s.peer.cap > 0 && Owned(s, call)
  {
    match call
    case TryReceive(frame) =>
      if s.closed then s else HandOut(s, Receive(s.peer, frame).0, Receive(s.peer, frame).1)
    case TryPump => HandOut(s, Pump(s.peer).0, Pump(s.peer).1)
    case TrySendCall(at, cst, data) =>
      if s.closed then s else s.(peer := TrySend(s.peer, at, cst, data).0)
    case BlockingSend(at, cst, data) =>
      if s.closed then s else s.(peer := TrySend(s.peer, at, cst, data).0)
    case ServiceCall(now, at, never) => s.(peer := Service(s.peer, now, at, never))
    case ReplyWith(id, at, cst, data) =>
      var g := s.guards[id];
      if s.closed then Forget(s, id)
      else Forget(s, id).(peer := ReplyTo(s.peer, at, g.replyNo, g.holding, cst, data))
    case ReplyStayLocked(id, at, cst, data) =>
      if s.closed then ConsumeLock(s, id)
      else ConsumeLock(s, id).(peer := ReplyTo(s.peer, at, s.guards[id].replyNo, false, cst, data))
    case AckGuard(id) =>
      if s.closed then ConsumeLock(s, id)
      else ConsumeLock(s, id).(peer := AckTo(s.peer, s.guards[id].replyNo, false))
    case UnlockGuard(id) =>
      var g := s.guards[id];
      if g.holding then s.(guards := s.guards[id := g.(holding := false)], peer := s.peer.(locked := false)) else s
    case DropGuard(id) =>
      var g := s.guards[id];
      if s.closed then Forget(s, id)
      else Forget(s, id).(peer := AckTo(s.peer, g.replyNo, g.holding))
    case DropLockGuard(id) => s.(lockGuards := s.lockGuards - {id}, peer := s.peer.(locked := false))
    case Close => s.(closed := true)
  }

  /** The guards inside the critical section. */
  ghost function Holders<S, R>(s: Shared<S, R>): set<int> {
    (set id | id in s.guards && s.guards[id].holding) + s.lockGuards
  }

  ghost function Owing<S, R>(s: Shared<S, R>, n: int): set<int> {
    set id | id in s.guards && s.guards[id].replyNo == n
  }

  /** At most one guard is in the critical section, and the engine is locked while one is;
      until the engine is closed it is locked only then. */
  ghost predicate LockOk<S, R>(s: Shared<S, R>) {
    && |Holders(s)| <= 1
    && (Holders(s) != {} ==> s.peer.locked)
    && (!s.closed && s.peer.locked ==> Holders(s) != {})
  }

  /** The live reply guards are, as a multiset, among the issued reply numbers; and all of
      them until the engine is closed. */
  ghost predicate OwingOk<S, R>(s: Shared<S, R>) {
    && (forall n :: |Owing(s, n)| <= s.peer.replies[n])
    && (!s.closed ==> forall n :: |Owing(s, n)| == s.peer.replies[n])
  }

  ghost predicate IdsOk<S, R>(s: Shared<S, R>) {
    && s.guards.Keys !! s.lockGuards
    && (forall id :: id in s.guards || id in s.lockGuards ==> id < s.nextId)
  }

  ghost predicate GuardsOk<S, R>(s: Shared<S, R>) { IdsOk(s) && LockOk(s) && OwingOk(s) }

  lemma OnlyOne(h: set<int>, id: int)
    requires id in h && |h| <= 1
    ensures h == {id}
  {
    assert |h - {id}| == |h| - 1 == 0;
    assert h == (h - {id}) + {id};
  }

  lemma ForgetOwing<S, R>(s: Shared<S, R>, id: int, m: int)
    requires id in s.guards
    ensures |Owing(Forget(s, id), m)| == |Owing(s, m)| - (if m == s.guards[id].replyNo then 1 else 0)
  {
    assert Owing(Forget(s, id), m) == Owing(s, m) - {id};
  }

  lemma ForgetHolders<S, R>(s: Shared<S, R>, id: int)
    requires GuardsOk(s) && id in s.guards
    ensures Holders(Forget(s, id)) == Holders(s) - {id}
    ensures s.guards[id].holding ==> Holders(s) == {id} && s.peer.locked
    ensures !s.guards[id].holding ==> id !in Holders(s)
    ensures s.guards[id].replyNo in s.peer.replies
  {
    assert id in Owing(s, s.guards[id].replyNo);
    if s.guards[id].holding { OnlyOne(Holders(s), id); }
  }

  /** The step to q delivered what `out` says. */
  ghost predicate HandsOver<S, R>(p: Peer<S, R>, q: Peer<S, R>, out: Outcome<int, S, R>) {
    if out.Delivered? && !out.ok.Acked? then
      && q.replies == p.replies + multiset{out.ok.replyNo}
      && q.locked == (p.locked || out.ok.seqCst) && (out.ok.seqCst ==> !p.locked)
    else q.replies == p.replies && q.locked == p.locked
  }

  lemma NewHolder<S, R>(s: Shared<S, R>, g: Guard)
    requires IdsOk(s)
    ensures Holders(s.(guards := s.guards[s.nextId := g])) ==
            if g.holding then Holders(s) + {s.nextId} else Holders(s)
  {
  }

  lemma HandOutLock<S, R>(s: Shared<S, R>, q: Peer<S, R>, out: Outcome<int, S, R>)
    requires IdsOk(s) && LockOk(s) && HandsOver(s.peer, q, out)
    ensures LockOk(HandOut(s, q, out))
  {
    var s' := HandOut(s, q, out);
    if out.Delivered? && !out.ok.Acked? {
      var t := s.(guards := s.guards[s.nextId := Guard(out.ok.replyNo, out.ok.seqCst)]);
      NewHolder(s, Guard(out.ok.replyNo, out.ok.seqCst));
      assert Holders(s') == Holders(t);
    } else {
      assert Holders(s') == Holders(s);
    }
  }

  lemma HandOutOwing<S, R>(s: Shared<S, R>, q: Peer<S, R>, out: Outcome<int, S, R>)
    requires IdsOk(s) && OwingOk(s) && HandsOver(s.peer, q, out)
    ensures OwingOk(HandOut(s, q, out))
  {
    var s' := HandOut(s, q, out);
    var added := out.Delivered? && !out.ok.Acked?;
    forall m ensures |Owing(s', m)| - |Owing(s, m)| == q.replies[m] - s.peer.replies[m] {
      assert Owing(s', m) == Owing(s, m) + if added && m == out.ok.replyNo then {s.nextId} else {};
    }
  }

  lemma HandOutOk<S, R>(s: Shared<S, R>, q: Peer<S, R>, out: Outcome<int, S, R>)
    requires GuardsOk(s) && HandsOver(s.peer, q, out)
    ensures GuardsOk(HandOut(s, q, out))
  {
    HandOutLock(s, q, out);
    HandOutOwing(s, q, out);
  }

  /** Swapping in a peer with the same replies and lock changes nothing for the guards. */
  lemma PeerSwap<S, R>(s: Shared<S, R>, q: Peer<S, R>)
    requires GuardsOk(s) && q.replies == s.peer.replies && q.locked == s.peer.locked
    ensures GuardsOk(s.(peer := q))
  {
    var s' := s.(peer := q);
    assert Holders(s') == Holders(s);
    assert forall m :: Owing(s', m) == Owing(s, m);
  }

  /** The step to q answers the number r, or nothing is answered once closed. */
  ghost predicate Answered<S, R>(s: Shared<S, R>, q: Peer<S, R>, r: int, unlock: bool) {
    if s.closed then q == s.peer
    else q.replies == s.peer.replies - multiset{r} && q.locked == (s.peer.locked && !unlock)
  }

  ghost function Consumed<S, R>(s: Shared<S, R>, id: int, q: Peer<S, R>, keep: bool): Shared<S, R>
    requires id in s.guards
  {
    (if keep then ConsumeLock(s, id) else Forget(s, id)).(peer := q)
  }

  lemma ConsumeLockOk<S, R>(s: Shared<S, R>, id: int, q: Peer<S, R>, keep: bool)
    requires GuardsOk(s) && id in s.guards
    requires Answered(s, q, s.guards[id].replyNo, !keep && s.guards[id].holding)
    ensures LockOk(Consumed(s, id, q, keep)) && IdsOk(Consumed(s, id, q, keep))
  {
    ForgetHolders(s, id);
    assert Holders(Consumed(s, id, q, keep)) ==
      Holders(s) - {id} + if keep && s.guards[id].holding then {s.nextId} else {};
  }

  lemma ConsumeOwing<S, R>(s: Shared<S, R>, id: int, q: Peer<S, R>, keep: bool)
    requires OwingOk(s) && id in s.guards && s.guards[id].replyNo in s.peer.replies
    requires Answered(s, q, s.guards[id].replyNo, !keep && s.guards[id].holding)
    ensures OwingOk(Consumed(s, id, q, keep))
  {
    var s', r := Consumed(s, id, q, keep), s.guards[id].replyNo;
    forall m ensures |Owing(s', m)| == |Owing(s, m)| - (if m == r then 1 else 0) {
      ForgetOwing(s, id, m);
      assert Owing(s', m) == Owing(Forget(s, id), m);
    }
  }

  /** A consumed guard leaves with one issued number, or with none once closed; the lock goes
      with it, or moves to a lock guard, or, once closed, may stay taken by nobody. */
  lemma ConsumeOk<S, R>(s: Shared<S, R>, id: int, q: Peer<S, R>, keep: bool)
    requires GuardsOk(s) && id in s.guards
    requires Answered(s, q, s.guards[id].replyNo, !keep && s.guards[id].holding)
    ensures GuardsOk(Consumed(s, id, q, keep))
  {
    ForgetHolders(s, id);
    ConsumeLockOk(s, id, q, keep);
    ConsumeOwing(s, id, q, keep);
  }

  lemma UnlockOk<S, R>(s: Shared<S, R>, id: int)
    requires GuardsOk(s) && id in s.guards && s.peer.cap > 0
    ensures GuardsOk(Perform(s, UnlockGuard(id)))
  {
    var s' := Perform(s, UnlockGuard(id));
    ForgetHolders(s, id);
    if s.guards[id].holding {
      assert Holders(s') == {};
      assert forall m :: Owing(s', m) == Owing(s, m);
    }
  }

  lemma DropLockOk<S, R>(s: Shared<S, R>, id: int)
    requires GuardsOk(s) && id in s.lockGuards && s.peer.cap > 0
    ensures GuardsOk(Perform(s, DropLockGuard(id)))
  {
    var s' := Perform(s, DropLockGuard(id));
    OnlyOne(Holders(s), id);
    assert Holders(s') == {};
    assert forall m :: Owing(s', m) == Owing(s, m);
  }

  lemma ReceiveOk<S, R>(s: Shared<S, R>, frame: Frame<R>)
    requires GuardsOk(s) && PeerOk(s.peer)
    ensures GuardsOk(HandOut(s, Receive(s.peer, frame).0, Receive(s.peer, frame).1))
  {
    if frame.Data? { ReceiveCases(s.peer, s.peer.nextRecv, frame.seqNo, frame.msg); }
    HandOutOk(s, Receive(s.peer, frame).0, Receive(s.peer, frame).1);
  }

  lemma PumpOk<S, R>(s: Shared<S, R>)
    requires GuardsOk(s) && PeerOk(s.peer)
    ensures GuardsOk(HandOut(s, Pump(s.peer).0, Pump(s.peer).1))
  {
    PumpCases(s.peer, s.peer.nextRecv);
    HandOutOk(s, Pump(s.peer).0, Pump(s.peer).1);
  }

  /** Every call of every thread keeps the guards and the engine in step. */
  lemma PerformOk<S, R>(s: Shared<S, R>, call: Call<S, R>)
    requires GuardsOk(s) && PeerOk(s.peer) && Owned(s, call)
    ensures GuardsOk(Perform(s, call))
  {
    hide GuardsOk, Receive, Pump, Fullness, Service;
    var p := s.peer;
    match call
    case TryReceive(frame) => ReceiveOk(s, frame);
    case TryPump => PumpOk(s);
    case TrySendCall(at, cst, data) => PeerSwap(s, TrySend(p, at, cst, data).0);
    case BlockingSend(at, cst, data) => PeerSwap(s, TrySend(p, at, cst, data).0);
    case ServiceCall(now, at, never) => ServiceSwap(s, now, at, never);
    case ReplyWith(id, at, cst, data) =>
      AnswerOk(s, id, ReplyTo(p, at, s.guards[id].replyNo, s.guards[id].holding, cst, data), false);
    case ReplyStayLocked(id, at, cst, data) =>
      AnswerOk(s, id, ReplyTo(p, at, s.guards[id].replyNo, false, cst, data), true);
    case AckGuard(id) => AnswerOk(s, id, AckTo(p, s.guards[id].replyNo, false), true);
    case UnlockGuard(id) => UnlockOk(s, id);
    case DropGuard(id) => AnswerOk(s, id, AckTo(p, s.guards[id].replyNo, s.guards[id].holding), false);
    case DropLockGuard(id) => DropLockOk(s, id);
    case Close => CloseOk(s);
  }

  lemma ServiceSwap<S, R>(s: Shared<S, R>, now: int, at: int, never: int)
    requires GuardsOk(s)
    ensures GuardsOk(s.(peer := Service(s.peer, now, at, never)))
  {
    PeerSwap(s, Service(s.peer, now, at, never));
  }

  lemma CloseOk<S, R>(s: Shared<S, R>)
    requires GuardsOk(s)
    ensures GuardsOk(s.(closed := true))
  {
    assert Holders(s.(closed := true)) == Holders(s);
    assert forall m :: Owing(s.(closed := true), m) == Owing(s, m);
  }

  lemma AnswerOk<S, R>(s: Shared<S, R>, id: int, q: Peer<S, R>, keep: bool)
    requires GuardsOk(s) && id in s.guards
    requires var r := s.guards[id].replyNo;
      r in s.peer.replies ==>
        && q.replies == s.peer.replies - multiset{r}
        && q.locked == (s.peer.locked && (keep || !s.guards[id].holding))
    ensures GuardsOk(Consumed(s, id, if s.closed then s.peer else q, keep))
  {
    ForgetHolders(s, id);
    ConsumeOk(s, id, if s.closed then s.peer else q, keep);
  }

  // ---- What each call does, in words of the guards, the lock and the engine ----

  /** The calls that reach the engine even when the session is closed. */
  ghost predicate OutlivesClose<S, R>(call: Call<S, R>) {
    call.TryPump? || call.ServiceCall? || call.UnlockGuard? || call.DropLockGuard?
  }

  /** On a closed session every other call leaves the engine as it is; and closing is for good. */
  lemma ClosedLeavesEngine<S, R>(s: Shared<S, R>, call: Call<S, R>)
    requires s.peer.cap > 0 && Owned(s, call)
    ensures s.closed && !OutlivesClose(call) ==> Perform(s, call).peer == s.peer
    ensures Perform(s, call).closed <==> s.closed || call.Close?
    ensures call.Close? ==> Perform(s, call) == s.(closed := true)
  {
    hide Receive, Pump, TrySend, Service, ReplyTo, AckTo;
  }

  /** Those calls do the same on an open session and on a closed one. */
  lemma ClosingMakesNoDifference<S, R>(s: Shared<S, R>, call: Call<S, R>)
    requires s.peer.cap > 0 && Owned(s, call) && OutlivesClose(call)
    ensures var open, closed := Perform(s.(closed := false), call), Perform(s.(closed := true), call);
      closed == open.(closed := true)
  {
    hide Receive, Pump, TrySend, Service, ReplyTo, AckTo;
  }

  /** On an open session a send adds its packet to the window, to be sent again at the time
      given, exactly if there is room; otherwise it leaves everything as it is. */
  lemma OpenSend<S, R>(s: Shared<S, R>, call: Call<S, R>)
    requires PeerOk(s.peer) && !s.closed && (call.TrySendCall? || call.BlockingSend?)
    ensures var p, s' := s.peer, Perform(s, call);
      if Fits(p, None)
      then
        && Adds(p, s'.peer, SendEntry(Message(None, call.seqCst, call.data), call.resendAt))
        && s' == s.(peer := s'.peer)
      else s' == s
  {
    hide TrySend, Fits;
    SendIs(s.peer, call.resendAt, call.seqCst, call.data);
  }

  /** On an open session consuming a guard uses up one issue of its number; a reply goes into
      the window as the answer to that number; and the lock is released exactly if the guard
      held it and the call does not keep it. */
  lemma OpenAnswer<S, R>(s: Shared<S, R>, call: Call<S, R>)
    requires PeerOk(s.peer) && GuardsOk(s) && !s.closed && Owned(s, call) && Consumes(call)
    ensures var p, q, g := s.peer, Perform(s, call).peer, s.guards[call.id];
      && g.replyNo in p.replies && q.replies == p.replies - multiset{g.replyNo}
      && (q.locked <==> p.locked && !(g.holding && !KeepsLock(call)))
      && if call.ReplyWith? || call.ReplyStayLocked?
         then Adds(p, q, SendEntry(Message(Some(g.replyNo), call.seqCst, call.data), call.resendAt))
         else q == p.(replies := q.replies, locked := q.locked)
  {
    hide ReplyTo, AckTo, GuardsOk;
    ForgetHolders(s, call.id);
    var g, unlock := s.guards[call.id], !KeepsLock(call) && s.guards[call.id].holding;
    if call.ReplyWith? || call.ReplyStayLocked? {
      ReplyIs(s.peer, call.resendAt, g.replyNo, unlock, call.seqCst, call.data);
      ReplyApplies(s.peer, call.resendAt, g.replyNo, unlock, call.seqCst, call.data);
    } else {
      AckIs(s.peer, g.replyNo, unlock);
    }
  }

  lemma ReplyApplies<S, R>(p: Peer<S, R>, at: int, r: int, unlock: bool, cst: bool, d: S)
    requires p.cap > 0
    ensures Apply<S, R>(p, DoReply(at, r, unlock, cst, d)).peer == ReplyTo(p, at, r, unlock, cst, d)
  {
    hide ReplyTo;
  }

  /** Dropping a lock guard, or unlocking a guard that holds the lock, frees the lock and leaves
      the rest of the engine alone, closed or not; unlocking any other guard does nothing. */
  lemma UnlockFrees<S, R>(s: Shared<S, R>, call: Call<S, R>)
    requires s.peer.cap > 0 && Owned(s, call) && (call.DropLockGuard? || call.UnlockGuard?)
    ensures if call.UnlockGuard? && !s.guards[call.id].holding then Perform(s, call) == s
      else
        && !Perform(s, call).peer.locked
        && Perform(s, call).peer == s.peer.(locked := false)
  {
  }

  /** Which guards a call leaves. Only a delivery adds a reply guard, and its number is the one
      delivered; a consumed guard is gone, closed or not; the others stay as they were, except
      that unlocking one takes the lock from it. */
  lemma GuardsLeft<S, R>(s: Shared<S, R>, call: Call<S, R>, id: int)
    requires s.peer.cap > 0 && Owned(s, call) && IdsOk(s)
    ensures var s' := Perform(s, call);
      && (id in s.guards ==>
           if Consumes(call) && call.id == id then id !in s'.guards
           else
             && id in s'.guards && s'.guards[id].replyNo == s.guards[id].replyNo
             && (s'.guards[id].holding <==> s.guards[id].holding && call != UnlockGuard(id)))
      && (id !in s.guards && id in s'.guards ==> id == s.nextId && (call.TryReceive? || call.TryPump?))
  {
    hide Receive, Pump, TrySend, Service, ReplyTo, AckTo;
  }

  /** The calls that keep the lock of the guard they consume. */
  ghost predicate KeepsLock<S, R>(call: Call<S, R>) { call.ReplyStayLocked? || call.AckGuard? }

  /** Which lock guards a call leaves: a consumed guard that held the lock hands it to a new one
      if the call keeps it, closed or not; a dropped one is gone. */
  lemma LockGuardsLeft<S, R>(s: Shared<S, R>, call: Call<S, R>)
    requires s.peer.cap > 0 && Owned(s, call)
    ensures Perform(s, call).lockGuards ==
      if KeepsLock(call) && s.guards[call.id].holding then s.lockGuards + {s.nextId}
      else if call.DropLockGuard? then s.lockGuards - {call.id}
      else s.lockGuards
  {
    hide Receive, Pump, TrySend, Service, ReplyTo, AckTo;
  }

  // ---- Runs ----

  ghost function PeerOp<S, R>(s: Shared<S, R>, call: Call<S, R>): Option<Op<S, R>>
    requires Owned(s, call)
  {
    match call
    case TryReceive(frame) => if s.closed then None else Some(DoReceive(frame))
    case TryPump => Some(DoPumpOnce)
    case TrySendCall(at, cst, data) => if s.closed then None else Some(DoSend(at, cst, data))
    case BlockingSend(at, cst, data) => if s.closed then None else Some(DoSend(at, cst, data))
    case ServiceCall(now, at, never) => Some(DoService(now, at, never))
    case ReplyWith(id, at, cst, data) =>
      if s.closed then None else Some(DoReply(at, s.guards[id].replyNo, s.guards[id].holding, cst, data))
    case ReplyStayLocked(id, at, cst, data) =>
      if s.closed then None else Some(DoReply(at, s.guards[id].replyNo, false, cst, data))
    case AckGuard(id) => if s.closed then None else Some(DoAck(s.guards[id].replyNo, false))
    case UnlockGuard(id) => if s.guards[id].holding then Some(DoUnlock) else None
    case DropGuard(id) => if s.closed then None else Some(DoAck(s.guards[id].replyNo, s.guards[id].holding))
    case DropLockGuard(id) => Some(DoUnlock)
    case Close => None
  }

  /** The engine inside goes through operations of the protocol only. */
  lemma PerformIsProtocol<S, R>(s: Shared<S, R>, call: Call<S, R>)
    requires s.peer.cap > 0 && Owned(s, call)
    ensures Perform(s, call).peer ==
      match PeerOp(s, call) case None => s.peer case Some(op) => Apply(s.peer, op).peer
  {
    hide Receive, Pump, TrySend, Service, ReplyTo, AckTo;
  }

  lemma PerformKeeps<S, R>(s: Shared<S, R>, call: Call<S, R>)
    requires PeerOk(s.peer) && Owned(s, call)
    ensures PeerOk(Perform(s, call).peer)
  {
    PerformIsProtocol(s, call);
    if PeerOp(s, call).Some? { ApplyKeeps(s.peer, PeerOp(s, call).value); }
  }

  /** The state after a run of calls, when every call is on guards its thread owns. */
  ghost function After<S, R>(cap: int, first: int, never: int, calls: seq<Call<S, R>>): (s: Option<Shared<S, R>>)
    requires cap >= 2
    ensures s.Some? ==> PeerOk(s.value.peer)
  {
    if calls == [] then Some(Opened(cap, first, never))
    else
      match After(cap, first, never, calls[..|calls| - 1])
      case None => None
      case Some(s) =>
        var call := calls[|calls| - 1];
        if Owned(s, call) then
          PerformKeeps(s, call);
          Some(Perform(s, call))
        else None
  }

  /** Over every interleaving of calls, before and after closing: at most one guard is in the
      critical section and the engine is locked while one is; while open, it is locked only
      then and the live guards are exactly the issued numbers. */
  lemma {:induction false} CriticalSection<S, R>(cap: int, first: int, never: int, calls: seq<Call<S, R>>)
    requires cap >= 2 && After(cap, first, never, calls).Some?
    ensures GuardsOk(After(cap, first, never, calls).value)
  {
    if calls == [] {
      var s: Shared<S, R> := Opened(cap, first, never);
      assert Holders(s) == {};
      assert forall m :: Owing(s, m) == {};
    } else {
      CriticalSection(cap, first, never, calls[..|calls| - 1]);
      PerformOk(After(cap, first, never, calls[..|calls| - 1]).value, calls[|calls| - 1]);
    }
  }

  ghost predicate Consumes<S, R>(call: Call<S, R>) {
    call.ReplyWith? || call.ReplyStayLocked? || call.AckGuard? || call.DropGuard?
  }

  ghost predicate Unlocks<S, R>(op: Op<S, R>) {
    op.DoUnlock? || (op.DoReply? && op.unlock) || (op.DoAck? && op.unlock)
  }

  /** Consuming a live guard while open answers its packet exactly once, whichever way it is
      consumed: its number was issued, and one issue of it goes with the guard. And a call
      that releases the lock always finds it taken, by the guard it is called on. */
  lemma AnsweredOnceUnlockedOnce<S, R>(cap: int, first: int, never: int, calls: seq<Call<S, R>>, call: Call<S, R>)
    requires cap >= 2 && After(cap, first, never, calls).Some? && Owned(After(cap, first, never, calls).value, call)
    ensures var s := After(cap, first, never, calls).value;
      && (Consumes(call) && !s.closed ==>
           var r := s.guards[call.id].replyNo;
           && r in s.peer.replies && call.id !in Perform(s, call).guards
           && Perform(s, call).peer.replies == s.peer.replies - multiset{r})
      && (PeerOp(s, call).Some? && Unlocks(PeerOp(s, call).value) ==>
           s.peer.locked && Holders(s) == {call.id})
  {
    CriticalSection(cap, first, never, calls);
    var s := After(cap, first, never, calls).value;
    if Consumes(call) || call.UnlockGuard? {
      ForgetHolders(s, call.id);
    } else if call.DropLockGuard? {
      OnlyOne(Holders(s), call.id);
    }
  }

  /** While a guard is in the critical section no SeqCst packet is handed out. */
  lemma NoSecondEntry<S, R>(cap: int, first: int, never: int, calls: seq<Call<S, R>>, frame: Frame<R>)
    requires cap >= 2 && After(cap, first, never, calls).Some?
    requires Holders(After(cap, first, never, calls).value) != {}
    ensures var p := After(cap, first, never, calls).value.peer;
      var received, pumped := Receive(p, frame).1, Pump(p).1;
      && (received.Delivered? && !received.ok.Acked? ==> !received.ok.seqCst)
      && (pumped.Delivered? ==> !pumped.ok.Acked? && !pumped.ok.seqCst)
  {
    CriticalSection(cap, first, never, calls);
    var p := After(cap, first, never, calls).value.peer;
    if frame.Data? { ReceiveCases(p, p.nextRecv, frame.seqNo, frame.msg); }
    PumpCases(p, p.nextRecv);
  }
}
