/** Whole runs of guard calls: in which order the critical section is entered, and where the
    data given to sends and replies goes. */
module GuardRuns {
  import opened Protocol
  import opened PeerInvariants
  import opened History
  import opened Conservation
  import opened Guards
  import Delivering

  // ---- A run of calls is a run of the protocol ----

  /** The operations that a run of calls performs on the engine. */
  ghost function Ops<S, R>(cap: int, first: int, never: int, calls: seq<Call<S, R>>): seq<Op<S, R>>
    requires cap >= 2
  {
    if calls == [] then []
    else
      var pre, call := calls[..|calls| - 1], calls[|calls| - 1];
      var s := After(cap, first, never, pre);
      Ops(cap, first, never, pre)
      + if s.Some? && Owned(s.value, call) && PeerOp(s.value, call).Some? then [PeerOp(s.value, call).value] else []
  }

  /** The reply guard that the step from s to s' hands to a thread, if any. */
  ghost function NewGuards<S, R>(s: Shared<S, R>, s': Shared<S, R>): seq<Guard> {
    if s.nextId in s'.guards then [s'.guards[s.nextId]] else []
  }

  /** All reply guards that a run of calls handed out, in order. */
  ghost function HandedOut<S, R>(cap: int, first: int, never: int, calls: seq<Call<S, R>>): seq<Guard>
    requires cap >= 2
  {
    if calls == [] then []
    else
      var pre := calls[..|calls| - 1];
      var s, s' := After(cap, first, never, pre), After(cap, first, never, calls);
      HandedOut(cap, first, never, pre) + if s.Some? && s'.Some? then NewGuards(s.value, s'.value) else []
  }

  ghost function AsDeliveries(gs: seq<Guard>): seq<Delivery> {
    seq(|gs|, i requires 0 <= i < |gs| => Delivery(gs[i].replyNo, gs[i].holding))
  }

  ghost function DeliveredBy<S, R>(s: Shared<S, R>, call: Call<S, R>): seq<Delivery>
    requires s.peer.cap > 0 && Owned(s, call)
  {
    var op := PeerOp(s, call);
    if op.Some? then Deliveries(Apply(s.peer, op.value).outcome) else []
  }

  /** A thread gets a guard exactly for what the engine delivers, and it holds the lock exactly
      if the packet is SeqCst. */
  lemma GuardPerDelivery<S, R>(s: Shared<S, R>, call: Call<S, R>)
    requires s.peer.cap > 0 && Owned(s, call) && IdsOk(s)
    ensures AsDeliveries(NewGuards(s, Perform(s, call))) == DeliveredBy(s, call)
  {
    hide Receive, Pump, TrySend, Service, ReplyTo, AckTo;
  }

  lemma {:induction false} RunOfCalls<S, R>(cap: int, first: int, never: int, calls: seq<Call<S, R>>)
    requires cap >= 2 && After(cap, first, never, calls).Some?
    ensures var x := Delivering.Run(cap, first, never, Ops(cap, first, never, calls));
      && x.peer == After(cap, first, never, calls).value.peer
      && x.log == AsDeliveries(HandedOut(cap, first, never, calls))
  {
    hide Apply, Perform, Owned, PeerOp, NewGuards, Answers, Booked;
    if calls == [] {
    } else {
      var pre, call := calls[..|calls| - 1], calls[|calls| - 1];
      RunOfCalls(cap, first, never, pre);
      CriticalSection(cap, first, never, pre);
      var s := After(cap, first, never, pre).value;
      PerformIsProtocol(s, call);
      GuardPerDelivery(s, call);
      var ops := Ops(cap, first, never, pre);
      if PeerOp(s, call).Some? {
        assert (ops + [PeerOp(s, call).value])[..|ops|] == ops;
      } else {
        assert ops + [] == ops;
      }
    }
  }

  ghost predicate GuardFor(gs: seq<Guard>, m: int) {
    exists i :: 0 <= i < |gs| && gs[i].replyNo == m
  }

  /** The guards that enter the critical section carry increasing numbers: SeqCst packets are
      processed in the order they were sent, each after all that was sent before it came in. */
  lemma LockOrder<S, R>(cap: int, first: int, never: int, calls: seq<Call<S, R>>)
    requires cap >= 2 && After(cap, first, never, calls).Some?
    ensures var gs := HandedOut(cap, first, never, calls);
      && (forall i, j :: 0 <= i < j < |gs| && gs[i].holding && gs[j].holding ==> gs[i].replyNo < gs[j].replyNo)
      && (forall j, m :: 0 <= j < |gs| && gs[j].holding && first <= m < gs[j].replyNo ==>
           GuardFor(gs[..j], m))
  {
    hide After, HandedOut, Delivering.Run;
    RunOfCalls(cap, first, never, calls);
    Delivering.DeliveryHistory(cap, first, never, Ops(cap, first, never, calls));
    var gs := HandedOut(cap, first, never, calls);
    var log := AsDeliveries(gs);
    forall i, j | 0 <= i < j < |gs| && gs[i].holding && gs[j].holding
      ensures gs[i].replyNo < gs[j].replyNo
    {
      assert log[i].seqNo < log[j].seqNo;
    }
    forall j, m | 0 <= j < |gs| && gs[j].holding && first <= m < gs[j].replyNo
      ensures GuardFor(gs[..j], m)
    {
      assert log[j].seqCst && Delivering.Logged(log[..j], m);
      var i :| 0 <= i < j && log[..j][i].seqNo == m;
      assert gs[..j][i].replyNo == m;
    }
  }

  /** A guard enters the critical section only when it is empty, as its only holder, and with
      the next number in sequence. */
  lemma EntersAlone<S, R>(cap: int, first: int, never: int, calls: seq<Call<S, R>>, call: Call<S, R>)
    requires cap >= 2 && After(cap, first, never, calls).Some? && Owned(After(cap, first, never, calls).value, call)
    ensures var s := After(cap, first, never, calls).value;
      var s' := Perform(s, call);
      forall g :: g in NewGuards(s, s') && g.holding ==>
        Holders(s) == {} && Holders(s') == {s.nextId} && g.replyNo == s.peer.nextRecv < s'.peer.nextRecv
  {
    CriticalSection(cap, first, never, calls);
    var s := After(cap, first, never, calls).value;
    if NewGuards(s, Perform(s, call)) != [] && NewGuards(s, Perform(s, call))[0].holding {
      Entry(s, call);
    }
  }

  lemma Entry<S, R>(s: Shared<S, R>, call: Call<S, R>)
    requires PeerOk(s.peer) && GuardsOk(s) && Owned(s, call)
    requires s.nextId in Perform(s, call).guards && Perform(s, call).guards[s.nextId].holding
    ensures var s' := Perform(s, call);
      && Holders(s) == {} && Holders(s') == {s.nextId}
      && s'.guards[s.nextId].replyNo == s.peer.nextRecv < s'.peer.nextRecv
  {
    hide Bounded, Receive, Pump, Holders, LockOk, OwingOk, TrySend, Service, ReplyTo, AckTo;
    var p := s.peer;
    assert call.TryReceive? || call.TryPump?;
    if call.TryReceive? {
      if call.frame.Ack? { AckHandsNothing(p, call.frame); }
      ReceiveCases(p, p.nextRecv, call.frame.seqNo, call.frame.msg);
      HandOutEntry(s, Receive(p, call.frame).0, Receive(p, call.frame).1);
    } else {
      PumpCases(p, p.nextRecv);
      HandOutEntry(s, Pump(p).0, Pump(p).1);
    }
  }

  lemma AckHandsNothing<S, R>(p: Peer<S, R>, frame: Frame<R>)
    requires p.cap > 0 && frame.Ack?
    ensures Receive(p, frame).1.Delivered? ==> Receive(p, frame).1.ok.Acked?
  {
  }

  lemma HandOutEntry<S, R>(s: Shared<S, R>, q: Peer<S, R>, out: Outcome<int, S, R>)
    requires GuardsOk(s) && HandsOver(s.peer, q, out) && out.Delivered? && !out.ok.Acked? && out.ok.seqCst
    ensures Holders(s) == {} && Holders(HandOut(s, q, out)) == {s.nextId}
  {
    assert !s.peer.locked;
    NewHolder(s, Guard(out.ok.replyNo, true));
    assert Holders(HandOut(s, q, out)) == Holders(s) + {s.nextId};
  }

  // ---- The data given to sends and replies ----

  /** A guard's reply goes into the window with its data, as the answer to its packet, exactly
      if the session is open; on a closed one the data is gone. */
  lemma ReplyKeptIff<S, R>(cap: int, first: int, never: int, calls: seq<Call<S, R>>, call: Call<S, R>)
    requires cap >= 2 && After(cap, first, never, calls).Some?
    requires call.ReplyWith? || call.ReplyStayLocked?
    requires call.id in After(cap, first, never, calls).value.guards
    ensures var s := After(cap, first, never, calls).value;
      var p, q := s.peer, Perform(s, call).peer;
      var entry := SendEntry(Message(Some(s.guards[call.id].replyNo), call.seqCst, call.data), call.resendAt);
      && (!s.closed <==> p.nextSend in q.send && q.send[p.nextSend] == entry)
      && (s.closed ==> q == p)
  {
    hide After, GuardsOk, ReplyTo, Bounded;
    CriticalSection(cap, first, never, calls);
    var s := After(cap, first, never, calls).value;
    assert s.peer.nextSend !in s.peer.send by { Unused(s.peer); }
    ForgetHolders(s, call.id);
    ReplyEntry(s.peer, call.resendAt, s.guards[call.id].replyNo, call.ReplyWith? && s.guards[call.id].holding,
               call.seqCst, call.data);
  }

  lemma Unused<S, R>(p: Peer<S, R>)
    requires PeerOk(p)
    ensures p.nextSend !in p.send
  {
  }

  lemma ReplyEntry<S, R>(p: Peer<S, R>, at: int, r: int, unlock: bool, cst: bool, data: S)
    requires r in p.replies
    ensures var q := ReplyTo(p, at, r, unlock, cst, data);
      p.nextSend in q.send && q.send[p.nextSend] == SendEntry(Message(Some(r), cst, data), at)
  {
  }

  ghost predicate GivesData<S, R>(call: Call<S, R>) {
    call.TrySendCall? || call.BlockingSend? || call.ReplyWith? || call.ReplyStayLocked?
  }

  ghost function Gives<S, R>(call: Call<S, R>): multiset<S> {
    if GivesData(call) then multiset{call.data} else multiset{}
  }

  /** What the caller still has, or gets back from this call: the data of a send that was
      refused, and that of packets answered. A blocking send keeps its data while it waits. */
  ghost function HandedBack<S, R>(s: Shared<S, R>, call: Call<S, R>): multiset<S>
    requires s.peer.cap > 0 && Owned(s, call)
  {
    var op := PeerOp(s, call);
    var kept := || (call.TrySendCall? && (s.closed || Apply(s.peer, op.value).sent.None?))
                || (call.BlockingSend? && !s.closed && Apply(s.peer, op.value).sent.None?);
    (if kept then multiset{call.data} else multiset{})
    + if op.Some? then Returned(Apply(s.peer, op.value).outcome) else multiset{}
  }

  /** The data given to the calls of a run, and what came back. */
  datatype Till<S> = Till(given: multiset<S>, back: multiset<S>)

  ghost function Tally<S, R>(cap: int, first: int, never: int, calls: seq<Call<S, R>>): Till<S>
    requires cap >= 2 && After(cap, first, never, calls).Some?
  {
    if calls == [] then Till(multiset{}, multiset{})
    else
      var pre, call := calls[..|calls| - 1], calls[|calls| - 1];
      var t := Tally(cap, first, never, pre);
      Till(t.given + Gives(call), t.back + HandedBack(After(cap, first, never, pre).value, call))
  }

  /** How many copies of `d` were given away, did not come back, and do not wait to be sent. */
  ghost function Unaccounted<S, R>(cap: int, first: int, never: int, calls: seq<Call<S, R>>, d: S): int
    requires cap >= 2 && After(cap, first, never, calls).Some?
  {
    var t := Tally(cap, first, never, calls);
    t.given[d] - t.back[d] - |Holding(After(cap, first, never, calls).value.peer.send, d)|
  }

  /** On a closed session a blocking send and a reply drop their data; and a message may be put
      into a slot that is still taken. */
  ghost predicate Throws<S, R>(s: Shared<S, R>, call: Call<S, R>)
    requires s.peer.cap > 0 && Owned(s, call)
  {
    || (s.closed && (call.BlockingSend? || call.ReplyWith? || call.ReplyStayLocked?))
    || (PeerOp(s, call).Some? && Overwrites(s.peer, PeerOp(s, call).value))
  }

  ghost function ThrownData<S, R>(s: Shared<S, R>, call: Call<S, R>): S
    requires s.peer.cap > 0 && Owned(s, call) && Throws(s, call)
  {
    if PeerOp(s, call).None? then call.data else s.peer.send[s.peer.nextSend - s.peer.cap].msg.data
  }

  /** An open session puts the data of a call into the window, or the caller keeps it. */
  lemma SentOrKept<S, R>(s: Shared<S, R>, call: Call<S, R>)
    requires s.peer.cap > 0 && GuardsOk(s) && Owned(s, call) && PeerOp(s, call).Some?
    ensures var e := Apply(s.peer, PeerOp(s, call).value);
      && (e.sent.Some? ==> GivesData(call) && e.sent.value.data == call.data)
      && HandedBack(s, call) == Returned(e.outcome)
           + if GivesData(call) && e.sent.None? then multiset{call.data} else multiset{}
  {
    hide Apply, Returned, GuardsOk;
    var op := PeerOp(s, call).value;
    if call.ReplyWith? || call.ReplyStayLocked? {
      ForgetHolders(s, call.id);
      ReplySends(s.peer, op);
    } else {
      SendsOnlyGiven(s.peer, op);
    }
  }

  lemma ReplySends<S, R>(p: Peer<S, R>, op: Op<S, R>)
    requires p.cap > 0 && op.DoReply? && op.replyNo in p.replies
    ensures Apply(p, op).sent == Some(Message(Some(op.replyNo), op.seqCst, op.data))
  {
    hide Insert;
  }

  lemma SendsOnlyGiven<S, R>(p: Peer<S, R>, op: Op<S, R>)
    requires p.cap > 0 && !op.DoReply?
    ensures Apply(p, op).sent.Some? ==> op.DoSend? && Apply(p, op).sent.value.data == op.data
  {
    hide Receive, Pump, Fullness, Insert, Service;
  }

  /** What one call does to the account of `d`. */
  ghost function CallLeak<S, R>(s: Shared<S, R>, call: Call<S, R>, d: S): int
    requires s.peer.cap > 0 && Owned(s, call)
  {
    Gives(call)[d] - HandedBack(s, call)[d] + |Holding(s.peer.send, d)| - |Holding(Perform(s, call).peer.send, d)|
  }

  lemma EngineCallLeaks<S, R>(s: Shared<S, R>, call: Call<S, R>, d: S)
    requires PeerOk(s.peer) && GuardsOk(s) && Owned(s, call) && PeerOp(s, call).Some?
    ensures CallLeak(s, call, d) == Leak(s.peer, PeerOp(s, call).value, d)
  {
    hide Apply, Perform, Holding, Bounded, GuardsOk, Returned, HandedBack, Owned, PeerOp;
    PerformIsProtocol(s, call);
    SentOrKept(s, call);
  }

  lemma IdleCallLeaks<S, R>(s: Shared<S, R>, call: Call<S, R>, d: S)
    requires s.peer.cap > 0 && Owned(s, call) && PeerOp(s, call).None?
    ensures CallLeak(s, call, d) == One(Throws(s, call) && ThrownData(s, call) == d)
  {
    hide Apply, Perform, Holding, Overwrites, Returned;
    PerformIsProtocol(s, call);
  }

  lemma CallLeaks<S, R>(s: Shared<S, R>, call: Call<S, R>, d: S)
    requires PeerOk(s.peer) && GuardsOk(s) && Owned(s, call)
    ensures CallLeak(s, call, d) == One(Throws(s, call) && ThrownData(s, call) == d)
  {
    hide Overwrites, Bounded, GuardsOk, CallLeak, Leak;
    if PeerOp(s, call).Some? {
      LeakIs(s.peer, PeerOp(s, call).value, d);
      EngineCallLeaks(s, call, d);
    } else {
      IdleCallLeaks(s, call, d);
    }
  }

  /** Call k of the run loses data. */
  ghost predicate ThrowsAt<S, R>(cap: int, first: int, never: int, calls: seq<Call<S, R>>, k: int)
    requires cap >= 2 && 0 <= k < |calls|
  {
    var s := After(cap, first, never, calls[..k]);
    s.Some? && Owned(s.value, calls[k]) && Throws(s.value, calls[k])
  }

  ghost predicate NeverThrows<S, R>(cap: int, first: int, never: int, calls: seq<Call<S, R>>)
    requires cap >= 2
  {
    forall k :: 0 <= k < |calls| ==> !ThrowsAt(cap, first, never, calls, k)
  }

  lemma NeverThrowsSnoc<S, R>(cap: int, first: int, never: int, calls: seq<Call<S, R>>)
    requires cap >= 2 && calls != []
    ensures var l := |calls| - 1;
      NeverThrows(cap, first, never, calls) <==>
        NeverThrows(cap, first, never, calls[..l]) && !ThrowsAt(cap, first, never, calls, l)
  {
    hide After, Throws, Owned;
    var pre := calls[..|calls| - 1];
    forall k | 0 <= k < |pre|
      ensures ThrowsAt(cap, first, never, calls, k) <==> ThrowsAt(cap, first, never, pre, k)
    {
      assert calls[..k] == pre[..k];
    }
  }

  lemma NothingYet<S, R>(cap: int, first: int, never: int, d: S)
    requires cap >= 2
    ensures Unaccounted<S, R>(cap, first, never, [], d) == 0
  {
    assert Holding(Opened<S, R>(cap, first, never).peer.send, d) == {};
  }

  lemma UnaccountedStep<S, R>(cap: int, first: int, never: int, calls: seq<Call<S, R>>, d: S)
    requires cap >= 2 && calls != [] && After(cap, first, never, calls).Some?
    ensures var l := |calls| - 1;
      var s := After(cap, first, never, calls[..l]).value;
      Unaccounted(cap, first, never, calls, d)
      == Unaccounted(cap, first, never, calls[..l], d) + One(Throws(s, calls[l]) && ThrownData(s, calls[l]) == d)
  {
    hide Perform, Owned, HandedBack, Throws, ThrownData, Holding;
    var l := |calls| - 1;
    CriticalSection(cap, first, never, calls[..l]);
    CallLeaks(After(cap, first, never, calls[..l]).value, calls[l], d);
  }

  /** Whatever arrives and whichever way the threads interleave: all data given to sends and
      replies is accounted for exactly when no call replies on a closed session, none waits on
      one to send, and none puts a message into a taken slot. */
  lemma {:induction false} AllDataKeptIff<S(!new), R>(cap: int, first: int, never: int, calls: seq<Call<S, R>>)
    requires cap >= 2 && After(cap, first, never, calls).Some?
    ensures (forall d :: Unaccounted(cap, first, never, calls, d) == 0) <==> NeverThrows(cap, first, never, calls)
    ensures forall d :: Unaccounted(cap, first, never, calls, d) >= 0
  {
    hide Perform, Owned, Unaccounted, Throws, ThrownData;
    if calls == [] {
      forall d ensures Unaccounted(cap, first, never, calls, d) == 0 {
        NothingYet<S, R>(cap, first, never, d);
      }
    } else {
      var l := |calls| - 1;
      var pre, call := calls[..l], calls[l];
      AllDataKeptIff(cap, first, never, pre);
      NeverThrowsSnoc(cap, first, never, calls);
      var s := After(cap, first, never, pre).value;
      forall d
        ensures Unaccounted(cap, first, never, calls, d)
                == Unaccounted(cap, first, never, pre, d) + One(Throws(s, call) && ThrownData(s, call) == d)
      {
        UnaccountedStep(cap, first, never, calls, d);
      }
      if Throws(s, call) {
        assert Unaccounted(cap, first, never, calls, ThrownData(s, call)) > 0;
      }
    }
  }

  // ---- The losses on a closed session happen ----

  lemma AfterOneMore<S, R>(cap: int, first: int, never: int, calls: seq<Call<S, R>>, call: Call<S, R>)
    requires cap >= 2 && After(cap, first, never, calls).Some? && Owned(After(cap, first, never, calls).value, call)
    ensures var s := After(cap, first, never, calls).value;
      After(cap, first, never, calls + [call]) == Some(Perform(s, call))
  {
    hide Perform, Owned;
    assert (calls + [call])[..|calls|] == calls;
  }

  lemma LastCallThrows<S(!new), R>(cap: int, first: int, never: int, calls: seq<Call<S, R>>)
    requires cap >= 2 && calls != [] && After(cap, first, never, calls).Some?
    requires ThrowsAt(cap, first, never, calls, |calls| - 1)
    ensures var l := |calls| - 1;
      Unaccounted(cap, first, never, calls, ThrownData(After(cap, first, never, calls[..l]).value, calls[l])) > 0
  {
    hide Perform, Owned, Unaccounted, Throws, ThrownData;
    var l := |calls| - 1;
    AllDataKeptIff(cap, first, never, calls[..l]);
    UnaccountedStep(cap, first, never, calls, ThrownData(After(cap, first, never, calls[..l]).value, calls[l]));
  }

  /** A blocking send on a closed session loses its data. */
  lemma ClosedSendLoses<S(!new), R>(d: S)
    ensures var calls: seq<Call<S, R>> := [Close, BlockingSend(0, false, d)];
      After(4, 0, 1, calls).Some? && Unaccounted(4, 0, 1, calls, d) > 0
  {
    var none: seq<Call<S, R>> := [];
    var calls: seq<Call<S, R>> := [Close, BlockingSend(0, false, d)];
    AfterOneMore(4, 0, 1, none, Close);
    AfterOneMore(4, 0, 1, none + [Close], BlockingSend(0, false, d));
    assert none + [Close] == calls[..1] && calls[..1] + [BlockingSend(0, false, d)] == calls;
    hide After, Unaccounted, NeverThrows;
    LastCallThrows(4, 0, 1, calls);
  }

  /** So does the reply of a guard that was handed out before the session was closed. */
  lemma ClosedReplyLoses<S(!new), R>(d: S, e: R)
    ensures var calls: seq<Call<S, R>> :=
        [TryReceive(Data(0, Message(None, false, e))), Close, ReplyWith(0, 0, false, d)];
      After(4, 0, 1, calls).Some? && Unaccounted(4, 0, 1, calls, d) > 0
  {
    var none: seq<Call<S, R>> := [];
    var arrive: Call<S, R> := TryReceive(Data(0, Message(None, false, e)));
    var calls: seq<Call<S, R>> := [arrive, Close, ReplyWith(0, 0, false, d)];
    FirstGuard<S, R>(e);
    hide Perform;
    AfterOneMore(4, 0, 1, none, arrive);
    AfterOneMore(4, 0, 1, none + [arrive], Close);
    assert none + [arrive] + [Close] == calls[..2];
    CloseKeepsGuards(After(4, 0, 1, none + [arrive]).value);
    AfterOneMore(4, 0, 1, calls[..2], ReplyWith(0, 0, false, d));
    assert calls[..2] + [ReplyWith(0, 0, false, d)] == calls;
    hide After, Unaccounted, NeverThrows;
    LastCallThrows(4, 0, 1, calls);
  }

  lemma FirstGuard<S, R>(e: R)
    ensures var call: Call<S, R> := TryReceive(Data(0, Message(None, false, e)));
      0 in Perform(Opened<S, R>(4, 0, 1), call).guards
  {
    assert !Blocked(Initial<S, R>(4, 0, 1), 0, None);
  }

  lemma CloseKeepsGuards<S, R>(s: Shared<S, R>)
    requires s.peer.cap > 0
    ensures Perform(s, Close) == s.(closed := true)
  {
  }
}
