/** Two peers that are both driven through guards, by any threads: every such session is a run of
    two peers as in Exchange, and a run of guard calls at either end. */
module Sessions {
  import opened SeqNumbers
  import opened Protocol
  import opened PeerInvariants
  import opened History
  import opened Conservation
  import opened TwoPeers
  import opened Exchange
  import opened Guards
  import opened GuardRuns
  import opened Fidelity
  import Delivering
  import Engine

  datatype Turn<D> = CallA(call: Call<D, D>) | CallB(call: Call<D, D>)

  /** The calls of one side. */
  ghost function CallsOf<D>(turns: seq<Turn<D>>, atA: bool): seq<Call<D, D>> {
    if turns == [] then []
    else
      var pre, turn := turns[..|turns| - 1], turns[|turns| - 1];
      CallsOf(pre, atA) + if turn.CallA? == atA then [turn.call] else []
  }

  /** The peer that these calls drive, with its history. */
  ghost function NodeOf<D>(cap: int, first: int, never: int, calls: seq<Call<D, D>>): (x: Node<D, D>)
    requires cap >= 2
    ensures PeerOk(x.peer)
  {
    Delivering.Run(cap, first, never, Ops(cap, first, never, calls))
  }

  /** A thread calls on what it owns, and a packet that arrives is one the other side sent, and
      not one that would be delivered a second time. */
  ghost predicate MayCall<D>(cap: int, first: int, never: int, mine: seq<Call<D, D>>, theirs: seq<Call<D, D>>,
                             call: Call<D, D>)
    requires cap >= 2
  {
    var s := After(cap, first, never, mine);
    && s.Some? && Owned(s.value, call)
    && (PeerOp(s.value, call).Some? ==>
         Enabled(NodeOf(cap, first, never, mine), NodeOf(cap, first, never, theirs), PeerOp(s.value, call).value))
  }

  ghost predicate IsSession<D>(cap: int, first: int, never: int, turns: seq<Turn<D>>)
    requires cap >= 2
  {
    turns == []
    || (var pre, turn := turns[..|turns| - 1], turns[|turns| - 1];
        && IsSession(cap, first, never, pre)
        && MayCall(cap, first, never, CallsOf(pre, turn.CallA?), CallsOf(pre, !turn.CallA?), turn.call))
  }

  // ---- One call ----

  lemma NodeStep<D>(cap: int, first: int, never: int, calls: seq<Call<D, D>>, call: Call<D, D>)
    requires cap >= 2 && After(cap, first, never, calls).Some? && Owned(After(cap, first, never, calls).value, call)
    ensures var s, x := After(cap, first, never, calls).value, NodeOf(cap, first, never, calls);
      NodeOf(cap, first, never, calls + [call])
      == if PeerOp(s, call).Some? then Record(x, PeerOp(s, call).value) else x
  {
    hide Record, Perform, Owned, PeerOp;
    var s, ops := After(cap, first, never, calls).value, Ops(cap, first, never, calls);
    assert (calls + [call])[..|calls|] == calls;
    if PeerOp(s, call).Some? {
      var op := PeerOp(s, call).value;
      assert Ops(cap, first, never, calls + [call]) == ops + [op];
      assert (ops + [op])[..|ops|] == ops;
    } else {
      assert Ops(cap, first, never, calls + [call]) == ops;
    }
  }

  /** What one call leads to. */
  ghost predicate Matched<D(!new)>(cap: int, first: int, never: int, mine: seq<Call<D, D>>, theirs: seq<Call<D, D>>)
    requires cap >= 2
  {
    && After(cap, first, never, mine).Some? && After(cap, first, never, theirs).Some?
    && Reachable(NodeOf(cap, first, never, mine), NodeOf(cap, first, never, theirs))
  }

  lemma MatchedStep<D(!new)>(cap: int, first: int, never: int, mine: seq<Call<D, D>>, theirs: seq<Call<D, D>>,
                             call: Call<D, D>)
    requires cap >= 2 && Matched(cap, first, never, mine, theirs) && MayCall(cap, first, never, mine, theirs, call)
    ensures Matched(cap, first, never, mine + [call], theirs)
  {
    hide Record, Perform, Owned, PeerOp, NodeOf, After, Enabled, Reachable;
    var s := After(cap, first, never, mine).value;
    AfterOneMore(cap, first, never, mine, call);
    NodeStep(cap, first, never, mine, call);
    if PeerOp(s, call).Some? {
      ReachableStep(NodeOf(cap, first, never, mine), NodeOf(cap, first, never, theirs), PeerOp(s, call).value);
    }
  }

  lemma MatchedSymmetric<D(!new)>(cap: int, first: int, never: int, mine: seq<Call<D, D>>, theirs: seq<Call<D, D>>)
    requires cap >= 2 && Matched(cap, first, never, mine, theirs)
    ensures Matched(cap, first, never, theirs, mine)
  {
    hide Reachable, NodeOf, After;
    ReachableSymmetric(NodeOf(cap, first, never, mine), NodeOf(cap, first, never, theirs));
  }

  /** Every session is, at either end, a run of guard calls, and between the ends a run of two
      peers: all that is proved about those holds of it. */
  lemma {:induction false} SessionIsExchange<D(!new)>(cap: int, first: int, never: int, turns: seq<Turn<D>>, atA: bool)
    requires cap >= 2 && IsSession(cap, first, never, turns)
    ensures Matched(cap, first, never, CallsOf(turns, atA), CallsOf(turns, !atA))
  {
    hide Matched, MayCall;
    if turns == [] {
      NewSession<D>(cap, first, never);
    } else {
      var pre, turn := turns[..|turns| - 1], turns[|turns| - 1];
      var mine, theirs := CallsOf(pre, turn.CallA?), CallsOf(pre, !turn.CallA?);
      SessionIsExchange(cap, first, never, pre, turn.CallA?);
      MatchedStep(cap, first, never, mine, theirs, turn.call);
      MatchedSymmetric(cap, first, never, mine + [turn.call], theirs);
      assert theirs + [] == theirs;
    }
  }

  lemma NewSession<D(!new)>(cap: int, first: int, never: int)
    requires cap >= 2
    ensures Matched<D>(cap, first, never, [], [])
  {
    hide Reachable;
    ReachableStart<D>(cap, first, never);
    assert NodeOf<D>(cap, first, never, []) == Start(cap, first, never);
  }

  // ---- Where the data goes ----

  /** A call that replies, or blocks to send, after the session was closed. */
  ghost predicate CallsTooLate<D>(calls: seq<Call<D, D>>, k: int)
    requires 0 <= k < |calls|
  {
    (calls[k].BlockingSend? || calls[k].ReplyWith? || calls[k].ReplyStayLocked?) && Closes(calls[..k])
  }

  ghost predicate Closes<D>(calls: seq<Call<D, D>>) { exists j :: 0 <= j < |calls| && calls[j].Close? }

  lemma {:induction false} ClosedIff<D>(cap: int, first: int, never: int, calls: seq<Call<D, D>>)
    requires cap >= 2 && After(cap, first, never, calls).Some?
    ensures After(cap, first, never, calls).value.closed <==> Closes(calls)
  {
    if calls == [] {
    } else {
      var pre, call := calls[..|calls| - 1], calls[|calls| - 1];
      ClosedIff(cap, first, never, pre);
      ClosesOneMore(pre, call);
      assert calls == pre + [call];
      PerformCloses(After(cap, first, never, pre).value, call);
    }
  }

  lemma ClosesOneMore<D>(calls: seq<Call<D, D>>, call: Call<D, D>)
    ensures Closes(calls + [call]) <==> Closes(calls) || call.Close?
  {
    if j :| 0 <= j < |calls| && calls[j].Close? { assert (calls + [call])[j].Close?; }
    assert (calls + [call])[|calls|] == call;
  }

  lemma PerformCloses<S, R>(s: Shared<S, R>, call: Call<S, R>)
    requires s.peer.cap > 0 && Owned(s, call)
    ensures Perform(s, call).closed <==> s.closed || call.Close?
  {
    hide Receive, Pump, TrySend, Service, ReplyTo, AckTo;
  }

  /** Data is lost by the calls that come too late, and no others. */
  ghost predicate LosesOnlyLate<D>(cap: int, first: int, never: int, calls: seq<Call<D, D>>)
    requires cap >= 2
  {
    forall k :: 0 <= k < |calls| ==> (ThrowsAt(cap, first, never, calls, k) <==> CallsTooLate(calls, k))
  }

  lemma LateStep<D(!new)>(cap: int, first: int, never: int, mine: seq<Call<D, D>>, theirs: seq<Call<D, D>>,
                          call: Call<D, D>)
    requires cap >= 2 && Matched(cap, first, never, mine, theirs) && MayCall(cap, first, never, mine, theirs, call)
    requires LosesOnlyLate(cap, first, never, mine)
    ensures LosesOnlyLate(cap, first, never, mine + [call])
  {
    hide After, Owned, Throws, Matched, MayCall, Closes;
    var calls := mine + [call];
    LastLate(cap, first, never, mine, theirs, call);
    forall k | 0 <= k < |calls|
      ensures ThrowsAt(cap, first, never, calls, k) <==> CallsTooLate(calls, k)
    {
      if k < |mine| {
        assert calls[..k] == mine[..k];
        assert ThrowsAt(cap, first, never, mine, k) <==> CallsTooLate(mine, k);
      }
    }
  }

  lemma LastLate<D(!new)>(cap: int, first: int, never: int, mine: seq<Call<D, D>>, theirs: seq<Call<D, D>>,
                          call: Call<D, D>)
    requires cap >= 2 && Matched(cap, first, never, mine, theirs) && MayCall(cap, first, never, mine, theirs, call)
    ensures var calls := mine + [call];
      ThrowsAt(cap, first, never, calls, |mine|) <==> CallsTooLate(calls, |mine|)
  {
    hide Reachable, NodeOf, After, Owned, Throws, Closes;
    assert (mine + [call])[..|mine|] == mine;
    ClosedIff(cap, first, never, mine);
    RunOfCalls(cap, first, never, mine);
    NodeRuns(cap, first, never, mine);
    ThrowsWhenClosed(After(cap, first, never, mine).value, NodeOf(cap, first, never, mine),
                     NodeOf(cap, first, never, theirs), call);
  }

  lemma NodeRuns<D>(cap: int, first: int, never: int, calls: seq<Call<D, D>>)
    requires cap >= 2
    ensures NodeOf(cap, first, never, calls) == Delivering.Run(cap, first, never, Ops(cap, first, never, calls))
  {
  }

  lemma ThrowsWhenClosed<D(!new)>(s: Shared<D, D>, x: Node<D, D>, y: Node<D, D>, call: Call<D, D>)
    requires Reachable(x, y) && s.peer == x.peer && s.peer.cap > 0 && Owned(s, call)
    ensures Throws(s, call) <==> s.closed && (call.BlockingSend? || call.ReplyWith? || call.ReplyStayLocked?)
  {
    hide Reachable, PeerOp, Owned, Overwrites;
    ReachableIsOk(x, y);
    if PeerOp(s, call).Some? { NeverOverwrites(x, PeerOp(s, call).value); }
  }

  lemma ReachableIsOk<D(!new)>(x: Node<D, D>, y: Node<D, D>)
    requires Reachable(x, y)
    ensures NodeOk(x)
  {
    ReachableGood(x, y);
  }

  lemma {:induction false} SessionLoses<D(!new)>(cap: int, first: int, never: int, turns: seq<Turn<D>>, atA: bool)
    requires cap >= 2 && IsSession(cap, first, never, turns)
    ensures LosesOnlyLate(cap, first, never, CallsOf(turns, atA))
  {
    hide Matched, MayCall, ThrowsAt, CallsTooLate;
    if turns == [] {
    } else {
      var pre, turn := turns[..|turns| - 1], turns[|turns| - 1];
      SessionLoses(cap, first, never, pre, atA);
      if turn.CallA? == atA {
        SessionIsExchange(cap, first, never, pre, atA);
        LateStep(cap, first, never, CallsOf(pre, atA), CallsOf(pre, !atA), turn.call);
      } else {
        assert CallsOf(turns, atA) == CallsOf(pre, atA);
      }
    }
  }

  /** At either end all data given to sends and replies is accounted for, exactly as long as no
      call replies, or blocks to send, after that end was closed. */
  lemma SessionKeepsDataIff<D(!new)>(cap: int, first: int, never: int, turns: seq<Turn<D>>, atA: bool)
    requires cap >= 2 && IsSession(cap, first, never, turns)
    ensures var calls := CallsOf(turns, atA);
      && After(cap, first, never, calls).Some?
      && ((forall d :: Unaccounted(cap, first, never, calls, d) == 0)
          <==> forall k :: 0 <= k < |calls| ==> !CallsTooLate(calls, k))
  {
    hide IsSession, Reachable, NodeOf, After, ThrowsAt, CallsTooLate, Unaccounted;
    var calls := CallsOf(turns, atA);
    SessionIsExchange(cap, first, never, turns, atA);
    SessionLoses(cap, first, never, turns, atA);
    AllDataKeptIff(cap, first, never, calls);
  }

  // ---- 32-bit numbers ----

  /** In every session the live guards have different 32-bit numbers, all near the receive
      counter, and a stored reply number is read back as it was sent. */
  lemma SessionInReach<D(!new)>(cap: int, first: int, never: int, turns: seq<Turn<D>>, atA: bool, i: int, j: int)
    requires GoodCap(cap) && IsSession(cap, first, never, turns)
    ensures var calls := CallsOf(turns, atA);
      && After(cap, first, never, calls).Some?
      && var s := After(cap, first, never, calls).value;
      && Engine.Reread(s.peer) == s.peer
      && (i in s.guards ==> Lift(Wrap(s.guards[i].replyNo), s.peer.nextRecv) == s.guards[i].replyNo)
      && (i in s.guards && j in s.guards && i != j ==> Wrap(s.guards[i].replyNo) != Wrap(s.guards[j].replyNo))
  {
    hide IsSession, After, Reachable, NodeOf, Lift, Wrap, Engine.Reread, GuardsOk, CallsOf;
    var mine, theirs := CallsOf(turns, atA), CallsOf(turns, !atA);
    SessionIsExchange(cap, first, never, turns, atA);
    CriticalSection(cap, first, never, mine);
    RunOfCalls(cap, first, never, mine);
    NodeRuns(cap, first, never, mine);
    CallsKeepCap(cap, first, never, mine);
    GuardsApart(After(cap, first, never, mine).value, NodeOf(cap, first, never, mine),
                NodeOf(cap, first, never, theirs), i, j);
  }

  lemma {:induction false} CallsKeepCap<S, R>(cap: int, first: int, never: int, calls: seq<Call<S, R>>)
    requires cap >= 2 && After(cap, first, never, calls).Some?
    ensures After(cap, first, never, calls).value.peer.cap == cap
  {
    hide Apply, Perform, Owned, PeerOp;
    if calls == [] {
    } else {
      var pre, call := calls[..|calls| - 1], calls[|calls| - 1];
      CallsKeepCap(cap, first, never, pre);
      var s := After(cap, first, never, pre).value;
      PerformIsProtocol(s, call);
      if PeerOp(s, call).Some? { ApplyKeeps(s.peer, PeerOp(s, call).value); }
    }
  }

  lemma GuardsApart<D(!new)>(s: Shared<D, D>, x: Node<D, D>, y: Node<D, D>, i: int, j: int)
    requires Reachable(x, y) && GoodCap(x.peer.cap) && GuardsOk(s) && s.peer == x.peer
    ensures Engine.Reread(s.peer) == s.peer
    ensures i in s.guards ==> Lift(Wrap(s.guards[i].replyNo), s.peer.nextRecv) == s.guards[i].replyNo
    ensures i in s.guards && j in s.guards && i != j ==> Wrap(s.guards[i].replyNo) != Wrap(s.guards[j].replyNo)
  {
    hide Reachable, Lift, Wrap;
    EngineContractHolds(x, y, 0, x.peer.nextRecv);
    Engine.SeqEx<D, D>.RereadInReach(x.peer);
    if i in s.guards { GuardInReach(s, x, y, i); }
    if j in s.guards { GuardInReach(s, x, y, j); }
    if i in s.guards && j in s.guards && i != j { OneGuardEach(s, x, y, i, j); }
  }

  lemma GuardInReach<D(!new)>(s: Shared<D, D>, x: Node<D, D>, y: Node<D, D>, i: int)
    requires Reachable(x, y) && GoodCap(x.peer.cap) && GuardsOk(s) && s.peer == x.peer && i in s.guards
    ensures Lift(Wrap(s.guards[i].replyNo), s.peer.nextRecv) == s.guards[i].replyNo
  {
    hide Reachable;
    ForgetHolders(s, i);
    EngineContractHolds(x, y, s.guards[i].replyNo, 0);
    LiftOfWrap(s.guards[i].replyNo, x.peer.nextRecv);
  }

  lemma OneGuardEach<D(!new)>(s: Shared<D, D>, x: Node<D, D>, y: Node<D, D>, i: int, j: int)
    requires Reachable(x, y) && GuardsOk(s) && s.peer == x.peer && i in s.guards && j in s.guards && i != j
    ensures s.guards[i].replyNo != s.guards[j].replyNo
  {
    ReachableIsOk(x, y);
    var r := s.guards[i].replyNo;
    if s.guards[j].replyNo == r {
      assert {i, j} <= Owing(s, r);
      TwoAtLeast(Owing(s, r), i, j);
    }
  }

  lemma TwoAtLeast(h: set<int>, i: int, j: int)
    requires i in h && j in h && i != j
    ensures |h| >= 2
  {
    assert |h - {i} - {j}| == |h| - 2;
  }
}
