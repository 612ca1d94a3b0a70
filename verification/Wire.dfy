/** Two engines that exchange 32-bit packets: every run of theirs is a run of two peers on
    unbounded numbers, so what is proved about those holds of the engines. */
module Wire {
  import opened SeqNumbers
  import opened PeerInvariants
  import opened Rings
  import opened History
  import opened TwoPeers
  import opened Exchange
  import opened Engine
  import opened Fidelity
  import Delivering
  import SingleThread
  import P = Protocol

  /** What can happen to one engine. An arriving packet is named by the packet on unbounded
      numbers that was sent; the engine sees only its 32-bit image. */
  datatype Act<D> =
    | Send(resendAt: int, seqCst: bool, data: D)
    | Arrive(frame: P.Frame<D>)
    | Pump
    | Answer(resendAt: int, replyNo: SeqNo, unlock: bool, seqCst: bool, data: D)
    | Acknowledge(replyNo: SeqNo, unlock: bool)
    | Release
    | Resend(now: int, resendAt: int)

  /** The operation it amounts to, when 32-bit numbers are read near the counters. */
  ghost function Meant<D>(p: P.Peer<D, D>, act: Act<D>): P.Op<D, D> {
    match act
    case Send(at, cst, data) => P.DoSend(at, cst, data)
    case Arrive(frame) => P.DoReceive(frame)
    case Pump => P.DoPumpOnce
    case Answer(at, r, unlock, cst, data) => P.DoReply(at, Lift(r, p.nextRecv), unlock, cst, data)
    case Acknowledge(r, unlock) => P.DoAck(Lift(r, p.nextRecv), unlock)
    case Release => P.DoUnlock
    case Resend(now, at) => P.DoService(now, at, I64_MAX)
  }

  /** What the engine does: its new state, the packets it sends, each as the unbounded packet
      whose image it is, and what it tells the application. */
  datatype Done<D(==)> = Done(
    peer: P.Peer<D, D>,
    emitted: set<P.Frame<D>>,
    outcome: Option<P.Outcome<SeqNo, D, D>>)

  ghost predicate AsksForAck<N, S, R>(out: P.Outcome<N, S, R>) {
    out.Refused? && out.error.DroppedDuplicateResendAck?
  }

  /** The application never sees that an ack was repeated. */
  ghost function Told<N, S, R>(out: P.Outcome<N, S, R>): P.Outcome<N, S, R> {
    if AsksForAck(out) then P.Refused(P.DroppedDuplicate) else out
  }

  ghost function Wired<D>(p: P.Peer<D, D>, act: Act<D>): Done<D>
    requires p.cap > 0
  {
    match act
    case Arrive(frame) =>
      var back := LiftPacket(WrapFrame(frame), p.nextSend, p.nextRecv);
      var out := ReceiveOutcome(p, back);
      Done(P.Receive(p, back).0,
           if AsksForAck(out) then {P.Ack(Lift(out.error.seqNo, p.nextRecv))} else {},
           P.Some(Told(out)))
    case Pump =>
      var (q, out) := P.Pump(Reread(p));
      Done(q, {}, P.Some(WrapOutcome(out)))
    case _ =>
      var e := P.Apply(p, Meant(p, act));
      Done(e.peer, e.emitted, P.None)
  }

  // ---- The class does this ----

  ghost function Images<D>(fs: set<P.Frame<D>>): set<Packet<D>> { set f | f in fs :: WrapFrame(f) }

  ghost predicate OnTime<D>(act: Act<D>, interval: int) {
    && (act.Send? || act.Answer? || act.Resend? ==> act.resendAt <= I64_MAX)
    && (act.Resend? ==> act.resendAt == act.now + interval)
  }

  lemma OneImage<D>(sent: Option<Packet<D>>, fs: set<P.Frame<D>>, f: P.Frame<D>)
    requires if sent.Some? then fs == {f} && sent.value == WrapFrame(f) else fs == {}
    ensures Images(fs) == if sent.Some? then {sent.value} else {}
  {
  }

  /** A repeated ack carries the number of the packet that arrived. */
  lemma ArriveImages<D>(p: P.Peer<D, D>, frame: P.Frame<D>, sent: Option<Packet<D>>)
    requires p.cap > 0
    requires var packet := WrapFrame(frame);
      sent == if AsksForAck(ReceiveOutcome(p, LiftPacket(packet, p.nextSend, p.nextRecv)))
              then P.Some(Packet<D>.Ack(if packet.Ack? then 0 else packet.seqNo)) else P.None
    ensures Images(Wired(p, Arrive(frame)).emitted) == if sent.Some? then {sent.value} else {}
  {
    hide Lift, Wrap, AliasPending;
    var packet := WrapFrame(frame);
    var back := LiftPacket(packet, p.nextSend, p.nextRecv);
    if sent.Some? {
      AskedFor(p, back);
      WrapOfLift(packet.seqNo, p.nextRecv);
      OneImage(sent, Wired(p, Arrive(frame)).emitted, P.Ack(Lift(packet.seqNo, p.nextRecv)));
    }
  }

  lemma AskedFor<D>(p: P.Peer<D, D>, frame: P.Frame<D>)
    requires p.cap > 0 && AsksForAck(ReceiveOutcome(p, frame))
    ensures frame.Data? && ReceiveOutcome(p, frame).error.seqNo == Wrap(frame.seqNo)
  {
    hide Wrap, AliasPending;
  }

  lemma ServiceImages<D>(p: P.Peer<D, D>, now: int, at: int, ks: seq<int>, sent: seq<Packet<D>>)
    requires p.cap > 0 && |sent| == |ks|
    requires forall k :: k in ks <==> p.nextService <= now && P.Due(p.send, k, now)
    requires forall i :: 0 <= i < |ks| ==> ks[i] in p.send && sent[i] == WrapFrame(P.Data(ks[i], p.send[ks[i]].msg))
    ensures (set q | q in sent) == Images(P.Apply(p, P.DoService(now, at, I64_MAX)).emitted)
  {
    hide WrapFrame, P.Service;
    var fs := P.Apply(p, P.DoService(now, at, I64_MAX)).emitted;
    forall q | q in sent
      ensures q in Images(fs)
    {
      var i :| 0 <= i < |sent| && sent[i] == q;
      assert ks[i] in ks && P.Data(ks[i], p.send[ks[i]].msg) in fs;
    }
    forall f | f in fs
      ensures WrapFrame(f) in sent
    {
      assert f.seqNo in ks;
      var i :| 0 <= i < |ks| && ks[i] == f.seqNo;
      assert sent[i] == WrapFrame(f);
    }
  }

  ghost predicate Does<D>(p: P.Peer<D, D>, act: Act<D>, q: P.Peer<D, D>, sent: seq<Packet<D>>,
                          out: Option<P.Outcome<SeqNo, D, D>>)
    requires p.cap > 0
  {
    var done := Wired(p, act);
    q == done.peer && (set packet | packet in sent) == Images(done.emitted) && out == done.outcome
  }

  function AsSeq<D>(packet: Option<Packet<D>>): seq<Packet<D>> {
    if packet.Some? then [packet.value] else []
  }

  method DriveSend<D>(e: SeqEx<D, D>, resendAt: int, seqCst: bool, data: D) returns (sent: seq<Packet<D>>)
    requires e.Valid() && resendAt <= I64_MAX
    modifies e, e.sendWindow
    ensures e.Valid() && e.resendInterval == old(e.resendInterval)
    ensures Does(old(e.model), Send(resendAt, seqCst, data), e.model, sent, P.None)
  {
    hide SendRing, RecvRing, ReplyTable, Wrap, P.Insert, P.Fullness, WrapFrame;
    ghost var p := e.model;
    var r := e.TrySendDirect(resendAt - e.resendInterval, seqCst, data);
    var packet: Option<Packet<D>> := if r.Sent? then P.Some(r.packet) else P.None;
    OneImage(packet, Wired(p, Send(resendAt, seqCst, data)).emitted,
             P.Data(p.nextSend, P.Message(P.None, seqCst, data)));
    sent := AsSeq(packet);
  }

  method DriveArrive<D>(e: SeqEx<D, D>, frame: P.Frame<D>)
    returns (sent: seq<Packet<D>>, out: Option<P.Outcome<SeqNo, D, D>>)
    requires e.Valid()
    modifies e, e.sendWindow, e.recvWindow, e.concurrentReplies
    ensures e.Valid() && e.resendInterval == old(e.resendInterval)
    ensures Does(old(e.model), Arrive(frame), e.model, sent, out)
  {
    hide SendRing, RecvRing, ReplyTable, Wrap, Lift, P.Receive, ReceiveOutcome;
    ghost var p, back := e.model, LiftPacket(WrapFrame(frame), e.model.nextSend, e.model.nextRecv);
    if AsksForAck(ReceiveOutcome(p, back)) { AskedFor(p, back); }
    var got, packet := SingleThread.TryReceiveRaw(e, WrapFrame(frame));
    ArriveImages(p, frame, packet);
    sent, out := AsSeq(packet), P.Some(got);
  }

  method DriveAnswer<D>(e: SeqEx<D, D>, resendAt: int, replyNo: SeqNo, unlock: bool, seqCst: bool, data: D)
    returns (sent: seq<Packet<D>>)
    requires e.Valid() && e.RepliesInReach() && resendAt <= I64_MAX
    modifies e, e.sendWindow, e.concurrentReplies
    ensures e.Valid() && e.resendInterval == old(e.resendInterval)
    ensures Does(old(e.model), Answer(resendAt, replyNo, unlock, seqCst, data), e.model, sent, P.None)
  {
    hide SendRing, RecvRing, ReplyTable, Wrap, Lift, P.Insert, WrapFrame;
    ghost var p, act := e.model, Answer(resendAt, replyNo, unlock, seqCst, data);
    var packet;
    ghost var r;
    packet, r := e.ReplyRawAndDirect(resendAt - e.resendInterval, replyNo, unlock, seqCst, data, 0);
    OneImage(packet, Wired(p, act).emitted, P.Data(p.nextSend, P.Message(P.Some(r), seqCst, data)));
    sent := AsSeq(packet);
  }

  lemma AcknowledgeWired<D>(p: P.Peer<D, D>, replyNo: SeqNo, unlock: bool)
    requires p.cap > 0
    ensures var done, r := Wired(p, Acknowledge(replyNo, unlock)), Lift(replyNo, p.nextRecv);
      && done.peer == P.AckTo(p, r, unlock) && done.outcome == P.None
      && done.emitted == if r in p.replies then {P.Ack(r)} else {}
  {
    hide Lift;
  }

  method DriveAcknowledge<D>(e: SeqEx<D, D>, replyNo: SeqNo, unlock: bool) returns (sent: seq<Packet<D>>)
    requires e.Valid() && e.RepliesInReach()
    modifies e, e.concurrentReplies
    ensures e.Valid() && e.resendInterval == old(e.resendInterval)
    ensures Does(old(e.model), Acknowledge(replyNo, unlock), e.model, sent, P.None)
  {
    hide SendRing, RecvRing, ReplyTable, Wrap, Lift, PeerOk, Bounded, Wired, P.AckTo;
    ghost var p, act := e.model, Act<D>.Acknowledge(replyNo, unlock);
    AcknowledgeWired(p, replyNo, unlock);
    var packet;
    ghost var r;
    packet, r := e.AckRawAndDirect(replyNo, unlock, 0);
    OneImage(packet, Wired(p, act).emitted, P.Ack(r));
    sent := AsSeq(packet);
  }

  /** Any call on the engine has the effect above, as long as the numbers it owes replies to
      are in reach. */
  method Drive<D>(e: SeqEx<D, D>, act: Act<D>)
    returns (sent: seq<Packet<D>>, out: Option<P.Outcome<SeqNo, D, D>>)
    requires e.Valid() && e.RepliesInReach() && OnTime(act, e.resendInterval)
    modifies e, e.sendWindow, e.recvWindow, e.concurrentReplies
    ensures e.Valid() && e.resendInterval == old(e.resendInterval)
    ensures Does(old(e.model), act, e.model, sent, out)
  {
    hide SendRing, RecvRing, ReplyTable, Wrap, Lift, P.Pump, P.Receive, P.Insert, P.Fullness, P.Service, WrapFrame;
    ghost var p := e.model;
    sent, out := [], P.None;
    match act
    case Send(at, cst, data) => sent := DriveSend(e, at, cst, data);
    case Arrive(frame) => sent, out := DriveArrive(e, frame);
    case Pump =>
      var raw := e.TryPumpRaw();
      out := P.Some(raw);
    case Answer(at, r, unlock, cst, data) => sent := DriveAnswer(e, at, r, unlock, cst, data);
    case Acknowledge(r, unlock) => sent := DriveAcknowledge(e, r, unlock);
    case Release => e.Unlock();
    case Resend(now, at) =>
      var wait;
      ghost var ks;
      sent, wait, ks := SingleThread.Service(e, now);
      ServiceImages(p, now, at, ks, sent);
  }

  // ---- Two engines ----

  datatype WireNode<D(==)> = WireNode(peer: P.Peer<D, D>, flying: set<P.Frame<D>>, log: seq<(SeqNo, bool)>)

  datatype WireSystem<D(==)> = WireSystem(a: WireNode<D>, b: WireNode<D>)

  datatype Turn<D> = TurnA(act: Act<D>) | TurnB(act: Act<D>)

  ghost function Handed<D>(out: Option<P.Outcome<SeqNo, D, D>>): seq<(SeqNo, bool)> {
    if out.Some? && out.value.Delivered? && !out.value.ok.Acked? then [(out.value.ok.replyNo, out.value.ok.seqCst)]
    else []
  }

  ghost function Acts<D>(w: WireNode<D>, act: Act<D>): WireNode<D>
    requires w.peer.cap > 0
  {
    var done := Wired(w.peer, act);
    WireNode(done.peer, w.flying + done.emitted, w.log + Handed(done.outcome))
  }

  /** An arriving packet was sent by the other engine at most 2^31 numbers ago, and is not one
      that would be delivered a second time. */
  ghost predicate Timely<D>(w: WireNode<D>, v: WireNode<D>, act: Act<D>)
    requires w.peer.cap > 0
  {
    act.Arrive? ==> act.frame in v.flying && Recent(w.peer, act.frame) && !Redelivers(w.peer, act.frame)
  }

  ghost predicate IsWireStep<D>(s: WireSystem<D>, turn: Turn<D>, t: WireSystem<D>) {
    && s.a.peer.cap > 0 && s.b.peer.cap > 0
    && match turn
       case TurnA(act) => Timely(s.a, s.b, act) && t == s.(a := Acts(s.a, act))
       case TurnB(act) => Timely(s.b, s.a, act) && t == s.(b := Acts(s.b, act))
  }

  ghost function WireStart<D>(cap: int, first: int): WireNode<D> { WireNode(P.Initial(cap, first, I64_MAX), {}, []) }

  ghost predicate IsWireRun<D>(cap: int, first: int, states: seq<WireSystem<D>>, turns: seq<Turn<D>>) {
    && GoodCap(cap) && |states| == |turns| + 1
    && states[0] == WireSystem(WireStart(cap, first), WireStart(cap, first))
    && (forall i :: 0 <= i < |turns| ==> IsWireStep(states[i], turns[i], states[i + 1]))
  }

  // ---- The simulation ----

  ghost function LogImage(log: seq<Delivery>): seq<(SeqNo, bool)> {
    seq(|log|, i requires 0 <= i < |log| => (Wrap(log[i].seqNo), log[i].seqCst))
  }

  ghost predicate Matches<D>(w: WireNode<D>, x: Node<D, D>) {
    w.peer == x.peer && w.flying <= x.out && w.log == LogImage(x.log)
  }

  ghost function Seen<D>(out: Option<P.Outcome<int, D, D>>): Option<P.Outcome<SeqNo, D, D>> {
    if out.Some? then P.Some(Told(WrapOutcome(out.value))) else P.None
  }

  /** An answer to number n is pending by its 32 bits only. */
  ghost predicate OnlySeemsPending<D>(p: P.Peer<D, D>, n: int) { AliasPending(p, n) && !P.AnswerPending(p, n) }

  /** In every reachable state the engine does what the unbounded operation does, and tells the
      application the same; it may only hold back a repeated ack, when the number's 32 bits are
      those of a pending answer. */
  lemma WiredIsMeant<D(!new)>(x: Node<D, D>, y: Node<D, D>, act: Act<D>)
    requires Reachable(x, y) && GoodCap(x.peer.cap)
    requires act.Arrive? ==> Enabled(x, y, P.DoReceive(act.frame)) && Recent(x.peer, act.frame)
    ensures var done, e := Wired(x.peer, act), P.Apply(x.peer, Meant(x.peer, act));
      && done.peer == e.peer && done.outcome == Seen(e.outcome)
      && (done.emitted == e.emitted
          || (done.emitted == {} && act.Arrive? && act.frame.Data? && OnlySeemsPending(x.peer, act.frame.seqNo)))
  {
    match act
    case Arrive(frame) => ArriveIsMeant(x, y, frame);
    case Pump => PumpIsMeant(x, y);
    case _ => OthersAreMeant(x.peer, act);
  }

  lemma OthersAreMeant<D>(p: P.Peer<D, D>, act: Act<D>)
    requires p.cap > 0 && !act.Arrive? && !act.Pump?
    ensures Wired(p, act).outcome == P.Apply(p, Meant(p, act)).outcome == P.None
  {
    hide P.Fullness, P.Insert, P.Service, Lift;
  }

  lemma PumpIsMeant<D(!new)>(x: Node<D, D>, y: Node<D, D>)
    requires Reachable(x, y) && GoodCap(x.peer.cap)
    ensures Reread(x.peer) == x.peer
    ensures var done, e := Wired(x.peer, Act<D>.Pump), P.Apply(x.peer, P.DoPumpOnce);
      done.peer == e.peer && done.outcome == Seen(e.outcome) && done.emitted == e.emitted
  {
    hide P.Pump;
    PumpOutcomes(x.peer);
    EngineContractHolds(x, y, 0, x.peer.nextRecv);
    SeqEx<D, D>.RereadInReach(x.peer);
  }

  lemma ArriveIsMeant<D(!new)>(x: Node<D, D>, y: Node<D, D>, frame: P.Frame<D>)
    requires Reachable(x, y) && GoodCap(x.peer.cap)
    requires Enabled(x, y, P.DoReceive(frame)) && Recent(x.peer, frame)
    ensures var done, e := Wired(x.peer, Arrive(frame)), P.Apply(x.peer, P.DoReceive(frame));
      && done.peer == e.peer && done.outcome == Seen(e.outcome)
      && (done.emitted == e.emitted || (done.emitted == {} && frame.Data? && OnlySeemsPending(x.peer, frame.seqNo)))
  {
    hide P.Receive, Enabled, Reachable, AliasPending, P.AnswerPending, Lift, Wrap;
    var p := x.peer;
    WireFidelity(x, y, frame);
    ReAckNumber(p, frame);
    if AsksForAck(P.Receive(p, frame).1) { BackIs(p, frame); }
  }

  lemma BackIs<D>(p: P.Peer<D, D>, frame: P.Frame<D>)
    requires frame.Data? ==> p.nextRecv - HALF <= frame.seqNo < p.nextRecv
    ensures var back := LiftPacket(WrapFrame(frame), p.nextSend, p.nextRecv);
      frame.Data? ==> back.Data? && back.seqNo == Lift(Wrap(frame.seqNo), p.nextRecv) == frame.seqNo
  {
    LiftFrame(frame, p.nextSend, p.nextRecv);
    if frame.Data? { LiftOfWrap(frame.seqNo, p.nextRecv); }
  }

  lemma ReAckNumber<S, R>(p: P.Peer<S, R>, frame: P.Frame<R>)
    requires p.cap > 0
    ensures var out := P.Receive(p, frame).1;
      if frame.Data? && frame.seqNo < p.nextRecv && !P.AnswerPending(p, frame.seqNo)
      then out == P.Refused(P.DroppedDuplicateResendAck(frame.seqNo)) else !AsksForAck(out)
  {
  }

  lemma SimStep<D(!new)>(w: WireNode<D>, v: WireNode<D>, x: Node<D, D>, y: Node<D, D>, act: Act<D>)
    requires Reachable(x, y) && GoodCap(x.peer.cap) && Matches(w, x) && Matches(v, y) && Timely(w, v, act)
    ensures var op := Meant(x.peer, act);
      Enabled(x, y, op) && Reachable(Record(x, op), y) && Matches(Acts(w, act), Record(x, op))
  {
    hide Wired, P.Apply, Reachable, Booked, Answers, Redelivers, Recent;
    var op := Meant(x.peer, act);
    WiredIsMeant(x, y, act);
    ReachableStep(x, y, op);
    HandedImage<D>(P.Apply(x.peer, op).outcome);
  }

  lemma HandedImage<D>(out: Option<P.Outcome<int, D, D>>)
    ensures Handed(Seen(out)) == LogImage(Deliveries(out))
  {
    hide Wrap;
  }

  /** Every state of every run of two engines is matched by a reachable state of two peers, with
      the same windows, whose network offers at least the packets of the engines' network. */
  lemma {:induction false} WireRunIsExchange<D(!new)>(cap: int, first: int, states: seq<WireSystem<D>>,
                                                      turns: seq<Turn<D>>, i: int)
    returns (s: System<D>)
    requires IsWireRun(cap, first, states, turns) && 0 <= i <= |turns|
    ensures Reachable(s.a, s.b) && Matches(states[i].a, s.a) && Matches(states[i].b, s.b)
    ensures s.a.peer.cap == s.b.peer.cap == cap
  {
    hide Matches, Reachable, Acts, Timely, Record;
    if i == 0 {
      s := Begin(cap, first, I64_MAX);
      ReachableStart<D>(cap, first, I64_MAX);
      StartMatches<D>(cap, first);
    } else {
      var s0 := WireRunIsExchange(cap, first, states, turns, i - 1);
      assert IsWireStep(states[i - 1], turns[i - 1], states[i]);
      match turns[i - 1]
      case TurnA(act) =>
        SimStep(states[i - 1].a, states[i - 1].b, s0.a, s0.b, act);
        s := s0.(a := Record(s0.a, Meant(s0.a.peer, act)));
        CapStays(s0.a, s0.b, Meant(s0.a.peer, act));
      case TurnB(act) =>
        ReachableSymmetric(s0.a, s0.b);
        SimStep(states[i - 1].b, states[i - 1].a, s0.b, s0.a, act);
        s := s0.(b := Record(s0.b, Meant(s0.b.peer, act)));
        ReachableSymmetric(s.b, s.a);
        CapStays(s0.b, s0.a, Meant(s0.b.peer, act));
    }
  }

  lemma StartMatches<D>(cap: int, first: int)
    ensures Matches<D>(WireStart(cap, first), Start(cap, first, I64_MAX))
  {
  }

  lemma CapStays<D(!new)>(x: Node<D, D>, y: Node<D, D>, op: P.Op<D, D>)
    requires Reachable(x, y) && x.peer.cap > 0
    ensures Record(x, op).peer.cap == x.peer.cap
  {
    hide P.Apply, Record;
    ReachableGood(x, y);
    ApplyKeeps(x.peer, op);
    RecordPeer(x, op);
  }

  /** So in every state of every run the engine's calls may be made: the numbers owed and the
      stored reply numbers are in reach. */
  lemma WireRunInReach<D(!new)>(cap: int, first: int, states: seq<WireSystem<D>>, turns: seq<Turn<D>>, i: int)
    requires IsWireRun(cap, first, states, turns) && 0 <= i <= |turns|
    ensures forall p, c :: p in {states[i].a.peer, states[i].b.peer} && c in p.replies ==>
              p.nextRecv - HALF <= c < p.nextRecv + HALF
    ensures forall p :: p in {states[i].a.peer, states[i].b.peer} ==> Reread(p) == p
  {
    var s := WireRunIsExchange(cap, first, states, turns, i);
    PumpIsMeant(s.a, s.b);
    ReachableSymmetric(s.a, s.b);
    PumpIsMeant(s.b, s.a);
    forall c | c in s.a.peer.replies ensures s.a.peer.nextRecv - HALF <= c < s.a.peer.nextRecv + HALF {
      EngineContractHolds(s.a, s.b, c, 0);
    }
    forall c | c in s.b.peer.replies ensures s.b.peer.nextRecv - HALF <= c < s.b.peer.nextRecv + HALF {
      EngineContractHolds(s.b, s.a, c, 0);
    }
  }

  /** What an engine hands over is what the other engine was given to send, once; and a reply
      comes with the data of exactly the packet it answers. */
  lemma WireTopology<D(!new)>(w: WireNode<D>, v: WireNode<D>, x: Node<D, D>, y: Node<D, D>, act: Act<D>)
    returns (s: int)
    requires Reachable(x, y) && GoodCap(x.peer.cap) && Matches(w, x) && Matches(v, y) && Timely(w, v, act)
    requires Handed(Wired(w.peer, act).outcome) != []
    ensures var ok := Wired(w.peer, act).outcome.value.ok;
      && ok.replyNo == Wrap(s) && s in y.sent && ok.recvData == y.sent[s].data && ok.seqCst == y.sent[s].seqCst
      && !Delivering.Logged(x.log, s)
      && match y.sent[s].replyNo
         case None => ok.Payload?
         case Some(r) => ok.Reply? && r in x.sent && ok.sendData == x.sent[r].data
  {
    hide P.Apply, Wired, Reachable, Redelivers, Recent, Wrap;
    var op := Meant(x.peer, act);
    WiredIsMeant(x, y, act);
    TopologyAgreement(x, y, op);
    s := P.Apply(x.peer, op).outcome.value.ok.replyNo;
  }
}
