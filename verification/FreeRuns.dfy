/** Runs of two peers in which any copy of any packet may arrive at any time. */
module FreeRuns {
  import opened Protocol
  import opened PeerInvariants
  import opened History
  import opened Delivering
  import opened Reservations
  import opened TwoPeers
  import opened Exchange

  /** A run in which any copy of any packet may arrive at any time. */
  ghost predicate IsFreeRun<D>(cap: int, first: int, never: int, states: seq<System<D>>, evs: seq<Event<D>>) {
    && cap >= 2 && |states| == |evs| + 1
    && states[0] == Begin(cap, first, never)
    && (forall i :: 0 <= i < |states| ==> Sane(states[i]))
    && (forall i :: 0 <= i < |evs| ==> IsFreeStep(states[i], evs[i], states[i + 1]))
  }

  ghost predicate IsFreeStep<D>(s: System<D>, ev: Event<D>, t: System<D>) {
    && Sane(s) && t == Next(s, ev)
    && (if ev.AtA? then Arrives(s.a, s.b, ev.op) else Arrives(s.b, s.a, ev.op))
  }

  // ---- Exactly which of them deliver every packet once ----

  ghost predicate OnceEach<D>(s: System<D>) {
    (forall n :: AtMostOnce(s.a.log, n)) && (forall n :: AtMostOnce(s.b.log, n))
  }

  /** What one peer's log says, on any packets. */
  ghost predicate LogsOk<D>(s: System<D>) {
    && LogOk(s.a) && SeqCstOrdered(s.a.log) && SeqCstBarrier(s.a.log, s.a.first)
    && LogOk(s.b) && SeqCstOrdered(s.b.log) && SeqCstBarrier(s.b.log, s.b.first)
  }

  lemma OnceMoreForAll<D>(x: Node<D, D>, op: Op<D, D>)
    requires LogOk(x)
    ensures (forall n :: AtMostOnce(Record(x, op).log, n)) <==>
            (forall n :: AtMostOnce(x.log, n)) && !RedeliversOp(x.peer, op)
  {
    hide LogOk, Record, AtMostOnce;
    assert x.peer.cap > 0 by { LogOkFacts(x); }
    forall n
      ensures AtMostOnce(Record(x, op).log, n) <==>
              AtMostOnce(x.log, n) && !(RedeliversOp(x.peer, op) && op.frame.seqNo == n)
    {
      OnceMore(x, op, n);
    }
    if RedeliversOp(x.peer, op) {
      assert !AtMostOnce(Record(x, op).log, op.frame.seqNo);
    }
  }

  lemma LogOkFacts<D>(x: Node<D, D>)
    requires LogOk(x)
    ensures PeerOk(x.peer) && x.peer.cap >= 2
  {
  }

  lemma FreeStep<D>(s: System<D>, ev: Event<D>)
    requires LogsOk(s) && IsFreeStep(s, ev, Next(s, ev))
    ensures LogsOk(Next(s, ev))
    ensures OnceEach(Next(s, ev)) <==> OnceEach(s) && Allowed(s, ev)
  {
    hide LogOk, SeqCstOrdered, SeqCstBarrier, Record, AtMostOnce, Redelivers;
    match ev
    case AtA(op) => LogStep(s.a, op); OnceMoreForAll(s.a, op);
    case AtB(op) => LogStep(s.b, op); OnceMoreForAll(s.b, op);
  }

  lemma FreeStart<D>(cap: int, first: int, never: int)
    requires cap >= 2
    ensures LogsOk<D>(Begin(cap, first, never)) && OnceEach<D>(Begin(cap, first, never))
  {
    var x: Node<D, D> := Start(cap, first, never);
    assert forall n :: !WasDelivered(x.peer, first, n);
  }

  /** The steps up to state i let no copy take the redelivering branch. */
  ghost predicate AllowedUpTo<D>(states: seq<System<D>>, evs: seq<Event<D>>, i: int)
    requires 0 <= i <= |evs| < |states|
  {
    forall j :: 0 <= j < i ==> IsStep(states[j], evs[j], states[j + 1])
  }

  lemma {:induction false} OnceEachUpTo<D>(cap: int, first: int, never: int,
                                           states: seq<System<D>>, evs: seq<Event<D>>, i: int)
    requires IsFreeRun(cap, first, never, states, evs) && 0 <= i <= |evs|
    ensures LogsOk(states[i])
    ensures OnceEach(states[i]) <==> AllowedUpTo(states, evs, i)
  {
    hide LogsOk, OnceEach, Allowed, Next, Begin;
    if i == 0 {
      FreeStart<D>(cap, first, never);
    } else {
      OnceEachUpTo(cap, first, never, states, evs, i - 1);
      assert IsFreeStep(states[i - 1], evs[i - 1], states[i]);
      FreeStep(states[i - 1], evs[i - 1]);
      assert IsStep(states[i - 1], evs[i - 1], states[i]) <==> Allowed(states[i - 1], evs[i - 1]);
    }
  }

  /** Whatever copies arrive: a run delivers every packet at most once exactly if it is one of
      the runs above; so the theorems about those hold of all runs that keep this promise. */
  lemma OnceEachIff<D>(cap: int, first: int, never: int, states: seq<System<D>>, evs: seq<Event<D>>)
    requires IsFreeRun(cap, first, never, states, evs)
    ensures OnceEach(states[|evs|]) <==> IsRun(cap, first, never, states, evs)
  {
    hide OnceEach, LogsOk, IsStep, IsFreeStep, Begin;
    OnceEachUpTo(cap, first, never, states, evs, |evs|);
  }

  // ---- Peers that send only SeqCst packets ----

  ghost predicate SendsSeqCst<D>(ev: Event<D>) {
    ev.op.DoSend? || ev.op.DoReply? ==> ev.op.seqCst
  }

  ghost predicate OnlySeqCst<D>(s: System<D>) {
    && (forall n :: n in s.a.sent ==> s.a.sent[n].seqCst)
    && (forall n :: n in s.b.sent ==> s.b.sent[n].seqCst)
  }

  lemma SentStaysSeqCst<D>(x: Node<D, D>, op: Op<D, D>)
    requires x.peer.cap > 0 && (op.DoSend? || op.DoReply? ==> op.seqCst)
    requires forall n :: n in x.sent ==> x.sent[n].seqCst
    ensures forall n :: n in Record(x, op).sent ==> Record(x, op).sent[n].seqCst
  {
    hide Receive, Pump, Fullness, Insert, Booked, Deliveries;
  }

  /** A SeqCst copy never takes the redelivering branch. */
  lemma SeqCstIsEnabled<D>(x: Node<D, D>, y: Node<D, D>, op: Op<D, D>)
    requires Inv(x, y) && Arrives(x, y, op)
    requires forall n :: n in y.sent ==> y.sent[n].seqCst
    ensures Enabled(x, y, op)
  {
    hide Bounded, Reserved, AnswersOk;
  }

  lemma {:induction false} SeqCstUpTo<D(!new)>(cap: int, first: int, never: int,
                                               states: seq<System<D>>, evs: seq<Event<D>>, i: int)
    requires IsFreeRun(cap, first, never, states, evs) && 0 <= i <= |evs|
    requires forall j :: 0 <= j < |evs| ==> SendsSeqCst(evs[j])
    ensures Good(states[i]) && OnlySeqCst(states[i]) && AllowedUpTo(states, evs, i)
  {
    hide Good, OnlySeqCst, Allowed, Next, SendsSeqCst;
    if i == 0 {
      BeginGood<D>(cap, first, never);
      NothingSent<D>(cap, first, never);
    } else {
      SeqCstUpTo(cap, first, never, states, evs, i - 1);
      assert IsFreeStep(states[i - 1], evs[i - 1], states[i]);
      SeqCstAllowed(states[i - 1], evs[i - 1]);
      StepGood(states[i - 1], evs[i - 1], states[i]);
    }
  }

  lemma NothingSent<D>(cap: int, first: int, never: int)
    ensures OnlySeqCst<D>(Begin(cap, first, never))
  {
  }

  /** Between peers that send only SeqCst packets nothing has to be excluded: every run of
      theirs, with any copies arriving, is a run as above. */
  lemma SeqCstNeedsNoGuard<D(!new)>(cap: int, first: int, never: int, states: seq<System<D>>, evs: seq<Event<D>>)
    requires IsFreeRun(cap, first, never, states, evs)
    requires forall j :: 0 <= j < |evs| ==> SendsSeqCst(evs[j])
    ensures IsRun(cap, first, never, states, evs) && OnlySeqCst(states[|evs|])
  {
    hide Good, OnlySeqCst, IsStep, IsFreeStep, SendsSeqCst, Begin;
    SeqCstUpTo(cap, first, never, states, evs, |evs|);
  }

  lemma SeqCstAllowed<D(!new)>(s: System<D>, ev: Event<D>)
    requires Good(s) && Sane(s) && OnlySeqCst(s) && SendsSeqCst(ev) && IsFreeStep(s, ev, Next(s, ev))
    ensures Allowed(s, ev) && OnlySeqCst(Next(s, ev))
  {
    hide Books, Inv, Record, Enabled;
    if ev.AtA? {
      SeqCstIsEnabled(s.a, s.b, ev.op);
      SentStaysSeqCst(s.a, ev.op);
    } else {
      InvSymmetric(s.a, s.b);
      SeqCstIsEnabled(s.b, s.a, ev.op);
      SentStaysSeqCst(s.b, ev.op);
    }
  }

  /** In such runs no slot is ever marked delivered out of turn. */
  lemma SeqCstNeverSkips<D(!new)>(x: Node<D, D>, y: Node<D, D>, n: int)
    requires Reachable(x, y) && (forall k :: k in y.sent ==> y.sent[k].seqCst)
    ensures n in x.peer.recv ==> x.peer.recv[n].Occupied?
  {
    ReachableGood(x, y);
  }
}
