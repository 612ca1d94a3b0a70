/** Exchanges as linked lists: every packet leads back, from reply to the packet it answers,
    to a packet that starts an exchange; and no packet is answered by two. */
module Chains {
  import opened Protocol
  import opened PeerInvariants
  import opened History
  import opened TwoPeers
  import opened Exchange

  /** Starting at number chain[0] of x, each packet is the reply to the next one in the
      chain, the two peers taking turns; the last one is not a reply. */
  ghost predicate IsChain<D>(x: Node<D, D>, y: Node<D, D>, chain: seq<int>)
    decreases |chain|
  {
    && chain != [] && chain[0] in x.sent
    && match x.sent[chain[0]].replyNo
       case None => |chain| == 1
       case Some(r) => |chain| > 1 && chain[1] == r && IsChain(y, x, chain[1..])
  }

  /** Every packet of both peers ends a chain. */
  ghost predicate Rooted<D>(x: Node<D, D>, y: Node<D, D>) {
    && (forall n :: n in x.sent ==> HasChain(x, y, n))
    && (forall n :: n in y.sent ==> HasChain(y, x, n))
  }

  ghost predicate HasChain<D>(x: Node<D, D>, y: Node<D, D>, n: int) {
    exists chain :: IsChain(x, y, chain) && chain[0] == n
  }

  /** x' knows of at least the packets of x. */
  ghost predicate Extends<D>(x: Node<D, D>, x': Node<D, D>) {
    forall n :: n in x.sent ==> n in x'.sent && x'.sent[n] == x.sent[n]
  }

  lemma {:induction false} ChainStays<D>(x: Node<D, D>, y: Node<D, D>, x': Node<D, D>, y': Node<D, D>, chain: seq<int>)
    requires IsChain(x, y, chain) && Extends(x, x') && Extends(y, y')
    ensures IsChain(x', y', chain)
    decreases |chain|
  {
    var n := chain[0];
    assert n in x.sent && n in x'.sent && x'.sent[n] == x.sent[n];
    if |chain| == 1 {
    } else {
      ChainStays(y, x, y', x', chain[1..]);
    }
  }

  /** From one packet there is only one way back. */
  lemma {:induction false} ChainUnique<D>(x: Node<D, D>, y: Node<D, D>, a: seq<int>, b: seq<int>)
    requires IsChain(x, y, a) && IsChain(x, y, b) && a[0] == b[0]
    ensures a == b
    decreases |a|
  {
    if |a| == 1 {
    } else {
      ChainUnique(y, x, a[1..], b[1..]);
      assert a == [a[0]] + a[1..] && b == [b[0]] + b[1..];
    }
  }

  /** The rest of a chain, from position i on, is a chain of the peer whose turn it is. */
  lemma {:induction false} ChainTail<D>(x: Node<D, D>, y: Node<D, D>, chain: seq<int>, i: int)
    requires IsChain(x, y, chain) && 0 <= i < |chain|
    ensures if i % 2 == 0 then IsChain(x, y, chain[i..]) else IsChain(y, x, chain[i..])
    decreases |chain|
  {
    if i == 0 {
      assert chain[0..] == chain;
    } else {
      ChainTail(y, x, chain[1..], i - 1);
      assert chain[1..][i - 1..] == chain[i..];
    }
  }

  /** A chain never comes back to a packet: no exchange runs in a circle. */
  lemma NoCycle<D>(x: Node<D, D>, y: Node<D, D>, chain: seq<int>, i: int, j: int)
    requires IsChain(x, y, chain) && 0 <= i < j < |chain| && i % 2 == j % 2
    ensures chain[i] != chain[j]
  {
    if chain[i] == chain[j] {
      ChainTail(x, y, chain, i);
      ChainTail(x, y, chain, j);
      if i % 2 == 0 {
        ChainUnique(x, y, chain[i..], chain[j..]);
      } else {
        ChainUnique(y, x, chain[i..], chain[j..]);
      }
    }
  }

  // ---- Chains over runs ----

  lemma StepExtends<D>(x: Node<D, D>, op: Op<D, D>)
    requires x.peer.cap > 0 && x.peer.nextSend !in x.sent
    ensures Extends(x, Record(x, op))
  {
    hide Apply, Record;
    RecordSent(x, op);
  }

  /** A new reply answers a packet that y sent. */
  lemma StepAnswers<D>(x: Node<D, D>, y: Node<D, D>, op: Op<D, D>, n: int)
    requires x.peer.cap > 0 && forall r :: r in x.peer.replies ==> r in y.sent
    requires n in Record(x, op).sent && n !in x.sent
    ensures Record(x, op).sent[n].replyNo.Some? ==> Record(x, op).sent[n].replyNo.value in y.sent
  {
    hide Apply, Record, Insert, Unreserve;
    RecordSent(x, op);
    if Apply(x.peer, op).sent.Some? { SendUnfolds(x.peer, op); }
  }

  lemma OwedIsSent<D>(x: Node<D, D>, y: Node<D, D>)
    requires Inv(x, y)
    ensures x.peer.cap > 0 && x.peer.nextSend !in x.sent
    ensures forall r :: r in x.peer.replies ==> r in y.sent
  {
    hide Bounded;
    forall r | r in x.peer.replies
      ensures r in y.sent
    {
      assert Has(x, r);
    }
  }

  lemma StepRooted<D>(x: Node<D, D>, y: Node<D, D>, op: Op<D, D>)
    requires Inv(x, y) && Rooted(x, y)
    ensures Rooted(Record(x, op), y)
  {
    OwedIsSent(x, y);
    hide Record, Inv;
    var x' := Record(x, op);
    StepExtends(x, op);
    assert Extends(y, y);
    forall n | n in y.sent
      ensures HasChain(y, x', n)
    {
      assert HasChain(y, x, n);
      var chain :| IsChain(y, x, chain) && chain[0] == n;
      ChainStays(y, x, y, x', chain);
    }
    forall n | n in x'.sent
      ensures HasChain(x', y, n)
    {
      if n in x.sent {
        assert HasChain(x, y, n);
        var chain :| IsChain(x, y, chain) && chain[0] == n;
        ChainStays(x, y, x', y, chain);
      } else {
        StepAnswers(x, y, op, n);
        NewChain(x', y, n);
      }
    }
  }

  lemma NewChain<D>(x: Node<D, D>, y: Node<D, D>, n: int)
    requires n in x.sent && forall k :: k in y.sent ==> HasChain(y, x, k)
    requires match x.sent[n].replyNo case None => true case Some(r) => r in y.sent
    ensures HasChain(x, y, n)
  {
    match x.sent[n].replyNo
    case None => assert IsChain(x, y, [n]);
    case Some(r) =>
      var rest :| IsChain(y, x, rest) && rest[0] == r;
      assert ([n] + rest)[1..] == rest;
      assert IsChain(x, y, [n] + rest);
  }

  lemma {:induction false} RunRooted<D(!new)>(cap: int, first: int, never: int,
                                              states: seq<System<D>>, evs: seq<Event<D>>, i: int)
    requires IsRun(cap, first, never, states, evs) && 0 <= i <= |evs|
    ensures Rooted(states[i].a, states[i].b)
  {
    hide Inv, Books, Record, Rooted;
    if i == 0 {
      BeginRooted<D>(cap, first, never);
    } else {
      RunRooted(cap, first, never, states, evs, i - 1);
      RunGood(cap, first, never, states, evs, i - 1);
      assert IsStep(states[i - 1], evs[i - 1], states[i]);
      SystemStepRooted(states[i - 1], evs[i - 1]);
    }
  }

  lemma BeginRooted<D>(cap: int, first: int, never: int)
    ensures Rooted(Begin<D>(cap, first, never).a, Begin<D>(cap, first, never).b)
  {
  }

  lemma SystemStepRooted<D>(s: System<D>, ev: Event<D>)
    requires Inv(s.a, s.b) && Sane(s) && Rooted(s.a, s.b)
    ensures Rooted(Next(s, ev).a, Next(s, ev).b)
  {
    hide Inv, Record, HasChain;
    match ev
    case AtA(op) => StepRooted(s.a, s.b, op);
    case AtB(op) =>
      InvSymmetric(s.a, s.b);
      StepRooted(s.b, s.a, op);
  }

  lemma ReachableRooted<D(!new)>(x: Node<D, D>, y: Node<D, D>)
    requires Reachable(x, y)
    ensures Rooted(x, y)
  {
    hide Rooted;
    var cap, first, never, states: seq<System<D>>, evs: seq<Event<D>> :|
      && IsRun(cap, first, never, states, evs)
      && (states[|evs|] == System(x, y) || states[|evs|] == System(y, x));
    RunRooted(cap, first, never, states, evs, |evs|);
    RootedSymmetric(states[|evs|].a, states[|evs|].b);
  }

  lemma RootedSymmetric<D>(x: Node<D, D>, y: Node<D, D>)
    ensures Rooted(x, y) <==> Rooted(y, x)
  {
  }

  /** Packet s of y is a reply to packet n of the other peer. */
  ghost predicate Answering<D>(y: Node<D, D>, s: int, n: int) {
    s in y.sent && y.sent[s].replyNo == Some(n)
  }

  /** Every exchange is a linked list. Each packet ever sent leads back over finitely many
      others, no two the same, to the one that started the exchange; and each packet has at
      most one successor: an ack, or a single reply, never both. */
  lemma ExchangesAreLists<D(!new)>(x: Node<D, D>, y: Node<D, D>, n: int)
    requires Reachable(x, y) && n in x.sent
    ensures exists chain ::
      && IsChain(x, y, chain) && chain[0] == n
      && (forall i, j :: 0 <= i < j < |chain| && i % 2 == j % 2 ==> chain[i] != chain[j])
    ensures forall s, t :: Answering(y, s, n) && Answering(y, t, n) ==> s == t
    ensures n in y.answer && y.answer[n].ByAck? ==> forall s :: !Answering(y, s, n)
  {
    ReachableRooted(x, y);
    assert HasChain(x, y, n);
    var chain :| IsChain(x, y, chain) && chain[0] == n;
    forall i, j | 0 <= i < j < |chain| && i % 2 == j % 2
      ensures chain[i] != chain[j]
    {
      NoCycle(x, y, chain, i, j);
    }
    ReachableGood(x, y);
    OneSuccessor(x, y, n);
  }

  lemma OneSuccessor<D>(x: Node<D, D>, y: Node<D, D>, n: int)
    requires Inv(x, y)
    ensures forall s, t :: Answering(y, s, n) && Answering(y, t, n) ==> s == t
    ensures n in y.answer && y.answer[n].ByAck? ==> forall s :: !Answering(y, s, n)
  {
  }
}
