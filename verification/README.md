# A verified model of the SEQEX engine

SEQEX is a sliding-window transport on which every packet is answered, by a reply or by an
ack. One `SeqEx` keeps a send ring and a receive ring indexed by `seq_no % CAP` with wrapping
32-bit numbers, a table of issued reply numbers that each reserve a future send slot, a lock
for SeqCst packets, and a resend timer. This project models that engine in Dafny, and proves
what it promises, for one peer on any packets, for two peers over a network that loses,
repeats and reorders, and for threads sharing an engine through guards.

## How it is laid out

- `SeqNumbers`: 32-bit numbers, the unbounded numbers they stand for, ring slots.
- `Protocol`: one peer on unbounded numbers. Windows are maps, the reply table is a multiset,
  operations are functions. This is the specification of the engine.
- `Outcomes`: what each operation does and answers, and why it refuses, in words of windows,
  counters, replies owed and lock.
- `PeerInvariants`, `History`, `Delivering`, `Reservations`, `Conservation`: what every
  operation keeps and what every run of one peer delivers, on any packets at all.
- `TwoPeers`, `Exchange`: two peers and the set of all packets ever sent. A receive step takes
  any of them any number of times. `TwoPeers` holds the inductive invariant, `Exchange` the
  runs and the theorems about them, `Chains` the exchanges as linked lists.
- `FreeRuns`: which runs the theorems of `Exchange` cover, exactly.
- `Deadlock`, `WaysOut`, `DeadlockRuns`: exactly when a peer is stuck for ever, when a packet can
  still be delivered and its data still be handed back, and two runs that end in deadlock.
- `Redelivery`: a run in which exactly-once, lossless transport fails.
- `Rings`, `Engine`: the class `SeqEx` with its arrays and 32-bit fields, updated in place.
  Each method ensures that the ghost field `model` goes through one operation of `Protocol`.
- `SingleThread`, `Drain`: the calls on top of the engine, the `service` loop, and draining the
  receive window.
- `Fidelity`, `Wire`: why the engine's 32 bits suffice between two peers in runs of any length.
  `Wire` drives two engines against each other and simulates every run of theirs by a run of
  `Exchange`, so the theorems of `Exchange` hold of the class too. `Alias` is a run that shows
  the one difference.
- `Guards`, `Sync`: `ReplyGuard` and `SeqCstGuard` as a state machine whose steps are the mutex
  critical sections, and the classes whose methods are those steps. `GuardRuns`: in which order
  runs of guard calls enter the critical section, and where their data goes. `Sessions`: two
  peers that are both driven through guards, as runs of `Exchange`.

## Where the code does not do what is promised

- Data passed in is to be returned by some later call (`src/sync.rs:22-24`). An operation of the
  engine loses data exactly if it puts a reply into a slot that is still taken, or replies to a
  number that was never issued or is used up (`src/no_std.rs:427-429`):
  `Conservation.ConservedIff` for one operation, `Conservation.AllConservedIff` for every run on
  any packets, `Conservation.UnissuedReplyLoses` an input. Between two peers of `Exchange` only
  the second way is left (`Exchange.DataConservedIff`). Guards reply to issued numbers only, but
  on a closed session a reply drops its data (`src/sync.rs:98-102`) and so does a blocking send
  (`src/sync.rs:341-343`, `src/sync.rs:360-362`): `GuardRuns.ClosedReplyLoses` and
  `GuardRuns.ClosedSendLoses` are inputs, `GuardRuns.AllDataKeptIff` is the exact condition for
  runs of guard calls, and `Sessions.SessionKeepsDataIff` that for two peers driven through
  guards: no reply and no blocking send after `close`.
  Data that is not lost may still never come back: `WaysOut.NeverReturnedIff` says exactly when.
- Exactly-once delivery (`src/transport_layer.rs:36-37`) fails when a copy of a non-SeqCst packet
  arrives while its slot is `Unlocked` and the window has room: `is_duplicate` only decides
  whether the packet is stored (`src/no_std.rs:300-319`), and the packet is delivered again
  (`src/no_std.rs:331-335`). `Redelivery.TwoPeersDeliverTwice` is a short such run;
  in `Redelivery.RedeliveryLosesData` the second copy reserves a slot that another packet
  occupies, and a later reply overwrites that packet. `Delivering.AtMostOnceIff` and
  `Reservations.DeliveryReservesIff` say exactly when at-most-once delivery and the reservations
  are kept. The theorems of `Exchange` exclude that one branch (`History.Redelivers`) and nothing
  else: they cover exactly the runs that deliver no packet twice (`FreeRuns.OnceEachIff`), among
  them all runs of peers that send only SeqCst packets (`FreeRuns.SeqCstNeedsNoGuard`).
- Every payload is to be received (`src/sync.rs:669-673`), replies are always to be received, and
  a peer is never to deadlock awaiting one (`README.md:9`). None of this holds, even if the
  network loses nothing. Two peers that fill their windows before they hear from each other never
  deliver anything (`DeadlockRuns.BothWindowsFull`, for every capacity above 2). And one peer
  alone can wait for ever for a SeqCst reply that was sent after a packet it has no room to
  answer (`DeadlockRuns.ReplyNeverTaken`). A packet that was sent can still be delivered in some
  continuation exactly if its receiver is not `Doomed` (`WaysOut.NeverDeliveredIff`), and a
  receiver that is not can always be brought to go on (`WaysOut.StuckForeverIff`). Continuations
  are those that deliver nothing twice. `Deadlock.StuckNowIff` says when a peer cannot go on at
  the moment.
- `src/no_std.rs:115` accepts any capacity above 1. Slots survive the wrap of the counters
  (`SeqNumbers.WrapKeepsSlotIff`), and the numbers of one window never collide
  (`SeqNumbers.SlotsApartIff`), exactly when the capacity divides 2^32; the class requires that.
  A capacity of 2 never has room (`src/no_std.rs:134`): exactly with that one a peer never sends
  or delivers anything (`Delivering.MuteIff`).
- A duplicate is re-acked when no answer to it is pending (`src/no_std.rs:283-293`), judged by
  32-bit numbers. A reply may wait in the send window while the remote goes on sending, so a
  much later number can share its 32 bits; the re-ack is then held back until that reply is
  answered. No state differs. `Fidelity.WireFidelity` states this as the only difference between
  the 32-bit engine and the unbounded protocol, `Fidelity.AliasDecides` its exact condition, and
  `Alias.ReAckHeldBack` reaches it after 2^32 rounds.
- `src/single_thread.rs:323-325` says that a packet is dropped when the window is full; the
  code stores it when its slot is empty (`src/no_std.rs:316-319`).

Assumptions: the sum of the current time and the resend interval stays within 64 bits (sends,
replies and the resend scan), and so does the difference between the timer and the current time
that `service` returns (`src/single_thread.rs:281`); no copy of a packet arrives more than 2^31
numbers late (`Fidelity` and `Wire` only); packets keep their content; nobody else writes the
public fields. The current time, the packets that arrive and the function given to
`try_send_direct_with` are parameters. Issued numbers that share their 32 bits cannot be told
apart, so the ghost argument `want` of a reply or an ack says which of them is meant.
`RepliesInReach` and `StoredInReach` say that numbers lie within 2^31 of the counters, where a
32-bit number has one reading; only `Wire.Drive` requires it.
`Fidelity.EngineContractHolds` proves it in every reachable state of two peers, and
`Sessions.SessionInReach` in every session.

The `hide` statements only keep definitions out of a proof that does not need them.

## Model

| member | source | states |
|---|---|---|
| SeqNumbers.LiftOfWrap | src/no_std.rs:269-272 | the range test reads a 32-bit number back as the right one exactly within 2^31 of the counter |
| SeqNumbers.WrapKeepsSlotIff | src/no_std.rs:129-131 | a number keeps its ring slot across the wrap exactly when the capacity divides 2^32 |
| SeqNumbers.SlotsApartIff | src/no_std.rs:129-131 | numbers less than a capacity apart always have different slots exactly when the capacity divides 2^32 |
| PeerInvariants.FastForwardSkips | src/no_std.rs:236-250 | `fast_forward` skips exactly the maximal run of delivered numbers and keeps the set of delivered numbers |
| PeerInvariants.ApplyKeeps | src/no_std.rs:199-482 | every operation on any packet keeps entries within one capacity of their counters, at most CAP - 2 replies owed, the next slot not already delivered, and the timer a lower bound of all resend times |
| PeerInvariants.ServiceTimer | src/no_std.rs:459-482 | after a scan the timer is the earliest pending resend, or the maximum when nothing waits; entries not due keep their times |
| History.ReceiveCases | src/no_std.rs:253-347 | an arriving packet is delivered with all that goes with it, or stored, or changes nothing; it was delivered before exactly when the redelivering branch is taken |
| History.PumpCases | src/no_std.rs:349-383 | a pump delivers the stored next packet or changes nothing |
| History.WaitingIsStored | src/single_thread.rs:314-316 | a packet told to wait is in the receive window afterwards |
| History.StoredUntilDelivered | src/no_std.rs:31-43 | a stored packet stays, unchanged, until the operation that delivers it |
| Delivering.StepDelivers | src/no_std.rs:298-383 | one operation delivers at most one number, a SeqCst one only in sequence |
| Delivering.DeliveryHistory | src/transport_layer.rs:44-50 | for any operations and packets: counter and window stand for exactly the delivered set, SeqCst packets come in order, each after every earlier number |
| Delivering.AtMostOnceIff | src/no_std.rs:298-335 | a number is delivered at most once exactly when no copy of it takes the redelivering branch |
| Delivering.SeqCstAtMostOnce | src/transport_layer.rs:44-50 | a number whose copies are all SeqCst is delivered at most once, with no condition |
| Delivering.MuteIff | src/no_std.rs:114-136 | whatever is called and arrives, a peer sends and delivers nothing exactly if its capacity is 2 |
| Reservations.FullnessCollapses | src/no_std.rs:133-149 | with reservations kept, the fullness scan is one slot and one count; `WaitingForRecv` only when no reply is owed |
| Reservations.AckMakesRoom | src/no_std.rs:160-170 | after `WaitingForReply` one ack of an issued number makes the next send succeed |
| Reservations.DeliveryReservesIff | src/no_std.rs:311-347 | a delivery keeps a free slot for every reply owed, exactly unless its reply number points at another packet's slot among them |
| Reservations.SlotIsFree | src/no_std.rs:223-224 | the slot of the next number is empty at both insertions |
| Reservations.OthersReserve | src/no_std.rs:23-27 | operations that neither send nor deliver keep the reservations |
| Outcomes.RoomIs | src/no_std.rs:133-149 | the scan finds room exactly if the table and all slots up to one more answer do; it blames the remote exactly if the very next slot is taken |
| Outcomes.ReceiveDeliversIff | src/no_std.rs:308-335 | a packet in range is delivered exactly if one more answer can be owed, and a SeqCst one only in its turn with the lock free |
| Outcomes.WhyRefused | src/no_std.rs:253-326 | each of the five errors, exactly when a packet gets it |
| Outcomes.RefusedKeeps | src/no_std.rs:316-326 | a refused packet changes nothing, except that one told to wait is stored if its number is new |
| Outcomes.AckedIs | src/no_std.rs:258-263 | an ack takes out its packet and hands the data back, nothing else |
| Outcomes.PumpDeliversIff | src/no_std.rs:349-383 | a pump delivers exactly if a packet is stored next that would be let in |
| Outcomes.WhyNotPumped | src/no_std.rs:349-383 | which error a pump that delivers nothing gives, exactly |
| Outcomes.PumpReasons | src/sync.rs:530-556 | the same under the reservations: `WaitingForReply` only for an answer owed or the lock |
| Outcomes.ReceiveFlag | src/no_std.rs:327-345 | a delivery asks for a pump exactly if it was in turn and a packet is stored next now |
| Outcomes.PumpFlag | src/no_std.rs:349-383 | a pump asks for another exactly if a packet is stored next now |
| Outcomes.SendIs | src/no_std.rs:199-234 | when a send is accepted, what it adds and emits, and which error it gives otherwise |
| Outcomes.ReplyIs | src/no_std.rs:396-430 | what a reply uses up, adds, emits and unlocks; nothing for a number not issued |
| Outcomes.AckIs | src/no_std.rs:438-448 | what an ack uses up, emits and unlocks; nothing for a number not issued |
| Outcomes.UnlockIs | src/no_std.rs:453-455 | unlocking frees the lock and does nothing else |
| Outcomes.ArrivalEmits | src/no_std.rs:253-383 | receiving and pumping send nothing new; an ack goes out again exactly for an old packet with no answer out |
| Outcomes.TimerAfter | src/no_std.rs:219-222 | apart from the scan, only a packet sent changes the timer, to the earlier of its old value and the packet's resend time |
| Outcomes.ScanIs | src/no_std.rs:459-482 | a scan in time sends and restarts exactly the due entries, and leaves all else but the timer alone |
| Outcomes.StartsIdle | src/no_std.rs:114-127 | a new peer is empty, unlocked, and has its timer at the maximum |
| Reservations.WaitReasons | src/single_thread.rs:314-325 | a packet waits only for a reply owed or the lock, or for another packet, as the error says |
| Conservation.OverwritesIff | src/no_std.rs:223-224 | only a reply to an issued number can be put into a taken slot; a send finds its slot empty |
| Conservation.MissingStep | src/no_std.rs:151-159 | how one operation changes the account of one piece of data that went into the window |
| Conservation.WindowKeptIff | src/no_std.rs:216-233 | data in the window stays or is handed back once, by every operation, exactly unless a message is put into a taken slot |
| Conservation.ConservedIff | src/sync.rs:22-24 | all data given to sends and replies is in the window or handed back, exactly unless a message is put into a taken slot or a reply names a number not issued; a loss is never made up for |
| Conservation.AllConservedIff | src/sync.rs:22-24 | the same over every run on any packets: all data accounted for exactly if no step of the run loses any |
| Conservation.UnissuedReplyLoses | src/no_std.rs:427-429 | a reply to a number never issued loses its data |
| TwoPeers.ReplyFindsItsPacket | src/no_std.rs:342-346 | an undelivered reply always finds the packet it answers in the send window |
| TwoPeers.ReAckIsSettled | src/no_std.rs:283-293 | a repeated ack never cancels a live reply |
| TwoPeers.StepInv | src/no_std.rs:199-482 | every enabled step of either peer keeps the mutual invariant of both peers and the network |
| Exchange.RunGood | README.md:9-9 | the invariant, the order and the accounts hold after every run of two peers |
| Exchange.TopologyAgreement | README.md:9-9 | a delivery is what the remote sent; a reply comes with exactly the packet it answers, delivered once, answered only so and never acked |
| Exchange.AckEndsExchange | src/transport_layer.rs:81-92 | an ack takes out exactly a packet the remote delivered and chose to ack |
| Exchange.AckSoundness | src/no_std.rs:273-293 | every ack ever sent is for a delivered packet whose reply, if any, was delivered |
| Exchange.NoOrphan | src/no_std.rs:273-293 | a waiting packet is undelivered, or being decided, or answered by a waiting reply, or acked |
| Exchange.DuplicateIsAnswered | src/no_std.rs:273-293 | a repeated packet finds its answer being decided, waiting in the window, or acked again |
| Exchange.WindowAgreement | src/no_std.rs:265-296 | the windows of both ends overlap, so `DroppedTooEarly` never happens |
| Exchange.ReservationSafety | src/no_std.rs:23-27 | a reply or an ack succeeds exactly for an issued number, once, and displaces nothing |
| Exchange.LosslessOrderedDelivery | src/sync.rs:669-676 | at most once, from what was sent, in SeqCst order; what is not delivered still waits at the sender; no data lost |
| Exchange.DataConservedIff | src/sync.rs:22-24 | in every run of two peers all data is accounted for exactly as long as nobody replies to a number that was not issued |
| FreeRuns.OnceEachIff | src/transport_layer.rs:36-37 | a run in which any copies arrive delivers each packet at most once exactly if it is a run of `Exchange` |
| FreeRuns.SeqCstNeedsNoGuard | src/no_std.rs:311-335 | every run of peers that send only SeqCst packets, with any copies arriving, is a run of `Exchange` |
| FreeRuns.SeqCstNeverSkips | src/no_std.rs:331-335 | a peer that is sent only SeqCst packets never marks a slot delivered out of turn |
| Chains.NoCycle | README.md:9-9 | following replies back never returns to a packet |
| Chains.ExchangesAreLists | README.md:9-9 | every packet leads back over finitely many others to one that starts an exchange, and has one successor at most: an ack or one reply |
| Deadlock.StuckNowIff | src/no_std.rs:133-149 | no call and no packet gets a peer that owes nothing any further exactly if the slot it needs is taken, by a packet neither acked nor answered by a reply it can take |
| Deadlock.DoomedForever | README.md:9-9 | whatever both peers and the network do, a doomed peer delivers and sends nothing more |
| WaysOut.StuckForeverIff | README.md:9-9 | the slot a peer needs stays blocked in every continuation exactly if the peer is doomed |
| WaysOut.NeverDeliveredIff | src/sync.rs:669-673 | a packet sent and not delivered yet is delivered in no continuation exactly if its receiver is doomed |
| WaysOut.NeverReturnedIff | src/sync.rs:22-24 | a packet leaves its sender's window in no continuation exactly if it, or the reply to it, waits for a doomed receiver |
| DeadlockRuns.BothWindowsFull | src/sync.rs:669-673 | two peers that fill their windows first: neither ever delivers anything, for any capacity above 2 and any continuation |
| DeadlockRuns.ReplyNeverTaken | README.md:9-9 | a peer waits for ever for a reply that was sent, while the other peer is not stuck |
| Redelivery.RedeliveryLosesData | src/no_std.rs:298-347 | a run that delivers a number twice and then overwrites, and so loses, another packet |
| Redelivery.TwoPeersDeliverTwice | src/transport_layer.rs:36-37 | one repeated packet between two peers is delivered twice |
| Redelivery.SecondCopy | src/no_std.rs:133-149 | the copy is let through although the slot its reply number names belongs to another packet, and leaves a reply without a slot |
| Rings.SendSlotTest | src/no_std.rs:151-159 | the 32-bit comparison with a slot's occupant decides membership in the unbounded window |
| Rings.RecvRingNext | src/no_std.rs:236-250 | emptying one slot and counting on moves the receive ring by one number |
| Rings.WireImage | src/transport_layer.rs:32-92 | a packet on the wire is of the kind its message says, with both numbers wrapped |
| Rings.WrappedOutcome | src/no_std.rs:253-347 | 32-bit outcomes keep kind, data, mark and flag; only the numbers are wrapped |
| Engine.SeqEx.constructor | src/no_std.rs:114-127 | a new engine stands for the initial state |
| Engine.SeqEx.SeqNoOfNext | src/no_std.rs:178-180 | the number the next sent packet will carry |
| Engine.SeqEx.IsFullInner | src/no_std.rs:133-149 | the scan over wrapping slots computes the protocol's fullness |
| Engine.SeqEx.TakeSend | src/no_std.rs:151-159 | takes out exactly the entry of that number, or nothing |
| Engine.SeqEx.RemoveReservation | src/no_std.rs:160-170 | the swap removal takes one issue of a number with these 32 bits out of the table, the one meant |
| Engine.SeqEx.InsertEntry | src/no_std.rs:216-233 | the packet goes under the next number, the timer is lowered, and the right packet is emitted |
| Engine.SeqEx.TrySendDirectWith | src/no_std.rs:206-234 | one protocol send; a refusal hands the function back |
| Engine.SeqEx.TrySendDirect | src/no_std.rs:199-204 | one protocol send; a refusal hands the data back |
| Engine.SeqEx.FastForward | src/no_std.rs:236-250 | the loop ends, computes the protocol's skip, and is true exactly when a stored packet comes next |
| Engine.SeqEx.AnswerIsPending | src/no_std.rs:283-292 | both scans together find an answer exactly when its 32-bit number occurs |
| Engine.SeqEx.MustWait | src/no_std.rs:311-315 | the two wait flags are the protocol's gate |
| Engine.SeqEx.Keep | src/no_std.rs:299-319 | a waiting packet is stored unless its number is already in the window |
| Engine.SeqEx.Consume | src/no_std.rs:327-335 | the number becomes delivered, and the window moves on when it was the next |
| Engine.SeqEx.Admit | src/no_std.rs:336-346 | a reply number is issued, the lock taken, and the reply paired with its packet |
| Engine.SeqEx.TryReceiveRawAndDirect | src/no_std.rs:253-347 | one protocol receive of the packet's unbounded reading, for any packet |
| Engine.SeqEx.TryPumpRaw | src/no_std.rs:349-383 | one protocol pump of the stored packet, its reply number read near the send counter, which changes nothing while it is in reach |
| Engine.RereadFacts | src/no_std.rs:360-376 | reading the stored reply number anew keeps its 32 bits and everything else |
| Engine.SeqEx.ReplyRawAndDirect | src/no_std.rs:396-430 | one protocol reply to the issued number with these 32 bits that is meant; nothing if there is none |
| Engine.SeqEx.AckRawAndDirect | src/no_std.rs:438-448 | one protocol ack of the issued number with these 32 bits that is meant; nothing if there is none |
| Engine.SeqEx.Unlock | src/no_std.rs:453-455 | releases the lock and nothing else |
| Engine.SeqEx.ServiceDirect | src/no_std.rs:459-482 | from any cursor on, finds the first number whose slot holds a due entry, restarts its timer and emits it; at the end sets the timer to the earliest time |
| SingleThread.TryReceiveRaw | src/single_thread.rs:239-252 | one receive; a repeated ack is sent exactly when the engine asks for it |
| SingleThread.Service | src/single_thread.rs:275-282 | the loop ends, having sent every due entry exactly once, in order, and no other |
| Drain.PumpAndAckStep | src/no_std.rs:349-383 | pumping a stored packet and acking it succeeds and leaves the engine as ready as before |
| Drain.DrainWindow | src/sync.rs:805-828 | draining delivers exactly the undelivered packets of the contiguous run, in order, within CAP rounds, and stops before an empty slot |
| Fidelity.EngineContractHolds | src/no_std.rs:262-273 | in every reachable state the numbers the engine compares are within one capacity of its counters |
| Fidelity.WireFidelity | src/no_std.rs:262-347 | in every reachable state a packet sent and read as 32-bit numbers has exactly the effect of the unbounded one |
| Fidelity.AliasDecides | src/no_std.rs:283-293 | the 32-bit outcome differs exactly when an answer only seems to be pending |
| Fidelity.AliasPendingIff | src/no_std.rs:283-293 | by 32 bits an answer seems pending exactly if one to a number with the same 32 bits is; that alone decides about the repeated ack |
| Alias.ReAckHeldBack | src/no_std.rs:283-293 | a reachable state, 2^32 rounds on, in which a copy of a waiting packet is dropped instead of acked again |
| Wire.Drive | src/no_std.rs:199-482 | any call on the class changes its state, sends packets and answers as the two-engine system says |
| Wire.WiredIsMeant | src/no_std.rs:253-383 | in every reachable state the 32-bit engine does and tells what the unbounded operation does, except for a held-back ack |
| Wire.WireRunIsExchange | src/no_std.rs:199-482 | every run of two engines over 32-bit packets is matched, state by state, by a run of `Exchange` |
| Wire.WireRunInReach | src/no_std.rs:262-273 | in every state of every run of two engines the calls' demands on reply numbers hold |
| Wire.WireTopology | README.md:9-9 | what an engine hands over is what the other was given to send, once, and a reply comes with the data of the packet it answers |
| Guards.PerformOk | src/sync.rs:98-206 | every call on an owned guard keeps guards and engine in step |
| Guards.CriticalSection | src/sync.rs:50-56 | over all interleavings, also after closing: one guard at most in the critical section, and then the engine is locked; while open, exactly then, and live guards are the issued numbers |
| Guards.AnsweredOnceUnlockedOnce | src/sync.rs:45-48 | a guard answers its packet exactly once, and the lock is released only by its holder |
| Guards.NoSecondEntry | src/sync.rs:50-54 | while a guard holds the lock no SeqCst packet is handed out |
| Guards.ClosedLeavesEngine | src/sync.rs:98-280 | on a closed session only pumping, resending and unlocking reach the engine; closing is for good |
| Guards.ClosingMakesNoDifference | src/sync.rs:512-521 | pumping, resending and unlocking do the same on a closed session as on an open one |
| Guards.OpenSend | src/sync.rs:624-643 | on an open session a send adds exactly its packet, exactly if there is room |
| Guards.OpenAnswer | src/sync.rs:98-280 | on an open session a consumed guard uses up one issue of its number, a reply goes into the window as its answer, and the lock is released exactly if held and not kept |
| Guards.UnlockFrees | src/sync.rs:175-280 | unlocking a holding guard or dropping a lock guard frees the lock and nothing else, closed or not |
| Guards.GuardsLeft | src/sync.rs:45-48 | a consumed guard is gone, closed or not; only a delivery adds one; the others stay |
| Guards.LockGuardsLeft | src/sync.rs:127-206 | a lock guard is left exactly by a call that keeps the lock of a holding guard, closed or not |
| GuardRuns.RunOfCalls | src/sync.rs:98-280 | a run of guard calls is a run of the protocol, and hands out one guard for each packet that run delivers |
| GuardRuns.LockOrder | src/sync.rs:53-54 | the guards that enter the critical section carry increasing numbers, each after guards for all earlier ones |
| GuardRuns.EntersAlone | src/sync.rs:50-54 | a guard enters the critical section only when it is empty, and with the next number in sequence |
| GuardRuns.ReplyKeptIff | src/sync.rs:98-112 | a guard's reply goes into the window with its data exactly if the session is open |
| GuardRuns.AllDataKeptIff | src/sync.rs:22-24 | over all interleavings all data given to sends and replies is accounted for exactly if no call replies or blocks to send on a closed session or puts a message into a taken slot |
| GuardRuns.ClosedSendLoses | src/sync.rs:341-343 | a blocking send on a closed session loses its data |
| GuardRuns.ClosedReplyLoses | src/sync.rs:98-102 | the reply of a guard handed out before the session was closed loses its data |
| Sessions.SessionIsExchange | src/sync.rs:98-280 | two peers driven through guards go through states of `Exchange`, so its theorems and those of `GuardRuns` hold of both ends |
| Sessions.SessionKeepsDataIff | src/sync.rs:22-24 | between two such peers all data of an end is accounted for exactly if it neither replies nor blocks to send after its `close` |
| Sessions.SessionInReach | src/sync.rs:98-112 | between two such peers no two live guards share their 32-bit number, and every number is read back as the one meant |
| Guards.PerformIsProtocol | src/sync.rs:98-280 | guard calls drive the engine by protocol operations only |
| Sync.SharedSeqEx.TryReceive | src/sync.rs:457-478 | one guard-protocol receive; a delivered packet comes in a live guard, with the pump flag; a repeated ack goes out exactly when asked for; `NeedsReply` exactly if an answer owed or the lock stands in the way, `OutOfSequence` for the other four refusals |
| Sync.SharedSeqEx.TryPump | src/sync.rs:512-521 | one guard-protocol pump, also after closing, with the pump flag; the stored reply number is read near the send counter, which changes nothing while it is in reach |
| Sync.SharedSeqEx.TrySend | src/sync.rs:624-643 | one guard-protocol send; the data comes back when refused or closed |
| Sync.SharedSeqEx.SendPass | src/sync.rs:338-365 | one pass of a blocking send: it sends, or keeps the data and waits, or fails on a closed session without giving it back |
| Sync.SharedSeqEx.Service | src/sync.rs:729-731 | one resend scan under the mutex: every due packet once, in order, also after closing |
| Sync.SharedSeqEx.Reply | src/sync.rs:98-112 | one guard-protocol reply: the packet sent answers the guard's number; when closed nothing is sent, nothing changes and the data is gone |
| Sync.SharedSeqEx.ReplyStayLocked | src/sync.rs:191-206 | the same, keeping the lock in a new guard exactly if it was held |
| Sync.SharedSeqEx.AckNow | src/sync.rs:153-159 | one guard-protocol ack that keeps the lock in a new guard exactly if it was held |
| Sync.SharedSeqEx.UnlockNow | src/sync.rs:175-185 | releases the lock exactly if this guard holds it, and says so |
| Sync.SharedSeqEx.Drop | src/sync.rs:264-272 | acks and releases, or does nothing when closed |
| Sync.SharedSeqEx.DropLock | src/sync.rs:273-280 | releases the lock |
| Sync.SharedSeqEx.CloseSession | src/sync.rs:781-792 | closes without touching engine or guards |

## Left out

- Fairness: which of the possible continuations happens. `WaysOut` says when one that helps exists, not that it is taken.
- Waiting, timeouts and wake-ups (`Condvar`), and the claim that `close` unblocks all threads: they depend on the scheduler. After `close` a dropped guard leaves its reservation and possibly the lock in place, which `Guards.CriticalSection` allows.
- `src/tokio.rs`: its runtime and channels are not part of this model.
- `iter_mut`, `to_components` and `from_components`: contents of queued packets do not change, and guards are not forged.
- Clocks, `TransportLayer`, the single-threaded guard types, conversions between packet types, `Debug`, `Display` and serde implementations, and the examples.
- The return values of `service_scheduled` and of the calls that report a lowered timer.
- `RecvData` conversion of a received payload: data is stored and handed over unchanged.
- Engine.SeqEx.constructor: requires a capacity that divides 2^32 where the source accepts any above 1, because with the others slots do not survive the wrap (`SeqNumbers.WrapKeepsSlotIff`).
- Engine.SeqEx.ReplyRawAndDirect: a taken slot is overwritten as in a release build; that it is free is `Exchange.ReservationSafety`, not an assertion of the method.
- Exchange.RunGood: runs that redeliver a copy are excluded, because order and accounts fail there; they are exactly the runs that deliver a packet twice (`FreeRuns.OnceEachIff`).
- Exchange.TopologyAgreement: states one delivery, without redelivered copies, whose sent packet may be gone; whole exchanges are in `Chains.ExchangesAreLists`.
- Exchange.LosslessOrderedDelivery: does not say that a packet is delivered in the end, because that is false; `WaysOut.NeverDeliveredIff` is the exact condition. Runs that redeliver a copy are excluded, as for `Exchange.RunGood`.
- Fidelity.WireFidelity: copies more than 2^31 numbers old are excluded, because 32 bits cannot tell them from new packets.
- Drain.DrainWindow: the loop of the iterator when each item is acked before the next is asked for; its first item, its blocking mode and stopping early are not modelled.
