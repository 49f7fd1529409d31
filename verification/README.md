# RSIM memory system: the directory protocol and the structures around it

A Dafny model of the coherence directory of the RSIM simulator, of the cache
set replacement beside it, and of the containers both rest on, with proofs of
what they guarantee. `dafny verify dfyconfig.toml` checks everything.

## How it is laid out

The directory is modelled at three levels, each related to the one before.

- One line (`LineSpec`, `LineShape`, `LineProtocol`, `LineSafety`,
  `LineTheorems`, `LineAnswers`): what Dir_Cohe and every DirSim case do to one
  line record, as functions; a state machine of that line, the messages in
  flight for it and the nodes that may hold it; the invariant; the coherence
  theorems; and which answer, or which error, each message meets.
- The whole directory (`DirMachine`, `DirLedger`, `DirSystem`, `DirSafety`,
  `DirTags`, `DirQueues`, `DirOutputs`, `DirRuns`, `DirTheorems`, `DirOrder`,
  `DirProgress`): the line table, the pending buffer, ReadyReqs, OutboundReqs,
  the partial request and the buffer account as one value, and all runs of it,
  with the messages put on its output ports. Every step is projected on its
  line to steps of the line protocol, so coherence carries over; the account is
  kept by giving each request a weight and showing that no step changes the
  total of what is in hand and what has been answered; what leaves the ports is
  shown to be what the caches receive; the queues are shown to be worked off in
  turn; and a measure shows that all requests in hand can be completed.
- The code (`DirModule`, `DirScan`, `DirTurns`, `DirPaths`, `DirEvent`): a class
  whose methods update the directory's fields as the source does, case by case,
  each proved to perform exactly the step of `DirMachine`; and the activation
  loop of DirSim, proved equal to a function of the entry state whose ends are
  characterised exactly, which gives every port its turn, and whose every
  activation is a path of the whole system.

Beside these stand the structures the class `Directory` has as sets, sequences
and a map: the sharer bit vector over 32-bit words (`SharerVector`), and the
linked pending buffer, the ready queue and the hash chains (`DirLists`). They
are not built into `Directory`; each is proved on its own against the same set,
sequences and map.

`Replacement` models the ages and the choice of a victim in `cache2.c`,
`HashTable`, `TimestampHeap`, `CircularQueue`, `MemoryQueue` and `HomeTree` the
containers, as classes over arrays or linked nodes; `HomeMerge` gives the
overlapping insertions into the home tree of one node on values. `DirTypes`, `Bits` and
`Common` hold what they share.

## The rules for the caches

The caches are an environment that moves freely within these rules
(`LineProtocol.Enabled`): any node may send a READ_SH, READ_OWN or UPGRADE at
any time; every COHE gets exactly one COHE_REPLY; an INVL may be acknowledged
or refused and takes the copy away either way; a forward is served only by the
exclusive holder, which thereby gives its copy up or downgrades it, is refused
with NACK only by a node without a copy, and may be postponed with NACK_PEND
at will; only the exclusive holder sends WRB or REPL, and loses the line by
doing so; shared copies may vanish silently. Messages may overtake each other
in every way. The evidence is the COHE handling of the second-level cache
(`src/MemSys/l2cache.c:1445-1930`), MakeForwardAck and MakeForward
(`src/MemSys/cachehelp.c:360-450`) and the exchange of source and destination
on replies (`src/MemSys/smnet.c:307-320`).

`LineShape.ReachableShape`, the buffer and list structure, and the equality of
the imperative code with `DirMachine` use none of these rules; only the split
DIRSERV makes is assumed there, that a WRB or REPL is not handled as a request.
`Coherence`, `ExclusiveAnswersAreSafe`, `CounterBalances`,
`WritebackMeetsOwner`, `FailedForwardIsUndone`, and the theorems over runs of
the whole directory in `DirTheorems` and `DirProgress` use them. The
transactions counted by `EveryRequestOnce` are numbered in the order in which
they are committed.

## Where the code differs from its comments

- A request answered at once whose reply port is full is kept for a retry
  (`src/MemSys/directory.c:517-527`), but Dir_Cohe has already changed the line
  and the request's type, and the retry ends at "Unknown request type" unless
  the line has become pending, when the request is parked once more.
  `AnsweredIffRoom` and `NeverAnsweredLater` state both halves for any
  directory; the runs of the whole directory contain these answers, and
  `HaltsExactly` says when a run halts. Until then the node counts among the
  holders its line has on record, which allows the caches more, not less.
- DIRSTARTOVER says that the scan of the ports ends no matter what
  (`src/MemSys/directory.c:340-345`). With two ports or more it does
  (`ScanEnd`); with the request port alone and a partial request whose port is
  full it never does (`OnePortLoops`).
- The activity may go to sleep waiting for input while a request already waits
  at the request port. `OversleepsExactly` gives the exact condition on the
  entry state, `OversleepsAtTwoPorts` an instance.
- normalize does not end on an argument above 2^31 (`NormalizeEnds`), and
  PeekElt and SetElt do not refuse a negative index.
- DirFind_FM with no node array reports that the requester has a copy whenever
  anyone has (`Vector.Find`), so the branch of the WRB case for a node without a
  copy is dead.
- hit_update starts at line `set` instead of the first line of the set in a
  cache of more than 2048 lines. `LargeCacheHits` says exactly which sets are
  still safe, `WrongStartHappens` that the bad state is reached.
- HashTable never uses a tombstone again on insertion: both branches that would
  do so need a table without an empty slot, which cannot be.
- A search of an empty circular queue goes through the whole ring, stale
  elements included (`Circq.Searched`, `StaleElementIsFound`).
- DirQueueAdd clears the link of a new request only when the queue is empty;
  otherwise the caller has to pass it clear (`Queues.QueueAdd`).

## Model

| member | source | states |
|---|---|---|
| `LineTheorems.Coherence` | src/MemSys/directory.c:1579-2194 | in every run of one line with N caches under the cache rules no error site of the directory is reached, there is at most one writer and no reader beside it, the sharer vector of a line at rest covers all holders, and the line keeps its shape |
| `LineTheorems.ExclusiveAnswersAreSafe` | src/MemSys/directory.c:1323-1479 | when a REPLY_EXCL or REPLY_UPGRADE is given, or a COPYBACK_INVL forward is served, no node but its addressee (and the former owner giving its copy up in that step) holds the line, and afterwards the addressee is the only holder |
| `LineAnswers.ReadIsAnswered` | src/MemSys/directory.c:1712-1764 | a READ_SH on a line at rest that no node owns is answered at once and its node listed: with REPLY_EXCL on a line then DIR_PRIVATE if the system is MESI and no other node is listed, with REPLY_SH on a line then DIR_SHARED otherwise |
| `LineAnswers.WriteIsAnswered` | src/MemSys/directory.c:1842-1990 | a READ_OWN or UPGRADE on such a line leaves it DIR_PRIVATE to its node; it is answered, at once or after the round, with REPLY_UPGRADE iff it is an UPGRADE of a listed node and with REPLY_EXCL otherwise; the return state of the round tells the two apart |
| `LineAnswers.WithoutMemory` | src/MemSys/directory.c:1712-1990 | of the immediate answers only a REPLY_UPGRADE goes without a visit to memory |
| `LineAnswers.EveryAnswerIsDue` | src/MemSys/directory.c:1323-1479 | in every run each answer, given at once or at the end of a round, is that of a request of the run, of the type determined by the line which that request found; so a REPLY_UPGRADE goes only to a node that was listed when its UPGRADE came |
| `LineAnswers.RoundHasRequest` | src/MemSys/directory.c:577-676 | in every run the record of a round of invalidations is that of a write of the run which found the line settled, and keeps its answer |
| `LineAnswers.RequestFailsExactly` | src/MemSys/directory.c:1712-2103 | on any line, of the right shape or not, which of the errors a request ends at, if any; a pending line takes every request |
| `LineAnswers.WritebackUncaches` | src/MemSys/directory.c:1615-1706 | on any line, which error a WRB or REPL ends at, if any; every other one leaves it UNCACHED, at rest with the awaited request handed back as it came, or pending with the sender noted |
| `LineAnswers.ReplyFailsExactly` | src/MemSys/directory.c:1009-1479 | on any line, which error a COHE_REPLY ends at, if any |
| `LineAnswers.ForwardIsTakenBack` | src/MemSys/directory.c:2574-2594 | a forward taken back is the READ_SH or READ_OWN of the node it was for |
| `LineTheorems.CounterBalances` | src/MemSys/directory.c:961-1004 | for an invalidating transaction the counter is the number of invalidations still to send plus the COHEs and COHE_REPLYs in flight, and is positive while the record is kept |
| `LineTheorems.WriteInvalidatesOthers` | src/MemSys/directory.c:1883-1940 | a READ_OWN or UPGRADE on a shared line addresses one invalidation to every old sharer but the requester, ascending, and leaves the vector at the requester alone; it is answered at once iff there is no other sharer |
| `LineTheorems.EveryInvalidationIsSent` | src/MemSys/directory.c:827-1004 | sending until num_left is 0 sends to each entry of the node array exactly one COHE of the type in the record, from the directory and for the line, and changes nothing else of the record |
| `LineTheorems.WritebackMeetsOwner` | src/MemSys/directory.c:2104-2183 | in every run a WRB or REPL in flight never meets an UNCACHED line nor a line that waits for another node, and a line at rest it meets is private to its sender |
| `LineTheorems.OvertakenWriteback` | src/MemSys/directory.c:1615-1706 | a request that overtook its own node's write-back waits on a line private to that node; the write-back leaves the line UNCACHED, not pending, and hands back that very request (an UPGRADE as READ_OWN) |
| `LineTheorems.FailedForwardIsUndone` | src/MemSys/directory.c:1043-1310 | in every run and for every refusal or postponement in flight: the forward in the record is the one a request of the run started; with no write-back seen a NACK puts the line back as that request found it and tells the requester to retry that request, and a NACK_PEND sends the same forward again; after the write-back either leaves an UNCACHED line at rest and serves that request (an UPGRADE as READ_OWN) from the start |
| `LineTheorems.ForwardHasRequest` | src/MemSys/directory.c:679-765 | in every run a line whose record is a forward has it from a READ_SH, READ_OWN or UPGRADE of the run that found the line private to the node the forward goes to |
| `LineTheorems.RefusalUndoesForward` | src/MemSys/directory.c:1043-1142 | the case of a refusal that is the first answer to the forward: the line is exactly as before the request, and the requester gets its own request back as a RAR |
| `LineTheorems.WritebackRestartsForward` | src/MemSys/directory.c:1147-1266 | the case of a write-back that comes before the first answer: an UNCACHED unpended line, and the original request, with its source and type (an UPGRADE as READ_OWN), starts over |
| `LineTheorems.PostponementResends` | src/MemSys/directory.c:1202-1310 | the case of a postponement that is the first answer: the same forward is sent again, and the line does not change |
| `LineTheorems.RetriedAnswerIsFatal` | src/MemSys/directory.c:499-550 | a request answered at once whose answer found no room is no longer recognised by Dir_Cohe when it is tried again |
| `LineTheorems.InvIsCoherent` | src/MemSys/directory.c:1570-1600 | the protocol invariant implies a single writer and that all holders of a line at rest are listed |
| `LineShape.ReachableShape` | src/MemSys/directory.c:1783-1863 | after any sequence of messages whatever (no cache rule), and whatever the reused records still hold, UNCACHED iff no sharer, DIR_PRIVATE exactly one, pending iff a record is attached, and the "find must be 1" and "find must be at least 1" errors are not reached |
| `LineShape.RequestKeepsShape` | src/MemSys/directory.c:1712-2103 | a request keeps the shape of a line, or ends at an error that is not one of the two find errors |
| `LineShape.ReplyKeepsShape` | src/MemSys/directory.c:1009-1479 | so does any COHE_REPLY: positive, NACK or NACK_PEND, expected or not |
| `LineShape.WritebackKeepsShape` | src/MemSys/directory.c:2104-2183 | so does any WRB or REPL, awaited, surprising or out of place |
| `LineSafety.StepKeepsInv` | src/MemSys/directory.c:1323-1479 | every single event the cache rules allow keeps the invariant that ties the line record to the messages in flight and to the holders |
| `LineSafety.RunKeepsInv` | src/MemSys/directory.c:1579-2194 | hence every run does, and no error site of the directory is reached in it |
| `LineSafety.AskKeepsInv` | src/MemSys/directory.c:1712-2103 | a new request keeps the invariant: at rest, waiting, pending, answered, invalidating or forwarding |
| `LineSafety.TransferKeepsInv` | src/MemSys/directory.c:1312-1352 | an owner that serves a COPYBACK leaves both nodes as shared holders on a shared line that lists exactly them, one that serves a COPYBACK_INVL leaves the requester as the only holder of a line private to it; the invariant holds |
| `LineSafety.WritebackSurprises` | src/MemSys/directory.c:1509-1528 | a write-back that meets a record it is not awaited by comes from the owner or the requester of a forward, and leaves the line UNCACHED, pending, with the sender remembered; the invariant holds |
| `LineSafety.ForwardRefused` | src/MemSys/directory.c:1050-1142 | a NACK with no write-back seen leaves the line private to the old owner, at rest, with nothing in flight; the invariant holds |
| `LineSafety.NodeArray` | src/MemSys/directory.c:2462-2497 | the node array has as many entries as there are sharers other than the requester |
| `LineSafety.OthersListed` | src/MemSys/directory.c:2462-2497 | it lists exactly those sharers, strictly ascending |
| `DirTheorems.HaltsExactly` | src/MemSys/directory.c:499-550 | a run of the whole directory (all lines, queues, ports with or without room) halts iff it serves, for a line at rest, a request left under the type of its answer; the flag `spoilt` says exactly whether an answer that could be given at once has found its port full, and without one no run halts; no other error site is reached |
| `DirTheorems.DirectoryCoherence` | src/MemSys/directory.c:116-1540 | in every run, for as long as it goes on, every line has at most one writer, lists its holders at rest and keeps its shape |
| `DirTheorems.NothingSentIsLost` | src/MemSys/directory.c:776-1008 | in every run the COHEs put on the ports for a line are exactly those in flight and those the caches have answered; the granting answers sent or queued are exactly those by which lines made a node a holder |
| `DirTheorems.BufferConservation` | src/MemSys/directory.c:432-478 | in every run buftotsz is the pending buffer plus ReadyReqs plus the lines with a record plus the queued answers, never exceeds bufmaxsz, and OutboundReqs never has more than bufmaxsz entries |
| `DirTheorems.EveryRequestOnce` | src/MemSys/directory.c:2642-2653 | in every run each committed request is exactly once in hand (over all queues and records together), or answered by a message put on a port, or ended by the acknowledgment of its transfer |
| `DirTheorems.NoneStranded` | src/MemSys/directory.c:2235-2291 | in every run a request in the pending buffer is behind a line with a transaction outstanding, the record the partial request still sends from is alive and its own, and no other line has invalidations still to send |
| `DirTheorems.RepliesAlwaysAbsorbed` | src/MemSys/directory.c:1009-1017 | in every run any COHE_REPLY and any write-back in flight can be absorbed, whether or not an output port has room |
| `DirTheorems.NeverStuck` | src/MemSys/directory.c:116-1540 | while the directory holds a request anywhere, some event can happen that changes the directory or what is in flight |
| `DirProgress.CanFinish` | src/MemSys/directory.c:116-1540 | every run in which no answer has found its port full can go on, with no new request, to a state in which no request is in hand and each one taken in has been answered by a message sent, or ended by the acknowledgment of its transfer, exactly once |
| `DirProgress.SomethingAdvances` | src/MemSys/directory.c:116-1540 | in such a state with a request in hand some enabled event lowers a measure of, in order, the requests in hand, the write-backs still possible, the forwards that will start over, the requests on no line, those to be served again, the postponed forwards and the messages still to travel |
| `DirTheorems.AnsweredIffRoom` | src/MemSys/directory.c:517-550 | a request that can be answered at once, new or from ReadyReqs, is answered iff the reply port has room; otherwise nothing leaves and it stays at the head of its queue under the type of its answer |
| `DirTheorems.NeverAnsweredLater` | src/MemSys/directory.c:499-550 | whatever happens in between, a request left under the type of its answer is parked if its line is pending and halts the directory at "Unknown request type" otherwise; no answer leaves |
| `DirTheorems.TurnedAway` | src/MemSys/directory.c:378-482 | a preprocessed request bounces back as a REPLY and one without a buffer as a RAR, the directory otherwise unchanged; without room nothing happens |
| `DirTheorems.BuffersDecide` | src/MemSys/directory.c:432-482 | in every run a new request is refused for want of a buffer exactly when as many requests are in hand as there are buffers, and a ready one never |
| `DirTheorems.ParkingNeverOverfills` | src/MemSys/directory.c:2203-2217 | DirAddBuf is fatal exactly when the account would pass its size |
| `DirOrder.LooksTakeTurns` | src/MemSys/directory.c:174-198 | over any number of looks at OutboundReqs up to its length, each message is looked at once: those whose port has room leave, in order, and the others go to the back, in order |
| `DirOrder.BlockedLooksRotate` | src/MemSys/directory.c:174-198 | k looks without room turn the queue round by k places |
| `DirOrder.EveryMessageHasItsTurn` | src/MemSys/directory.c:174-198 | in every run, whatever happens in between, the message at place i of OutboundReqs is at its head after i looks |
| `DirOrder.EveryReadyRequestHasItsTurn` | src/MemSys/directory.c:226-236 | in every run the request at place i of ReadyReqs is at its head after i services, answered or parked |
| `DirOrder.ReleasedInOrder` | src/MemSys/directory.c:2235-2291 | DirCheckBuf keeps the order of the requests it moves and of those it leaves |
| `DirOrder.HandedBackGoesFirst` | src/MemSys/directory.c:1147-1198 | a request handed back by its line becomes ready behind those that are and before all that waited behind it |
| `DirOrder.ParkedAgainIsOvertaken` | src/MemSys/directory.c:562-576 | an instance where requests for one line are not served in order: parked again from ReadyReqs, a request is overtaken by the next one |
| `DirTheorems.OutboundFits` | src/MemSys/directory.c:779-798 | the outbound queue needs no more entries than there are buffers charged |
| `DirOutputs.ServeEmits` | src/MemSys/directory.c:385-775 | serving a request puts at most one message out, never a COHE, and what it sends or queues of granting answers is the one its line granted |
| `DirOutputs.ReplyEmits` | src/MemSys/directory.c:1009-1479 | absorbing a COHE_REPLY puts at most one message out: the resent forward, which is then in flight, or an answer, granting exactly when the line grants |
| `DirOutputs.SendEmits` | src/MemSys/directory.c:827-1008 | DIRSENDCOHE puts out exactly the message that comes to be in flight for its line, or nothing |
| `DirOutputs.OutboundEmits` | src/MemSys/directory.c:776-812 | DIROUTBOUND puts out exactly the head of the queue, or nothing; grants queued and sent together stay the same |
| `DirRuns.SysStepKeepsInv` | src/MemSys/directory.c:157-1540 | an enabled event of the whole directory is, on its line, zero to two steps of the line protocol, and keeps lines, queues, account and the record of messages sent, unless it serves a request left under the type of its answer to a line at rest, when it halts |
| `DirRuns.StepProjects` | src/MemSys/directory.c:157-1540 | an event that goes on takes its line, with all that is in flight for it, through a run of the line protocol, and leaves every other line as it was |
| `DirRuns.SysRunKeepsInv` | src/MemSys/directory.c:157-1540 | hence every run keeps the system invariant for as long as it goes on, and can halt only at "Unknown request type" once an answer has found no room |
| `DirQueues.ReleaseKeepsQueues` | src/MemSys/directory.c:2235-2291 | releasing the requests behind a line leaves only requests parked behind lines that are still pending |
| `DirRuns.LedgerKept` | src/MemSys/directory.c:2203-2233 | a balanced step keeps the buffer account and the request account |
| `DirLedger.ServedBalances` | src/MemSys/directory.c:535-613 | what is in hand and what leaves as an answer after serving a request is what was in hand plus the request, whichever way it is served |
| `DirLedger.AbsorbReplyBalances` | src/MemSys/directory.c:1383-1479 | absorbing a COHE_REPLY loses nothing either: the transaction stays, leaves with its answer, or ends with the acknowledged transfer |
| `DirSafety.ServedTracks` | src/MemSys/directory.c:385-775 | serving a request is the line protocol's step on its line and nothing on the others |
| `DirSafety.ReplyTracks` | src/MemSys/directory.c:1009-1479 | absorbing a COHE_REPLY is one step of the line protocol, or two when a resent forward leaves at once |
| `DirModule.Directory.Lookup` | src/MemSys/directory.c:2503-2567 | returns the line of a tag, adding a fresh UNCACHED one only if there was none |
| `DirModule.Directory.AddBuf` | src/MemSys/directory.c:2203-2233 | appends to the pending buffer and charges a buffer unless the request had one; refuses exactly when the account says so |
| `DirModule.Directory.CheckBuf` | src/MemSys/directory.c:2235-2291 | loop proved to be a stable partition of the pending buffer by tag |
| `DirModule.Directory.CoheRead` | src/MemSys/directory.c:1712-1841 | imperative READ_SH case equals the decision that ReadIsAnswered and the forward theorems pin down |
| `DirModule.Directory.CoheInvalidate` | src/MemSys/directory.c:1883-1940 | imperative invalidating write equals its specification |
| `DirModule.Directory.CoheWrite` | src/MemSys/directory.c:1842-2103 | imperative UPGRADE and READ_OWN cases equal the decision that WriteIsAnswered and the forward theorems pin down |
| `DirModule.Directory.CoheWrb` | src/MemSys/directory.c:2104-2183 | imperative WRB and REPL case equals its specification |
| `DirModule.Directory.CohePending` | src/MemSys/directory.c:1615-1706 | imperative handling of a pending line equals its specification |
| `DirModule.Directory.CoheRtn` | src/MemSys/directory.c:1579-2194 | Dir_Cohe on the line table: the new line, the request moved to ReadyReqs and the buffer charged are those specified |
| `DirModule.Directory.ServeRequest` | src/MemSys/directory.c:385-775 | DIRREQ with its buffer test, RAR, immediate answer, round of invalidations and forward changes the directory exactly as specified |
| `DirModule.Directory.SendCohe` | src/MemSys/directory.c:827-1008 | DIRSENDCOHE changes the directory exactly as specified |
| `DirModule.Directory.TakeCoheReply` | src/MemSys/directory.c:1009-1479 | DIRCOHEREP changes the directory exactly as specified |
| `DirModule.Directory.TakeWrb` | src/MemSys/directory.c:1488-1540 | DIRWRB changes the directory exactly as specified |
| `DirModule.Directory.TrySendOutbound` | src/MemSys/directory.c:174-198 | the head of OutboundReqs goes out and frees its buffer, or is recycled to the back, as LooksTakeTurns states over many looks |
| `DirModule.Directory.FixForward` | src/MemSys/directory.c:2574-2594 | a forward type goes back to the request it came from, any other type is an error |
| `DirEvent.DirActivity.DirSim` | src/MemSys/directory.c:116-385 | one activation leaves the object exactly as `Activation` says, for every entry case, whatever the ports, the messages and the room there is; what that means is stated by the theorems of DirScan, DirTurns and DirPaths |
| `DirEvent.DirActivity.Scan` | src/MemSys/directory.c:157-360 | the round-robin loop ends, by a measure on unsent COHEs, the unchecked outbound queue and loop_count, exactly as `ScanEnd` says |
| `DirScan.ActivationEndsWell` | src/MemSys/directory.c:157-360 | an activation ends at a message to serve, with a message to send, or asleep with every port but the request port empty and, for input alone, nothing left to send or to serve again |
| `DirScan.OversleepsExactly` | src/MemSys/directory.c:157-360 | an activation goes to sleep for input over a waiting request iff the other ports are empty, nothing is ready or outbound after the one look, and the last message of the partial request leaves on a visit to the request port that follows an empty port, counted |
| `DirScan.OversleepsFromStart` | src/MemSys/directory.c:157-360 | the same condition spelled out for an activation that starts at DIRSTART: in terms of the entry state and of the room found at test 1, 2 or 3 |
| `DirScan.OversleepsAtTwoPorts` | src/MemSys/directory.c:206-282 | an instance: two ports, a request waiting, a forward left over, the turn at the other port |
| `DirScan.OnePortLoops` | src/MemSys/directory.c:340-355 | with the request port alone and its port full the loop comes back to the same state every three turns and never ends |
| `DirTurns.TurnPassesOn` | src/MemSys/directory.c:340-355 | once a message has been served, the same port does not have the next turn while another port, not the request port, has a message |
| `DirTurns.RequestPortHasItsTurn` | src/MemSys/directory.c:200-236 | the same for the request port with a request new or ready, unless a partial request is there |
| `DirTurns.RequestAfterReply` | src/MemSys/directory.c:340-355 | an instance: two ports, a request at one and replies at the other; after one reply the request is picked |
| `DirTurns.ServedWithinARound` | src/MemSys/directory.c:200-360 | over any chain of activations, whatever arrives at the ports between them and whatever room there is, a message at a port other than the request port is served before n others are |
| `DirTurns.SendingEnds` | src/MemSys/directory.c:827-1008 | an activation resumed to send coherence messages leaves fewer to send |
| `DirTurns.PortsAreQueues` | src/MemSys/directory.c:2605-2653 | a service takes the head of its port away, leaves it, or changes it in its place; nothing else at any port moves |
| `DirPaths.ActivationIsPath` | src/MemSys/directory.c:116-360 | begun in a state the system can be in, an activation is a path of enabled events of the system to the state it ends in: the service, then at most one look at OutboundReqs and the attempts to send, with the answers of the ports in turn; it fails only where HaltsExactly says |
| `DirPaths.PickIsAllowed` | src/MemSys/directory.c:206-240 | what an activation picks at the request port is a ready request if there is one, and a new one only with nothing ready and nothing partial |
| `SharerVector.Vector.Add` | src/MemSys/directory.c:2349-2380 | sets one bit over 32-bit words; reports whether the node was the only sharer |
| `SharerVector.Vector.RmAllAdd` | src/MemSys/directory.c:2383-2416 | leaves exactly one node in the vector |
| `SharerVector.Vector.RmAll` | src/MemSys/directory.c:2419-2434 | leaves no node in the vector |
| `SharerVector.Vector.Rm` | src/MemSys/directory.c:2438-2457 | clears one bit and no other |
| `SharerVector.Vector.Find` | src/MemSys/directory.c:2462-2497 | returns the number of bits over all words, the other sharers in the node array and whether the requester is one; with no array given it reports a copy whenever there is any sharer |
| `SharerVector.FindIsExact` | src/MemSys/directory.c:2462-2497 | the node array holds exactly the sharers other than the requester, strictly ascending, and its length fits the count |
| `DirLists.Queues.AddBuf` | src/MemSys/directory.c:2203-2217 | appends to the linked pending buffer |
| `DirLists.Queues.CheckBuf` | src/MemSys/directory.c:2235-2291 | on the linked buffer: requests on the tag move in order to the end of ReadyReqs, the others stay in order, head and tail pointers stay right |
| `DirLists.Queues.QueueAdd` | src/MemSys/directory.c:2310-2322 | appends to a linked queue, given a clear link on the new request unless the queue is empty |
| `DirLists.Queues.QueueRm` | src/MemSys/directory.c:2329-2341 | takes the head and returns it with a clear link |
| `DirLists.LineTable.Lookup` | src/MemSys/directory.c:2503-2567 | move-to-front chains: the entry of the tag ends at the head of its bucket, no entry is lost or duplicated, and a fresh UNCACHED one is added iff the tag had none |
| `DirLists.LineTable.OnePerTag` | src/MemSys/directory.c:2503-2567 | no tag has two entries in the table |
| `HashTables.EverySlotProbed` | incl/Processor/hash.h:60-65 | an odd step around a table whose size is a power of two visits every slot within one round |
| `HashTables.HashTable.Insert` | incl/Processor/hash.h:168-213 | inserting an absent key extends the map by it; a quarter of the slots stays empty; neither full-round branch is ever taken |
| `HashTables.HashTable.Lookup` | incl/Processor/hash.h:217-244 | finds exactly the map's entry |
| `HashTables.HashTable.Assign` | incl/Processor/hash.h:248-275 | changes the entry of a present key and nothing else |
| `HashTables.HashTable.Remove` | incl/Processor/hash.h:278-308 | removes exactly the key, keeping every other key findable over the tombstone |
| `HashTables.HashTable.Rehash` | incl/Processor/hash.h:312-335 | keeps the map, leaves no tombstone and at least half of the slots empty; the insertions it makes never rehash |
| `HashTables.HashTable.Drain` | incl/Processor/hash.h:339-371 | the destructive iterator yields every entry exactly once and leaves the table empty |
| `HashTables.FillRepresents` | incl/Processor/hash.h:169-190 | filling the empty slot that ends a probe represents the map with the new key |
| `HashTables.ForgetRepresents` | incl/Processor/hash.h:279-297 | a tombstone in place of a key represents the map without it |
| `HashTables.SomeEmptyIsMet` | incl/Processor/hash.h:169-182 | a probe of a table with an empty slot meets one |
| `Bits.Normalize` | incl/Processor/normalize.h:56-62 | returns the least power of two that is at least its argument |
| `Bits.NormalizeEnds` | incl/Processor/normalize.h:56-62 | on 32-bit words the doubling loop ends iff the argument is at most 2^31 |
| `Replacement.RunIsRecency` | src/MemSys/cache2.c:211-460 | after any run of touches the ages are a permutation of 1..setsz, and a touched way's age is 1 plus the number of distinct ways touched since |
| `Replacement.TouchKeepsRecency` | src/MemSys/cache2.c:333-354 | one more touch keeps that |
| `Replacement.VictimIsLeastRecent` | src/MemSys/cache2.c:464-472 | every other candidate of the victim's state class was touched after the victim's last touch |
| `Replacement.LargeCacheHits` | src/MemSys/cache2.c:355-385 | in a cache of more than SUB_SZ lines, where hit_update starts at line `set`, hits are sure to keep the ages of every set iff the set is the first or has one way |
| `Replacement.WrongStartHappens` | src/MemSys/cache2.c:211-385 | the bad case comes about: from the lines as init_cache leaves them, some present misses and one such hit give two ways of a set the same age |
| `Replacement.EveryOrderIsReached` | src/MemSys/cache2.c:392-460 | every permutation of the ages is reached by touching the ways in order, the oldest first |
| `Replacement.OnlyAgesMatter` | src/MemSys/cache2.c:333-354 | tags and states may change without disturbing the recency order |
| `Replacement.SplitAddress` | src/MemSys/cache2.c:271-273 | tag, set and place in the line give the address back |
| `Replacement.Cache.constructor` | src/MemSys/cache2.c:211-225 | every line invalid, ages of each set 1, 2 and so on |
| `Replacement.Cache.NotPres` | src/MemSys/cache2.c:264-317 | finds the first line of the set with the tag, hit or present miss, or reports that there is none |
| `Replacement.Cache.HitUpdate` | src/MemSys/cache2.c:325-385 | touches the line under LRU and keeps every set's recency order when the loop starts at the right line; nothing under FIFO |
| `Replacement.Cache.PremissUpdate` | src/MemSys/cache2.c:392-460 | touches the line under LRU in small and large caches alike |
| `Replacement.Cache.MissUpdate` | src/MemSys/cache2.c:474-667 | NO_REPLACE, with nothing changed, iff every way of the set has an upgrade outstanding that protects it; otherwise the victim is the one way on offer in the first state on offer of INVALID, SH_CL, PR_CL, dirty that is the oldest of these, and it is touched |
| `Replacement.VictimByState` | src/MemSys/cache2.c:464-472 | the state of a victim is the first on offer in that order |
| `Replacement.Cache.PickVictim` | src/MemSys/cache2.c:534-629 | the four best candidates of the loop give that victim, whose rank among the states is stated way by way |
| `TimestampHeap.Heap.Insert` | incl/Processor/heap.h:85-113 | adds the pair, keeping heap order, unless full |
| `TimestampHeap.Heap.GetMin` | incl/Processor/heap.h:115-182 | returns a pair with a least timestamp and keeps all others, each with its object |
| `TimestampHeap.Heap.Descend` | incl/Processor/heap.h:132-179 | the comparison switch picks the smaller child; the scratch copy for a missing right child stays in bounds and outside the live slots |
| `TimestampHeap.RootIsLeast` | incl/Processor/heap.h:77-77 | heap order makes the root least |
| `TimestampHeap.SiftUp` | incl/Processor/heap.h:99-110 | one exchange with the parent moves the only place where order may fail upwards |
| `TimestampHeap.SiftDown` | incl/Processor/heap.h:146-176 | one exchange with the smaller child moves it downwards |
| `CircularQueue.Circq.Insert` | incl/Processor/circq.h:91-92 | appends unless max elements are in, for any max |
| `CircularQueue.Circq.InsertAtHead` | incl/Processor/circq.h:93-94 | prepends, the head going back through zero by unsigned wrap |
| `CircularQueue.Circq.Delete` | incl/Processor/circq.h:95-96 | takes the first element |
| `CircularQueue.Circq.DeleteFromTail` | incl/Processor/circq.h:97-98 | takes the last element |
| `CircularQueue.Circq.PeekTail` | incl/Processor/circq.h:101-102 | the last element |
| `CircularQueue.Circq.PeekElt` | incl/Processor/circq.h:103-104 | the element at an index from the head; a negative index is not refused and reads the ring backwards |
| `CircularQueue.Circq.SetElt` | incl/Processor/circq.h:105-106 | changes that slot of the ring only, for a negative index too |
| `CircularQueue.Circq.Search` | incl/Processor/circq.h:150-179 | what it returns is equal to the key and at the place returned; on elements in order it finds one iff there is one, across the wrap and with the ring full |
| `CircularQueue.Circq.Search2` | incl/Processor/circq.h:181-224 | returns two neighbours equal to the key; on elements in order, iff two elements equal the key |
| `CircularQueue.StaleElementIsFound` | incl/Processor/circq.h:120-148 | a search of an emptied queue finds the element that was taken out |
| `CircularQueue.MaskBack` | incl/Processor/circq.h:93-98 | masking after an unsigned decrement goes back one slot, the wrap-around included |
| `MemoryQueue.MemQ.BothWalks` | incl/Processor/memq.h:104-107 | the next walk gives the sequence and the prev walk its reverse; items is its length |
| `MemoryQueue.MemQ.Insert` | incl/Processor/memq.h:117-129 | appends |
| `MemoryQueue.MemQ.Lookup` | incl/Processor/memq.h:133-142 | true iff the value is in the sequence |
| `MemoryQueue.MemQ.Replace` | incl/Processor/memq.h:152-163 | changes the first occurrence only |
| `MemoryQueue.MemQ.RemoveNode` | incl/Processor/memq.h:167-186 | removes that node in all of the head, tail, inner and only-node cases |
| `MemoryQueue.MemQ.Remove` | incl/Processor/memq.h:188-200 | removes the first occurrence only |
| `MemoryQueue.MemQ.RemoveGetPrev` | incl/Processor/memq.h:202-217 | also gives the element before, if any |
| `MemoryQueue.MemQ.RemoveGetNext` | incl/Processor/memq.h:219-234 | also gives the element after, if any |
| `MemoryQueue.MemQ.RemoveTail` | incl/Processor/memq.h:236-251 | drops the last element, if any |
| `HomeTree.Tree.Lookup` | src/MemSys/associate.c:135-160 | the node of the stored range that holds the address, none iff no range does |
| `HomeTree.Tree.OneHome` | src/MemSys/associate.c:135-160 | no two stored ranges hold the same address |
| `HomeTree.Disjoint` | src/MemSys/associate.c:193-198 | ranges in a search-ordered tree do not meet |
| `HomeTree.Tree.Insert` | src/MemSys/associate.c:166-432 | a range that meets no stored one is added, order kept; none of the branches for overlaps is taken |
| `HomeTree.Tree.Delete` | src/MemSys/associate.c:435-501 | removes exactly the one item in every child case and at the root, order kept |
| `HomeMerge.InsertList` | src/MemSys/associate.c:166-432 | with ranges of one node only: the walk, the trimming of boundary lines, the merging through deletion and re-insertion, and the split of a first address end, keep the tree in search order with no two ranges meeting, and cover what was covered and the new range |
| `HomeMerge.MergeIsUnion` | src/MemSys/associate.c:135-160 | then an address is found iff it was found before or lies in the new range, however the ranges overlap |
| `HomeMerge.DownKeeps` | src/MemSys/associate.c:193-421 | what one walk from the root leaves in the tree and has still to insert |

## Left out

- Simulated time, delays, statistics, cold-miss vectors, debug output and the
  object pools; a fresh line is UNCACHED with no sharer. What a reused record
  still holds is arbitrary: in a run of the protocol it is any function of the
  request, in `ReachableShape` it may differ from message to message.
- `wait_cntsz`, which the refusal paths do not decrement; the number of lines
  with a record takes its place.
- Remote writes (RWRITE, PUSH), the revival of `dirdone` requests and
  directories that are not full-map: the code marks them unsupported. RWRITE
  ends at its error.
- The resumed event that reads `dirptr->req` after a wake-up that did not set
  it (`src/MemSys/directory.c:138`, 214-227): the request at hand is the partial
  request.
- Activations with a zero access delay, which run on within the same call.
- Liveness under every schedule: `CanFinish` shows that all requests can be
  answered from every such state, not that they are; a cache may postpone the
  same forward for ever.
- Data values. Addresses appear only as tags, and in `NotPres`.
- DirModule.Directory.CheckBuf: the queues of class Directory are sequences;
  `DirLists.Queues` proves the linked form against the same partition.
- DirModule.Directory.Lookup: the line table is a map; `DirLists.LineTable`
  proves the chained form.
- DirModule.Directory.CoheRtn: the sharer vector is a set of nodes;
  `SharerVector.Vector` proves the words against that set. Which request a
  message object is, a pointer comparison in the source, is an identity field.
- DirEvent.DirActivity.DirSim: two ports or more and positive delays, as said
  above; whether an output port has room is asked of a parameter.
- HashTables.HashTable.Insert: a key that is already there is excluded, as the
  source leaves that case to its callers. Sizes are unbounded there, so the
  table never asks `normalize` for more than it can give.
- Replacement.Cache.MissUpdate: infinite caches, prefetch accounting and the
  two-level split of the line array into pieces of 2048 lines.
- HomeTree.Tree.Insert: ranges that overlap a stored one. Between different
  nodes boundary lines can change hands and identical ranges produce an inverted
  item, so the law is stated for disjoint ranges, which the first-touch call
  uses; `start` and `end` are therefore constants of an item.
- HomeMerge.InsertList: overlaps between ranges of different nodes; the merging
  of one node's ranges is on values, without the relinking in place.
- CircularQueue.Circq.Search: the first variant differs only in not returning
  the place.
- TimestampHeap.Heap.GetMin: PeekMin of an empty heap reads an unwritten slot
  and has no counterpart.
- MemoryQueue.MemQ.RemoveNode: freeing of nodes; `restart` has no counterpart.
- `bus.c`, `cachehelp.c`, `architecture.c`, the network, the caches' own MSHR
  logic and the processor pipeline: wiring, reporting or outside the core.
