# KeySpaceBreaker: a verified model

KeySpaceBreaker splits the key space of a Caesar or Vigenere cipher into units, leases the units to workers over the
network, merges the best candidates, writes checkpoints and lets several coordinators elect a Primary. This project
models that behaviour in Dafny and proves properties of every run of it. `dafny verify dfyconfig.toml` checks all of it.

Each imperative operation is a class method or a loop that is proved equal to a function on values. The step machines
(`Search`, `TextCache`, `Network`) are built from the same functions, so what is proved of their runs is proved of the
operations.

**Distributed search.**
`Base26` (key codec), `Units` (the policy's cut), `Decryptor` (a worker's sweep), `Coordinator.dfy` (module
`Coordination`: leases, done marks, best result, checkpoint record), `Sessions` (both ends of a worker connection),
`Search` (the machine of one task), `Lifecycle` (its bookkeeping), `Overbooking` (what happens to a session that is not
free), `TextCache` (the cipher text cache across tasks). The main theorem is `Search.DistributedRefinesSequential`:
under any interleaving of leases, timeouts, late and repeated answers, lost connections, checkpoints, crashes and
reloads, a finished search has the score of one sequential sweep over all keys, and its key attains that score.

**Coordinator election.**
`ServerNode` (the handlers of one coordinator), `Network` (nodes, connections with a FIFO queue each way, coroutines,
timers, losses, restarts), `Conflict` (two Primaries are never silent), `Convergence` (delivery ends), `Reign` (when
the least Primary stays), `Bully` (who the election timer promotes), `Failover` (that a lost Primary is replaced),
`Startup` (who may lead before the grace period ends), `Handshake` (which of two crossed connections survives),
`Mishaps` (runs that show what the theorems must exclude).

**Scoring.**
`Ciphers`, `Scoring` (the FAST tables against decrypt-then-count), `Kasiski` (key-length guessing).

## Modelling choices

- Code between two suspension points is one step. Pending coroutines may be scheduled in any order, and a broadcast may
  serve its copy of the peer list in any order.
- When a spawned coroutine starts matters in two places. The Asio that the repository carries dispatches the first
  step, so a coroutine spawned in a handler starts inside it (include/asio-1.36.0/include/asio/impl/co_spawn.hpp:140);
  other versions may start it later. Everywhere else the spawn is the last thing its handler does or commutes with the
  rest. (1) In `check_timeouts` an assignment that starts inside comes before the erase of the old lease record
  (src/CoordServ.cpp:379-380). `Search` has both forms of the timeout, so its theorems hold for both; of `Lifecycle`
  only "every leased unit has its record" depends on it, and `Lifecycle.InlineTimeoutRecordedIff` says exactly when it
  survives. (2) A HELLO response may leave before deduplication closes its session in the same handler; `Network` lets
  it be sent or dropped then, so the election results hold for both. `Overbooking.OverbookingLosesTheOptimum` is a run
  with a later start, `Overbooking.ResubmissionLosesTheOptimum` one with the start inside. The worker's sweep starts
  inside its handler in `Sessions` and `TextCache`.
- Scores are reals, with `Max` for the `max()` sentinel and `NaN` for what 0/0 leaves behind. BRUTE scoring is a fixed
  function of the decrypted text, the same at all workers. A key that is not a number is a `NotANumber` result of `stoi`.
- Integers are unbounded; where the 32-bit `int` of the source matters, the bound is a lemma.
- A text decrypted with a one-letter key by the sweep uses the Vigenere form also for Caesar tasks;
  `Ciphers.OneLetterKeyIsCaesar` proves the two equal.
- The search machine is about one task and a checkpoint file of that same task. `Search.Disciplined` says that units
  are given only to sessions that are free or have no message under way. The code checks that a session is free when a
  unit times out, before it spawns the assignment (src/CoordServ.cpp:400-406), and not at all in `set_task`
  (src/CoordServ.cpp:275-281). `Search.AssignKeepsIff` shows that an assignment keeps the invariant exactly under this
  discipline; `Overbooking` shows what the others lead to, for another unit always and for the same unit as soon as a
  further unit is unassigned. The same task may be submitted again to a running server at any time, which is more than
  the server accepts (src/CoordServ.cpp:113-122).
- Node ids are ranks 0, 1, ...: the code only compares them. A node's sessions are a map from connection numbers; the
  order of `m_peers` matters only where two sessions share a peer, and reachable tables have no such pair outside the
  handler that removes it.

Where the code and its documentation differ, the code is followed: README.md:58-62 says conflicts are settled in favour
of the lowest id. `Mishaps.StaleAnnouncementDeposes` is a run in which the announcement of a node that no longer leads
deposes the least Primary and nobody is left; `Reign.DeposableIff` says exactly when that can happen.

## Model

| member | source | states |
|---|---|---|
| Search.DistributedRefinesSequential | src/WorkerSession.cpp:85-121 | in every run that gives units only to sessions that are free or have nothing under way, once all units are done the best score equals that of one sequential sweep, no key scores less, and the stored key attains it unless it is the sentinel |
| Search.RunInv | src/Coordinator.cpp:24-60 | every reachable state keeps the invariant: best no worse than each done unit and attained by a real key, messages belong to the unit their session remembers, saved record equally sound |
| Search.StepKeeps | src/CoordServ.cpp:372-426 | each single step (connect, assign, work, answer, disconnect, timeout check in either form, resubmission, crash) keeps that invariant |
| Search.InlineTimeoutKeeps | src/CoordServ.cpp:376-407 | a timeout whose assignments start inside the handler keeps it too: the erase of the lease record does not touch what the search finds |
| Search.AssignKeepsIff | src/Coordinator.cpp:24-39 | an assignment to an open session keeps that invariant if and only if nothing is unassigned or the session has no request or answer under way |
| Search.AnswersAreForTheirUnits | src/WorkerSession.cpp:95-98 | in every such run an answer about to be credited is exactly the sweep of the unit it is credited to |
| Search.HopKeepsBound | src/WorkerSession.cpp:42-67 | a unit bound encoded by the coordinator is decoded by the worker to the same index, for both ciphers |
| Search.HopKeepsUnit | src/NetworkWorker.cpp:110-156 | the unit rebuilt from a request gives the same sweep result as the unit that was sent |
| Lifecycle.LifecycleHolds | src/Coordinator.cpp:24-81 | in every reachable state of every run, free sessions or not, only leased units have lease records, the done counter is the number of done units, ranges are those of the cut, and done minus last checkpoint never wraps; every leased unit has its record if each timeout with assignments started inside found room below, so always where coroutines start later |
| Lifecycle.InlineTimeoutRecordedIff | src/CoordServ.cpp:376-407 | with assignments started inside the timeout handler every leased unit keeps its record if and only if there are at least as many unassigned units below the timed-out one as free sessions |
| Lifecycle.UnitIsStranded | src/CoordServ.cpp:379-380 | for every job, a run that leaves its first unit leased without a record; each session is given a unit on connecting as long as one is unassigned |
| Lifecycle.StrandedStays | src/CoordServ.cpp:376-385 | such a unit stays leased, so the task does not complete, until an answer is credited to it or the task is reloaded |
| Lifecycle.DoneIsConserved | src/Coordinator.cpp:41-60 | in every run, between reloads, done units stay done, the counter grows by exactly the number of answers credited to a leased unit, so late and repeated answers count nothing, and the best score never gets worse |
| Lifecycle.CreditedOnce | src/Coordinator.cpp:47-60 | no unit is credited twice between reloads |
| Lifecycle.StepMoves | src/WorkerSession.cpp:95-98 | over one step a unit becomes done exactly when an answer is credited to it while it is leased |
| Lifecycle.LeasesAgeOut | src/CoordServ.cpp:376-384 | in every run an assignment records its session and time, a check gives back exactly the leases of ten seconds or more and leaves none, and only such a lease is given back by an inline timeout |
| Lifecycle.AnswersAreMerged | src/WorkerSession.cpp:95-97 | every answer is merged, also one of a session without a unit, which is then dropped without a credit |
| Lifecycle.DisconnectedIsSilent | src/WorkerSession.cpp:74-83 | in every run a disconnected session works and answers no more until a restart |
| Search.CrashRecovery | src/Coordinator.cpp:109-146 | crash and reload, and resubmission, keep ranges and exactly the saved done marks, forget leases, recount, and restore a best score no worse than any key of any done unit; a crash loses all sessions, a resubmission none |
| Lifecycle.CheckpointLag | src/CoordServ.cpp:412-426 | in every run whose checkpoint files could be written, a crash right after a timeout check loses fewer done units than the checkpoint interval, and none when the task is complete |
| Lifecycle.CheckpointWrittenIff | src/CoordServ.cpp:416-425 | a check that can write does so if and only if five more units are done or the last one is |
| Lifecycle.FailedWriteIsNotRepeated | src/CoordServ.cpp:421-423 | a check that could not write its file moves the mark and leaves the file, and later checks do not write it until more units are done |
| Lifecycle.CompletedTaskUnsaved | src/Coordinator.cpp:98-103 | for every job of one unit, a run whose first check cannot write and whose completed task is lost by a crash, even after a further check |
| Search.FastSearchIsLetterwiseOptimal | src/Decryptor.cpp:82-103 | a finished FAST search names a key each of whose letters minimises the chi-square of its own stream |
| Overbooking.OtherUnitMiscredited | src/CoordServ.cpp:275-281 | from every state with the invariant, giving a busy session another unit leads in one turn to that unit being marked done with the sweep of the old one, whether a request or an answer was under way |
| Overbooking.SameUnitFallsBehind | src/WorkerSession.cpp:95-121 | from every such state, giving it the same unit again leads, if a further unit is unassigned, to that further unit being marked done with a second sweep of the first, although the session was free when it was given |
| Overbooking.ResubmissionLosesTheOptimum | src/CoordServ.cpp:275-281 | a run, with the unit size of the code, in which a task is submitted again after it completed while a worker is busy; the answers fall one unit behind and all units are marked done without the best key being scored |
| Overbooking.OverbookingLosesTheOptimum | src/CoordServ.cpp:392-409 | a run with a later start of coroutines in which one timeout check gives two units to the same free session, with the same end |
| Coordination.Coordinator.constructor | src/Coordinator.cpp:7-22 | draws exactly the policy's cut, nothing pending or done, best is the sentinel |
| Coordination.Coordinator.AssignToWorker | src/Coordinator.cpp:24-39 | leases the first unassigned unit and records the lease, or changes nothing when there is none |
| Coordination.Coordinator.CandidateToBest | src/Coordinator.cpp:41-45 | keeps the better of the two results, the older one on ties and NaN |
| Coordination.Coordinator.MarkDone | src/Coordinator.cpp:47-60 | credits a leased unit once, removes its lease, and leaves any other unit alone |
| Coordination.Coordinator.HasUnassignedUnits | src/Coordinator.cpp:62-69 | true if and only if some unit is unassigned |
| Coordination.Coordinator.AllUnitsDone | src/Coordinator.cpp:71-81 | true if and only if every unit is done |
| Coordination.Coordinator.LoadCheckpoint | src/Coordinator.cpp:129-141 | done units stay done and all others are unassigned, no leases, the counter is the number of done units, the saved best |
| Coordination.Coordinator.CheckTimeouts | src/CoordServ.cpp:372-399 | a lease of ten seconds or more loses its record and its unit is unassigned, a younger one and its unit stay, nothing else changes, and the workers of the former are named |
| Coordination.LeaseConsistent | src/Coordinator.cpp:31-33 | leasing keeps the counter exact, records only leased units and leaves no leased unit without a record if there was none |
| Coordination.DoneConsistent | src/Coordinator.cpp:47-60 | crediting keeps them |
| Coordination.ExpireConsistent | src/CoordServ.cpp:376-384 | giving back overdue leases keeps them |
| Coordination.LoadedConsistent | include/Unit.hpp:89-103 | a restored record satisfies them from the start, leased units having become unassigned |
| Coordination.AllDoneIffCount | src/Coordinator.cpp:71-81 | the counter reaches the number of units exactly when all are done |
| Units.ExactPartition | src/StaticPolicy.cpp:24-32 | for every positive unit size the cut consists of contiguous, non-empty ranges, every index of the key space is in exactly one and no other index is in any |
| Units.CutTiles | src/Coordinator.cpp:15-21 | the drawn units tile the key space from any start, all but the last of full size |
| Units.StaticPolicy.GetNextUnit | src/StaticPolicy.cpp:24-32 | returns the head of the remaining cut and advances to its tail, the end marker exactly when the space is used up, within 32 bits whenever one more unit fits |
| Units.PolicyFitsInt32 | src/CoordServ.cpp:354-357 | the policy's sums fit a 32-bit int exactly for key lengths up to six |
| Base26.KeySpaceFitsInt32 | src/CoordServ.cpp:348-354 | 26 to the key length fits a 32-bit int exactly up to six, although seven is accepted |
| Base26.CodecRoundTrip | src/WorkerSession.cpp:43-54 | index to key and key to index are mutual inverses on the key space |
| Base26.KeyOfAt | src/Decryptor.cpp:59-66 | letter i of a key is the base-26 digit of its index with the weight of the letters after it |
| Base26.IndexToKey | src/Decryptor.cpp:59-66 | the digit loop computes the key of an index |
| Base26.IndexOfKeyOf | src/NetworkWorker.cpp:139-145 | reading back a key of any index gives the index modulo the size of the key space |
| Base26.KeyToIndex | src/NetworkWorker.cpp:139-145 | the loop computes Horner's rule over any signed bytes; on an upper-case key that is its index, within 32 bits up to six letters |
| Base26.HornerIsIndex | src/NetworkWorker.cpp:139-145 | on upper-case keys Horner's rule gives the index |
| Base26.HornerFront | src/NetworkWorker.cpp:139-145 | for any bytes the first weighs 26 to the number of bytes after it |
| Base26.IncrementKey | src/Decryptor.cpp:68-78 | the carry loop computes the successor key |
| Base26.SuccessorIsNextKey | src/Decryptor.cpp:104-106 | the successor of the key of an index is the key of the next index |
| Base26.SuccessorAddsOne | src/Decryptor.cpp:68-78 | incrementing adds one to the index modulo the size of the key space |
| Decryptor.SweepIsFirstMinimum | src/Decryptor.cpp:82-107 | the sweep of a range is its smallest-index minimiser, or the sentinel when nothing is below it |
| Decryptor.PolyAlphabeticDecryptor.FillStreams | src/Decryptor.cpp:38-56 | the tables hold the letter counts and sizes of the text's streams |
| Decryptor.PolyAlphabeticDecryptor.ScoreForKey | src/Decryptor.cpp:17-31 | the table loop computes the FAST score, NaN when a stream is empty |
| Decryptor.PolyAlphabeticDecryptor.TryKey | src/Decryptor.cpp:83-103 | a key replaces the best result on a strictly smaller score; in BRUTE mode that is the score of the plain text |
| Decryptor.ScorerMeaning | src/Decryptor.cpp:84-99 | BRUTE scores the plain text and FAST the streams of the plain text, however it is obtained |
| Decryptor.PolyAlphabeticDecryptor.SweepOne | src/Decryptor.cpp:82-107 | one turn offers the key of the loop counter and leaves the key of the next counter |
| Decryptor.PolyAlphabeticDecryptor.ProcessUnit | src/Decryptor.cpp:33-110 | in both modes the best result is that of sweeping the range with the mode's scoring, from the best so far |
| Scoring.CalculateScore | src/Decryptor.cpp:155-181 | the loop computes Pearson's statistic in closed form over the number of positions of each letter, the sentinel for a text without letters |
| Scoring.ChiClosedForm | src/Decryptor.cpp:173-178 | for counts that add up to n, n times the chi-square is the sum of the squared counts over the letter frequencies less 1.00001 n squared |
| Scoring.TermQuotient | src/Decryptor.cpp:175-177 | a letter's term times its expected count is the squared deviation |
| Scoring.TermVanishesIff | src/Decryptor.cpp:175-177 | it is zero if and only if the count is as expected |
| Scoring.FrequenciesInOrder | src/Decryptor.cpp:10-15 | the table ranks the letters E, T, A, O, I, N and so on |
| Scoring.StreamsCountPositions | src/Decryptor.cpp:47-55 | the tables count the positions of a residue modulo the key length, and those that hold a given letter |
| Scoring.FastRefinesDecryptThenCount | src/Decryptor.cpp:17-31 | for every text and key the FAST score is the sum of the per-stream chi-squares of the decrypted text; finite if and only if the text has a letter for every key letter |
| Scoring.OneLetterFastIsTextScore | src/Decryptor.cpp:155-181 | for one-letter keys FAST equals the plain score of the decryption if and only if the text has a letter |
| Scoring.FastOptimumIsLetterwise | src/Decryptor.cpp:82-103 | a key minimises the FAST score if and only if each letter minimises its own stream |
| Scoring.StreamsNonEmptyIff | src/Decryptor.cpp:46-55 | all streams are non-empty exactly when there are at least as many letters as key letters |
| Ciphers.VigenereDecrypt | src/VigenereEncryptedMessage.cpp:8-26 | position by position: what is no letter stays, a letter is moved back within the alphabet of its own case by the key character whose number is the number of letters before it; an empty key leaves the text |
| Ciphers.CaesarDecrypt | src/CaesarEncryptedMessage.cpp:17-34 | every letter is moved back within the alphabet of its own case by the place of a one-letter key or by the parsed number, with the remainder of C++; it fails exactly when the key is no number |
| Ciphers.OneLetterKeyIsCaesar | src/CaesarEncryptedMessage.cpp:20-21 | a one-letter Vigenere key decrypts as the Caesar cipher does |
| Ciphers.LettersOfDecrypt | src/VigenereEncryptedMessage.cpp:15-24 | letter j of the plain text is letter j of the cipher text moved back by key letter j modulo the key length |
| Ciphers.DecryptIsPlain | src/VigenereEncryptedMessage.cpp:15-24 | that description holds of the decryption for every text and key |
| Ciphers.PlainIsUnique | src/VigenereEncryptedMessage.cpp:15-24 | and leaves exactly one plain text |
| Ciphers.DecryptThenNegatedRestores | src/VigenereEncryptedMessage.cpp:8-26 | decrypting with a key and with its letterwise negation, in either order, restores the text |
| Ciphers.CropText | src/CoordServ.cpp:43-56 | cuts right after the 1000th letter, or keeps all |
| Ciphers.CropLetterCount | src/CoordServ.cpp:49-52 | the crop has a thousand letters, or all that there are |
| Ciphers.CropIsUnique | src/CoordServ.cpp:43-56 | that description leaves exactly one result |
| Ciphers.DecryptOfCropIsPrefix | src/CoordServ.cpp:322-325 | decrypting the crop gives a prefix of decrypting the text, and its letters are a prefix of the text's |
| Sessions.EncodeBound | src/WorkerSession.cpp:42-67 | computes the encoded bound for either cipher |
| Sessions.WorkerSession.SendUnit | src/WorkerSession.cpp:22-72 | remembers the unit, sends its request, and sends the text along once |
| Sessions.WorkerSession.HandleStatus | src/WorkerSession.cpp:85-124 | merges the candidate, credits the remembered unit, frees the session, and reports finished or more to do; without a remembered unit it throws after the merge |
| Sessions.WorkerSession.ResetTextCache | include/WorkerSession.hpp:26-28 | the next unit will carry the text |
| Sessions.Worker.HandleRequest | src/NetworkWorker.cpp:84-191 | updates the cached text, answers exactly when a text and usable bounds are there, with the sweep of the decoded range over the cached text |
| Sessions.WorkerAnswersItsUnit | src/NetworkWorker.cpp:139-156 | a worker that holds the task's text answers a request with the sweep of the unit that was sent, in both modes |
| TextCache.UnitsSeeTheirText | src/NetworkWorker.cpp:95-109 | in every run with non-empty texts and registered sessions each received unit is processed against the text of the task it was sent for |
| TextCache.StepKeeps | src/CoordServ.cpp:264-281 | every step, also a task complete from its checkpoint that skips the reset, keeps the cache invariant |
| TextCache.TextSentOnce | src/WorkerSession.cpp:32-40 | in every run a session is sent the text again only after a new task with units left to do |
| TextCache.TextSentFirst | src/CoordServ.cpp:275-276 | and it is sent with the first unit after such a task, and to a new session |
| TextCache.SendIsRightIff | src/WorkerSession.cpp:32-40 | one more unit will see its text if and only if a non-empty text goes along or the worker will hold that text anyway |
| TextCache.TimedOutSessionKeepsOldText | src/CoordServ.cpp:392-409 | a run in which a session removed by a timeout is not reset and works a unit on the previous text |
| TextCache.EmptyTextKeepsOldText | src/NetworkWorker.cpp:95-98 | a run in which a task with an empty text is worked on the previous text |
| ServerNode.CoordinatorServer.constructor | include/CoordServ.hpp:88-144 | a new node is a Backup without sessions, elections or coroutines |
| ServerNode.CoordinatorServer.ScanPeers | src/CoordServ.cpp:484-499 | finds whether an identified peer is Primary, whether one has a lower id, and how many are identified |
| ServerNode.CoordinatorServer.Recompute | src/CoordServ.cpp:479-511 | promotes a Backup exactly when the grace period is over or all peers are known, none is Primary and none is lower |
| ServerNode.CoordinatorServer.CloseDuplicate | src/CoordServ.cpp:436-458 | of two sessions with one peer keeps the one dialled by the lower id |
| ServerNode.CoordinatorServer.PeerHello | src/CoordServ.cpp:428-477 | removes the duplicate, then yields, asserts itself or recomputes the role |
| ServerNode.CoordinatorServer.Hello | src/PeerSession.cpp:108-137 | identifies the peer, spawns the response to a request with the role of that moment, and informs the server |
| ServerNode.CoordinatorServer.NotePeers | src/CoordServ.cpp:714-720 | exactly the sessions of the announced id are recorded as Primary |
| ServerNode.CoordinatorServer.PeerCoordinator | src/CoordServ.cpp:703-733 | a lower Primary asserts itself, everyone else becomes Backup and leaves the election |
| ServerNode.CoordinatorServer.HandleMessage | src/PeerSession.cpp:68-104 | every message is handled as in the network machine |
| ServerNode.CoordinatorServer.HandleEvent | src/CoordServ.cpp:540-624 | so is every lost session and every timer; what each of them does is stated in `Failover` |
| Network.RunWellFormedAt | src/CoordServ.cpp:428-462 | in every reachable network identified sessions of a node have distinct peers, namely the nodes at the other ends |
| Network.DedupDistinct | src/CoordServ.cpp:436-458 | removing the duplicate restores distinctness and touches nothing else |
| Network.StepWellFormed | src/PeerSession.cpp:68-104 | every step keeps sessions, connections and message senders consistent |
| Conflict.ClashesAreExposed | src/CoordServ.cpp:464-474 | in every reachable network, if both ends of an open connection are Primary then a COORDINATOR, spawned or queued, or a HELLO naming a Primary is still under way between them |
| Conflict.StepKeeps | src/CoordServ.cpp:650-662 | every step, with any timers, losses and restarts, keeps that |
| Conflict.SettledMeshHasOnePrimary | src/CoordServ.cpp:703-733 | once the announcements have been delivered no two linked nodes are both Primary |
| Conflict.TwoPrimariesHappen | README.md:58-62 | a run that reaches two Primaries |
| Convergence.HandleWeight | src/CoordServ.cpp:703-712 | whatever the handling of a message sets off weighs less than the message; announcements and elections only cascade to lower ids |
| Convergence.FrozenStepDecreases | src/CoordServ.cpp:650-662 | without timers and link changes every delivery and every coroutine slice lowers the network's measure |
| Convergence.FrozenRunEnds | src/CoordServ.cpp:650-733 | such a stretch of a run is no longer than the measure of its first network |
| Reign.ReignLasts | src/CoordServ.cpp:703-733 | with the open links established and no claim of a lower id under way towards it the least Primary stays the least Primary and links stay, whatever lies unread on closed connections or is announced to others |
| Reign.LowestIdWins | src/CoordServ.cpp:703-733 | if it is linked to all, it stays Primary throughout and, when nothing is left to deliver, is the only Primary |
| Reign.DeposableIff | src/CoordServ.cpp:650-733 | on established links some frozen continuation deposes the least Primary if and only if a claim of a lower id is under way towards it, as a message it can still read or as a coroutine that will still send one |
| Reign.PrimaryYieldsIff | src/CoordServ.cpp:436-474 | a message makes a Primary step down if and only if it is a COORDINATOR of a lower id or a HELLO of a lower Primary on a session that was accepted while every other session with that peer was dialled |
| Mishaps.StaleAnnouncementDeposes | README.md:58-62 | a run in which the unread announcement of a restarted node deposes the least Primary on established links and nobody is Primary |
| Bully.PromotedNodeIsLowest | src/CoordServ.cpp:592-648 | across lost links, restarts, new connections, restarted rounds and stale ALIVEs, if no handshake with a lower id was made while it waited, a node promoted by its timer after the traffic on its open connections was delivered has no live peer of a lower id with which it has shaken hands |
| Bully.PromotedNodeHasNoLowerPeer | src/CoordServ.cpp:604-624 | then it has a lower id than the other end of each of its open connections whose HELLOs have been delivered |
| Bully.PursuitLasts | src/CoordServ.cpp:664-701 | while a node waits without an ALIVE, for every lower peer the ELECTION or the ALIVE is still under way; every step but a handshake with a lower id keeps this |
| Bully.OpenEndsAreIdentified | src/PeerSession.cpp:108-137 | once the HELLOs of a connection have been delivered its two open ends have identified each other |
| Failover.UnansweredNodeTakesOver | src/CoordServ.cpp:580-624 | in every run a node that loses the Primary it follows, by a lost session or by silence, begins a round, and if no ALIVE and no COORDINATOR reaches it before its timer fires it is Primary then and announces itself |
| Failover.LossOfPrimary | src/CoordServ.cpp:569-590 | losing a session clears the alive mark and begins a round if and only if it is that of the Primary which the node follows |
| Failover.SilenceOfPrimary | src/CoordServ.cpp:548-566 | a missed heartbeat does so if and only if the node follows a Primary |
| Failover.PingKeepsFollowing | src/CoordServ.cpp:540-546 | a PING marks the Primary as alive and changes nothing else |
| Failover.RoundEnds | src/CoordServ.cpp:604-624 | the timer ends the round; it promotes and announces if and only if no ALIVE came |
| Failover.ElectionIsTakenUp | src/CoordServ.cpp:681-694 | an ELECTION of a higher id is answered and begins the node's own round, one of a lower id does nothing |
| Failover.AliveIsNoted | src/CoordServ.cpp:696-701 | an ALIVE answers a round in progress and does nothing otherwise |
| Failover.CoordinatorIsAccepted | src/CoordServ.cpp:703-733 | all but a lower Primary accept an announcement: they follow, leave the election and record exactly the announced id as Primary |
| Failover.LosingTheAnnouncedPrimary | src/CoordServ.cpp:714-720 | after that, losing a session begins an election if and only if it is a session of the announced id |
| Failover.YieldedNodeFollows | src/CoordServ.cpp:464-470 | a Primary that yields to a HELLO follows from then on |
| Failover.GracePromotesIff | src/CoordServ.cpp:75-80 | the end of the grace period promotes a Backup if and only if it knows no Primary and no lower id |
| Failover.HelloPromotesIff | src/CoordServ.cpp:500-510 | a HELLO promotes a Backup if and only if its session is kept, the grace period is over or all peers are known, and it knows no Primary and no lower id |
| Failover.BroadcastReaches | src/CoordServ.cpp:628-662 | a spawned broadcast reaches every open session with its COORDINATOR or PING, and every identified lower peer with its ELECTION |
| Failover.HeartbeatsAreSent | src/CoordServ.cpp:513-538 | the heartbeat timer of a Primary, and only of a Primary, spawns a broadcast of PINGs |
| Mishaps.LateHandshakeIsMissed | src/CoordServ.cpp:628-648 | a run in which a node is promoted after all traffic was delivered, although a lower live Primary shook hands with it while it waited |
| Startup.OnlyLowestIsPrimary | src/CoordServ.cpp:479-511 | in every run without grace expiry, heartbeat timeout or loss of a session recorded as Primary, only the smallest id is ever Primary |
| Startup.KnowingAllMeansKnowingLower | src/CoordServ.cpp:500-504 | a node that is not the lowest and knows as many peers as configured knows a lower one |
| Handshake.RunInv | src/PeerSession.cpp:108-137 | in every reachable network an unidentified open end still has a HELLO coming |
| Handshake.LowStaysOpen | src/CoordServ.cpp:448-457 | a connection dialled by the lower id is never closed by deduplication, at either end |
| Handshake.BothKeepTheLowerDial | src/CoordServ.cpp:428-462 | when two nodes dial each other, in any order of HELLOs, both ends keep the connection of the lower id and, once the HELLOs are delivered, the other one is closed |
| Kasiski.IndexOfCoincidence | src/KasiskiAnalyzer.cpp:7-21 | the loop computes the fraction of ordered position pairs that hold equal letters |
| Kasiski.PairSumCountsPairs | src/KasiskiAnalyzer.cpp:15-20 | the sum of n(n-1) over the letters is the number of ordered pairs of different positions with equal letters |
| Kasiski.GuessByIC | src/KasiskiAnalyzer.cpp:23-55 | for all bounds, the first length of the range with the greatest average IC, the minimum when none is positive |
| Kasiski.StreamAt | src/KasiskiAnalyzer.cpp:42-44 | a stream holds every len-th letter from its start to the end of the text |
| Kasiski.TrigramPositions | src/KasiskiAnalyzer.cpp:71-74 | the index has keys of three letters only and lists, for every trigram, exactly its positions in order |
| Kasiski.RepeatIff | src/KasiskiAnalyzer.cpp:71-82 | a repeat is the same three letters at two positions and at none between them |
| Kasiski.CountDivisors | src/KasiskiAnalyzer.cpp:76-89 | a length's count is the number of consecutive repeats at a distance it divides, and only positive counts are entered |
| Kasiski.DivisorsAreMoreFrequent | src/KasiskiAnalyzer.cpp:83-87 | a divisor of a length is supported by at least as many repeats as the length |
| Kasiski.RankByCount | src/KasiskiAnalyzer.cpp:96-101 | lists all candidates once, in descending order of count, ties in any order |
| Kasiski.GuessKeyLength | src/KasiskiAnalyzer.cpp:57-126 | for every minimum up to ten the guess lies between it and ten, and it is the first by average IC among three most supported lengths, or by IC alone when no repeat has a usable distance |
| Kasiski.GuessWithinRequestIff | src/KasiskiAnalyzer.cpp:103-125 | the guess keeps within the seven letters asked for if and only if some candidate of at most seven letters has an average IC that no longer candidate beats |
| Kasiski.GuessWithinRequest | src/KasiskiAnalyzer.cpp:91-101 | it does so whatever the averages when some repeat has a usable distance and none has a distance divisible by 8, 9 or 10 |
| Kasiski.GuessForSample | src/CoordServ.cpp:349-352 | on the text ABCDEFGHIABC the analyzer returns nine although seven was asked for |
| Kasiski.GuessExceedsRequest | src/KasiskiAnalyzer.cpp:62-62 | for the letters of ABCDEFGHIABC every guess is nine |

## Left out

- Sockets, acceptors, resolvers, dialling retries, framing and Asio's scheduling: only steps, queues and link events are modelled. Two coroutines writing to one socket are two messages in the queue, never interleaved bytes.
- JSON text, Base64 and file I/O with its atomic rename: records and messages are values; a checkpoint is written whole or not at all, and an unreadable one or one of another task counts as absent.
- Enum and string tables of the protocol, command-line parsing, the client, process entry points: easy members.
- Content of dictionary and trigram scoring, except `calculate_score`; rounding of doubles; the plain text stored with a result.
- `m_solved`, which nothing sets, and the opening and closing of the serving acceptors.
- Answers that cross from one task to a different one, `send_result_to_client` happening once, and the backups' record of who is Primary after a conflict: the code does not guarantee them.
- Uniqueness of `task_id`: a reload is of the same text, cipher, mode and key length.
- Key lengths above seven in FAST mode, which the seven-slot tables cannot hold, and length seven with its 32-bit overflow of the key-space size; the lemmas on 32-bit bounds say exactly where the limit is.
- Membership of a session in the worker list, in the search machine: any session may be assigned to, which allows more runs than the code has. `TextCache` keeps the list.
- Heartbeat intervals and real time: a timer step may come at any moment that its guard allows.
- Overflow of the products in the index of coincidence: counts are mathematical integers.
- Iterators of `m_pending_units` that an insertion from inside the timeout loop may invalidate.
- Sessions.Worker.HandleRequest: leaves out requests whose decoded start lies below zero, which no coordinator sends.
- Kasiski.GuessKeyLength: the order that `std::sort` gives to equal counts is unspecified, so the contract allows any.
- Kasiski.GuessWithinRequest: a sufficient condition only; the exact one is Kasiski.GuessWithinRequestIff.
- Lifecycle.CheckpointLag: needs every checkpoint file to be written; Lifecycle.FailedWriteIsNotRepeated and Lifecycle.CompletedTaskUnsaved show what happens otherwise.
- Handshake.BothKeepTheLowerDial: for runs without restarts and network failures, in which nobody dials the same node twice and an end loses a connection only after the other end closed it.
- Bully.PromotedNodeIsLowest: excludes handshakes with a lower id while the node waits; Mishaps.LateHandshakeIsMissed shows why.
- Reign.LowestIdWins: assumes that no claim of a lower id is under way towards the least Primary; by Reign.DeposableIff it may be deposed otherwise.
