# Four replication protocols, modelled and proved

This project models the protocol logic of a benchmark suite for replication protocols, written in Go, and proves what
the protocols rest on. `dafny verify dfyconfig.toml` (Dafny 4.11) covers the whole project.

- **PBFT** (`Pbft*.dfy`). One file each for the vote record of a sequence number, the message log with checkpoints and
  garbage collection, the reorder buffer, the new-view computation, and the replica with all its handlers. `PbftSystem`
  puts correct and faulty replicas on a network that keeps every message for ever. On top of it: agreement over all
  views with and without reuse of signatures (`PbftSignatures`, and a run that shows why the condition is there in
  `PbftDisagreement`), soundness of skipping by water marks, and when a new view carries every committed digest: for
  crash faults as the program is (`PbftNewViewCarriesCommits`), for Byzantine faults with a guard
  (`PbftGuardedNewView`), and not without it (`PbftDroppedCommit`). `PbftArrivals` says what one replica makes of any
  list of votes, `PbftCertificates` what it may claim afterwards, `PbftViewEntry` how it enters a view and works there,
  `PbftExecution` what it executes and votes on.
- **Multi-Paxos** (`Paxos*.dfy`). Acceptor, proposer, agreement per instance for proposers that run phase 1, the
  stride argument that makes skipping phase 1 safe, where exactly it is safe without it (`PaxosSkip`), and how long
  proposal numbers stay distinct without strides. `PaxosAttempts` says what one attempt does with any answers and ties
  it to the steps of the systems.
- **Simplex** (`Simplex*.dfy`). Reconfiguration texts, the node one lock region at a time, runs of one node under every
  interleaving of its lock regions (`SimplexProcess`), and, over those runs, the shape of the chain, membership as a
  replay, recorded sizes, conservation of transactions, and which certificates can coexist among many nodes.
  `SimplexRuns` builds the runs in which membership, sizes and transactions go wrong. From the steps of a run alone
  (`SimplexHistory`): which votes go out (`SimplexVoting`), what is certified (`SimplexCertifying`) and final
  (`SimplexFinality`), who is released (`SimplexCallers`), what is handed back (`SimplexBuffers`), and when timers
  count, proposals return and nodes catch up (`SimplexIterations`). `SimplexLog` ties the finalized log to signals.
- **BFT-SMaRt** (`BftSmart*.dfy`). Vote counting against an arbitrary reference vote, and agreement inside one regency
  with and without reuse of signatures, on digests and on batches. `BftSmartArrivals` says what one replica makes of any
  list of messages, `BftSmartReferences` which lists decide whatever the reference, `BftSmartProgress` how numbers and
  the window move.
- **Latency search** (`Latency*.dfy`). The recursive subset search over a shared buffer, its optimality, also on the
  sums over sets of pairs (`LatencySums`), and the submatrix built from its result.
- `Quorum.dfy` holds the counting arguments all of them share, `Runs.dfy` what the runs built step by step share, and
  `Options.dfy` the optional value.

Where the program updates an object step by step, the model is a class with the same fields and one method per handler.
Each method is proved to do what a step function on immutable values says, and the step functions carry the proofs:
a system is a state over those values with a relation from each state to the next, and the results are about every
reachable state of every run.

## Assumptions

- A signature covers the signed bytes and nothing else. PBFT signs a prepare and a commit alike
  (`src/pbft.gorums.new/server/crypto.go:49-63`) and leaves timestamps, certificates and re-proposals unsigned;
  BFT-SMaRt signs a proposal, a write and an accept alike and leaves batches unsigned
  (`src/bft-smart.gorums/server/crypto.go:85-95`). So in both systems anyone may put a signature it has seen on any
  message with the same signed part. A field of the system says whether that happens; each result says whether it holds
  then. Texts that happen to have the same length, such as those of a PBFT pre-prepare and checkpoint, are kept apart by
  the numbers in them. Otherwise signatures are ideal, sender identifiers lie in the cluster, and digests are injective.
- One handler is one atomic step. The Simplex results say where they hold for every interleaving of lock regions
  instead. What other goroutines do under `txMu` or `pendingTxMu` alone while a region of `mu` runs has the same effect
  before or after that region, so a region is one step.
- Messages are never lost from the network but may be delivered late, several times or never, to anyone. A crashed
  replica is one that takes no further step.
- Numbers are unbounded; 32-bit and 64-bit wrap-around is not modelled. Durations are integers of nanoseconds.
- PBFT agreement is proved whether or not a multicast reaches its own sender. The new-view result for crash faults
  assumes it does not, as `src/pbft.gorums.new/server/checkpoint.go:47-48` says of the library, and no reuse of
  signatures, f >= 1, and request timestamps other than 0. The guarded one covers both, with one sender more where it
  does.
- Paxos agreement takes distinct proposal numbers per instance, values that are not empty, no phase-1 skip and no
  acceptor reset. The results on strides and on the skip need none of the first three, but start from empty acceptors
  inside one epoch.
- Simplex certificates assume fixed membership and genuine certificates from other nodes, as
  `src/simplex.gorums/proto/simplex.proto:75-81` specifies. The gap-free chain assumes fewer members than a quorum vote
  for a block under another height than the block's, because counting does not compare the two.

## What the proofs brought to light

- Agreement of PBFT needs a check the program leaves out. A pre-prepare is recorded under the digest of its timestamp
  but answered with the digest it carries, and a prepare counts as a commit, so that a faulty primary makes two correct
  replicas commit different requests (`PbftDisagreement.AgreementNeedsTheChecks`). Comparing the digests on arrival is
  enough (`PbftSignatures.Agreement`) and is exactly what keeps a replica's votes on one digest
  (`PbftSignatures.ChecksAreExact`).
- Agreement of BFT-SMaRt needs one as well. The Accept carries the digest of the write that arrived last, which need not
  be the reference digest or the own one, and a write counts as an accept
  (`BftSmartDisagreement.AgreementNeedsTheCheck`, `BftSmartSignatures.Agreement`, `BftSmartSignatures.ChecksAreExact`).
- In BFT-SMaRt the batch handed over is the one that came with the proposal and is not compared with the accepted
  digest: with one digest and two batches a faulty leader makes correct replicas execute different batches, without any
  reuse of signatures (`BftSmartDisagreement.BatchesNeedTheCheck`). Comparing the two before handing over
  is enough (`BftSmartSignatures.OneBatchPerInstance`) and is exactly what keeps a replica on the accepted batch
  (`BftSmartSignatures.ComparisonIsExact`).
- The blocks that changed the Simplex membership are those in the chain exactly as long as every advance finds its own
  block at its place (`SimplexMembership.MembershipDespiteInterleaving`). A second certificate that overtakes a pending
  advance breaks it (`SimplexRuns.ChainAndGroupPart`): the chain keeps one block and the other one's reconfiguration
  takes effect.
- A Simplex node that advances past height 1 before Start has no size recorded for it, so that the quorum of that height
  follows later reconfigurations (`SimplexRuns.QuorumOfFirstHeightMoves`); every other height keeps its size
  (`SimplexSizes.SizeOfHeight`).
- A Start that runs after height 1 was finalized drains the leader's pool into a proposal for a height that is closed
  (`SimplexTransactions.LateStartStrands` says exactly when, `SimplexRuns.StartComesTooLate` is a run).
- PBFT entries replayed with timestamp 0 record a digest that no prepare of a replica without Byzantine faults names, so
  they never prepare: safe, not live (`PbftNewViewCarriesCommits.ReplayedNeverPrepares`, for crash faults; a faulty
  replica may name that digest).
- PBFT view-changes are taken at their word: one certificate for a high view decides what is re-proposed
  (`PbftNewView.HigherCertificateWins`), so that one faulty replica makes a new view drop a committed request
  (`PbftDroppedCommit.CommitIsDropped`). A new primary that insists on 2f matching prepares behind each highest-view
  certificate, one more where multicasts reach their sender, carries every commit
  (`PbftGuardedNewView.GuardedNewViewCarriesCommits`). The guard is enough, not necessary: a primary sends no prepare
  for its own proposals, so an honest certificate may fall one short of it.
- A PBFT replica that hears 2f+1 commits before the last prepare it needs becomes prepared and never commits, unless one
  more commit arrives: a prepare that completes an entry does not make it look at the commits again
  (`PbftArrivals.PrepareComesLast`; `PbftArrivals.CommittedExactly` says exactly when). Safe, not live.
- A BFT-SMaRt replica counts against whichever accept the iteration yields first, so that one stray accept can keep it
  from accepting for good (`BftSmartReferences.StrayAcceptStalls`; `BftSmartReferences.AcceptsWhateverTheReference` has
  the exact condition). Its accepts do not depend on the order otherwise, and need no proposal: an instance accepted
  before its proposal arrives is handed over without a batch (`BftSmartArrivals.ArrivalsAreExact`).
- A PBFT replica that takes over the view of a peer while it is in a view change stays in the change and answers nothing
  (`PbftViewEntry.WorksInTheAdoptedView`).
- A Paxos client that skips phase 1 in an instance another client also visits can have a second value chosen there, as
  two clients without strides do (`PaxosSkip.WithoutStridesParts`); nothing else goes wrong
  (`PaxosSkip.SkipIsSafeExactly`).
- Proposal numbers of two Paxos clients without strides stay apart for one first retry, not for a second retry
  (`PaxosNumbers.NumbersStayApart`), and can meet in one instance (`PaxosNumbers.TwoClientsShareANumber`).
- The mean of a latency matrix with one row divides by zero (`LatencyMatrix.ComputeMean` returns the failure).

## Model

| member | source | states |
|---|---|---|
| PbftSignatures.Agreement | src/pbft.gorums.new/server/pbft.go:333-508 | Over any run, all views and garbage collection included, n = 3f+1, at most f faulty replicas that send anything: two correct replicas that commit an entry at one number hold the same digest and timestamp, where signatures are never reused, and where they are but correct replicas check the digests of a pre-prepare they answer and of a prepare that completes an entry |
| PbftSignatures.ExecutionAgreement | src/pbft.gorums.new/server/pbft.go:85-161 | Under the same condition correct replicas execute in strictly increasing order and agree on every number both executed |
| PbftSignatures.ChecksAreExact | src/pbft.gorums.new/server/pbft.go:333-415 | For every handler and event: the votes it sends name the digest it recorded if and only if the arriving message passed those checks |
| PbftDisagreement.AgreementNeedsTheChecks | src/pbft.gorums.new/server/crypto.go:49-63 | A run of four replicas, one faulty, for any two timestamps and whether or not multicasts reach their sender: prepares counted as commits make correct replicas 2 and 4 commit one request each under number 1 |
| PbftAgreement.AgreementWithoutReuse | src/pbft.gorums.new/server/pbft.go:333-508 | Where no signature is reused, the committed entries agree on the view as well |
| PbftAgreement.OneCommitPerNumber | src/pbft.gorums.new/server/log.go:51-80 | A correct replica itself sends at most one Commit per sequence number over the whole run, because prepared is never cleared and numbers at or below the low water mark are dropped |
| PbftSkipping.NothingSkippedIsLost | src/pbft.gorums.new/server/pbft.go:85-114 | Every number a correct replica passed without executing, because its low water mark moved over it, was executed by at least f+1 correct replicas |
| PbftSkipping.CertifiedMeansExecuted | src/pbft.gorums.new/server/checkpoint.go:27-51 | A checkpoint certified by 2f+1 votes means f+1 correct replicas have executed everything up to it |
| PbftSkipping.WaterMarksAreSound | src/pbft.gorums.new/server/log.go:276-306 | Over any run: low is the stable number and a multiple of 10000, high lies 12000 above it, and f+1 correct replicas executed every number up to low |
| PbftNewViewCarriesCommits.NewViewCarriesCommits | src/pbft.gorums.new/server/viewchange.go:64-225 | Crash faults, f >= 1, non-zero timestamps: when a digest was committed at s and 2f replicas build view-changes from that state, every new-view set has minS >= s or re-proposes s with that digest |
| PbftDroppedCommit.CommitIsDropped | src/pbft.gorums.new/server/viewchange.go:116-225 | A run of four replicas, one faulty, no reuse of signatures, for any timestamp and whether or not multicasts reach their sender: replica 2 commits the request under number 1, correct replica 1 certifies it, and the new view re-proposes what replica 3 made up, as every new-view set over those view-changes does |
| PbftGuardedNewView.GuardedNewViewCarriesCommits | src/pbft.gorums.new/server/viewchange.go:149-225 | Byzantine faults, no reuse of signatures, correct replicas that check digests: if the new primary holds view-changes of 2f senders (2f+1 where multicasts reach their sender) and sees as many matching prepares behind each highest-view certificate, every new-view set starts above a committed number or re-proposes it with the committed digest |
| PbftNewViewCarriesCommits.PreparedMatchesDecision | src/pbft.gorums.new/server/log.go:259-269 | Under the same assumptions, once a digest is committed at a number no replica holds a prepared entry for another digest there |
| PbftNewViewCarriesCommits.CounterIsMonotone | src/pbft.gorums.new/server/viewchange.go:265-280 | The sequence counter never goes back over any event, and entering a view puts it at or beyond every re-proposed number |
| PbftNewViewCarriesCommits.ReproposedNotReassigned | src/pbft.gorums.new/server/viewchange.go:265-280 | Over any run: once a replica entered a view with some re-proposals, every request it proposes at any later moment gets a number above all of theirs |
| PbftViewEntry.WorksInEveryNewView | src/pbft.gorums.new/server/viewchange.go:228-325 | At every moment of every run, for any correct replica: a new-view message of the primary of view v leaves it in view v, out of the view change and primary exactly if v mod n + 1 is its id; the next pre-prepare of that primary, for a number within the marks with nothing recorded or re-proposed, is recorded under v and answered by a Prepare that names v |
| PbftViewEntry.EntersExactly | src/pbft.gorums.new/server/viewchange.go:250-325 | Entering a view, for any re-proposals: view, flags and counter; exactly the open numbers they name are recorded, under the view and with timestamp 0, and nothing else changes; a backup prepares each such number once, a primary repeats every re-proposal within the marks |
| PbftViewEntry.NewViewIsFollowed | src/pbft.gorums.new/server/viewchange.go:228-247 | A new-view message leads to that if it comes from member v mod n + 1, and has no effect otherwise |
| PbftViewEntry.ViewChangeIsAnswered | src/pbft.gorums.new/server/viewchange.go:116-147 | Only the primary of the view it names collects a view-change; the one that makes 2f senders makes it send the new view and enter it in the same way |
| PbftViewEntry.WaitsForTheView | src/pbft.gorums.new/server/viewchange.go:64-113 | From its timeout on a replica has asked for the next view and drops every pre-prepare, prepare and commit |
| PbftViewEntry.WorksInTheAdoptedView | src/pbft.gorums.new/server/checkpoint.go:98-116 | A joining replica works in the view it takes over, unless it is in a view change, which that does not end |
| PbftArrivals.ArrivalsAreExact | src/pbft.gorums.new/server/pbft.go:333-436 | Any list of votes, of any senders, for any numbers and in any order: an untouched number is prepared, and a Commit goes out, if and only if its pre-prepare and 2f matching prepares are in the list, the own one included; it is committed and handed over if and only if besides, at some commit that counts or at the pre-prepare, it was prepared and 2f+1 commits matched |
| PbftArrivals.CommittedExactly | src/pbft.gorums.new/server/log.go:82-111 | Once 2f+1 matching commits are in, the number is committed if and only if it was prepared when the replica last looked at the commits |
| PbftArrivals.PrepareComesLast | src/pbft.gorums.new/server/pbft.go:382-415 | A list of five messages among four replicas with everything a commit takes, after which replica 4 is prepared and has not committed |
| PbftCertificates.CertificatesAreEarned | src/pbft.gorums.new/server/viewchange.go:64-113 | After any list of votes in any order at a replica with an empty log: its view-change names the last stable number and certifies exactly the pre-prepares within the marks for which the list holds 2f matching prepares, the own one included |
| PbftCertificates.ProposesInSequence | src/pbft.gorums.new/server/pbft.go:165-206 | For any list of requests a primary hands out consecutive numbers without a gap, sends each request once under its number and digest, records it with the own prepare, and touches nothing else |
| PbftExecution.VotesAreExact | src/pbft.gorums.new/server/checkpoint.go:27-51 | At every moment of every run a correct replica has sent a checkpoint vote for exactly the multiples of 10000 that it executed |
| PbftExecution.ExecutionCertifies | src/pbft.gorums.new/server/checkpoint.go:27-51 | Once every correct replica has executed a multiple of 10000, votes of 2f+1 replicas for it are on the network |
| PbftExecution.TurnIsExact | src/pbft.gorums.new/server/pbft.go:91-161 | One round of the delivery loop executes the entry whose turn it is if it waits, votes at multiples of 10000, and drops exactly what it executed or skipped |
| PbftLogProperties.ReplayKeepsInv | src/pbft.gorums.new/server/log.go:276-325 | Over any sequence of checkpoint votes: low equals lastStableSeq, high is low plus the window, both only grow, every stable tally holds 2f+1 distinct voters on one digest, and the certificate of lastStableSeq is kept |
| PbftLogProperties.CollectionIsExact | src/pbft.gorums.new/server/log.go:311-325 | A vote discards exactly the executed entries at or below a newly stable number and touches no other |
| PbftLogProperties.StableIsCertified | src/pbft.gorums.new/server/log.go:131-143 | A stable checkpoint holds votes of at least 2f+1 distinct replicas on one digest |
| PbftLogProperties.TalliedProperties | src/pbft.gorums.new/server/log.go:131-143 | What any list of votes for one number adds up to: a digest counts its distinct voters, and the tally is stable exactly when the last recorded vote completed 2f+1 for its digest |
| PbftLogProperties.ProofRoundTrip | src/pbft.gorums.new/server/checkpoint.go:98-105 | Replaying the served certificate, in order, into an empty log makes the checkpoint stable exactly at the last message, gives the same stable number and water marks, and yields a log that serves the identical certificate |
| PbftDelivery.DeliveryIsOrdered | src/pbft.gorums.new/server/pbft.go:85-114 | For any arrival order, duplicates and forward movement of the mark: executed numbers strictly increase, none twice, and a number passed over without being executed lies at or below the mark |
| PbftDelivery.DeliveryIsComplete | src/pbft.gorums.new/server/pbft.go:85-114 | With the mark at 0 the executed log is exactly 1..m, where m is the largest number such that all of 1..m arrived, and what arrived beyond stays buffered |
| PbftDelivery.PermutationExecutesAll | src/pbft.gorums.new/server/pbft.go:85-114 | With the mark at 0, any permutation of 1..k executes exactly 1..k in order |
| PbftNewView.BuildNewView | src/pbft.gorums.new/server/viewchange.go:157-208 | The re-proposals cover exactly the numbers in (minS, maxS], in increasing order, each with the digest of a highest-view prepared certificate, or the null digest when there is none |
| PbftNewView.Bounds | src/pbft.gorums.new/server/viewchange.go:157-178 | minS is the largest stable number among the own one and the view-changes, maxS the largest certified number above it |
| PbftNewView.SurvivesExactly | src/pbft.gorums.new/server/viewchange.go:157-208 | Whatever the view-changes claim: every new-view set re-proposes a number above minS with a given request digest if and only if all highest-view certificates for it carry that digest and there is one |
| PbftNewView.HigherCertificateWins | src/pbft.gorums.new/server/viewchange.go:180-197 | One view-change with a certificate for a view above all others decides the digest re-proposed for its number, genuine or not |
| PbftNewView.BestCertificate | src/pbft.gorums.new/server/viewchange.go:180-197 | A certificate for the number whose view no other certificate for it exceeds, or none when there is none |
| PbftEntry.CountMatching | src/pbft.gorums.new/server/log.go:60-68 | Counts exactly the recorded votes that equal the pre-prepare in view, number and digest |
| PbftEntry.LogEntry.CheckPrepared | src/pbft.gorums.new/server/log.go:51-80 | Refines Entry.CheckPrepared: fires once, at 2f matching prepares, and never without a pre-prepare |
| PbftEntry.LogEntry.CheckCommitted | src/pbft.gorums.new/server/log.go:82-111 | Refines Entry.CheckCommitted: fires once, at 2f+1 matching commits of a prepared entry |
| PbftEntry.LogEntry.RecordPrePrepare | src/pbft.gorums.new/server/pbft.go:447-471 | Refines Entry.RecordPrePrepare: the first pre-prepare is kept with the own prepare, any later one changes nothing |
| PbftEntry.LogEntry.TryPrepare | src/pbft.gorums.new/server/pbft.go:473-490 | Refines Entry.TryPrepare: one prepare per sender, then the prepared check |
| PbftEntry.LogEntry.TryCommit | src/pbft.gorums.new/server/pbft.go:492-508 | Refines Entry.TryCommit: one commit per sender, then the committed check |
| PbftLog.MessageLog.constructor | src/pbft.gorums.new/server/log.go:167-177 | A new log is empty with low water mark 0 and the full window above it |
| PbftLog.MessageLog.GetOrCreate | src/pbft.gorums.new/server/log.go:179-194 | Hands out the one record object of a number, created empty when missing; no other record changes |
| PbftLog.MessageLog.WithinWaterMarks | src/pbft.gorums.new/server/log.go:208-212 | Accepts exactly the numbers above the low and up to the high water mark |
| PbftLog.MessageLog.StableCheckpointProof | src/pbft.gorums.new/server/log.go:243-254 | Serves number and votes of the last stable checkpoint, or (0, nothing) when there is none |
| PbftLog.MessageLog.PreparedEntries | src/pbft.gorums.new/server/log.go:259-269 | Returns every prepared entry above the number, each once, in some order, and no other |
| PbftLog.MessageLog.RecordCheckpoint | src/pbft.gorums.new/server/log.go:276-306 | Refines Log.RecordCheckpoint: whether this vote made the checkpoint stable, how many entries went, and the whole new log; surviving records are the same objects |
| PbftLog.MessageLog.GarbageCollect | src/pbft.gorums.new/server/log.go:311-325 | Removes the executed entries at or below the stable number and the tallies below it, keeps the rest, and reports the count |
| PbftDelivery.Purge | src/pbft.gorums.new/server/pbft.go:92-97 | Drops exactly the buffered entries at or below the mark |
| PbftDelivery.DrainLoop | src/pbft.gorums.new/server/pbft.go:90-113 | The inner loop terminates and executes what Drain says, with the mark re-read at every round |
| PbftDelivery.RunDeliver | src/pbft.gorums.new/server/pbft.go:85-114 | The whole goroutine, over any list of arrivals, executes what Run says |
| PbftReplica.PBFTServer.constructor | src/pbft.gorums.new/server/pbft.go:59-75 | A new replica is in view 0 with replica 1 as primary and nothing recorded |
| PbftReplica.PBFTServer.PrePrepare | src/pbft.gorums.new/server/pbft.go:333-380 | Refines OnPrePrepare: new state, the Prepare and possibly the Commit sent, and the decision made; nothing happens in a view change, from another primary, outside the water marks or on a second pre-prepare |
| PbftReplica.PBFTServer.Prepare | src/pbft.gorums.new/server/pbft.go:382-415 | Refines OnPrepare: the Commit goes out exactly when this prepare completes the entry |
| PbftReplica.PBFTServer.Commit | src/pbft.gorums.new/server/pbft.go:417-436 | Refines OnCommit: the entry is handed over exactly when this commit completes it |
| PbftReplica.PBFTServer.RunPrimary | src/pbft.gorums.new/server/pbft.go:165-206 | Refines Propose: the next number is used, recorded and sent with the request digest |
| PbftReplica.PBFTServer.TryRecordPrePrepare | src/pbft.gorums.new/server/pbft.go:447-471 | Only the entry of that number changes, to what recording the pre-prepare makes of it |
| PbftReplica.PBFTServer.TryPrepare | src/pbft.gorums.new/server/pbft.go:473-490 | Only the entry of that number changes, to what the prepare makes of it |
| PbftReplica.PBFTServer.TryCommit | src/pbft.gorums.new/server/pbft.go:492-508 | Only the entry of that number changes, to what the commit makes of it |
| PbftReplica.PBFTServer.RecheckPrepared | src/pbft.gorums.new/server/pbft.go:512-518 | The prepared check on the stored votes of one number |
| PbftReplica.PBFTServer.RecheckCommitted | src/pbft.gorums.new/server/pbft.go:520-526 | The committed check on the stored votes of one number |
| PbftReplica.PBFTServer.Deliver | src/pbft.gorums.new/server/pbft.go:79-81 | The committed entry joins the delivery queue and is the decision reported |
| PbftReplica.PBFTServer.DeliverNext | src/pbft.gorums.new/server/pbft.go:91-161 | One round of the inner loop on the live log: skip to the mark, execute the next entry if it is there, vote for a checkpoint at multiples of the interval |
| PbftReplica.PBFTServer.Checkpoint | src/pbft.gorums.new/server/checkpoint.go:56-69 | Refines OnCheckpoint: the vote is counted in the log and nothing else changes |
| PbftReplica.PBFTServer.SendStateTransfer | src/pbft.gorums.new/server/checkpoint.go:98-116 | The received certificate is replayed vote by vote into the log; the view of the response is adopted, an older one included |
| PbftReplica.PBFTServer.SendViewChange | src/pbft.gorums.new/server/viewchange.go:64-113 | The view-change names the stable number and exactly the pre-prepares of the prepared entries above it |
| PbftReplica.PBFTServer.ViewChange | src/pbft.gorums.new/server/viewchange.go:116-147 | Collected per sender, a later one replacing an earlier one whatever view it names; the primary of the named view answers when exactly 2f senders are there |
| PbftReplica.PBFTServer.SendNewView | src/pbft.gorums.new/server/viewchange.go:149-225 | Sends a new-view set that is exact for the collected view-changes, then enters the view |
| PbftReplica.PBFTServer.NewView | src/pbft.gorums.new/server/viewchange.go:228-247 | Followed only when it comes from the primary of its view |
| PbftReplica.PBFTServer.EnterNewView | src/pbft.gorums.new/server/viewchange.go:250-325 | Refines EnterNewView: view, primary flag, counter and the replayed entries |
| PbftReplica.PBFTServer.SwitchView | src/pbft.gorums.new/server/viewchange.go:251-280 | View state before the replay: the counter moves to the highest re-proposed number and never back |
| PbftReplica.PBFTServer.HighestNum | src/pbft.gorums.new/server/viewchange.go:266-272 | The largest re-proposed number, 0 for none |
| PbftReplica.PBFTServer.Replay | src/pbft.gorums.new/server/viewchange.go:285-320 | Re-proposals within the marks are recorded in order with timestamp 0, and a Prepare sent for each first one |
| PaxosAgreement.Agreement | src/paxos.ata/client/client.go:98-211 | For any number of proposers with distinct proposal numbers per instance that run phase 1: no two majorities accept different values in an instance, at whatever points of a run |
| PaxosAgreement.LearnedIsChosen | src/paxos.ata/server/server.go:141-153 | Every learned value was accepted by a majority under one number, and no other value ever is |
| PaxosAgreement.ChosenIsProposed | src/paxos.ata/client/client.go:124-157 | Once a value is chosen under a number, every Accept with that number or a higher one carries it |
| PaxosAgreement.PromisersCounted | src/paxos.ata/client/client.go:127-141 | The count of promises is the number of distinct acceptors behind them |
| PaxosAgreement.PromisesOnce | src/paxos.ata/server/server.go:95-114 | Over any run an acceptor promises a number of an instance at most once |
| PaxosAttempts.AttemptIsExact | src/paxos.ata/client/client.go:98-211 | One attempt, for any answers: its number; phase 1 is skipped exactly in a prepared instance and one stride after a prepared one in which nothing was seen; phase 2 is reached exactly with promises at a majority of positions; it carries the value of the first promise that reports the largest number, or the own one where none reports a value; it succeeds exactly with acceptances at a majority of positions |
| PaxosAttempts.CarriedIsUnique | src/paxos.ata/client/client.go:134-149 | No other value but that one is demanded by the answers |
| PaxosAttempts.AttemptKeepsChoice | src/paxos.ata/client/client.go:124-157 | Over any run of the agreement system: an attempt with phase 1 sends no other value than one already chosen under its number or a lower one |
| PaxosAttempts.AttemptIsProposal | src/paxos.ata/client/client.go:124-157 | From its answers an attempt with phase 1 sends an accept request exactly where the agreement system lets this proposer propose, and exactly the one that it sends |
| PaxosAttempts.SuccessIsChosen | src/paxos.ata/client/client.go:165-211 | A successful attempt had its value chosen, when its acceptances come from distinct acceptors |
| PaxosAttempts.AttemptIsStrideSteps | src/paxos.ata/client/client.go:98-211 | With or without phase 1 and whatever the network does in between, an attempt is a row of enabled steps of the stride system, sends what they send and leaves the client as they do |
| PaxosAttempts.AttemptsAreExact | src/paxos.ata/client/client.go:74-96 | At most eight attempts, up to the first success, with numbers that grow by 1 and by 50000, 100000, 150000 and so on before each retry |
| PaxosAttempts.AttemptIsRecorded | src/paxos.ata/client/client.go:143-211 | What the client remembers of an attempt: the highest instance, which instances are prepared, and in which nothing was seen |
| PaxosAttempts.SkipsFromTheSecond | src/paxos.ata/client/client.go:53-61 | After its strides are set a client runs phase 1 once; if that attempt succeeds in an instance with nothing accepted, it skips phase 1 in the next one |
| PaxosAttempts.RetryRunsPhase1 | src/paxos.ata/client/client.go:82-94 | A retry runs phase 1 again, unless it is one stride after the highest instance |
| PaxosClient.HighestIsMaximal | src/paxos.ata/client/client.go:134-137 | The selected number is the largest that any promise reports, and the selected value was reported with it |
| PaxosClient.AttemptNumbersIncrease | src/paxos.ata/client/client.go:82-94 | Over the retries of one proposal the numbers used strictly increase |
| PaxosStride.NumbersStrictlyIncrease | src/paxos.ata/client/client.go:53-61 | No sequence of client operations, stride resets included, uses a number twice or a smaller one later |
| PaxosNumbers.NumbersStayApart | src/paxos.ata/client/client.go:38-103 | Two new clients: what the lower one does up to an attempt shares no number with anything the other one may do if and only if attempts plus 50000 times the retry indices stay within 100000 per identifier between them |
| PaxosNumbers.TwoClientsShareANumber | src/paxos.ata/client/client.go:74-96 | Clients 1 and 2 without strides: after three retries of the one and four of the other, both make their last attempt in instance 5 under number 400008 |
| PaxosSkip.SkipIsSafeExactly | src/paxos.ata/client/client.go:98-164 | Clients with any starts and strides that skip phase 1 as the program does: an instance a client reaches after its first one is agreed upon in every run if and only if no other client ever visits it |
| PaxosSkip.WithoutStridesParts | src/paxos.ata/client/client.go:38-103 | A run of two clients as they are created, three acceptors: client 2 skips phase 1 in instance 3, where client 1 has had a value chosen, and a second value is chosen |
| PaxosSkip.AssignedNeverMeet | src/benchmark/paxosata.go:43-48 | With strides i+1 and n no two clients ever visit one instance, so that every skip is safe |
| PaxosStride.InstancesAreOwned | src/benchmark/paxosata.go:43-48 | With strides i+1 and n, every instance in use belongs for good to the client of its residue and to one value |
| PaxosStride.AllocationIsNew | src/paxos.ata/client/client.go:77-80 | An allocated instance was never allocated before, by any client |
| PaxosStride.OnlyTheOwnersValue | src/paxos.ata/client/client.go:102-164 | From empty acceptors and inside one stride epoch, the only value ever accepted or learned in an instance is its owner's, also where phase 1 was skipped |
| PaxosServer.Server.Prepare | src/paxos.ata/server/server.go:95-114 | Promises only a higher number, reports the last accepted number and value, and changes one record |
| PaxosServer.Server.Accept | src/paxos.ata/server/server.go:117-138 | Accepts at or above the promise and raises it, refuses below and tells the promise |
| PaxosServer.Server.Learn | src/paxos.ata/server/server.go:141-153 | The first learned value stays |
| PaxosServer.FirstLearnedStays | src/paxos.ata/server/server.go:141-153 | Over any list of Learn messages the first value that is not empty stays, and nothing else of the record changes |
| PaxosClient.Client.constructor | src/paxos.ata/client/client.go:30-50 | Numbers start at 100000 times the client number and the stride is 1 |
| PaxosClient.Client.CountPromises | src/paxos.ata/client/client.go:127-141 | Number of promises, and the highest reported number with its value |
| PaxosClient.Client.CountAcceptances | src/paxos.ata/client/client.go:176-185 | Number of positive answers |
| PaxosClient.Client.TryPropose | src/paxos.ata/client/client.go:98-211 | Refines ClientState.TryPropose: number, skip decision, value sent and outcome, for any answers |
| PaxosClient.Client.Propose | src/paxos.ata/client/client.go:74-96 | Refines Attempts over one allocated instance: stops at the first success or after eight attempts |
| PaxosClient.SetStrides | src/benchmark/paxosata.go:43-48 | Client i gets start i+1 and stride n, and no client is left out |
| SimplexProcess.ChainIsGapFree | src/simplex.gorums/server/node.go:513-563 | Under every interleaving of lock regions: height-1 <= len(chain) <= height, entry i is present and is the block of height i+1, no padding is needed, and height, entries and recorded sizes never change back |
| SimplexProcess.PaddingNeverRuns | src/simplex.gorums/server/node.go:914-916 | The loop that pads the chain with missing entries has nothing to do |
| SimplexProcess.SameIdSameHeight | src/simplex.gorums/server/node.go:414-419 | Blocks with the same identifier have the same height |
| SimplexProcess.QuorumHasHeight | src/simplex.gorums/server/node.go:789-800 | A quorum of counted votes for one identifier, with fewer liars than a quorum, certifies a block of the current height |
| SimplexCertificates.NotarizedBlocksAgree | src/simplex.gorums/server/node.go:789-816 | Fixed membership, at most (n-1)/3 faulty members, any n >= 1: what two correct nodes notarize at one height has one block identifier, unless one is the timeout block |
| SimplexCertificates.ChainsAgreeUpToTimeouts | src/simplex.gorums/server/node.go:513-522 | The same for the chain entries that correct nodes hold at one position |
| SimplexCertificates.DummyBesideBlock | src/simplex.gorums/server/node.go:441-450 | A dummy and a real block are both certified only if at least 2q-n-f correct members cast both votes, and those voted for a proposal at that height |
| SimplexCertificates.OneBlockPerHeight | src/simplex.gorums/server/node.go:718-748 | At most one identifier other than the timeout block's is certified at a height |
| SimplexCertificates.QuorumFacts | src/simplex.gorums/server/node.go:245-247 | For every n >= 1 and f = (n-1)/3: two quorums share more than f members, and the n-f correct members form a quorum |
| SimplexCertificates.SentVotesAreNew | src/simplex.gorums/server/node.go:692-749 | A lock region sends at most one vote, under the node's own name and the block's height, and one that is no timeout vote only for a height not voted in before |
| SimplexVoting.VotesAreExact | src/simplex.gorums/server/node.go:705-748 | Every step of every run: a vote goes out exactly on a proposal of members[draw(h) mod len(members)] for the current height h, to a member not yet voting there, whose block has height h and points to "genesis" or to the hash of the last chain entry; or for the timeout block, when the timer first fires |
| SimplexVoting.ProposalIsAnswered | src/simplex.gorums/server/node.go:705-748 | Such a proposal is answered by that vote and marks the height as voted; no other proposal changes anything but the buffers |
| SimplexVoting.AnnouncementsAreExact | src/simplex.gorums/server/node.go:513-574 | Every step of every run: a proposal goes out exactly on entering a height this node leads, with what the pool holds and is not final, on the end of the chain; the finalize message and the certificate exactly for the height being left |
| SimplexCertifying.CertifiedExactly | src/simplex.gorums/server/node.go:769-816 | Every step of every run: a vote certifies its block, and makes the node go on, if and only if there was no certificate, both are members, this member had not supported the block, and with it two thirds of the members support it; the certificate holds one vote of every supporter |
| SimplexCertifying.ListIsSupporters | src/simplex.gorums/server/node.go:789-800 | Over any run the votes kept for a block are one of every member whose vote for it arrived at that height, and no other |
| SimplexCertifying.RecordedExactly | src/simplex.gorums/server/node.go:900-930 | Besides votes, only a received certificate for the current height is recorded, the first of that height |
| SimplexFinality.FinalizedExactly | src/simplex.gorums/server/node.go:646-683 | Every step of every run: a height becomes final if and only if the step counted a finalize message for it or recorded its certificate, the certificate is there, and distinct members, each one when counted, that sent finalize messages for it are two thirds of the size recorded for the height, or of the group where none is |
| SimplexFinality.FinalHadBacking | src/simplex.gorums/server/node.go:646-683 | Behind every final height there is a moment of the run at which it had its two thirds and its certificate |
| SimplexFinality.RecordIsCounted | src/simplex.gorums/server/node.go:841-863 | Over any run the finalizers recorded for a height are exactly the members whose messages were counted |
| SimplexHistory.RunHasHistory | src/simplex.gorums/server/node.go:756-930 | Every run is one with a list of steps, so that what is said of histories holds of every run |
| SimplexMembership.MembershipIsTheReplay | src/simplex.gorums/server/node.go:330-398 | When handlers do not overlap: members, size and outbound configuration are the replay of the chain's reconfigurations, and the size recorded for height h is the one after h-1 blocks |
| SimplexMembership.SharedPrefixSharesLeader | src/simplex.gorums/server/node.go:249-257 | Two nodes from one initial group whose chains share the first k blocks compute the same leader, quorum and group at height k+1 and record the same size for it |
| SimplexMembership.RunFollows | src/simplex.gorums/server/node.go:513-563 | Under every interleaving of lock regions the group is the replay of the blocks that took effect on advancing |
| SimplexMembership.MembershipDespiteInterleaving | src/simplex.gorums/server/node.go:513-563 | Under every interleaving the group is the replay of the blocks that took effect, and those are the first height-1 chain entries if and only if every advance that took effect found its own block at its place in the chain |
| SimplexMembership.OvertakingSplitsChainAndGroup | src/simplex.gorums/server/node.go:918-930 | From any state: where a second certificate overtakes a pending advance, the chain keeps one block while the other one's reconfiguration takes effect |
| SimplexRuns.ChainAndGroupPart | src/simplex.gorums/server/node.go:513-563 | A run of five steps among four honest members with two genuine certificates of height 1: the block that lets in node 5 takes effect, the overtaking timeout block is the one in the chain, and the replay of the chain has the old members |
| SimplexSizes.SizeOfHeight | src/simplex.gorums/server/node.go:427-458 | Under every interleaving: a size is recorded for exactly the heights 2 up to the current one, and for height 1 if and only if Start ran before it was left; a recorded size stays for ever, any other height uses the current number of members |
| SimplexRuns.QuorumOfFirstHeightMoves | src/simplex.gorums/server/node.go:119-131 | A run of five steps from the start after which the quorum of height 1, already left, has grown from three to four; a Start that comes then does not record it |
| SimplexMembership.OutboundFollowsMembers | src/simplex.gorums/server/node.go:356-368 | From the first reconfiguration on, members are known, sorted and distinct and the outbound configuration reaches exactly them |
| SimplexMembership.NewcomersGetTheChain | src/simplex.gorums/server/node.go:538-573 | Advancing over a block sends the whole chain to every node the block lets in |
| SimplexTransactions.NoTransactionIsLost | src/simplex.gorums/server/node.go:460-500 | Under every interleaving, with Start in time and own blocks winning where this node proposed: each occurrence ever added is in the pool or in a proposal of an unfinalized height until the transaction is finalized or its signal is under way |
| SimplexTransactions.HandlersLoseNothing | src/simplex.gorums/server/node.go:646-683 | The same for handlers that do not overlap, where Start cannot come late and nothing is under way |
| SimplexTransactions.LateStartStrands | src/simplex.gorums/server/node.go:119-131 | A proposal made by Start waits for an already finalized height exactly when Start comes after height 1 was finalized at its leader with a transaction left to propose |
| SimplexRuns.StartComesTooLate | src/simplex.gorums/server/node.go:460-500 | A run of six steps from the start that reaches that state; Start then leaves a transaction neither in the pool nor final nor in a proposal for an open height |
| SimplexTransactions.ReleasedMeansFinalized | src/simplex.gorums/server/node.go:197-207 | A waiting caller is released only for a transaction in the block of a finalized height |
| SimplexLog.LogIsExact | src/simplex.gorums/server/node.go:646-683 | Under every interleaving: the log has an entry for exactly the finalized heights whose block is not the timeout block (height above 0, no parent), and it is that block's content; a transaction is in the log if and only if its signal was given or is under way |
| SimplexCallers.CallersAreExact | src/simplex.gorums/server/node.go:152-207 | Over any run, from its steps alone: a caller waits if and only if no newer caller, cancellation or signal for its transaction came since it registered; a channel is closed if and only if a signal named the transaction its caller then waited for; a transaction counts as final if and only if a signal named it |
| SimplexIterations.TimeoutUndoesTheProposal | src/simplex.gorums/server/node.go:460-500 | When the timeout block wins where this node proposed, the pool is what it would be without the proposal: what was there, in order and without what was final, and then what was added since |
| SimplexIterations.OwnBlockUsesTheProposal | src/simplex.gorums/server/node.go:646-683 | When its own block wins, what it proposed is signalled and only what was added since is left in the pool |
| SimplexIterations.TimeoutsAreExact | src/simplex.gorums/server/node.go:441-450 | Over any run, from its steps alone: a timer that fires makes the node vote for the timeout block if and only if it is for the current height and has not fired since that was entered |
| SimplexIterations.CatchUpIsExact | src/simplex.gorums/server/node.go:538-573 | On advancing the whole chain goes to exactly the nodes of the new outbound configuration that some transaction of the block made members, and in one message |
| SimplexBuffers.HandsBackExactly | src/simplex.gorums/server/node.go:576-591 | Every step of every run: entering a height hands back the first proposal, every vote in order and the first certificate that arrived for it too early, and nothing else is ever handed back |
| SimplexBuffers.KeepsExactly | src/simplex.gorums/server/node.go:705-716 | Over any run the buffers of a later height hold exactly those messages |
| SimplexReconfigTx.ParseOfBuild | src/simplex.gorums/server/node.go:263-325 | For every non-empty list of non-zero 32-bit ids, parsing the printed text gives the sorted list without duplicates |
| SimplexReconfigTx.ParseBuildParse | src/simplex.gorums/server/node.go:263-325 | For every accepted text, printing what it means and parsing again gives the same members |
| SimplexReconfigTx.CanonicalIsTheSortedSet | src/simplex.gorums/server/node.go:296 | The member list is the one strictly increasing list with the given elements |
| SimplexReconfigTx.ParseReconfigTx | src/simplex.gorums/server/node.go:263-298 | Prefix, blank pieces, first bad piece, reserved id 0, duplicates and order, as Parse says for every text |
| SimplexReconfigTx.BuildReconfigTx | src/simplex.gorums/server/node.go:300-325 | Refuses an empty list and id 0, else prints the sorted distinct ids in decimal between commas |
| SimplexNode.SimplexNode.constructor | src/simplex.gorums/server/node.go:81-116 | Height 1, empty chain, sorted initial members, all configured nodes outbound |
| SimplexNode.SimplexNode.Start | src/simplex.gorums/server/node.go:119-131 | Enters height 1 unless the node is past it |
| SimplexNode.SimplexNode.SignalPendingTxs | src/simplex.gorums/server/node.go:197-207 | Closes exactly the channels registered for the given transactions, forgets them and marks the transactions finalized |
| SimplexNode.SimplexNode.ApplyMembership | src/simplex.gorums/server/node.go:330-369 | Refuses an empty list and unknown ids; otherwise replaces members, size and outbound configuration and reports who is new |
| SimplexNode.SimplexNode.ApplyReconfigTxs | src/simplex.gorums/server/node.go:373-398 | Applies the well-formed transactions of a block in order, ignores the others, and reports who joins |
| SimplexNode.SimplexNode.EnterIteration | src/simplex.gorums/server/node.go:427-458 | Sets the height, clears the timer flag, records the membership size, proposes as leader, and releases the buffered messages of that height |
| SimplexNode.SimplexNode.TimeOut | src/simplex.gorums/server/node.go:441-450 | A timeout vote goes out once, and only while the node is still at the height |
| SimplexNode.SimplexNode.BuildProposal | src/simplex.gorums/server/node.go:460-500 | Drains the pool, drops what is finalized, keeps the rest under the height, and proposes it on the own chain hash |
| SimplexNode.SimplexNode.AdvanceFromHeight | src/simplex.gorums/server/node.go:513-574 | Refines Advance: appends the block if missing, applies its reconfigurations before entering the next height, and sends proposal, finalize, certificate and catch-up |
| SimplexNode.SimplexNode.ProcessPending | src/simplex.gorums/server/node.go:576-591 | Hands back everything buffered for the height and nothing else |
| SimplexNode.SimplexNode.TryFinalize | src/simplex.gorums/server/node.go:646-683 | Refines TryFinalize: once, with a quorum of the size recorded for the height and a certificate; a dummy returns the own proposal to the pool |
| SimplexNode.SimplexNode.HandlePropose | src/simplex.gorums/server/node.go:705-748 | One vote per height, only for the leader's block of that height on the own chain; later heights are buffered, first one kept |
| SimplexNode.SimplexNode.CountVote | src/simplex.gorums/server/node.go:769-820 | First lock region of a vote: one vote per voter and identifier, members only; at a quorum the certificate is recorded and finalization tried |
| SimplexNode.SimplexNode.CountFinalize | src/simplex.gorums/server/node.go:841-863 | First lock region of a finalize message: members only, then finalization is tried |
| SimplexNode.SimplexNode.RecordNotarization | src/simplex.gorums/server/node.go:901-929 | First lock region of a received certificate: buffered, ignored or appended and recorded |
| SimplexNode.SimplexNode.HandleVote | src/simplex.gorums/server/node.go:756-820 | The whole handler when nothing comes between its lock regions: count, signal, advance |
| SimplexNode.SimplexNode.HandleFinalize | src/simplex.gorums/server/node.go:827-864 | The whole handler: count, then signal |
| SimplexNode.SimplexNode.ApplyNotarization | src/simplex.gorums/server/node.go:900-931 | The whole handler: record, signal, advance |
| Latency.EverySubsetOnce | src/pbft.gorums.new/latency/latency.go:131-146 | The recursion visits every k-subset exactly once, in lexicographic order |
| Latency.BestSubsetIsOptimal | src/pbft.gorums.new/latency/latency.go:120-149 | With means below the sentinel, the result is an increasing in-range k-subset of least truncated mean, the lexicographically first of those |
| Latency.BestOfIsFirstLeast | src/pbft.gorums.new/latency/latency.go:134-139 | For any list of subsets, sentinel included: the first one of least mean below the sentinel wins, and none wins only if no mean is below it |
| LatencySums.SubsetMeanIsTheMean | src/pbft.gorums.new/latency/latency.go:153-168 | The mean of a subset is the sum over the set of its ordered pairs, divided by their number: the remainder is smaller than the divisor, points the way of the sum, and the result lies between zero and the quotient |
| LatencySums.MeanIsTheMean | src/pbft.gorums.new/latency/latency.go:197-216 | The mean of a whole matrix, in the same terms |
| LatencySums.RoundedOnce | src/pbft.gorums.new/latency/latency.go:167 | There is only one such quotient |
| LatencySums.BestSubsetOnSums | src/pbft.gorums.new/latency/latency.go:120-149 | For non-negative latencies: the sum over the pairs of the subset returned lies in [m c, (m + 1) c) for the mean m returned and the number c of pairs, and no other k-subset has a sum below m c |
| LatencySums.MatrixIsExact | src/pbft.gorums.new/latency/latency.go:66-90 | The outcome of reading a list of names, from the names alone: the first default or unknown one decides, otherwise entry i, j is 5 ms per step between the i-th and the j-th location |
| Latency.ComputeSubsetMean | src/pbft.gorums.new/latency/latency.go:153-168 | Sum over ordered pairs of different indices, divided by their number and rounded towards zero; 0 below two indices |
| Latency.Search.Enumerate | src/pbft.gorums.new/latency/latency.go:130-147 | The recursion over one shared buffer restores its prefix and leaves the best of everything enumerated from there |
| Latency.FindBestSubset | src/pbft.gorums.new/latency/latency.go:120-149 | Refuses k outside 1..n, else returns the best over the whole enumeration |
| LatencyMatrix.BestMatrixHasTheBestMean | src/pbft.gorums.new/latency/latency.go:172-179 | For every matrix the program makes and 2 <= k <= n: the best submatrix exists, is the one of an optimal subset, and its Mean is the mean that made it best |
| LatencyMatrix.MeanBelowSentinel | src/pbft.gorums.new/latency/latency.go:125 | No mean over the built-in table can reach the sentinel |
| LatencyMatrix.LatencyTable | src/pbft.gorums.new/latency/latency.go:28-37 | The built-in table is symmetric, 5 ms per step of distance, zero on the diagonal |
| LatencyMatrix.BuildMatrix | src/pbft.gorums.new/latency/latency.go:66-90 | A default name disables the matrix, an unknown one is fatal, whichever comes first; otherwise the submatrix of the table |
| LatencyMatrix.ComputeMean | src/pbft.gorums.new/latency/latency.go:197-216 | Truncated mean off the diagonal; 0 without rows; fails on one row, where the program divides by zero |
| LatencyMatrix.BestSubsetMatrix | src/pbft.gorums.new/latency/latency.go:172-179 | Builds the matrix of the locations picked by the search; k out of range is fatal |
| BftSmartSignatures.Agreement | src/bft-smart.gorums/server/bftsmart.go:224-343 | Inside one regency, n = 3f+1, at most f faulty replicas, every choice of reference votes: two correct replicas whose accept check fires for an instance accepted one digest, where signatures are never reused, and where they are but a correct replica answers only a write that names the digest of its own |
| BftSmartSignatures.ChecksAreExact | src/bft-smart.gorums/server/bftsmart.go:278-315 | For every handler and event: the writes and accepts it sends name the digest of the recorded proposal if and only if the arriving write passed that check |
| BftSmartSignatures.ComparisonIsExact | src/bft-smart.gorums/server/bftsmart.go:317-343 | For every event: what is handed over is the batch of the accepted digest if and only if the replica compared the two |
| BftSmartSignatures.OneBatchPerInstance | src/bft-smart.gorums/server/bftsmart.go:377-440 | Over every run whose correct replicas compare, under the condition of agreement: any two of them hand over one batch per instance, the accepted one |
| BftSmartDisagreement.AgreementNeedsTheCheck | src/bft-smart.gorums/server/crypto.go:85-95 | A run of seven replicas from regency 0, its leader and another replica faulty, for any two batches: writes counted as accepts make correct replicas 3 and 5 accept one each in instance 1 |
| BftSmartDisagreement.BatchesNeedTheCheck | src/bft-smart.gorums/server/bftsmart.go:224-276 | A run of four replicas with a faulty leader and no reuse: replicas 2 and 3 accept one digest and hand over two different batches |
| BftSmartAgreement.AgreementWithoutReuse | src/bft-smart.gorums/server/log.go:52-118 | Where no signature is reused, 2f+1 Accepts on the same view and digest are behind both decisions |
| BftSmartAgreement.OneAcceptPerInstance | src/bft-smart.gorums/server/log.go:78-82 | A correct replica itself sends at most one Accept per instance |
| BftSmartAgreement.QuorumsAgree | src/bft-smart.gorums/server/log.go:89-118 | Where no signature is reused, two quorums of Accepts for one instance carry the same digest in the same view |
| BftSmartArrivals.ArrivalsAreExact | src/bft-smart.gorums/server/bftsmart.go:224-343 | Any list of messages, of any senders, for any instances, in any order and with any reference votes: an untouched instance is written, and an Accept goes out, if and only if at a kept write or at the proposal 2f+1 writes agreed with the reference and it was proposed; it is accepted and handed over if and only if at a kept accept, or at a proposal that completes the writes, 2f+1 accepts did; what is handed over carries the proposed batch or none |
| BftSmartReferences.AcceptsWhateverTheReference | src/bft-smart.gorums/server/log.go:89-118 | n = 3f+1: the instance is accepted whatever recorded votes the replica takes as references if and only if at some moment 2f+1 accepts have arrived and no accept so far differs from them |
| BftSmartReferences.StrayAcceptStalls | src/bft-smart.gorums/server/log.go:95-100 | Four replicas, one accept for another digest first: with references the iteration can yield the replica never accepts, with 2f+1 matching accepts in its log |
| BftSmartProgress.NumbersAreExact | src/bft-smart.gorums/server/bftsmart.go:121-146 | Whatever a leader proposes and executes, in any order: a batch is sent once, with its own digest, under the number after the largest one proposed or executed so far |
| BftSmartProgress.WindowIsExact | src/bft-smart.gorums/server/log.go:251-293 | After any stable checkpoints, in any order: the 200000 numbers after the largest one are handled, and exactly the executed entries up to it are gone |
| BftSmartProgress.NewReplicaHandles | src/bft-smart.gorums/server/log.go:154-179 | A new replica treats every list of messages in that way for instances 1 to 200000 |
| BftSmartProgress.DroppedMessages | src/bft-smart.gorums/server/bftsmart.go:224-240 | In a leader change, outside the window and as a proposal of anyone but member v mod n + 1 a message has no effect |
| BftSmartEntry.CountAgainstAny | src/bft-smart.gorums/server/log.go:61-75 | Counts exactly the votes equal to some recorded vote, whichever one that is |
| BftSmartEntry.ConsensusEntry.CheckWritten | src/bft-smart.gorums/server/log.go:52-85 | Fires once, only after the own write, when 2f+1 writes equal the reference it picked |
| BftSmartEntry.ConsensusEntry.CheckAccepted | src/bft-smart.gorums/server/log.go:89-118 | Fires once, when 2f+1 accepts equal the reference it picked |
| BftSmartEntry.ConsensusEntry.RecordPropose | src/bft-smart.gorums/server/bftsmart.go:503-528 | The first proposal is kept with the own write, any later one changes nothing |
| BftSmartEntry.ConsensusEntry.RecordWrite | src/bft-smart.gorums/server/bftsmart.go:530-546 | One write per sender, then the check |
| BftSmartEntry.ConsensusEntry.RecordAccept | src/bft-smart.gorums/server/bftsmart.go:548-560 | One accept per sender, then the check |
| BftSmartReplica.BFTSmartServer.GetOrCreate | src/bft-smart.gorums/server/log.go:181-196 | Hands out the one record object of an instance, created empty when missing |
| BftSmartReplica.BFTSmartServer.RecordPropose | src/bft-smart.gorums/server/bftsmart.go:503-528 | Only the entry of that instance changes, to what the proposal makes of it |
| BftSmartReplica.BFTSmartServer.RecordWrite | src/bft-smart.gorums/server/bftsmart.go:530-546 | Only the entry of that instance changes, to what the write makes of it |
| BftSmartReplica.BFTSmartServer.RecordAccept | src/bft-smart.gorums/server/bftsmart.go:548-560 | Only the entry of that instance changes; the decision is the reference vote and the recorded batch |
| BftSmartReplica.BFTSmartServer.RecheckWritten | src/bft-smart.gorums/server/bftsmart.go:562-567 | The write check on the stored votes of one instance |
| BftSmartReplica.BFTSmartServer.RecheckAccepted | src/bft-smart.gorums/server/bftsmart.go:569-574 | The accept check on the stored votes of one instance |
| BftSmartReplica.BFTSmartServer.HandlePropose | src/bft-smart.gorums/server/bftsmart.go:224-276 | Refines OnPropose: the write, and at once the accept and the decision where both quorums were already there |
| BftSmartReplica.BFTSmartServer.HandleWrite | src/bft-smart.gorums/server/bftsmart.go:278-315 | Refines OnWrite: the accept goes out, with the digest of the write that arrived, exactly when the check fires |
| BftSmartReplica.BFTSmartServer.HandleAccept | src/bft-smart.gorums/server/bftsmart.go:317-343 | Refines OnAccept: the instance is handed over exactly when the check fires |
| BftSmartReplica.BFTSmartServer.Stabilize | src/bft-smart.gorums/server/log.go:267-293 | A newly stable checkpoint moves both water marks and discards exactly the executed entries at or below it |

## Left out

- Liveness of any protocol, timers, timeouts and contexts: a timer firing is a step that may happen at any time.
- Generated protobuf and RPC code, HTTP, Docker, CSV, plotting, command lines, logging and statistics: plumbing.
- Cryptography: Ed25519, SHA-256 and key registries; Simplex takes the hash and the leader draw as parameters.
- Client requests and replies, the pending-request map, timers reset on progress, and the waiting of the PBFT primary
  for the high water mark: they do not touch the replicated state the results are about.
- The one-assignment methods of the classes (AddTx, RegisterTx, CancelTx, SetStride, GetInstance, TakeDelivery,
  ProposeBatch, AdvanceCounter) have contracts but no row; ProposeBatch does not wait for the high water mark.
- The Reset, Benchmark and Kill calls: they wipe or stop a replica between benchmark runs.
- PbftReplica.PBFTServer.RunPrimary: does not wait for the high water mark, because a wait changes no state and the
  sequence counter may pass the mark when it times out.
- PbftReplica.PBFTServer.SendViewChange: leaves out the prepares copied into each certificate, because receivers use
  only its pre-prepare.
- PBFT checkpoint tallies are values in the log's map, not shared objects; they are only touched under the log's lock.
- PbftLog.MessageLog.RecordCheckpoint: takes the message alone, because every caller passes that message's own fields.
- PbftReplica.PBFTServer.DeliverNext: leaves out replies to clients and the pending-request map; the reorder buffer
  holds number and timestamp, and the executed flag is already set when an entry commits, so the write in executeEntry
  changes nothing.
- PbftNewViewCarriesCommits.NewViewCarriesCommits: crash faults only, because it is false of a faulty replica, whose
  VIEW-CHANGE is taken at its word (PbftDroppedCommit.CommitIsDropped is the run), and no self-delivery;
  PbftGuardedNewView.GuardedNewViewCarriesCommits has the guard under which it holds of both.
- PbftGuardedNewView.GuardedNewViewCarriesCommits: one direction only, because the guard is what the new primary can
  see, and what it cannot see may happen to be genuine.
- PbftNewViewCarriesCommits.PreparedMatchesDecision: crash faults only, like the result it serves.
- PbftSignatures.Agreement: with reuse it needs digest checks the program leaves out
  (PbftDisagreement.AgreementNeedsTheChecks is the run), and it says nothing about the view in which an entry committed,
  because a reused vote may carry another one; PbftAgreement.AgreementWithoutReuse does.
- PbftSignatures.ExecutionAgreement: with reuse it needs the same checks.
- BftSmartSignatures.Agreement: with reuse it needs a check the program leaves out
  (BftSmartDisagreement.AgreementNeedsTheCheck is the run), and it says nothing about the view, for the same reason.
- BftSmartSignatures.OneBatchPerInstance: needs a comparison the program leaves out
  (BftSmartDisagreement.BatchesNeedTheCheck is the run).
- PbftArrivals.ArrivalsAreExact: every handler finds its outbound configuration; without one a replica records and
  stays silent, as the handlers say.
- BftSmartArrivals.ArrivalsAreExact: the same.
- BftSmartReferences.AcceptsWhateverTheReference: clusters of 3f+1, because among six replicas two different votes can
  both reach 2f+1.
- SimplexIterations.TimeoutUndoesTheProposal: only additions come between the proposal and the timeout block;
  SimplexTransactions.NoTransactionIsLost has every interleaving, but not the order.
- SimplexIterations.OwnBlockUsesTheProposal: the same.
- LatencySums.BestSubsetOnSums: non-negative latencies, as in every table the program makes.
- PaxosAgreement.Agreement: proposers that run phase 1, because the skip breaks it (PaxosSkip.WithoutStridesParts);
  PaxosSkip.SkipIsSafeExactly has the exact condition on instances.
- PaxosAgreement.LearnedIsChosen: proposers that run phase 1, for the same reason.
- PaxosAgreement.ChosenIsProposed: proposers that run phase 1, for the same reason.
- PaxosClient.Client.Propose: one proposal at a time and with the acceptors' answers as a parameter; proposals that
  overlap in one client are steps of the system in `PaxosStride`.
- SimplexMembership.MembershipIsTheReplay: for handlers that do not overlap, because it is false otherwise
  (SimplexRuns.ChainAndGroupPart); MembershipDespiteInterleaving has the exact condition.
- SimplexMembership.SharedPrefixSharesLeader: for handlers that do not overlap, for the same reason.
- SimplexTransactions.LateStartStrands: is about one state; SimplexRuns.StartComesTooLate reaches one that strands.
- SimplexTransactions.NoTransactionIsLost: assumes that a block other than the dummy, finalized at a height where this
  node proposed, is its own proposal, and that Start runs once and in time.
- SimplexTransactions.HandlersLoseNothing: the same assumption on own blocks, and handlers that do not overlap.
- Simplex log consistency: a finalize message names no block, so agreement of finalized logs is not claimed.
- Simplex: the backup timer may fire for any height at any time, also where none is armed, which gives more runs.
- Simplex texts are sequences of Unicode characters; byte sequences that are not UTF-8 are not modelled.
- BFT-SMaRt leader change, joins, ResetUncommitted and SetLowWaterMark: agreement is claimed inside one regency only.
- BftSmartReplica.BFTSmartServer.Stabilize: which checkpoint becomes stable is left open; its tally is the PBFT one.
- BFT-SMaRt ordered delivery: the same loop as PBFT's.
- Latency: Delay, Location, Max, Min, StdDev and Print: lookups and simple folds. Overflow of a sum of durations.
