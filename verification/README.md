# Two consensus protocols and a lock service

This project models the three layers of a replicated lock service written in Go and proves
properties of every input, every run and every reachable state of the model.

- **Paxos** (`src/paxos`): one single-decree round machine per slot, in which ballots carry no
  server id; the window of slots with forgetting; the persister.
- **Raft** (`src/raft`): elections, log replication with conflict-term backup, a commit point
  found by bisection, and a compacted log with a sentinel entry.
- **The lock service** (`src/paxosserver`, `src/raftserver`, `src/session`): files, sessions,
  leases, de-duplication, revocation and the slot-retry loop.

## How it is built

Every mutex-protected section of the code is one function on a value (`RaftPeer`,
`PaxosInstance`, `PaxosWindow`, `LockTable`). The classes (`Raft`, `Paxos`, `LockServers`,
`LockClients`) keep the code's own fields, objects and loops, and each method is proved equal to
its function. The global machines (`RaftCluster`, `RaftSnapshots`, `PaxosSlot`,
`PaxosForgetting`, `PaxosReplicas`, `RaftReplicas`, `LockCalls`, `LockLeases`) take steps with the
same functions, over clusters of any size. A network is a set of messages that only grows: a
message may be lost, delayed, reordered or delivered again. History variables (votes, grants,
acknowledgements, leader logs) are written by the steps. Two guards read them: a Paxos round begins
for a value that was submitted, and a Raft leader takes entries once the log of its term is
recorded, which `RaftSafety.BoundsHold` shows it always is.

Raft is proved twice over. `RaftCluster` has whole logs and carries the inductive proof.
`RaftSnapshots` is the cluster as the code runs it, with logs cut by `Snapshot`, snapshots sent
and installed at any moment, and each applier's channel. `RaftSimulation` gives every state of it a
counterpart with whole logs that meets the same invariant, so safety and gap-free delivery hold of
every run with compaction (`RaftSnapshotSafety`, `RaftDelivery`).

Safety would also hold of a system that does nothing, so the machines are shown to get things done.
From every reachable state any majority can, with nobody else taking a step, elect a leader and
deliver a new command (`RaftAvailability`), or bring a slot to a decision (`PaxosAvailability`, through
the windows in `PaxosReplicas`); a call can always go on to return (`LockCalls`). What single sections
answer is stated in both directions (`RaftAnswers`, `PaxosInstance`, `PaxosHandlers`).

What was shown to fail, and exactly when it does:

- Paxos agreement with nil values. A nil that a majority accepted reads as "nothing accepted", and
  deciding nil does not overwrite. `PaxosSafety.Agreement` holds in every run, nil rounds and all, up
  to the point where a majority has chosen nil. `PaxosNil.NilDisagreement` builds, for every cluster
  of two or more servers, a run that gets there and disagrees. Values other than nil stay unique
  even then (`PaxosAgreement.ChosenUnique`).
- Promises over restarts: `PaxosWindow.PromiseLost` is an abrupt restart that grants the same
  ballot twice, `PaxosWindow.GrantedAgain` says exactly which ballots are, and
  `PaxosWindow.RestartExact` is the controlled restart, after which none is.
- Backing up after a reject: the next index falls exactly when the leader still keeps the index it
  tried (`RaftBackup.BackupBound`). A leader that cut its log past it while the call was away goes
  to its cut, and its next round sends a snapshot.
- A failed `GetDone` call leaves zero values and so claims that slot 0 is decided:
  `PaxosWindow.FailedCallOpensSlot`, and `PaxosWindow.TickOpens` for when a pass opens slots.

Where comment and code differ the code is modelled. `Min` is documented as exactly one more than
the smallest number passed to `Done`; the code is only ever at or below that, since it works from
answers that may be old and never passes the end of its own window
(`PaxosForgetting.ForgettingSafe` states the bound that holds).

## Model

| member | source | states |
|---|---|---|
| `RaftSafety.StateMachineSafety` | src/raft/raft.go:137-178 | In every run, with restarts, everything ever applied is one function of the index: no two servers apply different commands at one index. |
| `RaftCompleteness.LeaderCompleteness` | src/raft/election.go:42-51 | An entry committed in a term is in the log of every leader of a later term, by induction over terms on one state. |
| `RaftCompleteness.LogMatching` | src/raft/log_transmission.go:57-79 | Two well-formed logs with equal terms at an index agree on all entries up to it. |
| `RaftCompleteness.VoterHolds` | src/raft/election.go:25-52 | A server that acknowledged a prefix still has it when it votes in a later term, if every leader in between has it. |
| `RaftCompleteness.CommitsAgree` | src/raft/raft.go:193-225 | Of any two commit points, the leader log of the later term holds both. |
| `RaftSafety.RunInv` | src/raft/raft.go:58-84 | The inductive invariant of the cluster holds in every state of every run. |
| `RaftSafety.ElectionSafety` | src/raft/election.go:54-129 | At most one server ever leads a given term, at any two points of a run. |
| `RaftElectionSteps.MajorityNamesLeader` | src/raft/election.go:96-103 | A candidate with votes of a majority in a term that has a leader is that leader. |
| `RaftElectionSteps.TermUnled` | src/raft/election.go:119-120 | A candidate with votes of a majority stands in a term that no one leads yet. |
| `RaftElectionSteps.CountElects` | src/raft/election.go:96-127 | A count that ends in a majority is backed by real votes of distinct servers whose logs are no newer, in a term without a leader. |
| `RaftSafety.LogMatchingSafety` | src/raft/log_transmission.go:46-88 | Log matching between any two servers at any two points of a run. |
| `RaftSafety.LogsSorted` | src/raft/raft.go:114-122 | In every reachable state terms never decrease along a log. |
| `RaftSafety.LeaderHasCommitted` | src/raft/election.go:119-127 | Every leader holds all that any server had committed in its term or before. |
| `RaftSafety.CommittedEntriesAgree` | src/raft/log_transmission.go:83-87 | Any two servers, at any two points of a run, have the same entry at an index below both commit points. |
| `RaftSafety.CommitWithinEntries` | src/raft/log_transmission.go:105-109 | Every AppendEntries in flight has LeaderCommit at most PrevLogIndex + 1 + the number of its entries. |
| `RaftSafety.CommitWithinLeaderLog` | src/raft/log_transmission.go:83-87 | In every reachable state commitIndex stays inside the log and inside the prefix that agrees with the leader of the term. |
| `RaftSafety.CommitFallsOnlyOnRestart` | src/raft/raft.go:193-225 | Along every run a commit index that falls means that the server has just restarted. |
| `RaftSafety.CurrentWorkersLead` | src/raft/log_transmission.go:92-95 | A goroutine that finds its term current belongs to the leader of that term, though it checks no role. |
| `RaftSafety.BoundsHold` | src/raft/log_transmission.go:97-146 | In every run the bounds that the steps ask for are met: no handler or goroutine indexes outside its log. |
| `RaftLogSteps.TestMeansCommitted` | src/raft/raft.go:180-191 | An index that passes the majority count, from the first own-term entry on, is committed by a quorum of acknowledgements. |
| `RaftLogSteps.CommitSurvives` | src/raft/log_transmission.go:68-79 | Accepting entries never removes what the receiver had committed. |
| `RaftMerge.MergeResult` | src/raft/log_transmission.go:68-79 | The accept loop leaves the old log when the leader's entries are all there, and the leader's prefix otherwise. |
| `RaftCommitPoint.TestIndexAntitone` | src/raft/raft.go:180-191 | If a majority matches an index it matches every earlier one. |
| `RaftCommitPoint.TestIsMajority` | src/raft/raft.go:180-191 | The early-exit count says yes if and only if some majority, with the leader and another peer in it, is known to hold the entry. |
| `RaftCommitPoint.CommitPointExact` | src/raft/raft.go:201-215 | After a pass an index is committed if and only if such a majority holds it. |
| `RaftCommitPoint.FirstCommitExact` | src/raft/raft.go:217-220 | The first commit of a term is of the leader's first own entry, and comes if and only if such a majority holds that. |
| `RaftSafety.AdvanceOwnTerm` | src/raft/raft.go:193-225 | In every run a commit index that a committer pass moves rises to an entry of the leader's own term that a majority holds. |
| `RaftSafety.ContainedLogVotes` | src/raft/election.go:25-52 | In every run a server whose log a candidate's log contains, and that is not past its term, votes for it. |
| `RaftSafety.RejectLowersNext` | src/raft/log_transmission.go:119-146 | In every run a heeded reject strictly lowers the peer's next index and keeps it at 1 or above, whatever the peer did meanwhile. |
| `RaftBackup.RejectMeaning` | src/raft/log_transmission.go:46-67 | What a reject tells of the follower's whole log: one term from XIndex to the index tried, and agreement no further than XLen. |
| `RaftBackup.BackupBound` | src/raft/log_transmission.go:136-146 | The new next index is at or below the index tried if and only if the leader still keeps that index; otherwise it is the leader's cut. |
| `RaftBackup.FastBackupSound` | src/raft/log_transmission.go:136-146 | For any reject, logs cut on either side at any time, the new next index is not below the first index where the logs differ, and strictly below the old one exactly when the leader keeps the index tried. |
| `RaftBackup.BackupOnSuffix` | src/raft/log_transmission.go:136-146 | A leader that has cut its log backs up to where it would with its whole log, or to its cut if that is higher. |
| `RaftBackup.SnapshotNext` | src/raft/log_transmission.go:97-104 | The next round sends a snapshot if and only if the next index is at or below the cut. |
| `RaftConverge.SendsAllTheRest` | src/raft/log_transmission.go:105-109 | Past the cut a call carries the whole log from the next index to its end and the leader's commit index. |
| `RaftConverge.SendsSnapshot` | src/raft/log_transmission.go:97-104 | At or below the cut it is the leader's snapshot, with its bytes, index and term. |
| `RaftConverge.AcceptedHoldsAll` | src/raft/log_transmission.go:36-88 | A follower that accepts a call holds the leader's log to its end afterwards and has committed at least as far, with logs cut on either side. |
| `RaftConverge.StepBackFinds` | src/raft/log_transmission.go:136-146 | Stepping back one at a time ends at the first index where the logs differ. |
| `RaftConverge.RejectSkipsTerm` | src/raft/log_transmission.go:136-146 | A reject gets past all the follower's entries of the term in the way. |
| `RaftConverge.Attempt` | src/raft/log_transmission.go:96-150 | One round from what SendLog sends to what the answer does: accepted exactly up to the first difference, with the follower caught up and known to be; otherwise backed up strictly, past the term in the way, not below the difference. |
| `RaftConverge.Converge` | src/raft/log_transmission.go:96-150 | The retry loop ends, with at most one reject for each term in the follower's log: with a snapshot if and only if stepping back one at a time would reach the cut, otherwise with the follower caught up. |
| `RaftAnswers.VoteIff` | src/raft/election.go:25-52 | A vote is granted if and only if it is free for the candidate in that term and the candidate's last entry is as recent as the voter's. |
| `RaftAnswers.VoteResultIff` | src/raft/election.go:66-95 | What a candidate reads off an answer: a vote, a higher term, or nothing. |
| `RaftAnswers.TallyIff` | src/raft/election.go:96-114 | The count is won exactly when answers in a row make a majority before a higher term comes up, and deposes exactly when that comes first. |
| `RaftAnswers.RequestsRaiseTerm` | src/raft/election.go:25-52 | Every request leaves its receiver in the later of the two terms, and a follower where that is due. |
| `RaftAnswers.AnswersDepose` | src/raft/log_transmission.go:129-135 | An answer of a later term to a current call makes the leader a follower there, with its vote free. |
| `RaftAnswers.FirstRequest` | src/raft/election.go:119-127 | A new leader's first call to any peer carries exactly what was submitted since it won. |
| `RaftAnswers.SnapshotTaken` | src/raft/snapshot.go:57-93 | A follower behind the cut takes the snapshot, bytes and term, and keeps its entries past it only where its own entry there has that term. |
| `RaftAnswers.SnapshotExchange` | src/raft/snapshot.go:24-93 | After the exchange the follower has the prefix and the leader's match index says so. |
| `RaftAnswers.SnapshotAnnounced` | src/raft/raft.go:141-144 | An installed snapshot is announced once, with its own bytes, term and index. |
| `RaftAnswers.SnapshotCuts` | src/raft/snapshot.go:9-22 | Snapshot keeps every entry past the index and the bytes it was given, and does nothing below the cut. |
| `RaftCompaction.AppendRefines` | src/raft/log_transmission.go:36-88 | On a compacted log AppendEntries, with its discard shift, gives the same abstract log, commit index and Success as on the whole log. |
| `RaftCompaction.ShiftedRequest` | src/raft/log_transmission.go:36-45 | The shifted request does to the whole log what the original request does. |
| `RaftCompaction.CoveredRequest` | src/raft/log_transmission.go:38-41 | A request wholly inside the snapshot is a no-op on the whole log too. |
| `RaftCompaction.SnapshotRefines` | src/raft/snapshot.go:9-22 | Snapshot changes how the log is kept and not the abstract log. |
| `RaftCompaction.InstallRefines` | src/raft/snapshot.go:57-93 | InstallSnapshot is AppendEntries of the snapshotted prefix on the whole log, which succeeds. |
| `RaftCompaction.SnapshotAcknowledged` | src/raft/snapshot.go:33-42 | What matchIndex claims after the answer to a snapshot is true of the follower that took it. |
| `RaftCompaction.SendRefines` | src/raft/log_transmission.go:96-110 | A compacted leader sends what it would send with its whole log, or a snapshot of exactly its cut-off prefix. |
| `RaftCompaction.VotingRefines` | src/raft/election.go:25-52 | Compaction changes no vote. |
| `RaftCompaction.StandingRefines` | src/raft/election.go:60-64 | Compaction changes no candidacy. |
| `RaftCompaction.StartRefines` | src/raft/raft.go:110-135 | Compaction changes neither the index nor the entry of a new command. |
| `RaftCompaction.BatchRefines` | src/raft/raft.go:156-162 | Compaction changes no batch that the applier takes. |
| `RaftCompaction.OfficeRefines` | src/raft/election.go:104-129 | Compaction changes neither taking office nor stepping down. |
| `RaftCompaction.CommitRefines` | src/raft/raft.go:193-225 | Compaction changes no commit point, provided it stays inside the log. |
| `RaftCompaction.AcceptedRefines` | src/raft/log_transmission.go:119-135 | Compaction changes nothing in what an accept or a higher term does to a leader. |
| `RaftCompaction.RejectRefines` | src/raft/log_transmission.go:46-67 | A cut follower rejects with the term and length of the whole log, and its XIndex or its cut, whichever is higher. |
| `RaftCompaction.RestartRefines` | src/raft/persisting.go:40-79 | A restart of a cut peer is that of the whole log, with its marks past the snapshot. |
| `RaftWholeLog.RewindInv` | src/raft/log_transmission.go:136-146 | On whole logs, moving a next index anywhere in the log keeps the cluster invariant. |
| `RaftWholeLog.SendPrefixInv` | src/raft/log_transmission.go:97-104 | So does sending a committed prefix, which is what a snapshot is. |
| `RaftWholeLog.RaiseMatchInv` | src/raft/snapshot.go:33-42 | So does raising a match index to what an accepted prefix carried. |
| `RaftWholeLog.SkipInv` | src/raft/snapshot.go:71-92 | So does counting what a snapshot covers as applied. |
| `RaftWholeLog.RebootAtInv` | src/raft/persisting.go:40-79 | So does a restart that begins past a snapshot. |
| `RaftSimulation.NextSimulated` | src/raft/snapshot.go:9-93 | Every step of a cluster with compaction has a counterpart on whole logs that keeps the invariant and only adds to history. |
| `RaftSimulation.InitSimulated` | src/raft/raft.go:259-284 | The initial cluster with compaction has the initial counterpart. |
| `RaftSimulation.RejectSim` | src/raft/log_transmission.go:136-146 | A reject between cut peers is a move of the whole-log counterpart, with its own answer. |
| `RaftSnapshotSafety.DeliveredAgree` | src/raft/raft.go:137-178 | In every run with snapshots, installs and restarts no two servers ever put different commands on their channels at one index. |
| `RaftSnapshotSafety.SentIsDelivered` | src/raft/raft.go:164-171 | Every command on a channel is among those, so the agreement above is about all that is sent. |
| `RaftSnapshotSafety.DeliveredGrows` | src/raft/raft.go:137-178 | What was delivered stays so, hence agreement spans all points of a run. |
| `RaftSnapshotSafety.LeadersUnique` | src/raft/election.go:54-129 | With compaction at most one server ever leads a given term. |
| `RaftSnapshotSafety.KeptEntriesAgree` | src/raft/log_transmission.go:83-87 | With compaction two servers that still keep a committed index, at any two points, keep the same entry there. |
| `RaftSnapshotSafety.AdvanceOwnTermKept` | src/raft/raft.go:193-225 | With compaction a commit index moves only to a majority-matched own-term entry that the leader still keeps. |
| `RaftSnapshotSafety.RejectLowersOrSnapshots` | src/raft/log_transmission.go:96-146 | In every run with compaction a heeded reject lowers the next index if and only if the leader keeps the index tried; otherwise the next round sends a snapshot. |
| `RaftSnapshotSafety.AlwaysReady` | src/raft/raft.go:137-178 | In every run with compaction no handler, goroutine or applier indexes outside the kept log. |
| `RaftSnapshotSafety.AnswersInRange` | src/raft/log_transmission.go:136-146 | Nor does an XIndex that a leader hears. |
| `RaftAvailability.MajorityDelivers` | src/raft/raft.go:58-84 | From every reachable state with compaction, any majority alone, with nobody restarted, can elect a leader, replicate a new command and deliver it on all its members. |
| `RaftAvailability.Elects` | src/raft/election.go:54-129 | Any majority alone can elect one of its members, whoever led before. |
| `RaftAvailability.Replicates` | src/raft/log_transmission.go:90-151 | A leader of a majority gets a new command committed on all its members, at the index that Start returned. |
| `RaftAvailability.CatchesUp` | src/raft/log_transmission.go:90-151 | From every reachable state the retry loop, snapshots included, can bring a follower in the leader's term to hold its whole log. |
| `RaftAvailability.FreshClusterDelivers` | src/raft/raft.go:259-284 | A new cluster of any size from two on can have every server deliver a command. |
| `RaftSnapshotData.SnapshotOrigin` | src/raft/snapshot.go:9-93 | In every run, with installs and restarts at any moment, the snapshot a peer keeps for its cut and every snapshot on a channel is one that Snapshot was called with for that very index. |
| `RaftDelivery.GapFreeDelivery` | src/raft/raft.go:137-178 | In every run of the cluster with Snapshot and InstallSnapshot at any moment, the messages on a process's channel have consecutive indices, a snapshot counting up to its index. |
| `RaftDelivery.NeverRepeats` | src/raft/raft.go:156-171 | In a gap-free sequence every later message has a higher index. |
| `RaftDelivery.InstallKeepsPipe` | src/raft/snapshot.go:71-92 | InstallSnapshot at any moment keeps the delivery invariant, also with a batch in flight. |
| `RaftDelivery.NextKeepsPipe` | src/raft/raft.go:137-178 | So does every other step of the cluster, the committer included. |
| `RaftReplicas.TablesAgree` | src/raftserver/applier.go:8-47 | In every run two Raft servers that have applied up to the same index, at any two points, hold the same files and sessions. |
| `RaftReplicas.RunTables` | src/raftserver/applier.go:23-47 | In every run a server's tables are those of its log up to its applied mark. |
| `RaftReplicas.BatchCommands` | src/raft/raft.go:156-171 | A batch continues the applied prefix in log order. |
| `Raft.Raft.constructor` | src/raft/raft.go:259-284 | A new peer with nothing persisted is the initial peer of the cluster. |
| `Raft.Raft.Restore` | src/raft/persisting.go:40-79 | A restart keeps term, vote, log and snapshot and begins again at the first index past the snapshot. |
| `Raft.Raft.RequestVote` | src/raft/election.go:25-52 | The handler computes the vote step of the cluster, which RaftAnswers.VoteIff characterises. |
| `Raft.Raft.StandForElection` | src/raft/election.go:54-65 | Standing computes the candidacy step and its request. |
| `Raft.Raft.TallyVotes` | src/raft/election.go:96-114 | The counting loop stops at the first majority or the first higher term, as the tally of the cluster does. |
| `Raft.Raft.FinishElection` | src/raft/election.go:104-129 | A win takes office only in the same term and still as candidate, with fresh indices for all peers; a higher term deposes. |
| `Raft.Raft.Start` | src/raft/raft.go:110-135 | Appends as leader, remembers the first own-term index, refuses otherwise. |
| `Raft.Raft.FirstOfTerm` | src/raft/log_transmission.go:47-50 | The backward loop finds the first index of the run of equal terms. |
| `Raft.Raft.MergeEntries` | src/raft/log_transmission.go:68-79 | The loop cuts at the first differing term and appends the rest, or leaves the log. |
| `Raft.Raft.AppendAt` | src/raft/log_transmission.go:46-88 | Both rejects and the accept of a request past the sentinel. |
| `Raft.Raft.AppendEntries` | src/raft/log_transmission.go:21-88 | The whole handler with terms and the discard shift. |
| `Raft.Raft.SendLog` | src/raft/log_transmission.go:96-110 | What is sent: the whole suffix from nextIndex with the commit index, or the snapshot, as RaftConverge.SendsAllTheRest and SendsSnapshot say. |
| `Raft.Raft.HandleAppendReply` | src/raft/log_transmission.go:115-146 | The answer is dropped when term or nextIndex changed; otherwise indices advance, the leader steps down, or it backs up. |
| `Raft.Raft.Backup` | src/raft/log_transmission.go:136-146 | The two backup loops find the end of the leader's shared run below XLen. |
| `Raft.Raft.TestIndex` | src/raft/raft.go:180-191 | The early-exit loop decides the test that RaftCommitPoint.TestIsMajority shows to be a majority. |
| `Raft.Raft.Commit` | src/raft/raft.go:193-225 | Bisection finds the same commit point as a walk over all indices. |
| `Raft.Raft.TakeBatch` | src/raft/raft.go:156-162 | The loop takes all committed and unapplied entries in order and moves the applied mark. |
| `Raft.Raft.TakeSnapshot` | src/raft/raft.go:141-144 | An installed snapshot is handed out once, with its index and term. |
| `Raft.Raft.Snapshot` | src/raft/snapshot.go:9-22 | The log is cut after the index and keeps its term as sentinel. |
| `Raft.Raft.InstallSnapshot` | src/raft/snapshot.go:57-93 | All branches of the handler, with the flag for a Snapshot started instead. |
| `Raft.Raft.HandleSnapshotReply` | src/raft/snapshot.go:28-42 | A reply of the current term raises matchIndex or deposes the leader. |
| `PaxosSafety.Agreement` | src/paxos/proposer.go:18-163 | In every run, nil rounds and all, in which no majority has chosen nil, servers that decide, at any two points, decide the same value, which is not nil and which some Start proposed. |
| `PaxosSafety.NilNotChosen` | src/paxos/proposer.go:84-86 | Nil is never chosen if no round enters its accept phase with nil. |
| `PaxosSafety.RunSafe` | src/paxos/proposer.go:18-163 | In every run every announced or decided value was chosen by a majority, or nil was. |
| `PaxosNil.AgreeUntilNilChosen` | src/paxos/proposer.go:84-86 | Servers disagree only in states where a majority has chosen nil, and in every cluster of two or more some run reaches such a state and disagreement. |
| `PaxosNil.NilDisagreement` | src/paxos/paxos.go:43-58 | For every cluster size a run in which nil is chosen and two servers decide differently. |
| `PaxosSafety.OneRoundPerBallot` | src/paxos/proposer.go:92-98 | Over all servers, rounds and points of a run, one round passes the prepare phase at a ballot number, with nil or without. |
| `PaxosAgreement.OneProposer` | src/paxos/acceptor.go:49-53 | Two proposals at one ballot have one proposer, since each acceptor promises a number once and majorities meet. |
| `PaxosAgreement.LaterProposalsAgree` | src/paxos/proposer.go:54-63 | Every proposal above a chosen one that is not nil carries its value, whatever nil proposals there are, by induction over ballots. |
| `PaxosAgreement.ChosenUnique` | src/paxos/proposer.go:124-131 | At most one value other than nil is ever chosen in a slot, whatever nil proposals there are. |
| `PaxosSteps.NextKeeps` | src/paxos/proposer.go:18-163 | Every step keeps the inductive invariant and only adds to history. |
| `PaxosSteps.PickedHighest` | src/paxos/proposer.go:54-63 | The value carried forward comes from the promise with the highest accepted ballot. |
| `PaxosSteps.BallotUnused` | src/paxos/proposer.go:92-98 | A round with a majority of promises is the first at its ballot. |
| `PaxosSafety.TallyChooses` | src/paxos/proposer.go:124-140 | A successful accept loop means that the round's value is chosen by a majority. |
| `PaxosSafety.DecidedWasSaid` | src/paxos/proposer.go:64-66 | A HasDecided answer that ends a prepare loop carries a value chosen by a majority, unless nil was chosen. |
| `PaxosInstance.PromisedMeans` | src/paxos/proposer.go:47-82 | When the prepare loop ends with promises they are a majority and the carried proposal is the highest among those read. |
| `PaxosInstance.ChosenMeans` | src/paxos/proposer.go:121-140 | When the accept loop succeeds the accepts read are a majority. |
| `PaxosInstance.PrepareEnds` | src/paxos/proposer.go:51-82 | With an answer or failure from every peer the prepare loop has an outcome. |
| `PaxosInstance.PrepareIff` | src/paxos/proposer.go:51-82 | With an answer or failure from every peer and none that ends the loop, it ends with promises if and only if they are a majority, and as a bad network otherwise. |
| `PaxosInstance.FirstWordCounts` | src/paxos/proposer.go:64-78 | The first answer that ends the prepare loop decides how: a decided value, the ballot to beat, or late. |
| `PaxosInstance.AcceptIff` | src/paxos/acceptor.go:23-33 | An accept is granted if and only if the slot is undecided and promised nothing later; a refusal says what was promised. |
| `PaxosInstance.ChosenIff` | src/paxos/proposer.go:121-140 | With an answer or failure from every peer the accept loop succeeds if and only if the accepts are a majority. |
| `PaxosInstance.RefusalsKept` | src/paxos/proposer.go:121-140 | A round that is not chosen comes back with the highest refusal it read, and stops early only when a majority is out of reach. |
| `PaxosAvailability.MajorityDecides` | src/paxos/proposer.go:18-163 | From every state of a slot any majority alone can bring all its members to a decision, on the submitted value if none of them had accepted or decided anything. |
| `PaxosAvailability.ComesForward` | src/paxos/proposer.go:68-73 | A proposer that is behind needs at most one refused round to have the highest ballot. |
| `PaxosAvailability.Succeeds` | src/paxos/proposer.go:18-163 | A round with the highest ballot that a majority answers ends with an announcement. |
| `PaxosHandlers.PrepareActs` | src/paxos/acceptor.go:36-59 | A prepare is late exactly for a forgotten slot; otherwise it acts on its slot and answers as the acceptor does, and leaves all other slots alone. |
| `PaxosHandlers.AcceptActs` | src/paxos/acceptor.go:14-34 | So does an accept. |
| `PaxosHandlers.DecideActs` | src/paxos/acceptor.go:3-12 | So does a decide. |
| `PaxosHandlers.ProposerActs` | src/paxos/proposer.go:23-100 | So do the proposer's sections. |
| `PaxosHandlers.SpawnsForNew` | src/paxos/paxos.go:60-72 | A slot gets a proposer without a value if and only if it was just opened, the one asked for only on request. |
| `PaxosHandlers.StatusIff` | src/paxos/paxos.go:122-139 | Status answers Decided with a value if and only if the retained slot has that decision, Forgotten exactly below the window and Exceeded exactly above. |
| `PaxosHandlers.DecideAnswers` | src/paxos/paxos.go:43-58 | After a decision Status answers with its value; nil leaves the slot's own, and a later decision changes nothing. |
| `Paxos.TallyPrepare` | src/paxos/proposer.go:47-82 | The loop with its early exits computes the outcome that the theorems speak of. |
| `Paxos.TallyAccept` | src/paxos/proposer.go:121-140 | The same for the accept loop and the highest refusal. |
| `Paxos.Instance.Prepare` | src/paxos/acceptor.go:45-58 | Answers and new state of a slot: decided value, strict promise, or the ballot to beat. |
| `Paxos.Instance.Accept` | src/paxos/acceptor.go:23-33 | Accepts exactly when undecided and not promised higher. |
| `Paxos.Instance.Decide` | src/paxos/paxos.go:44-52 | Decides once; nil leaves the value that is there. |
| `Paxos.Instance.EnterAccept` | src/paxos/proposer.go:87-100 | Self-accept only if undecided and the own promise still stands. |
| `Paxos.Persister.SaveInstance` | src/paxos/persister.go:113-130 | Writes one slot, with blank slots up to it, and nothing for a forgotten one. |
| `Paxos.Peer.constructor` | src/paxos/paxos.go:158-171 | A new peer is what loading the persisted window gives. |
| `Paxos.Peer.ReadPersist` | src/paxos/persister.go:78-92 | Restores every slot at its number and the highest decided one. |
| `Paxos.Peer.GetInstance` | src/paxos/paxos.go:60-72 | Opens blank slots up to the number and names those that get a proposer without a value; null exactly for forgotten ones. |
| `Paxos.Peer.Prepare` | src/paxos/acceptor.go:36-59 | The whole handler on the window, LateRequest included, and which slots get a proposer without a value. |
| `Paxos.Peer.Accept` | src/paxos/acceptor.go:14-34 | The whole handler, with the write to the persister and the proposers without a value. |
| `Paxos.Peer.Decide` | src/paxos/acceptor.go:3-12 | The whole handler, with the proposers for slots opened in between; forgotten slots are left alone. |
| `Paxos.Peer.Settle` | src/paxos/paxos.go:43-58 | decide on a held instance, forgotten meanwhile or not, wherever the persister starts: slot, persister and decided mark. |
| `Paxos.Peer.Begin` | src/paxos/proposer.go:23-32 | A round takes the next ballot and reads the own acceptor, also on a forgotten instance. |
| `Paxos.Peer.Raise` | src/paxos/proposer.go:68-72 | A refusal raises the own ballot and never lowers it. |
| `Paxos.Peer.Enter` | src/paxos/proposer.go:87-100 | The self-accept between the phases on window and persister, on a forgotten instance too. |
| `Paxos.Peer.Start` | src/paxos/paxos.go:79-86 | Which slots get a proposer, with and without the value. |
| `Paxos.Peer.Done` | src/paxos/paxos.go:90-96 | Raises the own done mark to one past the number and never lowers it. |
| `Paxos.Peer.Max` | src/paxos/paxos.go:101-105 | The highest slot of the window: Status says Exceeded exactly above it. |
| `Paxos.Peer.Min` | src/paxos/paxos.go:111-115 | The first number that is not forgotten: Status says Forgotten exactly below it. |
| `Paxos.Peer.Status` | src/paxos/paxos.go:122-139 | Exceeded, Forgotten, Decided with its value or Pending, as PaxosHandlers.StatusIff says, and no slot is opened. |
| `Paxos.Peer.GetDone` | src/paxos/ticker.go:5-11 | The report of the peer's own marks. |
| `Paxos.Peer.ReadReplies` | src/paxos/ticker.go:32-42 | The loop collects done marks by server and the highest decided claim. |
| `Paxos.Peer.MergeDone` | src/paxos/ticker.go:45-53 | The loop merges by maximum and returns the minimum over all peers. |
| `Paxos.Peer.Trim` | src/paxos/ticker.go:54-67 | Drops the slots below the mark, as far as they exist, and saves; the dropped objects are those from the front. |
| `Paxos.Peer.Tick` | src/paxos/ticker.go:32-70 | The whole pass on the window, and which slots get a proposer without a value. |
| `Paxos.Peer.Persist` | src/paxos/persister.go:94-111 | Saves the start and a copy of every instance. |
| `PaxosForgetting.ForgettingSafe` | src/paxos/ticker.go:32-70 | In every run a peer's first slot is at most one more than the highest number ever passed to Done on every peer; what reads Forgotten was passed everywhere. |
| `PaxosForgetting.SlotsKept` | src/paxos/paxos.go:60-115 | Along every run first and highest slot never move back, and a retained slot stays at its number, keeps its decision and never lowers its promise. |
| `PaxosForgetting.StatusFinal` | src/paxos/paxos.go:122-139 | Along every run Status keeps answering a decision until the slot is forgotten, and never leaves Forgotten or goes back to Exceeded. |
| `PaxosForgetting.ForgottenAfterPass` | src/paxos/ticker.go:32-70 | In every run, once all peers' own marks are past a number, a pass that hears each of them forgets every slot up to it. |
| `PaxosForgetting.PassLearnsOf` | src/paxos/ticker.go:40-70 | In every run a pass that hears of a slot decided past the own mark opens it. |
| `PaxosForgetting.MarkHighest` | src/paxos/paxos.go:43-58 | In every run, with restarts, no retained slot above a peer's decided mark is decided. |
| `PaxosForgetting.OwnMarkKept` | src/paxos/persister.go:78-92 | In every run, with restarts, a peer's own done mark is never below its first slot. |
| `PaxosForgetting.DoneMarks` | src/paxos/paxos.go:90-96 | Done raises the own mark to one past the number, never lowers it, and no other mark. |
| `PaxosForgetting.DiskAgrees` | src/paxos/persister.go:78-130 | In every run with an enabled persister each retained slot's saved vote and fate equal memory and unsaved slots have none. |
| `PaxosForgetting.CollectBound` | src/paxos/ticker.go:32-42 | Replies within the bound, failed ones included, collect to marks within the bound. |
| `PaxosWindow.RestartExact` | src/paxos/persister.go:78-111 | persistL then readPersist restores every slot at its number and every Status answer. |
| `PaxosWindow.RestartFromDisk` | src/paxos/persister.go:113-130 | Without the last save votes and decisions still come back. |
| `PaxosWindow.PromiseLost` | src/paxos/acceptor.go:49-53 | Without the last save a promise is forgotten: the same ballot is granted twice. |
| `PaxosWindow.GrantedAgain` | src/paxos/persister.go:113-130 | After a restart without the last save an undecided slot grants exactly the ballots above the saved one, so a refused ballot is granted if and only if it lies above the saved and not above the current one. |
| `PaxosWindow.SavedByAccept` | src/paxos/acceptor.go:24-29 | An accept saves the current ballot; a promise leaves the saved one behind. |
| `PaxosWindow.ProposerKeepsDisk` | src/paxos/proposer.go:23-100 | The proposer's sections keep memory and disk together, on a forgotten instance too. |
| `PaxosWindow.HandlersKeepDisk` | src/paxos/acceptor.go:24-29 | The three handlers keep memory and disk together. |
| `PaxosWindow.TickKeepsDisk` | src/paxos/ticker.go:54-70 | So does the forgetting pass. |
| `PaxosWindow.TrimKeeps` | src/paxos/ticker.go:62-65 | Trimming changes neither a retained slot, nor its number, nor Max. |
| `PaxosWindow.TickOpens` | src/paxos/ticker.go:68-70 | A pass opens slots if and only if a reply claims a decision past the own mark and past the window. |
| `PaxosWindow.FailedCallOpensSlot` | src/paxos/ticker.go:22-38 | A failed call on a fresh peer opens slot 0, without a value. |
| `PaxosReplicas.ReplicasAgree` | src/paxosserver/applier.go:11-52 | In every run in which no majority has chosen nil in the first k slots, two servers that have applied them, at any two points, went through the same files and sessions after k slots. |
| `PaxosReplicas.KeptOutUnchosen` | src/paxos/proposer.go:84-86 | Keeping nil out of the accept phases is enough for that. |
| `PaxosReplicas.HandleActs` | src/paxos/paxos.go:60-86 | The section behind any protocol step leaves in the window what the step leaves in its slot, and every other slot as it was. |
| `PaxosReplicas.SlotStepEnabled` | src/paxos/acceptor.go:3-59 | Whatever a slot can do the windows can do. |
| `PaxosReplicas.MajorityDecidesSlot` | src/paxos/proposer.go:18-163 | From every point of every run a majority alone can get any slot decided on all its members, as Status answers. |
| `PaxosReplicas.TablesAgree` | src/paxosserver/applier.go:11-52 | Under the same condition two servers that have applied equally many slots hold the same tables. |
| `PaxosReplicas.SlotAgrees` | src/paxos/paxos.go:122-139 | What Status answers as the decision of a slot on two servers, at any two points, is equal, not nil, and was proposed, unless nil was chosen in it. |
| `PaxosReplicas.DecidedFinal` | src/paxos/paxos.go:43-52 | No step changes a decided slot's fate or value. |
| `LockTable.ExactlyOnce` | src/paxosserver/applier.go:60-120 | For every log, with repeats and late arrivals, the files are those of carrying out once, in order, the first-fresh operations and the revocations. |
| `LockTable.EffectiveSuffices` | src/raftserver/applier.go:49-128 | Both tables are those of that subsequence alone. |
| `LockTable.EffectiveOnce` | src/paxosserver/applier.go:60-63 | In that subsequence the numbers of a stream rise, so no (Sessid, Seq) takes effect twice. |
| `LockTable.FreshIffFirst` | src/paxosserver/applier.go:61-63 | The check against the session table holds exactly for entries that are first-fresh in the log. |
| `LockTable.SeenIsHighest` | src/paxosserver/applier.go:54-58 | The session table holds the highest number of each stream. |
| `LockTable.DropStale` | src/raftserver/applier.go:59-61 | Removing any one entry that does not count leaves both tables as they are. |
| `LockTable.HolderStep` | src/paxosserver/applier.go:81-120 | A held lock changes hands in no single step and is freed exactly by an effective release of its two streams or a revocation of the exact lease; a free one is taken exactly by a fresh acquire, with the lease that asks for. |
| `LockTable.HolderIff` | src/paxosserver/applier.go:81-120 | After any log a session holds a path if and only if it took it when it was free and nothing has freed it since. |
| `LockTable.FirstAcquireHolds` | src/paxosserver/applier.go:81-94 | For every log, once a path exists and is free, the first fresh acquire holds it, with its lease. |
| `LockTable.Exclusion` | src/paxosserver/applier.go:96-120 | For every log, whoever held a path and later does not was released or revoked in between. |
| `LockTable.Handover` | src/paxosserver/applier.go:81-120 | From one holder to another there is a freeing and after it an acquire. |
| `LockTable.FileStep` | src/paxosserver/applier.go:60-79 | A file appears exactly by a fresh create, free and without a lease, and disappears exactly by a fresh remove of a free file; a held lock is never removed, and a freed one keeps its lease. |
| `LockTable.LeaseStep` | src/paxosserver/applier.go:85-92 | While a lock stays with its holder its lease changes exactly by a fresh extend of the paired stream, to any value, or by the holder's acquire, upwards. |
| `LockTable.LeaseFallsByExtend` | src/paxosserver/applier.go:106-114 | Over any stretch of a log with one holder, a lease that fell was lowered by a fresh extend of the paired stream. |
| `LockServers.Store.Create` | src/paxosserver/applier.go:60-69 | Adds a free file if there is none, unless stale. |
| `LockServers.Store.Remove` | src/paxosserver/applier.go:71-79 | Deletes the file if it is free, unless stale. |
| `LockServers.Store.Acquire` | src/paxosserver/applier.go:81-94 | Takes a free file with its lease or raises the own lease, unless stale, as LockTable.HolderStep and LeaseStep say; no other file object changes. |
| `LockServers.Store.Release` | src/paxosserver/applier.go:96-104 | Frees the file for either stream of its holder, unless stale. |
| `LockServers.Store.Extend` | src/paxosserver/applier.go:106-114 | Sets the lease for the paired stream, unless stale. |
| `LockServers.Store.Revoke` | src/paxosserver/applier.go:116-120 | Frees the file only for the exact holder and lease. |
| `LockServers.Store.Dispatch` | src/paxosserver/applier.go:19-34 | Every code, unknown ones included, does what the table says. |
| `LockServers.Store.UpdateSession` | src/paxosserver/applier.go:54-58 | The number of a stream only rises. |
| `LockServers.Store.CheckLease` | src/paxosserver/ticker.go:25-38 | One revocation for exactly the held locks whose lease is out by more than the grace period. |
| `LockServers.PaxosServer.ApplySlot` | src/paxosserver/applier.go:11-52 | A decided slot is applied and counted, nil and foreign values are skipped; others wait. |
| `LockServers.PaxosServer.OperateTurn` | src/paxosserver/server.go:37-63 | One turn of operateL is the step of the call machine. |
| `LockServers.PaxosServer.RevokeTurn` | src/paxosserver/ticker.go:54-73 | A revocation goes on only while the same file object has the same holder and lease. |
| `LockServers.RaftServer.ApplyMsg` | src/raftserver/applier.go:23-47 | The Raft applier computes the same tables from a command as the Paxos applier. |
| `LockCalls.OneSlotPerCall` | src/paxosserver/server.go:32-64 | In every run a call gets its operation decided in at most one of the slots it proposed. |
| `LockCalls.EarlierSlotsLost` | src/paxosserver/server.go:38-41 | Its slots rise, and each but the last was applied with something else. |
| `LockCalls.ReturnedSeen` | src/paxosserver/server.go:52-54 | A call that returns by itself had its number applied. |
| `LockCalls.CallReturns` | src/paxosserver/server.go:32-64 | From every point of every run a call can go on to return with its number applied, proposing again past all known slots if its slot was lost. |
| `LockLeases.RevokedOnlyExpired` | src/paxosserver/ticker.go:25-38 | In every run a revocation takes effect only on the lease current at that point, which its proposer had seen, on that holder, out by more than the grace period. |
| `LockLeases.RenewedSurvives` | src/raftserver/applier.go:110-128 | In every run a revocation started on a look changes nothing once, after the look, an extend took effect on that holder and it and all leases given out on the path since lie past the lease seen. |
| `LockClients.StreamsDisjoint` | src/session/client.go:31-36 | With 32-bit wrap-around two sessions share a stream id if and only if a multiple of 2^31 sessions lies between them. |
| `LockClients.ForeignRelease` | src/paxosserver/applier.go:96-104 | No release of another session frees a lock. |
| `LockClients.KeptByOwner` | src/paxosserver/applier.go:96-120 | Between two points of any log a session keeps its lock unless it releases it on one of its streams or a revocation names it. |
| `LockClients.Client.constructor` | src/session/client.go:31-36 | The session opened after k others gets the id the counter wraps to. |
| `LockClients.Client.Request` | src/session/client.go:56-85 | The loop with its servers in rotation, its waits and the Terminated exit; the other stream is untouched. |
| `LockClients.RetryOk` | src/session/client.go:56-85 | Whatever comes back, a call takes a new number exactly after a repeated one and the next server exactly after a failure, and the loop ends with the first other answer or, closed, after a full round of failures. |
| `LockClients.NumbersRise` | src/session/client.go:57-66 | The numbers of a request begin above the stream's earlier ones and never fall. |
| `LockClients.GivesUpOnlyAfterAll` | src/session/client.go:72-83 | A request gives up only when the session is closed and its last calls have failed at every server. |
| `LockClients.FullRoundFails` | src/session/client.go:72-83 | A full round of failures ends the request of a closed session, and one of an open session goes on with the next server and a full round before it. |

## Left out

- Abrupt crashes in the global safety proofs: a restart is the one of `Shutdown`, which saves everything first; promises and self-votes are not saved when they are made.
- Snapshots in `RaftReplicas`: the lock service never calls `Snapshot` and its applier skips snapshot messages; what the bytes of a snapshot mean is up to the service.
- Forgotten slots in the global Paxos proof: the slot machine has no LateRequest answers and no background decide with nil, since the lock service never calls `Done`; on a decided slot that decide changes nothing.
- Interleaving inside a handler: a locked section and its persister write are one step, though the instance lock is taken after the peer lock is released.
- Who hears of a decision found in a prepare phase: the slot machine lets any server learn it, which is more than the code does; the availability proofs use it for the proposer only.
- Single-server clusters: both tally loops start at the second server and never reach a majority with one.
- Timers, sleeps, back-off, heartbeat counters and condition variables: any enabled step may happen at any time; progress is shown to be possible from every state, not to happen.
- Wall-clock reads: the time is an input of the lease steps; leases are not claimed to rise, since Extend assigns them.
- The simulated network and the encodings (`src/labrpc`, `src/labgob`, the bytes of `src/raft/persisting.go`): messages and saved state are values.
- Aliasing of slices in `Persister.Copy`, and a killed peer's goroutines that are still at work.
- Replies of Create, Remove, Acquire, Release and Extend after `operateL`: they read one table entry and would only add easy members.
- The early return of `operateL` when the server is closed.
- Raft's `operateL`, its condition variables and `checkTermL`: they wake and time out waiting calls only.
- `IsHolding` and `KeepAlive`: they depend on clocks and reply delays.
- Overflow of 64-bit sequence numbers, terms, ballots and indices, and of the 32-bit counter that picks a client's server: these are unbounded; 32-bit session ids wrap.
- LockServers.Store.Create: the six apply functions are written once for both servers, whose texts agree but for the lock calls and the wake-up of waiting calls.
- PaxosWindow.RestartFromDisk: promises are not claimed to survive; PaxosWindow.PromiseLost shows that they do not, and PaxosWindow.GrantedAgain which are lost.
- RaftConverge.Converge: the follower does not change between retries; for one that does, RaftSafety.RejectLowersNext and RaftSnapshotSafety.RejectLowersOrSnapshots give the step that ends the loop.
- LockClients.Client.Request: the two streams of a session may move the leader counter at the same time; the model takes one request at a time.
