/** Log compaction (section 7 of the extended Raft paper): a peer that keeps
    (startIndex, sentinel, suffix) behaves like one that keeps its whole log. */
module RaftCompaction {
  import opened Session
  import opened RaftPeer
  import opened RaftHistory
  import opened RaftMerge
  import opened RaftBackup
  import opened RaftLogSteps

  /** `p` is `q` with its log compacted; what was cut off had been applied. */
  ghost predicate Refines(p: Peer, q: Peer) {
    && q.startIndex == 0 && Compacted(p.logs, p.startIndex, q.logs)
    && p == q.(startIndex := p.startIndex, logs := p.logs, snapshot := p.snapshot, snapshotApplying := p.snapshotApplying)
    && p.startIndex < p.lastApplied <= p.commitIndex <= |q.logs|
  }

  /** The sender's log fits the receiver: logs match, and the receiver's committed
      prefix is in the sender's log (what leader completeness provides). */
  ghost predicate Fits(q: Peer, leader: Log) {
    TermsMatch(q.logs, leader) && Agree(q.logs, leader, q.commitIndex)
  }

  /** Merging into the suffix is merging into the whole log. */
  lemma {:induction false} MergeCompacted(logs: Log, start: nat, full: Log, at: nat, entries: Log)
    requires Compacted(logs, start, full) && 1 <= at <= |logs|
    ensures Compacted(Merge(logs, at, entries), start, Merge(full, start + at, entries))
    decreases |entries|
  {
    if entries != [] && at < |logs| && logs[at].term == entries[0].term {
      assert full[start + at] == logs[at];
      MergeCompacted(logs, start, full, at + 1, entries[1..]);
    } else if entries != [] {
      assert at < |logs| ==> full[start + at] == logs[at];
      assert Merge(logs, at, entries) == logs[..at] + entries;
      assert Merge(full, start + at, entries) == full[..start + at] + entries;
    }
  }

  /** The discard shift keeps a request a piece of the leader's log. */
  lemma ShiftFromLeader(leader: Log, a: AppendArgs, start: nat)
    requires FromLeader(leader, a) && a.prevIndex < start < a.prevIndex + |a.entries|
    ensures FromLeader(leader, Shift(a, start))
  {
  }

  /** ... and does not change what the whole log becomes. */
  lemma ShiftedMerge(full: Log, leader: Log, a: AppendArgs, start: nat)
    requires TermsMatch(full, leader) && FromLeader(leader, a) && Agree(full, leader, start + 1)
    requires a.prevIndex < start < a.prevIndex + |a.entries|
    ensures Merge(full, start + 1, Shift(a, start).entries) == Merge(full, a.prevIndex + 1, a.entries)
  {
    ShiftFromLeader(leader, a, start);
    MergeResult(full, a.prevIndex + 1, a.entries, leader);
    MergeResult(full, start + 1, Shift(a, start).entries, leader);
    assert start + 1 + |Shift(a, start).entries| == a.prevIndex + 1 + |a.entries|;
  }

  /** Past the sentinel the two peers take the same branch and end in related states. */
  lemma AppendAtRefines(p: Peer, q: Peer, a: AppendArgs)
    requires q.startIndex == 0 && Compacted(p.logs, p.startIndex, q.logs) && p.startIndex <= a.prevIndex
    requires p == q.(startIndex := p.startIndex, logs := p.logs, snapshot := p.snapshot, snapshotApplying := p.snapshotApplying)
    ensures AppendAt(p, a).1.success == AppendAt(q, a).1.success && AppendAt(p, a).1.term == AppendAt(q, a).1.term
    ensures var p', q' := AppendAt(p, a).0, AppendAt(q, a).0;
      && Compacted(p'.logs, p'.startIndex, q'.logs)
      && p' == q'.(startIndex := p.startIndex, logs := p'.logs, snapshot := p.snapshot, snapshotApplying := p.snapshotApplying)
  {
    var i := a.prevIndex - p.startIndex;
    if i < |p.logs| {
      assert p.logs[i].term == q.logs[a.prevIndex].term;
      MergeCompacted(p.logs, p.startIndex, q.logs, i + 1, a.entries);
    }
  }

  /** The bounds of the uncompacted peer survive an accepted request. */
  lemma AppendBounds(q: Peer, a: AppendArgs, leader: Log)
    requires q.startIndex == 0 && FromLeader(leader, a) && Fits(q, leader) && a.term >= q.currentTerm
    requires q.logs != [] && a.leaderCommit <= a.prevIndex + 1 + |a.entries|
    requires 1 <= q.commitIndex <= |q.logs|
    ensures var q' := AppendEntries(q, a).0; q.commitIndex <= q'.commitIndex <= |q'.logs|
    ensures AppendEntries(q, a).1.success ==> Agree(AppendEntries(q, a).0.logs, leader, a.prevIndex + 1 + |a.entries|)
    ensures Agree(AppendEntries(q, a).0.logs, q.logs, q.commitIndex)
  {
    var q' := AppendEntries(q, a).0;
    if AppendEntries(q, a).1.success {
      AcceptResult(q, a, leader);
      MergeKeeps(q.logs, q'.logs, leader, a.prevIndex + 1 + |a.entries|, q.commitIndex);
    }
  }

  /** A request wholly below the snapshot is a no-op for the whole log too. */
  lemma CoveredRequest(q: Peer, a: AppendArgs, leader: Log, start: nat)
    requires q.startIndex == 0 && FromLeader(leader, a) && Fits(q, leader) && a.term >= q.currentTerm
    requires start < q.commitIndex <= |q.logs| && a.leaderCommit <= a.prevIndex + 1 + |a.entries|
    requires a.prevIndex < start && start - a.prevIndex >= |a.entries|
    ensures AppendEntries(q, a) == (Yield(q, a.term), AppendReply(a.term, true, 0, 0, 0))
  {
    assert q.logs[a.prevIndex] == leader[a.prevIndex];
    MergeResult(q.logs, a.prevIndex + 1, a.entries, leader);
  }

  /** The shifted request does to the whole log what the original does. */
  lemma ShiftedRequest(q: Peer, a: AppendArgs, leader: Log, start: nat)
    requires q.startIndex == 0 && FromLeader(leader, a) && Fits(q, leader) && a.term >= q.currentTerm
    requires start < q.commitIndex <= |q.logs| && a.prevIndex < start < a.prevIndex + |a.entries|
    ensures AppendAt(Yield(q, a.term), Shift(a, start)) == AppendEntries(q, a)
  {
    var z, b := Yield(q, a.term), Shift(a, start);
    ShiftFromLeader(leader, a, start);
    ShiftedMerge(q.logs, leader, a, start);
    assert q.logs[a.prevIndex] == leader[a.prevIndex] && q.logs[start] == leader[start];
    AcceptedAt(z, a);
    AcceptedAt(z, b);
  }

  lemma AcceptedAt(z: Peer, a: AppendArgs)
    requires z.startIndex == 0 && a.prevIndex < |z.logs| && z.logs[a.prevIndex].term == a.prevTerm
    ensures AppendAt(z, a) == (z.(logs := Merge(z.logs, a.prevIndex + 1, a.entries),
                                  commitIndex := if a.leaderCommit > z.commitIndex then a.leaderCommit else z.commitIndex),
                               AppendReply(z.currentTerm, true, 0, 0, 0))
  {
  }

  /** AppendEntries on the compacted log gives the same abstract log, commit index and
      answer as on the whole log, including the discardIndex shift. */
  lemma AppendRefines(p: Peer, q: Peer, a: AppendArgs, leader: Log)
    requires Refines(p, q)
    requires a.term >= p.currentTerm ==>
               FromLeader(leader, a) && Fits(q, leader) && a.leaderCommit <= a.prevIndex + 1 + |a.entries|
    ensures Refines(AppendEntries(p, a).0, AppendEntries(q, a).0)
    ensures AppendEntries(p, a).1.success == AppendEntries(q, a).1.success
    ensures AppendEntries(p, a).1.term == AppendEntries(q, a).1.term
  {
    if a.term >= p.currentTerm {
      var y, z := Yield(p, a.term), Yield(q, a.term);
      AppendBounds(q, a, leader);
      if a.prevIndex >= p.startIndex {
        AppendAtRefines(y, z, a);
      } else if p.startIndex - a.prevIndex >= |a.entries| {
        CoveredRequest(q, a, leader, p.startIndex);
      } else {
        ShiftedRequest(q, a, leader, p.startIndex);
        AppendAtRefines(y, z, Shift(a, p.startIndex));
      }
    }
  }

  /** Snapshot only changes how the log is kept. */
  lemma SnapshotRefines(p: Peer, q: Peer, index: nat, data: seq<int>)
    requires Refines(p, q) && index < p.lastApplied
    ensures Refines(Snapshot(p, index, data), q)
  {
  }

  /** The entries a snapshot stands for, as an ordinary request. */
  ghost function AsAppend(a: SnapshotArgs, leader: Log): AppendArgs
    requires a.lastIndex < |leader|
  {
    AppendArgs(a.term, leader[0].term, 0, leader[1..a.lastIndex + 1], a.lastIndex + 1)
  }

  /** The uncompacted peer after the request a snapshot stands for; what it covers counts as applied. */
  ghost function Caught(q: Peer, a: SnapshotArgs, leader: Log): Peer
    requires q.logs != [] && a.lastIndex < |leader|
  {
    var q' := AppendEntries(q, AsAppend(a, leader)).0;
    if a.term >= q.currentTerm && a.lastIndex >= q.lastApplied then q'.(lastApplied := a.lastIndex + 1) else q'
  }

  /** InstallSnapshot on the compacted log is AppendEntries of the snapshotted prefix on
      the whole log. */
  lemma InstallRefines(p: Peer, q: Peer, a: SnapshotArgs, leader: Log)
    requires Refines(p, q) && a.lastIndex < |leader| && leader[a.lastIndex].term == a.lastTerm
    requires a.term >= p.currentTerm ==> Fits(q, leader)
    ensures Refines(InstallSnapshot(p, a).0, Caught(q, a, leader))
    ensures a.term >= p.currentTerm ==> AppendEntries(q, AsAppend(a, leader)).1.success
  {
    if a.term >= p.currentTerm {
      SnapshotAccepted(q, a, leader);
      if a.lastIndex >= p.lastApplied { InstalledLog(p, q, a, leader); }
    }
  }

  /** The request that a snapshot stands for is accepted, and changes nothing that was applied. */
  lemma SnapshotAccepted(q: Peer, a: SnapshotArgs, leader: Log)
    requires q.startIndex == 0 && a.lastIndex < |leader| && leader[a.lastIndex].term == a.lastTerm
    requires 1 <= q.lastApplied <= q.commitIndex <= |q.logs| && a.term >= q.currentTerm && Fits(q, leader)
    ensures var (q', reply) := AppendEntries(q, AsAppend(a, leader));
      && reply.success
      && q' == Yield(q, a.term).(
                 logs := if Agree(q.logs, leader, a.lastIndex + 1) then q.logs else leader[..a.lastIndex + 1],
                 commitIndex := if a.lastIndex + 1 > q.commitIndex then a.lastIndex + 1 else q.commitIndex)
      && (a.lastIndex < q.commitIndex ==> q' == Yield(q, a.term))
  {
    var b := AsAppend(a, leader);
    assert q.logs[0] == leader[0];
    assert FromLeader(leader, b);
    AcceptResult(q, b, leader);
  }

  /** What a leader's matchIndex claims after the answer to a snapshot is true: the follower that
      took it holds the leader's log up to there. */
  lemma SnapshotAcknowledged(l: Peer, peer: nat, q: Peer, a: SnapshotArgs, leader: Log)
    requires peer < |l.matchIndex| && l.currentTerm == a.term && 1 <= q.lastApplied <= q.commitIndex <= |q.logs|
    requires q.startIndex == 0 && a.lastIndex < |leader| && leader[a.lastIndex].term == a.lastTerm
    requires a.term >= q.currentTerm && Fits(q, leader) && Agree(q.logs, leader, l.matchIndex[peer])
    ensures var l' := OnSnapshotReply(l, peer, a.term, a.lastIndex + 1, a.term);
      l' == l.(matchIndex := l'.matchIndex) && |l'.matchIndex| == |l.matchIndex|
      && l.matchIndex[peer] <= l'.matchIndex[peer] && a.lastIndex + 1 <= l'.matchIndex[peer]
      && Agree(Caught(q, a, leader).logs, leader, l'.matchIndex[peer])
  {
    SnapshotAccepted(q, a, leader);
  }

  lemma InstalledLog(p: Peer, q: Peer, a: SnapshotArgs, leader: Log)
    requires Refines(p, q) && p.lastApplied <= a.lastIndex < |leader| && leader[a.lastIndex].term == a.lastTerm
    requires a.term >= p.currentTerm && Fits(q, leader)
    ensures Compacted(InstallSnapshot(p, a).0.logs, a.lastIndex,
                      if Agree(q.logs, leader, a.lastIndex + 1) then q.logs else leader[..a.lastIndex + 1])
    ensures InstallSnapshot(p, a).0 == Yield(p, a.term).(
              snapshot := a.data, startIndex := a.lastIndex, logs := InstallSnapshot(p, a).0.logs,
              commitIndex := if p.commitIndex <= a.lastIndex then a.lastIndex + 1 else p.commitIndex,
              lastApplied := a.lastIndex + 1, snapshotApplying := true)
  {
    var d := a.lastIndex - p.startIndex;
    var p' := InstallSnapshot(p, a).0;
    assert d < |p.logs| ==> p.logs[d] == q.logs[a.lastIndex];
    if d < |p.logs| && p.logs[d].term == a.lastTerm {
      assert Agree(q.logs, leader, a.lastIndex + 1);
      assert forall i | 0 < i < |p'.logs| :: p'.logs[i] == p.logs[d + i];
    } else {
      assert p'.logs == [Entry(a.lastTerm, Nil)];
    }
  }

  /** What a compacted leader sends is what it would send with its whole log, or a
      snapshot of exactly its cut-off prefix. */
  lemma SendRefines(p: Peer, q: Peer, peer: nat)
    requires Refines(p, q) && peer < |p.nextIndex| && p.nextIndex[peer] <= End(p)
    ensures var out := SendLog(p, peer).1;
      match out
      case SendAppend(a) => p.nextIndex[peer] > 0 && SendLog(q, peer).1 == SendAppend(a)
      case SendSnapshot(s) => s.lastIndex == p.startIndex && s.lastTerm == q.logs[p.startIndex].term && s.term == p.currentTerm
  {
  }

  /** Voting and standing look only at the last entry, which compaction keeps. */
  lemma VotingRefines(p: Peer, q: Peer, v: VoteArgs)
    requires Refines(p, q)
    ensures RequestVote(p, v).1 == RequestVote(q, v).1 && Refines(RequestVote(p, v).0, RequestVote(q, v).0)
  {
    assert p.logs[|p.logs| - 1].term == q.logs[|q.logs| - 1].term;
  }

  lemma StandingRefines(p: Peer, q: Peer)
    requires Refines(p, q) && p.role != Leader
    ensures StandForElection(p).1 == StandForElection(q).1 && Refines(StandForElection(p).0, StandForElection(q).0)
  {
  }

  lemma StartRefines(p: Peer, q: Peer, command: Payload)
    requires Refines(p, q)
    ensures Start(p, command).1 == Start(q, command).1 && Refines(Start(p, command).0, Start(q, command).0)
  {
  }

  /** The applier takes the same commands at the same indices. */
  lemma BatchRefines(p: Peer, q: Peer)
    requires Refines(p, q)
    ensures TakeBatch(p).1 == TakeBatch(q).1 && Refines(TakeBatch(p).0, TakeBatch(q).0)
  {
  }

  /** Taking office and stepping down do not look at the log. */
  lemma OfficeRefines(p: Peer, q: Peer, v: VoteArgs, term: nat)
    requires Refines(p, q)
    ensures Refines(TakeOffice(p, v), TakeOffice(q, v)) && Refines(Depose(p, term), Depose(q, term))
  {
  }

  /** The committer counts matching peers and never reads an entry. */
  lemma CommitRefines(p: Peer, q: Peer, newCommit: bool)
    requires Refines(p, q) && Commit(q, newCommit).0.commitIndex <= |q.logs| && p.commitIndex <= Commit(q, newCommit).0.commitIndex
    ensures Commit(p, newCommit).1 == Commit(q, newCommit).1 && Refines(Commit(p, newCommit).0, Commit(q, newCommit).0)
  {
    forall i: nat ensures TestIndex(p, i) == TestIndex(q, i) { assert Matched(p, i) == Matched(q, i); }
    if newCommit { SameWalk(p, q, p.commitIndex + 1, End(p)); }
  }

  lemma {:induction false} SameWalk(p: Peer, q: Peer, lo: nat, hi: nat)
    requires forall i: nat :: TestIndex(p, i) == TestIndex(q, i)
    ensures MatchedEnd(p, lo, hi) == MatchedEnd(q, lo, hi)
    decreases hi - lo
  {
    if lo < hi && TestIndex(p, lo) { SameWalk(p, q, lo + 1, hi); }
  }

  /** An accepted request moves both leaders' indices alike. */
  lemma AcceptedRefines(p: Peer, q: Peer, peer: nat, a: AppendArgs, r: AppendReply, r0: AppendReply)
    requires Refines(p, q) && peer < |p.nextIndex| == |p.matchIndex| && r.xIndex <= End(p) && r0.xIndex <= End(q)
    requires r.success == r0.success && r.term == r0.term && (r.success || r.term > a.term)
    ensures Refines(OnAppendReply(p, peer, a, r).0, OnAppendReply(q, peer, a, r0).0)
  {
  }

  /** A restart brings back the same log and begins past the snapshot. */
  lemma RestartRefines(p: Peer, q: Peer, n: nat)
    requires Refines(p, q)
    ensures var mark := if p.startIndex > 0 then p.startIndex + 1 else 1;
      Refines(Restart(p, n), Restart(q, n).(commitIndex := mark, lastApplied := mark)) && 1 <= mark <= q.lastApplied
  {
  }

  /** A follower that has cut its log answers a reject with the same term and length; its index
      is that of the whole log, but not below the cut. */
  lemma RejectRefines(p: Peer, q: Peer, a: AppendArgs)
    requires q.startIndex == 0 && Compacted(p.logs, p.startIndex, q.logs) && p.startIndex <= a.prevIndex
    requires p.currentTerm == q.currentTerm && !AppendAt(q, a).1.success
    ensures var r, r0 := AppendAt(p, a).1, AppendAt(q, a).1;
      && !r.success && r.xTerm == r0.xTerm && r.xLen == r0.xLen && r.term == r0.term
      && r.xIndex == if r0.xIndex < p.startIndex then p.startIndex else r0.xIndex
  {
    var at := if a.prevIndex >= End(p) then |p.logs| - 1 else a.prevIndex - p.startIndex;
    RunStartCompacted(p.logs, p.startIndex, q.logs, at);
  }

  lemma {:induction false} RunStartCompacted(logs: Log, start: nat, full: Log, i: nat)
    requires Compacted(logs, start, full) && i < |logs|
    ensures start + RunStart(logs, i) == var x := RunStart(full, start + i); if x < start then start else x
  {
    assert logs[i].term == full[start + i].term;
    if i > 0 {
      assert logs[i - 1].term == full[start + i - 1].term;
      if logs[i].term == logs[i - 1].term { RunStartCompacted(logs, start, full, i - 1); }
    }
  }
}
