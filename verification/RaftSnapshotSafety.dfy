/** The safety of Raft with log compaction, for every run of a cluster of any size: what
    holds of whole logs holds of the compacted ones, through their counterpart. */
module RaftSnapshotSafety {
  import opened RaftPeer
  import opened RaftHistory
  import opened RaftGrowth
  import C = RaftCluster
  import opened RaftInduction
  import opened RaftCommitPoint
  import opened RaftLogSteps
  import opened RaftBackup
  import opened RaftCompaction
  import opened RaftSimulation
  import opened RaftSafety
  import K = RaftSnapshots

  /** Every run of the compacted cluster has a counterpart at each point, and the history of
      the later one extends that of the earlier. */
  lemma {:induction false} Counterparts(run: seq<K.System>, i: nat, j: nat) returns (c: C.Cluster, c': C.Cluster)
    requires K.Run(run) && i <= j < |run|
    ensures Sim(run[i], c) && Sim(run[j], c') && Extends(c.hist, c'.hist) && |c'.nodes| == |c.nodes|
    decreases j
  {
    if j == 0 {
      c := InitSimulated(run[0]);
      c' := c;
      ExtendsReflexive(c.hist);
    } else if i == j {
      var _, before := Counterparts(run, j - 1, j - 1);
      c := StepCounterpart(run, j - 1, before);
      c' := c;
      ExtendsReflexive(c.hist);
    } else {
      var mid;
      c, mid := Counterparts(run, i, j - 1);
      c' := StepCounterpart(run, j - 1, mid);
      ExtendsTransitive(c.hist, mid.hist, c'.hist);
    }
  }

  lemma StepCounterpart(run: seq<K.System>, i: nat, c: C.Cluster) returns (c': C.Cluster)
    requires K.Run(run) && i + 1 < |run| && Sim(run[i], c)
    ensures Sim(run[i + 1], c') && Extends(c.hist, c'.hist) && |c'.nodes| == |c.nodes|
  {
    assert K.Linked(run, i);
    c' := NextSimulated(run[i], c, run[i + 1]);
  }

  /** No two servers ever put different commands on their channels at the same index, with
      snapshots, installs and restarts in between. */
  lemma DeliveredAgree(run: seq<K.System>, i: nat, r: Applied, r': Applied)
    requires K.Run(run) && i < |run| && r in run[i].delivered && r' in run[i].delivered && r.index == r'.index
    ensures r.command == r'.command
  {
    var c, _ := Counterparts(run, i, i);
    AppliedAgree(c, r, r');
  }

  /** What has been delivered stays delivered, so the above speaks of all points of a run. */
  lemma {:induction false} DeliveredGrows(run: seq<K.System>, i: nat, j: nat)
    requires K.Run(run) && i <= j < |run|
    ensures run[i].delivered <= run[j].delivered
    decreases j
  {
    if i < j {
      DeliveredGrows(run, i, j - 1);
      assert K.Linked(run, j - 1);
      var step :| K.StepOk(run[j - 1], run[j], step);
    }
  }

  /** Everything on a process's channel is among the delivered commands. */
  lemma SentIsDelivered(run: seq<K.System>, i: nat, s: nat, m: ApplyMsg)
    requires K.Run(run) && i < |run| && s < |run[i].hosts| && m in run[i].hosts[s].sent && m.CommandMsg?
    ensures Applied(s, m.index, m.command) in run[i].delivered
  {
    RunChannels(run, i);
  }

  ghost predicate HostChannel(delivered: set<Applied>, s: nat, h: K.Host) {
    forall m | m in h.sent && m.CommandMsg? :: Applied(s, m.index, m.command) in delivered
  }

  ghost predicate ChannelsOk(k: K.System) {
    forall s | 0 <= s < |k.hosts| :: HostChannel(k.delivered, s, k.hosts[s])
  }

  lemma OneChannel(k: K.System, k': K.System, step: K.Step, s: nat)
    requires ChannelsOk(k) && K.StepOk(k, k', step) && s < |k'.hosts|
    ensures |k'.hosts| == |k.hosts| && HostChannel(k'.delivered, s, k'.hosts[s])
  {
    assert |k'.hosts| == |k.hosts|;
    assert HostChannel(k.delivered, s, k.hosts[s]);
  }

  lemma NextChannels(k: K.System, k': K.System)
    requires ChannelsOk(k) && K.Next(k, k')
    ensures ChannelsOk(k')
  {
    var step :| K.StepOk(k, k', step);
    forall s | 0 <= s < |k'.hosts| ensures |k'.hosts| == |k.hosts| && HostChannel(k'.delivered, s, k'.hosts[s]) {
      OneChannel(k, k', step, s);
    }
  }

  lemma {:induction false} RunChannels(run: seq<K.System>, i: nat)
    requires K.Run(run) && i < |run|
    ensures ChannelsOk(run[i])
  {
    if i > 0 {
      RunChannels(run, i - 1);
      assert K.Linked(run, i - 1);
      NextChannels(run[i - 1], run[i]);
    } else {
      forall s | 0 <= s < |run[0].hosts| ensures run[0].hosts[s].sent == [] { assert run[0].hosts[s] == K.Boot(Fresh(s, |run[0].hosts|)); }
    }
  }

  /** At most one server ever leads a term. */
  lemma LeadersUnique(run: seq<K.System>, i: nat, s: nat, j: nat, u: nat)
    requires K.Run(run) && i <= j < |run| && s < |run[i].hosts| && u < |run[j].hosts|
    requires run[i].hosts[s].peer.role == Leader && run[j].hosts[u].peer.role == Leader
    requires run[i].hosts[s].peer.currentTerm == run[j].hosts[u].peer.currentTerm
    ensures s == u
  {
    var c, c' := Counterparts(run, i, j);
    HostReady(run[i], c, s);
    HostReady(run[j], c', u);
  }

  /** What two servers keep of a committed index is the same entry. */
  lemma KeptEntriesAgree(run: seq<K.System>, i: nat, s: nat, j: nat, u: nat, x: nat)
    requires K.Run(run) && i <= j < |run| && s < |run[i].hosts| && u < |run[j].hosts|
    requires var p, q := run[i].hosts[s].peer, run[j].hosts[u].peer;
      p.startIndex < x < p.commitIndex && q.startIndex < x < q.commitIndex
    ensures var p, q := run[i].hosts[s].peer, run[j].hosts[u].peer;
      && x < End(p) && x < End(q) && p.logs[x - p.startIndex] == q.logs[x - q.startIndex]
  {
    var c, c' := Counterparts(run, i, j);
    HostReady(run[i], c, s);
    HostReady(run[j], c', u);
    CommittedAgree(c, s, c', u, x);
  }

  /** In every run the logs are long enough for every handler, goroutine and applier. */
  lemma AlwaysReady(run: seq<K.System>, i: nat, s: nat, dst: nat)
    requires K.Run(run) && i < |run| && s < |run[i].hosts|
    ensures var h, n := run[i].hosts[s], |run[i].hosts|;
      && K.Ready(h, n)
      && (dst < n && dst != s && h.workTerm > 0 && h.workTerm == h.peer.currentTerm ==> 1 <= h.peer.nextIndex[dst] <= End(h.peer))
  {
    var c, _ := Counterparts(run, i, i);
    HostReady(run[i], c, s);
    var h := run[i].hosts[s];
    if dst < |c.nodes| && dst != s && h.workTerm > 0 && h.workTerm == h.peer.currentTerm { SendInRange(c, s, dst); }
  }

  /** Nor does an answer that a leader hears point past its log. */
  lemma AnswersInRange(run: seq<K.System>, i: nat, s: nat, dst: nat, a: AppendArgs, r: AppendReply)
    requires K.Run(run) && i < |run| && s < |run[i].hosts| && K.Plain(C.AppendRep(s, dst, a, r)) in run[i].net
    requires run[i].hosts[s].workTerm == a.term == run[i].hosts[s].peer.currentTerm
    ensures r.xIndex <= End(run[i].hosts[s].peer)
  {
    var c, _ := Counterparts(run, i, i);
    HostReady(run[i], c, s);
    AnswerInLog(run[i], c, s, dst, a, r);
  }

  /** A reject that a leader heeds strictly lowers the next index of that peer exactly when the
      leader still keeps the index it tried; otherwise the next index is its cut, and the round
      after sends a snapshot and leaves the loop. */
  lemma RejectLowersOrSnapshots(run: seq<K.System>, i: nat, s: nat, dst: nat, a: AppendArgs, r: AppendReply)
    requires K.Run(run) && i < |run| && s < |run[i].hosts| && dst < |run[i].hosts| && K.Plain(C.AppendRep(s, dst, a, r)) in run[i].net
    requires run[i].hosts[s].workTerm == a.term == run[i].hosts[s].peer.currentTerm && !r.success && r.term <= a.term
    requires |run[i].hosts[s].peer.nextIndex| == |run[i].hosts[s].peer.matchIndex| == |run[i].hosts|
    requires run[i].hosts[s].peer.nextIndex[dst] == a.prevIndex + 1
    ensures r.xIndex <= End(run[i].hosts[s].peer)
    ensures var p := run[i].hosts[s].peer;
      var p' := OnAppendReply(p, dst, a, r).0;
      && 1 <= p'.nextIndex[dst] <= End(p') && p'.logs != []
      && (p'.nextIndex[dst] < p.nextIndex[dst] <==> p.startIndex < p.nextIndex[dst])
      && (p.startIndex >= p.nextIndex[dst] ==> p'.nextIndex[dst] == p.startIndex && SendLog(p', dst).1.SendSnapshot?)
  {
    var c, _ := Counterparts(run, i, i);
    HostReady(run[i], c, s);
    AnswerInLog(run[i], c, s, dst, a, r);
    RejectInFlight(run[i], c, s, dst, a, r);
    BackupRange(run[i].hosts[s].peer, c.nodes[s].peer, a, r);
    BackupBound(run[i].hosts[s].peer.logs, run[i].hosts[s].peer.startIndex, a.prevIndex, r);
  }

  ghost predicate OwnTermAt(p: Peer, c: nat) {
    && p.role == Leader && p.startIndex < p.commitIndex < c <= End(p)
    && MajorityHolds(p, c - 1) && p.logs[c - 1 - p.startIndex].term == p.currentTerm
  }

  lemma OwnTermKept(p: Peer, q: Peer, c: nat)
    requires Refines(p, q) && OwnTermAt(q, c)
    ensures OwnTermAt(p, c)
  {
    var holders :| HoldingQuorum(q, c - 1, holders);
    assert HoldingQuorum(p, c - 1, holders);
    assert p.logs[c - 1 - p.startIndex] == q.logs[c - 1];
  }

  lemma CounterpartCommits(k: K.System, c: C.Cluster, s: nat)
    requires Sim(k, c) && s < |k.hosts| && k.hosts[s].workTerm > 0 && k.hosts[s].peer.currentTerm == k.hosts[s].workTerm
    requires k.hosts[s].peer.newOp != 0
    ensures var p, q, x := k.hosts[s].peer, c.nodes[s].peer, Commit(k.hosts[s].peer, k.hosts[s].newCommit).0.commitIndex;
      Refines(p, q) && (x != p.commitIndex ==> OwnTermAt(q, x))
  {
    HostReady(k, c, s);
    AdvanceNode(c.hist, |c.nodes|, s, c.nodes[s]);
    CommitRefines(k.hosts[s].peer, c.nodes[s].peer, c.nodes[s].newCommit);
    CommitsOwnTerm(c.hist, |c.nodes|, s, c.nodes[s]);
  }

  /** A leader advances its commit index only to a majority-matched entry of its own term. */
  lemma AdvanceOwnTermKept(run: seq<K.System>, i: nat, s: nat)
    requires K.Run(run) && i + 1 < |run| && K.StepOk(run[i], run[i + 1], K.Advance(s))
    ensures var p, c := run[i].hosts[s].peer, run[i + 1].hosts[s].peer.commitIndex;
      c != p.commitIndex ==> OwnTermAt(p, c)
  {
    var c, _ := Counterparts(run, i, i);
    CounterpartCommits(run[i], c, s);
    var p, x := run[i].hosts[s].peer, run[i + 1].hosts[s].peer.commitIndex;
    if x != p.commitIndex { OwnTermKept(p, c.nodes[s].peer, x); }
  }
}
