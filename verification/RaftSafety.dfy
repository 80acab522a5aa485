/** The safety theorems of Raft, for every run of a cluster of any size with lost,
    delayed, reordered and repeated messages and controlled restarts. */
module RaftSafety {
  import opened RaftPeer
  import opened RaftAnswers
  import opened RaftCommitPoint
  import opened RaftHistory
  import opened RaftCompleteness
  import opened RaftGrowth
  import opened RaftCluster
  import opened RaftInduction
  import opened RaftElectionSteps
  import opened RaftLogSteps

  lemma ElectionStepKeeps(c: Cluster, c': Cluster, step: Step)
    requires Inv(c) && StepOk(c, c', step) && (step.Stand? || step.Answer? || step.CountVotes?)
    ensures Kept(c, c')
  {
    match step
    case Stand(s) => StandInv(c, c', s);
    case Answer(s, args) => AnswerInv(c, c', s, args);
    case CountVotes(s, args, voters, results) => CountInv(c, c', s, args, voters, results);
  }

  lemma ReplicationStepKeeps(c: Cluster, c': Cluster, step: Step)
    requires Inv(c) && StepOk(c, c', step) && (step.Submit? || step.Send? || step.Receive? || step.Hear?)
    ensures Kept(c, c')
  {
    match step
    case Submit(s, command) => SubmitInv(c, c', s, command);
    case Send(s, dst) => SendInv(c, c', s, dst);
    case Receive(src, s, a) => ReceiveInv(c, c', src, s, a);
    case Hear(s, dst, a, reply) => HearInv(c, c', s, dst, a, reply);
  }

  lemma OwnStepKeeps(c: Cluster, c': Cluster, step: Step)
    requires Inv(c) && StepOk(c, c', step) && (step.Advance? || step.Apply? || step.Reboot?)
    ensures Kept(c, c')
  {
    match step
    case Advance(s) => AdvanceInv(c, c', s);
    case Apply(s) => ApplyInv(c, c', s);
    case Reboot(s) => RebootInv(c, c', s);
  }

  lemma NextKeeps(c: Cluster, c': Cluster)
    requires Inv(c) && Next(c, c')
    ensures Kept(c, c')
  {
    var step :| StepOk(c, c', step);
    if step.Stand? || step.Answer? || step.CountVotes? {
      ElectionStepKeeps(c, c', step);
    } else if step.Advance? || step.Apply? || step.Reboot? {
      OwnStepKeeps(c, c', step);
    } else {
      ReplicationStepKeeps(c, c', step);
    }
  }

  lemma {:induction false} RunInv(run: seq<Cluster>, i: nat)
    requires Run(run) && i < |run|
    ensures Inv(run[i])
  {
    if i == 0 {
      InitInv(run[0]);
    } else {
      RunInv(run, i - 1);
      assert Linked(run, i - 1);
      NextKeeps(run[i - 1], run[i]);
    }
  }

  lemma StepExtends(run: seq<Cluster>, i: nat)
    requires Run(run) && i + 1 < |run|
    ensures Extends(run[i].hist, run[i + 1].hist) && |run[i + 1].nodes| == |run[i].nodes|
  {
    RunInv(run, i);
    assert Linked(run, i);
    NextKeeps(run[i], run[i + 1]);
  }

  lemma {:induction false} RunExtends(run: seq<Cluster>, i: nat, j: nat)
    requires Run(run) && i <= j < |run|
    ensures Extends(run[i].hist, run[j].hist) && |run[j].nodes| == |run[i].nodes|
    decreases j
  {
    if i == j {
      ExtendsReflexive(run[j].hist);
    } else {
      RunExtends(run, i, j - 1);
      StepExtends(run, j - 1);
      ExtendsTransitive(run[i].hist, run[j - 1].hist, run[j].hist);
    }
  }

  /** The invariant holds in every state of every run, and history only grows. */
  lemma RunKeeps(run: seq<Cluster>, i: nat, j: nat)
    requires Run(run) && i <= j < |run|
    ensures Inv(run[i]) && Inv(run[j]) && Extends(run[i].hist, run[j].hist) && |run[j].nodes| == |run[i].nodes|
  {
    RunInv(run, i);
    RunInv(run, j);
    RunExtends(run, i, j);
  }

  /** Election safety (section 5.2): at most one server ever leads a term, at
      whatever points of the run it is seen leading. */
  lemma ElectionSafety(run: seq<Cluster>, i: nat, s: nat, j: nat, u: nat)
    requires Run(run) && i <= j < |run| && s < |run[i].nodes| && u < |run[j].nodes|
    requires run[i].nodes[s].peer.role == Leader && run[j].nodes[u].peer.role == Leader
    requires run[i].nodes[s].peer.currentTerm == run[j].nodes[u].peer.currentTerm
    ensures s == u
  {
    RunKeeps(run, i, j);
    assert NodeOk(run[i].hist, |run[i].nodes|, s, run[i].nodes[s]);
    assert NodeOk(run[j].hist, |run[j].nodes|, u, run[j].nodes[u]);
  }

  /** Log matching (section 5.3), between any two servers at any two points of a run. */
  lemma LogMatchingSafety(run: seq<Cluster>, i: nat, s: nat, j: nat, u: nat, k: nat)
    requires Run(run) && i <= j < |run| && s < |run[i].nodes| && u < |run[j].nodes|
    requires k < |run[i].nodes[s].peer.logs| && k < |run[j].nodes[u].peer.logs|
    requires run[i].nodes[s].peer.logs[k].term == run[j].nodes[u].peer.logs[k].term
    ensures Agree(run[i].nodes[s].peer.logs, run[j].nodes[u].peer.logs, k + 1)
  {
    RunKeeps(run, i, j);
    assert NodeOk(run[i].hist, |run[i].nodes|, s, run[i].nodes[s]);
    assert NodeOk(run[j].hist, |run[j].nodes|, u, run[j].nodes[u]);
    LogOkGrows(run[i].hist, run[j].hist, run[i].nodes[s].peer.logs);
    LogMatching(run[j].hist, run[i].nodes[s].peer.logs, run[j].nodes[u].peer.logs, k);
  }

  /** Terms never decrease along any log. */
  lemma LogsSorted(run: seq<Cluster>, i: nat, s: nat, k: nat, m: nat)
    requires Run(run) && i < |run| && s < |run[i].nodes| && k <= m < |run[i].nodes[s].peer.logs|
    ensures run[i].nodes[s].peer.logs[k].term <= run[i].nodes[s].peer.logs[m].term
  {
    RunKeeps(run, i, i);
    assert NodeOk(run[i].hist, |run[i].nodes|, s, run[i].nodes[s]);
    SortedTerms(run[i].hist, run[i].nodes[s].peer.logs, k, m);
  }

  /** Leader completeness (section 5.4.3): whatever a server knows to be committed is
      in the log of every leader of the same or a later term from then on. */
  lemma LeaderHasCommitted(run: seq<Cluster>, i: nat, s: nat, j: nat, u: nat)
    requires Run(run) && i <= j < |run| && s < |run[i].nodes| && u < |run[j].nodes|
    requires run[j].nodes[u].peer.role == Leader
    requires run[i].nodes[s].peer.currentTerm <= run[j].nodes[u].peer.currentTerm
    ensures Agree(run[i].nodes[s].peer.logs, run[j].nodes[u].peer.logs, run[i].nodes[s].peer.commitIndex)
  {
    RunKeeps(run, i, j);
    var n, p, l := |run[j].nodes|, run[i].nodes[s].peer, run[j].nodes[u].peer;
    assert NodeOk(run[i].hist, n, s, run[i].nodes[s]) && NodeOk(run[j].hist, n, u, run[j].nodes[u]);
    CommitOkGrows(run[i].hist, run[j].hist, n, p.logs, p.commitIndex, p.currentTerm, l.currentTerm);
    LogOkGrows(run[i].hist, run[j].hist, p.logs);
    LeaderHolds(run[j].hist, n, p.logs, p.commitIndex, l.currentTerm, l.currentTerm);
  }

  /** Two committed prefixes, seen anywhere in a run, agree where both reach. */
  lemma CommittedPrefixesAgree(h: Hist, n: nat, a: Log, x: nat, b: Log, y: nat, upTo: nat, k: nat)
    requires HistOk(h, n) && CommitOk(h, n, a, x, upTo) && CommitOk(h, n, b, y, upTo) && LogOk(h, a) && LogOk(h, b)
    requires k < x && k < y
    ensures a[k] == b[k]
  {
    if x > 1 && y > 1 {
      var t: nat, m: nat :| t <= upTo && Covers(h, n, t, m, a, x);
      var u: nat, w: nat :| u <= upTo && Covers(h, n, u, w, b, y);
      if t <= u { CommitsAgree(h, n, t, m, u, w); } else { CommitsAgree(h, n, u, w, t, m); }
    }
  }

  /** The same for two states of which the later one's history extends the earlier one's. */
  lemma CommittedAgree(c: Cluster, s: nat, c': Cluster, u: nat, k: nat)
    requires Inv(c) && Inv(c') && Extends(c.hist, c'.hist) && |c'.nodes| == |c.nodes| && s < |c.nodes| && u < |c'.nodes|
    requires k < c.nodes[s].peer.commitIndex && k < c'.nodes[u].peer.commitIndex
    ensures k < |c.nodes[s].peer.logs| && k < |c'.nodes[u].peer.logs|
    ensures c.nodes[s].peer.logs[k] == c'.nodes[u].peer.logs[k]
  {
    var h, n, p, q := c'.hist, |c'.nodes|, c.nodes[s].peer, c'.nodes[u].peer;
    assert NodeOk(c.hist, n, s, c.nodes[s]) && NodeOk(h, n, u, c'.nodes[u]);
    var upTo := p.currentTerm + q.currentTerm;
    CommitOkGrows(c.hist, h, n, p.logs, p.commitIndex, p.currentTerm, upTo);
    ExtendsReflexive(h);
    CommitOkGrows(h, h, n, q.logs, q.commitIndex, q.currentTerm, upTo);
    LogOkGrows(c.hist, h, p.logs);
    CommittedPrefixesAgree(h, n, p.logs, p.commitIndex, q.logs, q.commitIndex, upTo, k);
  }

  /** State machine safety (section 5.4.3): servers that have committed an index, at
      whatever points of the run, hold the same entry there. */
  lemma CommittedEntriesAgree(run: seq<Cluster>, i: nat, s: nat, j: nat, u: nat, k: nat)
    requires Run(run) && i <= j < |run| && s < |run[i].nodes| && u < |run[j].nodes|
    requires k < run[i].nodes[s].peer.commitIndex && k < run[j].nodes[u].peer.commitIndex
    ensures k < |run[i].nodes[s].peer.logs| && k < |run[j].nodes[u].peer.logs|
    ensures run[i].nodes[s].peer.logs[k] == run[j].nodes[u].peer.logs[k]
  {
    RunKeeps(run, i, j);
    CommittedAgree(run[i], s, run[j], u, k);
  }

  /** In one state: everything that was applied is one function of the index. */
  lemma AppliedAgree(c: Cluster, r: Applied, r': Applied)
    requires Inv(c) && r in c.hist.applied && r' in c.hist.applied && r.index == r'.index
    ensures r.command == r'.command
  {
    var h, n := c.hist, |c.nodes|;
    assert AppliedOk(h, n, r) && AppliedOk(h, n, r');
    var t: nat, k: nat :| Committed(h, n, t, k) && 1 <= r.index < k && h.leaderLog[t][r.index].command == r.command;
    var u: nat, m: nat :| Committed(h, n, u, m) && 1 <= r'.index < m && h.leaderLog[u][r'.index].command == r'.command;
    if t <= u { CommitsAgree(h, n, t, k, u, m); } else { CommitsAgree(h, n, u, m, t, k); }
  }

  /** No two servers ever apply different commands at the same index: everything that
      was applied in the whole run, restarts included, is one function of the index. */
  lemma StateMachineSafety(run: seq<Cluster>, r: Applied, r': Applied)
    requires Run(run)
    requires r in run[|run| - 1].hist.applied && r' in run[|run| - 1].hist.applied && r.index == r'.index
    ensures r.command == r'.command
  {
    RunInv(run, |run| - 1);
    AppliedAgree(run[|run| - 1], r, r');
  }

  /** Commit without min: every AppendEntries in flight names a commit point inside
      what it carries. */
  lemma CommitWithinEntries(run: seq<Cluster>, i: nat, m: Msg)
    requires Run(run) && i < |run| && m in run[i].net && m.AppendReq?
    ensures m.append.leaderCommit <= m.append.prevIndex + 1 + |m.append.entries|
  {
    RunKeeps(run, i, i);
    assert MsgOk(run[i].hist, |run[i].nodes|, run[i].net, m);
  }

  /** So a server's commit index never passes its own log, nor the prefix that its
      log shares with the log of its term's leader. */
  lemma CommitWithinLeaderLog(run: seq<Cluster>, i: nat, s: nat)
    requires Run(run) && i < |run| && s < |run[i].nodes|
    ensures var p := run[i].nodes[s].peer;
      && 1 <= p.lastApplied <= p.commitIndex <= |p.logs|
      && (p.currentTerm in run[i].hist.leaderLog ==>
            Agree(p.logs, run[i].hist.leaderLog[p.currentTerm], p.commitIndex))
  {
    RunKeeps(run, i, i);
    var h, n, p := run[i].hist, |run[i].nodes|, run[i].nodes[s].peer;
    assert NodeOk(h, n, s, run[i].nodes[s]);
    if p.currentTerm in h.leaderLog { LeaderHolds(h, n, p.logs, p.commitIndex, p.currentTerm, p.currentTerm); }
  }

  /** A step touches one server. */
  lemma OthersStay(c: Cluster, c': Cluster, step: Step, s: nat)
    requires StepOk(c, c', step) && s < |c.nodes|
    ensures |c'.nodes| == |c.nodes| && (s != step.s ==> c'.nodes[s] == c.nodes[s])
  {
  }

  /** Which steps can move a server's commit index. */
  lemma CommitStays(c: Cluster, c': Cluster, step: Step)
    requires StepOk(c, c', step) && !step.Receive? && !step.Advance? && !step.Reboot?
    ensures |c'.nodes| == |c.nodes| && c'.nodes[step.s].peer.commitIndex == c.nodes[step.s].peer.commitIndex
  {
  }

  /** Only the applier and a restart move a server's applied mark. */
  lemma AppliedStays(c: Cluster, c': Cluster, step: Step)
    requires StepOk(c, c', step) && !step.Apply? && !step.Reboot?
    ensures |c'.nodes| == |c.nodes| && c'.nodes[step.s].peer.lastApplied == c.nodes[step.s].peer.lastApplied
  {
  }

  /** commitIndex goes back only when a server restarts. */
  lemma CommitIndexMonotone(c: Cluster, c': Cluster, step: Step, s: nat)
    requires Inv(c) && StepOk(c, c', step) && s < |c.nodes| && step != Reboot(s)
    ensures s < |c'.nodes| && c.nodes[s].peer.commitIndex <= c'.nodes[s].peer.commitIndex
  {
    OthersStay(c, c', step, s);
    if step.Advance? && step.s == s {
      assert NodeOk(c.hist, |c.nodes|, s, c.nodes[s]);
      AdvanceNode(c.hist, |c.nodes|, s, c.nodes[s]);
    } else if step.Receive? && step.s == s {
      ReceiveRises(c, c', step.src, s, step.append);
    } else if step.s == s {
      CommitStays(c, c', step);
    }
  }

  /** In every run, a commit index that falls means that its server has just restarted. */
  lemma CommitFallsOnlyOnRestart(run: seq<Cluster>, i: nat, s: nat)
    requires Run(run) && i + 1 < |run| && s < |run[i].nodes|
    ensures s < |run[i + 1].nodes|
    ensures run[i + 1].nodes[s].peer.commitIndex < run[i].nodes[s].peer.commitIndex ==>
              run[i + 1].nodes[s] == Node(Restart(run[i].nodes[s].peer, |run[i].nodes|), 0, false)
  {
    RunInv(run, i);
    assert Linked(run, i);
    var step :| StepOk(run[i], run[i + 1], step);
    if step != Reboot(s) { CommitIndexMonotone(run[i], run[i + 1], step, s); }
  }

  lemma ReceiveRises(c: Cluster, c': Cluster, src: nat, s: nat, a: AppendArgs)
    requires s < |c.nodes| && Shaped(c.nodes[s], |c.nodes|) && ReceiveStep(c, c', src, s, a)
    ensures c.nodes[s].peer.commitIndex <= c'.nodes[s].peer.commitIndex
  {
  }

  /** What a pass of the committer moves to is a majority-matched entry of the leader's own term. */
  lemma CommitsOwnTerm(h: Hist, n: nat, s: nat, node: Node)
    requires HistOk(h, n) && NodeOk(h, n, s, node) && s < n
    requires node.workTerm > 0 && node.peer.currentTerm == node.workTerm && node.peer.newOp != 0
    ensures var p, c := node.peer, Commit(node.peer, node.newCommit).0.commitIndex;
      c != p.commitIndex ==>
        p.role == Leader && p.commitIndex < c <= |p.logs| && MajorityHolds(p, c - 1) && p.logs[c - 1].term == p.currentTerm
  {
    var p, c := node.peer, Commit(node.peer, node.newCommit).0.commitIndex;
    MatchedEndRange(p, p.commitIndex + 1, End(p));
    if c != p.commitIndex {
      TestMeansCommitted(h, n, s, node, c - 1);
      TestIsMajority(p, c - 1);
    }
  }

  /** In every run a leader advances its commit index only to a majority-matched entry of its own
      term (section 5.4.2). */
  lemma AdvanceOwnTerm(run: seq<Cluster>, i: nat, s: nat)
    requires Run(run) && i + 1 < |run| && StepOk(run[i], run[i + 1], Advance(s))
    ensures var p, c := run[i].nodes[s].peer, run[i + 1].nodes[s].peer.commitIndex;
      c != p.commitIndex ==>
        p.role == Leader && p.commitIndex < c <= |p.logs| && MajorityHolds(p, c - 1) && p.logs[c - 1].term == p.currentTerm
  {
    RunInv(run, i);
    assert NodeOk(run[i].hist, |run[i].nodes|, s, run[i].nodes[s]);
    CommitsOwnTerm(run[i].hist, |run[i].nodes|, s, run[i].nodes[s]);
  }

  /** In every run a reject that a leader heeds strictly lowers the next index of that peer and
      keeps it above the sentinel, whatever the peer did meanwhile: the retries come to an end. */
  lemma RejectLowersNext(run: seq<Cluster>, i: nat, s: nat, dst: nat, a: AppendArgs, reply: AppendReply)
    requires Run(run) && i < |run| && s < |run[i].nodes| && dst < |run[i].nodes| && AppendRep(s, dst, a, reply) in run[i].net
    requires run[i].nodes[s].workTerm == a.term == run[i].nodes[s].peer.currentTerm && !reply.success && reply.term <= a.term
    requires |run[i].nodes[s].peer.nextIndex| == |run[i].nodes[s].peer.matchIndex| == |run[i].nodes|
    requires run[i].nodes[s].peer.nextIndex[dst] == a.prevIndex + 1
    ensures reply.xIndex <= End(run[i].nodes[s].peer)
    ensures var p := run[i].nodes[s].peer; 1 <= OnAppendReply(p, dst, a, reply).0.nextIndex[dst] < p.nextIndex[dst]
  {
    RunInv(run, i);
    var c := run[i];
    assert NodeOk(c.hist, |c.nodes|, s, c.nodes[s]);
    HearInRange(c, s, dst, a, reply);
    assert MsgOk(c.hist, |c.nodes|, c.net, AppendRep(s, dst, a, reply));
    assert MsgOk(c.hist, |c.nodes|, c.net, AppendReq(s, dst, a));
    assert LeaderLogOk(c.hist, a.term);
    BackupInRange(c.nodes[s].peer.logs, a, reply);
  }

  /** sendLog and the committer test only the term, and that is enough: a goroutine
      that finds its term current belongs to the leader of that term. */
  lemma CurrentWorkersLead(run: seq<Cluster>, i: nat, s: nat)
    requires Run(run) && i < |run| && s < |run[i].nodes|
    ensures var node := run[i].nodes[s];
      node.peer.role == Leader <==> node.workTerm > 0 && node.workTerm == node.peer.currentTerm
  {
    RunKeeps(run, i, i);
    assert NodeOk(run[i].hist, |run[i].nodes|, s, run[i].nodes[s]);
  }

  /** The bounds that a step asks for are met in every run, so no handler or goroutine
      ever indexes outside its log, and none is held back by them. */
  lemma BoundsHold(run: seq<Cluster>, i: nat, s: nat, dst: nat, a: AppendArgs, reply: AppendReply)
    requires Run(run) && i < |run| && s < |run[i].nodes|
    ensures var c, node := run[i], run[i].nodes[s];
      && Shaped(node, |c.nodes|)
      && (node.peer.role == Leader ==> node.peer.currentTerm in c.hist.leaderLog)
      && (node.workTerm > 0 && node.workTerm == node.peer.currentTerm && dst < |c.nodes| && dst != s ==>
            node.peer.startIndex < node.peer.nextIndex[dst] <= End(node.peer))
      && (AppendRep(s, dst, a, reply) in c.net && node.workTerm == a.term == node.peer.currentTerm ==>
            reply.xIndex <= End(node.peer))
  {
    RunInv(run, i);
    var c, node := run[i], run[i].nodes[s];
    CommitWithinLeaderLog(run, i, s);
    assert NodeOk(c.hist, |c.nodes|, s, node);
    if node.workTerm > 0 && node.workTerm == node.peer.currentTerm && dst < |c.nodes| && dst != s { SendInRange(c, s, dst); }
    if AppendRep(s, dst, a, reply) in c.net && node.workTerm == a.term == node.peer.currentTerm { HearInRange(c, s, dst, a, reply); }
  }

  /** In every run a server that has not reached the term a candidate asks for votes for it, if the
      candidate's log contains its own. */
  lemma ContainedLogVotes(run: seq<Cluster>, i: nat, s: nat, u: nat)
    requires Run(run) && i < |run| && s < |run[i].nodes| && u < |run[i].nodes| && run[i].nodes[s].peer.role != Leader
    requires run[i].nodes[u].peer.logs <= run[i].nodes[s].peer.logs && run[i].nodes[u].peer.currentTerm <= run[i].nodes[s].peer.currentTerm
    ensures run[i].nodes[s].peer.logs != [] && run[i].nodes[u].peer.logs != []
    ensures RequestVote(run[i].nodes[u].peer, StandForElection(run[i].nodes[s].peer).1).1.granted
  {
    RunInv(run, i);
    var p, q := run[i].nodes[s].peer, run[i].nodes[u].peer;
    assert NodeOk(run[i].hist, |run[i].nodes|, s, run[i].nodes[s]);
    assert NodeOk(run[i].hist, |run[i].nodes|, u, run[i].nodes[u]);
    SortedTerms(run[i].hist, p.logs, |q.logs| - 1, |p.logs| - 1);
    VoteIff(q, StandForElection(p).1);
  }
}
