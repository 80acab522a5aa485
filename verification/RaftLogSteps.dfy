/** Log replication keeps the invariant: submitting, sending, receiving, hearing
    answers, committing, applying and restarting. */
module RaftLogSteps {
  import opened Session
  import opened RaftPeer
  import opened RaftCommitPoint
  import opened RaftHistory
  import opened RaftCompleteness
  import opened RaftGrowth
  import opened RaftMerge
  import opened RaftCluster
  import opened RaftInduction
  import opened RaftElectionSteps

  // ---------------------------------------------------------------- receiving

  lemma LogsTermsMatch(h: Hist, a: Log, b: Log)
    requires LogOk(h, a) && LogOk(h, b)
    ensures TermsMatch(a, b)
  {
    forall i {:trigger a[i], b[i]} | 0 <= i < |a| && i < |b| && a[i].term == b[i].term ensures Agree(a, b, i + 1) {
      LogMatching(h, a, b, i);
    }
  }

  /** Only the sentinel has term 0. */
  lemma PositiveTerm(h: Hist, log: Log, i: nat)
    requires LeaderLogsOk(h) && LogOk(h, log) && 1 <= i < |log|
    ensures log[i].term > 0
  {
    assert EntryOk(h, log, i);
    assert LeaderLogOk(h, log[i].term);
  }

  /** What the leader sent agrees with its log at the time it is received. */
  ghost predicate FromLeader(leader: Log, a: AppendArgs) {
    && a.prevIndex < |leader| && leader[a.prevIndex].term == a.prevTerm
    && SliceOf(a.entries, leader, a.prevIndex + 1)
  }

  lemma RejectInRange(h: Hist, p: Peer, a: AppendArgs)
    requires LeaderLogsOk(h) && LogOk(h, p.logs) && p.startIndex == 0
    requires a.prevIndex == 0 ==> a.prevTerm == 0
    ensures var (p', reply) := AppendAt(p, a);
      && reply.xIndex <= a.prevIndex
      && (!reply.success ==> p' == p && reply.term == p.currentTerm && RejectOk(a, reply))
  {
    var at := if a.prevIndex >= |p.logs| then |p.logs| - 1 else a.prevIndex;
    var x := RunStart(p.logs, at);
    if x > 0 { PositiveTerm(h, p.logs, x); }
    if at > 0 { PositiveTerm(h, p.logs, at); }
  }

  /** The accepted log is the old one, or the leader's prefix if that was not all there. */
  lemma AcceptResult(p: Peer, a: AppendArgs, leader: Log)
    requires p.logs != [] && p.startIndex == 0 && FromLeader(leader, a) && TermsMatch(p.logs, leader)
    requires AppendEntries(p, a).1.success
    ensures a.term >= p.currentTerm
    ensures var p' := AppendEntries(p, a).0;
      && p' == p.(currentTerm := a.term, votedFor := Yield(p, a.term).votedFor, role := Follower, logs := p'.logs,
                  commitIndex := if a.leaderCommit > p.commitIndex then a.leaderCommit else p.commitIndex)
      && var len := a.prevIndex + 1 + |a.entries|;
         p'.logs == if Agree(p.logs, leader, len) then p.logs else leader[..len]
  {
    MergeResult(p.logs, a.prevIndex + 1, a.entries, leader);
  }

  lemma AckSurvives(h: Hist, k: Ack, p: Peer, p': Peer, len: nat)
    requires AckOk(h, k) && AckNodeOk(h, k, p) && p.currentTerm <= p'.currentTerm && p'.currentTerm in h.leaderLog
    requires var l := h.leaderLog[p'.currentTerm];
      len <= |l| && p'.logs == if Agree(p.logs, l, len) then p.logs else l[..len]
    ensures AckNodeOk(h, k, p')
  {
  }

  /** The leader of the same or a later term has every committed prefix. */
  lemma LeaderHolds(h: Hist, n: nat, logs: Log, c: nat, upTo: nat, t: nat)
    requires HistOk(h, n) && t in h.leaderLog && upTo <= t && CommitOk(h, n, logs, c, upTo) && LogOk(h, logs)
    ensures Agree(logs, h.leaderLog[t], c)
  {
    assert LeaderLogOk(h, t);
    if c > 1 {
      var u: nat, k: nat :| u <= upTo && Covers(h, n, u, k, logs, c);
      if u < t { LeaderCompleteness(h, n, u, k, t); }
    }
  }

  /** So a merge with that leader's log keeps it. */
  lemma CommitSurvives(h: Hist, n: nat, logs: Log, merged: Log, c: nat, upTo: nat, t: nat, len: nat)
    requires HistOk(h, n) && t in h.leaderLog && upTo <= t && CommitOk(h, n, logs, c, upTo)
    requires LogOk(h, logs)
    requires var l := h.leaderLog[t]; len <= |l| && merged == if Agree(logs, l, len) then logs else l[..len]
    ensures CommitOk(h, n, merged, c, t)
  {
    LeaderHolds(h, n, logs, c, upTo, t);
    MergeKeeps(logs, merged, h.leaderLog[t], len, c);
    LongerCommitOk(h, n, logs, merged, c, upTo);
  }

  lemma AcceptKeepsBase(h: Hist, n: nat, s: nat, p: Peer, p': Peer, a: AppendArgs)
    requires HistOk(h, n) && BaseOk(h, n, s, p) && NodeAcks(h, s, p)
    requires a.term in h.leaderLog && FromLeader(h.leaderLog[a.term], a) && p.currentTerm <= a.term
    requires a.leaderCommit <= a.prevIndex + 1 + |a.entries|
    requires CommitOk(h, n, h.leaderLog[a.term], a.leaderCommit, a.term)
    requires p' == p.(currentTerm := a.term, votedFor := p'.votedFor, role := Follower, logs := p'.logs,
                      commitIndex := if a.leaderCommit > p.commitIndex then a.leaderCommit else p.commitIndex)
    requires var l, len := h.leaderLog[a.term], a.prevIndex + 1 + |a.entries|;
      p'.logs == if Agree(p.logs, l, len) then p.logs else l[..len]
    ensures BaseOk(h, n, s, p') && NodeAcks(h, s, p')
    ensures Agree(p'.logs, h.leaderLog[a.term], a.prevIndex + 1 + |a.entries|)
  {
    var l, len := h.leaderLog[a.term], a.prevIndex + 1 + |a.entries|;
    assert LeaderLogOk(h, a.term);
    if p'.logs != p.logs { PrefixOk(h, l, len); }
    CommitSurvives(h, n, p.logs, p'.logs, p.commitIndex, p.currentTerm, a.term, len);
    if a.leaderCommit > p.commitIndex { LongerCommitOk(h, n, l, p'.logs, a.leaderCommit, a.term); }
    forall k | k in h.acks && k.peer == s ensures AckNodeOk(h, k, p') {
      assert AckOk(h, k) && AckNodeOk(h, k, p);
      AckSurvives(h, k, p, p', len);
    }
  }

  /** The term part of AppendEntries: the node is not the leader that sent the request. */
  lemma YieldKeepsNode(h: Hist, n: nat, s: nat, node: Node, src: nat, a: AppendArgs)
    requires NodeOk(h, n, s, node) && AppendOk(h, n, src, s, a) && a.term >= node.peer.currentTerm
    ensures node.peer.currentTerm == a.term ==> node.peer.role != Leader
    ensures var q := Yield(node.peer, a.term);
      BaseOk(h, n, s, q) && NodeVotes(h, s, q) && NodeAcks(h, s, q) && NodeOk(h, n, s, node.(peer := q))
  {
    var p := node.peer;
    var q := Yield(p, a.term);
    if a.term > p.currentTerm {
      HigherTerm(h, n, s, p, q);
    } else {
      forall k | k in h.acks && k.peer == s ensures AckNodeOk(h, k, q) { assert AckNodeOk(h, k, p); }
    }
  }

  /** The peer after a successful AppendEntries, before the acknowledgement is recorded. */
  lemma AcceptPeer(h: Hist, n: nat, s: nat, node: Node, src: nat, a: AppendArgs)
    requires HistOk(h, n) && NodeOk(h, n, s, node) && AppendOk(h, n, src, s, a)
    requires AppendEntries(node.peer, a).1.success
    ensures var p' := AppendEntries(node.peer, a).0;
      && BaseOk(h, n, s, p') && NodeVotes(h, s, p') && NodeAcks(h, s, p')
      && p'.currentTerm == a.term && p'.role == Follower && node.workTerm < a.term
      && Agree(p'.logs, h.leaderLog[a.term], a.prevIndex + 1 + |a.entries|)
  {
    var p := node.peer;
    assert LeaderLogOk(h, a.term);
    LogsTermsMatch(h, p.logs, h.leaderLog[a.term]);
    AcceptResult(p, a, h.leaderLog[a.term]);
    YieldKeepsNode(h, n, s, node, src, a);
    AcceptKeepsBase(h, n, s, p, AppendEntries(p, a).0, a);
  }

  lemma AcceptInv(c: Cluster, src: nat, s: nat, a: AppendArgs, p': Peer, reply: AppendReply)
    requires Inv(c) && s < |c.nodes| && AppendReq(src, s, a) in c.net
    requires a.term in c.hist.leaderLog && Agree(p'.logs, c.hist.leaderLog[a.term], a.prevIndex + 1 + |a.entries|)
    requires BaseOk(c.hist, |c.nodes|, s, p') && NodeVotes(c.hist, s, p') && NodeAcks(c.hist, s, p')
    requires p'.currentTerm == a.term && p'.role == Follower && c.nodes[s].workTerm < a.term
    requires c.nodes[s].peer.currentTerm <= a.term && reply.success && reply.xIndex == 0
    ensures Kept(c, Put(c, s, c.nodes[s].(peer := p'), {AppendRep(src, s, a, reply)},
                    WithAcks(c.hist, s, a.term, a.prevIndex + 1 + |a.entries|)))
  {
    var h, n, node, len := c.hist, |c.nodes|, c.nodes[s], a.prevIndex + 1 + |a.entries|;
    AcksAdded(h, n, s, a.term, len);
    AcceptNode(h, n, s, node, p', a.term, len);
    var msgs := {AppendRep(src, s, a, reply)};
    assert AppendReq(src, s, a) in c.net + msgs;
    InvKept(c, s, node.(peer := p'), msgs, WithAcks(h, s, a.term, len));
  }

  lemma AcceptNode(h: Hist, n: nat, s: nat, node: Node, p': Peer, t: nat, len: nat)
    requires LeaderLogsOk(h) && AcksOk(h) && t in h.leaderLog && Agree(p'.logs, h.leaderLog[t], len)
    requires BaseOk(h, n, s, p') && NodeVotes(h, s, p') && NodeAcks(h, s, p')
    requires p'.currentTerm == t && p'.role == Follower && node.workTerm < t
    requires Extends(h, WithAcks(h, s, t, len))
    ensures NodeOk(WithAcks(h, s, t, len), n, s, node.(peer := p'))
  {
    var h' := WithAcks(h, s, t, len);
    BaseGrows(h, h', n, s, p');
    forall k | k in h'.acks && k.peer == s ensures AckNodeOk(h', k, p') {
      if k in h.acks {
        assert AckOk(h, k) && AckNodeOk(h, k, p');
        AckNodeGrows(h, h', k, p');
      }
    }
  }

  lemma RejectNode(h: Hist, n: nat, s: nat, node: Node, src: nat, a: AppendArgs)
    requires HistOk(h, n) && NodeOk(h, n, s, node) && AppendOk(h, n, src, s, a) && !AppendEntries(node.peer, a).1.success
    ensures var (p', reply) := AppendEntries(node.peer, a);
      && NodeOk(h, n, s, node.(peer := p')) && reply.xIndex <= a.prevIndex && (reply.term <= a.term ==> RejectOk(a, reply))
      && p'.logs == node.peer.logs && p'.currentTerm >= node.peer.currentTerm
      && (p'.role == Candidate ==> p' == node.peer)
  {
    if a.term >= node.peer.currentTerm {
      YieldKeepsNode(h, n, s, node, src, a);
      assert LeaderLogOk(h, a.term);
      RejectInRange(h, Yield(node.peer, a.term), a);
    }
  }

  lemma RejectInv(c: Cluster, src: nat, s: nat, a: AppendArgs, p': Peer, reply: AppendReply)
    requires Inv(c) && s < |c.nodes| && Shaped(c.nodes[s], |c.nodes|) && AppendReq(src, s, a) in c.net
    requires (p', reply) == AppendEntries(c.nodes[s].peer, a) && !reply.success
    ensures Kept(c, Put(c, s, c.nodes[s].(peer := p'), {AppendRep(src, s, a, reply)}, c.hist))
  {
    assert MsgOk(c.hist, |c.nodes|, c.net, AppendReq(src, s, a));
    RejectNode(c.hist, |c.nodes|, s, c.nodes[s], src, a);
    RequestsStay(c.net, s, c.nodes[s].peer, p');
    NodeOnly(c, s, c.nodes[s].(peer := p'), {AppendRep(src, s, a, reply)});
  }

  lemma ReceiveInv(c: Cluster, c': Cluster, src: nat, s: nat, a: AppendArgs)
    requires Inv(c) && s < |c.nodes| && Shaped(c.nodes[s], |c.nodes|) && ReceiveStep(c, c', src, s, a)
    ensures Kept(c, c')
  {
    var h, n, node := c.hist, |c.nodes|, c.nodes[s];
    var (p', reply) := AppendEntries(node.peer, a);
    assert MsgOk(h, n, c.net, AppendReq(src, s, a));
    if reply.success {
      AcceptPeer(h, n, s, node, src, a);
      AcceptInv(c, src, s, a, p', reply);
    } else {
      RejectInv(c, src, s, a, p', reply);
    }
  }

  // --------------------------------------------------------------- submitting

  lemma SubmitPeer(h: Hist, h': Hist, n: nat, s: nat, node: Node, e: Entry)
    requires HistOk(h, n) && NodeOk(h, n, s, node) && node.peer.role == Leader && e.term == node.peer.currentTerm
    requires Extends(h, h') && HistOk(h', n)
    requires h' == WithAcks(WithEntry(h, e.term, e), s, e.term, |node.peer.logs| + 1)
    ensures var p' := node.peer.(logs := node.peer.logs + [e]);
      BaseOk(h', n, s, p') && NodeVotes(h', s, p') && NodeAcks(h', s, p')
  {
    var p := node.peer;
    var p' := p.(logs := p.logs + [e]);
    assert LeaderLogOk(h', e.term);
    CommitOkGrows(h, h', n, p.logs, p.commitIndex, p.currentTerm, p.currentTerm);
    LongerCommitOk(h', n, p.logs, p'.logs, p.commitIndex, p.currentTerm);
    forall k | k in h'.acks && k.peer == s ensures AckNodeOk(h', k, p') {
      if k in h.acks {
        assert AckOk(h, k) && AckNodeOk(h, k, p);
        AckNodeGrows(h, h', k, p);
        if Holds(h', k, p.logs) { assert Holds(h', k, p'.logs); }
      }
    }
  }

  lemma SubmitInv(c: Cluster, c': Cluster, s: nat, command: Payload)
    requires Inv(c) && s < |c.nodes| && SubmitStep(c, c', s, command)
    ensures Kept(c, c')
  {
    var h, n, node := c.hist, |c.nodes|, c.nodes[s];
    var p := node.peer;
    if p.role == Leader {
      var t, p' := p.currentTerm, Start(p, command).0;
      var e := Entry(t, command);
      var h1 := WithEntry(h, t, e);
      var h' := WithAcks(h1, s, t, |p'.logs|);
      EntryAdded(h, n, t, e);
      AcksAdded(h1, n, s, t, |p'.logs|);
      ExtendsTransitive(h, h1, h');
      SubmitPeer(h, h', n, s, node, e);
      var node' := Node(p', node.workTerm, node.newCommit && p.newOp != 0);
      SubmitNode(h, h', n, s, node, node', e);
      assert c.net + {} == c.net;
      InvKept(c, s, node', {}, h');
    }
  }

  lemma SubmitNode(h: Hist, h': Hist, n: nat, s: nat, node: Node, node': Node, e: Entry)
    requires HistOk(h, n) && NodeOk(h, n, s, node) && node.peer.role == Leader && e.term == node.peer.currentTerm
    requires Extends(h, h') && h' == WithAcks(WithEntry(h, e.term, e), s, e.term, |node.peer.logs| + 1)
    requires var q := node.peer.(logs := node.peer.logs + [e]);
      BaseOk(h', n, s, q) && NodeVotes(h', s, q) && NodeAcks(h', s, q)
    requires node' == Node(Start(node.peer, e.command).0, node.workTerm, node.newCommit && node.peer.newOp != 0)
    ensures NodeOk(h', n, s, node')
  {
    var p, p' := node.peer, node'.peer;
    var q := p.(logs := p.logs + [e]);
    forall k | k in h'.acks && k.peer == s ensures AckNodeOk(h', k, p') { assert AckNodeOk(h', k, q); }
    forall d | 0 <= d < n && d != s ensures FollowerIndexOk(h', p', d) { assert FollowerIndexOk(h, p, d); }
    assert LeaderLogOk(h, e.term);
    assert LeaderOk(h', n, s, node');
  }

  // ------------------------------------------------------------------- sending

  /** A leader's goroutine never indexes outside its log and never needs a snapshot. */
  lemma SendInRange(c: Cluster, s: nat, dst: nat)
    requires Inv(c) && s < |c.nodes| && dst < |c.nodes| && dst != s
    requires c.nodes[s].workTerm > 0 && c.nodes[s].peer.currentTerm == c.nodes[s].workTerm
    ensures var p := c.nodes[s].peer;
      p.role == Leader && p.startIndex < p.nextIndex[dst] <= End(p)
  {
    assert NodeOk(c.hist, |c.nodes|, s, c.nodes[s]);
    assert FollowerIndexOk(c.hist, c.nodes[s].peer, dst);
  }

  lemma SendInv(c: Cluster, c': Cluster, s: nat, dst: nat)
    requires Inv(c) && s < |c.nodes| && Shaped(c.nodes[s], |c.nodes|) && SendStep(c, c', s, dst)
    ensures Kept(c, c')
  {
    SendInRange(c, s, dst);
    var h, n, node := c.hist, |c.nodes|, c.nodes[s];
    var (p, out) := SendLog(node.peer, dst);
    assert AppendOk(h, n, s, dst, out.append);
    NodeOnly(c, s, node, {AppendReq(s, dst, out.append)});
  }

  // ------------------------------------------------------------------- hearing

  /** The next index after a reject is below the one tried and never reaches the sentinel. */
  lemma BackupInRange(logs: Log, a: AppendArgs, reply: AppendReply)
    requires logs != [] && logs[0].term == 0 && a.prevIndex < |logs| && reply.xIndex <= a.prevIndex && RejectOk(a, reply)
    ensures 1 <= Backup(logs, 0, reply) <= a.prevIndex
  {
  }

  /** The node stays good when only one peer's indices change within range. */
  lemma IndicesKeepNode(h: Hist, n: nat, s: nat, node: Node, p': Peer, dst: nat)
    requires NodeOk(h, n, s, node) && node.peer.role == Leader && dst < n && dst != s
    requires p' == node.peer.(nextIndex := p'.nextIndex, matchIndex := p'.matchIndex)
    requires |p'.nextIndex| == |p'.matchIndex| == n && FollowerIndexOk(h, p', dst)
    requires forall d | 0 <= d < n && d != dst ::
               p'.nextIndex[d] == node.peer.nextIndex[d] && p'.matchIndex[d] == node.peer.matchIndex[d]
    ensures NodeOk(h, n, s, node.(peer := p'))
  {
    var p := node.peer;
    forall k | k in h.acks && k.peer == s ensures AckNodeOk(h, k, p') { assert AckNodeOk(h, k, p); }
    forall d | 0 <= d < n && d != s ensures FollowerIndexOk(h, p', d) {
      if d != dst { assert FollowerIndexOk(h, p, d); }
    }
  }

  /** The leader after an answer that does not depose it. */
  lemma HearNode(h: Hist, n: nat, net: set<Msg>, s: nat, node: Node, dst: nat, a: AppendArgs, reply: AppendReply)
    requires HistOk(h, n) && NodeOk(h, n, s, node) && node.workTerm == a.term == node.peer.currentTerm && dst < n
    requires MsgOk(h, n, net, AppendRep(s, dst, a, reply)) && MsgOk(h, n, net, AppendReq(s, dst, a))
    requires node.peer.nextIndex[dst] == a.prevIndex + 1 && (reply.success || reply.term <= a.term)
    ensures reply.xIndex <= End(node.peer) && NodeOk(h, n, s, node.(peer := OnAppendReply(node.peer, dst, a, reply).0))
    ensures node.peer.role == Leader == OnAppendReply(node.peer, dst, a, reply).0.role
    ensures OnAppendReply(node.peer, dst, a, reply).0.currentTerm == node.peer.currentTerm
    ensures OnAppendReply(node.peer, dst, a, reply).0.logs == node.peer.logs
  {
    var p := node.peer;
    assert LeaderLogOk(h, a.term) && FollowerIndexOk(h, p, dst);
    if !reply.success { BackupInRange(p.logs, a, reply); }
    IndicesKeepNode(h, n, s, node, OnAppendReply(p, dst, a, reply).0, dst);
  }

  lemma HearInv(c: Cluster, c': Cluster, s: nat, dst: nat, a: AppendArgs, reply: AppendReply)
    requires Inv(c) && s < |c.nodes| && Shaped(c.nodes[s], |c.nodes|) && HearStep(c, c', s, dst, a, reply)
    ensures Kept(c, c')
  {
    var h, n, node := c.hist, |c.nodes|, c.nodes[s];
    var p := node.peer;
    if p.currentTerm == a.term {
      assert MsgOk(h, n, c.net, AppendRep(s, dst, a, reply));
      assert MsgOk(h, n, c.net, AppendReq(s, dst, a));
      if p.nextIndex[dst] != a.prevIndex + 1 {
        NodeOnly(c, s, node, {});
      } else if !reply.success && reply.term > a.term {
        DeposeInv(c, s, reply.term);
      } else {
        HearNode(h, n, c.net, s, node, dst, a, reply);
        var p' := OnAppendReply(p, dst, a, reply).0;
        RequestsStay(c.net, s, p, p');
        NodeOnly(c, s, node.(peer := p'), {});
      }
    } else {
      ExtendsReflexive(h);
    }
  }

  /** The answer a leader hears never points outside its log. */
  lemma HearInRange(c: Cluster, s: nat, dst: nat, a: AppendArgs, reply: AppendReply)
    requires Inv(c) && s < |c.nodes| && AppendRep(s, dst, a, reply) in c.net
    requires c.nodes[s].workTerm == a.term && c.nodes[s].peer.currentTerm == a.term
    ensures reply.xIndex <= End(c.nodes[s].peer)
  {
    var h, n := c.hist, |c.nodes|;
    assert NodeOk(h, n, s, c.nodes[s]);
    assert MsgOk(h, n, c.net, AppendRep(s, dst, a, reply));
    assert MsgOk(h, n, c.net, AppendReq(s, dst, a));
    assert LeaderLogOk(h, a.term);
  }

  // ---------------------------------------------------------------- committing

  /** A majority of matching peers, the leader included, is a quorum of acknowledgements. */
  lemma TestMeansCommitted(h: Hist, n: nat, s: nat, node: Node, index: nat)
    requires HistOk(h, n) && NodeOk(h, n, s, node) && node.peer.role == Leader && s < n
    requires node.peer.newOp != 0 && node.peer.newOp <= index && TestIndex(node.peer, index)
    ensures index < |node.peer.logs| && Committed(h, n, node.peer.currentTerm, index + 1)
  {
    var p, t := node.peer, node.peer.currentTerm;
    var m := Matched(p, index);
    var q := m + {s};
    assert LeaderLogOk(h, t);
    var i :| i in m;
    assert FollowerIndexOk(h, p, i);
    assert Ack(i, t, p.matchIndex[i]) in AcksUpTo(i, t, p.matchIndex[i]);
    assert AckOk(h, Ack(i, t, p.matchIndex[i]));
    forall v | v in q ensures Ack(v, t, index + 1) in h.acks {
      if v != s { assert FollowerIndexOk(h, p, v); }
      assert Ack(v, t, index + 1) in AcksUpTo(v, t, if v == s then |p.logs| else p.matchIndex[v]);
    }
    assert AckQuorum(h, n, q, t, index + 1);
  }

  lemma AdvanceNode(h: Hist, n: nat, s: nat, node: Node)
    requires HistOk(h, n) && NodeOk(h, n, s, node) && s < n
    requires node.workTerm > 0 && node.peer.currentTerm == node.workTerm && node.peer.newOp != 0
    ensures var (p', newCommit) := Commit(node.peer, node.newCommit);
      NodeOk(h, n, s, Node(p', node.workTerm, newCommit)) && node.peer.commitIndex <= p'.commitIndex
  {
    var p := node.peer;
    var (p', newCommit) := Commit(p, node.newCommit);
    MatchedEndRange(p, p.commitIndex + 1, End(p));
    if p'.commitIndex != p.commitIndex {
      TestMeansCommitted(h, n, s, node, p'.commitIndex - 1);
      assert Covers(h, n, p.currentTerm, p'.commitIndex, p.logs, p'.commitIndex);
    }
    forall k | k in h.acks && k.peer == s ensures AckNodeOk(h, k, p') { assert AckNodeOk(h, k, p); }
    forall d | 0 <= d < n && d != s ensures FollowerIndexOk(h, p', d) { assert FollowerIndexOk(h, p, d); }
  }

  lemma AdvanceInv(c: Cluster, c': Cluster, s: nat)
    requires Inv(c) && s < |c.nodes| && AdvanceStep(c, c', s)
    ensures Kept(c, c')
  {
    var node := c.nodes[s];
    var (p', newCommit) := Commit(node.peer, node.newCommit);
    AdvanceNode(c.hist, |c.nodes|, s, node);
    RequestsStay(c.net, s, node.peer, p');
    NodeOnly(c, s, Node(p', node.workTerm, newCommit), {});
  }

  // ------------------------------------------------------ applying, restarting

  lemma BatchCommitted(h: Hist, n: nat, s: nat, p: Peer, r: Applied)
    requires BaseOk(h, n, s, p) && p.commitIndex <= |p.logs| && r in AppliedBy(s, TakeBatch(p).1)
    ensures AppliedOk(h, n, r)
  {
  }

  lemma ApplyNode(h: Hist, h': Hist, n: nat, s: nat, node: Node)
    requires HistOk(h, n) && Extends(h, h') && h' == h.(applied := h'.applied) && NodeOk(h, n, s, node)
    requires node.peer.lastApplied <= node.peer.commitIndex <= |node.peer.logs|
    ensures NodeOk(h', n, s, node.(peer := TakeBatch(node.peer).0))
  {
    var p, p' := node.peer, TakeBatch(node.peer).0;
    BaseGrows(h, h', n, s, p);
    NodeAcksGrow(h, h', s, p);
    forall k | k in h'.acks && k.peer == s ensures AckNodeOk(h', k, p') { assert AckNodeOk(h', k, p); }
    if p.role == Leader {
      LeaderGrows(h, h', n, s, node);
      forall d | 0 <= d < n && d != s ensures FollowerIndexOk(h', p', d) { assert FollowerIndexOk(h', p, d); }
    }
  }

  lemma ApplyInv(c: Cluster, c': Cluster, s: nat)
    requires Inv(c) && s < |c.nodes| && Shaped(c.nodes[s], |c.nodes|) && ApplyStep(c, c', s)
    ensures Kept(c, c')
  {
    var h, n, node := c.hist, |c.nodes|, c.nodes[s];
    var (p', batch) := TakeBatch(node.peer);
    var h' := WithApplied(h, AppliedBy(s, batch));
    AppliedAdded(h, n, AppliedBy(s, batch));
    forall r | r in h'.applied - h.applied ensures AppliedOk(h', n, r) {
      BatchCommitted(h, n, s, node.peer, r);
      AppliedOkGrows(h, h', n, r);
    }
    ApplyNode(h, h', n, s, node);
    RequestsStay(c.net, s, node.peer, p');
    assert c.net + {} == c.net;
    InvKept(c, s, node.(peer := p'), {}, h');
  }

  lemma RebootNode(h: Hist, n: nat, s: nat, node: Node)
    requires NodeOk(h, n, s, node)
    ensures NodeOk(h, n, s, Node(Restart(node.peer, n), 0, false))
  {
    var p, p' := node.peer, Restart(node.peer, n);
    forall k | k in h.acks && k.peer == s ensures AckNodeOk(h, k, p') { assert AckNodeOk(h, k, p); }
  }

  lemma RebootInv(c: Cluster, c': Cluster, s: nat)
    requires Inv(c) && s < |c.nodes| && RebootStep(c, c', s)
    ensures Kept(c, c')
  {
    var node := c.nodes[s];
    RebootNode(c.hist, |c.nodes|, s, node);
    RequestsStay(c.net, s, node.peer, Restart(node.peer, |c.nodes|));
    NodeOnly(c, s, Node(Restart(node.peer, |c.nodes|), 0, false), {});
  }
}
