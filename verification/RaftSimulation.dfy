/** Every step of a compacted cluster is a move of a cluster that keeps whole logs: the
    counterpart has the same peers but for the cut, a message for each message, and meets the
    invariant from which Raft's safety follows. */
module RaftSimulation {
  import opened Session
  import opened Quorums
  import opened RaftPeer
  import opened RaftHistory
  import opened RaftGrowth
  import opened RaftCluster
  import opened RaftInduction
  import opened RaftElectionSteps
  import opened RaftLogSteps
  import opened RaftCompaction
  import opened RaftWholeLog
  import K = RaftSnapshots

  /** `b` is the request that the snapshot `a` stands for. */
  ghost predicate StandsFor(a: SnapshotArgs, b: AppendArgs) {
    && b.term == a.term && b.prevIndex == 0 && |b.entries| == a.lastIndex && b.leaderCommit == a.lastIndex + 1
    && a.lastTerm == if a.lastIndex == 0 then b.prevTerm else b.entries[a.lastIndex - 1].term
  }

  /** The answer of a follower that has cut its log, and the one it would give with all of it. */
  ghost predicate AnswersAs(a: AppendArgs, r: AppendReply, r0: AppendReply) {
    && r.success == r0.success && r.term == r0.term && r.xIndex <= a.prevIndex
    && (!r.success && r.term <= a.term ==> RejectOk(a, r))
  }

  ghost predicate HasAnswer(net: set<Msg>, src: nat, dst: nat, a: AppendArgs, r: AppendReply) {
    exists r0 :: AppendRep(src, dst, a, r0) in net && AnswersAs(a, r, r0)
  }

  ghost predicate HasRequest(net: set<Msg>, src: nat, dst: nat, a: SnapshotArgs) {
    exists b :: AppendReq(src, dst, b) in net && StandsFor(a, b)
  }

  ghost predicate HasAck(net: set<Msg>, src: nat, dst: nat, a: SnapshotArgs) {
    exists b, r :: AppendRep(src, dst, b, r) in net && StandsFor(a, b) && r.success
  }

  ghost predicate MsgSim(net: set<Msg>, m: K.Msg) {
    match m
    case Plain(AppendRep(src, dst, a, r)) => HasAnswer(net, src, dst, a, r)
    case Plain(msg) => msg in net
    case InstallReq(src, dst, a) => HasRequest(net, src, dst, a)
    case InstallRep(src, dst, a, t) => t <= a.term ==> HasAck(net, src, dst, a)
  }

  ghost predicate HostSim(h: K.Host, node: Node) {
    Refines(h.peer, node.peer) && node.workTerm == h.workTerm && node.newCommit == h.newCommit
  }

  /** What the applier of `s` holds or has sent was applied by the counterpart. */
  ghost predicate BatchSim(hist: Hist, s: nat, h: K.Host) {
    forall m | (m in h.batch || m in h.sent) && m.CommandMsg? :: Applied(s, m.index, m.command) in hist.applied
  }

  ghost predicate Sim(k: K.System, c: Cluster) {
    && Inv(c) && |c.nodes| == |k.hosts|
    && (forall s {:trigger k.hosts[s]} | 0 <= s < |k.hosts| :: HostSim(k.hosts[s], c.nodes[s]) && BatchSim(c.hist, s, k.hosts[s]))
    && (forall m {:trigger MsgSim(c.net, m)} | m in k.net :: MsgSim(c.net, m))
    && k.delivered <= c.hist.applied
  }

  // ----------------------------------------------------------------- the frame

  lemma MsgStays(net: set<Msg>, net': set<Msg>, m: K.Msg)
    requires net <= net' && MsgSim(net, m)
    ensures MsgSim(net', m)
  {
    match m
    case Plain(AppendRep(src, dst, a, r)) =>
      var r0 :| AppendRep(src, dst, a, r0) in net && AnswersAs(a, r, r0);
      assert AppendRep(src, dst, a, r0) in net';
    case Plain(msg) =>
    case InstallReq(src, dst, a) =>
      var b :| AppendReq(src, dst, b) in net && StandsFor(a, b);
      assert AppendReq(src, dst, b) in net';
    case InstallRep(src, dst, a, t) =>
      if t <= a.term {
        var b, r :| AppendRep(src, dst, b, r) in net && StandsFor(a, b) && r.success;
        assert AppendRep(src, dst, b, r) in net';
      }
  }

  /** What is left to show of a step of one host. */
  lemma Joined(k: K.System, c: Cluster, s: nat, h: K.Host, msgs: set<K.Msg>, c': Cluster)
    requires Sim(k, c) && s < |k.hosts| && Kept(c, c') && HostSim(h, c'.nodes[s]) && BatchSim(c'.hist, s, h)
    requires c.net <= c'.net && forall i | 0 <= i < |c.nodes| && i != s :: c'.nodes[i] == c.nodes[i]
    requires forall m | m in msgs :: MsgSim(c'.net, m)
    ensures Sim(K.Put(k, s, h, msgs), c')
  {
    var k' := K.Put(k, s, h, msgs);
    forall i | 0 <= i < |k'.hosts| ensures HostSim(k'.hosts[i], c'.nodes[i]) && BatchSim(c'.hist, i, k'.hosts[i]) {
      if i != s { assert k'.hosts[i] == k.hosts[i]; }
    }
    forall m | m in k'.net ensures MsgSim(c'.net, m) {
      if m in k.net {
        assert MsgSim(c.net, m);
        MsgStays(c.net, c'.net, m);
      }
    }
  }

  lemma KeptStill(c: Cluster)
    requires Inv(c)
    ensures Kept(c, c)
  {
    ExtendsReflexive(c.hist);
  }

  /** A step that the counterpart does not see. */
  lemma Unseen(k: K.System, c: Cluster, s: nat, h: K.Host)
    requires Sim(k, c) && s < |k.hosts| && HostSim(h, c.nodes[s]) && BatchSim(c.hist, s, h)
    ensures Sim(K.Put(k, s, h, {}), c)
  {
    KeptStill(c);
    Joined(k, c, s, h, {}, c);
  }

  lemma HostReady(k: K.System, c: Cluster, s: nat)
    requires Sim(k, c) && s < |k.hosts|
    ensures NodeOk(c.hist, |c.nodes|, s, c.nodes[s]) && Shaped(c.nodes[s], |c.nodes|)
    ensures Refines(k.hosts[s].peer, c.nodes[s].peer) && BatchSim(c.hist, s, k.hosts[s])
    ensures k.hosts[s].workTerm == c.nodes[s].workTerm && k.hosts[s].newCommit == c.nodes[s].newCommit
    ensures K.Ready(k.hosts[s], |k.hosts|)
  {
    assert HostSim(k.hosts[s], c.nodes[s]);
    assert NodeOk(c.hist, |c.nodes|, s, c.nodes[s]);
  }

  // ----------------------------------------------------------------- elections

  lemma StandSim(k: K.System, c: Cluster, k': K.System, s: nat) returns (c': Cluster)
    requires Sim(k, c) && s < |k.hosts| && K.Ready(k.hosts[s], |k.hosts|) && K.StandStep(k, k', s)
    ensures Sim(k', c') && Kept(c, c')
  {
    HostReady(k, c, s);
    var h, node := k.hosts[s], c.nodes[s];
    StandingRefines(h.peer, node.peer);
    var (p, args) := StandForElection(node.peer);
    c' := Put(c, s, node.(peer := p), {VoteReq(args)}, WithVote(c.hist, Vote(s, s, args.term, node.peer.logs)));
    StandInv(c, c', s);
    Joined(k, c, s, h.(peer := StandForElection(h.peer).0), {K.Plain(VoteReq(args))}, c');
  }

  lemma AnswerSim(k: K.System, c: Cluster, k': K.System, s: nat, args: VoteArgs) returns (c': Cluster)
    requires Sim(k, c) && s < |k.hosts| && K.Ready(k.hosts[s], |k.hosts|) && K.AnswerStep(k, k', s, args)
    ensures Sim(k', c') && Kept(c, c')
  {
    HostReady(k, c, s);
    var h, node := k.hosts[s], c.nodes[s];
    assert MsgSim(c.net, K.Plain(VoteReq(args)));
    VotingRefines(h.peer, node.peer, args);
    var (p, reply) := RequestVote(node.peer, args);
    c' := Put(c, s, node.(peer := p), {VoteRep(args, s, reply)},
              if reply.granted then WithVote(c.hist, Vote(s, args.cand, args.term, node.peer.logs)) else c.hist);
    AnswerInv(c, c', s, args);
    Joined(k, c, s, h.(peer := RequestVote(h.peer, args).0), {K.Plain(VoteRep(args, s, reply))}, c');
  }

  lemma HeardToo(k: K.System, c: Cluster, args: VoteArgs, voter: nat, result: int)
    requires Sim(k, c) && K.Heard(k.net, args, voter, result)
    ensures Heard(c.net, args, voter, result)
  {
    if result != VOTE_FAIL {
      var reply :| K.Plain(VoteRep(args, voter, reply)) in k.net && result == VoteResult(args, reply);
      assert MsgSim(c.net, K.Plain(VoteRep(args, voter, reply)));
    }
  }

  lemma CountSim(k: K.System, c: Cluster, k': K.System, s: nat, args: VoteArgs, voters: seq<nat>, results: seq<int>)
    returns (c': Cluster)
    requires Sim(k, c) && s < |k.hosts| && K.CountStep(k, k', s, args, voters, results)
    ensures Sim(k', c') && Kept(c, c')
  {
    HostReady(k, c, s);
    var h, node := k.hosts[s], c.nodes[s];
    assert MsgSim(c.net, K.Plain(VoteReq(args)));
    forall i | 0 <= i < |voters| ensures Heard(c.net, args, voters[i], results[i]) {
      assert K.Heard(k.net, args, voters[i], results[i]);
      HeardToo(k, c, args, voters[i], results[i]);
    }
    var o := Tally(results, 1, |c.nodes|);
    if o.Deposed? && o.term > node.peer.currentTerm {
      c' := DeposeSim(k, c, s, o.term);
    } else if o == Elected && node.peer.currentTerm == args.term && node.peer.role == Candidate {
      c' := ElectedSim(k, c, s, args, voters, results);
    } else {
      c' := c;
      KeptStill(c);
    }
  }

  lemma ElectedSim(k: K.System, c: Cluster, s: nat, args: VoteArgs, voters: seq<nat>, results: seq<int>) returns (c': Cluster)
    requires Sim(k, c) && s < |k.hosts| && VoteReq(args) in c.net && args.cand == s
    requires |voters| == |results| && Distinct(voters) && forall v | v in voters :: v < |c.nodes| && v != s
    requires forall i | 0 <= i < |voters| :: Heard(c.net, args, voters[i], results[i])
    requires Tally(results, 1, |c.nodes|) == Elected
    requires k.hosts[s].peer.currentTerm == args.term && k.hosts[s].peer.role == Candidate
    ensures Sim(K.Put(k, s, k.hosts[s].(peer := TakeOffice(k.hosts[s].peer, args), workTerm := args.term, newCommit := false), {}), c')
    ensures Kept(c, c')
  {
    HostReady(k, c, s);
    var h, node := k.hosts[s], c.nodes[s];
    OfficeRefines(h.peer, node.peer, args, 0);
    ElectedInv(c, s, args, voters, results);
    c' := Put(c, s, Node(TakeOffice(node.peer, args), args.term, false), {},
              WithLeader(c.hist, args.term, ElectionOf(c.hist, s, args.term, Counted(s, voters, results), node.peer.logs), node.peer.logs));
    Joined(k, c, s, h.(peer := TakeOffice(h.peer, args), workTerm := args.term, newCommit := false), {}, c');
  }

  // --------------------------------------------------------------- replication

  lemma SubmitSim(k: K.System, c: Cluster, k': K.System, s: nat, command: Payload) returns (c': Cluster)
    requires Sim(k, c) && s < |k.hosts| && K.SubmitStep(k, k', s, command)
    ensures Sim(k', c') && Kept(c, c')
  {
    HostReady(k, c, s);
    var h, node := k.hosts[s], c.nodes[s];
    StartRefines(h.peer, node.peer, command);
    if node.peer.role == Leader {
      var t, p := node.peer.currentTerm, Start(node.peer, command).0;
      var newCommit := node.newCommit && node.peer.newOp != 0;
      c' := Put(c, s, Node(p, node.workTerm, newCommit), {}, WithAcks(WithEntry(c.hist, t, Entry(t, command)), s, t, |p.logs|));
      SubmitInv(c, c', s, command);
      Joined(k, c, s, h.(peer := Start(h.peer, command).0, newCommit := newCommit), {}, c');
    } else {
      c' := c;
      KeptStill(c);
    }
  }

  /** A leader behind whose snapshot a peer has fallen sends that prefix of its whole log. */
  lemma SnapshotSent(p: Peer, q: Peer, dst: nat)
    requires Refines(p, q) && dst < |p.nextIndex| && p.nextIndex[dst] <= p.startIndex
    ensures var (p', out) := SendLog(p, dst);
      && Refines(p', q.(nextIndex := q.nextIndex[dst := p.startIndex + 1])) && p.startIndex + 1 <= q.commitIndex <= |q.logs|
      && out.SendSnapshot? && StandsFor(out.install, PrefixArgs(q, p.startIndex + 1))
  {
  }

  lemma SendSim(k: K.System, c: Cluster, k': K.System, s: nat, dst: nat) returns (c': Cluster)
    requires Sim(k, c) && s < |k.hosts| && K.Ready(k.hosts[s], |k.hosts|) && K.SendStep(k, k', s, dst)
    ensures Sim(k', c') && Kept(c, c')
  {
    HostReady(k, c, s);
    if k.hosts[s].peer.nextIndex[dst] <= k.hosts[s].peer.startIndex {
      c' := SendSnapshotSim(k, c, k', s, dst);
    } else {
      c' := SendSuffixSim(k, c, k', s, dst);
    }
  }

  lemma SendSnapshotSim(k: K.System, c: Cluster, k': K.System, s: nat, dst: nat) returns (c': Cluster)
    requires Sim(k, c) && s < |k.hosts| && K.Ready(k.hosts[s], |k.hosts|) && K.SendStep(k, k', s, dst)
    requires k.hosts[s].peer.nextIndex[dst] <= k.hosts[s].peer.startIndex
    ensures Sim(k', c') && Kept(c, c')
  {
    HostReady(k, c, s);
    var h, node := k.hosts[s], c.nodes[s];
    var p, q := h.peer, node.peer;
    SnapshotSent(p, q, dst);
    var len := p.startIndex + 1;
    var m := AppendReq(s, dst, PrefixArgs(q, len));
    c' := Put(c, s, node.(peer := q.(nextIndex := q.nextIndex[dst := len])), {m}, c.hist);
    SendPrefixInv(c, s, dst, len);
    assert m in c'.net;
    Joined(k, c, s, h.(peer := SendLog(p, dst).0), {K.InstallReq(s, dst, SendLog(p, dst).1.install)}, c');
  }

  lemma SendSuffixSim(k: K.System, c: Cluster, k': K.System, s: nat, dst: nat) returns (c': Cluster)
    requires Sim(k, c) && s < |k.hosts| && K.Ready(k.hosts[s], |k.hosts|) && K.SendStep(k, k', s, dst)
    requires k.hosts[s].peer.nextIndex[dst] > k.hosts[s].peer.startIndex
    ensures Sim(k', c') && Kept(c, c')
  {
    HostReady(k, c, s);
    var h, node := k.hosts[s], c.nodes[s];
    SendRefines(h.peer, node.peer, dst);
    var a := SendLog(h.peer, dst).1.append;
    c' := Put(c, s, node, {AppendReq(s, dst, a)}, c.hist);
    SendInRange(c, s, dst);
    assert SendStep(c, c', s, dst);
    SendInv(c, c', s, dst);
    Joined(k, c, s, h.(peer := SendLog(h.peer, dst).0), {K.Plain(AppendReq(s, dst, a))}, c');
  }

  /** Leader completeness is what lets a compacted follower take a request. */
  lemma RequestFits(h: Hist, n: nat, s: nat, node: Node, src: nat, a: AppendArgs)
    requires HistOk(h, n) && NodeOk(h, n, s, node) && AppendOk(h, n, src, s, a) && a.term >= node.peer.currentTerm
    ensures FromLeader(h.leaderLog[a.term], a) && Fits(node.peer, h.leaderLog[a.term])
  {
    assert LeaderLogOk(h, a.term);
    LogsTermsMatch(h, node.peer.logs, h.leaderLog[a.term]);
    LeaderHolds(h, n, node.peer.logs, node.peer.commitIndex, node.peer.currentTerm, a.term);
  }

  lemma RejectAnswers(h: Hist, p: Peer, q: Peer, a: AppendArgs)
    requires LeaderLogsOk(h) && LogOk(h, q.logs) && Refines(p, q) && p.startIndex <= a.prevIndex
    requires (a.prevIndex == 0 ==> a.prevTerm == 0) && !AppendAt(q, a).1.success && q.currentTerm == a.term
    ensures AnswersAs(a, AppendAt(p, a).1, AppendAt(q, a).1)
  {
    RejectRefines(p, q, a);
    RejectInRange(h, q, a);
    var r := AppendAt(p, a).1;
    assert r.xTerm == q.logs[r.xIndex].term;
    if r.xIndex > 0 { PositiveTerm(h, q.logs, r.xIndex); }
  }

  /** The answer of AppendEntries is a refusal of an old term, or that of the part past the terms. */
  lemma AnswerShape(p: Peer, a: AppendArgs)
    requires p.logs != []
    ensures var r := AppendEntries(p, a).1;
      && (r.success ==> r.xIndex == 0)
      && (a.term < p.currentTerm ==> r == AppendReply(p.currentTerm, false, 0, 0, 0))
      && (a.term >= p.currentTerm && a.prevIndex >= p.startIndex ==> r == AppendAt(Yield(p, a.term), a).1)
  {
  }

  lemma AnswerRefines(h: Hist, p: Peer, q: Peer, a: AppendArgs, leader: Log)
    requires LeaderLogsOk(h) && LogOk(h, q.logs) && Refines(p, q) && (a.prevIndex == 0 ==> a.prevTerm == 0)
    requires a.term >= p.currentTerm ==>
               FromLeader(leader, a) && Fits(q, leader) && a.leaderCommit <= a.prevIndex + 1 + |a.entries|
    requires AppendEntries(p, a).1.success == AppendEntries(q, a).1.success && AppendEntries(p, a).1.term == AppendEntries(q, a).1.term
    ensures AnswersAs(a, AppendEntries(p, a).1, AppendEntries(q, a).1)
  {
    AnswerShape(p, a);
    AnswerShape(q, a);
    if a.term >= p.currentTerm {
      if a.prevIndex < p.startIndex {
        CoveredAccepted(q, a, leader);
      } else if !AppendEntries(q, a).1.success {
        RejectAnswers(h, Yield(p, a.term), Yield(q, a.term), a);
      }
    }
  }

  /** A request that begins inside what is committed is accepted. */
  lemma CoveredAccepted(q: Peer, a: AppendArgs, leader: Log)
    requires q.startIndex == 0 && a.term >= q.currentTerm && FromLeader(leader, a) && Fits(q, leader)
    requires a.prevIndex < q.commitIndex <= |q.logs|
    ensures AppendEntries(q, a).1.success
  {
    assert q.logs[a.prevIndex] == leader[a.prevIndex];
  }

  /** What the invariant says of a request in flight. */
  lemma RequestInFlight(k: K.System, c: Cluster, s: nat, src: nat, a: AppendArgs)
    requires Sim(k, c) && s < |k.hosts| && K.Plain(AppendReq(src, s, a)) in k.net
    ensures AppendReq(src, s, a) in c.net && a.term in c.hist.leaderLog && LeaderLogsOk(c.hist)
    ensures LogOk(c.hist, c.nodes[s].peer.logs) && (a.prevIndex == 0 ==> a.prevTerm == 0)
    ensures a.term >= c.nodes[s].peer.currentTerm ==>
              && FromLeader(c.hist.leaderLog[a.term], a) && Fits(c.nodes[s].peer, c.hist.leaderLog[a.term])
              && a.leaderCommit <= a.prevIndex + 1 + |a.entries|
  {
    HostReady(k, c, s);
    assert MsgSim(c.net, K.Plain(AppendReq(src, s, a)));
    assert MsgOk(c.hist, |c.nodes|, c.net, AppendReq(src, s, a));
    assert LeaderLogOk(c.hist, a.term);
    if a.term >= c.nodes[s].peer.currentTerm { RequestFits(c.hist, |c.nodes|, s, c.nodes[s], src, a); }
  }

  lemma ReceiveSim(k: K.System, c: Cluster, k': K.System, s: nat, src: nat, a: AppendArgs) returns (c': Cluster)
    requires Sim(k, c) && s < |k.hosts| && K.Ready(k.hosts[s], |k.hosts|) && K.ReceiveStep(k, k', s, src, a)
    ensures Sim(k', c') && Kept(c, c')
  {
    HostReady(k, c, s);
    RequestInFlight(k, c, s, src, a);
    var h, node, host := c.hist, c.nodes[s], k.hosts[s];
    AppendRefines(host.peer, node.peer, a, h.leaderLog[a.term]);
    AnswerRefines(h, host.peer, node.peer, a, h.leaderLog[a.term]);
    var (q, r0) := AppendEntries(node.peer, a);
    var (p, r) := AppendEntries(host.peer, a);
    c' := Put(c, s, node.(peer := q), {AppendRep(src, s, a, r0)},
              if r0.success then WithAcks(h, s, a.term, a.prevIndex + 1 + |a.entries|) else h);
    ReceiveInv(c, c', src, s, a);
    assert AppendRep(src, s, a, r0) in c'.net;
    assert HasAnswer(c'.net, src, s, a, r);
    Joined(k, c, s, host.(peer := p), {K.Plain(AppendRep(src, s, a, r))}, c');
  }

  /** The next index of a compacted leader after a reject is in its whole log. */
  lemma BackupRange(p: Peer, q: Peer, a: AppendArgs, r: AppendReply)
    requires Refines(p, q) && q.logs[0].term == 0 && a.prevIndex < |q.logs| && r.xIndex <= a.prevIndex && RejectOk(a, r)
    ensures 1 <= Backup(p.logs, p.startIndex, r) <= |q.logs|
  {
    if p.startIndex == 0 { BackupInRange(p.logs, a, r); }
  }

  lemma HearSim(k: K.System, c: Cluster, k': K.System, s: nat, dst: nat, a: AppendArgs, r: AppendReply) returns (c': Cluster)
    requires Sim(k, c) && s < |k.hosts| && K.Ready(k.hosts[s], |k.hosts|) && K.HearStep(k, k', s, dst, a, r)
    ensures Sim(k', c') && Kept(c, c')
  {
    HostReady(k, c, s);
    var h, n, node, host := c.hist, |c.nodes|, c.nodes[s], k.hosts[s];
    var p, q := host.peer, node.peer;
    c' := c;
    KeptStill(c);
    if p.currentTerm == a.term {
      assert MsgSim(c.net, K.Plain(AppendRep(s, dst, a, r)));
      var r0 :| AppendRep(s, dst, a, r0) in c.net && AnswersAs(a, r, r0);
      if p.nextIndex[dst] != a.prevIndex + 1 {
        Unseen(k, c, s, host.(peer := OnAppendReply(p, dst, a, r).0));
      } else if r.success || r.term > a.term {
        HearInRange(c, s, dst, a, r0);
        AcceptedRefines(p, q, dst, a, r, r0);
        c' := Put(c, s, node.(peer := OnAppendReply(q, dst, a, r0).0), {}, h);
        HearInv(c, c', s, dst, a, r0);
        Joined(k, c, s, host.(peer := OnAppendReply(p, dst, a, r).0), {}, c');
      } else {
        c' := RejectSim(k, c, s, dst, a, r, r0);
      }
    }
  }

  /** An answer that the current leader hears lies within its log. */
  lemma AnswerInLog(k: K.System, c: Cluster, s: nat, dst: nat, a: AppendArgs, r: AppendReply)
    requires Sim(k, c) && s < |k.hosts| && K.Plain(AppendRep(s, dst, a, r)) in k.net
    requires k.hosts[s].workTerm == a.term == k.hosts[s].peer.currentTerm
    ensures r.xIndex <= a.prevIndex < End(k.hosts[s].peer)
  {
    HostReady(k, c, s);
    assert MsgSim(c.net, K.Plain(AppendRep(s, dst, a, r)));
    var r0 :| AppendRep(s, dst, a, r0) in c.net && AnswersAs(a, r, r0);
    assert MsgOk(c.hist, |c.nodes|, c.net, AppendRep(s, dst, a, r0));
    assert MsgOk(c.hist, |c.nodes|, c.net, AppendReq(s, dst, a));
    assert LeaderLogOk(c.hist, a.term);
  }

  lemma RejectInFlight(k: K.System, c: Cluster, s: nat, dst: nat, a: AppendArgs, r: AppendReply)
    requires Sim(k, c) && s < |k.hosts| && K.Plain(AppendRep(s, dst, a, r)) in k.net && !r.success && r.term <= a.term
    ensures RejectOk(a, r) && c.nodes[s].peer.logs[0].term == 0
  {
    HostReady(k, c, s);
    assert MsgSim(c.net, K.Plain(AppendRep(s, dst, a, r)));
  }

  /** A reject: the counterpart's next index goes where the compacted leader's goes. */
  lemma RejectSim(k: K.System, c: Cluster, s: nat, dst: nat, a: AppendArgs, r: AppendReply, r0: AppendReply) returns (c': Cluster)
    requires Sim(k, c) && s < |k.hosts| && dst < |k.hosts| && r.xIndex <= End(k.hosts[s].peer) && K.Ready(k.hosts[s], |k.hosts|)
    requires k.hosts[s].workTerm == a.term == k.hosts[s].peer.currentTerm
    requires AppendRep(s, dst, a, r0) in c.net && AnswersAs(a, r, r0) && !r.success && r.term <= a.term
    requires k.hosts[s].peer.nextIndex[dst] == a.prevIndex + 1
    ensures Sim(K.Put(k, s, k.hosts[s].(peer := OnAppendReply(k.hosts[s].peer, dst, a, r).0), {}), c') && Kept(c, c')
  {
    HostReady(k, c, s);
    var h, n, node, host := c.hist, |c.nodes|, c.nodes[s], k.hosts[s];
    assert MsgOk(h, n, c.net, AppendRep(s, dst, a, r0));
    assert MsgOk(h, n, c.net, AppendReq(s, dst, a));
    assert LeaderLogOk(h, a.term);
    BackupRange(host.peer, node.peer, a, r);
    var m := Backup(host.peer.logs, host.peer.startIndex, r);
    RewindInv(c, s, dst, m);
    c' := Put(c, s, node.(peer := node.peer.(nextIndex := node.peer.nextIndex[dst := m])), {}, h);
    Joined(k, c, s, host.(peer := OnAppendReply(host.peer, dst, a, r).0), {}, c');
  }

  lemma AdvanceSim(k: K.System, c: Cluster, k': K.System, s: nat) returns (c': Cluster)
    requires Sim(k, c) && s < |k.hosts| && K.AdvanceStep(k, k', s)
    ensures Sim(k', c') && Kept(c, c')
  {
    HostReady(k, c, s);
    var node, host := c.nodes[s], k.hosts[s];
    var (q, newCommit) := Commit(node.peer, node.newCommit);
    c' := Put(c, s, Node(q, node.workTerm, newCommit), {}, c.hist);
    AdvanceInv(c, c', s);
    AdvanceNode(c.hist, |c.nodes|, s, node);
    CommitRefines(host.peer, node.peer, node.newCommit);
    Joined(k, c, s, host.(peer := Commit(host.peer, host.newCommit).0, newCommit := newCommit), {}, c');
  }

  // ---------------------------------------------------------------- compaction

  lemma CompactSim(k: K.System, c: Cluster, k': K.System, s: nat, index: nat, data: seq<int>)
    requires Sim(k, c) && s < |k.hosts| && K.Ready(k.hosts[s], |k.hosts|) && K.CompactStep(k, k', s, index, data)
    ensures Sim(k', c)
  {
    HostReady(k, c, s);
    SnapshotRefines(k.hosts[s].peer, c.nodes[s].peer, index, data);
    Unseen(k, c, s, k.hosts[s].(peer := Snapshot(k.hosts[s].peer, index, data)));
  }

  lemma KeptTwice(c: Cluster, c': Cluster, c'': Cluster)
    requires Kept(c, c') && Kept(c', c'')
    ensures Kept(c, c'')
  {
    ExtendsTransitive(c.hist, c'.hist, c''.hist);
  }

  /** The request behind a snapshot is the leader's own prefix. */
  lemma StandsForPrefix(h: Hist, n: nat, s: nat, src: nat, a: SnapshotArgs, b: AppendArgs)
    requires HistOk(h, n) && AppendOk(h, n, src, s, b) && StandsFor(a, b)
    ensures a.lastIndex < |h.leaderLog[a.term]| && h.leaderLog[a.term][a.lastIndex].term == a.lastTerm
    ensures b == AsAppend(a, h.leaderLog[a.term])
  {
    var leader := h.leaderLog[a.term];
    assert b.entries == leader[1..a.lastIndex + 1];
  }

  /** The counterpart takes the request that the snapshot stands for. */
  lemma TakenAsRequest(c: Cluster, s: nat, src: nat, a: SnapshotArgs, b: AppendArgs) returns (c': Cluster)
    requires Inv(c) && s < |c.nodes| && Shaped(c.nodes[s], |c.nodes|) && AppendReq(src, s, b) in c.net && StandsFor(a, b)
    requires a.term in c.hist.leaderLog && a.lastIndex < |c.hist.leaderLog[a.term]| && b == AsAppend(a, c.hist.leaderLog[a.term])
    requires a.term >= c.nodes[s].peer.currentTerm ==> AppendEntries(c.nodes[s].peer, b).1.success
    ensures Kept(c, c') && c.net <= c'.net && forall i | 0 <= i < |c.nodes| && i != s :: c'.nodes[i] == c.nodes[i]
    ensures c'.nodes[s] == c.nodes[s].(peer := Caught(c.nodes[s].peer, a, c.hist.leaderLog[a.term]))
    ensures a.term >= c.nodes[s].peer.currentTerm ==> HasAck(c'.net, src, s, a)
  {
    c' := RequestTaken(c, s, src, b);
    if a.term >= c.nodes[s].peer.currentTerm && a.lastIndex >= c.nodes[s].peer.lastApplied {
      c' := ThenSkipped(c, c', s, a.lastIndex + 1);
    }
  }

  lemma RequestTaken(c: Cluster, s: nat, src: nat, b: AppendArgs) returns (c': Cluster)
    requires Inv(c) && s < |c.nodes| && Shaped(c.nodes[s], |c.nodes|) && AppendReq(src, s, b) in c.net
    ensures Kept(c, c') && |c'.nodes| == |c.nodes| && c.net <= c'.net
    ensures c'.nodes == c.nodes[s := c.nodes[s].(peer := AppendEntries(c.nodes[s].peer, b).0)]
    ensures AppendRep(src, s, b, AppendEntries(c.nodes[s].peer, b).1) in c'.net
  {
    var node := c.nodes[s];
    var (q, r0) := AppendEntries(node.peer, b);
    c' := Put(c, s, node.(peer := q), {AppendRep(src, s, b, r0)},
              if r0.success then WithAcks(c.hist, s, b.term, b.prevIndex + 1 + |b.entries|) else c.hist);
    ReceiveInv(c, c', src, s, b);
  }

  lemma ThenSkipped(c: Cluster, mid: Cluster, s: nat, mark: nat) returns (c': Cluster)
    requires Kept(c, mid) && s < |c.nodes| == |mid.nodes| && 1 <= mark <= mid.nodes[s].peer.commitIndex
    ensures Kept(c, c') && c'.net == mid.net
    ensures c'.nodes == mid.nodes[s := mid.nodes[s].(peer := mid.nodes[s].peer.(lastApplied := mark))]
  {
    assert NodeOk(mid.hist, |mid.nodes|, s, mid.nodes[s]);
    SkipInv(mid, s, mark);
    c' := Put(mid, s, mid.nodes[s].(peer := mid.nodes[s].peer.(lastApplied := mark)), {}, mid.hist);
    KeptTwice(c, mid, c');
  }

  /** What the invariant says of a snapshot in flight. */
  lemma SnapshotInFlight(k: K.System, c: Cluster, s: nat, src: nat, a: SnapshotArgs) returns (b: AppendArgs)
    requires Sim(k, c) && s < |k.hosts| && K.InstallReq(src, s, a) in k.net
    ensures AppendReq(src, s, b) in c.net && StandsFor(a, b) && a.term in c.hist.leaderLog
    ensures var leader := c.hist.leaderLog[a.term];
      && a.lastIndex < |leader| && leader[a.lastIndex].term == a.lastTerm && b == AsAppend(a, leader)
      && (a.term >= c.nodes[s].peer.currentTerm ==> Fits(c.nodes[s].peer, leader))
  {
    HostReady(k, c, s);
    assert MsgSim(c.net, K.InstallReq(src, s, a));
    b :| AppendReq(src, s, b) in c.net && StandsFor(a, b);
    assert MsgOk(c.hist, |c.nodes|, c.net, AppendReq(src, s, b));
    StandsForPrefix(c.hist, |c.nodes|, s, src, a, b);
    if a.term >= c.nodes[s].peer.currentTerm { RequestFits(c.hist, |c.nodes|, s, c.nodes[s], src, b); }
  }

  lemma InstallSim(k: K.System, c: Cluster, k': K.System, s: nat, src: nat, a: SnapshotArgs) returns (c': Cluster)
    requires Sim(k, c) && s < |k.hosts| && K.Ready(k.hosts[s], |k.hosts|) && K.InstallStep(k, k', s, src, a)
    ensures Sim(k', c') && Kept(c, c')
  {
    HostReady(k, c, s);
    var node, host := c.nodes[s], k.hosts[s];
    var b := SnapshotInFlight(k, c, s, src, a);
    InstallRefines(host.peer, node.peer, a, c.hist.leaderLog[a.term]);
    c' := TakenAsRequest(c, s, src, a, b);
    var (p, term, _) := InstallSnapshot(host.peer, a);
    Joined(k, c, s, host.(peer := p), {K.InstallRep(src, s, a, term)}, c');
  }

  lemma AckRaises(c: Cluster, s: nat, dst: nat, a: SnapshotArgs)
    requires Inv(c) && s < |c.nodes| && dst < |c.nodes| && NodeOk(c.hist, |c.nodes|, s, c.nodes[s])
    requires HasAck(c.net, s, dst, a) && c.nodes[s].workTerm == a.term == c.nodes[s].peer.currentTerm
    requires a.lastIndex + 1 > c.nodes[s].peer.matchIndex[dst]
    ensures var q := c.nodes[s].peer;
      Kept(c, Put(c, s, c.nodes[s].(peer := q.(matchIndex := q.matchIndex[dst := a.lastIndex + 1])), {}, c.hist))
  {
    var b, r :| AppendRep(s, dst, b, r) in c.net && StandsFor(a, b) && r.success;
    RaiseMatchInv(c, s, dst, b, r);
  }

  lemma RaiseSim(k: K.System, c: Cluster, s: nat, dst: nat, a: SnapshotArgs) returns (c': Cluster)
    requires Sim(k, c) && s < |k.hosts| && dst < |k.hosts| && HasAck(c.net, s, dst, a) && K.Ready(k.hosts[s], |k.hosts|)
    requires k.hosts[s].workTerm == a.term == k.hosts[s].peer.currentTerm && a.lastIndex + 1 > k.hosts[s].peer.matchIndex[dst]
    ensures var p := k.hosts[s].peer;
      Sim(K.Put(k, s, k.hosts[s].(peer := p.(matchIndex := p.matchIndex[dst := a.lastIndex + 1])), {}), c') && Kept(c, c')
  {
    HostReady(k, c, s);
    var p, q, len := k.hosts[s].peer, c.nodes[s].peer, a.lastIndex + 1;
    AckRaises(c, s, dst, a);
    c' := Put(c, s, c.nodes[s].(peer := q.(matchIndex := q.matchIndex[dst := len])), {}, c.hist);
    Joined(k, c, s, k.hosts[s].(peer := p.(matchIndex := p.matchIndex[dst := len])), {}, c');
  }

  lemma DeposeSim(k: K.System, c: Cluster, s: nat, term: nat) returns (c': Cluster)
    requires Sim(k, c) && s < |k.hosts| && term > k.hosts[s].peer.currentTerm
    ensures Sim(K.Put(k, s, k.hosts[s].(peer := Depose(k.hosts[s].peer, term)), {}), c') && Kept(c, c')
  {
    HostReady(k, c, s);
    OfficeRefines(k.hosts[s].peer, c.nodes[s].peer, VoteArgs(0, 0, 0, 0), term);
    DeposeInv(c, s, term);
    c' := Put(c, s, c.nodes[s].(peer := Depose(c.nodes[s].peer, term)), {}, c.hist);
    Joined(k, c, s, k.hosts[s].(peer := Depose(k.hosts[s].peer, term)), {}, c');
  }

  lemma HearInstallSim(k: K.System, c: Cluster, k': K.System, s: nat, dst: nat, a: SnapshotArgs, term: nat) returns (c': Cluster)
    requires Sim(k, c) && s < |k.hosts| && K.Ready(k.hosts[s], |k.hosts|) && K.HearInstallStep(k, k', s, dst, a, term)
    ensures Sim(k', c') && Kept(c, c')
  {
    var p := k.hosts[s].peer;
    assert MsgSim(c.net, K.InstallRep(s, dst, a, term));
    if p.currentTerm == a.term && term > a.term {
      c' := DeposeSim(k, c, s, term);
    } else if p.currentTerm == a.term && a.lastIndex + 1 > p.matchIndex[dst] {
      c' := RaiseSim(k, c, s, dst, a);
    } else {
      c' := c;
      KeptStill(c);
      HostReady(k, c, s);
      Unseen(k, c, s, k.hosts[s]);
    }
  }

  // ------------------------------------------------------------------ applying

  lemma TakeCommittedSim(k: K.System, c: Cluster, k': K.System, s: nat) returns (c': Cluster)
    requires Sim(k, c) && s < |k.hosts| && K.Ready(k.hosts[s], |k.hosts|) && K.TakeCommittedStep(k, k', s)
    ensures Sim(k', c') && Kept(c, c')
  {
    HostReady(k, c, s);
    var node, host := c.nodes[s], k.hosts[s];
    BatchRefines(host.peer, node.peer);
    var (q, batch) := TakeBatch(node.peer);
    c' := Put(c, s, node.(peer := q), {}, WithApplied(c.hist, AppliedBy(s, batch)));
    ApplyInv(c, c', s);
    var host' := host.(peer := TakeBatch(host.peer).0, batch := batch);
    forall m | (m in host'.batch || m in host'.sent) && m.CommandMsg? ensures Applied(s, m.index, m.command) in c'.hist.applied {
      if m in batch { assert Applied(s, m.index, m.command) in AppliedBy(s, batch); }
    }
    Joined(k, c, s, host', {}, c');
  }

  lemma TakeInstalledSim(k: K.System, c: Cluster, k': K.System, s: nat)
    requires Sim(k, c) && s < |k.hosts| && K.Ready(k.hosts[s], |k.hosts|) && K.TakeInstalledStep(k, k', s)
    ensures Sim(k', c)
  {
    HostReady(k, c, s);
    var (p, msg) := TakeSnapshot(k.hosts[s].peer);
    Unseen(k, c, s, k.hosts[s].(peer := p, batch := [msg]));
  }

  lemma DeliverSim(k: K.System, c: Cluster, k': K.System, s: nat)
    requires Sim(k, c) && s < |k.hosts| && K.DeliverStep(k, k', s)
    ensures Sim(k', c)
  {
    HostReady(k, c, s);
    var host := k.hosts[s];
    assert host.batch[0] in host.batch;
    var host' := host.(batch := host.batch[1..], sent := host.sent + [host.batch[0]]);
    Unseen(k, c, s, host');
    var mid := K.Put(k, s, host', {});
    assert Sim(mid, c);
    forall i | 0 <= i < |k'.hosts| ensures HostSim(k'.hosts[i], c.nodes[i]) && BatchSim(c.hist, i, k'.hosts[i]) {
      assert k'.hosts[i] == mid.hosts[i];
    }
  }

  lemma RebootSim(k: K.System, c: Cluster, k': K.System, s: nat) returns (c': Cluster)
    requires Sim(k, c) && s < |k.hosts| && K.RebootStep(k, k', s)
    ensures Sim(k', c') && Kept(c, c')
  {
    HostReady(k, c, s);
    var n, node, p := |c.nodes|, c.nodes[s], k.hosts[s].peer;
    RestartRefines(p, node.peer, n);
    var mark := if p.startIndex > 0 then p.startIndex + 1 else 1;
    RebootAtInv(c, s, mark);
    c' := Put(c, s, Node(Restart(node.peer, n).(commitIndex := mark, lastApplied := mark), 0, false), {}, c.hist);
    Joined(k, c, s, K.Boot(Restart(p, n)), {}, c');
  }

  // ------------------------------------------------------------------ one step

  lemma CompactionStep(k: K.System, c: Cluster, k': K.System, step: K.Step) returns (c': Cluster)
    requires Sim(k, c) && K.StepOk(k, k', step)
    requires step.Compact? || step.Install? || step.HearInstall? || step.TakeCommitted? || step.TakeInstalled? || step.Deliver? || step.Reboot?
    ensures Sim(k', c') && Kept(c, c')
  {
    c' := c;
    KeptStill(c);
    match step
    case Compact(s, index, data) => CompactSim(k, c, k', s, index, data);
    case Install(s, src, a) => c' := InstallSim(k, c, k', s, src, a);
    case HearInstall(s, dst, a, term) => c' := HearInstallSim(k, c, k', s, dst, a, term);
    case TakeCommitted(s) => c' := TakeCommittedSim(k, c, k', s);
    case TakeInstalled(s) => TakeInstalledSim(k, c, k', s);
    case Deliver(s) => DeliverSim(k, c, k', s);
    case Reboot(s) => c' := RebootSim(k, c, k', s);
  }

  lemma ProtocolStep(k: K.System, c: Cluster, k': K.System, step: K.Step) returns (c': Cluster)
    requires Sim(k, c) && K.StepOk(k, k', step)
    requires step.Stand? || step.Answer? || step.CountVotes? || step.Submit? || step.Send? || step.Receive? || step.Hear? || step.Advance?
    ensures Sim(k', c') && Kept(c, c')
  {
    match step
    case Stand(s) => c' := StandSim(k, c, k', s);
    case Answer(s, args) => c' := AnswerSim(k, c, k', s, args);
    case CountVotes(s, args, voters, results) => c' := CountSim(k, c, k', s, args, voters, results);
    case Submit(s, command) => c' := SubmitSim(k, c, k', s, command);
    case Send(s, dst) => c' := SendSim(k, c, k', s, dst);
    case Receive(s, src, a) => c' := ReceiveSim(k, c, k', s, src, a);
    case Hear(s, dst, a, reply) => c' := HearSim(k, c, k', s, dst, a, reply);
    case Advance(s) => c' := AdvanceSim(k, c, k', s);
  }

  /** Every step of a compacted cluster has a counterpart on whole logs. */
  lemma NextSimulated(k: K.System, c: Cluster, k': K.System) returns (c': Cluster)
    requires Sim(k, c) && K.Next(k, k')
    ensures Sim(k', c') && Kept(c, c')
  {
    var step :| K.StepOk(k, k', step);
    if step.Stand? || step.Answer? || step.CountVotes? || step.Submit? || step.Send? || step.Receive? || step.Hear? || step.Advance? {
      c' := ProtocolStep(k, c, k', step);
    } else {
      c' := CompactionStep(k, c, k', step);
    }
  }

  lemma InitSimulated(k: K.System) returns (c: Cluster)
    requires K.Init(k)
    ensures Sim(k, c)
  {
    var n := |k.hosts|;
    c := Cluster(seq(n, s requires 0 <= s < n => Node(Fresh(s, n), 0, false)), {}, EMPTY_HIST);
    InitInv(c);
    forall s | 0 <= s < n ensures HostSim(k.hosts[s], c.nodes[s]) && BatchSim(c.hist, s, k.hosts[s]) {
      assert k.hosts[s] == K.Boot(Fresh(s, n));
    }
  }
}
