/** A Raft cluster as a state machine. Each locked section of src/raft is one
    atomic step on one node; messages stay in the network for ever, so they may be
    lost, delayed, reordered or delivered again. Nothing is compacted here
    (`startIndex` stays 0), as the lock service never calls Snapshot. */
module RaftCluster {
  import opened Session
  import opened Quorums
  import opened RaftPeer
  import opened RaftHistory
  import opened RaftGrowth

  /** A peer with the locals of its goroutines: the term its leader goroutines
      (heartbeat, sendLog, committer) were started for, 0 if none, and the
      committer's `newCommit`. */
  datatype Node = Node(peer: Peer, workTerm: nat, newCommit: bool)

  datatype Msg =
    | VoteReq(args: VoteArgs)
    | VoteRep(args: VoteArgs, voter: nat, reply: VoteReply)
    | AppendReq(src: nat, dst: nat, append: AppendArgs)
    | AppendRep(src: nat, dst: nat, append: AppendArgs, answer: AppendReply)

  datatype Cluster = Cluster(nodes: seq<Node>, net: set<Msg>, hist: Hist)

  ghost predicate Init(c: Cluster) {
    && c.net == {} && c.hist == EMPTY_HIST
    && forall s | 0 <= s < |c.nodes| :: c.nodes[s] == Node(Fresh(s, |c.nodes|), 0, false)
  }

  // -------------------------------------------------------------------- steps

  datatype Step =
    | Stand(s: nat)
    | Answer(s: nat, args: VoteArgs)
    | CountVotes(s: nat, args: VoteArgs, voters: seq<nat>, results: seq<int>)
    | Submit(s: nat, command: Payload)
    | Send(s: nat, dst: nat)
    | Receive(src: nat, s: nat, append: AppendArgs)
    | Hear(s: nat, dst: nat, append: AppendArgs, answer: AppendReply)
    | Advance(s: nat)
    | Apply(s: nat)
    | Reboot(s: nat)

  /** Nodes have the shape Make gives them, which every handler relies on. */
  ghost predicate Shaped(node: Node, n: nat) {
    && node.peer.logs != [] && |node.peer.nextIndex| == |node.peer.matchIndex| == n
    && node.peer.startIndex <= node.peer.lastApplied && node.peer.commitIndex <= End(node.peer)
  }

  ghost function Put(c: Cluster, s: nat, node: Node, msgs: set<Msg>, h: Hist): Cluster
    requires s < |c.nodes|
  {
    Cluster(c.nodes[s := node], c.net + msgs, h)
  }

  ghost predicate StandStep(c: Cluster, c': Cluster, s: nat)
    requires s < |c.nodes| && Shaped(c.nodes[s], |c.nodes|)
  {
    var node := c.nodes[s];
    && node.peer.role != Leader
    && var (p, args) := StandForElection(node.peer);
       c' == Put(c, s, node.(peer := p), {VoteReq(args)},
                 WithVote(c.hist, Vote(s, s, args.term, node.peer.logs)))
  }

  ghost predicate AnswerStep(c: Cluster, c': Cluster, s: nat, args: VoteArgs)
    requires s < |c.nodes| && Shaped(c.nodes[s], |c.nodes|)
  {
    var node := c.nodes[s];
    && VoteReq(args) in c.net && args.cand != s
    && var (p, reply) := RequestVote(node.peer, args);
       c' == Put(c, s, node.(peer := p), {VoteRep(args, s, reply)},
                 if reply.granted then WithVote(c.hist, Vote(s, args.cand, args.term, node.peer.logs)) else c.hist)
  }

  /** What the candidate's goroutine for one peer put on the channel: a failed call or a real answer. */
  ghost predicate Heard(net: set<Msg>, args: VoteArgs, voter: nat, result: int) {
    result == VOTE_FAIL || exists reply :: VoteRep(args, voter, reply) in net && result == VoteResult(args, reply)
  }

  /** A log with which `v` voted for `cand` in `t`. */
  ghost function VotedLog(h: Hist, v: nat, cand: nat, t: nat): (log: Log) {
    if exists log :: Vote(v, cand, t, log) in h.votes then
      var log :| Vote(v, cand, t, log) in h.votes; log
    else []
  }

  /** The candidate and the peers whose vote it counted. */
  ghost function Counted(s: nat, voters: seq<nat>, results: seq<int>): set<nat>
    requires |voters| == |results|
  {
    if voters == [] then {s}
    else (if results[0] == VOTE_SUCCESS then {voters[0]} else {}) + Counted(s, voters[1..], results[1..])
  }

  ghost function ElectionOf(h: Hist, s: nat, t: nat, q: set<nat>, log: Log): Election {
    Election(s, |log|, map v | v in q :: if v == s then log else VotedLog(h, v, s, t))
  }

  ghost predicate CountStep(c: Cluster, c': Cluster, s: nat, args: VoteArgs, voters: seq<nat>, results: seq<int>)
    requires s < |c.nodes|
  {
    var node := c.nodes[s];
    var p := node.peer;
    && VoteReq(args) in c.net && args.cand == s
    && |voters| == |results| && Distinct(voters) && (forall v | v in voters :: v < |c.nodes| && v != s)
    && (forall i | 0 <= i < |voters| :: Heard(c.net, args, voters[i], results[i]))
    && match Tally(results, 1, |c.nodes|)
       case Lost => c' == c
       case Deposed(t) =>
         c' == if t > p.currentTerm then Put(c, s, node.(peer := Depose(p, t)), {}, c.hist) else c
       case Elected =>
         c' == if p.currentTerm == args.term && p.role == Candidate
               then Put(c, s, Node(TakeOffice(p, args), args.term, false), {},
                        WithLeader(c.hist, args.term,
                                   ElectionOf(c.hist, s, args.term, Counted(s, voters, results), p.logs), p.logs))
               else c
  }

  ghost predicate SubmitStep(c: Cluster, c': Cluster, s: nat, command: Payload)
    requires s < |c.nodes|
  {
    var node := c.nodes[s];
    var p := Start(node.peer, command).0;
    var t := node.peer.currentTerm;
    if node.peer.role == Leader then
      && t in c.hist.leaderLog
      && c' == Put(c, s, Node(p, node.workTerm, node.newCommit && node.peer.newOp != 0), {},
                   WithAcks(WithEntry(c.hist, t, Entry(t, command)), s, t, |p.logs|))
    else c' == c
  }

  ghost predicate SendStep(c: Cluster, c': Cluster, s: nat, dst: nat)
    requires s < |c.nodes| && Shaped(c.nodes[s], |c.nodes|)
  {
    var node := c.nodes[s];
    && dst < |c.nodes| && dst != s
    && node.workTerm > 0 && node.peer.currentTerm == node.workTerm
    && node.peer.nextIndex[dst] <= End(node.peer)
    && var (p, out) := SendLog(node.peer, dst);
       c' == Put(c, s, node.(peer := p), if out.SendAppend? then {AppendReq(s, dst, out.append)} else {}, c.hist)
  }

  ghost predicate ReceiveStep(c: Cluster, c': Cluster, src: nat, s: nat, a: AppendArgs)
    requires s < |c.nodes| && Shaped(c.nodes[s], |c.nodes|)
  {
    var node := c.nodes[s];
    && AppendReq(src, s, a) in c.net
    && var (p, reply) := AppendEntries(node.peer, a);
       c' == Put(c, s, node.(peer := p), {AppendRep(src, s, a, reply)},
                 if reply.success then WithAcks(c.hist, s, a.term, a.prevIndex + 1 + |a.entries|) else c.hist)
  }

  ghost predicate HearStep(c: Cluster, c': Cluster, s: nat, dst: nat, a: AppendArgs, reply: AppendReply)
    requires s < |c.nodes| && Shaped(c.nodes[s], |c.nodes|)
  {
    var node := c.nodes[s];
    && AppendRep(s, dst, a, reply) in c.net && dst < |c.nodes|
    && node.workTerm == a.term
    && if node.peer.currentTerm == a.term then
         && reply.xIndex <= End(node.peer)
         && c' == Put(c, s, node.(peer := OnAppendReply(node.peer, dst, a, reply).0), {}, c.hist)
       else c' == c
  }

  ghost predicate AdvanceStep(c: Cluster, c': Cluster, s: nat)
    requires s < |c.nodes|
  {
    var node := c.nodes[s];
    && node.workTerm > 0 && node.peer.currentTerm == node.workTerm && node.peer.newOp != 0
    && var (p, newCommit) := Commit(node.peer, node.newCommit);
       c' == Put(c, s, Node(p, node.workTerm, newCommit), {}, c.hist)
  }

  ghost function AppliedBy(s: nat, batch: seq<ApplyMsg>): set<Applied> {
    set m | m in batch && m.CommandMsg? :: Applied(s, m.index, m.command)
  }

  ghost predicate ApplyStep(c: Cluster, c': Cluster, s: nat)
    requires s < |c.nodes| && Shaped(c.nodes[s], |c.nodes|)
  {
    var (p, batch) := TakeBatch(c.nodes[s].peer);
    c' == Put(c, s, c.nodes[s].(peer := p), {}, WithApplied(c.hist, AppliedBy(s, batch)))
  }

  ghost predicate RebootStep(c: Cluster, c': Cluster, s: nat)
    requires s < |c.nodes|
  {
    c' == Put(c, s, Node(Restart(c.nodes[s].peer, |c.nodes|), 0, false), {}, c.hist)
  }

  ghost predicate StepOk(c: Cluster, c': Cluster, step: Step) {
    && step.s < |c.nodes| && Shaped(c.nodes[step.s], |c.nodes|)
    && match step
       case Stand(s) => StandStep(c, c', s)
       case Answer(s, args) => AnswerStep(c, c', s, args)
       case CountVotes(s, args, voters, results) => CountStep(c, c', s, args, voters, results)
       case Submit(s, command) => SubmitStep(c, c', s, command)
       case Send(s, dst) => SendStep(c, c', s, dst)
       case Receive(src, s, a) => ReceiveStep(c, c', src, s, a)
       case Hear(s, dst, a, reply) => HearStep(c, c', s, dst, a, reply)
       case Advance(s) => AdvanceStep(c, c', s)
       case Apply(s) => ApplyStep(c, c', s)
       case Reboot(s) => RebootStep(c, c', s)
  }

  ghost predicate Next(c: Cluster, c': Cluster) {
    exists step :: StepOk(c, c', step)
  }

  ghost predicate Linked(run: seq<Cluster>, i: nat) {
    i + 1 < |run| ==> Next(run[i], run[i + 1])
  }

  /** Every finite run of the cluster. */
  ghost predicate Run(run: seq<Cluster>) {
    && run != [] && Init(run[0])
    && forall i: nat {:trigger Linked(run, i)} :: Linked(run, i)
  }

  // ---------------------------------------------------------------- invariant

  ghost predicate HasVote(h: Hist, v: nat, cand: nat, t: nat) {
    exists log :: Vote(v, cand, t, log) in h.votes
  }

  ghost predicate AckNodeOk(h: Hist, a: Ack, p: Peer) {
    a.term in h.leaderLog && a.term <= p.currentTerm && (Holds(h, a, p.logs) || Overridden(h, a, p.currentTerm))
  }

  ghost predicate BaseOk(h: Hist, n: nat, s: nat, p: Peer) {
    && p.me == s && p.startIndex == 0 && |p.nextIndex| == |p.matchIndex| == n
    && LogOk(h, p.logs)
    && (forall i | 0 <= i < |p.logs| :: p.logs[i].term <= p.currentTerm)
    && 1 <= p.lastApplied <= p.commitIndex
    && CommitOk(h, n, p.logs, p.commitIndex, p.currentTerm)
  }

  ghost predicate NodeVotes(h: Hist, s: nat, p: Peer) {
    forall v | v in h.votes && v.voter == s :: v.term <= p.currentTerm && (v.term == p.currentTerm ==> p.votedFor == v.cand)
  }

  ghost predicate NodeAcks(h: Hist, s: nat, p: Peer) {
    forall a {:trigger AckNodeOk(h, a, p)} | a in h.acks && a.peer == s :: AckNodeOk(h, a, p)
  }

  ghost predicate CandidateOk(h: Hist, s: nat, p: Peer) {
    && p.currentTerm > 0
    && (forall i | 0 <= i < |p.logs| :: p.logs[i].term < p.currentTerm)
    && Vote(s, s, p.currentTerm, p.logs) in h.votes
    && (p.currentTerm in h.elections ==> h.elections[p.currentTerm].leader != s)
  }

  ghost predicate FollowerIndexOk(h: Hist, p: Peer, d: nat)
    requires d < |p.nextIndex| == |p.matchIndex|
  {
    && 1 <= p.nextIndex[d] <= |p.logs|
    && (p.matchIndex[d] <= 1 || AcksUpTo(d, p.currentTerm, p.matchIndex[d]) <= h.acks)
  }

  ghost predicate LeaderOk(h: Hist, n: nat, s: nat, node: Node)
    requires |node.peer.nextIndex| == |node.peer.matchIndex| == n
  {
    var p := node.peer;
    && p.currentTerm in h.leaderLog && h.leaderLog[p.currentTerm] == p.logs
    && p.currentTerm in h.elections && h.elections[p.currentTerm].leader == s
    && (forall d | 0 <= d < n && d != s :: FollowerIndexOk(h, p, d))
    && (p.newOp == 0 ||
        (&& h.elections[p.currentTerm].base <= p.newOp < |p.logs|
         && AcksUpTo(s, p.currentTerm, |p.logs|) <= h.acks
         && if node.newCommit then p.newOp < p.commitIndex else p.commitIndex <= p.newOp))
  }

  ghost predicate NodeOk(h: Hist, n: nat, s: nat, node: Node) {
    var p := node.peer;
    && BaseOk(h, n, s, p)
    && NodeVotes(h, s, p)
    && NodeAcks(h, s, p)
    && node.workTerm <= p.currentTerm
    && (p.role == Leader <==> node.workTerm == p.currentTerm && node.workTerm > 0)
    && (p.role == Candidate ==> CandidateOk(h, s, p))
    && (p.role == Leader ==> LeaderOk(h, n, s, node))
  }

  ghost predicate AppendOk(h: Hist, n: nat, src: nat, dst: nat, a: AppendArgs) {
    && src != dst && dst < n
    && a.term in h.leaderLog && a.term in h.elections && h.elections[a.term].leader == src
    && a.prevIndex + 1 + |a.entries| <= |h.leaderLog[a.term]|
    && h.leaderLog[a.term][a.prevIndex].term == a.prevTerm
    && (forall i | 0 <= i < |a.entries| :: a.entries[i] == h.leaderLog[a.term][a.prevIndex + 1 + i])
    && a.leaderCommit <= a.prevIndex + 1 + |a.entries|
    && CommitOk(h, n, h.leaderLog[a.term], a.leaderCommit, a.term)
  }

  /** What a reject tells the leader stays inside the leader's log and above the sentinel. */
  ghost predicate RejectOk(a: AppendArgs, reply: AppendReply) {
    && reply.xLen <= a.prevIndex
    && (reply.xTerm == 0 ==> reply.xIndex == 0 && reply.xLen >= 1)
    && (reply.xTerm > 0 ==> reply.xIndex >= 1)
  }

  ghost predicate MsgOk(h: Hist, n: nat, net: set<Msg>, m: Msg) {
    match m
    case VoteReq(args) => args.cand < n
    case VoteRep(args, voter, reply) =>
      && voter < n && VoteReq(args) in net
      && (reply.granted ==> HasVote(h, voter, args.cand, args.term))
    case AppendReq(src, dst, a) => src < n && AppendOk(h, n, src, dst, a)
    case AppendRep(src, dst, a, reply) =>
      && AppendReq(src, dst, a) in net && reply.xIndex <= a.prevIndex
      && (reply.success ==> AcksUpTo(dst, a.term, a.prevIndex + 1 + |a.entries|) <= h.acks)
      && (!reply.success && reply.term <= a.term ==> RejectOk(a, reply))
  }

  /** A candidate asks once per term, with the log it then has. */
  ghost predicate RequestsOk(net: set<Msg>, s: nat, p: Peer) {
    p.logs != [] &&
    forall m | m in net && m.VoteReq? && m.args.cand == s ::
      && m.args.term <= p.currentTerm
      && (m.args.term == p.currentTerm && p.role == Candidate ==>
            m.args.lastTerm == LastTerm(p.logs) && m.args.lastIndex == |p.logs| - 1)
  }

  ghost predicate VoteAsked(net: set<Msg>, v: Vote) {
    v.log != [] &&
    exists args :: VoteReq(args) in net && args.cand == v.cand && args.term == v.term
                   && UpToDate(args.lastTerm, args.lastIndex, v.log, 0)
  }

  ghost predicate RequestsUnique(net: set<Msg>) {
    forall m, m' | m in net && m' in net && m.VoteReq? && m'.VoteReq?
                   && m.args.cand == m'.args.cand && m.args.term == m'.args.term :: m == m'
  }

  ghost predicate NodesOk(c: Cluster) {
    forall s {:trigger c.nodes[s]} | 0 <= s < |c.nodes| ::
      NodeOk(c.hist, |c.nodes|, s, c.nodes[s]) && RequestsOk(c.net, s, c.nodes[s].peer)
  }

  ghost predicate NetOk(c: Cluster) {
    && (forall m {:trigger MsgOk(c.hist, |c.nodes|, c.net, m)} | m in c.net :: MsgOk(c.hist, |c.nodes|, c.net, m))
    && (forall v {:trigger VoteAsked(c.net, v)} | v in c.hist.votes :: VoteAsked(c.net, v))
    && RequestsUnique(c.net)
  }

  ghost predicate Inv(c: Cluster) {
    && HistOk(c.hist, |c.nodes|)
    && NodesOk(c)
    && NetOk(c)
    && (forall r | r in c.hist.applied :: AppliedOk(c.hist, |c.nodes|, r))
  }
}
