/** Elections keep the invariant: standing, voting, counting and stepping down. */
module RaftElectionSteps {
  import opened Quorums
  import opened RaftPeer
  import opened RaftHistory
  import opened RaftGrowth
  import opened RaftCluster
  import opened RaftInduction

  lemma OverriddenWider(h: Hist, a: Ack, upTo: int, upTo': int)
    requires a.term in h.leaderLog && Overridden(h, a, upTo) && upTo <= upTo'
    ensures Overridden(h, a, upTo')
  {
  }

  /** A peer that moves to a higher term with the same log keeps the log-related part. */
  lemma HigherTerm(h: Hist, n: nat, s: nat, p: Peer, p': Peer)
    requires BaseOk(h, n, s, p) && NodeVotes(h, s, p) && NodeAcks(h, s, p)
    requires p'.currentTerm > p.currentTerm
    requires p' == p.(currentTerm := p'.currentTerm, votedFor := p'.votedFor, role := p'.role)
    ensures BaseOk(h, n, s, p') && NodeVotes(h, s, p') && NodeAcks(h, s, p')
  {
    ExtendsReflexive(h);
    CommitOkGrows(h, h, n, p.logs, p.commitIndex, p.currentTerm, p'.currentTerm);
    forall a | a in h.acks && a.peer == s ensures AckNodeOk(h, a, p') {
      assert AckNodeOk(h, a, p);
      if !Holds(h, a, p.logs) { OverriddenWider(h, a, p.currentTerm, p'.currentTerm); }
    }
  }

  /** Stepping down to follower in a higher term is safe for any node. */
  lemma DeposeKeepsNode(h: Hist, n: nat, s: nat, node: Node, t: nat)
    requires NodeOk(h, n, s, node) && t > node.peer.currentTerm
    ensures NodeOk(h, n, s, node.(peer := Depose(node.peer, t)))
  {
    HigherTerm(h, n, s, node.peer, Depose(node.peer, t));
  }

  lemma DeposeInv(c: Cluster, s: nat, t: nat)
    requires Inv(c) && s < |c.nodes| && t > c.nodes[s].peer.currentTerm
    ensures Kept(c, Put(c, s, c.nodes[s].(peer := Depose(c.nodes[s].peer, t)), {}, c.hist))
  {
    var node := c.nodes[s];
    ExtendsReflexive(c.hist);
    DeposeKeepsNode(c.hist, |c.nodes|, s, node, t);
    assert c.net + {} == c.net;
    InvKept(c, s, node.(peer := Depose(node.peer, t)), {}, c.hist);
  }

  /** A vote in the current or a higher term fits the history. */
  lemma VoteFits(h: Hist, n: nat, s: nat, p: Peer, cand: nat, t: nat)
    requires HistOk(h, n) && BaseOk(h, n, s, p) && NodeVotes(h, s, p) && NodeAcks(h, s, p)
    requires t > p.currentTerm || (t == p.currentTerm && (p.votedFor == cand || p.votedFor == NO_VOTE))
    ensures var h' := WithVote(h, Vote(s, cand, t, p.logs)); Extends(h, h') && HistOk(h', n) && OnlyBy(h, h', s)
  {
    var v := Vote(s, cand, t, p.logs);
    forall a | a in h.acks ensures a.term in h.leaderLog && AckVoteOk(h, a, v) {
      assert AckOk(h, a);
      if a.peer == s && a.term < t {
        assert AckNodeOk(h, a, p);
        if !Holds(h, a, p.logs) { OverriddenWider(h, a, p.currentTerm, t); }
      }
    }
    VoteAdded(h, n, v);
  }

  /** A peer whose own vote was just recorded keeps its vote and log invariants. */
  lemma VoterKeeps(h: Hist, n: nat, s: nat, p: Peer, v: Vote)
    requires HistOk(h, n) && BaseOk(h, n, s, p) && NodeVotes(h, s, p) && NodeAcks(h, s, p)
    requires v.voter == s && v.term == p.currentTerm && v.cand == p.votedFor && Extends(h, WithVote(h, v))
    ensures var h' := WithVote(h, v); BaseOk(h', n, s, p) && NodeVotes(h', s, p) && NodeAcks(h', s, p)
  {
    BaseGrows(h, WithVote(h, v), n, s, p);
    NodeAcksGrow(h, WithVote(h, v), s, p);
  }

  /** A node has led only in terms it has reached, since it voted for itself there. */
  lemma OfficeWithinTerm(h: Hist, n: nat, s: nat, p: Peer, t: nat)
    requires HistOk(h, n) && NodeVotes(h, s, p) && t in h.elections && h.elections[t].leader == s
    ensures t <= p.currentTerm
  {
    assert ElectionOk(h, n, t, h.elections[t]);
    assert VoterOk(h, t, h.elections[t], s);
  }

  /** A leader's vote in its own term is for itself. */
  lemma LeaderVoted(h: Hist, n: nat, s: nat, p: Peer)
    requires HistOk(h, n) && NodeVotes(h, s, p) && p.currentTerm in h.elections && h.elections[p.currentTerm].leader == s
    ensures p.votedFor == s
  {
    assert ElectionOk(h, n, p.currentTerm, h.elections[p.currentTerm]);
    assert VoterOk(h, p.currentTerm, h.elections[p.currentTerm], s);
  }

  lemma StandInv(c: Cluster, c': Cluster, s: nat)
    requires Inv(c) && s < |c.nodes| && Shaped(c.nodes[s], |c.nodes|) && StandStep(c, c', s)
    ensures Kept(c, c')
  {
    var h, n, node := c.hist, |c.nodes|, c.nodes[s];
    var p := node.peer;
    var (p', args) := StandForElection(p);
    var v := Vote(s, s, args.term, p.logs);
    var h' := WithVote(h, v);
    HigherTerm(h, n, s, p, p');
    VoteFits(h, n, s, p, s, args.term);
    VoterKeeps(h, n, s, p', v);
    if p'.currentTerm in h.elections && h.elections[p'.currentTerm].leader == s {
      OfficeWithinTerm(h, n, s, p, p'.currentTerm);
    }
    assert NodeOk(h', n, s, node.(peer := p'));
    assert VoteReq(args) in c.net + {VoteReq(args)};
    assert VoteAsked(c.net + {VoteReq(args)}, v);
    assert RequestsUnique(c.net + {VoteReq(args)}) by { assert RequestsOk(c.net, s, p); }
    InvKept(c, s, node.(peer := p'), {VoteReq(args)}, h');
  }

  /** What RequestVote does to the peer, apart from recording the vote. */
  lemma AnswerKeepsNode(h: Hist, n: nat, s: nat, node: Node, a: VoteArgs)
    requires HistOk(h, n) && NodeOk(h, n, s, node) && a.cand != s
    ensures var (p', reply) := RequestVote(node.peer, a);
      && BaseOk(h, n, s, p') && (reply.granted ==> p'.currentTerm == a.term && p'.votedFor == a.cand)
      && (forall v | v in h.votes && v.voter == s :: v.term <= p'.currentTerm)
      && NodeVotes(h, s, p') && NodeAcks(h, s, p')
      && NodeOk(h, n, s, node.(peer := p'))
  {
    var p := node.peer;
    var p' := RequestVote(p, a).0;
    if p.role == Leader { LeaderVoted(h, n, s, p); }
    if p.currentTerm < a.term {
      HigherTerm(h, n, s, p, p');
    } else if p'.votedFor != p.votedFor {
      assert p' == p.(votedFor := a.cand) && p.votedFor == NO_VOTE;
      forall k | k in h.acks && k.peer == s ensures AckNodeOk(h, k, p') { assert AckNodeOk(h, k, p); }
    }
  }

  lemma AnswerInv(c: Cluster, c': Cluster, s: nat, a: VoteArgs)
    requires Inv(c) && s < |c.nodes| && Shaped(c.nodes[s], |c.nodes|) && AnswerStep(c, c', s, a)
    ensures Kept(c, c')
  {
    var h, n, node := c.hist, |c.nodes|, c.nodes[s];
    var p := node.peer;
    var (p', reply) := RequestVote(p, a);
    var msgs := {VoteRep(a, s, reply)};
    AnswerKeepsNode(h, n, s, node, a);
    assert MsgOk(h, n, c.net, VoteReq(a));
    if reply.granted {
      var v := Vote(s, a.cand, a.term, p.logs);
      var h' := WithVote(h, v);
      VoteFits(h, n, s, p, a.cand, a.term);
      VoterKeeps(h, n, s, p', v);
      if p'.role == Leader { LeaderGrows(h, h', n, s, node.(peer := p')); }
      assert v in h'.votes;
      assert HasVote(h', s, a.cand, a.term);
      assert VoteReq(a) in c.net + msgs;
      assert VoteAsked(c.net + msgs, v);
      InvKept(c, s, node.(peer := p'), msgs, h');
    } else {
      ExtendsReflexive(h);
      InvKept(c, s, node.(peer := p'), msgs, h);
    }
  }

  // ------------------------------------------------------------------ counting

  /** How many of the results are votes. */
  ghost function Successes(results: seq<int>): nat {
    if results == [] then 0 else (if results[0] == VOTE_SUCCESS then 1 else 0) + Successes(results[1..])
  }

  /** An elected outcome means that the votes counted, own vote included, are a majority. */
  lemma {:induction false} ElectedMeansMajority(results: seq<int>, votes: nat, n: nat)
    requires Tally(results, votes, n) == Elected
    ensures 2 * (votes + Successes(results)) > n
  {
    if results[0] == VOTE_SUCCESS {
      if 2 * (votes + 1) <= n { ElectedMeansMajority(results[1..], votes + 1, n); }
    } else {
      ElectedMeansMajority(results[1..], votes, n);
    }
  }

  /** Whoever is counted, the candidate apart, answered with a vote. */
  lemma {:induction false} CountedFrom(s: nat, voters: seq<nat>, results: seq<int>, v: nat) returns (i: nat)
    requires |voters| == |results| && v in Counted(s, voters, results) && v != s
    ensures i < |voters| && voters[i] == v && results[i] == VOTE_SUCCESS
  {
    if results[0] == VOTE_SUCCESS && voters[0] == v {
      i := 0;
    } else {
      i := CountedFrom(s, voters[1..], results[1..], v);
      i := i + 1;
    }
  }

  lemma {:induction false} CountedAmong(s: nat, voters: seq<nat>, results: seq<int>)
    requires |voters| == |results|
    ensures s in Counted(s, voters, results) && forall v | v in Counted(s, voters, results) :: v == s || v in voters
  {
    if voters != [] { CountedAmong(s, voters[1..], results[1..]); }
  }

  /** Distinct peers that voted, as a set, are as many as the votes. */
  lemma {:induction false} CountedSize(s: nat, voters: seq<nat>, results: seq<int>)
    requires |voters| == |results| && Distinct(voters) && s !in voters
    ensures |Counted(s, voters, results)| == 1 + Successes(results)
  {
    if voters != [] {
      var v, rest := voters[0], voters[1..];
      CountedSize(s, rest, results[1..]);
      CountedAmong(s, rest, results[1..]);
    }
  }

  lemma CountedQuorum(s: nat, voters: seq<nat>, results: seq<int>, n: nat)
    requires s < n && |voters| == |results| && Distinct(voters) && forall v | v in voters :: v < n && v != s
    requires Tally(results, 1, n) == Elected
    ensures IsQuorum(Counted(s, voters, results), n) && s in Counted(s, voters, results)
  {
    ElectedMeansMajority(results, 1, n);
    CountedSize(s, voters, results);
    CountedAmong(s, voters, results);
  }

  /** Every counted voter really voted for `s` in `t`, with a log that is no newer. */
  lemma CountedVoted(c: Cluster, s: nat, args: VoteArgs, voters: seq<nat>, results: seq<int>, v: nat)
    requires NetOk(c) && s < |c.nodes| && RequestsOk(c.net, s, c.nodes[s].peer)
    requires c.nodes[s].peer.role == Candidate && c.nodes[s].peer.currentTerm == args.term
    requires VoteReq(args) in c.net && args.cand == s && |voters| == |results|
    requires forall i | 0 <= i < |voters| :: Heard(c.net, args, voters[i], results[i])
    requires v in Counted(s, voters, results) && v != s
    ensures var log := VotedLog(c.hist, v, s, args.term);
      && Vote(v, s, args.term, log) in c.hist.votes && log != []
      && UpToDate(LastTerm(c.nodes[s].peer.logs), |c.nodes[s].peer.logs| - 1, log, 0)
  {
    var i := CountedFrom(s, voters, results, v);
    assert Heard(c.net, args, voters[i], results[i]);
    var reply :| VoteRep(args, v, reply) in c.net && VOTE_SUCCESS == VoteResult(args, reply);
    assert MsgOk(c.hist, |c.nodes|, c.net, VoteRep(args, v, reply));
    var vote := Vote(v, s, args.term, VotedLog(c.hist, v, s, args.term));
    assert VoteAsked(c.net, vote);
    var asked :| VoteReq(asked) in c.net && asked.cand == vote.cand && asked.term == vote.term
                 && UpToDate(asked.lastTerm, asked.lastIndex, vote.log, 0);
    assert VoteReq(asked) == VoteReq(args);
  }

  /** Votes are for one candidate per term, so a majority names the leader of the term, if it has one. */
  lemma MajorityNamesLeader(h: Hist, n: nat, s: nat, t: nat, q: set<nat>)
    requires HistOk(h, n) && IsQuorum(q, n) && t in h.leaderLog
    requires forall v | v in q :: HasVote(h, v, s, t)
    ensures h.elections[t].leader == s
  {
    var e := h.elections[t];
    assert ElectionOk(h, n, t, e);
    var v := QuorumsIntersect(q, e.voterLog.Keys, n);
    assert VoterOk(h, t, e, v) && HasVote(h, v, s, t);
    var log :| Vote(v, s, t, log) in h.votes;
    assert Vote(v, e.leader, t, e.voterLog[v]).cand == Vote(v, s, t, log).cand;
  }

  /** Election safety, in the step that could break it: a candidate with a majority
      of votes stands in a term that has no leader yet. */
  lemma TermUnled(c: Cluster, s: nat, q: set<nat>)
    requires Inv(c) && s < |c.nodes| && c.nodes[s].peer.role == Candidate
    requires IsQuorum(q, |c.nodes|)
    requires forall v | v in q :: HasVote(c.hist, v, s, c.nodes[s].peer.currentTerm)
    ensures c.nodes[s].peer.currentTerm !in c.hist.leaderLog
  {
    var h, t := c.hist, c.nodes[s].peer.currentTerm;
    if t in h.leaderLog { MajorityNamesLeader(h, |c.nodes|, s, t, q); }
  }

  /** The votes counted elect the candidate. */
  lemma CountElects(c: Cluster, s: nat, args: VoteArgs, voters: seq<nat>, results: seq<int>)
    requires Inv(c) && s < |c.nodes|
    requires VoteReq(args) in c.net && args.cand == s
    requires |voters| == |results| && Distinct(voters) && forall v | v in voters :: v < |c.nodes| && v != s
    requires forall i | 0 <= i < |voters| :: Heard(c.net, args, voters[i], results[i])
    requires Tally(results, 1, |c.nodes|) == Elected
    requires c.nodes[s].peer.currentTerm == args.term && c.nodes[s].peer.role == Candidate
    ensures args.term !in c.hist.leaderLog
    ensures var p := c.nodes[s].peer;
      Elects(c.hist, |c.nodes|, args.term, ElectionOf(c.hist, s, args.term, Counted(s, voters, results), p.logs), p.logs)
  {
    var h, n, p, t := c.hist, |c.nodes|, c.nodes[s].peer, args.term;
    var q := Counted(s, voters, results);
    var e := ElectionOf(h, s, t, q, p.logs);
    CountedQuorum(s, voters, results, n);
    assert e.voterLog.Keys == q;
    forall v | v in q
      ensures Vote(v, s, t, e.voterLog[v]) in h.votes && e.voterLog[v] != []
      ensures UpToDate(LastTerm(p.logs), |p.logs| - 1, e.voterLog[v], 0)
    {
      if v != s { CountedVoted(c, s, args, voters, results, v); }
    }
    TermUnled(c, s, q);
  }

  lemma ElectedInv(c: Cluster, s: nat, args: VoteArgs, voters: seq<nat>, results: seq<int>)
    requires Inv(c) && s < |c.nodes|
    requires VoteReq(args) in c.net && args.cand == s
    requires |voters| == |results| && Distinct(voters) && forall v | v in voters :: v < |c.nodes| && v != s
    requires forall i | 0 <= i < |voters| :: Heard(c.net, args, voters[i], results[i])
    requires Tally(results, 1, |c.nodes|) == Elected
    requires c.nodes[s].peer.currentTerm == args.term && c.nodes[s].peer.role == Candidate
    ensures var p := c.nodes[s].peer;
      Kept(c, Put(c, s, Node(TakeOffice(p, args), args.term, false), {},
              WithLeader(c.hist, args.term,
                         ElectionOf(c.hist, s, args.term, Counted(s, voters, results), p.logs), p.logs)))
  {
    var p := c.nodes[s].peer;
    var e := ElectionOf(c.hist, s, args.term, Counted(s, voters, results), p.logs);
    CountElects(c, s, args, voters, results);
    LeaderAdded(c.hist, |c.nodes|, args.term, e, p.logs);
    OfficeTaken(c, s, args, e);
  }

  lemma OfficeTaken(c: Cluster, s: nat, args: VoteArgs, e: Election)
    requires Inv(c) && s < |c.nodes| && VoteReq(args) in c.net && args.cand == s
    requires c.nodes[s].peer.currentTerm == args.term && c.nodes[s].peer.role == Candidate
    requires args.term !in c.hist.leaderLog && e.leader == s && e.base == |c.nodes[s].peer.logs|
    requires var h' := WithLeader(c.hist, args.term, e, c.nodes[s].peer.logs); Extends(c.hist, h') && HistOk(h', |c.nodes|)
    ensures var p := c.nodes[s].peer;
      Kept(c, Put(c, s, Node(TakeOffice(p, args), args.term, false), {}, WithLeader(c.hist, args.term, e, p.logs)))
  {
    var h, n, p, t := c.hist, |c.nodes|, c.nodes[s].peer, args.term;
    var h' := WithLeader(h, t, e, p.logs);
    var node' := Node(TakeOffice(p, args), t, false);
    BaseGrows(h, h', n, s, p);
    NodeAcksGrow(h, h', s, p);
    NewLeaderOk(h', n, s, node', p);
    assert c.net + {} == c.net;
    InvKept(c, s, node', {}, h');
  }

  lemma NewLeaderOk(h: Hist, n: nat, s: nat, node: Node, p: Peer)
    requires BaseOk(h, n, s, p) && NodeVotes(h, s, p) && NodeAcks(h, s, p) && p.currentTerm > 0
    requires p.currentTerm in h.leaderLog && h.leaderLog[p.currentTerm] == p.logs
    requires p.currentTerm in h.elections && h.elections[p.currentTerm].leader == s
    requires |node.peer.nextIndex| == |node.peer.matchIndex| == n
    requires node == Node(p.(role := Leader, nextIndex := node.peer.nextIndex, matchIndex := node.peer.matchIndex,
                             newOp := 0), p.currentTerm, false)
    requires forall d | 0 <= d < n :: node.peer.nextIndex[d] == |p.logs| && node.peer.matchIndex[d] == 1
    ensures NodeOk(h, n, s, node)
  {
    forall a | a in h.acks && a.peer == s ensures AckNodeOk(h, a, node.peer) {
      assert AckNodeOk(h, a, p);
    }
  }

  lemma CountInv(c: Cluster, c': Cluster, s: nat, args: VoteArgs, voters: seq<nat>, results: seq<int>)
    requires Inv(c) && s < |c.nodes| && CountStep(c, c', s, args, voters, results)
    ensures Kept(c, c')
  {
    var p := c.nodes[s].peer;
    match Tally(results, 1, |c.nodes|)
    case Lost =>
    case Deposed(t) =>
      if t > p.currentTerm { DeposeInv(c, s, t); }
    case Elected =>
      if p.currentTerm == args.term && p.role == Candidate {
        ElectedInv(c, s, args, voters, results);
      }
  }
}
