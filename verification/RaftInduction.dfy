/** The frame of the inductive proof: what a step of one node leaves true of the
    other nodes, of the messages and of the history. */
module RaftInduction {
  import opened RaftPeer
  import opened RaftHistory
  import opened RaftGrowth
  import opened RaftCluster

  /** Whatever is new in the history is the doing of node `s`. */
  ghost predicate OnlyBy(h: Hist, h': Hist, s: nat) {
    && (forall v | v in h'.votes - h.votes :: v.voter == s)
    && (forall a | a in h'.acks - h.acks :: a.peer == s)
    && (forall t | t in h'.elections && t !in h.elections :: h'.elections[t].leader == s)
    && (forall t | t in h.leaderLog && t in h'.leaderLog && h'.leaderLog[t] != h.leaderLog[t] ::
          t in h.elections && h.elections[t].leader == s)
  }

  lemma AckNodeGrows(h: Hist, h': Hist, a: Ack, p: Peer)
    requires Extends(h, h') && LeaderLogsOk(h) && AckOk(h, a) && AckNodeOk(h, a, p)
    ensures AckNodeOk(h', a, p)
  {
    if !Holds(h, a, p.logs) { OverriddenGrows(h, h', a, p.currentTerm); }
  }

  lemma NodeAcksGrow(h: Hist, h': Hist, i: nat, p: Peer)
    requires Extends(h, h') && LeaderLogsOk(h) && AcksOk(h) && NodeAcks(h, i, p)
    requires forall a | a in h'.acks - h.acks :: a.peer != i
    ensures NodeAcks(h', i, p)
  {
    forall a | a in h'.acks && a.peer == i ensures AckNodeOk(h', a, p) {
      assert AckOk(h, a) && AckNodeOk(h, a, p);
      AckNodeGrows(h, h', a, p);
    }
  }

  lemma BaseGrows(h: Hist, h': Hist, n: nat, i: nat, p: Peer)
    requires Extends(h, h') && BaseOk(h, n, i, p)
    ensures BaseOk(h', n, i, p)
  {
    LogOkGrows(h, h', p.logs);
    CommitOkGrows(h, h', n, p.logs, p.commitIndex, p.currentTerm, p.currentTerm);
  }

  lemma LeaderGrows(h: Hist, h': Hist, n: nat, i: nat, node: Node)
    requires Extends(h, h') && |node.peer.nextIndex| == |node.peer.matchIndex| == n && LeaderOk(h, n, i, node)
    requires h'.leaderLog[node.peer.currentTerm] == h.leaderLog[node.peer.currentTerm]
    ensures LeaderOk(h', n, i, node)
  {
    forall d | 0 <= d < n && d != i ensures FollowerIndexOk(h', node.peer, d) {
      assert FollowerIndexOk(h, node.peer, d);
    }
  }

  /** A node that did not step keeps its invariant. */
  lemma NodeGrows(h: Hist, h': Hist, n: nat, i: nat, node: Node, s: nat)
    requires Extends(h, h') && LeaderLogsOk(h) && AcksOk(h) && OnlyBy(h, h', s) && i != s
    requires NodeOk(h, n, i, node)
    ensures NodeOk(h', n, i, node)
  {
    BaseGrows(h, h', n, i, node.peer);
    NodeAcksGrow(h, h', i, node.peer);
    if node.peer.role == Leader { LeaderGrows(h, h', n, i, node); }
  }

  /** A longer leader log commits what the shorter one did. */
  lemma LongerCommitOk(h: Hist, n: nat, log: Log, log': Log, c: nat, upTo: nat)
    requires CommitOk(h, n, log, c, upTo) && Agree(log, log', c)
    ensures CommitOk(h, n, log', c, upTo)
  {
    if c > 1 {
      var t: nat, k: nat :| t <= upTo && Covers(h, n, t, k, log, c);
      assert Covers(h, n, t, k, log', c);
    }
  }

  lemma AppendGrows(h: Hist, h': Hist, n: nat, src: nat, dst: nat, a: AppendArgs)
    requires Extends(h, h') && AppendOk(h, n, src, dst, a)
    ensures AppendOk(h', n, src, dst, a)
  {
    var log, log' := h.leaderLog[a.term], h'.leaderLog[a.term];
    CommitOkGrows(h, h', n, log, a.leaderCommit, a.term, a.term);
    LongerCommitOk(h', n, log, log', a.leaderCommit, a.term);
  }

  lemma MsgGrows(h: Hist, h': Hist, n: nat, net: set<Msg>, net': set<Msg>, m: Msg)
    requires Extends(h, h') && net <= net' && MsgOk(h, n, net, m)
    ensures MsgOk(h', n, net', m)
  {
    match m
    case AppendReq(src, dst, a) => AppendGrows(h, h', n, src, dst, a);
    case VoteRep(args, voter, reply) =>
      if reply.granted {
        var log :| Vote(voter, args.cand, args.term, log) in h.votes;
        assert Vote(voter, args.cand, args.term, log) in h'.votes;
      }
    case _ =>
  }

  lemma VoteStaysAsked(net: set<Msg>, net': set<Msg>, v: Vote)
    requires net <= net' && VoteAsked(net, v)
    ensures VoteAsked(net', v)
  {
  }

  /** What is left to show of a step that changes node `s` only. */
  ghost predicate Obligations(c: Cluster, s: nat, node': Node, msgs: set<Msg>, h': Hist) {
    var n, net' := |c.nodes|, c.net + msgs;
    && Extends(c.hist, h') && HistOk(h', n) && OnlyBy(c.hist, h', s)
    && NodeOk(h', n, s, node') && RequestsOk(net', s, node'.peer)
    && (forall m | m in msgs :: MsgOk(h', n, net', m) && (m.VoteReq? ==> m.args.cand == s))
    && (forall v | v in h'.votes - c.hist.votes :: VoteAsked(net', v))
    && RequestsUnique(net')
    && (forall r | r in h'.applied - c.hist.applied :: AppliedOk(h', n, r))
  }

  lemma NetKept(c: Cluster, s: nat, node': Node, msgs: set<Msg>, h': Hist)
    requires Inv(c) && s < |c.nodes| && Obligations(c, s, node', msgs, h')
    ensures NetOk(Put(c, s, node', msgs, h'))
  {
    var c' := Put(c, s, node', msgs, h');
    forall m | m in c'.net ensures MsgOk(h', |c'.nodes|, c'.net, m) {
      if m in c.net {
        assert MsgOk(c.hist, |c.nodes|, c.net, m);
        MsgGrows(c.hist, h', |c.nodes|, c.net, c'.net, m);
      }
    }
    forall v | v in h'.votes ensures VoteAsked(c'.net, v) {
      if v in c.hist.votes {
        assert VoteAsked(c.net, v);
        VoteStaysAsked(c.net, c'.net, v);
      }
    }
  }

  /** A step keeps the invariant and only adds to the history. */
  ghost predicate Kept(c: Cluster, c': Cluster) {
    Inv(c') && Extends(c.hist, c'.hist) && |c'.nodes| == |c.nodes|
  }

  lemma InvKept(c: Cluster, s: nat, node': Node, msgs: set<Msg>, h': Hist)
    requires Inv(c) && s < |c.nodes| && Obligations(c, s, node', msgs, h')
    ensures Kept(c, Put(c, s, node', msgs, h'))
  {
    var c' := Put(c, s, node', msgs, h');
    NetKept(c, s, node', msgs, h');
    forall i | 0 <= i < |c'.nodes| ensures NodeOk(h', |c'.nodes|, i, c'.nodes[i]) && RequestsOk(c'.net, i, c'.nodes[i].peer) {
      if i != s {
        assert c'.nodes[i] == c.nodes[i];
        NodeGrows(c.hist, h', |c.nodes|, i, c.nodes[i], s);
      }
    }
    forall r | r in h'.applied ensures AppliedOk(h', |c'.nodes|, r) {
      if r in c.hist.applied { AppliedOkGrows(c.hist, h', |c.nodes|, r); }
    }
  }

  lemma ExtendsReflexive(h: Hist)
    ensures Extends(h, h)
  {
  }

  lemma RequestsStay(net: set<Msg>, s: nat, p: Peer, p': Peer)
    requires RequestsOk(net, s, p) && p'.logs != [] && p'.currentTerm >= p.currentTerm
    requires p'.role == Candidate ==> p.role == Candidate && p'.currentTerm == p.currentTerm && p'.logs == p.logs
    ensures RequestsOk(net, s, p')
  {
  }

  /** A step that leaves history alone and asks for no votes. */
  lemma NodeOnly(c: Cluster, s: nat, node': Node, msgs: set<Msg>)
    requires Inv(c) && s < |c.nodes| && NodeOk(c.hist, |c.nodes|, s, node') && RequestsOk(c.net, s, node'.peer)
    requires forall m | m in msgs :: !m.VoteReq? && MsgOk(c.hist, |c.nodes|, c.net + msgs, m)
    ensures Kept(c, Put(c, s, node', msgs, c.hist))
  {
    ExtendsReflexive(c.hist);
    InvKept(c, s, node', msgs, c.hist);
  }

  lemma InitInv(c: Cluster)
    requires Init(c)
    ensures Inv(c)
  {
  }
}
