/** What a peer with a compacted log does, seen on its whole log: the moves of a cluster
    that the steps of an uncompacted peer do not make. Each keeps the invariant. */
module RaftWholeLog {
  import opened RaftPeer
  import opened RaftHistory
  import opened RaftCluster
  import opened RaftInduction
  import opened RaftLogSteps

  /** The request that a snapshot of the first `len` entries stands for. */
  ghost function PrefixArgs(p: Peer, len: nat): AppendArgs
    requires 1 <= len <= |p.logs|
  {
    AppendArgs(p.currentTerm, p.logs[0].term, 0, p.logs[1..len], len)
  }

  lemma ShorterCommitOk(h: Hist, n: nat, log: Log, c: nat, c': nat, upTo: nat)
    requires CommitOk(h, n, log, c, upTo) && 1 <= c' <= c
    ensures CommitOk(h, n, log, c', upTo)
  {
    if c' > 1 {
      var t: nat, k: nat :| t <= upTo && Covers(h, n, t, k, log, c);
      assert Covers(h, n, t, k, log, c');
    }
  }

  ghost predicate Working(node: Node) {
    node.workTerm > 0 && node.workTerm == node.peer.currentTerm
  }

  /** A leader moves the next index of a peer to any place in its log. */
  lemma RewindNode(h: Hist, n: nat, s: nat, node: Node, dst: nat, m: nat)
    requires NodeOk(h, n, s, node) && Working(node) && dst < n && dst != s && 1 <= m <= |node.peer.logs|
    ensures var p := node.peer; NodeOk(h, n, s, node.(peer := p.(nextIndex := p.nextIndex[dst := m])))
  {
    var p := node.peer;
    var p' := p.(nextIndex := p.nextIndex[dst := m]);
    assert FollowerIndexOk(h, p, dst);
    IndicesKeepNode(h, n, s, node, p', dst);
  }

  lemma RewindInv(c: Cluster, s: nat, dst: nat, m: nat)
    requires Inv(c) && s < |c.nodes| && dst < |c.nodes| && dst != s
    requires Working(c.nodes[s]) && 1 <= m <= |c.nodes[s].peer.logs|
    requires NodeOk(c.hist, |c.nodes|, s, c.nodes[s])
    ensures var p := c.nodes[s].peer;
      Kept(c, Put(c, s, c.nodes[s].(peer := p.(nextIndex := p.nextIndex[dst := m])), {}, c.hist))
  {
    var node := c.nodes[s];
    var p' := node.peer.(nextIndex := node.peer.nextIndex[dst := m]);
    RewindNode(c.hist, |c.nodes|, s, node, dst, m);
    RequestsStay(c.net, s, node.peer, p');
    NodeOnly(c, s, node.(peer := p'), {});
  }

  /** A leader sends a committed prefix of its log, and no more. */
  lemma SendPrefixInv(c: Cluster, s: nat, dst: nat, len: nat)
    requires Inv(c) && s < |c.nodes| && dst < |c.nodes| && dst != s && NodeOk(c.hist, |c.nodes|, s, c.nodes[s])
    requires Working(c.nodes[s]) && 1 <= len <= c.nodes[s].peer.commitIndex <= |c.nodes[s].peer.logs|
    ensures var p := c.nodes[s].peer;
      Kept(c, Put(c, s, c.nodes[s].(peer := p.(nextIndex := p.nextIndex[dst := len])),
                  {AppendReq(s, dst, PrefixArgs(p, len))}, c.hist))
  {
    var h, n, node := c.hist, |c.nodes|, c.nodes[s];
    var p := node.peer;
    var p', a := p.(nextIndex := p.nextIndex[dst := len]), PrefixArgs(p, len);
    RewindNode(h, n, s, node, dst, len);
    ShorterCommitOk(h, n, p.logs, p.commitIndex, len, p.currentTerm);
    assert AppendOk(h, n, s, dst, a);
    RequestsStay(c.net, s, p, p');
    NodeOnly(c, s, node.(peer := p'), {AppendReq(s, dst, a)});
  }

  /** A leader raises the match index of a peer to what an accepted request carried. */
  lemma RaiseNode(h: Hist, n: nat, net: set<Msg>, s: nat, node: Node, dst: nat, a: AppendArgs, reply: AppendReply)
    requires HistOk(h, n) && NodeOk(h, n, s, node) && dst < n && node.workTerm == a.term == node.peer.currentTerm && reply.success
    requires MsgOk(h, n, net, AppendRep(s, dst, a, reply)) && MsgOk(h, n, net, AppendReq(s, dst, a))
    ensures var p := node.peer;
      NodeOk(h, n, s, node.(peer := p.(matchIndex := p.matchIndex[dst := a.prevIndex + 1 + |a.entries|]))) && p.role == Leader
  {
    var p := node.peer;
    var p' := p.(matchIndex := p.matchIndex[dst := a.prevIndex + 1 + |a.entries|]);
    assert LeaderLogOk(h, a.term) && FollowerIndexOk(h, p, dst);
    IndicesKeepNode(h, n, s, node, p', dst);
  }

  lemma RaiseMatchInv(c: Cluster, s: nat, dst: nat, a: AppendArgs, reply: AppendReply)
    requires Inv(c) && s < |c.nodes| && dst < |c.nodes| && NodeOk(c.hist, |c.nodes|, s, c.nodes[s])
    requires AppendRep(s, dst, a, reply) in c.net && reply.success
    requires c.nodes[s].workTerm == a.term == c.nodes[s].peer.currentTerm
    ensures var p, len := c.nodes[s].peer, a.prevIndex + 1 + |a.entries|;
      Kept(c, Put(c, s, c.nodes[s].(peer := p.(matchIndex := p.matchIndex[dst := len])), {}, c.hist))
  {
    var node, len := c.nodes[s], a.prevIndex + 1 + |a.entries|;
    assert MsgOk(c.hist, |c.nodes|, c.net, AppendRep(s, dst, a, reply));
    assert MsgOk(c.hist, |c.nodes|, c.net, AppendReq(s, dst, a));
    RaiseNode(c.hist, |c.nodes|, c.net, s, node, dst, a, reply);
    var p' := node.peer.(matchIndex := node.peer.matchIndex[dst := len]);
    RequestsStay(c.net, s, node.peer, p');
    NodeOnly(c, s, node.(peer := p'), {});
  }

  /** The marks of a peer move to `mark`, within what is committed. */
  lemma MarksNode(h: Hist, n: nat, s: nat, node: Node, commit: nat, mark: nat)
    requires NodeOk(h, n, s, node) && 1 <= mark <= commit <= node.peer.commitIndex
    requires node.peer.role == Leader ==> commit == node.peer.commitIndex
    ensures NodeOk(h, n, s, node.(peer := node.peer.(commitIndex := commit, lastApplied := mark)))
  {
    var p := node.peer;
    var p' := p.(commitIndex := commit, lastApplied := mark);
    ShorterCommitOk(h, n, p.logs, p.commitIndex, commit, p.currentTerm);
    forall k | k in h.acks && k.peer == s ensures AckNodeOk(h, k, p') { assert AckNodeOk(h, k, p); }
    if p.role == Leader {
      forall d | 0 <= d < n && d != s ensures FollowerIndexOk(h, p', d) { assert FollowerIndexOk(h, p, d); }
    }
  }

  /** What an installed snapshot covers counts as applied. */
  lemma SkipInv(c: Cluster, s: nat, mark: nat)
    requires Inv(c) && s < |c.nodes| && NodeOk(c.hist, |c.nodes|, s, c.nodes[s])
    requires 1 <= mark <= c.nodes[s].peer.commitIndex
    ensures Kept(c, Put(c, s, c.nodes[s].(peer := c.nodes[s].peer.(lastApplied := mark)), {}, c.hist))
  {
    var node := c.nodes[s];
    var p' := node.peer.(lastApplied := mark);
    MarksNode(c.hist, |c.nodes|, s, node, node.peer.commitIndex, mark);
    assert p' == node.peer.(commitIndex := node.peer.commitIndex, lastApplied := mark);
    RequestsStay(c.net, s, node.peer, p');
    NodeOnly(c, s, node.(peer := p'), {});
  }

  /** A restart that begins past a snapshot. */
  lemma RebootAtInv(c: Cluster, s: nat, mark: nat)
    requires Inv(c) && s < |c.nodes| && NodeOk(c.hist, |c.nodes|, s, c.nodes[s])
    requires 1 <= mark <= c.nodes[s].peer.commitIndex
    ensures Kept(c, Put(c, s, Node(Restart(c.nodes[s].peer, |c.nodes|).(commitIndex := mark, lastApplied := mark), 0, false), {}, c.hist))
  {
    var h, n, node := c.hist, |c.nodes|, c.nodes[s];
    var q := Restart(node.peer, n).(commitIndex := node.peer.commitIndex, lastApplied := node.peer.lastApplied);
    var p' := Restart(node.peer, n).(commitIndex := mark, lastApplied := mark);
    forall k | k in h.acks && k.peer == s ensures AckNodeOk(h, k, q) { assert AckNodeOk(h, k, node.peer); }
    assert NodeOk(h, n, s, Node(q, 0, false));
    MarksNode(h, n, s, Node(q, 0, false), mark, mark);
    RequestsStay(c.net, s, node.peer, p');
    NodeOnly(c, s, Node(p', 0, false), {});
  }
}
