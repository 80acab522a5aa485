/** The reachable states of a cluster with compaction: how some servers alone can take the cluster
    from one to the next, and what holds in each of them. */
module RaftReachable {
  import opened RaftPeer
  import opened RaftHistory
  import opened RaftGrowth
  import C = RaftCluster
  import opened RaftLogSteps
  import opened RaftCompaction
  import opened RaftSimulation
  import opened RaftSnapshotSafety
  import K = RaftSnapshots

  ghost predicate Reachable(k: K.System) {
    exists run :: K.Run(run) && run[|run| - 1] == k
  }

  /** A server in `q` takes a step. */
  ghost predicate NextIn(q: set<nat>, k: K.System, k': K.System) {
    exists step :: K.StepOk(k, k', step) && step.s in q
  }

  ghost predicate StepIn(path: seq<K.System>, q: set<nat>, i: nat) {
    i + 1 < |path| ==> NextIn(q, path[i], path[i + 1])
  }

  ghost predicate Path(path: seq<K.System>, q: set<nat>) {
    path != [] && forall i: nat {:trigger StepIn(path, q, i)} :: StepIn(path, q, i)
  }

  /** The servers in `q` can take the cluster from `k` to `k'` while all others do nothing. */
  ghost predicate Leads(q: set<nat>, k: K.System, k': K.System) {
    exists path :: Path(path, q) && path[0] == k && path[|path| - 1] == k'
  }

  lemma LeadsSelf(q: set<nat>, k: K.System)
    ensures Leads(q, k, k)
  {
    assert Path([k], q);
  }

  lemma LeadsBy(q: set<nat>, k: K.System, k': K.System, step: K.Step)
    requires Reachable(k) && K.StepOk(k, k', step) && step.s in q
    ensures Leads(q, k, k') && Reachable(k')
  {
    var path := [k, k'];
    assert NextIn(q, k, k');
    assert StepIn(path, q, 0);
    assert Path(path, q);
    LeadsReach(q, k, k');
  }

  lemma LeadsOn(q: set<nat>, a: K.System, b: K.System, c: K.System)
    requires Leads(q, a, b) && Leads(q, b, c)
    ensures Leads(q, a, c)
  {
    var p :| Path(p, q) && p[0] == a && p[|p| - 1] == b;
    var r :| Path(r, q) && r[0] == b && r[|r| - 1] == c;
    var path := p + r[1..];
    forall i: nat ensures StepIn(path, q, i) { StepOn(q, p, r, i); }
    assert path[|path| - 1] == c;
  }

  lemma StepOn(q: set<nat>, p: seq<K.System>, r: seq<K.System>, i: nat)
    requires Path(p, q) && Path(r, q) && r[0] == p[|p| - 1]
    ensures StepIn(p + r[1..], q, i)
  {
    var path := p + r[1..];
    if i + 1 < |p| {
      assert StepIn(p, q, i);
      assert path[i] == p[i] && path[i + 1] == p[i + 1];
    } else if i + 1 < |path| {
      assert StepIn(r, q, i + 1 - |p|);
      assert path[i] == r[i + 1 - |p|] && path[i + 1] == r[i + 2 - |p|];
    }
  }

  lemma LeadsReach(q: set<nat>, k: K.System, k': K.System)
    requires Reachable(k) && Leads(q, k, k')
    ensures Reachable(k')
  {
    var run :| K.Run(run) && run[|run| - 1] == k;
    var path :| Path(path, q) && path[0] == k && path[|path| - 1] == k';
    var longer := run + path[1..];
    forall i: nat ensures K.Linked(longer, i) { LinkedOn(run, path, q, i); }
    assert K.Run(longer) && longer[|longer| - 1] == k';
  }

  lemma NextInIsNext(q: set<nat>, k: K.System, k': K.System)
    requires NextIn(q, k, k')
    ensures K.Next(k, k')
  {
  }

  lemma LinkedOn(run: seq<K.System>, path: seq<K.System>, q: set<nat>, i: nat)
    requires run != [] && (forall j: nat {:trigger K.Linked(run, j)} :: K.Linked(run, j)) && Path(path, q) && path[0] == run[|run| - 1]
    ensures K.Linked(run + path[1..], i)
  {
    var longer := run + path[1..];
    if i + 1 < |run| {
      assert K.Linked(run, i);
      assert longer[i] == run[i] && longer[i + 1] == run[i + 1];
    } else if i + 1 < |longer| {
      assert StepIn(path, q, i + 1 - |run|);
      NextInIsNext(q, path[i + 1 - |run|], path[i + 2 - |run|]);
      assert longer[i] == path[i + 1 - |run|] && longer[i + 1] == path[i + 2 - |run|];
    }
  }

  // ------------------------------------------------- what holds in each of them

  lemma Counterpart(k: K.System) returns (c: C.Cluster)
    requires Reachable(k)
    ensures Sim(k, c)
  {
    var run :| K.Run(run) && run[|run| - 1] == k;
    c := CounterpartAt(run, |run| - 1);
  }

  lemma CounterpartAt(run: seq<K.System>, i: nat) returns (c: C.Cluster)
    requires K.Run(run) && i < |run|
    ensures Sim(run[i], c)
  {
    var _, d := Counterparts(run, i, i);
    c := d;
  }

  lemma HostFacts(k: K.System, s: nat)
    requires Reachable(k) && s < |k.hosts|
    ensures var h := k.hosts[s];
      && K.Ready(h, |k.hosts|) && h.peer.me == s && h.workTerm <= h.peer.currentTerm
      && (h.peer.role == Leader <==> h.workTerm == h.peer.currentTerm && h.workTerm > 0)
  {
    var c := Counterpart(k);
    HostReady(k, c, s);
  }

  lemma NextInRange(k: K.System, s: nat, d: nat)
    requires Reachable(k) && s < |k.hosts| && d < |k.hosts| && d != s && k.hosts[s].peer.role == Leader
    ensures K.Ready(k.hosts[s], |k.hosts|) && 1 <= k.hosts[s].peer.nextIndex[d] <= End(k.hosts[s].peer)
  {
    var run :| K.Run(run) && run[|run| - 1] == k;
    HostFacts(k, s);
    AlwaysReady(run, |run| - 1, s, d);
  }

  /** Whoever is not past a leader's term has committed nothing that the leader lacks. */
  lemma CommitBound(k: K.System, s: nat, v: nat)
    requires Reachable(k) && s < |k.hosts| && v < |k.hosts| && k.hosts[s].peer.role == Leader
    requires k.hosts[v].peer.currentTerm <= k.hosts[s].peer.currentTerm
    ensures k.hosts[v].peer.commitIndex <= End(k.hosts[s].peer)
  {
    var c := Counterpart(k);
    HostReady(k, c, s);
    HostReady(k, c, v);
    var p := c.nodes[v].peer;
    LeaderHolds(c.hist, |c.nodes|, p.logs, p.commitIndex, p.currentTerm, k.hosts[s].peer.currentTerm);
  }

  /** An answer to a leader's current call is inside its log, and a reject lowers the next index. */
  lemma AnswerHeard(k: K.System, s: nat, d: nat, a: AppendArgs, r: AppendReply)
    requires Reachable(k) && s < |k.hosts| && d < |k.hosts| && K.Plain(C.AppendRep(s, d, a, r)) in k.net
    requires k.hosts[s].workTerm == a.term == k.hosts[s].peer.currentTerm
    ensures K.Ready(k.hosts[s], |k.hosts|) && r.xIndex <= End(k.hosts[s].peer)
    ensures var p := k.hosts[s].peer;
      p.startIndex < p.nextIndex[d] == a.prevIndex + 1 && !r.success && r.term <= a.term ==>
        1 <= OnAppendReply(p, d, a, r).0.nextIndex[d] < p.nextIndex[d]
  {
    var run :| K.Run(run) && run[|run| - 1] == k;
    HostFacts(k, s);
    AnswersInRange(run, |run| - 1, s, d, a, r);
    if k.hosts[s].peer.nextIndex[d] == a.prevIndex + 1 && !r.success && r.term <= a.term {
      RejectLowersOrSnapshots(run, |run| - 1, s, d, a, r);
    }
  }

  /** A peer in the leader's term that is known to hold an entry holds the leader's entry. */
  lemma MatchedHolds(k: K.System, s: nat, v: nat, x: nat)
    requires Reachable(k) && s < |k.hosts| && v < |k.hosts| && s != v && k.hosts[s].peer.role == Leader
    requires k.hosts[v].peer.currentTerm == k.hosts[s].peer.currentTerm
    requires |k.hosts[s].peer.matchIndex| == |k.hosts| && 1 <= x < k.hosts[s].peer.matchIndex[v]
    ensures var p, q := k.hosts[s].peer, k.hosts[v].peer;
      && x < End(p) && x < End(q)
      && (p.startIndex < x && q.startIndex < x ==> q.logs[x - q.startIndex] == p.logs[x - p.startIndex])
  {
    var p, q := MatchedPair(k, s, v, x);
    KeptAlike(k.hosts[s].peer, p, x);
    KeptAlike(k.hosts[v].peer, q, x);
  }

  lemma MatchedPair(k: K.System, s: nat, v: nat, x: nat) returns (p: Peer, q: Peer)
    requires Reachable(k) && s < |k.hosts| && v < |k.hosts| && s != v && k.hosts[s].peer.role == Leader
    requires k.hosts[v].peer.currentTerm == k.hosts[s].peer.currentTerm
    requires |k.hosts[s].peer.matchIndex| == |k.hosts| && 1 <= x < k.hosts[s].peer.matchIndex[v]
    ensures Refines(k.hosts[s].peer, p) && Refines(k.hosts[v].peer, q) && x < |p.logs| && x < |q.logs| && p.logs[x] == q.logs[x]
  {
    var c := Counterpart(k);
    HostReady(k, c, s);
    HostReady(k, c, v);
    p, q := c.nodes[s].peer, c.nodes[v].peer;
    MatchedHoldsWhole(c, s, v, x);
  }

  lemma KeptAlike(p: Peer, q: Peer, x: nat)
    requires Refines(p, q)
    ensures End(p) == |q.logs| && (p.startIndex < x < End(p) ==> p.logs[x - p.startIndex] == q.logs[x])
  {
  }

  lemma MatchedHoldsWhole(c: C.Cluster, s: nat, v: nat, x: nat)
    requires C.Inv(c) && s < |c.nodes| && v < |c.nodes| && s != v && c.nodes[s].peer.role == Leader
    requires c.nodes[v].peer.currentTerm == c.nodes[s].peer.currentTerm
    requires |c.nodes[s].peer.matchIndex| == |c.nodes| && 1 <= x < c.nodes[s].peer.matchIndex[v]
    ensures var p, q := c.nodes[s].peer.logs, c.nodes[v].peer.logs; x < |p| && x < |q| && p[x] == q[x]
  {
    var t := c.nodes[s].peer.currentTerm;
    assert C.NodeOk(c.hist, |c.nodes|, s, c.nodes[s]);
    assert C.NodeOk(c.hist, |c.nodes|, v, c.nodes[v]);
    assert C.FollowerIndexOk(c.hist, c.nodes[s].peer, v);
    var a := Ack(v, t, x + 1);
    assert a in AcksUpTo(v, t, c.nodes[s].peer.matchIndex[v]);
    assert C.AckNodeOk(c.hist, a, c.nodes[v].peer);
  }

  /** A request from a leader in whose term the receiver is, at an index that the receiver has
      committed, is accepted. */
  lemma CommittedAccepts(k: K.System, s: nat, v: nat, a: AppendArgs)
    requires Reachable(k) && v < |k.hosts| && K.Plain(C.AppendReq(s, v, a)) in k.net && a.term == k.hosts[v].peer.currentTerm
    requires a.prevIndex < k.hosts[v].peer.commitIndex
    ensures k.hosts[v].peer.logs != [] && AppendEntries(k.hosts[v].peer, a).1.success
  {
    var c := Counterpart(k);
    HostReady(k, c, v);
    RequestInFlight(k, c, v, s, a);
    FitAccepts(k.hosts[v].peer, c.nodes[v].peer, c.hist.leaderLog[a.term], a);
  }

  lemma FitAccepts(p: Peer, q: Peer, leader: Log, a: AppendArgs)
    requires Refines(p, q) && Fits(q, leader) && FromLeader(leader, a) && a.term >= p.currentTerm && a.prevIndex < q.commitIndex
    ensures AppendEntries(p, a).1.success
  {
    if a.prevIndex >= p.startIndex {
      assert p.logs[a.prevIndex - p.startIndex].term == q.logs[a.prevIndex].term == leader[a.prevIndex].term;
    } else if p.startIndex - a.prevIndex < |a.entries| {
      assert a.entries[p.startIndex - a.prevIndex - 1] == leader[p.startIndex] == q.logs[p.startIndex];
    }
  }
}
