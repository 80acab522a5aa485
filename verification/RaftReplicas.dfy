/** The lock service over Raft, end to end: every server of the cluster feeds the commands it
    is handed on its apply channel to its lock tables. */
module RaftReplicas {
  import opened Session
  import opened LockTable
  import opened RaftPeer
  import C = RaftCluster
  import RaftSafety

  datatype Service = Service(cluster: C.Cluster, tables: seq<Tables>)

  function Commands(batch: seq<ApplyMsg>): seq<Payload> {
    if batch == [] then []
    else Commands(batch[..|batch| - 1]) + if batch[|batch| - 1].CommandMsg? then [batch[|batch| - 1].command] else []
  }

  /** An apply step delivers its batch; a restart begins with empty tables. */
  ghost predicate StepOk(c: Service, c': Service, step: C.Step) {
    && C.StepOk(c.cluster, c'.cluster, step) && step.s < |c.tables|
    && c'.tables == match step
       case Apply(s) => c.tables[s := ApplyAll(c.tables[s], Commands(TakeBatch(c.cluster.nodes[s].peer).1))]
       case Reboot(s) => c.tables[s := EMPTY]
       case _ => c.tables
  }

  ghost predicate Next(c: Service, c': Service) {
    exists step :: StepOk(c, c', step)
  }

  ghost predicate Linked(run: seq<Service>, i: nat) {
    i + 1 < |run| ==> Next(run[i], run[i + 1])
  }

  ghost predicate Run(run: seq<Service>) {
    && run != [] && C.Init(run[0].cluster) && run[0].tables == seq(|run[0].cluster.nodes|, _ => EMPTY)
    && forall i: nat {:trigger Linked(run, i)} :: Linked(run, i)
  }

  ghost function Clusters(run: seq<Service>): (r: seq<C.Cluster>)
    ensures |r| == |run| && forall i | 0 <= i < |r| :: r[i] == run[i].cluster
  {
    seq(|run|, i requires 0 <= i < |run| => run[i].cluster)
  }

  lemma Projects(run: seq<Service>)
    requires Run(run)
    ensures C.Run(Clusters(run))
  {
    var r := Clusters(run);
    forall i: nat ensures C.Linked(r, i) {
      assert Linked(run, i);
      if i + 1 < |r| {
        var step :| StepOk(run[i], run[i + 1], step);
        assert C.StepOk(r[i], r[i + 1], step);
      }
    }
  }

  /** The commands of a log from index 1 up to `k`. */
  ghost function Prefix(logs: seq<Entry>, k: nat): (log: seq<Payload>)
    requires k <= |logs|
    ensures |log| == if k == 0 then 0 else k - 1
    ensures forall i | 0 <= i < |log| :: log[i] == logs[i + 1].command
  {
    seq(if k == 0 then 0 else k - 1, i requires 0 <= i < k - 1 => logs[i + 1].command)
  }

  lemma {:induction false} AllCommands(batch: seq<ApplyMsg>)
    requires forall i | 0 <= i < |batch| :: batch[i].CommandMsg?
    ensures |Commands(batch)| == |batch| && forall i | 0 <= i < |batch| :: Commands(batch)[i] == batch[i].command
  {
    if batch != [] { AllCommands(batch[..|batch| - 1]); }
  }

  /** A batch is delivered in log order, from where the last one ended. */
  lemma BatchCommands(logs: seq<Entry>, lo: nat, hi: nat)
    requires 1 <= lo <= hi <= |logs|
    ensures Prefix(logs, lo) + Commands(Batch(logs, 0, lo, hi)) == Prefix(logs, hi)
  {
    AllCommands(Batch(logs, 0, lo, hi));
  }

  /** The tables of a server are those of the commands it has applied. */
  ghost predicate TablesOk(c: Service, s: nat) {
    && s < |c.tables| == |c.cluster.nodes|
    && var p := c.cluster.nodes[s].peer;
       && 1 <= p.lastApplied <= |p.logs| && c.tables[s] == ApplyAll(EMPTY, Prefix(p.logs, p.lastApplied))
  }

  lemma SamePrefix(a: seq<Entry>, b: seq<Entry>, k: nat)
    requires k <= |a| && k <= |b| && forall i | 0 <= i < k :: a[i] == b[i]
    ensures Prefix(a, k) == Prefix(b, k)
  {
  }

  /** What a server had committed before a step other than its restart is still in its log. */
  lemma PrefixStays(run: seq<Service>, i: nat, s: nat, step: C.Step)
    requires Run(run) && i + 1 < |run| && StepOk(run[i], run[i + 1], step)
    requires s < |run[i].cluster.nodes| && step != C.Reboot(s)
    ensures s < |run[i + 1].cluster.nodes|
    ensures var p, q := run[i].cluster.nodes[s].peer, run[i + 1].cluster.nodes[s].peer;
      p.lastApplied <= |p.logs| && p.lastApplied <= |q.logs| && Prefix(p.logs, p.lastApplied) == Prefix(q.logs, p.lastApplied)
  {
    Projects(run);
    var r := Clusters(run);
    RaftSafety.RunKeeps(r, i, i + 1);
    RaftSafety.CommitIndexMonotone(r[i], r[i + 1], step, s);
    RaftSafety.CommitWithinLeaderLog(r, i, s);
    RaftSafety.CommitWithinLeaderLog(r, i + 1, s);
    var p, q := r[i].nodes[s].peer, r[i + 1].nodes[s].peer;
    forall k | 0 <= k < p.lastApplied ensures p.logs[k] == q.logs[k] {
      RaftSafety.CommittedEntriesAgree(r, i, s, i + 1, s, k);
    }
    SamePrefix(p.logs, q.logs, p.lastApplied);
  }

  /** One step on the server itself: its applier, or its restart. */
  lemma OwnStep(c: Service, c': Service, s: nat, step: C.Step)
    requires C.Inv(c.cluster) && StepOk(c, c', step) && TablesOk(c, s) && (step == C.Apply(s) || step == C.Reboot(s))
    ensures TablesOk(c', s)
  {
    var p := c.cluster.nodes[s].peer;
    assert C.NodeOk(c.cluster.hist, |c.cluster.nodes|, s, c.cluster.nodes[s]);
    if step == C.Apply(s) && p.lastApplied < p.commitIndex {
      BatchCommands(p.logs, p.lastApplied, p.commitIndex);
      ApplyAppend(EMPTY, Prefix(p.logs, p.lastApplied), Commands(Batch(p.logs, 0, p.lastApplied, p.commitIndex)));
    } else if step == C.Apply(s) {
      assert Commands([]) == [];
    }
  }

  lemma OtherStep(run: seq<Service>, i: nat, s: nat, step: C.Step)
    requires Run(run) && i + 1 < |run| && StepOk(run[i], run[i + 1], step)
    requires TablesOk(run[i], s) && step != C.Apply(s) && step != C.Reboot(s)
    ensures TablesOk(run[i + 1], s)
  {
    RaftSafety.OthersStay(run[i].cluster, run[i + 1].cluster, step, s);
    if step.s == s { RaftSafety.AppliedStays(run[i].cluster, run[i + 1].cluster, step); }
    PrefixStays(run, i, s, step);
  }

  lemma StepTables(run: seq<Service>, i: nat, s: nat)
    requires Run(run) && i + 1 < |run| && TablesOk(run[i], s)
    ensures TablesOk(run[i + 1], s)
  {
    assert Linked(run, i);
    var step :| StepOk(run[i], run[i + 1], step);
    if step == C.Apply(s) || step == C.Reboot(s) {
      Projects(run);
      RaftSafety.RunInv(Clusters(run), i);
      OwnStep(run[i], run[i + 1], s, step);
    } else {
      OtherStep(run, i, s, step);
    }
  }

  lemma {:induction false} RunTables(run: seq<Service>, i: nat, s: nat)
    requires Run(run) && i < |run| && s < |run[0].cluster.nodes|
    ensures TablesOk(run[i], s)
  {
    if i > 0 {
      RunTables(run, i - 1, s);
      StepTables(run, i - 1, s);
    } else {
      assert run[0].cluster.nodes[s].peer == Fresh(s, |run[0].cluster.nodes|);
    }
  }

  /** Replica agreement: in every run, two servers that have applied the log up to the same
      index, at whatever points, hold the same files and sessions. */
  lemma TablesAgree(run: seq<Service>, i: nat, s: nat, j: nat, u: nat)
    requires Run(run) && i <= j < |run| && s < |run[i].cluster.nodes| && u < |run[j].cluster.nodes|
    requires run[i].cluster.nodes[s].peer.lastApplied == run[j].cluster.nodes[u].peer.lastApplied
    ensures s < |run[i].tables| && u < |run[j].tables| && run[i].tables[s] == run[j].tables[u]
  {
    Projects(run);
    var r := Clusters(run);
    RaftSafety.RunExtends(r, 0, i);
    RaftSafety.RunExtends(r, 0, j);
    RunTables(run, i, s);
    RunTables(run, j, u);
    RaftSafety.CommitWithinLeaderLog(r, i, s);
    RaftSafety.CommitWithinLeaderLog(r, j, u);
    var p, q := r[i].nodes[s].peer, r[j].nodes[u].peer;
    forall k | 0 <= k < p.lastApplied ensures p.logs[k] == q.logs[k] {
      RaftSafety.CommittedEntriesAgree(r, i, s, j, u, k);
    }
    SamePrefix(p.logs, q.logs, p.lastApplied);
  }
}
