/** What the appliers put on their channels, in every run of a cluster with snapshots:
    consecutive indices, no gap and no repeat, whatever interleaves with them. */
module RaftDelivery {
  import opened RaftPeer
  import K = RaftSnapshots

  /** Consecutive from `next`; a snapshot at `i` counts as delivering everything up to `i`. */
  ghost predicate GapFree(msgs: seq<ApplyMsg>, next: nat) {
    msgs == [] ||
    match msgs[0]
    case CommandMsg(_, i) => i == next && GapFree(msgs[1..], i + 1)
    case SnapshotMsg(_, _, i) => i >= next && GapFree(msgs[1..], i + 1)
  }

  /** The next index expected after `msgs`. */
  function Expected(msgs: seq<ApplyMsg>, next: nat): (e: nat) {
    if msgs == [] then next else Expected(msgs[1..], msgs[0].index + 1)
  }

  lemma {:induction false} GapFreeAppend(a: seq<ApplyMsg>, b: seq<ApplyMsg>, next: nat)
    requires GapFree(a, next) && GapFree(b, Expected(a, next))
    ensures GapFree(a + b, next) && Expected(a + b, next) == Expected(b, Expected(a, next))
  {
    if a == [] {
      assert a + b == b;
    } else {
      assert (a + b)[1..] == a[1..] + b;
      GapFreeAppend(a[1..], b, a[0].index + 1);
    }
  }

  lemma {:induction false} GapFreePrefix(a: seq<ApplyMsg>, b: seq<ApplyMsg>, next: nat)
    requires GapFree(a + b, next)
    ensures GapFree(a, next)
  {
    if a != [] {
      assert (a + b)[1..] == a[1..] + b;
      GapFreePrefix(a[1..], b, a[0].index + 1);
    }
  }

  lemma {:induction false} BatchGapFree(logs: seq<Entry>, start: nat, lo: nat, hi: nat)
    requires start <= lo <= hi <= start + |logs|
    ensures GapFree(Batch(logs, start, lo, hi), lo) && Expected(Batch(logs, start, lo, hi), lo) == hi
    decreases hi - lo
  {
    if lo < hi {
      BatchGapFree(logs, start, lo, hi - 1);
      GapFreeAppend(Batch(logs, start, lo, hi - 1), [CommandMsg(logs[hi - 1 - start].command, hi - 1)], lo);
    }
  }

  // ------------------------------------------------------------------ one host

  /** What was taken so far is gap-free and ends where the peer's applied mark stands, or, while
      an installed snapshot waits, no later than that snapshot. */
  ghost predicate PipeOk(h: K.Host) {
    var taken := h.sent + h.batch;
    && GapFree(taken, h.first)
    && if h.peer.snapshotApplying then Expected(taken, h.first) <= h.peer.startIndex && h.peer.lastApplied == h.peer.startIndex + 1
       else Expected(taken, h.first) == h.peer.lastApplied
  }

  /** The handlers that neither cut the log nor install a snapshot leave the marks alone. */
  ghost predicate SameMarks(p: Peer, q: Peer) {
    q.startIndex == p.startIndex && q.lastApplied == p.lastApplied && q.snapshotApplying == p.snapshotApplying
  }

  ghost predicate SamePipe(h: K.Host, h': K.Host) {
    h'.batch == h.batch && h'.sent == h.sent && h'.first == h.first && SameMarks(h.peer, h'.peer)
  }

  lemma AppendMarks(p: Peer, a: AppendArgs)
    requires p.logs != []
    ensures SameMarks(p, AppendEntries(p, a).0)
  {
  }

  lemma ElectionKeepsPipe(k: K.System, k': K.System, step: K.Step)
    requires K.StepOk(k, k', step) && (step.Stand? || step.Answer? || step.CountVotes? || step.Submit? || step.Advance?)
    ensures |k'.hosts| == |k.hosts| && SamePipe(k.hosts[step.s], k'.hosts[step.s])
  {
  }

  lemma ReplicationKeepsPipe(k: K.System, k': K.System, step: K.Step)
    requires K.StepOk(k, k', step) && (step.Send? || step.Receive? || step.Hear? || step.HearInstall?)
    ensures |k'.hosts| == |k.hosts| && SamePipe(k.hosts[step.s], k'.hosts[step.s])
  {
    if step.Receive? { AppendMarks(k.hosts[step.s].peer, step.append); }
  }

  /** Cutting the log below the applied mark. */
  lemma CompactKeepsPipe(h: K.Host, index: nat, data: seq<int>)
    requires PipeOk(h) && index < h.peer.lastApplied && index < End(h.peer)
    ensures PipeOk(h.(peer := Snapshot(h.peer, index, data)))
  {
  }

  /** Installing a snapshot at any moment, also with a batch on its way. */
  lemma InstallKeepsPipe(h: K.Host, a: SnapshotArgs)
    requires PipeOk(h) && h.peer.logs != [] && h.peer.startIndex < h.peer.lastApplied
    ensures PipeOk(h.(peer := InstallSnapshot(h.peer, a).0))
  {
  }

  lemma TakeCommittedKeepsPipe(h: K.Host)
    requires PipeOk(h) && h.batch == [] && !h.peer.snapshotApplying
    requires h.peer.startIndex < h.peer.lastApplied <= h.peer.commitIndex <= End(h.peer)
    ensures var (p, batch) := TakeBatch(h.peer); PipeOk(h.(peer := p, batch := batch))
  {
    var (p, batch) := TakeBatch(h.peer);
    assert h.sent + h.batch == h.sent;
    BatchGapFree(h.peer.logs, h.peer.startIndex, h.peer.lastApplied, h.peer.commitIndex);
    GapFreeAppend(h.sent, batch, h.first);
  }

  lemma TakeInstalledKeepsPipe(h: K.Host)
    requires PipeOk(h) && h.batch == [] && h.peer.snapshotApplying && h.peer.logs != []
    ensures var (p, msg) := TakeSnapshot(h.peer); PipeOk(h.(peer := p, batch := [msg]))
  {
    assert h.sent + h.batch == h.sent;
    GapFreeAppend(h.sent, [TakeSnapshot(h.peer).1], h.first);
  }

  lemma DeliverKeepsPipe(h: K.Host)
    requires PipeOk(h) && h.batch != []
    ensures PipeOk(h.(batch := h.batch[1..], sent := h.sent + [h.batch[0]]))
  {
    assert h.sent + [h.batch[0]] + h.batch[1..] == h.sent + h.batch;
  }

  lemma OwnKeepsPipe(k: K.System, k': K.System, step: K.Step)
    requires K.StepOk(k, k', step) && PipeOk(k.hosts[step.s])
    requires step.Compact? || step.Install? || step.TakeCommitted? || step.TakeInstalled? || step.Deliver? || step.Reboot?
    ensures |k'.hosts| == |k.hosts| && PipeOk(k'.hosts[step.s])
  {
    var h := k.hosts[step.s];
    match step
    case Compact(s, index, data) => CompactKeepsPipe(h, index, data);
    case Install(s, src, a) => InstallKeepsPipe(h, a);
    case TakeCommitted(s) => TakeCommittedKeepsPipe(h);
    case TakeInstalled(s) => TakeInstalledKeepsPipe(h);
    case Deliver(s) => DeliverKeepsPipe(h);
    case Reboot(s) =>
  }

  // --------------------------------------------------------------- whole runs

  lemma OtherHosts(k: K.System, k': K.System, step: K.Step, s: nat)
    requires K.StepOk(k, k', step) && s < |k.hosts| && s != step.s
    ensures |k'.hosts| == |k.hosts| && k'.hosts[s] == k.hosts[s]
  {
  }

  lemma NextKeepsPipe(k: K.System, k': K.System, s: nat)
    requires K.Next(k, k') && s < |k.hosts| && PipeOk(k.hosts[s])
    ensures |k'.hosts| == |k.hosts| && PipeOk(k'.hosts[s])
  {
    var step :| K.StepOk(k, k', step);
    if step.s != s {
      OtherHosts(k, k', step, s);
    } else if step.Stand? || step.Answer? || step.CountVotes? || step.Submit? || step.Advance? {
      ElectionKeepsPipe(k, k', step);
    } else if step.Send? || step.Receive? || step.Hear? || step.HearInstall? {
      ReplicationKeepsPipe(k, k', step);
    } else {
      OwnKeepsPipe(k, k', step);
    }
  }

  lemma {:induction false} RunKeepsPipe(run: seq<K.System>, i: nat, s: nat)
    requires K.Run(run) && i < |run| && s < |run[0].hosts|
    ensures |run[i].hosts| == |run[0].hosts| && PipeOk(run[i].hosts[s])
  {
    if i == 0 {
      assert run[0].hosts[s] == K.Boot(Fresh(s, |run[0].hosts|));
    } else {
      RunKeepsPipe(run, i - 1, s);
      assert K.Linked(run, i - 1);
      NextKeepsPipe(run[i - 1], run[i], s);
    }
  }

  /** Gap-free delivery: in every run, what any process has put on its channel has consecutive
      indices from where the process began. */
  lemma GapFreeDelivery(run: seq<K.System>, i: nat, s: nat)
    requires K.Run(run) && i < |run| && s < |run[0].hosts|
    ensures |run[i].hosts| == |run[0].hosts| && GapFree(run[i].hosts[s].sent, run[i].hosts[s].first)
  {
    RunKeepsPipe(run, i, s);
    GapFreePrefix(run[i].hosts[s].sent, run[i].hosts[s].batch, run[i].hosts[s].first);
  }

  /** So no index is ever sent twice, and none goes back. */
  lemma {:induction false} NeverRepeats(msgs: seq<ApplyMsg>, next: nat, i: nat, j: nat)
    requires GapFree(msgs, next) && i < j < |msgs|
    ensures next <= msgs[i].index < msgs[j].index
  {
    if i > 0 {
      NeverRepeats(msgs[1..], msgs[0].index + 1, i - 1, j - 1);
    } else if j > 1 {
      NeverRepeats(msgs[1..], msgs[0].index + 1, 0, j - 1);
    }
  }
}
