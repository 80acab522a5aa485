/** Where snapshots come from: whatever is sent, installed, restored or announced as the snapshot of
    an index was passed to Snapshot for that very index. */
module RaftSnapshotData {
  import opened RaftPeer
  import K = RaftSnapshots

  ghost predicate Known(snapped: set<K.Snap>, index: nat, data: seq<int>) {
    index > 0 ==> K.Snap(index, data) in snapped
  }

  ghost predicate Announced(snapped: set<K.Snap>, m: ApplyMsg) {
    m.SnapshotMsg? ==> m.index > 0 && K.Snap(m.index, m.data) in snapped
  }

  ghost predicate HostData(snapped: set<K.Snap>, h: K.Host) {
    && Known(snapped, h.peer.startIndex, h.peer.snapshot) && (h.peer.snapshotApplying ==> h.peer.startIndex > 0)
    && (forall i | 0 <= i < |h.batch| :: Announced(snapped, h.batch[i]))
    && (forall i | 0 <= i < |h.sent| :: Announced(snapped, h.sent[i]))
  }

  ghost predicate DataOk(k: K.System) {
    && (forall s | 0 <= s < |k.hosts| :: HostData(k.snapped, k.hosts[s]))
    && (forall m | m in k.net && m.InstallReq? :: Known(k.snapped, m.install.lastIndex, m.install.data))
  }

  lemma KnownStays(a: set<K.Snap>, b: set<K.Snap>, h: K.Host)
    requires a <= b && HostData(a, h)
    ensures HostData(b, h)
  {
    forall i | 0 <= i < |h.batch| ensures Announced(b, h.batch[i]) { assert Announced(a, h.batch[i]); }
    forall i | 0 <= i < |h.sent| ensures Announced(b, h.sent[i]) { assert Announced(a, h.sent[i]); }
  }

  /** The peer's snapshot and what the applier holds are as before. */
  ghost predicate SameData(h: K.Host, h': K.Host) {
    && h'.peer.startIndex == h.peer.startIndex && h'.peer.snapshot == h.peer.snapshot && h'.peer.snapshotApplying == h.peer.snapshotApplying
    && h'.batch == h.batch && h'.sent == h.sent
  }

  lemma ElectionData(k: K.System, k': K.System, step: K.Step)
    requires K.StepOk(k, k', step) && (step.Stand? || step.Answer? || step.CountVotes? || step.Submit? || step.Advance?)
    ensures |k'.hosts| == |k.hosts| && SameData(k.hosts[step.s], k'.hosts[step.s])
  {
  }

  lemma ReplicationData(k: K.System, k': K.System, step: K.Step)
    requires K.StepOk(k, k', step) && (step.Send? || step.Receive? || step.Hear? || step.HearInstall?)
    ensures |k'.hosts| == |k.hosts| && SameData(k.hosts[step.s], k'.hosts[step.s])
  {
  }

  lemma InstallData(snapped: set<K.Snap>, h: K.Host, a: SnapshotArgs)
    requires HostData(snapped, h) && Known(snapped, a.lastIndex, a.data) && h.peer.logs != [] && h.peer.startIndex < h.peer.lastApplied
    ensures HostData(snapped, h.(peer := InstallSnapshot(h.peer, a).0))
  {
  }

  lemma OwnData(k: K.System, k': K.System, step: K.Step)
    requires DataOk(k) && K.StepOk(k, k', step)
    requires step.Compact? || step.Install? || step.TakeCommitted? || step.TakeInstalled? || step.Deliver? || step.Reboot?
    ensures |k'.hosts| == |k.hosts| && HostData(k'.snapped, k'.hosts[step.s])
  {
    var h, s := k.hosts[step.s], k.snapped;
    assert HostData(s, h);
    KnownStays(s, k'.snapped, h);
    match step
    case Install(_, src, a) => InstallData(s, h, a);
    case Deliver(_) => assert Announced(s, h.batch[0]);
    case _ =>
  }

  lemma NetData(k: K.System, k': K.System, step: K.Step, m: K.Msg)
    requires DataOk(k) && K.StepOk(k, k', step) && m in k'.net && m.InstallReq?
    ensures Known(k'.snapped, m.install.lastIndex, m.install.data)
  {
    assert HostData(k.snapped, k.hosts[step.s]);
  }

  lemma NextData(k: K.System, k': K.System, step: K.Step)
    requires DataOk(k) && K.StepOk(k, k', step)
    ensures DataOk(k')
  {
    forall s | 0 <= s < |k'.hosts| ensures HostData(k'.snapped, k'.hosts[s]) { HostKeepsData(k, k', step, s); }
    forall m | m in k'.net && m.InstallReq? ensures Known(k'.snapped, m.install.lastIndex, m.install.data) { NetData(k, k', step, m); }
  }

  lemma OthersKeepData(k: K.System, k': K.System, step: K.Step, s: nat)
    requires K.StepOk(k, k', step) && s < |k.hosts|
    ensures |k'.hosts| == |k.hosts| && k.snapped <= k'.snapped && (s != step.s ==> k'.hosts[s] == k.hosts[s])
  {
  }

  lemma HostKeepsData(k: K.System, k': K.System, step: K.Step, s: nat)
    requires DataOk(k) && K.StepOk(k, k', step) && s < |k'.hosts|
    ensures HostData(k'.snapped, k'.hosts[s])
  {
    OthersKeepData(k, k', step, step.s);
    OthersKeepData(k, k', step, s);
    assert HostData(k.snapped, k.hosts[s]);
    KnownStays(k.snapped, k'.snapped, k.hosts[s]);
    if s == step.s {
      if step.Stand? || step.Answer? || step.CountVotes? || step.Submit? || step.Advance? {
        ElectionData(k, k', step);
      } else if step.Send? || step.Receive? || step.Hear? || step.HearInstall? {
        ReplicationData(k, k', step);
      } else {
        OwnData(k, k', step);
      }
    }
  }

  lemma {:induction false} RunData(run: seq<K.System>, i: nat)
    requires K.Run(run) && i < |run|
    ensures DataOk(run[i])
  {
    if i > 0 {
      RunData(run, i - 1);
      assert K.Linked(run, i - 1);
      var step :| K.StepOk(run[i - 1], run[i], step);
      NextData(run[i - 1], run[i], step);
    } else {
      forall s | 0 <= s < |run[0].hosts| ensures HostData(run[0].snapped, run[0].hosts[s]) {
        assert run[0].hosts[s] == K.Boot(Fresh(s, |run[0].hosts|));
      }
    }
  }

  /** In every run, with installs and restarts at any moment: the snapshot that a peer keeps for its
      cut, and every snapshot on a channel, is one that Snapshot was called with for that index. */
  lemma SnapshotOrigin(run: seq<K.System>, i: nat, s: nat)
    requires K.Run(run) && i < |run| && s < |run[i].hosts|
    ensures var h := run[i].hosts[s];
      && (h.peer.startIndex > 0 ==> K.Snap(h.peer.startIndex, h.peer.snapshot) in run[i].snapped)
      && (forall j | 0 <= j < |h.sent| && h.sent[j].SnapshotMsg? :: K.Snap(h.sent[j].index, h.sent[j].data) in run[i].snapped)
  {
    RunData(run, i);
    var h := run[i].hosts[s];
    assert HostData(run[i].snapped, h);
    forall j | 0 <= j < |h.sent| && h.sent[j].SnapshotMsg? ensures K.Snap(h.sent[j].index, h.sent[j].data) in run[i].snapped {
      assert Announced(run[i].snapped, h.sent[j]);
    }
  }
}
