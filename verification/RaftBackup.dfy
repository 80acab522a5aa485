/** Fast backup: the conflict-term hint of a reject lets the leader skip whole runs
    of entries, yet it never skips past the point where one-by-one backing would stop.
    Logs may be compacted on either side. */
module RaftBackup {
  import opened RaftPeer
  import opened RaftHistory
  import opened RaftMerge

  /** `logs` is what compaction at `start` leaves of `full`: the sentinel keeps the term only. */
  ghost predicate Compacted(logs: Log, start: nat, full: Log) {
    && start < |full| && |logs| == |full| - start
    && logs[0].term == full[start].term
    && forall i | 0 < i < |logs| :: logs[i] == full[start + i]
  }

  ghost predicate Sorted(log: Log) {
    forall i, j | 0 <= i <= j < |log| :: log[i].term <= log[j].term
  }

  /** The logs agree up to `d` and differ there, if both go that far. */
  ghost predicate DifferAt(a: Log, b: Log, d: nat) {
    Agree(a, b, d) && (d < |a| && d < |b| ==> a[d].term != b[d].term)
  }

  /** What a reject says about the follower's full log. */
  lemma RejectMeaning(f: Peer, follower: Log, leader: Log, d: nat, a: AppendArgs)
    requires Compacted(f.logs, f.startIndex, follower) && DifferAt(follower, leader, d)
    requires f.startIndex <= a.prevIndex < |leader| && leader[a.prevIndex].term == a.prevTerm
    requires !AppendAt(f, a).1.success
    ensures var r := AppendAt(f, a).1;
      && r.xIndex <= a.prevIndex && d <= r.xLen <= a.prevIndex
      && forall k | r.xIndex <= k <= a.prevIndex && k < |follower| :: follower[k].term == r.xTerm
  {
    var r := AppendAt(f, a).1;
    var at := if a.prevIndex >= |follower| then |f.logs| - 1 else a.prevIndex - f.startIndex;
    var x := RunStart(f.logs, at);
    assert r.xIndex == x + f.startIndex && r.xTerm == f.logs[x].term;
    forall k | r.xIndex <= k <= a.prevIndex && k < |follower| ensures follower[k].term == r.xTerm {
      assert f.logs[k - f.startIndex].term == f.logs[at].term;
    }
  }

  /** The new next index is at or below the index that was refused exactly when the leader still
      keeps that index; a leader that has cut past it meanwhile ends up at its cut. */
  lemma BackupBound(logs: Log, start: nat, prev: nat, r: AppendReply)
    requires logs != [] && r.xIndex <= prev && r.xLen <= prev < start + |logs|
    ensures start <= Backup(logs, start, r) <= start + |logs|
    ensures Backup(logs, start, r) <= prev <==> start <= prev
    ensures start > prev ==> Backup(logs, start, r) == start
  {
  }

  /** For any reject: the new next index is not below the first index where the two logs differ,
      and strictly below the one that was refused unless the leader has cut past that. */
  lemma FastBackupSound(f: Peer, follower: Log, logs: Log, start: nat, leader: Log, d: nat, a: AppendArgs)
    requires Compacted(f.logs, f.startIndex, follower) && Compacted(logs, start, leader)
    requires Sorted(follower) && DifferAt(follower, leader, d)
    requires f.startIndex <= a.prevIndex < |leader| && leader[a.prevIndex].term == a.prevTerm
    requires !AppendAt(f, a).1.success
    ensures AppendAt(f, a).1.xIndex <= start + |logs|
    ensures d <= Backup(logs, start, AppendAt(f, a).1)
    ensures Backup(logs, start, AppendAt(f, a).1) <= a.prevIndex <==> start <= a.prevIndex
    ensures start > a.prevIndex ==> Backup(logs, start, AppendAt(f, a).1) == start
  {
    RejectMeaning(f, follower, leader, d, a);
    var r := AppendAt(f, a).1;
    BackupBound(logs, start, a.prevIndex, r);
    if start <= a.prevIndex { NotBelowDifference(f, follower, logs, start, leader, d, a); }
  }

  lemma NotBelowDifference(f: Peer, follower: Log, logs: Log, start: nat, leader: Log, d: nat, a: AppendArgs)
    requires Compacted(f.logs, f.startIndex, follower) && Compacted(logs, start, leader)
    requires Sorted(follower) && DifferAt(follower, leader, d)
    requires f.startIndex <= a.prevIndex < |leader| && start <= a.prevIndex && leader[a.prevIndex].term == a.prevTerm
    requires !AppendAt(f, a).1.success && AppendAt(f, a).1.xIndex <= start + |logs|
    ensures d <= Backup(logs, start, AppendAt(f, a).1)
  {
    RejectMeaning(f, follower, leader, d, a);
    var r := AppendAt(f, a).1;
    var m := Backup(logs, start, r);
    assert m < |leader| ==> logs[m - start].term == leader[m].term;
    assert m < r.xIndex && r.xIndex < |follower| ==> follower[m].term <= follower[r.xIndex].term;
  }

  // ------------------------------------------------- a suffix and the whole log

  lemma {:induction false} BackBelowSuffix(logs: Log, start: nat, full: Log, n: nat, xTerm: nat)
    requires Compacted(logs, start, full) && start <= n <= |full|
    ensures BackBelow(logs, start, n, xTerm) == var m := BackBelow(full, 0, n, xTerm); if m < start then start else m
  {
    if n > start {
      assert logs[n - start - 1].term == full[n - 1].term;
      if full[n - 1].term >= xTerm { BackBelowSuffix(logs, start, full, n - 1, xTerm); }
    }
  }

  lemma {:induction false} SkipRunSuffix(logs: Log, start: nat, full: Log, n: nat, xTerm: nat, xLen: nat)
    requires Compacted(logs, start, full) && start <= n
    ensures SkipRun(logs, start, n, xTerm, xLen) == SkipRun(full, 0, n, xTerm, xLen)
    decreases |full| - n
  {
    if n < |full| {
      assert logs[n - start].term == full[n].term;
      if n < xLen && full[n].term == xTerm { SkipRunSuffix(logs, start, full, n + 1, xTerm, xLen); }
    }
  }

  /** A run that is passed on the way is passed from its middle too. */
  lemma {:induction false} SkipRunThrough(full: Log, n: nat, mid: nat, xTerm: nat, xLen: nat)
    requires n <= mid <= SkipRun(full, 0, n, xTerm, xLen)
    ensures SkipRun(full, 0, mid, xTerm, xLen) == SkipRun(full, 0, n, xTerm, xLen)
    decreases mid - n
  {
    if n < mid { SkipRunThrough(full, n + 1, mid, xTerm, xLen); }
  }

  /** After a reject a leader that has cut its log goes where it would go with all of it, but not
      below its cut. */
  lemma BackupOnSuffix(f: Peer, follower: Log, logs: Log, start: nat, leader: Log, d: nat, a: AppendArgs)
    requires Compacted(f.logs, f.startIndex, follower) && Compacted(logs, start, leader)
    requires Sorted(leader) && TermsMatch(follower, leader) && DifferAt(follower, leader, d)
    requires f.startIndex <= a.prevIndex < |leader| && leader[a.prevIndex].term == a.prevTerm
    requires !AppendAt(f, a).1.success
    ensures var r := AppendAt(f, a).1;
      && r.xIndex <= |leader|
      && Backup(logs, start, r) == var m := Backup(leader, 0, r); if m < start then start else m
  {
    RejectMeaning(f, follower, leader, d, a);
    var r := AppendAt(f, a).1;
    var n := BackBelow(leader, 0, r.xIndex, r.xTerm);
    var from := if n < start then start else n;
    if r.xIndex >= start { BackBelowSuffix(logs, start, leader, r.xIndex, r.xTerm); }
    assert Backup(logs, start, r) == SkipRun(logs, start, from, r.xTerm, r.xLen);
    SkipRunSuffix(logs, start, leader, from, r.xTerm, r.xLen);
    var m := SkipRun(leader, 0, n, r.xTerm, r.xLen);
    if n < start {
      if start <= m { SkipRunThrough(leader, n, start, r.xTerm, r.xLen); } else { StopsAtCut(follower, leader, start, n, m, r); }
    }
  }

  /** Where the whole log stops below the cut, the suffix stops at the cut. */
  lemma StopsAtCut(follower: Log, leader: Log, start: nat, n: nat, m: nat, r: AppendReply)
    requires Sorted(leader) && TermsMatch(follower, leader) && start < |leader| && r.xIndex <= |leader|
    requires n == BackBelow(leader, 0, r.xIndex, r.xTerm) && m == SkipRun(leader, 0, n, r.xTerm, r.xLen) && m < start
    requires r.xLen <= |follower| || start >= r.xLen
    requires forall k | r.xIndex <= k < r.xLen && k < |follower| :: follower[k].term == r.xTerm
    ensures SkipRun(leader, 0, start, r.xTerm, r.xLen) == start
  {
    assert leader[m].term <= leader[start].term;
    assert start < |follower| && follower[start].term == leader[start].term ==> Agree(follower, leader, start + 1);
  }

  /** The next round of the loop sends a snapshot exactly when it is at or below the cut. */
  lemma SnapshotNext(p: Peer, peer: nat)
    requires p.logs != [] && peer < |p.nextIndex| && p.nextIndex[peer] <= End(p)
    ensures SendLog(p, peer).1.SendSnapshot? <==> p.nextIndex[peer] <= p.startIndex
  {
  }
}
