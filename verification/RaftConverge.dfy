/** sendLog's retry loop against one follower: what is sent, what an accept leaves behind, and how
    few rejects it takes. Logs may be compacted on either side. */
module RaftConverge {
  import opened Quorums
  import opened RaftPeer
  import opened RaftHistory
  import opened RaftMerge
  import opened RaftBackup

  /** Past the cut a leader sends all it has from the next index on, and its commit index. */
  lemma SendsAllTheRest(p: Peer, peer: nat, leader: Log)
    requires Compacted(p.logs, p.startIndex, leader) && peer < |p.nextIndex| && p.startIndex < p.nextIndex[peer] <= End(p)
    ensures SendLog(p, peer).0 == p && SendLog(p, peer).1.SendAppend?
    ensures var a := SendLog(p, peer).1.append;
      a.term == p.currentTerm && RequestAt(a, leader, p.nextIndex[peer]) && a.leaderCommit == p.commitIndex
  {
    assert p.logs[p.nextIndex[peer] - p.startIndex..] == leader[p.nextIndex[peer]..];
  }

  /** Otherwise it sends its snapshot, which stands for the log up to the cut, and goes on past it. */
  lemma SendsSnapshot(p: Peer, peer: nat)
    requires p.logs != [] && peer < |p.nextIndex| && p.nextIndex[peer] <= p.startIndex
    ensures SendLog(p, peer).0 == p.(nextIndex := p.nextIndex[peer := p.startIndex + 1])
    ensures SendLog(p, peer).1 == SendSnapshot(SnapshotArgs(p.currentTerm, p.startIndex, p.logs[0].term, p.snapshot))
  {
  }

  // ------------------------------------------------------------ one-by-one backing

  /** One-by-one backing: the largest next index up to `next` whose previous entry matches. */
  function StepBack(leader: Log, follower: Log, next: nat): (m: nat)
    requires next <= |leader|
  {
    if next == 0 || (next - 1 < |follower| && follower[next - 1].term == leader[next - 1].term) then next
    else StepBack(leader, follower, next - 1)
  }

  lemma {:induction false} StepBackFinds(leader: Log, follower: Log, next: nat, d: nat)
    requires next <= |leader| && d <= next && DifferAt(follower, leader, d) && TermsMatch(follower, leader)
    ensures StepBack(leader, follower, next) == d
  {
    if next > d {
      assert !(next - 1 < |follower| && follower[next - 1].term == leader[next - 1].term);
      StepBackFinds(leader, follower, next - 1, d);
    }
  }

  ghost predicate RequestAt(args: AppendArgs, leader: Log, m: nat) {
    1 <= m <= |leader| && args.prevIndex == m - 1 && args.prevTerm == leader[m - 1].term && args.entries == leader[m..]
  }

  /** A follower that has cut its log accepts exactly where its whole log matches the leader's. */
  lemma AcceptsWhereMatched(f: Peer, whole: Log, leader: Log, args: AppendArgs, m: nat)
    requires Compacted(f.logs, f.startIndex, whole) && TermsMatch(whole, leader) && Agree(whole, leader, f.startIndex + 1)
    requires RequestAt(args, leader, m) && args.term >= f.currentTerm
    ensures AppendEntries(f, args).1.success <==> m - 1 < |whole| && whole[m - 1].term == leader[m - 1].term
    ensures !AppendEntries(f, args).1.success ==> f.startIndex <= m - 1 && AppendEntries(f, args).1 == AppendAt(Yield(f, args.term), args).1
  {
    if m - 1 < f.startIndex {
      assert whole[m - 1] == leader[m - 1];
      if f.startIndex - (m - 1) < |args.entries| {
        assert args.entries[f.startIndex - m] == leader[f.startIndex] == whole[f.startIndex];
      }
    } else if m - 1 < |whole| {
      assert f.logs[m - 1 - f.startIndex].term == whole[m - 1].term;
    }
  }

  lemma AcceptsUpToDifference(f: Peer, whole: Log, leader: Log, args: AppendArgs, m: nat, d: nat)
    requires Compacted(f.logs, f.startIndex, whole) && TermsMatch(whole, leader) && DifferAt(whole, leader, d) && f.startIndex < d
    requires RequestAt(args, leader, m) && args.term >= f.currentTerm
    ensures AppendEntries(f, args).1.success <==> m <= d
  {
    AcceptsWhereMatched(f, whole, leader, args, m);
    assert m - 1 < |whole| && whole[m - 1].term == leader[m - 1].term ==> Agree(whole, leader, m);
  }

  lemma RefusedBacksUp(logs: Log, start: nat, f: Peer, whole: Log, leader: Log, args: AppendArgs, m: nat, d: nat)
    requires Compacted(logs, start, leader) && Compacted(f.logs, f.startIndex, whole) && start < m
    requires Sorted(whole) && TermsMatch(whole, leader) && DifferAt(whole, leader, d) && f.startIndex < d
    requires RequestAt(args, leader, m) && args.term >= f.currentTerm && !AppendEntries(f, args).1.success
    ensures AppendEntries(f, args).1.xIndex <= start + |logs| && d <= Backup(logs, start, AppendEntries(f, args).1) < m
  {
    AcceptsWhereMatched(f, whole, leader, args, m);
    FastBackupSound(Yield(f, args.term), whole, logs, start, leader, d, args);
  }

  // ----------------------------------------------------------------- accepted

  /** What is kept of the follower's log is the leader's, to the leader's end. */
  ghost predicate HoldsAll(f: Peer, leader: Log) {
    && f.logs != [] && f.startIndex < |leader| <= End(f) && f.logs[0].term == leader[f.startIndex].term
    && forall i | f.startIndex < i < |leader| :: f.logs[i - f.startIndex] == leader[i]
  }

  /** The leader's log as the follower's cut would leave it. */
  ghost function Seen(f: Peer, leader: Log): Log
    requires f.logs != [] && f.startIndex < |leader|
  {
    [f.logs[0]] + leader[f.startIndex + 1..]
  }

  lemma SeenMatches(f: Peer, whole: Log, leader: Log, m: nat)
    requires Compacted(f.logs, f.startIndex, whole) && TermsMatch(whole, leader) && f.startIndex < m && Agree(whole, leader, m)
    ensures Agree(f.logs, Seen(f, leader), m - f.startIndex) && TermsMatch(f.logs, Seen(f, leader))
  {
    var l, start := Seen(f, leader), f.startIndex;
    forall i | 0 <= i < |f.logs| && i < |l| && f.logs[i].term == l[i].term ensures Agree(f.logs, l, i + 1) {
      assert whole[start + i].term == leader[start + i].term;
      assert Agree(whole, leader, start + i + 1);
      forall j | 0 < j <= i ensures f.logs[j] == l[j] { assert whole[start + j] == leader[start + j]; }
    }
  }

  lemma EitherHoldsAll(f: Peer, leader: Log, logs: Log)
    requires f.logs != [] && f.startIndex < |leader| && f.logs[0].term == leader[f.startIndex].term
    requires (logs == f.logs && Agree(f.logs, Seen(f, leader), |leader| - f.startIndex)) || logs == Seen(f, leader)
    ensures HoldsAll(f.(logs := logs), leader)
  {
    forall i | f.startIndex < i < |leader| ensures i - f.startIndex < |logs| && logs[i - f.startIndex] == leader[i] {
      SeenAt(f, leader, i);
    }
  }

  lemma SeenAt(f: Peer, leader: Log, i: nat)
    requires f.logs != [] && f.startIndex < i < |leader|
    ensures |Seen(f, leader)| == |leader| - f.startIndex && Seen(f, leader)[i - f.startIndex] == leader[i]
  {
  }

  lemma SeenMerged(f: Peer, leader: Log, m: nat)
    requires f.logs != [] && f.startIndex < m <= |leader| && f.logs[0].term == leader[f.startIndex].term
    requires Agree(f.logs, Seen(f, leader), m - f.startIndex) && TermsMatch(f.logs, Seen(f, leader))
    ensures HoldsAll(f.(logs := Merge(f.logs, m - f.startIndex, leader[m..])), leader)
  {
    MergeSeen(f.logs, Seen(f, leader), leader[m..], m - f.startIndex);
    EitherHoldsAll(f, leader, Merge(f.logs, m - f.startIndex, leader[m..]));
  }

  /** Merging in the rest of a log leaves that log, or one that goes on from it. */
  lemma MergeSeen(logs: Log, l: Log, entries: Log, at: nat)
    requires 1 <= at <= |logs| && Agree(logs, l, at) && TermsMatch(logs, l) && entries == l[at..]
    ensures var merged := Merge(logs, at, entries); (merged == logs && Agree(logs, l, |l|)) || merged == l
  {
    MergeResult(logs, at, entries, l);
    assert l[..|l|] == l;
  }

  lemma MergedHoldsAll(f: Peer, whole: Log, leader: Log, m: nat)
    requires Compacted(f.logs, f.startIndex, whole) && TermsMatch(whole, leader) && f.startIndex < m && Agree(whole, leader, m)
    ensures HoldsAll(f.(logs := Merge(f.logs, m - f.startIndex, leader[m..])), leader)
  {
    assert whole[f.startIndex] == leader[f.startIndex];
    SeenMatches(f, whole, leader, m);
    SeenMerged(f, leader, m);
  }

  /** What an accept at or past the sentinel leaves. */
  lemma AcceptForm(f: Peer, a: AppendArgs, leader: Log)
    requires f.logs != [] && f.startIndex <= a.prevIndex && a.term >= f.currentTerm && AppendEntries(f, a).1.success
    requires a.prevIndex < End(f) && HoldsAll(f.(logs := Merge(f.logs, a.prevIndex - f.startIndex + 1, a.entries)), leader)
    ensures var g := AppendEntries(f, a).0; HoldsAll(g, leader) && a.leaderCommit <= g.commitIndex
  {
  }

  lemma ShiftForm(f: Peer, a: AppendArgs, leader: Log)
    requires f.logs != [] && a.prevIndex < f.startIndex < a.prevIndex + |a.entries| && a.term >= f.currentTerm
    requires f.logs[0].term == a.entries[f.startIndex - a.prevIndex - 1].term
    requires HoldsAll(f.(logs := Merge(f.logs, 1, a.entries[f.startIndex - a.prevIndex..])), leader)
    ensures var g := AppendEntries(f, a).0; HoldsAll(g, leader) && a.leaderCommit <= g.commitIndex
  {
  }

  lemma AcceptedPast(f: Peer, whole: Log, leader: Log, a: AppendArgs, m: nat)
    requires Compacted(f.logs, f.startIndex, whole) && TermsMatch(whole, leader) && f.startIndex < m && Agree(whole, leader, m)
    requires RequestAt(a, leader, m) && a.term >= f.currentTerm && AppendEntries(f, a).1.success
    ensures var g := AppendEntries(f, a).0; HoldsAll(g, leader) && a.leaderCommit <= g.commitIndex
  {
    MergedHoldsAll(f, whole, leader, m);
    AcceptForm(f, a, leader);
  }

  lemma AcceptedShifted(f: Peer, whole: Log, leader: Log, a: AppendArgs, m: nat)
    requires Compacted(f.logs, f.startIndex, whole) && TermsMatch(whole, leader) && Agree(whole, leader, f.startIndex + 1)
    requires RequestAt(a, leader, m) && a.term >= f.currentTerm && m <= f.startIndex < |leader| - 1
    ensures var g := AppendEntries(f, a).0; HoldsAll(g, leader) && a.leaderCommit <= g.commitIndex
  {
    var start := f.startIndex;
    assert whole[start] == leader[start];
    MergedHoldsAll(f, whole, leader, start + 1);
    assert a.entries[start - (m - 1)..] == leader[start + 1..];
    ShiftForm(f, a, leader);
  }

  /** A follower that accepts what a leader sends holds the leader's log to its end afterwards, and
      has committed at least as far. */
  lemma AcceptedHoldsAll(f: Peer, whole: Log, leader: Log, a: AppendArgs, m: nat)
    requires Compacted(f.logs, f.startIndex, whole) && TermsMatch(whole, leader) && Agree(whole, leader, f.startIndex + 1)
    requires RequestAt(a, leader, m) && a.term >= f.currentTerm && AppendEntries(f, a).1.success
    requires f.startIndex < f.commitIndex && a.leaderCommit <= |leader|
    ensures var g := AppendEntries(f, a).0; HoldsAll(g, leader) && a.leaderCommit <= g.commitIndex
  {
    if m > f.startIndex {
      AcceptsWhereMatched(f, whole, leader, a, m);
      assert Agree(whole, leader, m);
      AcceptedPast(f, whole, leader, a, m);
    } else if f.startIndex < |leader| - 1 {
      AcceptedShifted(f, whole, leader, a, m);
    } else {
      assert whole[f.startIndex] == leader[f.startIndex];
    }
  }

  // ------------------------------------------------------------------ refused

  /** A reject names the beginning of a run of terms in what the follower keeps. */
  lemma RejectsAtRunStart(f: Peer, whole: Log, a: AppendArgs, k: nat)
    requires Compacted(f.logs, f.startIndex, whole) && Sorted(whole) && f.startIndex <= a.prevIndex && !AppendAt(f, a).1.success
    requires f.startIndex <= k < AppendAt(f, a).1.xIndex
    ensures k < |whole| && whole[k].term < AppendAt(f, a).1.xTerm
  {
    var at := if a.prevIndex >= |whole| then |f.logs| - 1 else a.prevIndex - f.startIndex;
    var x := RunStart(f.logs, at);
    assert f.logs[x].term == whole[x + f.startIndex].term && f.logs[x - 1].term == whole[x - 1 + f.startIndex].term;
    assert whole[k].term <= whole[x - 1 + f.startIndex].term <= whole[x + f.startIndex].term;
  }

  /** The reply to a refused request of the loop. */
  ghost predicate Refusal(f: Peer, whole: Log, leader: Log, a: AppendArgs, m: nat, r: AppendReply) {
    && Compacted(f.logs, f.startIndex, whole) && TermsMatch(whole, leader) && Agree(whole, leader, f.startIndex + 1) && Sorted(whole)
    && RequestAt(a, leader, m) && a.term >= f.currentTerm && !AppendEntries(f, a).1.success && r == AppendEntries(f, a).1
  }

  /** The backup stops below the run that was named, or inside it on an entry of its term. */
  lemma BackupStops(logs: Log, start: nat, r: AppendReply)
    requires logs != [] && r.xIndex <= start + |logs| && Backup(logs, start, r) > start
    ensures var k := Backup(logs, start, r) - 1;
      k < r.xIndex || (k < r.xLen && k - start < |logs| && logs[k - start].term == r.xTerm)
  {
    var k, n := Backup(logs, start, r) - 1, BackBelow(logs, start, r.xIndex, r.xTerm);
    SkipRunInside(logs, start, if n < start then start else n, r.xTerm, r.xLen);
    assert r.xIndex <= k ==> 0 <= k - start < |logs|;
  }

  lemma {:induction false} SkipRunInside(logs: Log, start: nat, n: nat, xTerm: nat, xLen: nat)
    requires start <= n
    ensures var m := SkipRun(logs, start, n, xTerm, xLen); m > n ==> m <= start + |logs|
    decreases start + |logs| - n
  {
    if n - start < |logs| && n < xLen && logs[n - start].term == xTerm { SkipRunInside(logs, start, n + 1, xTerm, xLen); }
  }

  lemma RunOfTerm(f: Peer, whole: Log, leader: Log, a: AppendArgs, m: nat, d: nat, r: AppendReply, k: nat)
    requires Refusal(f, whole, leader, a, m, r) && DifferAt(whole, leader, d) && f.startIndex <= k && f.startIndex < d
    ensures k < r.xIndex ==> k < |whole| && whole[k].term < r.xTerm
    ensures r.xIndex <= k < r.xLen ==> k < |whole| && whole[k].term == r.xTerm
  {
    AcceptsWhereMatched(f, whole, leader, a, m);
    var g := Yield(f, a.term);
    RejectMeaning(g, whole, leader, d, a);
    if k < r.xIndex { RejectsAtRunStart(g, whole, a, k); }
  }

  /** A reject gets past all the entries of its term: at the new next index the logs match, or the
      follower's term is lower than the one that was in the way. */
  lemma RejectSkipsTerm(f: Peer, whole: Log, logs: Log, start: nat, leader: Log, a: AppendArgs, m: nat, d: nat, r: AppendReply)
    requires Refusal(f, whole, leader, a, m, r) && Compacted(logs, start, leader) && start < m && DifferAt(whole, leader, d) && f.startIndex < d
    requires r.xIndex <= start + |logs| && d <= Backup(logs, start, r)
    ensures var m' := Backup(logs, start, r);
      start < m' <= |leader| ==> m' - 1 < |whole| && (whole[m' - 1].term < r.xTerm || whole[m' - 1].term == leader[m' - 1].term)
  {
    var m' := Backup(logs, start, r);
    if start < m' <= |leader| {
      BackupStops(logs, start, r);
      RunOfTerm(f, whole, leader, a, m, d, r, m' - 1);
    }
  }

  // ----------------------------------------------------------------- the loop

  /** The follower `f` of a leader whose log is `leader`: its own whole log is `whole`, and the two
      first differ at `d`, past what the follower has cut and committed. */
  ghost predicate Facing(f: Peer, whole: Log, leader: Log, d: nat) {
    && Compacted(f.logs, f.startIndex, whole) && Sorted(whole) && TermsMatch(whole, leader) && DifferAt(whole, leader, d)
    && f.startIndex < d && f.startIndex < f.commitIndex
  }

  ghost predicate Sending(p: Peer, peer: nat, leader: Log) {
    && Compacted(p.logs, p.startIndex, leader) && p.commitIndex <= End(p)
    && peer < |p.nextIndex| == |p.matchIndex| && 1 <= p.nextIndex[peer] <= End(p)
  }

  /** The follower holds the leader's log, has committed as far, and is known to. */
  ghost predicate Synced(p: Peer, p': Peer, peer: nat, f': Peer, leader: Log) {
    && HoldsAll(f', leader) && p.commitIndex <= f'.commitIndex
    && peer < |p'.nextIndex| == |p'.matchIndex| && p'.nextIndex[peer] == End(p) <= p'.matchIndex[peer]
  }

  /** The follower's term that stands in the way of a request at next index `m`. */
  ghost function Obstacle(whole: Log, m: nat): nat
    requires whole != [] && m > 0
  {
    whole[if m - 1 < |whole| then m - 1 else |whole| - 1].term
  }

  lemma AcceptedRound(p: Peer, peer: nat, f: Peer, leader: Log, whole: Log, d: nat)
    requires Sending(p, peer, leader) && p.startIndex < p.nextIndex[peer] <= d && Facing(f, whole, leader, d) && p.currentTerm >= f.currentTerm
    ensures SendLog(p, peer).1.SendAppend?
    ensures var a := SendLog(p, peer).1.append;
      var (f', r) := AppendEntries(f, a);
      r.success && r.xIndex == 0 && Synced(p, OnAppendReply(p, peer, a, r).0, peer, f', leader)
  {
    SendsAllTheRest(p, peer, leader);
    var m, a := p.nextIndex[peer], SendLog(p, peer).1.append;
    AcceptsUpToDifference(f, whole, leader, a, m, d);
    AcceptedHoldsAll(f, whole, leader, a, m);
  }

  lemma RefusedRound(p: Peer, peer: nat, f: Peer, leader: Log, whole: Log, d: nat)
    requires Sending(p, peer, leader) && p.startIndex < p.nextIndex[peer] && Facing(f, whole, leader, d) && p.currentTerm >= f.currentTerm
    requires d < p.nextIndex[peer]
    ensures SendLog(p, peer).1.SendAppend?
    ensures var a := SendLog(p, peer).1.append;
      var (f', r) := AppendEntries(f, a);
      && !r.success && r.term == a.term && r.xIndex <= End(p) && f' == Yield(f, p.currentTerm)
      && d <= Backup(p.logs, p.startIndex, r) < p.nextIndex[peer]
      && PastObstacle(whole, leader, p.startIndex, p.nextIndex[peer], Backup(p.logs, p.startIndex, r))
  {
    SendsAllTheRest(p, peer, leader);
    var m, a := p.nextIndex[peer], SendLog(p, peer).1.append;
    AcceptsUpToDifference(f, whole, leader, a, m, d);
    RejectedReply(f, whole, leader, a, m);
    RefusedBacksUp(p.logs, p.startIndex, f, whole, leader, a, m, d);
    RejectSkipsTerm(f, whole, p.logs, p.startIndex, leader, a, m, d, AppendEntries(f, a).1);
  }

  /** From next index `m` the loop goes to `m'`, and past every entry of the term in its way. */
  ghost predicate PastObstacle(whole: Log, leader: Log, start: nat, m: nat, m': nat) {
    && whole != [] && 0 < m <= |leader|
    && (start < m' <= m ==> m' - 1 < |whole| && (whole[m' - 1].term < Obstacle(whole, m) || whole[m' - 1].term == leader[m' - 1].term))
  }

  lemma RejectedReply(f: Peer, whole: Log, leader: Log, a: AppendArgs, m: nat)
    requires Compacted(f.logs, f.startIndex, whole) && TermsMatch(whole, leader) && Agree(whole, leader, f.startIndex + 1)
    requires RequestAt(a, leader, m) && a.term >= f.currentTerm && !AppendEntries(f, a).1.success
    ensures AppendEntries(f, a).0 == Yield(f, a.term) && AppendEntries(f, a).1.term == a.term
    ensures AppendEntries(f, a).1.xTerm == Obstacle(whole, m)
  {
    AcceptsWhereMatched(f, whole, leader, a, m);
  }

  /** One round of the loop, from what is sent to what the answer does: accepted exactly where the
      logs match, and then the follower is synced; otherwise backed up, strictly, past the term in
      the way and not below the first difference. */
  method Attempt(p: Peer, peer: nat, f: Peer, ghost leader: Log, ghost whole: Log, ghost d: nat)
    returns (p': Peer, f': Peer, again: bool)
    requires Sending(p, peer, leader) && p.startIndex < p.nextIndex[peer] && Facing(f, whole, leader, d) && p.currentTerm >= f.currentTerm
    ensures again <==> p.nextIndex[peer] > d
    ensures !again ==> Synced(p, p', peer, f', leader)
    ensures again ==> f' == Yield(f, p.currentTerm) && peer < |p'.nextIndex| && d <= p'.nextIndex[peer] < p.nextIndex[peer]
    ensures again ==> p' == p.(nextIndex := p.nextIndex[peer := p'.nextIndex[peer]])
    ensures again ==> Facing(f', whole, leader, d) && Sending(p', peer, leader) && p.currentTerm >= f'.currentTerm
    ensures again ==> PastObstacle(whole, leader, p.startIndex, p.nextIndex[peer], p'.nextIndex[peer])
  {
    if p.nextIndex[peer] <= d { AcceptedRound(p, peer, f, leader, whole, d); } else { RefusedRound(p, peer, f, leader, whole, d); }
    var a := SendLog(p, peer).1.append;
    var (g, reply) := AppendEntries(f, a);
    f' := g;
    p', again := OnAppendReply(p, peer, a, reply).0, OnAppendReply(p, peer, a, reply).1;
  }

  ghost function Terms(log: Log): set<nat> {
    set i | 0 <= i < |log| :: log[i].term
  }

  /** The terms of earlier rejects all lie above what the next request meets, unless that matches. */
  ghost predicate Passed(past: set<nat>, whole: Log, leader: Log, start: nat, m: nat) {
    past != {} && start < m <= |leader| ==>
      m - 1 < |whole| && (whole[m - 1].term == leader[m - 1].term || forall t | t in past :: t > whole[m - 1].term)
  }

  lemma Further(past: set<nat>, whole: Log, leader: Log, start: nat, m: nat, m': nat, d: nat, xTerm: nat)
    requires Passed(past, whole, leader, start, m) && start < m <= |leader| && m' < m && whole != []
    requires TermsMatch(whole, leader) && DifferAt(whole, leader, d) && d < m
    requires PastObstacle(whole, leader, start, m, m') && xTerm == Obstacle(whole, m)
    ensures xTerm in Terms(whole) && xTerm !in past && Passed(past + {xTerm}, whole, leader, start, m')
  {
    assert m - 1 < |whole| && whole[m - 1].term == leader[m - 1].term ==> Agree(whole, leader, m);
  }

  /** The loop against a follower that nobody else writes to: it ends, with a snapshot exactly when
      one-by-one backing would go to the cut or below, and otherwise with the follower synced. It
      takes at most one reject for each term in the follower's log. */
  method Converge(p: Peer, peer: nat, f: Peer, ghost leader: Log, ghost whole: Log, ghost d: nat)
    returns (p': Peer, f': Peer, snapshot: bool, rejects: nat)
    requires Sending(p, peer, leader) && Facing(f, whole, leader, d) && p.currentTerm >= f.currentTerm
    ensures snapshot <==> StepBack(leader, whole, p.nextIndex[peer]) <= p.startIndex
    ensures !snapshot ==> Synced(p, p', peer, f', leader)
    ensures rejects <= |Terms(whole)|
  {
    p', f', rejects, snapshot := p, f, 0, true;
    ghost var next := p.nextIndex[peer];
    ghost var target := if d < next then d else next;
    ghost var past: set<nat> := {};
    StepBackTarget(leader, whole, next, d);
    while p'.nextIndex[peer] > p.startIndex
      invariant Facing(f', whole, leader, d) && Sending(p', peer, leader) && p'.currentTerm >= f'.currentTerm
      invariant p'.startIndex == p.startIndex && p'.commitIndex == p.commitIndex && End(p') == End(p)
      invariant target <= p'.nextIndex[peer] <= next && (p'.nextIndex[peer] < next ==> target == d)
      invariant past <= Terms(whole) && |past| == rejects
      invariant Passed(past, whole, leader, p.startIndex, p'.nextIndex[peer])
      decreases p'.nextIndex[peer]
    {
      ghost var m := p'.nextIndex[peer];
      var back, g, again := Attempt(p', peer, f', leader, whole, d);
      if !again {
        p', f', snapshot := back, g, false;
        break;
      }
      Further(past, whole, leader, p.startIndex, m, back.nextIndex[peer], d, Obstacle(whole, m));
      past, rejects := past + {Obstacle(whole, m)}, rejects + 1;
      p', f' := back, g;
    }
    SubsetSize(past, Terms(whole));
  }

  lemma StepBackTarget(leader: Log, whole: Log, next: nat, d: nat)
    requires 1 <= next <= |leader| && DifferAt(whole, leader, d) && TermsMatch(whole, leader)
    ensures StepBack(leader, whole, next) == if d < next then d else next
  {
    if d < next { StepBackFinds(leader, whole, next, d); } else { assert whole[next - 1] == leader[next - 1]; }
  }
}
