/** What follows from one well-formed history: log matching, and leader completeness by
    induction on terms. */
module RaftCompleteness {
  import opened Quorums
  import opened RaftPeer
  import opened RaftHistory

  /** Terms never decrease along a log. */
  lemma SortedTerms(h: Hist, log: Log, i: nat, j: nat)
    requires LeaderLogsOk(h) && LogOk(h, log) && i <= j < |log|
    ensures log[i].term <= log[j].term
  {
    if j > 0 {
      var t := log[j].term;
      assert EntryOk(h, log, j) && LeaderLogOk(h, t);
      assert log[i] == h.leaderLog[t][i];
    }
  }

  /** Log matching: equal terms at one index mean equal logs up to it. */
  lemma LogMatching(h: Hist, a: Log, b: Log, i: nat)
    requires LogOk(h, a) && LogOk(h, b)
    requires i < |a| && i < |b| && a[i].term == b[i].term
    ensures Agree(a, b, i + 1)
  {
    if i > 0 {
      assert EntryOk(h, a, i) && EntryOk(h, b, i);
    }
  }

  /** A non-empty prefix of a good log is good. */
  lemma PrefixOk(h: Hist, log: Log, k: nat)
    requires LogOk(h, log) && 1 <= k <= |log|
    ensures LogOk(h, log[..k])
  {
    forall i | 1 <= i < k ensures EntryOk(h, log[..k], i) {
      assert EntryOk(h, log, i);
    }
  }

  /** An up-to-date log with the same last term contains the voter's log. */
  lemma SameLastTermKeeps(h: Hist, elog: Log, vlog: Log)
    requires LogOk(h, elog) && LogOk(h, vlog)
    requires LastTerm(elog) == LastTerm(vlog) && |elog| >= |vlog|
    ensures Agree(elog, vlog, |vlog|)
  {
    if |vlog| > 1 {
      assert EntryOk(h, elog, |elog| - 1) && EntryOk(h, vlog, |vlog| - 1);
    }
  }

  /** A log that ends with a later leader's entry has whatever that leader has of an earlier term. */
  lemma LaterTermKeeps(h: Hist, t: nat, k: nat, elog: Log)
    requires LeaderLogsOk(h) && t in h.leaderLog && 1 <= k <= |h.leaderLog[t]|
    requires LogOk(h, elog) && LastTerm(elog) > t && LastTerm(elog) in h.leaderLog
    requires Agree(h.leaderLog[LastTerm(elog)], h.leaderLog[t], k)
    ensures Agree(elog, h.leaderLog[t], k)
  {
    assert LeaderLogOk(h, t) && EntryOk(h, elog, |elog| - 1);
  }

  /** A voter that acknowledged a prefix still had it when it voted, if every
      leader in between has it. */
  lemma VoterHolds(h: Hist, a: Ack, u: nat)
    requires AcksOk(h) && a in h.acks && a.term < u && u in h.elections && a.peer in h.elections[u].voterLog
    requires forall w: nat | a.term < w < u && w in h.leaderLog :: Holds(h, a, h.leaderLog[w])
    ensures Holds(h, a, h.elections[u].voterLog[a.peer])
  {
    assert AckOk(h, a) && AckElectionOk(h, a, u);
  }

  /** The log a leader was elected with. */
  lemma ElectionLog(h: Hist, u: nat) returns (elog: Log)
    requires LeaderLogsOk(h) && u in h.leaderLog
    ensures 1 <= h.elections[u].base <= |h.leaderLog[u]|
    ensures elog == h.leaderLog[u][..h.elections[u].base] && LogOk(h, elog)
    ensures LastTerm(elog) == 0 || LastTerm(elog) in h.leaderLog
    ensures LastTerm(elog) < u
  {
    assert LeaderLogOk(h, u);
    elog := h.leaderLog[u][..h.elections[u].base];
    PrefixOk(h, h.leaderLog[u], |elog|);
    assert |elog| > 1 ==> EntryOk(h, elog, |elog| - 1);
  }

  /** One step of leader completeness: the leader of `u` has what a voter of `u`
      acknowledged, if all leaders in between have it. */
  lemma ElectedKeeps(h: Hist, n: nat, a: Ack, u: nat)
    requires HistOk(h, n) && a in h.acks && a.term < u && u in h.leaderLog && a.peer in h.elections[u].voterLog
    requires AckOk(h, a) && 1 <= a.len && h.leaderLog[a.term][a.len - 1].term == a.term
    requires forall w: nat | a.term < w < u && w in h.leaderLog :: Holds(h, a, h.leaderLog[w])
    ensures Holds(h, a, h.leaderLog[u])
  {
    var e := h.elections[u];
    var vlog := e.voterLog[a.peer];
    VoterHolds(h, a, u);
    var elog := ElectionLog(h, u);
    assert VoterOk(h, u, e, a.peer) by { assert ElectionOk(h, n, u, e); }
    assert vlog[a.len - 1].term == a.term;
    SortedTerms(h, vlog, a.len - 1, |vlog| - 1);
    if LastTerm(elog) == LastTerm(vlog) {
      SameLastTermKeeps(h, elog, vlog);
    } else {
      LaterTermKeeps(h, a.term, a.len, elog);
    }
    assert Agree(elog, h.leaderLog[u], |elog|);
  }

  /** Leader completeness (section 5.4.3 of the extended Raft paper): every later
      leader has every entry committed in an earlier term. */
  lemma {:induction false} LeaderCompleteness(h: Hist, n: nat, t: nat, k: nat, u: nat)
    requires HistOk(h, n) && Committed(h, n, t, k) && t < u && u in h.leaderLog
    ensures Agree(h.leaderLog[u], h.leaderLog[t], k)
    decreases u
  {
    var q :| AckQuorum(h, n, q, t, k);
    assert ElectionOk(h, n, u, h.elections[u]);
    var v := QuorumsIntersect(q, h.elections[u].voterLog.Keys, n);
    var a := Ack(v, t, k);
    forall w: nat | t < w < u && w in h.leaderLog ensures Holds(h, a, h.leaderLog[w]) {
      LeaderCompleteness(h, n, t, k, w);
    }
    ElectedKeeps(h, n, a, u);
  }

  /** Any two commit points lie on one log: the later leader has both. */
  lemma CommitsAgree(h: Hist, n: nat, t: nat, k: nat, u: nat, m: nat)
    requires HistOk(h, n) && Committed(h, n, t, k) && Committed(h, n, u, m) && t <= u
    ensures Agree(h.leaderLog[u], h.leaderLog[t], k)
  {
    if t < u {
      LeaderCompleteness(h, n, t, k, u);
    }
  }
}
