/** How a Raft history grows: the five updates a run makes to it, and what they
    leave true. */
module RaftGrowth {
  import opened Quorums
  import opened RaftPeer
  import opened RaftHistory

  /** A leader log only grows, and only by entries of its own term. */
  ghost predicate Grown(a: Log, b: Log, t: nat) {
    Agree(a, b, |a|) && forall i | |a| <= i < |b| :: b[i].term == t
  }

  ghost predicate Extends(h: Hist, h': Hist) {
    && h.elections.Keys <= h'.elections.Keys
    && (forall t | t in h.elections :: h'.elections[t] == h.elections[t])
    && (forall t | t in h.leaderLog :: t in h'.leaderLog && Grown(h.leaderLog[t], h'.leaderLog[t], t))
    && h.votes <= h'.votes && h.acks <= h'.acks && h.applied <= h'.applied
  }

  lemma ExtendsTransitive(h: Hist, h': Hist, h'': Hist)
    requires Extends(h, h') && Extends(h', h'')
    ensures Extends(h, h'')
  {
  }

  lemma LogOkGrows(h: Hist, h': Hist, log: Log)
    requires Extends(h, h') && LogOk(h, log)
    ensures LogOk(h', log)
  {
    forall i | 1 <= i < |log| ensures EntryOk(h', log, i) {
      assert EntryOk(h, log, i);
    }
  }

  lemma OverriddenGrows(h: Hist, h': Hist, a: Ack, upTo: int)
    requires Extends(h, h') && LeaderLogsOk(h) && AckOk(h, a) && Overridden(h, a, upTo)
    ensures a.term in h'.leaderLog && Overridden(h', a, upTo)
  {
    var t :| a.term < t <= upTo && t in h.leaderLog && !Holds(h, a, h.leaderLog[t]);
    assert LeaderLogOk(h, a.term);
    var l, l' := h.leaderLog[t], h'.leaderLog[t];
    assert Grown(l, l', t) && Grown(h.leaderLog[a.term], h'.leaderLog[a.term], a.term);
    assert |l| < a.len && |l| < |l'| ==> l'[|l|].term == t;
    assert !Holds(h', a, l');
  }

  lemma CommittedGrows(h: Hist, h': Hist, n: nat, t: nat, k: nat)
    requires Extends(h, h') && Committed(h, n, t, k)
    ensures Committed(h', n, t, k) && Agree(h'.leaderLog[t], h.leaderLog[t], k)
  {
    var q :| AckQuorum(h, n, q, t, k);
    assert AckQuorum(h', n, q, t, k);
  }

  lemma CommitOkGrows(h: Hist, h': Hist, n: nat, log: Log, c: nat, upTo: nat, upTo': nat)
    requires Extends(h, h') && CommitOk(h, n, log, c, upTo) && upTo <= upTo'
    ensures CommitOk(h', n, log, c, upTo')
  {
    if c > 1 {
      var t: nat, k: nat :| t <= upTo && Covers(h, n, t, k, log, c);
      CommittedGrows(h, h', n, t, k);
      assert Covers(h', n, t, k, log, c);
    }
  }

  lemma AppliedOkGrows(h: Hist, h': Hist, n: nat, r: Applied)
    requires Extends(h, h') && AppliedOk(h, n, r)
    ensures AppliedOk(h', n, r)
  {
    var t: nat, k: nat :|
      Committed(h, n, t, k) && 1 <= r.index < k && h.leaderLog[t][r.index].command == r.command;
    CommittedGrows(h, h', n, t, k);
  }

  lemma LeaderLogsGrow(h: Hist, h': Hist, t: nat)
    requires Extends(h, h') && LeaderLogsOk(h) && t in h.leaderLog && t in h'.elections
    requires h'.leaderLog[t] == h.leaderLog[t]
    ensures LeaderLogOk(h', t)
  {
    assert LeaderLogOk(h, t);
    LogOkGrows(h, h', h.leaderLog[t]);
  }

  lemma ElectionGrows(h: Hist, h': Hist, n: nat, t: nat)
    requires Extends(h, h') && LeaderLogsOk(h) && ElectionsOk(h, n) && t in h.elections
    ensures ElectionOk(h', n, t, h'.elections[t])
  {
    var e := h.elections[t];
    assert ElectionOk(h, n, t, e);
    forall v | v in e.voterLog ensures VoterOk(h', t, e, v) {
      assert VoterOk(h, t, e, v);
      LogOkGrows(h, h', e.voterLog[v]);
    }
  }

  lemma AckVoteGrows(h: Hist, h': Hist, a: Ack, v: Vote)
    requires Extends(h, h') && LeaderLogsOk(h) && AckOk(h, a) && AckVoteOk(h, a, v)
    ensures AckOk(h', a) && AckVoteOk(h', a, v)
  {
    if Overridden(h, a, v.term) { OverriddenGrows(h, h', a, v.term); }
  }

  lemma AckElectionGrows(h: Hist, h': Hist, a: Ack, t: nat)
    requires Extends(h, h') && LeaderLogsOk(h) && AckOk(h, a) && t in h.elections && AckElectionOk(h, a, t)
    ensures AckOk(h', a) && AckElectionOk(h', a, t)
  {
    if Overridden(h, a, t - 1) { OverriddenGrows(h, h', a, t - 1); }
  }

  /** What is left to show after a history has grown: only what is new in it. */
  ghost predicate NewLeadersOk(h: Hist, h': Hist, n: nat) {
    && h'.leaderLog.Keys == h'.elections.Keys
    && (forall t | t in h'.leaderLog && (t !in h.leaderLog || h'.leaderLog[t] != h.leaderLog[t]) :: LeaderLogOk(h', t))
    && (forall t | t in h'.elections && t !in h.elections :: ElectionOk(h', n, t, h'.elections[t]))
  }

  ghost predicate NewVotesOk(h: Hist, h': Hist) {
    && (forall v | v in h'.votes - h.votes :: LogOk(h', v.log))
    && (forall v, w | v in h'.votes - h.votes && w in h'.votes && v.voter == w.voter && v.term == w.term :: v.cand == w.cand)
  }

  ghost predicate NewAcksOk(h: Hist, h': Hist) {
    && (forall a | a in h'.acks - h.acks :: AckOk(h', a))
    && (forall a | a in h'.acks :: a.term in h'.leaderLog)
    && (forall a, v {:trigger AckVoteOk(h', a, v)} |
          a in h'.acks && v in h'.votes && !(a in h.acks && v in h.votes) :: AckVoteOk(h', a, v))
    && (forall a, t {:trigger AckElectionOk(h', a, t)} |
          a in h'.acks && t in h'.elections && !(a in h.acks && t in h.elections) :: AckElectionOk(h', a, t))
  }

  lemma LeadersGrow(h: Hist, h': Hist, n: nat)
    requires Extends(h, h') && LeaderLogsOk(h) && ElectionsOk(h, n) && NewLeadersOk(h, h', n)
    ensures LeaderLogsOk(h') && ElectionsOk(h', n)
  {
    forall t | t in h'.leaderLog ensures LeaderLogOk(h', t) {
      if t in h.leaderLog && h'.leaderLog[t] == h.leaderLog[t] { LeaderLogsGrow(h, h', t); }
    }
    forall t | t in h'.elections ensures ElectionOk(h', n, t, h'.elections[t]) {
      if t in h.elections { ElectionGrows(h, h', n, t); }
    }
  }

  lemma VotesGrow(h: Hist, h': Hist)
    requires Extends(h, h') && VotesOk(h) && NewVotesOk(h, h')
    ensures VotesOk(h')
  {
    forall v | v in h'.votes ensures LogOk(h', v.log) {
      if v in h.votes { LogOkGrows(h, h', v.log); }
    }
  }

  lemma AcksGrow(h: Hist, h': Hist)
    requires Extends(h, h') && LeaderLogsOk(h) && AcksOk(h) && NewAcksOk(h, h')
    ensures AcksOk(h')
  {
    forall a | a in h'.acks ensures AckOk(h', a) {
      if a in h.acks { assert AckOk(h, a); }
    }
    forall a, v | a in h'.acks && v in h'.votes ensures AckVoteOk(h', a, v) {
      if a in h.acks && v in h.votes { assert AckOk(h, a) && AckVoteOk(h, a, v); AckVoteGrows(h, h', a, v); }
    }
    forall a, t | a in h'.acks && t in h'.elections ensures AckElectionOk(h', a, t) {
      if a in h.acks && t in h.elections { assert AckOk(h, a) && AckElectionOk(h, a, t); AckElectionGrows(h, h', a, t); }
    }
  }

  lemma HistGrows(h: Hist, h': Hist, n: nat)
    requires Extends(h, h') && HistOk(h, n)
    requires NewLeadersOk(h, h', n) && NewVotesOk(h, h') && NewAcksOk(h, h')
    ensures HistOk(h', n)
  {
    LeadersGrow(h, h', n);
    VotesGrow(h, h');
    AcksGrow(h, h');
  }

  // ---------------------------------------------------------------- a new vote

  ghost function WithVote(h: Hist, v: Vote): Hist {
    h.(votes := h.votes + {v})
  }

  lemma VoteAdded(h: Hist, n: nat, v: Vote)
    requires HistOk(h, n) && LogOk(h, v.log)
    requires forall w | w in h.votes && w.voter == v.voter && w.term == v.term :: w.cand == v.cand
    requires forall a | a in h.acks :: a.term in h.leaderLog && AckVoteOk(h, a, v)
    ensures Extends(h, WithVote(h, v)) && HistOk(WithVote(h, v), n)
  {
    var h' := WithVote(h, v);
    assert Extends(h, h');
    LogOkGrows(h, h', v.log);
    forall a | a in h'.acks ensures AckVoteOk(h', a, v) {
      assert AckOk(h, a) && AckVoteOk(h, a, v);
      AckVoteGrows(h, h', a, v);
    }
    HistGrows(h, h', n);
  }

  // ------------------------------------------------------------ a new election

  ghost function WithLeader(h: Hist, t: nat, e: Election, log: Log): Hist {
    h.(leaderLog := h.leaderLog[t := log], elections := h.elections[t := e])
  }

  ghost predicate Elects(h: Hist, n: nat, t: nat, e: Election, log: Log) {
    && IsQuorum(e.voterLog.Keys, n) && e.leader in e.voterLog
    && log != [] && e.base == |log|
    && forall v | v in e.voterLog ::
         && e.voterLog[v] != []
         && UpToDate(LastTerm(log), |log| - 1, e.voterLog[v], 0)
         && Vote(v, e.leader, t, e.voterLog[v]) in h.votes
  }

  lemma LeaderAdded(h: Hist, n: nat, t: nat, e: Election, log: Log)
    requires HistOk(h, n) && t > 0 && t !in h.leaderLog && Elects(h, n, t, e, log)
    requires LogOk(h, log) && forall i | 0 <= i < |log| :: log[i].term < t
    ensures Extends(h, WithLeader(h, t, e, log)) && HistOk(WithLeader(h, t, e, log), n)
  {
    var h' := WithLeader(h, t, e, log);
    assert Extends(h, h');
    LogOkGrows(h, h', log);
    forall v | v in e.voterLog ensures VoterOk(h', t, e, v) {
      assert Vote(v, e.leader, t, e.voterLog[v]) in h.votes;
      LogOkGrows(h, h', Vote(v, e.leader, t, e.voterLog[v]).log);
    }
    assert NewLeadersOk(h, h', n);
    forall a | a in h'.acks ensures a.term in h'.leaderLog && AckElectionOk(h', a, t) {
      assert AckOk(h, a);
      if a.peer in e.voterLog && a.term < t { NewVoterHolds(h, h', a, t, e); }
    }
    HistGrows(h, h', n);
  }

  /** When a leader is new, nothing later than its voters' terms can have overridden them. */
  lemma NewVoterHolds(h: Hist, h': Hist, a: Ack, t: nat, e: Election)
    requires Extends(h, h') && LeaderLogsOk(h) && AcksOk(h) && t !in h.leaderLog
    requires a in h.acks && a.peer in e.voterLog && a.term < t
    requires Vote(a.peer, e.leader, t, e.voterLog[a.peer]) in h.votes
    ensures AckOk(h', a) && (Holds(h', a, e.voterLog[a.peer]) || Overridden(h', a, t - 1))
  {
    var v := Vote(a.peer, e.leader, t, e.voterLog[a.peer]);
    assert AckOk(h, a) && AckVoteOk(h, a, v);
    if !Holds(h, a, v.log) {
      assert Overridden(h, a, t - 1);
      OverriddenGrows(h, h', a, t - 1);
    }
  }

  // ------------------------------------------------------- new acknowledgements

  /** Acknowledging a prefix acknowledges every shorter one. */
  ghost function AcksUpTo(peer: nat, t: nat, len: nat): (s: set<Ack>)
    ensures forall a :: a in s <==> a.peer == peer && a.term == t && a.len <= len
  {
    var s := set k | 0 <= k <= len :: Ack(peer, t, k);
    assert forall a: Ack | a.peer == peer && a.term == t && a.len <= len :: a == Ack(peer, t, a.len);
    s
  }

  ghost function WithAcks(h: Hist, peer: nat, t: nat, len: nat): Hist {
    h.(acks := h.acks + AcksUpTo(peer, t, len))
  }

  lemma AcksAdded(h: Hist, n: nat, peer: nat, t: nat, len: nat)
    requires HistOk(h, n) && t in h.leaderLog && len <= |h.leaderLog[t]|
    requires forall v | v in h.votes && v.voter == peer :: v.term <= t
    ensures Extends(h, WithAcks(h, peer, t, len)) && HistOk(WithAcks(h, peer, t, len), n)
  {
    var h' := WithAcks(h, peer, t, len);
    assert Extends(h, h');
    forall a | a in h'.acks ensures a.term in h'.leaderLog { if a in h.acks { assert AckOk(h, a); } }
    forall a, u | a in h'.acks - h.acks && u in h'.elections ensures AckElectionOk(h', a, u) {
      if a.peer in h.elections[u].voterLog {
        assert ElectionOk(h, n, u, h.elections[u]);
        assert VoterOk(h, u, h.elections[u], peer);
      }
    }
    HistGrows(h, h', n);
  }

  // ---------------------------------------------------------------- a new entry

  ghost function WithEntry(h: Hist, t: nat, entry: Entry): Hist
    requires t in h.leaderLog
  {
    h.(leaderLog := h.leaderLog[t := h.leaderLog[t] + [entry]])
  }

  lemma EntryAdded(h: Hist, n: nat, t: nat, entry: Entry)
    requires HistOk(h, n) && t in h.leaderLog && entry.term == t
    ensures Extends(h, WithEntry(h, t, entry)) && HistOk(WithEntry(h, t, entry), n)
  {
    var h' := WithEntry(h, t, entry);
    assert Extends(h, h');
    LongerLeaderLog(h, h', t, entry);
    forall a | a in h'.acks ensures a.term in h'.leaderLog { assert AckOk(h, a); }
    HistGrows(h, h', n);
  }

  lemma LongerLeaderLog(h: Hist, h': Hist, t: nat, entry: Entry)
    requires LeaderLogsOk(h) && t in h.leaderLog && entry.term == t && h' == WithEntry(h, t, entry) && Extends(h, h')
    ensures LeaderLogOk(h', t)
  {
    assert LeaderLogOk(h, t);
    var log, log' := h.leaderLog[t], h'.leaderLog[t];
    LogOkGrows(h, h', log);
    forall i | 1 <= i < |log'| ensures EntryOk(h', log', i) {
      if i < |log| { assert EntryOk(h', log, i); }
    }
  }

  // -------------------------------------------------------- newly applied commands

  ghost function WithApplied(h: Hist, r: set<Applied>): Hist {
    h.(applied := h.applied + r)
  }

  lemma AppliedAdded(h: Hist, n: nat, r: set<Applied>)
    requires HistOk(h, n)
    ensures Extends(h, WithApplied(h, r)) && HistOk(WithApplied(h, r), n)
  {
    var h' := WithApplied(h, r);
    assert Extends(h, h');
    forall a | a in h'.acks ensures a.term in h'.leaderLog { assert AckOk(h, a); }
    HistGrows(h, h', n);
  }
}
