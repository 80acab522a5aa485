/** What single sections of a Raft peer answer, in both directions: when a vote is granted, when a
    count is won or lost, which term a peer is in afterwards, and what a new leader sends. */
module RaftAnswers {
  import opened Session
  import opened RaftPeer

  // -------------------------------------------------------------------- votes

  /** The request names a later last entry than the log has, or one as late. */
  ghost predicate AsRecent(lastTerm: nat, lastIndex: nat, p: Peer)
    requires p.logs != []
  {
    lastTerm > LastTerm(p.logs) || (lastTerm == LastTerm(p.logs) && lastIndex >= End(p) - 1)
  }

  /** A vote is granted if and only if it is still free for this candidate in this term and the
      candidate's last entry is as recent as the voter's. */
  lemma VoteIff(p: Peer, a: VoteArgs)
    requires p.logs != []
    ensures var (q, reply) := RequestVote(p, a);
      && (reply.granted <==>
            && (a.term > p.currentTerm || (a.term == p.currentTerm && (p.votedFor == NO_VOTE || p.votedFor == a.cand)))
            && AsRecent(a.lastTerm, a.lastIndex, p))
      && (reply.granted ==> q.votedFor == a.cand)
      && (!reply.granted && a.term <= p.currentTerm ==> q == p)
      && reply.term == q.currentTerm
  {
  }

  /** What a candidate reads off an answer: a vote, a higher term to yield to, or nothing. */
  lemma VoteResultIff(a: VoteArgs, reply: VoteReply)
    ensures VoteResult(a, reply) == VOTE_SUCCESS <==> reply.granted
    ensures VoteResult(a, reply) == VOTE_FAIL <==> !reply.granted && reply.term <= a.term
    ensures !reply.granted && reply.term > a.term ==> VoteResult(a, reply) == reply.term
  {
  }

  ghost function Wins(results: seq<int>): nat {
    if results == [] then 0 else (if results[0] == VOTE_SUCCESS then 1 else 0) + Wins(results[1..])
  }

  ghost predicate NoneHigher(results: seq<int>) {
    forall i | 0 <= i < |results| :: results[i] == VOTE_SUCCESS || results[i] == VOTE_FAIL
  }

  /** After the first `k` answers the votes are a majority, and none of them had a higher term. */
  ghost predicate WonBy(results: seq<int>, votes: nat, n: nat, k: nat) {
    k <= |results| && NoneHigher(results[..k]) && 2 * (votes + Wins(results[..k])) > n
  }

  /** Answer `k` has a higher term, and there was none and no majority before it. */
  ghost predicate DeposedBy(results: seq<int>, votes: nat, n: nat, k: nat) {
    && k < |results| && results[k] != VOTE_SUCCESS && results[k] != VOTE_FAIL
    && NoneHigher(results[..k]) && 2 * (votes + Wins(results[..k])) <= n
  }

  /** The count is won exactly when some answers in a row make a majority before a higher term
      comes up, and deposes exactly when the higher term comes first. */
  lemma {:induction false} TallyIff(results: seq<int>, votes: nat, n: nat)
    requires 2 * votes <= n
    ensures Tally(results, votes, n) == Elected <==> exists k: nat :: WonBy(results, votes, n, k)
    ensures forall t :: Tally(results, votes, n) == Deposed(t) <==> exists k: nat :: DeposedBy(results, votes, n, k) && results[k] == t
  {
    var o := Tally(results, votes, n);
    TallyMeans(results, votes, n);
    if k: nat :| WonBy(results, votes, n, k) { WinFound(results, votes, n, k); }
    if k: nat :| DeposedBy(results, votes, n, k) { DeposeFound(results, votes, n, k); }
  }

  lemma {:induction false} TallyMeans(results: seq<int>, votes: nat, n: nat)
    requires 2 * votes <= n
    ensures Tally(results, votes, n) == Elected ==> exists k: nat :: WonBy(results, votes, n, k)
    ensures var o := Tally(results, votes, n); o.Deposed? ==> exists k: nat :: DeposedBy(results, votes, n, k) && results[k] == o.term
  {
    var o := Tally(results, votes, n);
    if results != [] {
      var won := results[0] == VOTE_SUCCESS;
      if !won && results[0] != VOTE_FAIL {
        assert DeposedBy(results, votes, n, 0);
      } else if won && 2 * (votes + 1) > n {
        assert results[..1][1..] == [];
        assert WonBy(results, votes, n, 1);
      } else {
        var rest, votes' := results[1..], if won then votes + 1 else votes;
        TallyMeans(rest, votes', n);
        if o == Elected {
          var k: nat :| WonBy(rest, votes', n, k);
          if k < |results| { Later(results, k); }
          assert WonBy(results, votes, n, k + 1);
        } else if o.Deposed? {
          var k: nat :| DeposedBy(rest, votes', n, k) && rest[k] == o.term;
          Later(results, k);
          assert DeposedBy(results, votes, n, k + 1) && results[k + 1] == o.term;
        }
      }
    }
  }

  lemma Later(results: seq<int>, k: nat)
    requires k < |results|
    ensures Wins(results[..k + 1]) == (if results[0] == VOTE_SUCCESS then 1 else 0) + Wins(results[1..][..k])
    ensures NoneHigher(results[..k + 1]) <==> NoneHigher(results[1..][..k]) && (results[0] == VOTE_SUCCESS || results[0] == VOTE_FAIL)
  {
    var a, b := results[..k + 1], results[1..][..k];
    assert a[1..] == b;
    if NoneHigher(b) {
      forall i | 1 <= i < |a| ensures a[i] == VOTE_SUCCESS || a[i] == VOTE_FAIL { assert a[i] == b[i - 1]; }
    }
    if NoneHigher(a) {
      forall i | 0 <= i < |b| ensures b[i] == VOTE_SUCCESS || b[i] == VOTE_FAIL { assert a[i + 1] == b[i]; }
    }
  }

  lemma {:induction false} WinFound(results: seq<int>, votes: nat, n: nat, k: nat)
    requires 2 * votes <= n && WonBy(results, votes, n, k)
    ensures Tally(results, votes, n) == Elected
  {
    Later(results, k - 1);
    var votes' := if results[0] == VOTE_SUCCESS then votes + 1 else votes;
    if 2 * votes' <= n { WinFound(results[1..], votes', n, k - 1); }
  }

  lemma {:induction false} DeposeFound(results: seq<int>, votes: nat, n: nat, k: nat)
    requires 2 * votes <= n && DeposedBy(results, votes, n, k)
    ensures Tally(results, votes, n) == Deposed(results[k])
  {
    if k > 0 {
      Later(results, k - 1);
      var votes' := if results[0] == VOTE_SUCCESS then votes + 1 else votes;
      DeposeFound(results[1..], votes', n, k - 1);
    }
  }

  // -------------------------------------------------------------------- terms

  ghost function Max(x: nat, y: nat): nat {
    if x > y then x else y
  }

  /** A request leaves its receiver in the later of the two terms. One of a later term, or of a
      leader of the same term, leaves it a follower. */
  lemma RequestsRaiseTerm(p: Peer, v: VoteArgs, a: AppendArgs, s: SnapshotArgs)
    requires p.logs != [] && p.startIndex < p.lastApplied
    ensures var q := RequestVote(p, v).0; q.currentTerm == Max(p.currentTerm, v.term) && (v.term > p.currentTerm ==> q.role == Follower)
    ensures var q := AppendEntries(p, a).0; q.currentTerm == Max(p.currentTerm, a.term) && (a.term >= p.currentTerm ==> q.role == Follower)
    ensures var q := InstallSnapshot(p, s).0; q.currentTerm == Max(p.currentTerm, s.term) && (s.term >= p.currentTerm ==> q.role == Follower)
  {
  }

  /** An answer of a later term, to a call of the current one, leaves the leader a follower in that
      term with its vote free. */
  lemma AnswersDepose(p: Peer, peer: nat, a: AppendArgs, r: AppendReply, s: SnapshotArgs, term: nat)
    requires peer < |p.nextIndex| == |p.matchIndex| && r.xIndex <= End(p) && p.currentTerm == a.term == s.term
    requires p.nextIndex[peer] == a.prevIndex + 1 && !r.success && r.term > a.term && term > s.term
    ensures var q := OnAppendReply(p, peer, a, r).0; q.currentTerm == r.term && q.role == Follower && q.votedFor == NO_VOTE
    ensures var q := OnSnapshotReply(p, peer, s.term, s.lastIndex + 1, term);
      q.currentTerm == term && q.role == Follower && q.votedFor == NO_VOTE
  {
  }

  // ------------------------------------------------------------- a new leader

  /** The first request of a new leader to any peer carries exactly what was submitted to it since
      it won: nothing, or the command. */
  lemma FirstRequest(p: Peer, peer: nat, command: Payload)
    requires p.logs != [] && p.role != Leader && peer < |p.nextIndex|
    ensures var (q, args) := StandForElection(p);
      var leader := TakeOffice(q, args);
      var busy := Start(leader, command).0;
      && leader.role == Leader && leader.nextIndex[peer] == End(leader)
      && SendLog(leader, peer).1 == SendAppend(AppendArgs(p.currentTerm + 1, LastTerm(p.logs), End(p) - 1, [], p.commitIndex))
      && SendLog(busy, peer).1 == SendAppend(AppendArgs(p.currentTerm + 1, LastTerm(p.logs), End(p) - 1,
                                                        [Entry(p.currentTerm + 1, command)], p.commitIndex))
  {
    var (q, args) := StandForElection(p);
    var busy := Start(TakeOffice(q, args), command).0;
    assert busy.logs[|p.logs|..] == [Entry(p.currentTerm + 1, command)];
    assert busy.logs[|p.logs| - 1] == p.logs[|p.logs| - 1];
  }

  // ---------------------------------------------------------------- snapshots

  /** A follower that is behind the leader's cut takes the snapshot, bytes and term, and keeps what
      it has past it only where its own entry there is of that term. */
  lemma SnapshotTaken(f: Peer, s: SnapshotArgs)
    requires f.logs != [] && f.startIndex < f.lastApplied <= s.lastIndex && s.term >= f.currentTerm
    ensures var (g, term, late) := InstallSnapshot(f, s);
      && term == s.term && !late && g.snapshotApplying && g.startIndex == s.lastIndex && g.snapshot == s.data
      && g.lastApplied == s.lastIndex + 1 && g.commitIndex == Max(f.commitIndex, s.lastIndex + 1)
      && g.logs != [] && g.logs[0].term == s.lastTerm
      && (if s.lastIndex < End(f) && f.logs[s.lastIndex - f.startIndex].term == s.lastTerm
          then g.logs[1..] == f.logs[s.lastIndex - f.startIndex + 1..] else |g.logs| == 1)
  {
  }

  /** The applier announces a snapshot that was installed with its own bytes, term and index, once. */
  lemma SnapshotAnnounced(f: Peer, s: SnapshotArgs)
    requires f.logs != [] && f.startIndex < f.lastApplied <= s.lastIndex && s.term >= f.currentTerm
    ensures var g := InstallSnapshot(f, s).0;
      && g.snapshotApplying && g.logs != []
      && TakeSnapshot(g).1 == SnapshotMsg(s.data, s.lastTerm, s.lastIndex) && TakeSnapshot(g).0 == g.(snapshotApplying := false)
  {
  }

  /** After the exchange the leader knows that the follower has the prefix, and the follower does. */
  lemma SnapshotExchange(p: Peer, peer: nat, f: Peer)
    requires p.logs != [] && peer < |p.nextIndex| == |p.matchIndex| && p.nextIndex[peer] <= p.startIndex
    requires f.logs != [] && f.startIndex < f.lastApplied <= f.commitIndex && f.currentTerm <= p.currentTerm
    ensures SendLog(p, peer).1.SendSnapshot?
    ensures var (q, out) := SendLog(p, peer);
      var (g, term, late) := InstallSnapshot(f, out.install);
      var leader := OnSnapshotReply(q, peer, out.install.term, out.install.lastIndex + 1, term);
      && leader.matchIndex[peer] == Max(p.matchIndex[peer], p.startIndex + 1) && leader.nextIndex[peer] == p.startIndex + 1
      && g.lastApplied > p.startIndex && g.commitIndex > p.startIndex
      && (f.lastApplied <= p.startIndex ==> g.snapshot == p.snapshot && g.startIndex == p.startIndex)
      && (late <==> f.startIndex < p.startIndex < f.lastApplied)
  {
    if f.lastApplied <= p.startIndex { SnapshotTaken(f, SendLog(p, peer).1.install); }
  }

  /** Snapshot keeps every entry past the index and hands the bytes on. */
  lemma SnapshotCuts(p: Peer, index: nat, data: seq<int>, i: nat)
    requires p.logs != [] && index < End(p)
    ensures var q := Snapshot(p, index, data);
      && End(q) == End(p) && q.logs != [] && q.startIndex == Max(p.startIndex, index)
      && (index > p.startIndex ==> q.snapshot == data && q.logs[0].term == p.logs[index - p.startIndex].term)
      && (index <= p.startIndex ==> q == p)
      && (q.startIndex < i < End(q) ==> q.logs[i - q.startIndex] == p.logs[i - p.startIndex])
  {
  }
}
