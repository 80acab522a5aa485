/** The commit point: testIndexL is antitone in its index, so the end of the
    majority-matched stretch is well defined and can be found by bisection. */
module RaftCommitPoint {
  import opened Quorums
  import opened RaftPeer

  /** `q` is a majority with the peer itself in it and some other, all of which are known to hold
      the entry at `index`. */
  ghost predicate HoldingQuorum(p: Peer, index: nat, q: set<nat>) {
    IsQuorum(q, |p.matchIndex|) && p.me in q && q != {p.me} && forall i | i in q && i != p.me :: p.matchIndex[i] > index
  }

  ghost predicate MajorityHolds(p: Peer, index: nat) {
    exists q :: HoldingQuorum(p, index, q)
  }

  /** testIndexL answers true if and only if a majority holds the entry. */
  lemma TestIsMajority(p: Peer, index: nat)
    requires p.me < |p.matchIndex|
    ensures TestIndex(p, index) <==> MajorityHolds(p, index)
  {
    var m := Matched(p, index);
    if q :| HoldingQuorum(p, index, q) {
      assert q - {p.me} <= m;
      SubsetSize(q - {p.me}, m);
      assert q == q - {p.me} + {p.me};
    }
    if TestIndex(p, index) {
      assert m + {p.me} != {p.me};
      assert HoldingQuorum(p, index, m + {p.me});
    }
  }

  /** If a majority holds a later entry, the same majority holds every earlier one. */
  lemma TestIndexAntitone(p: Peer, i: nat, j: nat)
    requires i <= j && TestIndex(p, j)
    ensures TestIndex(p, i)
  {
    SubsetSize(Matched(p, j), Matched(p, i));
  }

  /** Walking stops right after the last index that passed the test. */
  lemma {:induction false} MatchedEndRange(p: Peer, lo: nat, hi: nat)
    ensures MatchedEnd(p, lo, hi) >= lo
    ensures MatchedEnd(p, lo, hi) > lo ==> TestIndex(p, MatchedEnd(p, lo, hi) - 1)
    decreases hi - lo
  {
    if lo < hi && TestIndex(p, lo) { MatchedEndRange(p, lo + 1, hi); }
  }

  /** The walk ends exactly where the test first fails. */
  lemma {:induction false} MatchedEndIs(p: Peer, lo: nat, hi: nat, e: nat)
    requires lo <= e <= hi
    requires e > lo ==> TestIndex(p, e - 1)
    requires e < hi ==> !TestIndex(p, e)
    ensures MatchedEnd(p, lo, hi) == e
    decreases hi - lo
  {
    if lo < e {
      TestIndexAntitone(p, lo, e - 1);
      MatchedEndIs(p, lo + 1, hi, e);
    }
  }

  /** After a pass of a committer that has committed before, an index of the log at or
      above the old commit point is committed if and only if a majority matches it. */
  lemma {:induction false} CommitPointExact(p: Peer, index: nat)
    requires p.commitIndex <= index < End(p) && p.me < |p.matchIndex|
    ensures index < Commit(p, true).0.commitIndex <==> MajorityHolds(p, index)
  {
    TestIsMajority(p, index);
    if TestIndex(p, p.commitIndex) {
      EndExact(p, p.commitIndex + 1, End(p), index);
    } else if TestIndex(p, index) {
      TestIndexAntitone(p, p.commitIndex, index);
    }
  }

  /** The first commit of a term is of the leader's own first entry in it, and comes if and only if
      a majority holds that. */
  lemma FirstCommitExact(p: Peer)
    requires p.me < |p.matchIndex|
    ensures var (q, newCommit) := Commit(p, false);
      newCommit == MajorityHolds(p, p.newOp) && q.commitIndex == if newCommit then p.newOp + 1 else p.commitIndex
  {
    TestIsMajority(p, p.newOp);
  }

  lemma {:induction false} EndExact(p: Peer, lo: nat, hi: nat, index: nat)
    requires lo <= hi && index < hi && lo > 0 && TestIndex(p, lo - 1)
    ensures index < MatchedEnd(p, lo, hi) <==> (index < lo || TestIndex(p, index))
    decreases hi - lo
  {
    if lo < hi && TestIndex(p, lo) {
      EndExact(p, lo + 1, hi, index);
    } else if lo <= index && TestIndex(p, index) {
      TestIndexAntitone(p, lo, index);
    }
  }
}
