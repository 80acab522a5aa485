/** What AppendEntries does to a log, in terms of the leader's log it came from. */
module RaftMerge {
  import opened RaftPeer
  import opened RaftHistory

  /** Equal terms at one index mean equal logs up to it. */
  ghost predicate TermsMatch(a: Log, b: Log) {
    forall i {:trigger a[i], b[i]} | 0 <= i < |a| && i < |b| && a[i].term == b[i].term :: Agree(a, b, i + 1)
  }

  /** `entries` are the leader's entries from `at` on. */
  ghost predicate SliceOf(entries: Log, leader: Log, at: nat) {
    at + |entries| <= |leader| && forall i | 0 <= i < |entries| :: entries[i] == leader[at + i]
  }

  /** The merged log is the old one if it already had everything sent, and exactly
      the leader's prefix otherwise: nothing that agrees is ever dropped. */
  lemma {:induction false} MergeResult(logs: Log, at: nat, entries: Log, leader: Log)
    requires 1 <= at <= |logs| && Agree(logs, leader, at) && SliceOf(entries, leader, at) && TermsMatch(logs, leader)
    ensures Merge(logs, at, entries) ==
            if Agree(logs, leader, at + |entries|) then logs else leader[..at + |entries|]
    decreases |entries|
  {
    if entries != [] {
      assert entries[0] == leader[at];
      if at == |logs| || logs[at].term != entries[0].term {
        assert logs[..at] + entries == leader[..at + |entries|];
      } else {
        assert Agree(logs, leader, at + 1);
        assert SliceOf(entries[1..], leader, at + 1) by {
          assert forall i | 0 <= i < |entries| - 1 :: entries[1..][i] == entries[i + 1];
        }
        MergeResult(logs, at + 1, entries[1..], leader);
      }
    }
  }

  /** A merge keeps every prefix on which the two logs agreed. */
  lemma MergeKeeps(logs: Log, merged: Log, leader: Log, len: nat, c: nat)
    requires len <= |leader| && merged == if Agree(logs, leader, len) then logs else leader[..len]
    requires Agree(logs, leader, c)
    ensures Agree(merged, leader, c) && Agree(merged, logs, c) && Agree(merged, leader, len)
  {
  }
}
