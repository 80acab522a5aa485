/** The Raft peer as the source writes it: an object whose methods are the locked
    sections of src/raft, with their loops. Every method computes exactly what the
    function of the same name in RaftPeer says. */
module Raft {
  import opened Session
  import opened Quorums
  import P = RaftPeer
  import C = RaftCommitPoint

  class Raft {
    const me: nat
    const peers: nat
    var currentTerm: nat
    var votedFor: int
    var role: P.Role
    var logs: seq<P.Entry>
    var startIndex: nat
    var commitIndex: nat
    var lastApplied: nat
    var nextIndex: seq<nat>
    var matchIndex: seq<nat>
    var newOp: nat
    var snapshot: seq<int>
    var snapshotApplying: bool

    ghost function View(): (p: P.Peer)
      reads this
    {
      P.Peer(me, currentTerm, votedFor, role, logs, startIndex, commitIndex, lastApplied,
             nextIndex, matchIndex, newOp, snapshot, snapshotApplying)
    }

    ghost predicate Valid()
      reads this
    {
      && logs != [] && |nextIndex| == |matchIndex| == peers
      && startIndex < lastApplied <= commitIndex <= startIndex + |logs|
    }

    /** Make without persisted state. */
    constructor (me: nat, n: nat)
      ensures View() == P.Fresh(me, n) && peers == n && Valid()
    {
      this.me, peers := me, n;
      currentTerm, votedFor, role := 0, P.NO_VOTE, P.Follower;
      logs, startIndex := [P.SENTINEL], 0;
      commitIndex, lastApplied := 1, 1;
      nextIndex, matchIndex := seq(n, _ => 0), seq(n, _ => 0);
      newOp, snapshot, snapshotApplying := 0, [], false;
    }

    /** Make from what a controlled shutdown of `saved` persisted. */
    constructor Restore(me: nat, n: nat, saved: P.Peer)
      requires saved.me == me && saved.logs != []
      ensures View() == P.Restart(saved, n) && peers == n && Valid()
    {
      this.me, peers := me, n;
      currentTerm, votedFor, role := saved.currentTerm, saved.votedFor, P.Follower;
      logs, startIndex := saved.logs, saved.startIndex;
      commitIndex, lastApplied := 1, 1;
      nextIndex, matchIndex := seq(n, _ => 0), seq(n, _ => 0);
      newOp, snapshot, snapshotApplying := 0, [], false;
      if saved.startIndex > 0 {
        snapshot := saved.snapshot;
        commitIndex, lastApplied := saved.startIndex + 1, saved.startIndex + 1;
      }
    }

    // -------------------------------------------------------------- elections

    method GetLastLog() returns (term: nat, index: nat)
      requires Valid()
      ensures term == P.LastTerm(logs) && index == P.End(View()) - 1
    {
      var logLen := |logs| - 1;
      index := startIndex + logLen;
      term := logs[logLen].term;
    }

    method RequestVote(args: P.VoteArgs) returns (reply: P.VoteReply)
      requires Valid()
      modifies this
      ensures Valid() && (View(), reply) == P.RequestVote(old(View()), args)
    {
      if currentTerm > args.term {
        return P.VoteReply(currentTerm, false);
      }
      if currentTerm < args.term {
        currentTerm, votedFor, role := args.term, P.NO_VOTE, P.Follower;
      } else if votedFor != args.cand && votedFor != P.NO_VOTE {
        return P.VoteReply(currentTerm, false);
      }
      var lastLogTerm, lastLogIndex := GetLastLog();
      if args.lastTerm < lastLogTerm || (args.lastTerm == lastLogTerm && args.lastIndex < lastLogIndex) {
        return P.VoteReply(currentTerm, false);
      }
      votedFor := args.cand;
      reply := P.VoteReply(currentTerm, true);
    }

    /** First section of startElection. */
    method StandForElection() returns (standing: bool, args: P.VoteArgs)
      requires Valid()
      modifies this
      ensures Valid() && standing == (old(role) != P.Leader)
      ensures if standing then (View(), args) == P.StandForElection(old(View())) else View() == old(View())
    {
      if role == P.Leader {
        return false, P.VoteArgs(0, 0, 0, 0);
      }
      currentTerm := currentTerm + 1;
      votedFor := me;
      role := P.Candidate;
      var lastLogTerm, lastLogIndex := GetLastLog();
      return true, P.VoteArgs(currentTerm, me, lastLogTerm, lastLogIndex);
    }

    /** The tally loop of startElection over the results it reads from the channel. */
    method TallyVotes(results: seq<int>) returns (outcome: P.Outcome)
      ensures outcome == P.Tally(results, 1, peers)
    {
      var votes := 1;
      var i := 0;
      assert results[0..] == results;
      while i < |results|
        invariant 0 <= i <= |results|
        invariant P.Tally(results, 1, peers) == P.Tally(results[i..], votes, peers)
      {
        var res := results[i];
        assert results[i..][1..] == results[i + 1..];
        if res == P.VOTE_SUCCESS {
          votes := votes + 1;
          if votes * 2 > peers { return P.Elected; }
        } else if res != P.VOTE_FAIL {
          return P.Deposed(res);
        }
        i := i + 1;
      }
      outcome := P.Lost;
    }

    /** Last section of startElection. */
    method FinishElection(args: P.VoteArgs, outcome: P.Outcome)
      requires Valid()
      modifies this
      ensures Valid()
      ensures View() == match outcome
                        case Elected => P.TakeOffice(old(View()), args)
                        case Deposed(t) => if t > old(currentTerm) then P.Depose(old(View()), t) else old(View())
                        case Lost => old(View())
    {
      match outcome
      case Lost =>
      case Deposed(t) =>
        if t > currentTerm {
          currentTerm, votedFor, role := t, P.NO_VOTE, P.Follower;
        }
      case Elected =>
        if currentTerm == args.term && role == P.Candidate {
          role := P.Leader;
          var i := 0;
          while i < peers
            invariant 0 <= i <= peers && |nextIndex| == |matchIndex| == peers
            invariant forall k | 0 <= k < i :: nextIndex[k] == args.lastIndex + 1 && matchIndex[k] == 1
            invariant View() == old(View()).(role := P.Leader, nextIndex := nextIndex, matchIndex := matchIndex)
          {
            nextIndex := nextIndex[i := args.lastIndex + 1];
            matchIndex := matchIndex[i := 1];
            i := i + 1;
          }
          newOp := 0;
          assert nextIndex == seq(peers, _ => args.lastIndex + 1) && matchIndex == seq(peers, _ => 1);
        }
    }

    // -------------------------------------------------------- log replication

    method Start(command: Payload) returns (index: int, term: nat, isLeader: bool)
      requires Valid()
      modifies this
      ensures Valid() && (View(), index) == P.Start(old(View()), command)
      ensures term == currentTerm == old(currentTerm) && isLeader == (old(role) == P.Leader)
    {
      term := currentTerm;
      if role != P.Leader {
        return -1, term, false;
      }
      index := startIndex + |logs|;
      isLeader := true;
      logs := logs + [P.Entry(term, command)];
      if newOp == 0 {
        newOp := index;
      }
    }

    /** The scan for the first entry of a conflicting term. */
    method FirstOfTerm(at: nat) returns (myIndex: nat)
      requires at < |logs|
      ensures myIndex == P.RunStart(logs, at)
    {
      myIndex := at;
      while myIndex > 0 && logs[myIndex].term == logs[myIndex - 1].term
        invariant 0 <= myIndex <= at
        invariant P.RunStart(logs, at) == P.RunStart(logs, myIndex)
      {
        myIndex := myIndex - 1;
      }
    }

    /** The loop that looks for the first entry to overwrite. */
    method MergeEntries(at: nat, entries: seq<P.Entry>)
      requires at <= |logs|
      modifies this`logs
      ensures logs == P.Merge(old(logs), at, entries)
    {
      var myIndex, argsIndex := at, 0;
      assert entries[0..] == entries;
      while argsIndex < |entries|
        invariant 0 <= argsIndex <= |entries| && myIndex == at + argsIndex <= |logs| && logs == old(logs)
        invariant P.Merge(logs, at, entries) == P.Merge(logs, myIndex, entries[argsIndex..])
      {
        assert entries[argsIndex..][1..] == entries[argsIndex + 1..];
        if myIndex >= |logs| || logs[myIndex].term != entries[argsIndex].term {
          logs := logs[..myIndex] + entries[argsIndex..];
          return;
        }
        myIndex := myIndex + 1;
        argsIndex := argsIndex + 1;
      }
    }

    /** The consistency check of AppendEntries and what follows it. */
    method AppendAt(args: P.AppendArgs) returns (reply: P.AppendReply)
      requires logs != [] && startIndex <= args.prevIndex
      modifies this`logs, this`commitIndex
      ensures logs != [] && (View(), reply) == P.AppendAt(old(View()), args)
    {
      if args.prevIndex >= startIndex + |logs| {
        var myIndex := FirstOfTerm(|logs| - 1);
        return P.AppendReply(currentTerm, false, logs[myIndex].term, myIndex + startIndex, |logs| + startIndex);
      }
      if logs[args.prevIndex - startIndex].term != args.prevTerm {
        var myIndex := FirstOfTerm(args.prevIndex - startIndex);
        return P.AppendReply(currentTerm, false, logs[myIndex].term, myIndex + startIndex, args.prevIndex);
      }
      MergeEntries(args.prevIndex - startIndex + 1, args.entries);
      if args.leaderCommit > commitIndex {
        commitIndex := args.leaderCommit;
      }
      assert logs != [] by { MergeNonEmpty(old(logs), args.prevIndex - startIndex + 1, args.entries); }
      reply := P.AppendReply(currentTerm, true, 0, 0, 0);
    }

    /** The term part of the handlers that a leader calls. */
    method YieldTo(term: nat)
      requires term >= currentTerm
      modifies this`currentTerm, this`votedFor, this`role
      ensures View() == P.Yield(old(View()), term)
    {
      if term > currentTerm {
        currentTerm, votedFor := term, P.NO_VOTE;
      }
      role := P.Follower;
    }

    method AppendEntries(args: P.AppendArgs) returns (reply: P.AppendReply)
      requires Valid()
      modifies this
      ensures logs != [] && (View(), reply) == P.AppendEntries(old(View()), args)
    {
      if args.term < currentTerm {
        return P.AppendReply(currentTerm, false, 0, 0, 0);
      }
      YieldTo(args.term);
      var shifted := args;
      if args.prevIndex < startIndex {
        var discardIndex := startIndex - args.prevIndex;
        if discardIndex >= |args.entries| {
          return P.AppendReply(currentTerm, true, 0, 0, 0);
        }
        shifted := args.(prevTerm := args.entries[discardIndex - 1].term, prevIndex := startIndex,
                         entries := args.entries[discardIndex..]);
      }
      reply := AppendAt(shifted);
    }

    /** The part of sendLog before the call. */
    method SendLog(peer: nat) returns (out: P.Outgoing)
      requires Valid() && peer < peers && nextIndex[peer] <= startIndex + |logs|
      modifies this
      ensures Valid() && (View(), out) == P.SendLog(old(View()), peer)
    {
      if nextIndex[peer] <= startIndex {
        nextIndex := nextIndex[peer := startIndex + 1];
        return P.SendSnapshot(P.SnapshotArgs(currentTerm, startIndex, logs[0].term, snapshot));
      }
      var toSend := logs[nextIndex[peer] - startIndex..];
      var prev := nextIndex[peer] - 1;
      out := P.SendAppend(P.AppendArgs(currentTerm, logs[prev - startIndex].term, prev, toSend, commitIndex));
    }

    /** The part of sendLog after the call, with the two backup loops. */
    method HandleAppendReply(peer: nat, args: P.AppendArgs, reply: P.AppendReply) returns (again: bool)
      requires Valid() && peer < peers && reply.xIndex <= startIndex + |logs|
      modifies this
      ensures Valid() && (View(), again) == P.OnAppendReply(old(View()), peer, args, reply)
    {
      if currentTerm != args.term || nextIndex[peer] != args.prevIndex + 1 {
        return false;
      }
      if reply.success {
        nextIndex := nextIndex[peer := nextIndex[peer] + |args.entries|];
        if nextIndex[peer] > matchIndex[peer] {
          matchIndex := matchIndex[peer := nextIndex[peer]];
        }
        return false;
      }
      if reply.term > args.term {
        currentTerm, votedFor, role := reply.term, P.NO_VOTE, P.Follower;
        return false;
      }
      var nIndex := Backup(reply);
      nextIndex := nextIndex[peer := nIndex];
      again := true;
    }

    /** The two backup loops of sendLog. */
    method Backup(reply: P.AppendReply) returns (nIndex: nat)
      requires reply.xIndex <= startIndex + |logs|
      ensures nIndex == P.Backup(logs, startIndex, reply)
    {
      nIndex := reply.xIndex;
      while nIndex > startIndex && logs[nIndex - startIndex - 1].term >= reply.xTerm
        invariant 0 <= nIndex <= reply.xIndex
        invariant P.BackBelow(logs, startIndex, reply.xIndex, reply.xTerm)
                  == P.BackBelow(logs, startIndex, nIndex, reply.xTerm)
      {
        nIndex := nIndex - 1;
      }
      if nIndex < startIndex {
        nIndex := startIndex;
      }
      ghost var floor := nIndex;
      while nIndex - startIndex < |logs| && nIndex < reply.xLen && logs[nIndex - startIndex].term == reply.xTerm
        invariant startIndex <= nIndex
        invariant P.SkipRun(logs, startIndex, floor, reply.xTerm, reply.xLen)
                  == P.SkipRun(logs, startIndex, nIndex, reply.xTerm, reply.xLen)
        decreases startIndex + |logs| - nIndex
      {
        nIndex := nIndex + 1;
      }
    }

    // ----------------------------------------------------------------- commit

    method TestIndex(index: nat) returns (majority: bool)
      requires |matchIndex| == peers
      ensures majority == P.TestIndex(View(), index)
    {
      var matched := 1;
      ghost var seen: set<nat> := {};
      var i := 0;
      while i < peers
        invariant 0 <= i <= peers && matched == |seen| + 1 && (seen == {} || 2 * matched <= peers)
        invariant forall k :: k in seen <==> k < i && k in P.Matched(View(), index)
      {
        if matchIndex[i] > index && i != me {
          matched := matched + 1;
          seen := seen + {i};
          if matched * 2 > peers {
            SubsetSize(seen, P.Matched(View(), index));
            return true;
          }
        }
        i := i + 1;
      }
      assert seen == P.Matched(View(), index);
      majority := false;
    }

    /** One pass of the committer: the source bisects where the specification walks. */
    method Commit(newCommit: bool) returns (committed: bool)
      requires |matchIndex| == peers
      modifies this`commitIndex
      ensures (View(), committed) == P.Commit(old(View()), newCommit)
    {
      ghost var p := View();
      if newCommit {
        var more := TestIndex(commitIndex);
        if more {
          var lBound, rBound := commitIndex + 1, startIndex + |logs|;
          while rBound > lBound
            invariant View() == p && commitIndex < lBound && rBound <= startIndex + |logs|
            invariant lBound <= rBound || (lBound == commitIndex + 1 && rBound == startIndex + |logs|)
            invariant P.TestIndex(p, lBound - 1)
            invariant rBound < startIndex + |logs| ==> !P.TestIndex(p, rBound)
          {
            var mid := (lBound + rBound) / 2;
            var ok := TestIndex(mid);
            if ok { lBound := mid + 1; } else { rBound := mid; }
          }
          if lBound <= rBound { C.MatchedEndIs(p, commitIndex + 1, startIndex + |logs|, lBound); }
          commitIndex := lBound;
        }
        return true;
      }
      var first := TestIndex(newOp);
      if first {
        commitIndex := newOp + 1;
      }
      committed := first;
    }

    // ----------------------------------------------- applying and compaction

    method TakeBatch() returns (batch: seq<P.ApplyMsg>)
      requires Valid()
      modifies this`lastApplied
      ensures Valid() && (View(), batch) == P.TakeBatch(old(View()))
    {
      batch := [];
      ghost var first := lastApplied;
      while lastApplied < commitIndex
        invariant first <= lastApplied <= commitIndex
        invariant batch == P.Batch(logs, startIndex, first, lastApplied)
        invariant View() == old(View()).(lastApplied := lastApplied)
      {
        batch := batch + [P.CommandMsg(logs[lastApplied - startIndex].command, lastApplied)];
        lastApplied := lastApplied + 1;
      }
    }

    method TakeSnapshot() returns (msg: P.ApplyMsg)
      requires Valid()
      modifies this`snapshotApplying
      ensures Valid() && (View(), msg) == P.TakeSnapshot(old(View()))
    {
      msg := P.SnapshotMsg(snapshot, logs[0].term, startIndex);
      snapshotApplying := false;
    }

    method Snapshot(index: nat, data: seq<int>)
      requires Valid() && index < lastApplied
      modifies this
      ensures Valid() && View() == P.Snapshot(old(View()), index, data)
    {
      if index <= startIndex {
        return;
      }
      var discardIndex := index - startIndex;
      startIndex := index;
      logs := [P.Entry(logs[discardIndex].term, Nil)] + logs[discardIndex + 1..];
      snapshot := data;
    }

    method InstallSnapshot(args: P.SnapshotArgs) returns (term: nat, snapshotInstead: bool)
      requires Valid()
      modifies this
      ensures logs != [] && (View(), term, snapshotInstead) == P.InstallSnapshot(old(View()), args)
    {
      if currentTerm > args.term {
        return currentTerm, false;
      }
      YieldTo(args.term);
      ghost var q := View();
      var discardIndex := args.lastIndex - startIndex;
      if lastApplied > args.lastIndex {
        return currentTerm, discardIndex > 0;
      }
      snapshot := args.data;
      startIndex := args.lastIndex;
      var sentinel := [P.Entry(args.lastTerm, Nil)];
      if discardIndex < |logs| && logs[discardIndex].term == args.lastTerm {
        logs := sentinel + logs[discardIndex + 1..];
      } else {
        logs := sentinel + [];
      }
      if commitIndex <= args.lastIndex {
        commitIndex := args.lastIndex + 1;
      }
      lastApplied := args.lastIndex + 1;
      snapshotApplying := true;
      assert View() == q.(snapshot := args.data, startIndex := args.lastIndex, logs := logs, commitIndex := commitIndex,
                          lastApplied := lastApplied, snapshotApplying := true);
      return currentTerm, false;
    }

    method HandleSnapshotReply(peer: nat, term: nat, mIndex: nat, replyTerm: nat)
      requires Valid() && peer < peers
      modifies this
      ensures Valid() && View() == P.OnSnapshotReply(old(View()), peer, term, mIndex, replyTerm)
    {
      if currentTerm != term {
        return;
      }
      if replyTerm > term {
        currentTerm, votedFor, role := replyTerm, P.NO_VOTE, P.Follower;
        return;
      }
      if mIndex > matchIndex[peer] {
        matchIndex := matchIndex[peer := mIndex];
      }
    }
  }

  lemma {:induction false} MergeNonEmpty(logs: seq<P.Entry>, at: nat, entries: seq<P.Entry>)
    requires 1 <= at <= |logs|
    ensures |P.Merge(logs, at, entries)| >= at && P.Merge(logs, at, entries)[..at] == logs[..at]
    decreases |entries|
  {
    if entries != [] && at < |logs| && logs[at].term == entries[0].term {
      MergeNonEmpty(logs, at + 1, entries[1..]);
      assert P.Merge(logs, at, entries)[..at] == P.Merge(logs, at, entries)[..at + 1][..at];
      assert logs[..at] == logs[..at + 1][..at];
    }
  }
}
