/** What has happened in a Raft run, as history variables: the log of each term's leader, who
    elected it and with which logs, and which prefixes the servers have acknowledged. The steps
    only write them, except that a leader takes entries once its log is recorded. */
module RaftHistory {
  import opened Session
  import opened Quorums
  import opened RaftPeer

  type Log = seq<Entry>

  /** `voter` voted for `cand` in `term`, while its log was `log`. */
  datatype Vote = Vote(voter: nat, cand: nat, term: nat, log: Log)

  /** `peer` held the first `len` entries of the leader log of `term` while in that term. */
  datatype Ack = Ack(peer: nat, term: nat, len: nat)

  /** The leader of a term, its log length when elected, and its voters with their logs. */
  datatype Election = Election(leader: nat, base: nat, voterLog: map<nat, Log>)

  datatype Applied = Applied(server: nat, index: nat, command: Payload)

  datatype Hist = Hist(
    leaderLog: map<nat, Log>, elections: map<nat, Election>,
    votes: set<Vote>, acks: set<Ack>, applied: set<Applied>)

  const EMPTY_HIST := Hist(map[], map[], {}, {}, {})

  /** Two logs have the same first `k` entries. */
  ghost predicate Agree(a: Log, b: Log, k: nat) {
    k <= |a| && k <= |b| && forall i | 0 <= i < k :: a[i] == b[i]
  }

  /** The entry at `i`, with everything before it, comes from the leader of its term. */
  ghost predicate EntryOk(h: Hist, log: Log, i: nat)
    requires i < |log|
  {
    log[i].term in h.leaderLog && Agree(log, h.leaderLog[log[i].term], i + 1)
  }

  ghost predicate LogOk(h: Hist, log: Log) {
    && log != [] && log[0] == SENTINEL
    && forall i | 1 <= i < |log| :: EntryOk(h, log, i)
  }

  ghost predicate LeaderLogOk(h: Hist, t: nat)
    requires t in h.leaderLog && t in h.elections
  {
    var log := h.leaderLog[t];
    var base := h.elections[t].base;
    && t > 0
    && LogOk(h, log)
    && 1 <= base <= |log|
    && (forall i | 0 <= i < base :: log[i].term < t)
    && (forall i | base <= i < |log| :: log[i].term == t)
  }

  /** `v` voted for the leader that `e` elected in `t`, and found its log up to date. */
  ghost predicate VoterOk(h: Hist, t: nat, e: Election, v: nat)
    requires t in h.leaderLog && 1 <= e.base <= |h.leaderLog[t]| && v in e.voterLog
  {
    && LogOk(h, e.voterLog[v])
    && UpToDate(h.leaderLog[t][e.base - 1].term, e.base - 1, e.voterLog[v], 0)
    && Vote(v, e.leader, t, e.voterLog[v]) in h.votes
  }

  ghost predicate ElectionOk(h: Hist, n: nat, t: nat, e: Election)
    requires t in h.leaderLog
  {
    && IsQuorum(e.voterLog.Keys, n)
    && e.leader in e.voterLog
    && 1 <= e.base <= |h.leaderLog[t]|
    && forall v | v in e.voterLog :: VoterOk(h, t, e, v)
  }

  ghost predicate LeaderLogsOk(h: Hist) {
    && h.leaderLog.Keys == h.elections.Keys
    && forall t {:trigger LeaderLogOk(h, t)} | t in h.leaderLog :: LeaderLogOk(h, t)
  }

  ghost predicate ElectionsOk(h: Hist, n: nat)
    requires LeaderLogsOk(h)
  {
    forall t {:trigger ElectionOk(h, n, t, h.elections[t])} | t in h.elections :: ElectionOk(h, n, t, h.elections[t])
  }

  ghost predicate VotesOk(h: Hist) {
    && (forall v | v in h.votes :: LogOk(h, v.log))
    && (forall v, w | v in h.votes && w in h.votes && v.voter == w.voter && v.term == w.term :: v.cand == w.cand)
  }

  ghost predicate AckOk(h: Hist, a: Ack) {
    a.term in h.leaderLog && a.len <= |h.leaderLog[a.term]|
  }

  /** `log` still holds what was acknowledged. */
  ghost predicate Holds(h: Hist, a: Ack, log: Log)
    requires a.term in h.leaderLog
  {
    Agree(log, h.leaderLog[a.term], a.len)
  }

  /** Some later leader, up to term `upTo`, lacks what was acknowledged. */
  ghost predicate Overridden(h: Hist, a: Ack, upTo: int)
    requires a.term in h.leaderLog
  {
    exists t :: a.term < t <= upTo && t in h.leaderLog && !Holds(h, a, h.leaderLog[t])
  }

  /** A vote cast after an acknowledgement still holds it, unless a leader overrode it. */
  ghost predicate AckVoteOk(h: Hist, a: Ack, v: Vote)
    requires a.term in h.leaderLog
  {
    a.peer == v.voter && a.term < v.term ==> Holds(h, a, v.log) || Overridden(h, a, v.term)
  }

  /** The same for the votes that elected a leader; there the overriding leader is an earlier one. */
  ghost predicate AckElectionOk(h: Hist, a: Ack, t: nat)
    requires a.term in h.leaderLog && t in h.elections
  {
    a.peer in h.elections[t].voterLog && a.term < t ==>
      Holds(h, a, h.elections[t].voterLog[a.peer]) || Overridden(h, a, t - 1)
  }

  ghost predicate AcksOk(h: Hist) {
    && (forall a | a in h.acks :: AckOk(h, a))
    && (forall a, v {:trigger AckVoteOk(h, a, v)} | a in h.acks && v in h.votes :: AckVoteOk(h, a, v))
    && (forall a, t {:trigger AckElectionOk(h, a, t)} | a in h.acks && t in h.elections :: AckElectionOk(h, a, t))
  }

  ghost predicate HistOk(h: Hist, n: nat) {
    LeaderLogsOk(h) && ElectionsOk(h, n) && VotesOk(h) && AcksOk(h)
  }

  // ------------------------------------------------------------------ commits

  ghost predicate AckQuorum(h: Hist, n: nat, q: set<nat>, t: nat, k: nat) {
    IsQuorum(q, n) && forall v | v in q :: Ack(v, t, k) in h.acks
  }

  /** A majority acknowledged the first `k` entries of the leader of `t`, the last of them its own. */
  ghost predicate Committed(h: Hist, n: nat, t: nat, k: nat) {
    && t in h.leaderLog && 1 <= k <= |h.leaderLog[t]| && h.leaderLog[t][k - 1].term == t
    && exists q :: AckQuorum(h, n, q, t, k)
  }

  /** The commit point `(t, k)` covers the first `c` entries of `log`. */
  ghost predicate Covers(h: Hist, n: nat, t: nat, k: nat, log: Log, c: nat) {
    Committed(h, n, t, k) && c <= k && Agree(log, h.leaderLog[t], c)
  }

  /** The first `c` entries of `log` are committed, by a leader of a term up to `upTo`. */
  ghost predicate CommitOk(h: Hist, n: nat, log: Log, c: nat, upTo: nat) {
    && 1 <= c <= |log|
    && (c == 1 || exists t: nat, k: nat :: t <= upTo && Covers(h, n, t, k, log, c))
  }

  ghost predicate AppliedOk(h: Hist, n: nat, r: Applied) {
    exists t: nat, k: nat ::
      Committed(h, n, t, k) && 1 <= r.index < k && h.leaderLog[t][r.index].command == r.command
  }
}
