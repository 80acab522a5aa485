/** One Raft peer as a value, and every locked section of src/raft as a function
    on it. Indices are absolute log indices; `logs[0]` is the sentinel that stands
    for index `startIndex`. `commitIndex`, `lastApplied` and `matchIndex` are
    exclusive bounds, as in the source. */
module RaftPeer {
  import opened Session

  datatype Role = Follower | Candidate | Leader

  datatype Entry = Entry(term: nat, command: Payload)

  const SENTINEL := Entry(0, Nil)
  const NO_VOTE := -1

  datatype Peer = Peer(
    me: nat, currentTerm: nat, votedFor: int, role: Role,
    logs: seq<Entry>, startIndex: nat, commitIndex: nat, lastApplied: nat,
    nextIndex: seq<nat>, matchIndex: seq<nat>, newOp: nat,
    snapshot: seq<int>, snapshotApplying: bool)

  datatype VoteArgs = VoteArgs(term: nat, cand: nat, lastTerm: nat, lastIndex: nat)
  datatype VoteReply = VoteReply(term: nat, granted: bool)

  datatype AppendArgs = AppendArgs(term: nat, prevTerm: nat, prevIndex: nat, entries: seq<Entry>, leaderCommit: nat)
  datatype AppendReply = AppendReply(term: nat, success: bool, xTerm: nat, xIndex: nat, xLen: nat)

  datatype SnapshotArgs = SnapshotArgs(term: nat, lastIndex: nat, lastTerm: nat, data: seq<int>)

  datatype ApplyMsg = CommandMsg(command: Payload, index: nat)
                    | SnapshotMsg(data: seq<int>, term: nat, index: nat)

  /** The state `Make` builds when nothing was persisted. */
  function Fresh(me: nat, n: nat): (p: Peer) {
    Peer(me, 0, NO_VOTE, Follower, [SENTINEL], 0, 1, 1, seq(n, _ => 0), seq(n, _ => 0), 0, [], false)
  }

  /** Index one past the last entry. */
  function End(p: Peer): (e: nat) {
    p.startIndex + |p.logs|
  }

  function LastTerm(logs: seq<Entry>): (t: nat)
    requires logs != []
  {
    logs[|logs| - 1].term
  }

  function SetTerm(p: Peer, term: nat): (q: Peer) {
    p.(currentTerm := term, votedFor := NO_VOTE)
  }

  /** What every sender does on a reply that carries a higher term. */
  function Depose(p: Peer, term: nat): (q: Peer) {
    SetTerm(p, term).(role := Follower)
  }

  /** What every request from a leader of the current or a later term does first. */
  function Yield(p: Peer, term: nat): (q: Peer) {
    (if term > p.currentTerm then SetTerm(p, term) else p).(role := Follower)
  }

  // ---------------------------------------------------------------- elections

  /** The vote test: the request's last entry is at least as recent as the log's. */
  predicate UpToDate(lastTerm: nat, lastIndex: nat, logs: seq<Entry>, startIndex: nat)
    requires logs != []
  {
    !(lastTerm < LastTerm(logs) || (lastTerm == LastTerm(logs) && lastIndex < startIndex + |logs| - 1))
  }

  function RequestVote(p: Peer, a: VoteArgs): (r: (Peer, VoteReply))
    requires p.logs != []
  {
    if p.currentTerm > a.term then
      (p, VoteReply(p.currentTerm, false))
    else if p.currentTerm == a.term && p.votedFor != a.cand && p.votedFor != NO_VOTE then
      (p, VoteReply(p.currentTerm, false))
    else
      var q := if p.currentTerm < a.term then Depose(p, a.term) else p;
      if UpToDate(a.lastTerm, a.lastIndex, q.logs, q.startIndex) then
        (q.(votedFor := a.cand), VoteReply(q.currentTerm, true))
      else
        (q, VoteReply(q.currentTerm, false))
  }

  /** The first locked section of startElection; a leader does not stand again. */
  function StandForElection(p: Peer): (r: (Peer, VoteArgs))
    requires p.logs != [] && p.role != Leader
  {
    var q := p.(currentTerm := p.currentTerm + 1, votedFor := p.me, role := Candidate);
    (q, VoteArgs(q.currentTerm, p.me, LastTerm(p.logs), End(p) - 1))
  }

  const VOTE_SUCCESS := -1
  const VOTE_FAIL := 0

  /** What the calling goroutine puts on the result channel for one answer. */
  function VoteResult(a: VoteArgs, reply: VoteReply): (r: int) {
    if reply.granted then VOTE_SUCCESS else if reply.term > a.term then reply.term else VOTE_FAIL
  }

  datatype Outcome = Elected | Deposed(term: int) | Lost

  /** The tally loop: stops at the first majority or the first higher term. */
  function Tally(results: seq<int>, votes: nat, n: nat): (o: Outcome) {
    if results == [] then Lost
    else if results[0] == VOTE_SUCCESS then
      if 2 * (votes + 1) > n then Elected else Tally(results[1..], votes + 1, n)
    else if results[0] != VOTE_FAIL then Deposed(results[0])
    else Tally(results[1..], votes, n)
  }

  /** The last locked section of startElection, after a won tally. */
  function TakeOffice(p: Peer, a: VoteArgs): (q: Peer) {
    if p.currentTerm == a.term && p.role == Candidate then
      p.(role := Leader,
         nextIndex := seq(|p.nextIndex|, _ => a.lastIndex + 1),
         matchIndex := seq(|p.matchIndex|, _ => 1),
         newOp := 0)
    else p
  }

  // ---------------------------------------------------------- log replication

  /** Start: a leader appends the command to its own log. */
  function Start(p: Peer, command: Payload): (r: (Peer, int)) {
    var refused: int := -1;
    if p.role != Leader then (p, refused)
    else
      (p.(logs := p.logs + [Entry(p.currentTerm, command)],
          newOp := if p.newOp == 0 then End(p) else p.newOp), End(p))
  }

  /** First position of the run of equal terms that position `i` belongs to. */
  function RunStart(logs: seq<Entry>, i: nat): (j: nat)
    requires i < |logs|
    ensures j <= i && logs[j].term == logs[i].term
    ensures forall k | j <= k <= i :: logs[k].term == logs[i].term
    ensures j > 0 ==> logs[j - 1].term != logs[i].term
  {
    if i > 0 && logs[i].term == logs[i - 1].term then RunStart(logs, i - 1) else i
  }

  /** Overwrite from position `at`, but only from the first entry whose term differs. */
  function Merge(logs: seq<Entry>, at: nat, entries: seq<Entry>): (merged: seq<Entry>)
    requires at <= |logs|
    decreases |entries|
  {
    if entries == [] then logs
    else if at == |logs| || logs[at].term != entries[0].term then logs[..at] + entries
    else Merge(logs, at + 1, entries[1..])
  }

  function Reject(p: Peer, at: nat, xLen: nat): (r: AppendReply)
    requires at < |p.logs|
  {
    var x := RunStart(p.logs, at);
    AppendReply(p.currentTerm, false, p.logs[x].term, x + p.startIndex, xLen)
  }

  /** The consistency check and the merge, for a previous entry at or after the sentinel. */
  function AppendAt(p: Peer, a: AppendArgs): (r: (Peer, AppendReply))
    requires p.logs != [] && p.startIndex <= a.prevIndex
  {
    if a.prevIndex >= End(p) then
      (p, Reject(p, |p.logs| - 1, End(p)))
    else if p.logs[a.prevIndex - p.startIndex].term != a.prevTerm then
      (p, Reject(p, a.prevIndex - p.startIndex, a.prevIndex))
    else
      (p.(logs := Merge(p.logs, a.prevIndex - p.startIndex + 1, a.entries),
          commitIndex := if a.leaderCommit > p.commitIndex then a.leaderCommit else p.commitIndex),
       AppendReply(p.currentTerm, true, 0, 0, 0))
  }

  /** Drop the entries the snapshot already covers. */
  function Shift(a: AppendArgs, startIndex: nat): (b: AppendArgs)
    requires a.prevIndex < startIndex < a.prevIndex + |a.entries|
  {
    var d := startIndex - a.prevIndex;
    a.(prevTerm := a.entries[d - 1].term, prevIndex := startIndex, entries := a.entries[d..])
  }

  function AppendEntries(p: Peer, a: AppendArgs): (r: (Peer, AppendReply))
    requires p.logs != []
  {
    if a.term < p.currentTerm then
      (p, AppendReply(p.currentTerm, false, 0, 0, 0))
    else
      var q := Yield(p, a.term);
      if a.prevIndex >= p.startIndex then AppendAt(q, a)
      else if p.startIndex - a.prevIndex >= |a.entries| then
        (q, AppendReply(q.currentTerm, true, 0, 0, 0))
      else AppendAt(q, Shift(a, p.startIndex))
  }

  datatype Outgoing = SendAppend(append: AppendArgs) | SendSnapshot(install: SnapshotArgs)

  /** One iteration of sendLog up to the call: always the whole suffix. */
  function SendLog(p: Peer, peer: nat): (r: (Peer, Outgoing))
    requires p.logs != [] && peer < |p.nextIndex| && p.nextIndex[peer] <= End(p)
  {
    if p.nextIndex[peer] <= p.startIndex then
      (p.(nextIndex := p.nextIndex[peer := p.startIndex + 1]),
       SendSnapshot(SnapshotArgs(p.currentTerm, p.startIndex, p.logs[0].term, p.snapshot)))
    else
      var at := p.nextIndex[peer] - p.startIndex;
      (p, SendAppend(AppendArgs(p.currentTerm, p.logs[at - 1].term, p.nextIndex[peer] - 1, p.logs[at..], p.commitIndex)))
  }

  /** First backup loop: below every entry whose term is at least the conflicting one. */
  function BackBelow(logs: seq<Entry>, startIndex: nat, n: nat, xTerm: nat): (m: nat)
    requires n <= startIndex + |logs|
    ensures m <= n && (m < startIndex ==> m == n)
    ensures forall i | 0 <= i < |logs| && m <= startIndex + i < n :: logs[i].term >= xTerm
    ensures m > startIndex ==> logs[m - startIndex - 1].term < xTerm
  {
    if n > startIndex && logs[n - startIndex - 1].term >= xTerm then BackBelow(logs, startIndex, n - 1, xTerm) else n
  }

  /** Second backup loop: forward again over entries of the conflicting term. */
  function SkipRun(logs: seq<Entry>, startIndex: nat, n: nat, xTerm: nat, xLen: nat): (m: nat)
    requires startIndex <= n
    ensures n <= m <= if n < xLen then xLen else n
    ensures forall i | 0 <= i < |logs| && n <= startIndex + i < m :: logs[i].term == xTerm
    ensures m - startIndex < |logs| && m < xLen ==> logs[m - startIndex].term != xTerm
    decreases startIndex + |logs| - n
  {
    if n - startIndex < |logs| && n < xLen && logs[n - startIndex].term == xTerm
    then SkipRun(logs, startIndex, n + 1, xTerm, xLen) else n
  }

  /** The next index a leader tries after a reject. */
  function Backup(logs: seq<Entry>, startIndex: nat, reply: AppendReply): (m: nat)
    requires reply.xIndex <= startIndex + |logs|
  {
    var n := BackBelow(logs, startIndex, reply.xIndex, reply.xTerm);
    SkipRun(logs, startIndex, if n < startIndex then startIndex else n, reply.xTerm, reply.xLen)
  }

  /** The locked section of sendLog that handles an answer to `a`; the flag says
      whether the retry loop goes round again. */
  function OnAppendReply(p: Peer, peer: nat, a: AppendArgs, reply: AppendReply): (r: (Peer, bool))
    requires peer < |p.nextIndex| == |p.matchIndex|
    requires reply.xIndex <= End(p)
  {
    if p.currentTerm != a.term || p.nextIndex[peer] != a.prevIndex + 1 then (p, false)
    else if reply.success then
      var next := p.nextIndex[peer] + |a.entries|;
      (p.(nextIndex := p.nextIndex[peer := next],
          matchIndex := if next > p.matchIndex[peer] then p.matchIndex[peer := next] else p.matchIndex), false)
    else if reply.term > a.term then (Depose(p, reply.term), false)
    else (p.(nextIndex := p.nextIndex[peer := Backup(p.logs, p.startIndex, reply)]), true)
  }

  // ------------------------------------------------------------------- commit

  /** The other peers known to hold the entry at `index`. */
  function Matched(p: Peer, index: nat): (m: set<nat>) {
    set i: nat | i < |p.matchIndex| && i != p.me && p.matchIndex[i] > index
  }

  /** testIndexL: a majority, the peer itself included, holds the entry at `index`.
      The loop reports a majority only while it counts another peer. */
  predicate TestIndex(p: Peer, index: nat) {
    var k := |Matched(p, index)|;
    k > 0 && 2 * (k + 1) > |p.matchIndex|
  }

  /** The end of the majority-matched stretch that begins at `lo`, found by walking. */
  function MatchedEnd(p: Peer, lo: nat, hi: nat): (e: nat)
    decreases hi - lo
  {
    if lo < hi && TestIndex(p, lo) then MatchedEnd(p, lo + 1, hi) else lo
  }

  /** One pass of the committer loop; the flag is its local `newCommit`. */
  function Commit(p: Peer, newCommit: bool): (r: (Peer, bool)) {
    if newCommit then
      (if TestIndex(p, p.commitIndex) then p.(commitIndex := MatchedEnd(p, p.commitIndex + 1, End(p))) else p, true)
    else if TestIndex(p, p.newOp) then (p.(commitIndex := p.newOp + 1), true)
    else (p, false)
  }

  // ------------------------------------------------- applying and compaction

  /** The commands at indices `lo` up to `hi`, in order. */
  function Batch(logs: seq<Entry>, startIndex: nat, lo: nat, hi: nat): (b: seq<ApplyMsg>)
    requires startIndex <= lo && (lo <= hi ==> hi <= startIndex + |logs|)
    ensures |b| == if lo <= hi then hi - lo else 0
    ensures forall i | 0 <= i < |b| :: b[i] == CommandMsg(logs[lo + i - startIndex].command, lo + i)
  {
    if lo >= hi then [] else Batch(logs, startIndex, lo, hi - 1) + [CommandMsg(logs[hi - 1 - startIndex].command, hi - 1)]
  }

  /** The applier takes everything committed and not yet applied. */
  function TakeBatch(p: Peer): (r: (Peer, seq<ApplyMsg>))
    requires p.startIndex <= p.lastApplied && p.commitIndex <= End(p)
  {
    if p.lastApplied < p.commitIndex then
      (p.(lastApplied := p.commitIndex), Batch(p.logs, p.startIndex, p.lastApplied, p.commitIndex))
    else (p, [])
  }

  /** The applier takes an installed snapshot. */
  function TakeSnapshot(p: Peer): (r: (Peer, ApplyMsg))
    requires p.logs != []
  {
    (p.(snapshotApplying := false), SnapshotMsg(p.snapshot, p.logs[0].term, p.startIndex))
  }

  /** The service hands in a snapshot of everything up to and including `index`. */
  function Snapshot(p: Peer, index: nat, data: seq<int>): (q: Peer)
    requires index < End(p)
  {
    if index <= p.startIndex then p
    else
      var d := index - p.startIndex;
      p.(startIndex := index, logs := [Entry(p.logs[d].term, Nil)] + p.logs[d + 1..], snapshot := data)
  }

  /** The handler; the flag says that a Snapshot of the same prefix is started instead. */
  function InstallSnapshot(p: Peer, a: SnapshotArgs): (r: (Peer, nat, bool))
    requires p.logs != [] && p.startIndex < p.lastApplied
  {
    if p.currentTerm > a.term then (p, p.currentTerm, false)
    else
      var q := Yield(p, a.term);
      if q.lastApplied > a.lastIndex then (q, q.currentTerm, a.lastIndex > q.startIndex)
      else
        var d := a.lastIndex - q.startIndex;
        var kept := if d < |q.logs| && q.logs[d].term == a.lastTerm then q.logs[d + 1..] else [];
        (q.(snapshot := a.data, startIndex := a.lastIndex, logs := [Entry(a.lastTerm, Nil)] + kept,
            commitIndex := if q.commitIndex <= a.lastIndex then a.lastIndex + 1 else q.commitIndex,
            lastApplied := a.lastIndex + 1, snapshotApplying := true), q.currentTerm, false)
  }

  /** The answer to an InstallSnapshot that was sent when `mIndex` was its exclusive end. */
  function OnSnapshotReply(p: Peer, peer: nat, term: nat, mIndex: nat, replyTerm: nat): (q: Peer)
    requires peer < |p.matchIndex|
  {
    if p.currentTerm != term then p
    else if replyTerm > term then Depose(p, replyTerm)
    else if mIndex > p.matchIndex[peer] then p.(matchIndex := p.matchIndex[peer := mIndex])
    else p
  }

  /** A controlled shutdown followed by Make: the persisted part survives. */
  function Restart(p: Peer, n: nat): (q: Peer) {
    var applied := if p.startIndex > 0 then p.startIndex + 1 else 1;
    Peer(p.me, p.currentTerm, p.votedFor, Follower, p.logs, p.startIndex, applied, applied,
         seq(n, _ => 0), seq(n, _ => 0), 0, if p.startIndex > 0 then p.snapshot else [], false)
  }
}
