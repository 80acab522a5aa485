/** A whole Raft cluster with log compaction (src/raft with snapshot.go): peers keep a
    sentinel and a suffix, leaders send snapshots, and every applier feeds its channel. The
    steps are the locked sections; nothing in a state is there for the proof but `delivered` and
    `snapped`, which no step reads. */
module RaftSnapshots {
  import opened Session
  import opened Quorums
  import opened RaftPeer
  import opened RaftHistory
  import C = RaftCluster

  /** A process: its peer, the locals of its leader goroutines, and its applier's batch and
      channel, the latter from the process's start at `first`. */
  datatype Host = Host(
    peer: Peer, workTerm: nat, newCommit: bool, batch: seq<ApplyMsg>, sent: seq<ApplyMsg>, first: nat)

  datatype Msg =
    | Plain(msg: C.Msg)
    | InstallReq(src: nat, dst: nat, install: SnapshotArgs)
    | InstallRep(src: nat, dst: nat, install: SnapshotArgs, term: nat)

  /** A snapshot that was passed to Snapshot for an index. */
  datatype Snap = Snap(index: nat, data: seq<int>)

  /** `delivered` is every command that ever went out on a channel, with its server and index;
      `snapped` is every snapshot that was ever passed to Snapshot. */
  datatype System = System(hosts: seq<Host>, net: set<Msg>, delivered: set<Applied>, snapped: set<Snap>)

  function Boot(p: Peer): Host {
    Host(p, 0, false, [], [], p.lastApplied)
  }

  ghost predicate Init(k: System) {
    && k.net == {} && k.delivered == {} && k.snapped == {}
    && forall s | 0 <= s < |k.hosts| :: k.hosts[s] == Boot(Fresh(s, |k.hosts|))
  }

  datatype Step =
    | Stand(s: nat)
    | Answer(s: nat, args: VoteArgs)
    | CountVotes(s: nat, args: VoteArgs, voters: seq<nat>, results: seq<int>)
    | Submit(s: nat, command: Payload)
    | Send(s: nat, dst: nat)
    | Receive(s: nat, src: nat, append: AppendArgs)
    | Hear(s: nat, dst: nat, append: AppendArgs, answer: AppendReply)
    | Advance(s: nat)
    | Compact(s: nat, index: nat, data: seq<int>)
    | Install(s: nat, src: nat, install: SnapshotArgs)
    | HearInstall(s: nat, dst: nat, install: SnapshotArgs, term: nat)
    | TakeCommitted(s: nat)
    | TakeInstalled(s: nat)
    | Deliver(s: nat)
    | Reboot(s: nat)

  /** What the handlers rely on when they index their logs. */
  ghost predicate Ready(h: Host, n: nat) {
    && h.peer.logs != [] && |h.peer.nextIndex| == |h.peer.matchIndex| == n
    && h.peer.startIndex < h.peer.lastApplied <= h.peer.commitIndex <= End(h.peer)
  }

  ghost function Put(k: System, s: nat, h: Host, msgs: set<Msg>): System
    requires s < |k.hosts|
  {
    System(k.hosts[s := h], k.net + msgs, k.delivered, k.snapped)
  }

  // ---------------------------------------------------------------- elections

  ghost predicate StandStep(k: System, k': System, s: nat)
    requires s < |k.hosts| && Ready(k.hosts[s], |k.hosts|)
  {
    var h := k.hosts[s];
    && h.peer.role != Leader
    && var (p, args) := StandForElection(h.peer);
       k' == Put(k, s, h.(peer := p), {Plain(C.VoteReq(args))})
  }

  ghost predicate AnswerStep(k: System, k': System, s: nat, args: VoteArgs)
    requires s < |k.hosts| && Ready(k.hosts[s], |k.hosts|)
  {
    var h := k.hosts[s];
    && Plain(C.VoteReq(args)) in k.net && args.cand != s
    && var (p, reply) := RequestVote(h.peer, args);
       k' == Put(k, s, h.(peer := p), {Plain(C.VoteRep(args, s, reply))})
  }

  ghost predicate Heard(net: set<Msg>, args: VoteArgs, voter: nat, result: int) {
    result == VOTE_FAIL || exists reply :: Plain(C.VoteRep(args, voter, reply)) in net && result == VoteResult(args, reply)
  }

  ghost predicate CountStep(k: System, k': System, s: nat, args: VoteArgs, voters: seq<nat>, results: seq<int>)
    requires s < |k.hosts|
  {
    var h, p := k.hosts[s], k.hosts[s].peer;
    && Plain(C.VoteReq(args)) in k.net && args.cand == s
    && |voters| == |results| && Distinct(voters) && (forall v | v in voters :: v < |k.hosts| && v != s)
    && (forall i | 0 <= i < |voters| :: Heard(k.net, args, voters[i], results[i]))
    && match Tally(results, 1, |k.hosts|)
       case Lost => k' == k
       case Deposed(t) => k' == if t > p.currentTerm then Put(k, s, h.(peer := Depose(p, t)), {}) else k
       case Elected =>
         k' == if p.currentTerm == args.term && p.role == Candidate
               then Put(k, s, h.(peer := TakeOffice(p, args), workTerm := args.term, newCommit := false), {})
               else k
  }

  // -------------------------------------------------------------- replication

  ghost predicate SubmitStep(k: System, k': System, s: nat, command: Payload)
    requires s < |k.hosts|
  {
    var h := k.hosts[s];
    k' == if h.peer.role == Leader
          then Put(k, s, h.(peer := Start(h.peer, command).0, newCommit := h.newCommit && h.peer.newOp != 0), {})
          else k
  }

  /** sendLog up to its call; a peer behind the snapshot is sent that. */
  ghost predicate SendStep(k: System, k': System, s: nat, dst: nat)
    requires s < |k.hosts| && Ready(k.hosts[s], |k.hosts|)
  {
    var h := k.hosts[s];
    && dst < |k.hosts| && dst != s
    && h.workTerm > 0 && h.peer.currentTerm == h.workTerm && h.peer.nextIndex[dst] <= End(h.peer)
    && var (p, out) := SendLog(h.peer, dst);
       k' == Put(k, s, h.(peer := p), {match out
                                       case SendAppend(a) => Plain(C.AppendReq(s, dst, a))
                                       case SendSnapshot(a) => InstallReq(s, dst, a)})
  }

  ghost predicate ReceiveStep(k: System, k': System, s: nat, src: nat, a: AppendArgs)
    requires s < |k.hosts| && Ready(k.hosts[s], |k.hosts|)
  {
    var h := k.hosts[s];
    && Plain(C.AppendReq(src, s, a)) in k.net
    && var (p, reply) := AppendEntries(h.peer, a);
       k' == Put(k, s, h.(peer := p), {Plain(C.AppendRep(src, s, a, reply))})
  }

  ghost predicate HearStep(k: System, k': System, s: nat, dst: nat, a: AppendArgs, reply: AppendReply)
    requires s < |k.hosts| && Ready(k.hosts[s], |k.hosts|)
  {
    var h := k.hosts[s];
    && Plain(C.AppendRep(s, dst, a, reply)) in k.net && dst < |k.hosts| && h.workTerm == a.term
    && if h.peer.currentTerm == a.term then
         && reply.xIndex <= End(h.peer)
         && k' == Put(k, s, h.(peer := OnAppendReply(h.peer, dst, a, reply).0), {})
       else k' == k
  }

  ghost predicate AdvanceStep(k: System, k': System, s: nat)
    requires s < |k.hosts|
  {
    var h := k.hosts[s];
    && h.workTerm > 0 && h.peer.currentTerm == h.workTerm && h.peer.newOp != 0
    && var (p, newCommit) := Commit(h.peer, h.newCommit);
       k' == Put(k, s, h.(peer := p, newCommit := newCommit), {})
  }

  // --------------------------------------------------------------- compaction

  /** The service, or the goroutine of an InstallSnapshot that came too late, cuts the log. */
  ghost predicate CompactStep(k: System, k': System, s: nat, index: nat, data: seq<int>)
    requires s < |k.hosts| && Ready(k.hosts[s], |k.hosts|)
  {
    var h := k.hosts[s];
    index < h.peer.lastApplied
    && k' == Put(k, s, h.(peer := Snapshot(h.peer, index, data)), {}).(snapped := k.snapped + {Snap(index, data)})
  }

  ghost predicate InstallStep(k: System, k': System, s: nat, src: nat, a: SnapshotArgs)
    requires s < |k.hosts| && Ready(k.hosts[s], |k.hosts|)
  {
    var h := k.hosts[s];
    && InstallReq(src, s, a) in k.net
    && var (p, term, _) := InstallSnapshot(h.peer, a);
       k' == Put(k, s, h.(peer := p), {InstallRep(src, s, a, term)})
  }

  ghost predicate HearInstallStep(k: System, k': System, s: nat, dst: nat, a: SnapshotArgs, term: nat)
    requires s < |k.hosts| && Ready(k.hosts[s], |k.hosts|)
  {
    var h := k.hosts[s];
    && InstallRep(s, dst, a, term) in k.net && dst < |k.hosts| && h.workTerm == a.term
    && k' == Put(k, s, h.(peer := OnSnapshotReply(h.peer, dst, a.term, a.lastIndex + 1, term)), {})
  }

  // ----------------------------------------------------------------- applying

  ghost predicate TakeCommittedStep(k: System, k': System, s: nat)
    requires s < |k.hosts| && Ready(k.hosts[s], |k.hosts|)
  {
    var h := k.hosts[s];
    && h.batch == [] && !h.peer.snapshotApplying
    && var (p, batch) := TakeBatch(h.peer);
       k' == Put(k, s, h.(peer := p, batch := batch), {})
  }

  ghost predicate TakeInstalledStep(k: System, k': System, s: nat)
    requires s < |k.hosts| && Ready(k.hosts[s], |k.hosts|)
  {
    var h := k.hosts[s];
    && h.batch == [] && h.peer.snapshotApplying
    && var (p, msg) := TakeSnapshot(h.peer);
       k' == Put(k, s, h.(peer := p, batch := [msg]), {})
  }

  ghost predicate DeliverStep(k: System, k': System, s: nat)
    requires s < |k.hosts|
  {
    var h := k.hosts[s];
    && h.batch != []
    && var m := h.batch[0];
       k' == Put(k, s, h.(batch := h.batch[1..], sent := h.sent + [m]), {}).(
               delivered := k.delivered + if m.CommandMsg? then {Applied(s, m.index, m.command)} else {})
  }

  /** A controlled restart: a new process with the persisted peer. */
  ghost predicate RebootStep(k: System, k': System, s: nat)
    requires s < |k.hosts|
  {
    k' == Put(k, s, Boot(Restart(k.hosts[s].peer, |k.hosts|)), {})
  }

  ghost predicate StepOk(k: System, k': System, step: Step) {
    && step.s < |k.hosts| && Ready(k.hosts[step.s], |k.hosts|)
    && match step
       case Stand(s) => StandStep(k, k', s)
       case Answer(s, args) => AnswerStep(k, k', s, args)
       case CountVotes(s, args, voters, results) => CountStep(k, k', s, args, voters, results)
       case Submit(s, command) => SubmitStep(k, k', s, command)
       case Send(s, dst) => SendStep(k, k', s, dst)
       case Receive(s, src, a) => ReceiveStep(k, k', s, src, a)
       case Hear(s, dst, a, reply) => HearStep(k, k', s, dst, a, reply)
       case Advance(s) => AdvanceStep(k, k', s)
       case Compact(s, index, data) => CompactStep(k, k', s, index, data)
       case Install(s, src, a) => InstallStep(k, k', s, src, a)
       case HearInstall(s, dst, a, term) => HearInstallStep(k, k', s, dst, a, term)
       case TakeCommitted(s) => TakeCommittedStep(k, k', s)
       case TakeInstalled(s) => TakeInstalledStep(k, k', s)
       case Deliver(s) => DeliverStep(k, k', s)
       case Reboot(s) => RebootStep(k, k', s)
  }

  ghost predicate Next(k: System, k': System) {
    exists step :: StepOk(k, k', step)
  }

  ghost predicate Linked(run: seq<System>, i: nat) {
    i + 1 < |run| ==> Next(run[i], run[i + 1])
  }

  /** Every finite run of the compacted cluster. */
  ghost predicate Run(run: seq<System>) {
    && run != [] && Init(run[0])
    && forall i: nat {:trigger Linked(run, i)} :: Linked(run, i)
  }
}
