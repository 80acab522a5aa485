/** One Paxos slot across the cluster, as a state machine over the locked sections of
    src/paxos. A ballot is a bare number, so two servers may use the same one at once;
    a round is identified by its server and its ballot. Messages stay in the network
    for ever, so they may be lost, delayed, reordered or delivered again. */
module PaxosSlot {
  import opened Session
  import opened Quorums
  import opened PaxosInstance

  datatype Phase = Preparing | Accepting | Over

  /** A round of a proposer: the value it was started with, what its own acceptor had
      accepted when it began, and the value it carries once it is accepting. */
  datatype Round = Round(v: Payload, accept: nat, value: Payload, phase: Phase)

  datatype Msg =
    | PrepareReq(src: nat, ballot: nat)
    | PrepareRep(acceptor: nat, src: nat, ballot: nat, reply: PrepareReply)
    | AcceptReq(src: nat, ballot: nat, value: Payload)
    | AcceptRep(acceptor: nat, src: nat, ballot: nat, answer: int)
    | DecideReq(value: Payload)

  /** `acceptor` promised `ballot` to `proposer` when it had accepted `value` at `accept`. */
  datatype Grant = Grant(acceptor: nat, ballot: nat, proposer: nat, accept: nat, value: Payload)

  datatype Vote = Vote(acceptor: nat, ballot: nat, value: Payload)

  /** A round that passed its prepare phase, with the promises it had. */
  datatype Proposal = Proposal(server: nat, value: Payload, promises: map<nat, Grant>)

  /** What has happened in the slot. The steps only write it, except that a round begins for a value
      somebody submitted, which is `starts`. */
  datatype Hist = Hist(starts: set<Payload>, grants: set<Grant>, votes: set<Vote>, proposals: map<nat, Proposal>)

  datatype Slot = Slot(insts: seq<Inst>, rounds: map<(nat, nat), Round>, net: set<Msg>, hist: Hist)

  ghost predicate Init(c: Slot, n: nat) {
    && |c.insts| == n && (forall s | 0 <= s < n :: c.insts[s] == BLANK)
    && c.rounds == map[] && c.net == {} && c.hist == Hist({}, {}, {}, map[])
  }

  // -------------------------------------------------------------------- steps

  datatype Step =
    | Submit(s: nat, v: Payload)
    | Begin(s: nat, v: Payload)
    | Promise(s: nat, src: nat, ballot: nat)
    | EndPrepare(s: nat, ballot: nat, from: seq<nat>, replies: seq<PrepareReply>)
    | Vouch(s: nat, src: nat, ballot: nat, value: Payload)
    | EndAccept(s: nat, ballot: nat, from: seq<nat>, answers: seq<int>)
    | Learn(s: nat, value: Payload)
    | Reboot(s: nat)

  ghost function Put(c: Slot, s: nat, i: Inst, rounds: map<(nat, nat), Round>, msgs: set<Msg>, h: Hist): Slot
    requires s < |c.insts|
  {
    Slot(c.insts[s := i], rounds, c.net + msgs, h)
  }

  /** The application of some server calls Start with a value. */
  ghost predicate SubmitStep(c: Slot, c': Slot, v: Payload) {
    c' == c.(hist := c.hist.(starts := c.hist.starts + {v}))
  }

  /** A proposer goroutine, started by Start or, with nil, by getInstanceL or readPersist,
      begins a round. */
  ghost predicate BeginStep(c: Slot, c': Slot, s: nat, v: Payload)
    requires s < |c.insts|
  {
    var i := c.insts[s];
    var b := i.prepare + 1;
    && (v == Nil || v in c.hist.starts) && i.status != Decided
    && c' == Put(c, s, BeginRound(i), c.rounds[(s, b) := Round(v, i.accept, i.value, Preparing)], {PrepareReq(s, b)},
                 c.hist.(grants := c.hist.grants + {Grant(s, b, s, i.accept, i.value)}))
  }

  ghost predicate PromiseStep(c: Slot, c': Slot, s: nat, src: nat, b: nat)
    requires s < |c.insts|
  {
    var i := c.insts[s];
    var (i', reply) := Prepare(i, b);
    && PrepareReq(src, b) in c.net && s != src
    && c' == Put(c, s, i', c.rounds, {PrepareRep(s, src, b, reply)},
                 if reply.code == Ok then c.hist.(grants := c.hist.grants + {Grant(s, b, src, i.accept, i.value)}) else c.hist)
  }

  /** What the proposer reads from the channel: a failed call or a real answer. */
  ghost predicate HeardPromise(net: set<Msg>, s: nat, b: nat, a: nat, reply: PrepareReply) {
    reply.code == NoReply || PrepareRep(a, s, b, reply) in net
  }

  /** The promises a proposer counted, its own first. */
  ghost function Counted(s: nat, b: nat, r: Round, from: seq<nat>, replies: seq<PrepareReply>): (m: map<nat, Grant>)
    requires |from| == |replies|
  {
    if from == [] then map[s := Grant(s, b, s, r.accept, r.value)]
    else
      var last := |from| - 1;
      var rest := Counted(s, b, r, from[..last], replies[..last]);
      if replies[last].code == Ok then rest[from[last] := Grant(from[last], b, s, replies[last].acPr, replies[last].value)]
      else rest
  }

  ghost function CountedUntil(s: nat, b: nat, n: nat, r: Round, from: seq<nat>, replies: seq<PrepareReply>): map<nat, Grant>
    requires |from| == |replies| && TallyPrepare(replies, n, 0, 1, r.accept, r.value).Promised?
  {
    var k := ReadUntilPromised(replies, n, 0, 1, r.accept, r.value);
    Counted(s, b, r, from[..k], replies[..k])
  }

  ghost predicate EndPrepareStep(c: Slot, c': Slot, s: nat, b: nat, from: seq<nat>, replies: seq<PrepareReply>, nilOk: bool)
    requires s < |c.insts|
  {
    var n := |c.insts|;
    && (s, b) in c.rounds && c.rounds[(s, b)].phase == Preparing
    && |from| == |replies| && Distinct(from) && (forall a | a in from :: a < n && a != s)
    && (forall j | 0 <= j < |from| :: HeardPromise(c.net, s, b, from[j], replies[j]))
    && var r := c.rounds[(s, b)];
       var over := c.rounds[(s, b) := r.(phase := Over)];
       match TallyPrepare(replies, n, 0, 1, r.accept, r.value)
       case Waiting => c' == c
       case AlreadyDecided(value) => c' == Put(c, s, c.insts[s], over, {DecideReq(value)}, c.hist)
       case Refused(p) => c' == Put(c, s, Raise(c.insts[s], p), over, {}, c.hist)
       case Late => c' == c.(rounds := over)
       case BadNetwork => c' == c.(rounds := over)
       case Promised(_, best) =>
         var value := if best == Nil then r.v else best;
         var (i', entered) := EnterAccept(c.insts[s], b, value);
         if entered then
           && (nilOk || value != Nil)
           && c' == Put(c, s, i', c.rounds[(s, b) := r.(value := value, phase := Accepting)], {AcceptReq(s, b, value)},
                        c.hist.(votes := c.hist.votes + {Vote(s, b, value)},
                                proposals := c.hist.proposals[b := Proposal(s, value, CountedUntil(s, b, n, r, from, replies))]))
         else c' == c.(rounds := over)
  }

  ghost predicate VouchStep(c: Slot, c': Slot, s: nat, src: nat, b: nat, value: Payload)
    requires s < |c.insts|
  {
    var (i', answer) := Accept(c.insts[s], b, value);
    && AcceptReq(src, b, value) in c.net && s != src
    && c' == Put(c, s, i', c.rounds, {AcceptRep(s, src, b, answer)},
                 if answer == ACCEPT_OK then c.hist.(votes := c.hist.votes + {Vote(s, b, value)}) else c.hist)
  }

  ghost predicate HeardVote(net: set<Msg>, s: nat, b: nat, a: nat, answer: int) {
    answer == ACCEPT_FAIL || AcceptRep(a, s, b, answer) in net
  }

  ghost predicate EndAcceptStep(c: Slot, c': Slot, s: nat, b: nat, from: seq<nat>, answers: seq<int>)
    requires s < |c.insts|
  {
    var n := |c.insts|;
    && (s, b) in c.rounds && c.rounds[(s, b)].phase == Accepting
    && |from| == |answers| && Distinct(from) && (forall a | a in from :: a < n && a != s)
    && (forall j | 0 <= j < |from| :: HeardVote(c.net, s, b, from[j], answers[j]))
    && var r := c.rounds[(s, b)];
       var over := c.rounds[(s, b) := r.(phase := Over)];
       match TallyAccept(answers, n, 0, 1, b)
       case Chosen => c' == Put(c, s, c.insts[s], over, {DecideReq(r.value)}, c.hist)
       case NotChosen(high) =>
         c' == if high > b then Put(c, s, Raise(c.insts[s], high), over, {}, c.hist) else c.(rounds := over)
  }

  ghost predicate LearnStep(c: Slot, c': Slot, s: nat, value: Payload)
    requires s < |c.insts|
  {
    && DecideReq(value) in c.net
    && c' == Put(c, s, PaxosInstance.Decide(c.insts[s], value), c.rounds, {}, c.hist)
  }

  /** A controlled restart: the instance is persisted and read back, the proposers are gone. */
  ghost predicate RebootStep(c: Slot, c': Slot, s: nat) {
    c' == c.(rounds := map k | k in c.rounds :: if k.0 == s then c.rounds[k].(phase := Over) else c.rounds[k])
  }

  ghost predicate StepOk(c: Slot, c': Slot, step: Step, nilOk: bool) {
    match step
    case Submit(s, v) => s < |c.insts| && SubmitStep(c, c', v)
    case Begin(s, v) => s < |c.insts| && BeginStep(c, c', s, v)
    case Promise(s, src, b) => s < |c.insts| && PromiseStep(c, c', s, src, b)
    case EndPrepare(s, b, from, replies) => s < |c.insts| && EndPrepareStep(c, c', s, b, from, replies, nilOk)
    case Vouch(s, src, b, value) => s < |c.insts| && VouchStep(c, c', s, src, b, value)
    case EndAccept(s, b, from, answers) => s < |c.insts| && EndAcceptStep(c, c', s, b, from, answers)
    case Learn(s, value) => s < |c.insts| && LearnStep(c, c', s, value)
    case Reboot(s) => RebootStep(c, c', s)
  }

  /** `nilOk` says whether a round may enter its accept phase with a nil value. */
  ghost predicate Next(c: Slot, c': Slot, nilOk: bool) {
    exists step :: StepOk(c, c', step, nilOk)
  }

  ghost predicate Linked(run: seq<Slot>, i: nat, nilOk: bool) {
    i + 1 < |run| ==> Next(run[i], run[i + 1], nilOk)
  }

  ghost predicate Run(run: seq<Slot>, n: nat, nilOk: bool) {
    && run != [] && Init(run[0], n)
    && forall i: nat {:trigger Linked(run, i, nilOk)} :: Linked(run, i, nilOk)
  }
}
