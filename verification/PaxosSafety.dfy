/** The safety theorems of a Paxos slot, for every run of a cluster of any size. */
module PaxosSafety {
  import opened Session
  import opened Quorums
  import opened PaxosInstance
  import opened PaxosSlot
  import opened PaxosAgreement
  import opened PaxosSteps

  /** A majority has chosen nil. */
  ghost predicate NilChosen(h: Hist, n: nat) {
    ChosenValue(h, n, Nil)
  }

  /** `v` was chosen, or nothing is to be said since nil was. */
  ghost predicate Sound(h: Hist, n: nat, v: Payload) {
    ChosenValue(h, n, v) || NilChosen(h, n)
  }

  ghost predicate ClaimOk(h: Hist, n: nat, m: Msg) {
    match m
    case PrepareRep(_, _, _, reply) => reply.code == HasDecided ==> Sound(h, n, reply.value)
    case DecideReq(value) => Sound(h, n, value)
    case _ => true
  }

  /** Whatever a server has decided or a message claims to be decided was chosen by a
      majority, unless nil was. */
  ghost predicate Safe(c: Slot, n: nat) {
    && |c.insts| == n
    && (forall s {:trigger c.insts[s]} | 0 <= s < n && c.insts[s].status == Decided :: Sound(c.hist, n, c.insts[s].value))
    && (forall m {:trigger ClaimOk(c.hist, n, m)} | m in c.net :: ClaimOk(c.hist, n, m))
  }

  lemma SoundGrows(h: Hist, h': Hist, n: nat, v: Payload)
    requires Extends(h, h') && Sound(h, n, v)
    ensures Sound(h', n, v)
  {
    if NilChosen(h, n) { ChosenGrows(h, h', n, Nil); } else { ChosenGrows(h, h', n, v); }
  }

  lemma ClaimGrows(h: Hist, h': Hist, n: nat, m: Msg)
    requires Extends(h, h') && ClaimOk(h, n, m)
    ensures ClaimOk(h', n, m)
  {
    match m
    case PrepareRep(_, _, _, reply) => if reply.code == HasDecided { SoundGrows(h, h', n, reply.value); }
    case DecideReq(value) => SoundGrows(h, h', n, value);
    case _ =>
  }

  /** What is left to show of a step that decides at most at `s`. */
  lemma SafeKept(c: Slot, c': Slot, n: nat, s: nat)
    requires Safe(c, n) && Extends(c.hist, c'.hist) && |c'.insts| == n
    requires forall i | 0 <= i < n && i != s :: c'.insts[i] == c.insts[i]
    requires s < n && c'.insts[s].status == Decided ==>
               Sound(c'.hist, n, c'.insts[s].value)
               || (c.insts[s].status == Decided && c'.insts[s].value == c.insts[s].value)
    requires forall m | m in c'.net - c.net :: ClaimOk(c'.hist, n, m)
    ensures Safe(c', n)
  {
    forall i | 0 <= i < n && c'.insts[i].status == Decided ensures Sound(c'.hist, n, c'.insts[i].value) {
      if c.insts[i].status == Decided && c'.insts[i].value == c.insts[i].value { SoundGrows(c.hist, c'.hist, n, c.insts[i].value); }
    }
    forall m | m in c'.net ensures ClaimOk(c'.hist, n, m) {
      if m in c.net {
        assert ClaimOk(c.hist, n, m);
        ClaimGrows(c.hist, c'.hist, n, m);
      }
    }
  }

  /** The acceptors that answered Ok. */
  ghost function Voters(from: seq<nat>, answers: seq<int>): set<nat>
    requires |from| == |answers|
  {
    if from == [] then {} else (if answers[0] == ACCEPT_OK then {from[0]} else {}) + Voters(from[1..], answers[1..])
  }

  lemma {:induction false} VoterFrom(from: seq<nat>, answers: seq<int>, a: nat) returns (j: nat)
    requires |from| == |answers| && a in Voters(from, answers)
    ensures j < |from| && from[j] == a && answers[j] == ACCEPT_OK
  {
    if answers[0] == ACCEPT_OK && from[0] == a {
      j := 0;
    } else {
      j := VoterFrom(from[1..], answers[1..], a);
      j := j + 1;
    }
  }

  lemma {:induction false} VotersSize(from: seq<nat>, answers: seq<int>)
    requires |from| == |answers| && Distinct(from)
    ensures |Voters(from, answers)| == Accepts(answers) && forall a | a in Voters(from, answers) :: a in from
  {
    if from != [] { VotersSize(from[1..], answers[1..]); }
  }

  /** A won accept phase means a majority of votes, the proposer's own included. */
  lemma TallyChooses(c: Slot, n: nat, s: nat, b: nat, from: seq<nat>, answers: seq<int>)
    requires Inv(c, n) && s < n && (s, b) in c.rounds && c.rounds[(s, b)].phase == Accepting
    requires |from| == |answers| && Distinct(from) && forall a | a in from :: a < n && a != s
    requires forall j | 0 <= j < |from| :: HeardVote(c.net, s, b, from[j], answers[j])
    requires TallyAccept(answers, n, 0, 1, b) == Chosen
    ensures ChosenValue(c.hist, n, c.rounds[(s, b)].value)
  {
    var h := c.hist;
    assert RoundOk(h, c.insts, s, b, c.rounds[(s, b)]);
    ChosenMeans(answers, n, 0, 1, b);
    VotersSize(from, answers);
    var v := Voters(from, answers);
    forall a | a in v ensures a < n && a != s && Vote(a, b, h.proposals[b].value) in h.votes {
      var j := VoterFrom(from, answers, a);
      assert HeardVote(c.net, s, b, from[j], answers[j]);
      assert MsgOk(h, n, AcceptRep(a, s, b, answers[j]));
    }
    assert VotedBy(h, n, v + {s}, b);
    assert ChosenAt(h, n, b);
  }

  /** A prepare loop that ends with a decided answer read it from an acceptor. */
  lemma {:induction false} DecidedWasSaid(c: Slot, n: nat, s: nat, b: nat, from: seq<nat>, replies: seq<PrepareReply>,
                                          i: nat, votes: nat, accept: nat, value: Payload)
    requires Safe(c, n) && |from| == |replies|
    requires forall j | 0 <= j < |from| :: HeardPromise(c.net, s, b, from[j], replies[j])
    requires TallyPrepare(replies, n, i, votes, accept, value).AlreadyDecided?
    ensures Sound(c.hist, n, TallyPrepare(replies, n, i, votes, accept, value).value)
    decreases |replies|
  {
    var r := replies[0];
    if r.code == HasDecided {
      assert HeardPromise(c.net, s, b, from[0], replies[0]);
      assert ClaimOk(c.hist, n, PrepareRep(from[0], s, b, r));
    } else {
      var votes' := if r.code == Ok then votes + 1 else votes;
      var better := r.code == Ok && r.acPr > accept;
      var f, q := from[1..], replies[1..];
      forall j | 0 <= j < |f| ensures HeardPromise(c.net, s, b, f[j], q[j]) {
        assert HeardPromise(c.net, s, b, from[j + 1], replies[j + 1]);
      }
      DecidedWasSaid(c, n, s, b, f, q, i + 1, votes',
                     if better then r.acPr else accept, if better then r.value else value);
    }
  }

  /** A claim of nil is true only if nil was chosen, and then anything goes. */
  lemma LearnSafe(c: Slot, c': Slot, n: nat, s: nat, value: Payload)
    requires Safe(c, n) && s < n && LearnStep(c, c', s, value)
    ensures Safe(c', n)
  {
    assert ClaimOk(c.hist, n, DecideReq(value));
    assert c.net + {} == c.net;
    SafeKept(c, c', n, s);
  }

  lemma EndPrepareSafe(c: Slot, c': Slot, n: nat, s: nat, b: nat, from: seq<nat>, replies: seq<PrepareReply>, nilOk: bool)
    requires Safe(c, n) && s < n && EndPrepareStep(c, c', s, b, from, replies, nilOk) && Extends(c.hist, c'.hist)
    ensures Safe(c', n)
  {
    var r := c.rounds[(s, b)];
    var o := TallyPrepare(replies, n, 0, 1, r.accept, r.value);
    assert c.net + {} == c.net;
    if o.AlreadyDecided? { DecidedWasSaid(c, n, s, b, from, replies, 0, 1, r.accept, r.value); }
    if o != Waiting { SafeKept(c, c', n, s); }
  }

  lemma EndAcceptSafe(c: Slot, c': Slot, n: nat, s: nat, b: nat, from: seq<nat>, answers: seq<int>)
    requires Inv(c, n) && Safe(c, n) && s < n && EndAcceptStep(c, c', s, b, from, answers)
    ensures Safe(c', n)
  {
    if TallyAccept(answers, n, 0, 1, b) == Chosen { TallyChooses(c, n, s, b, from, answers); }
    SafeKept(c, c', n, s);
  }

  lemma NextSafe(c: Slot, c': Slot, n: nat, nilOk: bool)
    requires Inv(c, n) && Safe(c, n) && Next(c, c', nilOk) && Extends(c.hist, c'.hist)
    ensures Safe(c', n)
  {
    var step :| StepOk(c, c', step, nilOk);
    match step
    case Submit(s, v) => SafeKept(c, c', n, s);
    case Begin(s, v) => SafeKept(c, c', n, s);
    case Promise(s, src, b) => SafeKept(c, c', n, s);
    case Vouch(s, src, b, value) => SafeKept(c, c', n, s);
    case Learn(s, value) => LearnSafe(c, c', n, s, value);
    case EndPrepare(s, b, from, replies) => EndPrepareSafe(c, c', n, s, b, from, replies, nilOk);
    case EndAccept(s, b, from, answers) => EndAcceptSafe(c, c', n, s, b, from, answers);
    case Reboot(s) => SafeKept(c, c', n, s);
  }

  /** A run that keeps nil out of its accept phases has no nil proposal. */
  lemma NextNilFree(c: Slot, c': Slot)
    requires NilFree(c.hist) && Next(c, c', false)
    ensures NilFree(c'.hist)
  {
    var step :| StepOk(c, c', step, false);
  }

  lemma NilFreeMeans(h: Hist, n: nat)
    requires NilFree(h)
    ensures !NilChosen(h, n)
  {
  }

  lemma InitInv(c: Slot, n: nat)
    requires Init(c, n)
    ensures Inv(c, n) && Safe(c, n)
  {
  }

  lemma ExtendsTransitive(h: Hist, h': Hist, h'': Hist)
    requires Extends(h, h') && Extends(h', h'')
    ensures Extends(h, h'')
  {
  }

  lemma {:induction false} RunSafe(run: seq<Slot>, n: nat, nilOk: bool, i: nat)
    requires Run(run, n, nilOk) && i < |run|
    ensures Inv(run[i], n) && Safe(run[i], n) && (!nilOk ==> NilFree(run[i].hist))
  {
    if i == 0 {
      InitInv(run[0], n);
    } else {
      RunSafe(run, n, nilOk, i - 1);
      assert Linked(run, i - 1, nilOk);
      NextKeeps(run[i - 1], run[i], n, nilOk);
      NextSafe(run[i - 1], run[i], n, nilOk);
      if !nilOk { NextNilFree(run[i - 1], run[i]); }
    }
  }

  lemma StepExtends(run: seq<Slot>, n: nat, nilOk: bool, i: nat)
    requires Run(run, n, nilOk) && i + 1 < |run|
    ensures Extends(run[i].hist, run[i + 1].hist)
  {
    RunSafe(run, n, nilOk, i);
    assert Linked(run, i, nilOk);
    NextKeeps(run[i], run[i + 1], n, nilOk);
  }

  lemma {:induction false} RunExtends(run: seq<Slot>, n: nat, nilOk: bool, i: nat, j: nat)
    requires Run(run, n, nilOk) && i <= j < |run|
    ensures Extends(run[i].hist, run[j].hist)
    decreases j
  {
    if i < j {
      RunExtends(run, n, nilOk, i, j - 1);
      StepExtends(run, n, nilOk, j - 1);
      ExtendsTransitive(run[i].hist, run[j - 1].hist, run[j].hist);
    }
  }

  /** Servers that have decided, in state `c`, hold the same value. */
  ghost predicate Agreed(c: Slot) {
    forall s, u | 0 <= s < |c.insts| && 0 <= u < |c.insts| && c.insts[s].status == Decided && c.insts[u].status == Decided ::
      c.insts[s].value == c.insts[u].value
  }

  /** A decided value, as long as nil is not chosen: it was chosen, and some Start proposed it. */
  lemma DecidedMeans(c: Slot, n: nat, s: nat)
    requires Inv(c, n) && Safe(c, n) && s < n && c.insts[s].status == Decided && !NilChosen(c.hist, n)
    ensures var v := c.insts[s].value; ChosenValue(c.hist, n, v) && v != Nil && v in c.hist.starts
  {
    var v := c.insts[s].value;
    var b :| ChosenAt(c.hist, n, b) && c.hist.proposals[b].value == v;
    assert ProposalOk(c.hist, n, b, c.hist.proposals[b]);
  }

  /** Agreement: in every run, nil proposals or not, as long as no majority has chosen nil, any two
      servers that decide, at whatever points of the run, decide the same value, which is not
      nil and which some call of Start proposed. */
  lemma Agreement(run: seq<Slot>, n: nat, nilOk: bool, i: nat, s: nat, j: nat, u: nat)
    requires Run(run, n, nilOk) && i <= j < |run| && s < n && u < n && !NilChosen(run[j].hist, n)
    requires |run[i].insts| == n && |run[j].insts| == n
    requires run[i].insts[s].status == Decided && run[j].insts[u].status == Decided
    ensures run[i].insts[s].value == run[j].insts[u].value
    ensures run[i].insts[s].value != Nil && run[i].insts[s].value in run[i].hist.starts
  {
    RunSafe(run, n, nilOk, i);
    RunSafe(run, n, nilOk, j);
    RunExtends(run, n, nilOk, i, j);
    var v := run[i].insts[s].value;
    if NilChosen(run[i].hist, n) { ChosenGrows(run[i].hist, run[j].hist, n, Nil); }
    DecidedMeans(run[i], n, s);
    DecidedMeans(run[j], n, u);
    ChosenGrows(run[i].hist, run[j].hist, n, v);
    ChosenUnique(run[j].hist, n, v, run[j].insts[u].value);
  }

  /** The hypothesis holds in every run in which no round enters its accept phase with nil. */
  lemma NilNotChosen(run: seq<Slot>, n: nat, i: nat)
    requires Run(run, n, false) && i < |run|
    ensures !NilChosen(run[i].hist, n)
  {
    RunSafe(run, n, false, i);
    NilFreeMeans(run[i].hist, n);
  }

  /** So servers disagree in a state of a run only if nil was chosen by then. */
  lemma DisagreementMeansNil(run: seq<Slot>, n: nat, nilOk: bool, i: nat)
    requires Run(run, n, nilOk) && i < |run|
    ensures Agreed(run[i]) || NilChosen(run[i].hist, n)
  {
    RunSafe(run, n, nilOk, i);
    if !NilChosen(run[i].hist, n) {
      forall s, u | 0 <= s < n && 0 <= u < n && run[i].insts[s].status == Decided && run[i].insts[u].status == Decided
        ensures run[i].insts[s].value == run[i].insts[u].value
      {
        Agreement(run, n, nilOk, i, s, i, u);
      }
    }
  }

  /** One proposer per ballot: of all rounds of all servers, over the whole run and with
      or without nil, only one passes the prepare phase at any ballot number. */
  lemma OneRoundPerBallot(run: seq<Slot>, n: nat, nilOk: bool, i: nat, s: nat, j: nat, u: nat, b: nat)
    requires Run(run, n, nilOk) && i <= j < |run|
    requires (s, b) in run[i].rounds && run[i].rounds[(s, b)].phase == Accepting
    requires (u, b) in run[j].rounds && run[j].rounds[(u, b)].phase == Accepting
    ensures s == u && run[i].rounds[(s, b)].value == run[j].rounds[(u, b)].value
  {
    RunSafe(run, n, nilOk, i);
    RunSafe(run, n, nilOk, j);
    RunExtends(run, n, nilOk, i, j);
    assert RoundOk(run[i].hist, run[i].insts, s, b, run[i].rounds[(s, b)]);
    assert RoundOk(run[j].hist, run[j].insts, u, b, run[j].rounds[(u, b)]);
  }
}
