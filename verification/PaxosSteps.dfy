/** Every step of a Paxos slot keeps the invariant; without nil proposals, whatever a
    server decides was chosen by a majority. */
module PaxosSteps {
  import opened Session
  import opened Quorums
  import opened PaxosInstance
  import opened PaxosSlot
  import opened PaxosAgreement

  ghost predicate Kept(c: Slot, c': Slot, n: nat) {
    Inv(c', n) && Extends(c.hist, c'.hist)
  }

  /** Rounds survive a step that starts no accept phase. */
  lemma RoundsKept(c: Slot, h': Hist, insts': seq<Inst>, n: nat)
    requires Inv(c, n) && Extends(c.hist, h') && |insts'| == n && h'.proposals == c.hist.proposals
    requires forall i | 0 <= i < n :: c.insts[i].prepare <= insts'[i].prepare
    ensures forall k | k in c.rounds :: RoundOk(h', insts', k.0, k.1, c.rounds[k])
  {
  }

  lemma SubmitKeeps(c: Slot, c': Slot, n: nat, s: nat, v: Payload)
    requires Inv(c, n) && s < n && SubmitStep(c, c', v)
    ensures Kept(c, c', n)
  {
    RoundsKept(c, c'.hist, c.insts, n);
    assert InstOk(c.hist, s, c.insts[s]);
    InvKept(c, c', n, s);
  }

  /** A server has proposed only at ballots it has reached. */
  lemma ProposedWithin(c: Slot, n: nat, s: nat, b: nat)
    requires Inv(c, n) && s < n && b in c.hist.proposals && c.hist.proposals[b].server == s
    ensures b <= c.insts[s].prepare
  {
    var p := c.hist.proposals[b];
    assert ProposalOk(c.hist, n, b, p);
    assert PromiseOf(c.hist, b, p, s);
    assert InstOk(c.hist, s, c.insts[s]);
  }

  lemma BeginKeeps(c: Slot, c': Slot, n: nat, s: nat, v: Payload)
    requires Inv(c, n) && s < n && BeginStep(c, c', s, v)
    ensures Kept(c, c', n)
  {
    var h, h', i := c.hist, c'.hist, c.insts[s];
    var b := i.prepare + 1;
    var g := Grant(s, b, s, i.accept, i.value);
    assert InstOk(h, s, i);
    assert GrantOk(h', n, g);
    RoundsKept(c, h', c'.insts, n);
    if b in h.proposals && h.proposals[b].server == s { ProposedWithin(c, n, s, b); }
    assert RoundOk(h', c'.insts, s, b, c'.rounds[(s, b)]);
    InvKept(c, c', n, s);
  }

  lemma PromiseKeeps(c: Slot, c': Slot, n: nat, s: nat, src: nat, b: nat)
    requires Inv(c, n) && s < n && PromiseStep(c, c', s, src, b)
    ensures Kept(c, c', n)
  {
    var h, h', i := c.hist, c'.hist, c.insts[s];
    assert InstOk(h, s, i);
    var (i', reply) := Prepare(i, b);
    if reply.code == Ok { assert GrantOk(h', n, Grant(s, b, src, i.accept, i.value)); }
    RoundsKept(c, h', c'.insts, n);
    InvKept(c, c', n, s);
  }

  /** A step that only ends rounds and lets `s` raise its ballot. */
  lemma EndingKeeps(c: Slot, c': Slot, n: nat, s: nat)
    requires Inv(c, n) && s < n && c'.hist == c.hist && |c'.insts| == n
    requires forall i | 0 <= i < n && i != s :: c'.insts[i] == c.insts[i]
    requires c'.insts[s] == c.insts[s].(prepare := c'.insts[s].prepare) && c'.insts[s].prepare >= c.insts[s].prepare
    requires c'.rounds.Keys == c.rounds.Keys
    requires forall k | k in c.rounds :: c'.rounds[k] == c.rounds[k] || c'.rounds[k] == c.rounds[k].(phase := Over)
    requires forall m | m in c'.net - c.net :: m.DecideReq?
    ensures Kept(c, c', n)
  {
    assert InstOk(c.hist, s, c.insts[s]);
    RoundsKept(c, c.hist, c'.insts, n);
    forall k | k in c'.rounds ensures RoundOk(c'.hist, c'.insts, k.0, k.1, c'.rounds[k]) {
      assert RoundOk(c.hist, c'.insts, k.0, k.1, c.rounds[k]);
    }
    InvKept(c, c', n, s);
  }

  // ------------------------------------------------------ passing the prepare phase

  /** Promise `g` is what the acceptor at place `j` answered. */
  ghost predicate AnswerOf(g: Grant, s: nat, b: nat, from: seq<nat>, replies: seq<PrepareReply>, j: int)
    requires |from| == |replies|
  {
    0 <= j < |from| && replies[j].code == Ok && g == Grant(from[j], b, s, replies[j].acPr, replies[j].value)
  }

  ghost predicate Answered(m: map<nat, Grant>, s: nat, b: nat, from: seq<nat>, replies: seq<PrepareReply>, a: nat)
    requires |from| == |replies| && a in m
  {
    exists j :: AnswerOf(m[a], s, b, from, replies, j) && from[j] == a
  }

  ghost predicate AllAnswered(m: map<nat, Grant>, s: nat, b: nat, from: seq<nat>, replies: seq<PrepareReply>)
    requires |from| == |replies|
  {
    forall a {:trigger Answered(m, s, b, from, replies, a)} | a in m && a != s :: Answered(m, s, b, from, replies, a)
  }

  /** Every Ok is counted, as what it answered. */
  ghost predicate AllCounted(m: map<nat, Grant>, s: nat, b: nat, from: seq<nat>, replies: seq<PrepareReply>)
    requires |from| == |replies|
  {
    forall j | 0 <= j < |from| && replies[j].code == Ok :: from[j] in m && AnswerOf(m[from[j]], s, b, from, replies, j)
  }

  /** The promises counted: one for the proposer, one for each acceptor that answered Ok. */
  lemma {:induction false} CountedIs(s: nat, b: nat, r: Round, from: seq<nat>, replies: seq<PrepareReply>)
    requires |from| == |replies| && Distinct(from) && s !in from
    ensures var m := Counted(s, b, r, from, replies);
      && |m.Keys| == 1 + Promises(replies)
      && s in m && m[s] == Grant(s, b, s, r.accept, r.value)
      && AllAnswered(m, s, b, from, replies) && AllCounted(m, s, b, from, replies)
  {
    if from == [] {
      assert Counted(s, b, r, from, replies).Keys == {s};
    } else {
      var last := |from| - 1;
      var f, p := from[..last], replies[..last];
      CountedIs(s, b, r, f, p);
      PromisesSnoc(p, replies[last]);
      assert replies == p + [replies[last]];
      var m, m' := Counted(s, b, r, f, p), Counted(s, b, r, from, replies);
      AnsweredAmong(m, s, b, f, p);
      assert m'.Keys == if replies[last].code == Ok then m.Keys + {from[last]} else m.Keys;
      OneMoreAnswered(m, m', s, b, from, replies);
      OneMoreCounted(m, m', s, b, from, replies);
    }
  }

  ghost predicate OneMore(m: map<nat, Grant>, m': map<nat, Grant>, s: nat, b: nat, from: seq<nat>, replies: seq<PrepareReply>)
    requires |from| == |replies| > 0
  {
    var last := |from| - 1;
    m' == if replies[last].code == Ok then m[from[last] := Grant(from[last], b, s, replies[last].acPr, replies[last].value)] else m
  }

  lemma OneMoreAnswered(m: map<nat, Grant>, m': map<nat, Grant>, s: nat, b: nat, from: seq<nat>, replies: seq<PrepareReply>)
    requires |from| == |replies| > 0 && from[|from| - 1] !in m && OneMore(m, m', s, b, from, replies)
    requires AllAnswered(m, s, b, from[..|from| - 1], replies[..|from| - 1])
    ensures AllAnswered(m', s, b, from, replies)
  {
    var last := |from| - 1;
    forall a | a in m' && a != s ensures Answered(m', s, b, from, replies, a) {
      if a in m {
        assert Answered(m, s, b, from[..last], replies[..last], a);
        var j :| AnswerOf(m[a], s, b, from[..last], replies[..last], j) && from[..last][j] == a;
        assert AnswerOf(m'[a], s, b, from, replies, j);
      } else {
        assert AnswerOf(m'[a], s, b, from, replies, last);
      }
    }
  }

  lemma OneMoreCounted(m: map<nat, Grant>, m': map<nat, Grant>, s: nat, b: nat, from: seq<nat>, replies: seq<PrepareReply>)
    requires |from| == |replies| > 0 && from[|from| - 1] !in m && OneMore(m, m', s, b, from, replies)
    requires AllCounted(m, s, b, from[..|from| - 1], replies[..|from| - 1])
    ensures AllCounted(m', s, b, from, replies)
  {
    var last := |from| - 1;
    forall j | 0 <= j < |from| && replies[j].code == Ok ensures from[j] in m' && AnswerOf(m'[from[j]], s, b, from, replies, j) {
      if j < last { assert from[..last][j] == from[j] && replies[..last][j] == replies[j]; }
    }
  }

  lemma AnswerFor(m: map<nat, Grant>, s: nat, b: nat, from: seq<nat>, replies: seq<PrepareReply>, a: nat) returns (j: nat)
    requires |from| == |replies| && AllAnswered(m, s, b, from, replies) && a in m && a != s
    ensures AnswerOf(m[a], s, b, from, replies, j) && from[j] == a
  {
    assert Answered(m, s, b, from, replies, a);
    j :| AnswerOf(m[a], s, b, from, replies, j) && from[j] == a;
  }

  lemma AnsweredAmong(m: map<nat, Grant>, s: nat, b: nat, from: seq<nat>, replies: seq<PrepareReply>)
    requires |from| == |replies| && AllAnswered(m, s, b, from, replies)
    ensures forall a | a in m :: a == s || a in from
  {
    forall a | a in m && a != s ensures a in from { var j := AnswerFor(m, s, b, from, replies, a); }
  }

  lemma {:induction false} PromisesSnoc(p: seq<PrepareReply>, r: PrepareReply)
    ensures Promises(p + [r]) == Promises(p) + if r.code == Ok then 1 else 0
  {
    if p != [] {
      assert (p + [r])[1..] == p[1..] + [r];
      PromisesSnoc(p[1..], r);
    } else {
      assert [r][1..] == [];
    }
  }

  /** A round that counted a majority of promises makes a sound proposal. */
  lemma PromisedProposal(c: Slot, n: nat, s: nat, b: nat, from: seq<nat>, replies: seq<PrepareReply>, value: Payload)
    requires Inv(c, n) && s < n && (s, b) in c.rounds && c.rounds[(s, b)].phase == Preparing
    requires |from| == |replies| && Distinct(from) && forall a | a in from :: a < n && a != s
    requires forall j | 0 <= j < |from| :: HeardPromise(c.net, s, b, from[j], replies[j])
    requires TallyPrepare(replies, n, 0, 1, c.rounds[(s, b)].accept, c.rounds[(s, b)].value).Promised?
    requires var r := c.rounds[(s, b)];
      var best := TallyPrepare(replies, n, 0, 1, r.accept, r.value).value;
      value == if best == Nil then r.v else best
    ensures ProposalOk(c.hist, n, b, Proposal(s, value, CountedUntil(s, b, n, c.rounds[(s, b)], from, replies)))
  {
    var h, r := c.hist, c.rounds[(s, b)];
    var k := ReadUntilPromised(replies, n, 0, 1, r.accept, r.value);
    var f, q := from[..k], replies[..k];
    var p := Proposal(s, value, Counted(s, b, r, f, q));
    assert RoundOk(h, c.insts, s, b, r);
    PromisedMeans(replies, n, 0, 1, r.accept, r.value);
    assert forall a | a in f :: a in from;
    CountedIs(s, b, r, f, q);
    forall a | a in p.promises ensures a < n && PromiseOf(h, b, p, a) {
      if a != s {
        var j := AnswerFor(p.promises, s, b, f, q, a);
        assert from[j] == a && HeardPromise(c.net, s, b, from[j], replies[j]);
        assert MsgOk(h, n, PrepareRep(a, s, b, replies[j]));
      }
    }
    PickedHighest(n, s, b, r, f, q, replies, value);
    ValueStarted(c, n, s, b, r, f, replies, value, p);
  }

  /** The carried value comes from a highest promise. */
  lemma PickedHighest(n: nat, s: nat, b: nat, r: Round, f: seq<nat>, q: seq<PrepareReply>, replies: seq<PrepareReply>, value: Payload)
    requires TallyPrepare(replies, n, 0, 1, r.accept, r.value).Promised?
    requires q == replies[..ReadUntilPromised(replies, n, 0, 1, r.accept, r.value)]
    requires |f| == |q| && Distinct(f) && s !in f
    requires var best := TallyPrepare(replies, n, 0, 1, r.accept, r.value).value; value == if best == Nil then r.v else best
    ensures Picked(Proposal(s, value, Counted(s, b, r, f, q)))
  {
    var p := Proposal(s, value, Counted(s, b, r, f, q));
    var o := TallyPrepare(replies, n, 0, 1, r.accept, r.value);
    PromisedMeans(replies, n, 0, 1, r.accept, r.value);
    CountedIs(s, b, r, f, q);
    forall a | a in p.promises ensures p.promises[a].accept <= o.accept {
      if a != s {
        var j := AnswerFor(p.promises, s, b, f, q, a);
        assert q[j] == replies[j];
      }
    }
    var a: nat;
    if o.accept == r.accept && o.value == r.value { a := s; } else {
      var j :| 0 <= j < |q| && replies[j].code == Ok && replies[j].acPr == o.accept && replies[j].value == o.value;
      assert q[j] == replies[j];
      a := f[j];
    }
    assert a in p.promises && Highest(p, a) && p.promises[a].value == o.value;
  }

  /** A carried value that is not the proposer's own was proposed before. */
  lemma ValueStarted(c: Slot, n: nat, s: nat, b: nat, r: Round, f: seq<nat>, replies: seq<PrepareReply>, value: Payload, p: Proposal)
    requires Inv(c, n) && (r.v == Nil || r.v in c.hist.starts)
    requires TallyPrepare(replies, n, 0, 1, r.accept, r.value).Promised?
    requires var q := replies[..ReadUntilPromised(replies, n, 0, 1, r.accept, r.value)];
      |f| == |q| && Distinct(f) && s !in f && p == Proposal(s, value, Counted(s, b, r, f, q))
    requires var best := TallyPrepare(replies, n, 0, 1, r.accept, r.value).value; value == if best == Nil then r.v else best
    requires forall a | a in p.promises :: PromiseOf(c.hist, b, p, a)
    ensures value == Nil || value in c.hist.starts
  {
    var h := c.hist;
    var q := replies[..ReadUntilPromised(replies, n, 0, 1, r.accept, r.value)];
    var o := TallyPrepare(replies, n, 0, 1, r.accept, r.value);
    PromisedMeans(replies, n, 0, 1, r.accept, r.value);
    CountedIs(s, b, r, f, q);
    if o.value != Nil {
      var a: nat;
      if o.accept == r.accept && o.value == r.value { a := s; } else {
        var j :| 0 <= j < |q| && replies[j].code == Ok && replies[j].acPr == o.accept && replies[j].value == o.value;
        assert q[j] == replies[j];
        a := f[j];
      }
      var g := p.promises[a];
      assert g.value == o.value && PromiseOf(h, b, p, a);
      assert GrantOk(h, n, g);
      assert VoteOk(h, n, Vote(g.acceptor, g.accept, g.value));
      assert ProposalOk(h, n, g.accept, h.proposals[g.accept]);
    }
  }

  /** The round that passes the check between the phases is the first one at its ballot. */
  lemma BallotUnused(c: Slot, n: nat, s: nat, b: nat, r: Round, p: Proposal)
    requires Inv(c, n) && s < n && (s, b) in c.rounds && c.rounds[(s, b)] == r && r.phase == Preparing
    requires p.server == s && ProposalOk(c.hist, n, b, p)
    ensures b !in c.hist.proposals
  {
    var h := c.hist;
    assert RoundOk(h, c.insts, s, b, r);
    if b in h.proposals {
      assert ProposalOk(h, n, b, h.proposals[b]);
      OneProposer(h, n, b, p, h.proposals[b]);
    }
  }

  lemma EnterRounds(c: Slot, c': Slot, n: nat, s: nat, b: nat, r: Round, p: Proposal)
    requires Inv(c, n) && s < n && (s, b) in c.rounds && c.rounds[(s, b)] == r && p.server == s && b !in c.hist.proposals
    requires EnterAccept(c.insts[s], b, p.value).1 && c'.insts == c.insts[s := EnterAccept(c.insts[s], b, p.value).0]
    requires c'.rounds == c.rounds[(s, b) := r.(value := p.value, phase := Accepting)]
    requires c'.hist == c.hist.(votes := c.hist.votes + {Vote(s, b, p.value)}, proposals := c.hist.proposals[b := p])
    ensures forall k | k in c'.rounds :: RoundOk(c'.hist, c'.insts, k.0, k.1, c'.rounds[k])
  {
  }

  ghost predicate Enters(c: Slot, c': Slot, n: nat, s: nat, b: nat, r: Round, p: Proposal) {
    && s < n == |c.insts| && (s, b) in c.rounds && c.rounds[(s, b)] == r && r.phase == Preparing
    && p.server == s && EnterAccept(c.insts[s], b, p.value).1
    && c' == Put(c, s, EnterAccept(c.insts[s], b, p.value).0,
                 c.rounds[(s, b) := r.(value := p.value, phase := Accepting)], {AcceptReq(s, b, p.value)},
                 c.hist.(votes := c.hist.votes + {Vote(s, b, p.value)}, proposals := c.hist.proposals[b := p]))
  }

  lemma EnterInst(h: Hist, h': Hist, n: nat, s: nat, i: Inst, b: nat, p: Proposal, g: Grant)
    requires InstOk(h, s, i) && EnterAccept(i, b, p.value).1 && b !in h.proposals && s < n
    requires g in h.grants && g.ballot == b && GrantOk(h, n, g)
    requires h' == h.(votes := h.votes + {Vote(s, b, p.value)}, proposals := h.proposals[b := p])
    ensures Extends(h, h') && InstOk(h', s, EnterAccept(i, b, p.value).0) && VoteOk(h', n, Vote(s, b, p.value))
  {
  }

  lemma EnterKeeps(c: Slot, c': Slot, n: nat, s: nat, b: nat, r: Round, p: Proposal)
    requires Inv(c, n) && Enters(c, c', n, s, b, r, p) && ProposalOk(c.hist, n, b, p)
    ensures Kept(c, c', n)
  {
    var h, h', g := c.hist, c'.hist, Grant(s, b, s, r.accept, r.value);
    assert InstOk(h, s, c.insts[s]) && RoundOk(h, c.insts, s, b, r) && GrantOk(h, n, g);
    BallotUnused(c, n, s, b, r, p);
    EnterInst(h, h', n, s, c.insts[s], b, p, g);
    ProposalGrows(h, h', n, b, p);
    EnterRounds(c, c', n, s, b, r, p);
    InvKept(c, c', n, s);
  }

  lemma EndPrepareKeeps(c: Slot, c': Slot, n: nat, s: nat, b: nat, from: seq<nat>, replies: seq<PrepareReply>, nilOk: bool)
    requires Inv(c, n) && s < n && EndPrepareStep(c, c', s, b, from, replies, nilOk)
    ensures Kept(c, c', n)
  {
    var r := c.rounds[(s, b)];
    var o := TallyPrepare(replies, n, 0, 1, r.accept, r.value);
    if o == Waiting {
    } else if o.Promised? {
      var value := if o.value == Nil then r.v else o.value;
      PromisedProposal(c, n, s, b, from, replies, value);
      if EnterAccept(c.insts[s], b, value).1 {
        EnterKeeps(c, c', n, s, b, r, Proposal(s, value, CountedUntil(s, b, n, r, from, replies)));
      } else {
        EndingKeeps(c, c', n, s);
      }
    } else {
      EndingKeeps(c, c', n, s);
    }
  }

  // ------------------------------------------------------------- the other steps

  lemma VouchKeeps(c: Slot, c': Slot, n: nat, s: nat, src: nat, b: nat, value: Payload)
    requires Inv(c, n) && s < n && VouchStep(c, c', s, src, b, value)
    ensures Kept(c, c', n)
  {
    assert InstOk(c.hist, s, c.insts[s]);
    assert MsgOk(c.hist, n, AcceptReq(src, b, value));
    BallotPositive(c.hist, n, b);
    RoundsKept(c, c'.hist, c'.insts, n);
    InvKept(c, c', n, s);
  }

  lemma EndAcceptKeeps(c: Slot, c': Slot, n: nat, s: nat, b: nat, from: seq<nat>, answers: seq<int>)
    requires Inv(c, n) && s < n && EndAcceptStep(c, c', s, b, from, answers)
    ensures Kept(c, c', n)
  {
    EndingKeeps(c, c', n, s);
  }

  lemma LearnKeeps(c: Slot, c': Slot, n: nat, s: nat, value: Payload)
    requires Inv(c, n) && s < n && LearnStep(c, c', s, value)
    ensures Kept(c, c', n)
  {
    assert InstOk(c.hist, s, c.insts[s]);
    assert c.net + {} == c.net;
    RoundsKept(c, c'.hist, c'.insts, n);
    InvKept(c, c', n, s);
  }

  lemma RebootKeeps(c: Slot, c': Slot, n: nat, s: nat)
    requires Inv(c, n) && RebootStep(c, c', s)
    ensures Kept(c, c', n)
  {
  }

  lemma NextKeeps(c: Slot, c': Slot, n: nat, nilOk: bool)
    requires Inv(c, n) && Next(c, c', nilOk)
    ensures Kept(c, c', n)
  {
    var step :| StepOk(c, c', step, nilOk);
    match step
    case Submit(s, v) => SubmitKeeps(c, c', n, s, v);
    case Begin(s, v) => BeginKeeps(c, c', n, s, v);
    case Promise(s, src, b) => PromiseKeeps(c, c', n, s, src, b);
    case EndPrepare(s, b, from, replies) => EndPrepareKeeps(c, c', n, s, b, from, replies, nilOk);
    case Vouch(s, src, b, value) => VouchKeeps(c, c', n, s, src, b, value);
    case EndAccept(s, b, from, answers) => EndAcceptKeeps(c, c', n, s, b, from, answers);
    case Learn(s, value) => LearnKeeps(c, c', n, s, value);
    case Reboot(s) => RebootKeeps(c, c', n, s);
  }
}
