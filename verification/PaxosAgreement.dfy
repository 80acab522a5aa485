/** Why one slot has one value although ballots carry no proposer id: what every step
    keeps, and agreement by induction on ballots. */
module PaxosAgreement {
  import opened Session
  import opened Quorums
  import opened PaxosInstance
  import opened PaxosSlot

  // ---------------------------------------------------------------- invariant

  ghost predicate InstOk(h: Hist, s: nat, i: Inst) {
    && i.accept <= i.prepare
    && (i.status != Decided && i.accept == 0 ==> i.value == Nil)
    && (i.status != Decided && i.accept > 0 ==> Vote(s, i.accept, i.value) in h.votes)
    && (forall g | g in h.grants && g.acceptor == s :: g.ballot <= i.prepare)
    && (forall v | v in h.votes && v.acceptor == s :: v.ballot <= i.accept)
  }

  /** A promise reports the highest ballot its acceptor voted for below the promised one. */
  ghost predicate GrantOk(h: Hist, n: nat, g: Grant) {
    && g.acceptor < n && g.accept < g.ballot
    && (g.accept == 0 ==> g.value == Nil)
    && (g.accept > 0 ==> Vote(g.acceptor, g.accept, g.value) in h.votes)
    && (forall v | v in h.votes && v.acceptor == g.acceptor && v.ballot < g.ballot :: v.ballot <= g.accept)
  }

  ghost predicate VoteOk(h: Hist, n: nat, v: Vote) {
    v.acceptor < n && v.ballot in h.proposals && h.proposals[v.ballot].value == v.value
  }

  ghost predicate PromiseOf(h: Hist, b: nat, p: Proposal, a: nat)
    requires a in p.promises
  {
    var g := p.promises[a];
    g in h.grants && g.acceptor == a && g.ballot == b && g.proposer == p.server
  }

  /** The value is that of a highest promise, if any promise reports one that is not nil. */
  ghost predicate Picked(p: Proposal) {
    || (forall a | a in p.promises :: p.promises[a].accept == 0)
    || exists a :: a in p.promises && Highest(p, a) && (p.promises[a].value == p.value || p.promises[a].value == Nil)
  }

  ghost predicate Highest(p: Proposal, a: nat)
    requires a in p.promises
  {
    forall c | c in p.promises :: p.promises[c].accept <= p.promises[a].accept
  }

  ghost predicate ProposalOk(h: Hist, n: nat, b: nat, p: Proposal) {
    && IsQuorum(p.promises.Keys, n) && p.server in p.promises
    && (forall a | a in p.promises :: PromiseOf(h, b, p, a))
    && Picked(p)
    && (p.value == Nil || p.value in h.starts)
  }

  ghost predicate GrantsUnique(h: Hist) {
    forall g, g' | g in h.grants && g' in h.grants && g.acceptor == g'.acceptor && g.ballot == g'.ballot :: g == g'
  }

  ghost predicate HistOk(h: Hist, n: nat) {
    && (forall g {:trigger GrantOk(h, n, g)} | g in h.grants :: GrantOk(h, n, g))
    && GrantsUnique(h)
    && (forall v {:trigger VoteOk(h, n, v)} | v in h.votes :: VoteOk(h, n, v))
    && (forall b {:trigger ProposalOk(h, n, b, h.proposals[b])} | b in h.proposals :: ProposalOk(h, n, b, h.proposals[b]))
  }

  ghost predicate RoundOk(h: Hist, insts: seq<Inst>, s: nat, b: nat, r: Round) {
    && s < |insts| && b <= insts[s].prepare
    && (r.v == Nil || r.v in h.starts)
    && (r.phase == Preparing ==> Grant(s, b, s, r.accept, r.value) in h.grants)
    && (r.phase == Accepting ==> b in h.proposals && h.proposals[b].server == s && h.proposals[b].value == r.value
                                   && Vote(s, b, r.value) in h.votes)
    && (b in h.proposals && h.proposals[b].server == s ==> r.phase != Preparing)
  }

  ghost predicate MsgOk(h: Hist, n: nat, m: Msg) {
    match m
    case PrepareRep(a, src, b, reply) =>
      reply.code == Ok ==> a < n && a != src && Grant(a, b, src, reply.acPr, reply.value) in h.grants
    case AcceptReq(src, b, value) => b in h.proposals && h.proposals[b].value == value
    case AcceptRep(a, src, b, answer) =>
      answer == ACCEPT_OK ==> a < n && b in h.proposals && Vote(a, b, h.proposals[b].value) in h.votes
    case _ => true
  }

  ghost predicate Inv(c: Slot, n: nat) {
    && |c.insts| == n && HistOk(c.hist, n)
    && (forall s {:trigger InstOk(c.hist, s, c.insts[s])} | 0 <= s < n :: InstOk(c.hist, s, c.insts[s]))
    && (forall k | k in c.rounds :: RoundOk(c.hist, c.insts, k.0, k.1, c.rounds[k]))
    && (forall m {:trigger MsgOk(c.hist, n, m)} | m in c.net :: MsgOk(c.hist, n, m))
  }

  // ------------------------------------------------- consequences of one state

  /** One proposer per ballot: promises of one ballot go to one proposer, and any two
      majorities share an acceptor. */
  lemma OneProposer(h: Hist, n: nat, b: nat, p: Proposal, p': Proposal)
    requires GrantsUnique(h) && ProposalOk(h, n, b, p) && ProposalOk(h, n, b, p')
    ensures p.server == p'.server
  {
    var a := QuorumsIntersect(p.promises.Keys, p'.promises.Keys, n);
    assert PromiseOf(h, b, p, a) && PromiseOf(h, b, p', a);
  }

  ghost predicate VotedBy(h: Hist, n: nat, q: set<nat>, b: nat)
    requires b in h.proposals
  {
    IsQuorum(q, n) && forall a | a in q :: Vote(a, b, h.proposals[b].value) in h.votes
  }

  /** A majority has voted for the proposal of ballot `b`. */
  ghost predicate ChosenAt(h: Hist, n: nat, b: nat) {
    b in h.proposals && exists q :: VotedBy(h, n, q, b)
  }

  ghost predicate ChosenValue(h: Hist, n: nat, v: Payload) {
    exists b :: ChosenAt(h, n, b) && h.proposals[b].value == v
  }

  ghost predicate NilFree(h: Hist) {
    forall b | b in h.proposals :: h.proposals[b].value != Nil
  }

  /** A later proposal met a voter of the chosen one, so its highest promise is at
      least as high. */
  lemma PromiseReaches(h: Hist, n: nat, b: nat, b': nat) returns (a: nat)
    requires HistOk(h, n) && ChosenAt(h, n, b) && b' in h.proposals && b < b'
    ensures a in h.proposals[b'].promises && b <= h.proposals[b'].promises[a].accept
  {
    var q :| VotedBy(h, n, q, b);
    var p := h.proposals[b'];
    assert ProposalOk(h, n, b', p);
    a := QuorumsIntersect(q, p.promises.Keys, n);
    assert PromiseOf(h, b', p, a);
    assert GrantOk(h, n, p.promises[a]);
    assert Vote(a, b, h.proposals[b].value) in h.votes;
  }

  /** Once a ballot is chosen with a value other than nil, every later proposal carries that value,
      whatever nil proposals there are. */
  lemma {:induction false} LaterProposalsAgree(h: Hist, n: nat, b: nat, b': nat)
    requires HistOk(h, n) && ChosenAt(h, n, b) && h.proposals[b].value != Nil && b' in h.proposals && b <= b'
    ensures h.proposals[b'].value == h.proposals[b].value
    decreases b'
  {
    if b < b' {
      var p := h.proposals[b'];
      var a := PromiseReaches(h, n, b, b');
      assert ProposalOk(h, n, b', p);
      BallotPositive(h, n, b);
      var c :| c in p.promises && Highest(p, c) && (p.promises[c].value == p.value || p.promises[c].value == Nil);
      var g := p.promises[c];
      assert PromiseOf(h, b', p, c);
      assert GrantOk(h, n, g);
      assert VoteOk(h, n, Vote(g.acceptor, g.accept, g.value));
      LaterProposalsAgree(h, n, b, g.accept);
    }
  }

  lemma BallotPositive(h: Hist, n: nat, b: nat)
    requires HistOk(h, n) && b in h.proposals
    ensures b > 0
  {
    var p := h.proposals[b];
    assert ProposalOk(h, n, b, p);
    assert PromiseOf(h, b, p, p.server);
    assert GrantOk(h, n, p.promises[p.server]);
  }

  /** At most one value other than nil is ever chosen. */
  lemma ChosenUnique(h: Hist, n: nat, v: Payload, v': Payload)
    requires HistOk(h, n) && ChosenValue(h, n, v) && ChosenValue(h, n, v') && v != Nil && v' != Nil
    ensures v == v'
  {
    var b :| ChosenAt(h, n, b) && h.proposals[b].value == v;
    var b' :| ChosenAt(h, n, b') && h.proposals[b'].value == v';
    if b <= b' { LaterProposalsAgree(h, n, b, b'); } else { LaterProposalsAgree(h, n, b', b); }
  }

  // ---------------------------------------------------------- how history grows

  ghost predicate Extends(h: Hist, h': Hist) {
    && h.starts <= h'.starts && h.grants <= h'.grants && h.votes <= h'.votes
    && h.proposals.Keys <= h'.proposals.Keys
    && forall b | b in h.proposals :: h'.proposals[b] == h.proposals[b]
  }

  lemma ProposalGrows(h: Hist, h': Hist, n: nat, b: nat, p: Proposal)
    requires Extends(h, h') && ProposalOk(h, n, b, p)
    ensures ProposalOk(h', n, b, p)
  {
  }

  lemma ChosenGrows(h: Hist, h': Hist, n: nat, v: Payload)
    requires Extends(h, h') && ChosenValue(h, n, v)
    ensures ChosenValue(h', n, v)
  {
    var b :| ChosenAt(h, n, b) && h.proposals[b].value == v;
    var q :| VotedBy(h, n, q, b);
    assert VotedBy(h', n, q, b);
    assert ChosenAt(h', n, b);
  }

  /** What is left to show of a step that changes the instance of `s` and may add to the history. */
  ghost predicate Obligations(c: Slot, c': Slot, n: nat, s: nat) {
    && s < n && |c.insts| == |c'.insts| == n && (forall i | 0 <= i < n && i != s :: c'.insts[i] == c.insts[i])
    && c.insts[s].prepare <= c'.insts[s].prepare
    && Extends(c.hist, c'.hist)
    && (forall g | g in c'.hist.grants - c.hist.grants :: g.acceptor == s && GrantOk(c'.hist, n, g))
    && GrantsUnique(c'.hist)
    && (forall v | v in c'.hist.votes - c.hist.votes :: v.acceptor == s && VoteOk(c'.hist, n, v) && v.ballot >= c.insts[s].prepare)
    && (forall b | b in c'.hist.proposals && b !in c.hist.proposals :: ProposalOk(c'.hist, n, b, c'.hist.proposals[b]))
    && InstOk(c'.hist, s, c'.insts[s])
    && (forall m | m in c'.net - c.net :: MsgOk(c'.hist, n, m))
    && (forall k | k in c'.rounds :: RoundOk(c'.hist, c'.insts, k.0, k.1, c'.rounds[k]))
  }

  /** An old promise stays accurate, since its acceptor no longer votes below it. */
  lemma GrantGrows(c: Slot, c': Slot, n: nat, s: nat, g: Grant)
    requires Inv(c, n) && Obligations(c, c', n, s) && g in c.hist.grants
    ensures GrantOk(c'.hist, n, g)
  {
    assert GrantOk(c.hist, n, g);
    assert InstOk(c.hist, s, c.insts[s]);
  }

  lemma InvKept(c: Slot, c': Slot, n: nat, s: nat)
    requires Inv(c, n) && Obligations(c, c', n, s)
    ensures Inv(c', n)
  {
    var h, h' := c.hist, c'.hist;
    forall g | g in h'.grants ensures GrantOk(h', n, g) {
      if g in h.grants { GrantGrows(c, c', n, s, g); }
    }
    forall v | v in h'.votes ensures VoteOk(h', n, v) {
      if v in h.votes { assert VoteOk(h, n, v); }
    }
    forall b | b in h'.proposals ensures ProposalOk(h', n, b, h'.proposals[b]) {
      if b in h.proposals {
        assert ProposalOk(h, n, b, h.proposals[b]);
        ProposalGrows(h, h', n, b, h.proposals[b]);
      }
    }
    forall i | 0 <= i < n ensures InstOk(h', i, c'.insts[i]) {
      if i != s { assert InstOk(h, i, c.insts[i]); }
    }
    forall m | m in c'.net ensures MsgOk(h', n, m) {
      if m in c.net { assert MsgOk(h, n, m); }
    }
  }
}
