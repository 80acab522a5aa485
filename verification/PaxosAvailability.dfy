/** Paxos does decide: from every state of a slot, any majority can, with nobody else taking a
    step, bring all its members to a decision. A proposer needs at most one refused round for it. */
module PaxosAvailability {
  import opened Session
  import opened Quorums
  import opened PaxosInstance
  import opened PaxosSlot

  /** A server in `q` takes a step that is not a restart. */
  ghost predicate NextIn(q: set<nat>, nilOk: bool, c: Slot, c': Slot) {
    exists step :: StepOk(c, c', step, nilOk) && step.s in q && !step.Reboot?
  }

  ghost predicate StepIn(path: seq<Slot>, q: set<nat>, nilOk: bool, i: nat) {
    i + 1 < |path| ==> NextIn(q, nilOk, path[i], path[i + 1])
  }

  ghost predicate Path(path: seq<Slot>, q: set<nat>, nilOk: bool) {
    path != [] && forall i: nat {:trigger StepIn(path, q, nilOk, i)} :: StepIn(path, q, nilOk, i)
  }

  /** The servers in `q` can take the slot from `c` to `c'` while all others do nothing. */
  ghost predicate Leads(q: set<nat>, nilOk: bool, c: Slot, c': Slot) {
    && |c'.insts| == |c.insts|
    && exists path :: Path(path, q, nilOk) && path[0] == c && path[|path| - 1] == c'
  }

  lemma LeadsSelf(q: set<nat>, nilOk: bool, c: Slot)
    ensures Leads(q, nilOk, c, c)
  {
    assert Path([c], q, nilOk);
  }

  lemma LeadsBy(q: set<nat>, nilOk: bool, c: Slot, c': Slot, step: Step)
    requires StepOk(c, c', step, nilOk) && step.s in q && !step.Reboot? && |c'.insts| == |c.insts|
    ensures Leads(q, nilOk, c, c')
  {
    var path := [c, c'];
    assert NextIn(q, nilOk, c, c');
    assert StepIn(path, q, nilOk, 0);
    assert Path(path, q, nilOk);
  }

  lemma LeadsOn(q: set<nat>, nilOk: bool, a: Slot, b: Slot, c: Slot)
    requires Leads(q, nilOk, a, b) && Leads(q, nilOk, b, c)
    ensures Leads(q, nilOk, a, c)
  {
    var p :| Path(p, q, nilOk) && p[0] == a && p[|p| - 1] == b;
    var r :| Path(r, q, nilOk) && r[0] == b && r[|r| - 1] == c;
    var path := p + r[1..];
    forall i: nat ensures StepIn(path, q, nilOk, i) {
      if i + 1 < |p| {
        assert StepIn(p, q, nilOk, i);
        assert path[i] == p[i] && path[i + 1] == p[i + 1];
      } else if i + 1 < |path| {
        assert StepIn(r, q, nilOk, i + 1 - |p|);
        assert path[i] == r[i + 1 - |p|] && path[i + 1] == r[i + 2 - |p|];
      }
    }
    assert path[|path| - 1] == c;
  }

  /** Some members of `q` other than `s`. */
  ghost predicate Others(xs: seq<nat>, q: set<nat>, n: nat, s: nat) {
    Distinct(xs) && forall j | 0 <= j < |xs| :: xs[j] in q && xs[j] < n && xs[j] != s
  }

  // ------------------------------------------------------------------ learning

  ghost predicate DecidedAt(c: Slot, s: nat) {
    s < |c.insts| && c.insts[s].status == Decided
  }

  /** An announced value reaches everyone. Who has decided keeps its value. */
  lemma {:induction false} AllLearn(q: set<nat>, nilOk: bool, c: Slot, value: Payload, xs: seq<nat>, i: nat) returns (c': Slot)
    requires DecideReq(value) in c.net && i <= |xs| && forall j | 0 <= j < |xs| :: xs[j] in q && xs[j] < |c.insts|
    ensures Leads(q, nilOk, c, c') && DecideReq(value) in c'.net
    ensures forall j | 0 <= j < i :: DecidedAt(c', xs[j])
    ensures forall s | 0 <= s < |c.insts| :: c'.insts[s] == c.insts[s] || c'.insts[s] == Decide(c.insts[s], value)
  {
    if i == 0 {
      LeadsSelf(q, nilOk, c);
      c' := c;
    } else {
      var mid := AllLearn(q, nilOk, c, value, xs, i - 1);
      var s := xs[i - 1];
      c' := Put(mid, s, Decide(mid.insts[s], value), mid.rounds, {}, mid.hist);
      LeadsBy(q, nilOk, mid, c', Learn(s, value));
      LeadsOn(q, nilOk, c, mid, c');
      forall j | 0 <= j < i ensures DecidedAt(c', xs[j]) { if j < i - 1 { assert DecidedAt(mid, xs[j]); } }
    }
  }

  // -------------------------------------------------------------------- rounds

  /** Nothing was lost, and instances in `u` apart nothing has changed in memory. */
  ghost predicate Within(c: Slot, c': Slot, u: set<nat>) {
    && |c'.insts| == |c.insts| && c.net <= c'.net && c'.hist.starts == c.hist.starts
    && forall s | 0 <= s < |c.insts| && s !in u :: c'.insts[s] == c.insts[s]
  }

  lemma Begins(q: set<nat>, nilOk: bool, c: Slot, p: nat, v: Payload) returns (c': Slot)
    requires p in q && p < |c.insts| && c.insts[p].status != Decided && v in c.hist.starts
    ensures Leads(q, nilOk, c, c') && Within(c, c', {p}) && c'.insts[p] == BeginRound(c.insts[p])
    ensures var i, b := c.insts[p], c.insts[p].prepare + 1;
      (p, b) in c'.rounds && c'.rounds[(p, b)] == Round(v, i.accept, i.value, Preparing) && PrepareReq(p, b) in c'.net
  {
    var i, b := c.insts[p], c.insts[p].prepare + 1;
    c' := Put(c, p, BeginRound(i), c.rounds[(p, b) := Round(v, i.accept, i.value, Preparing)], {PrepareReq(p, b)},
              c.hist.(grants := c.hist.grants + {Grant(p, b, p, i.accept, i.value)}));
    LeadsBy(q, nilOk, c, c', Begin(p, v));
  }

  lemma Promises(q: set<nat>, nilOk: bool, c: Slot, s: nat, src: nat, b: nat) returns (c': Slot)
    requires s in q && s < |c.insts| && s != src && PrepareReq(src, b) in c.net
    ensures Leads(q, nilOk, c, c') && Within(c, c', {s}) && c'.rounds == c.rounds
    ensures var (i, reply) := Prepare(c.insts[s], b); c'.insts[s] == i && PrepareRep(s, src, b, reply) in c'.net
  {
    var i := c.insts[s];
    var (i', reply) := Prepare(i, b);
    c' := Put(c, s, i', c.rounds, {PrepareRep(s, src, b, reply)},
              if reply.code == Ok then c.hist.(grants := c.hist.grants + {Grant(s, b, src, i.accept, i.value)}) else c.hist);
    LeadsBy(q, nilOk, c, c', Promise(s, src, b));
  }

  /** A proposer that is behind another member learns the ballot to beat in one refused round. */
  lemma OneRefusal(q: set<nat>, nilOk: bool, c: Slot, p: nat, u: nat, v: Payload) returns (c': Slot)
    requires p in q && u in q && p < |c.insts| && u < |c.insts| && p != u && v in c.hist.starts
    requires c.insts[p].status != Decided && c.insts[u].status != Decided && c.insts[u].prepare > c.insts[p].prepare
    ensures Leads(q, nilOk, c, c') && Within(c, c', {p}) && c'.insts[p] == c.insts[p].(prepare := c.insts[u].prepare)
  {
    var b := c.insts[p].prepare + 1;
    var c1 := Begins(q, nilOk, c, p, v);
    var c2 := Promises(q, nilOk, c1, u, p, b);
    var reply := PrepareReply(LowPrepare, c.insts[u].prepare, Nil);
    var r := c2.rounds[(p, b)];
    assert TallyPrepare([reply], |c.insts|, 0, 1, r.accept, r.value) == Refused(reply.acPr);
    c' := Put(c2, p, Raise(c2.insts[p], reply.acPr), c2.rounds[(p, b) := r.(phase := Over)], {}, c2.hist);
    LeadsBy(q, nilOk, c2, c', EndPrepare(p, b, [u], [reply]));
    LeadsOn(q, nilOk, c, c1, c2);
    LeadsOn(q, nilOk, c, c2, c');
  }

  lemma {:induction false} Highest(c: Slot, xs: seq<nat>, i: nat) returns (k: nat)
    requires 0 < i <= |xs| && forall j | 0 <= j < |xs| :: xs[j] < |c.insts|
    ensures k < i && forall j | 0 <= j < i :: c.insts[xs[j]].prepare <= c.insts[xs[k]].prepare
  {
    if i == 1 {
      k := 0;
    } else {
      k := Highest(c, xs, i - 1);
      if c.insts[xs[i - 1]].prepare > c.insts[xs[k]].prepare { k := i - 1; }
    }
  }

  /** `s` has promised `b` to `src` and said what it had accepted. */
  ghost predicate Granted(c: Slot, c': Slot, src: nat, b: nat, s: nat) {
    && s < |c.insts| == |c'.insts| && c'.insts[s] == c.insts[s].(prepare := b)
    && PrepareRep(s, src, b, PrepareReply(Ok, c.insts[s].accept, c.insts[s].value)) in c'.net
  }

  ghost predicate CanPromise(c: Slot, b: nat, s: nat) {
    s < |c.insts| && c.insts[s].status != Decided && c.insts[s].prepare < b
  }

  lemma {:induction false} AllPromise(q: set<nat>, nilOk: bool, c: Slot, src: nat, b: nat, xs: seq<nat>, i: nat) returns (c': Slot)
    requires Others(xs, q, |c.insts|, src) && i <= |xs| && PrepareReq(src, b) in c.net
    requires forall j | 0 <= j < |xs| :: CanPromise(c, b, xs[j])
    ensures Leads(q, nilOk, c, c') && Within(c, c', set j | 0 <= j < i :: xs[j]) && c'.rounds == c.rounds
    ensures forall j | 0 <= j < i :: Granted(c, c', src, b, xs[j])
  {
    if i == 0 {
      LeadsSelf(q, nilOk, c);
      c' := c;
    } else {
      var s := xs[i - 1];
      var mid := AllPromise(q, nilOk, c, src, b, xs, i - 1);
      assert CanPromise(c, b, s) && mid.insts[s] == c.insts[s];
      c' := Promises(q, nilOk, mid, s, src, b);
      LeadsOn(q, nilOk, c, mid, c');
      forall j | 0 <= j < i ensures Granted(c, c', src, b, xs[j]) {
        if j < i - 1 { assert Granted(c, mid, src, b, xs[j]) && xs[j] != s; }
      }
    }
  }

  ghost predicate AllOk(replies: seq<PrepareReply>) {
    forall j | 0 <= j < |replies| :: replies[j].code == Ok
  }

  /** A majority of promises in a row ends the prepare loop, with the proposer's own proposal if
      nobody had accepted a later one. */
  lemma {:induction false} OksPromise(replies: seq<PrepareReply>, n: nat, i: nat, accept: nat, value: Payload)
    requires AllOk(replies) && 2 * (i + 1) <= n < 2 * (i + 1 + |replies|)
    ensures var o := TallyPrepare(replies, n, i, i + 1, accept, value);
      && o.Promised?
      && ((forall j | 0 <= j < |replies| :: replies[j].acPr <= accept) ==> o == Promised(accept, value))
    decreases |replies|
  {
    var r, rest := replies[0], replies[1..];
    assert forall j | 0 <= j < |rest| :: rest[j] == replies[j + 1];
    if 2 * (i + 2) <= n {
      var better := r.acPr > accept;
      OksPromise(rest, n, i + 1, if better then r.acPr else accept, if better then r.value else value);
    }
  }

  ghost function RepliesOf(c: Slot, xs: seq<nat>): (rs: seq<PrepareReply>)
    requires forall j | 0 <= j < |xs| :: xs[j] < |c.insts|
    ensures |rs| == |xs| && forall j | 0 <= j < |xs| :: rs[j] == PrepareReply(Ok, c.insts[xs[j]].accept, c.insts[xs[j]].value)
  {
    seq(|xs|, j requires 0 <= j < |xs| => PrepareReply(Ok, c.insts[xs[j]].accept, c.insts[xs[j]].value))
  }

  /** Nobody among `p` and `xs` has accepted anything. */
  ghost predicate Untouched(c: Slot, p: nat, xs: seq<nat>) {
    && p < |c.insts| && c.insts[p].accept == 0 && c.insts[p].value == Nil
    && forall j | 0 <= j < |xs| :: xs[j] < |c.insts| && c.insts[xs[j]].accept == 0
  }

  /** With the promises of a majority in hand the proposer enters its accept phase. */
  lemma Enters(q: set<nat>, nilOk: bool, c: Slot, c0: Slot, p: nat, b: nat, v: Payload, xs: seq<nat>) returns (c': Slot, value: Payload)
    requires p in q && p < |c.insts| && |c.insts| >= 2 && Others(xs, q, |c.insts|, p) && 2 * (1 + |xs|) > |c.insts| && v != Nil
    requires |c0.insts| == |c.insts| && forall j | 0 <= j < |xs| :: Granted(c0, c, p, b, xs[j])
    requires (p, b) in c.rounds && c.rounds[(p, b)] == Round(v, c.insts[p].accept, c.insts[p].value, Preparing)
    requires c.insts[p].prepare == b && c.insts[p].status != Decided
    ensures Leads(q, nilOk, c, c') && Within(c, c', {p}) && value != Nil && AcceptReq(p, b, value) in c'.net
    ensures c'.insts[p].prepare == b && c'.insts[p].status == c.insts[p].status
    ensures (p, b) in c'.rounds && c'.rounds[(p, b)].phase == Accepting && c'.rounds[(p, b)].value == value
    ensures Untouched(c0, p, xs) && c.insts[p].accept == 0 && c.insts[p].value == Nil ==> value == v
  {
    var n, i, r := |c.insts|, c.insts[p], c.rounds[(p, b)];
    forall j | 0 <= j < |xs| ensures xs[j] < |c0.insts| { assert Granted(c0, c, p, b, xs[j]); }
    var replies := RepliesOf(c0, xs);
    OksPromise(replies, n, 0, r.accept, r.value);
    var best := TallyPrepare(replies, n, 0, 1, r.accept, r.value).value;
    value := if best == Nil then v else best;
    c' := Put(c, p, EnterAccept(i, b, value).0, c.rounds[(p, b) := r.(value := value, phase := Accepting)], {AcceptReq(p, b, value)},
              c.hist.(votes := c.hist.votes + {Vote(p, b, value)},
                      proposals := c.hist.proposals[b := Proposal(p, value, CountedUntil(p, b, n, r, xs, replies))]));
    forall j | 0 <= j < |xs| ensures HeardPromise(c.net, p, b, xs[j], replies[j]) { assert Granted(c0, c, p, b, xs[j]); }
    assert forall a | a in xs :: a < n && a != p;
    LeadsBy(q, nilOk, c, c', EndPrepare(p, b, xs, replies));
  }

  lemma Vouches(q: set<nat>, nilOk: bool, c: Slot, s: nat, src: nat, b: nat, value: Payload) returns (c': Slot)
    requires s in q && s < |c.insts| && s != src && AcceptReq(src, b, value) in c.net && c.insts[s].status != Decided && c.insts[s].prepare <= b
    ensures Leads(q, nilOk, c, c') && Within(c, c', {s}) && c'.rounds == c.rounds
    ensures c'.insts[s].status != Decided && AcceptRep(s, src, b, ACCEPT_OK) in c'.net
  {
    c' := Put(c, s, Accept(c.insts[s], b, value).0, c.rounds, {AcceptRep(s, src, b, ACCEPT_OK)},
              c.hist.(votes := c.hist.votes + {Vote(s, b, value)}));
    LeadsBy(q, nilOk, c, c', Vouch(s, src, b, value));
  }

  ghost predicate CanAccept(c: Slot, b: nat, s: nat) {
    s < |c.insts| && c.insts[s].status != Decided && c.insts[s].prepare <= b
  }

  lemma {:induction false} AllVouch(q: set<nat>, nilOk: bool, c: Slot, src: nat, b: nat, value: Payload, xs: seq<nat>, i: nat) returns (c': Slot)
    requires Others(xs, q, |c.insts|, src) && i <= |xs| && AcceptReq(src, b, value) in c.net
    requires forall j | 0 <= j < |xs| :: CanAccept(c, b, xs[j])
    ensures Leads(q, nilOk, c, c') && Within(c, c', set j | 0 <= j < i :: xs[j]) && c'.rounds == c.rounds
    ensures forall j | 0 <= j < i :: AcceptRep(xs[j], src, b, ACCEPT_OK) in c'.net && c'.insts[xs[j]].status != Decided
  {
    if i == 0 {
      LeadsSelf(q, nilOk, c);
      c' := c;
    } else {
      var s := xs[i - 1];
      var mid := AllVouch(q, nilOk, c, src, b, value, xs, i - 1);
      assert CanAccept(c, b, s) && mid.insts[s] == c.insts[s];
      c' := Vouches(q, nilOk, mid, s, src, b, value);
      LeadsOn(q, nilOk, c, mid, c');
    }
  }

  lemma {:induction false} OksChoose(answers: seq<int>, n: nat, i: nat, high: int)
    requires (forall j | 0 <= j < |answers| :: answers[j] == ACCEPT_OK) && 2 * (i + 1) <= n < 2 * (i + 1 + |answers|)
    ensures TallyAccept(answers, n, i, i + 1, high) == Chosen
    decreases |answers|
  {
    if 2 * (i + 2) <= n { OksChoose(answers[1..], n, i + 1, high); }
  }

  /** With the accepts of a majority in hand the proposer announces its value. */
  lemma Announces(q: set<nat>, nilOk: bool, c: Slot, p: nat, b: nat, xs: seq<nat>) returns (c': Slot)
    requires p in q && p < |c.insts| && |c.insts| >= 2 && Others(xs, q, |c.insts|, p) && 2 * (1 + |xs|) > |c.insts|
    requires (p, b) in c.rounds && c.rounds[(p, b)].phase == Accepting
    requires forall j | 0 <= j < |xs| :: AcceptRep(xs[j], p, b, ACCEPT_OK) in c.net
    ensures Leads(q, nilOk, c, c') && Within(c, c', {}) && DecideReq(c.rounds[(p, b)].value) in c'.net
  {
    var r, answers := c.rounds[(p, b)], seq(|xs|, _ => ACCEPT_OK);
    OksChoose(answers, |c.insts|, 0, b);
    c' := Put(c, p, c.insts[p], c.rounds[(p, b) := r.(phase := Over)], {DecideReq(r.value)}, c.hist);
    assert forall a | a in xs :: a < |c.insts| && a != p;
    LeadsBy(q, nilOk, c, c', EndAccept(p, b, xs, answers));
  }

  /** The proposer `p` and the others `xs`, all of `q`, are undecided and `p` is behind nobody. */
  ghost predicate Foremost(c: Slot, q: set<nat>, p: nat, xs: seq<nat>) {
    && p in q && p < |c.insts| && |c.insts| >= 2 && Others(xs, q, |c.insts|, p) && 2 * (1 + |xs|) > |c.insts|
    && c.insts[p].status != Decided
    && forall j | 0 <= j < |xs| :: CanAccept(c, c.insts[p].prepare, xs[j])
  }

  /** A prepare phase that all answer. */
  lemma Prepares(q: set<nat>, nilOk: bool, c: Slot, p: nat, v: Payload, xs: seq<nat>) returns (c': Slot, value: Payload, b: nat)
    requires Foremost(c, q, p, xs) && v != Nil && v in c.hist.starts
    ensures Leads(q, nilOk, c, c') && Foremost(c', q, p, xs) && value != Nil && AcceptReq(p, b, value) in c'.net && c'.insts[p].prepare == b
    ensures (p, b) in c'.rounds && c'.rounds[(p, b)].phase == Accepting && c'.rounds[(p, b)].value == value
    ensures Untouched(c, p, xs) ==> value == v
  {
    b := c.insts[p].prepare + 1;
    var c1 := Begins(q, nilOk, c, p, v);
    forall j | 0 <= j < |xs| ensures CanPromise(c1, b, xs[j]) { assert CanAccept(c, c.insts[p].prepare, xs[j]); }
    var c2 := AllPromise(q, nilOk, c1, p, b, xs, |xs|);
    c', value := Enters(q, nilOk, c2, c1, p, b, v, xs);
    LeadsOn(q, nilOk, c, c1, c2);
    LeadsOn(q, nilOk, c, c2, c');
    forall j | 0 <= j < |xs| ensures CanAccept(c', b, xs[j]) { assert Granted(c1, c2, p, b, xs[j]) && CanPromise(c1, b, xs[j]); }
  }

  /** A whole round that all answer ends with an announcement. */
  lemma Succeeds(q: set<nat>, nilOk: bool, c: Slot, p: nat, v: Payload, xs: seq<nat>) returns (c': Slot, value: Payload)
    requires Foremost(c, q, p, xs) && v != Nil && v in c.hist.starts
    ensures Leads(q, nilOk, c, c') && DecideReq(value) in c'.net && value != Nil && c'.insts[p].status != Decided
    ensures forall j | 0 <= j < |xs| :: c'.insts[xs[j]].status != Decided
    ensures Untouched(c, p, xs) ==> value == v
  {
    var c1, w, b := Prepares(q, nilOk, c, p, v, xs);
    value := w;
    var c2 := AllVouch(q, nilOk, c1, p, b, value, xs, |xs|);
    c' := Announces(q, nilOk, c2, p, b, xs);
    LeadsOn(q, nilOk, c, c1, c2);
    LeadsOn(q, nilOk, c, c2, c');
  }

  /** At most one refused round brings a proposer to the front. */
  lemma ComesForward(q: set<nat>, nilOk: bool, c: Slot, p: nat, v: Payload, xs: seq<nat>) returns (c': Slot)
    requires p in q && p < |c.insts| && |c.insts| >= 2 && Others(xs, q, |c.insts|, p) && 2 * (1 + |xs|) > |c.insts| && v in c.hist.starts
    requires c.insts[p].status != Decided && forall j | 0 <= j < |xs| :: c.insts[xs[j]].status != Decided
    ensures Leads(q, nilOk, c, c') && Foremost(c', q, p, xs) && v in c'.hist.starts && (Untouched(c, p, xs) ==> Untouched(c', p, xs))
  {
    var k := Highest(c, xs, |xs|);
    var u := xs[k];
    if c.insts[u].prepare <= c.insts[p].prepare {
      LeadsSelf(q, nilOk, c);
      c' := c;
    } else {
      c' := OneRefusal(q, nilOk, c, p, u, v);
    }
  }

  // --------------------------------------------------------------- the theorem

  lemma Submits(q: set<nat>, nilOk: bool, c: Slot, v: Payload, s: nat) returns (c': Slot)
    requires s in q && s < |c.insts|
    ensures Leads(q, nilOk, c, c') && c'.insts == c.insts && v in c'.hist.starts
  {
    c' := c.(hist := c.hist.(starts := c.hist.starts + {v}));
    LeadsBy(q, nilOk, c, c', Submit(s, v));
  }

  /** Whoever asks a member that has decided learns what it has, and decides that. */
  lemma AsksDecided(q: set<nat>, nilOk: bool, c: Slot, p: nat, u: nat, v: Payload) returns (c': Slot)
    requires p in q && u in q && p < |c.insts| && u < |c.insts| && c.insts[p].status != Decided && c.insts[u].status == Decided && v in c.hist.starts
    ensures Leads(q, nilOk, c, c') && Within(c, c', {p}) && DecidedAt(c', p)
  {
    var b := c.insts[p].prepare + 1;
    var c1 := Begins(q, nilOk, c, p, v);
    var c2 := Promises(q, nilOk, c1, u, p, b);
    var reply := PrepareReply(HasDecided, 0, c.insts[u].value);
    var r := c2.rounds[(p, b)];
    assert TallyPrepare([reply], |c.insts|, 0, 1, r.accept, r.value) == AlreadyDecided(reply.value);
    var c3 := Put(c2, p, c2.insts[p], c2.rounds[(p, b) := r.(phase := Over)], {DecideReq(reply.value)}, c2.hist);
    LeadsBy(q, nilOk, c2, c3, EndPrepare(p, b, [u], [reply]));
    c' := Put(c3, p, Decide(c3.insts[p], reply.value), c3.rounds, {}, c3.hist);
    LeadsBy(q, nilOk, c3, c', Learn(p, reply.value));
    LeadsOn(q, nilOk, c, c1, c2);
    LeadsOn(q, nilOk, c, c2, c3);
    LeadsOn(q, nilOk, c, c3, c');
  }

  /** So each of the first `i` members can ask the one that has decided. */
  lemma {:induction false} AllAsk(q: set<nat>, nilOk: bool, c: Slot, u: nat, v: Payload, xs: seq<nat>, i: nat) returns (c': Slot)
    requires u in q && u < |c.insts| && c.insts[u].status == Decided && v in c.hist.starts
    requires i <= |xs| && forall j | 0 <= j < |xs| :: xs[j] in q && xs[j] < |c.insts|
    ensures Leads(q, nilOk, c, c') && c'.insts[u].status == Decided && v in c'.hist.starts
    ensures forall j | 0 <= j < i :: DecidedAt(c', xs[j])
  {
    if i == 0 {
      LeadsSelf(q, nilOk, c);
      c' := c;
    } else {
      var mid := AllAsk(q, nilOk, c, u, v, xs, i - 1);
      if mid.insts[xs[i - 1]].status == Decided {
        c' := mid;
      } else {
        c' := AsksDecided(q, nilOk, mid, xs[i - 1], u, v);
        LeadsOn(q, nilOk, c, mid, c');
        forall j | 0 <= j < i ensures DecidedAt(c', xs[j]) { if j < i - 1 { assert DecidedAt(mid, xs[j]); } }
      }
    }
  }

  /** A member in `q` of a slot is undecided and has accepted nothing. */
  ghost predicate Blank(c: Slot, s: nat) {
    s < |c.insts| && c.insts[s].status != Decided && c.insts[s].accept == 0 && c.insts[s].value == Nil
  }

  /** If nobody in the majority has decided, a round of any of its members ends with all of them
      decided, on the submitted value if none of them had accepted another. */
  lemma UndecidedDecide(q: set<nat>, nilOk: bool, c: Slot, p: nat, v: Payload) returns (c': Slot)
    requires |c.insts| >= 2 && IsQuorum(q, |c.insts|) && p in q && v != Nil && v in c.hist.starts
    requires forall s | s in q :: c.insts[s].status != Decided
    ensures Leads(q, nilOk, c, c') && forall s | s in q :: DecidedAt(c', s)
    ensures (forall s | s in q :: Blank(c, s)) ==> forall s | s in q :: c'.insts[s].value == v
  {
    var xs := Enumerate(q - {p});
    var ys := Enumerate(q);
    forall j | 0 <= j < |xs| ensures xs[j] in q && xs[j] < |c.insts| && xs[j] != p { assert xs[j] in xs; }
    forall j | 0 <= j < |ys| ensures ys[j] in q { assert ys[j] in ys; }
    var c1 := ComesForward(q, nilOk, c, p, v, xs);
    var c2, value := Succeeds(q, nilOk, c1, p, v, xs);
    c' := AllLearn(q, nilOk, c2, value, ys, |ys|);
    LeadsOn(q, nilOk, c, c1, c2);
    LeadsOn(q, nilOk, c, c2, c');
    if forall s | s in q :: Blank(c, s) {
      assert Blank(c, p) && forall j | 0 <= j < |xs| :: Blank(c, xs[j]);
      assert Untouched(c, p, xs);
    }
    forall s | s in q ensures DecidedAt(c', s) && c'.insts[s].value == value {
      assert s in ys && (s != p ==> s in xs);
      assert c2.insts[s].status != Decided;
    }
  }

  /** Any majority can bring all its members to a decision, from every state of a slot and with no
      help from the others; and if none of them has accepted or decided anything, that decision is
      the value just submitted. */
  lemma MajorityDecides(q: set<nat>, nilOk: bool, c: Slot, v: Payload) returns (c': Slot)
    requires |c.insts| >= 2 && IsQuorum(q, |c.insts|) && v != Nil
    ensures Leads(q, nilOk, c, c') && forall s | s in q :: DecidedAt(c', s)
    ensures (forall s | s in q :: Blank(c, s)) ==> forall s | s in q :: c'.insts[s].value == v
  {
    if p :| p in q && c.insts[p].status != Decided {
      var c1 := Submits(q, nilOk, c, v, p);
      if u :| u in q && c.insts[u].status == Decided {
        assert !Blank(c, u);
        var ys := Enumerate(q);
        forall j | 0 <= j < |ys| ensures ys[j] in q { assert ys[j] in ys; }
        c' := AllAsk(q, nilOk, c1, u, v, ys, |ys|);
        LeadsOn(q, nilOk, c, c1, c');
        forall s | s in q ensures DecidedAt(c', s) { assert s in ys; }
      } else {
        c' := UndecidedDecide(q, nilOk, c1, p, v);
        LeadsOn(q, nilOk, c, c1, c');
        assert (forall s | s in q :: Blank(c, s)) ==> forall s | s in q :: Blank(c1, s);
      }
    } else {
      LeadsSelf(q, nilOk, c);
      c' := c;
      var s :| s in q;
      assert !Blank(c, s);
    }
  }
}
