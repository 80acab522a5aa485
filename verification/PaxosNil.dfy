/** Where nil breaks agreement. A nil that a majority accepted reads as "nothing accepted"
    to the next proposer, and deciding nil does not overwrite what a server holds. So
    agreement reaches exactly as far as no majority has chosen nil. */
module PaxosNil {
  import opened Session
  import opened Quorums
  import opened PaxosInstance
  import opened PaxosSlot
  import opened PaxosSafety
  import PaxosAvailability

  ghost predicate Reachable(c: Slot, n: nat) {
    exists run :: Run(run, n, true) && run[|run| - 1] == c
  }

  lemma Extend(c: Slot, c': Slot, n: nat, step: Step)
    requires Reachable(c, n) && StepOk(c, c', step, true)
    ensures Reachable(c', n)
  {
    var run :| Run(run, n, true) && run[|run| - 1] == c;
    var longer := run + [c'];
    forall i: nat ensures Linked(longer, i, true) {
      if i + 1 < |run| { assert Linked(run, i, true); } else if i + 1 == |run| { assert StepOk(longer[i], longer[i + 1], step, true); }
    }
    assert Run(longer, n, true);
  }

  /** All servers but one. */
  ghost function Others(n: nat, src: nat): (s: seq<nat>)
    ensures forall j | 0 <= j < |s| :: s[j] < n && s[j] != src
    ensures Distinct(s) && |s| == if src < n then n - 1 else n
  {
    if n == 0 then [] else if n - 1 == src then Others(n - 1, src) else Others(n - 1, src) + [n - 1]
  }

  ghost predicate OthersAre(c: Slot, src: nat, i: Inst) {
    forall a | 0 <= a < |c.insts| && a != src :: c.insts[a] == i
  }

  /** Everyone else answers the prepare of `src` at `b`. */
  lemma {:induction false} PromiseAll(c: Slot, n: nat, src: nat, b: nat, i: Inst, k: nat) returns (c': Slot)
    requires Reachable(c, n) && |c.insts| == n && src < n && k <= n
    requires OthersAre(c, src, i) && i.status == Pending && i.prepare < b && PrepareReq(src, b) in c.net
    ensures Reachable(c', n) && |c'.insts| == n && c'.insts[src] == c.insts[src] && c'.rounds == c.rounds
    ensures c.net <= c'.net && c'.hist.starts == c.hist.starts
    ensures forall a | 0 <= a < n && a != src :: c'.insts[a] == if a < k then i.(prepare := b) else i
    ensures forall a: nat | a < k && a != src :: PrepareRep(a, src, b, PrepareReply(Ok, i.accept, i.value)) in c'.net
  {
    if k == 0 {
      c' := c;
    } else {
      var m := PromiseAll(c, n, src, b, i, k - 1);
      var s: nat := k - 1;
      if s == src {
        c' := m;
      } else {
        var (i', reply) := Prepare(m.insts[s], b);
        c' := Put(m, s, i', m.rounds, {PrepareRep(s, src, b, reply)},
                  m.hist.(grants := m.hist.grants + {Grant(s, b, src, i.accept, i.value)}));
        assert PromiseStep(m, c', s, src, b);
        Extend(m, c', n, Promise(s, src, b));
      }
    }
  }

  /** Everyone else accepts what `src` proposes at `b`. */
  lemma {:induction false} VouchAll(c: Slot, n: nat, src: nat, b: nat, value: Payload, i: Inst, k: nat) returns (c': Slot)
    requires Reachable(c, n) && |c.insts| == n && src < n && k <= n
    requires OthersAre(c, src, i) && i.status == Pending && i.prepare <= b && AcceptReq(src, b, value) in c.net
    ensures Reachable(c', n) && |c'.insts| == n && c'.insts[src] == c.insts[src] && c'.rounds == c.rounds
    ensures c.net <= c'.net && c'.hist.starts == c.hist.starts
    ensures forall a | 0 <= a < n && a != src :: c'.insts[a] == if a < k then Inst(b, b, value, Pending) else i
    ensures forall a: nat | a < k && a != src :: AcceptRep(a, src, b, ACCEPT_OK) in c'.net
  {
    if k == 0 {
      c' := c;
    } else {
      var m := VouchAll(c, n, src, b, value, i, k - 1);
      var s: nat := k - 1;
      if s == src {
        c' := m;
      } else {
        var (i', answer) := Accept(m.insts[s], b, value);
        c' := Put(m, s, i', m.rounds, {AcceptRep(s, src, b, answer)}, m.hist.(votes := m.hist.votes + {Vote(s, b, value)}));
        assert VouchStep(m, c', s, src, b, value);
        Extend(m, c', n, Vouch(s, src, b, value));
      }
    }
  }

  /** A round in which everyone answers enters its accept phase with the value it carries,
      or with the proposer's own where that is nil. */
  lemma EnterRound(c: Slot, n: nat, src: nat, b: nat, v: Payload) returns (c': Slot)
    requires Reachable(c, n) && n >= 2 && |c.insts| == n && src < n && (src, b) in c.rounds
    requires c.rounds[(src, b)] == Round(v, c.insts[src].accept, Nil, Preparing)
    requires c.insts[src].prepare == b && c.insts[src].status == Pending
    requires forall a: nat | a < n && a != src :: PrepareRep(a, src, b, PrepareReply(Ok, c.insts[src].accept, Nil)) in c.net
    ensures Reachable(c', n) && |c'.insts| == n && c.net <= c'.net && AcceptReq(src, b, v) in c'.net
    ensures c'.insts[src] == Inst(b, b, v, Pending) && forall a | 0 <= a < n && a != src :: c'.insts[a] == c.insts[a]
    ensures c'.rounds == c.rounds[(src, b) := Round(v, c.insts[src].accept, v, Accepting)]
    ensures c'.hist.starts == c.hist.starts
  {
    var accept := c.insts[src].accept;
    var from := Others(n, src);
    var replies := seq(n - 1, _ => PrepareReply(Ok, accept, Nil));
    var r := c.rounds[(src, b)];
    PaxosAvailability.OksPromise(replies, n, 0, accept, Nil);
    assert TallyPrepare(replies, n, 0, 1, r.accept, r.value) == Promised(accept, Nil);
    forall j | 0 <= j < |from| ensures HeardPromise(c.net, src, b, from[j], replies[j]) { assert from[j] in from; }
    c' := Put(c, src, EnterAccept(c.insts[src], b, v).0, c.rounds[(src, b) := r.(value := v, phase := Accepting)],
              {AcceptReq(src, b, v)},
              c.hist.(votes := c.hist.votes + {Vote(src, b, v)},
                      proposals := c.hist.proposals[b := Proposal(src, v, CountedUntil(src, b, n, r, from, replies))]));
    assert EndPrepareStep(c, c', src, b, from, replies, true);
    Extend(c, c', n, EndPrepare(src, b, from, replies));
  }

  lemma BeginAt(c: Slot, n: nat, src: nat, v: Payload) returns (c': Slot)
    requires Reachable(c, n) && |c.insts| == n && src < n && c.insts[src].status == Pending && (v == Nil || v in c.hist.starts)
    ensures Reachable(c', n) && |c'.insts| == n && c.net <= c'.net && c'.hist.starts == c.hist.starts
    ensures var b := c.insts[src].prepare + 1;
      && PrepareReq(src, b) in c'.net && c'.insts == c.insts[src := BeginRound(c.insts[src])]
      && c'.rounds == c.rounds[(src, b) := Round(v, c.insts[src].accept, c.insts[src].value, Preparing)]
  {
    var i := c.insts[src];
    var b := i.prepare + 1;
    c' := Put(c, src, BeginRound(i), c.rounds[(src, b) := Round(v, i.accept, i.value, Preparing)], {PrepareReq(src, b)},
              c.hist.(grants := c.hist.grants + {Grant(src, b, src, i.accept, i.value)}));
    assert BeginStep(c, c', src, v);
    Extend(c, c', n, Begin(src, v));
  }

  /** Server 1 gets nil accepted everywhere at ballot 1. */
  lemma NilAccepted(n: nat) returns (c: Slot)
    requires n >= 2
    ensures Reachable(c, n) && |c.insts| == n && OthersAre(c, n, Inst(1, 1, Nil, Pending))
    ensures (1, 1) in c.rounds && c.rounds[(1, 1)] == Round(Nil, 0, Nil, Accepting)
    ensures forall a: nat | a < n && a != 1 :: AcceptRep(a, 1, 1, ACCEPT_OK) in c.net
  {
    var c0 := Slot(seq(n, _ => BLANK), map[], {}, Hist({}, {}, {}, map[]));
    assert Run([c0], n, true);
    assert [c0][|[c0]| - 1] == c0;
    var c1 := BeginAt(c0, n, 1, Nil);
    var c2 := PromiseAll(c1, n, 1, 1, BLANK, n);
    var c3 := EnterRound(c2, n, 1, 1, Nil);
    c := VouchAll(c3, n, 1, 1, Nil, Inst(1, 0, Nil, Pending), n);
  }

  /** Server 0, which saw only "nothing accepted", accepts its own value at ballot 2. */
  lemma OwnAccepted(n: nat, x: Payload) returns (c: Slot)
    requires n >= 2
    ensures Reachable(c, n) && |c.insts| == n && c.insts[0] == Inst(2, 2, x, Pending) && c.insts[1] == Inst(2, 1, Nil, Pending)
    ensures (1, 1) in c.rounds && c.rounds[(1, 1)] == Round(Nil, 0, Nil, Accepting)
    ensures forall a: nat | a < n && a != 1 :: AcceptRep(a, 1, 1, ACCEPT_OK) in c.net
  {
    var c0 := NilAccepted(n);
    var c1 := c0.(hist := c0.hist.(starts := c0.hist.starts + {x}));
    assert SubmitStep(c0, c1, x);
    Extend(c0, c1, n, Submit(0, x));
    var c2 := BeginAt(c1, n, 0, x);
    var c3 := PromiseAll(c2, n, 0, 2, Inst(1, 1, Nil, Pending), n);
    c := EnterRound(c3, n, 0, 2, x);
  }

  lemma LearnAt(c: Slot, n: nat, s: nat, value: Payload) returns (c': Slot)
    requires Reachable(c, n) && |c.insts| == n && s < n && DecideReq(value) in c.net
    ensures Reachable(c', n) && c'.net == c.net && c'.insts == c.insts[s := PaxosInstance.Decide(c.insts[s], value)]
  {
    c' := Put(c, s, PaxosInstance.Decide(c.insts[s], value), c.rounds, {}, c.hist);
    assert LearnStep(c, c', s, value);
    Extend(c, c', n, Learn(s, value));
  }

  /** Server 1 announces the nil that a majority accepted. */
  lemma NilAnnounced(n: nat, x: Payload) returns (c: Slot)
    requires n >= 2
    ensures Reachable(c, n) && |c.insts| == n && DecideReq(Nil) in c.net
    ensures c.insts[0] == Inst(2, 2, x, Pending) && c.insts[1] == Inst(2, 1, Nil, Pending)
  {
    var c0 := OwnAccepted(n, x);
    var from, answers := Others(n, 1), seq(n - 1, _ => ACCEPT_OK);
    PaxosAvailability.OksChoose(answers, n, 0, 1);
    forall j | 0 <= j < |from| ensures HeardVote(c0.net, 1, 1, from[j], answers[j]) { assert from[j] in from; }
    c := Put(c0, 1, c0.insts[1], c0.rounds[(1, 1) := c0.rounds[(1, 1)].(phase := Over)], {DecideReq(Nil)}, c0.hist);
    assert EndAcceptStep(c0, c, 1, 1, from, answers);
    Extend(c0, c, n, EndAccept(1, 1, from, answers));
  }

  lemma ReachedNil(c: Slot, n: nat)
    requires Reachable(c, n) && !Agreed(c)
    ensures NilChosen(c.hist, n)
  {
    var run :| Run(run, n, true) && run[|run| - 1] == c;
    DisagreementMeansNil(run, n, true, |run| - 1);
  }

  /** A run in which nil is chosen and two servers decide differently, for any cluster size. */
  lemma NilDisagreement(n: nat) returns (c: Slot)
    requires n >= 2
    ensures Reachable(c, n) && |c.insts| == n && !Agreed(c) && NilChosen(c.hist, n)
    ensures c.insts[0].status == Decided && c.insts[0].value == Foreign(0)
    ensures c.insts[1].status == Decided && c.insts[1].value == Nil
  {
    var c0 := NilAnnounced(n, Foreign(0));
    var c1 := LearnAt(c0, n, 1, Nil);
    c := LearnAt(c1, n, 0, Nil);
    assert c.insts[0].value != c.insts[1].value;
    ReachedNil(c, n);
  }

  /** In some state of a run nil has been chosen and two servers have decided differently. */
  ghost predicate NilBreaks(run: seq<Slot>, n: nat, i: nat) {
    Run(run, n, true) && i < |run| && NilChosen(run[i].hist, n) && !Agreed(run[i])
  }

  /** The bound is tight. In every run, nil rounds and all, the servers agree up to the point where
      a majority has chosen nil, and in every cluster of two or more servers there is a run in
      which they no longer do. */
  lemma AgreeUntilNilChosen(n: nat)
    requires n >= 2
    ensures forall run: seq<Slot>, i: nat | Run(run, n, true) && i < |run| && !Agreed(run[i]) :: NilBreaks(run, n, i)
    ensures exists run: seq<Slot>, i: nat :: NilBreaks(run, n, i)
  {
    forall run: seq<Slot>, i: nat | Run(run, n, true) && i < |run| && !Agreed(run[i]) ensures NilBreaks(run, n, i) {
      DisagreementMeansNil(run, n, true, i);
    }
    var c := NilDisagreement(n);
    var run :| Run(run, n, true) && run[|run| - 1] == c;
    assert NilBreaks(run, n, |run| - 1);
  }
}
