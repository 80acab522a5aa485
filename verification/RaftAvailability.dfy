/** Raft does get things done: from every reachable state, any majority can, with nobody else
    taking a step, elect a leader, replicate a new command and deliver it. Nothing has to be
    restarted for it. Safety alone would also hold of a cluster that does nothing. */
module RaftAvailability {
  import opened Session
  import opened Quorums
  import opened RaftPeer
  import opened RaftHistory
  import opened RaftAnswers
  import opened RaftCommitPoint
  import opened RaftReachable
  import C = RaftCluster
  import K = RaftSnapshots

  ghost predicate Went(q: set<nat>, k: K.System, k': K.System) {
    Leads(q, k, k') && Reachable(k') && |k'.hosts| == |k.hosts|
  }

  /** Only hosts in `u` have changed, and nothing was lost. */
  ghost predicate Within(k: K.System, k': K.System, u: set<nat>) {
    && |k'.hosts| == |k.hosts| && k.net <= k'.net && k.delivered <= k'.delivered
    && forall v | 0 <= v < |k.hosts| && v !in u :: k'.hosts[v] == k.hosts[v]
  }

  lemma WentBy(q: set<nat>, k: K.System, k': K.System, step: K.Step)
    requires Reachable(k) && K.StepOk(k, k', step) && step.s in q
    ensures Went(q, k, k')
  {
    LeadsBy(q, k, k', step);
  }

  lemma WentOn(q: set<nat>, a: K.System, b: K.System, c: K.System)
    requires Went(q, a, b) && Went(q, b, c)
    ensures Went(q, a, c)
  {
    LeadsOn(q, a, b, c);
  }

  lemma WentNowhere(q: set<nat>, k: K.System)
    requires Reachable(k)
    ensures Went(q, k, k)
  {
    LeadsSelf(q, k);
  }

  // ---------------------------------------------------------------- elections

  /** What a candidate asks with its present log. */
  ghost function Asks(s: nat, p: Peer): VoteArgs
    requires p.logs != []
  {
    VoteArgs(p.currentTerm, s, LastTerm(p.logs), End(p) - 1)
  }

  ghost predicate Standing(k: K.System, s: nat) {
    && s < |k.hosts| && k.hosts[s].peer.logs != [] && k.hosts[s].peer.role == Candidate
    && K.Plain(C.VoteReq(Asks(s, k.hosts[s].peer))) in k.net
  }

  ghost predicate SameLog(p: Peer, p': Peer) {
    p'.logs == p.logs && p'.startIndex == p.startIndex && |p'.nextIndex| == |p.nextIndex| && |p'.matchIndex| == |p.matchIndex|
  }

  lemma StandsOnce(q: set<nat>, k: K.System, s: nat) returns (k': K.System)
    requires Reachable(k) && s in q && s < |k.hosts| && k.hosts[s].peer.role != Leader
    ensures Went(q, k, k') && Within(k, k', {s}) && Standing(k', s)
    ensures SameLog(k.hosts[s].peer, k'.hosts[s].peer) && k'.hosts[s].peer.currentTerm == k.hosts[s].peer.currentTerm + 1
  {
    HostFacts(k, s);
    var h := k.hosts[s];
    var (p, args) := StandForElection(h.peer);
    k' := K.Put(k, s, h.(peer := p), {K.Plain(C.VoteReq(args))});
    WentBy(q, k, k', K.Stand(s));
  }

  /** Who does not lead can stand, again and again, until its term is past any other. */
  lemma {:induction false} StandsAbove(q: set<nat>, k: K.System, s: nat, t: nat) returns (k': K.System)
    requires Reachable(k) && s in q && s < |k.hosts| && k.hosts[s].peer.role != Leader
    ensures Went(q, k, k') && Within(k, k', {s}) && Standing(k', s) && k'.hosts[s].peer.currentTerm > t
    ensures SameLog(k.hosts[s].peer, k'.hosts[s].peer)
    decreases if k.hosts[s].peer.currentTerm <= t then t - k.hosts[s].peer.currentTerm + 1 else 0
  {
    var mid := StandsOnce(q, k, s);
    if mid.hosts[s].peer.currentTerm > t {
      k' := mid;
    } else {
      k' := StandsAbove(q, mid, s, t);
      WentOn(q, k, mid, k');
    }
  }

  /** `v` has answered the request as its peer was in `k`. */
  ghost predicate Answered(k: K.System, k': K.System, args: VoteArgs, v: nat) {
    && v < |k.hosts| == |k'.hosts| && k.hosts[v].peer.logs != []
    && var (p, reply) := RequestVote(k.hosts[v].peer, args);
       k'.hosts[v] == k.hosts[v].(peer := p) && K.Plain(C.VoteRep(args, v, reply)) in k'.net
  }

  lemma AnswersOne(q: set<nat>, k: K.System, args: VoteArgs, v: nat) returns (k': K.System)
    requires Reachable(k) && K.Plain(C.VoteReq(args)) in k.net && v in q && v < |k.hosts| && v != args.cand
    ensures Went(q, k, k') && Within(k, k', {v}) && Answered(k, k', args, v)
  {
    HostFacts(k, v);
    var (p, reply) := RequestVote(k.hosts[v].peer, args);
    k' := K.Put(k, v, k.hosts[v].(peer := p), {K.Plain(C.VoteRep(args, v, reply))});
    WentBy(q, k, k', K.Answer(v, args));
  }

  /** Some members of `q` other than `s`. */
  ghost predicate Others(xs: seq<nat>, q: set<nat>, s: nat) {
    Distinct(xs) && forall j | 0 <= j < |xs| :: xs[j] in q && xs[j] != s
  }

  lemma AnsweredMore(k: K.System, mid: K.System, k': K.System, args: VoteArgs, xs: seq<nat>, i: nat)
    requires Distinct(xs) && 0 < i <= |xs| && Within(mid, k', {xs[i - 1]}) && Answered(k, k', args, xs[i - 1])
    requires forall j | 0 <= j < i - 1 :: Answered(k, mid, args, xs[j])
    ensures forall j | 0 <= j < i :: Answered(k, k', args, xs[j])
  {
    forall j | 0 <= j < i - 1 ensures Answered(k, k', args, xs[j]) { assert Answered(k, mid, args, xs[j]) && xs[j] != xs[i - 1]; }
  }

  /** The first `i` in `xs` answer the request, and all others are left alone. */
  lemma {:induction false} AnswerAll(q: set<nat>, k: K.System, args: VoteArgs, xs: seq<nat>, i: nat) returns (k': K.System)
    requires Reachable(k) && K.Plain(C.VoteReq(args)) in k.net && Others(xs, q, args.cand) && i <= |xs|
    requires forall j | 0 <= j < |xs| :: xs[j] < |k.hosts|
    ensures Went(q, k, k') && Within(k, k', set j | 0 <= j < i :: xs[j])
    ensures forall j | 0 <= j < i :: Answered(k, k', args, xs[j])
  {
    if i == 0 {
      WentNowhere(q, k);
      k' := k;
    } else {
      var mid := AnswerAll(q, k, args, xs, i - 1);
      assert mid.hosts[xs[i - 1]] == k.hosts[xs[i - 1]];
      k' := AnswersOne(q, mid, args, xs[i - 1]);
      WentOn(q, k, mid, k');
      AnsweredMore(k, mid, k', args, xs, i);
    }
  }

  lemma {:induction false} TermBound(hosts: seq<K.Host>) returns (t: nat)
    ensures forall v | 0 <= v < |hosts| :: hosts[v].peer.currentTerm <= t
  {
    if hosts == [] {
      t := 0;
    } else {
      var last := |hosts| - 1;
      t := TermBound(hosts[..last]);
      assert forall v | 0 <= v < last :: hosts[..last][v] == hosts[v];
      t := if hosts[last].peer.currentTerm > t then hosts[last].peer.currentTerm else t;
    }
  }

  ghost predicate NoneLeads(k: K.System, q: set<nat>) {
    forall v | v in q :: v < |k.hosts| && k.hosts[v].peer.role != Leader
  }

  /** Of two leaders the one in the later term makes the other a follower with its next call. */
  lemma Overrules(q: set<nat>, k: K.System, a: nat, b: nat) returns (k': K.System)
    requires Reachable(k) && a in q && b in q && a != b && a < |k.hosts| && b < |k.hosts|
    requires k.hosts[b].peer.role == Leader && k.hosts[a].peer.currentTerm <= k.hosts[b].peer.currentTerm
    ensures Went(q, k, k') && k'.hosts[a].peer.role != Leader
  {
    HostFacts(k, a);
    HostFacts(k, b);
    NextInRange(k, b, a);
    var (p, out) := SendLog(k.hosts[b].peer, a);
    var mid := K.Put(k, b, k.hosts[b].(peer := p),
                     {match out case SendAppend(x) => K.Plain(C.AppendReq(b, a, x)) case SendSnapshot(x) => K.InstallReq(b, a, x)});
    WentBy(q, k, mid, K.Send(b, a));
    var f := mid.hosts[a];
    match out {
      case SendAppend(x) =>
        var (g, reply) := AppendEntries(f.peer, x);
        k' := K.Put(mid, a, f.(peer := g), {K.Plain(C.AppendRep(b, a, x, reply))});
        WentBy(q, mid, k', K.Receive(a, b, x));
        RequestsRaiseTerm(f.peer, VoteArgs(0, 0, 0, 0), x, SnapshotArgs(0, 0, 0, []));
      case SendSnapshot(x) =>
        var (g, term, _) := InstallSnapshot(f.peer, x);
        k' := K.Put(mid, a, f.(peer := g), {K.InstallRep(b, a, x, term)});
        WentBy(q, mid, k', K.Install(a, b, x));
        RequestsRaiseTerm(f.peer, VoteArgs(0, 0, 0, 0), AppendArgs(0, 0, 0, [], 0), x);
    }
    WentOn(q, k, mid, k');
  }

  lemma SomeoneFollows(q: set<nat>, k: K.System) returns (k': K.System, u: nat)
    requires Reachable(k) && IsQuorum(q, |k.hosts|) && |k.hosts| >= 2
    ensures Went(q, k, k') && u in q && u < |k.hosts| && k'.hosts[u].peer.role != Leader
  {
    if v :| v in q && k.hosts[v].peer.role != Leader {
      WentNowhere(q, k);
      k', u := k, v;
    } else {
      var a :| a in q;
      assert q != {a};
      var b :| b in q && b != a;
      if k.hosts[a].peer.currentTerm <= k.hosts[b].peer.currentTerm {
        u := a;
        k' := Overrules(q, k, a, b);
      } else {
        u := b;
        k' := Overrules(q, k, b, a);
      }
    }
  }

  /** A server that stands in a later term makes everyone else a follower, whether or not they
      vote for it. */
  lemma StepDown(q: set<nat>, k: K.System) returns (k': K.System)
    requires Reachable(k) && IsQuorum(q, |k.hosts|) && |k.hosts| >= 2
    ensures Went(q, k, k') && NoneLeads(k', q)
  {
    var k1, u := SomeoneFollows(q, k);
    var t := TermBound(k1.hosts);
    var k2 := StandsAbove(q, k1, u, t);
    var xs := Enumerate(q - {u});
    var args := Asks(u, k2.hosts[u].peer);
    forall j | 0 <= j < |xs| ensures xs[j] in q && xs[j] != u && xs[j] < |k2.hosts| { assert xs[j] in xs; }
    k' := AnswerAll(q, k2, args, xs, |xs|);
    WentOn(q, k, k1, k2);
    WentOn(q, k, k2, k');
    forall v | v in q ensures k'.hosts[v].peer.role != Leader {
      if v != u {
        assert v in xs && Answered(k2, k', args, v);
        assert k2.hosts[v] == k1.hosts[v];
      }
    }
  }

  ghost predicate AtLeast(k: K.System, s: nat, v: nat) {
    && s < |k.hosts| && v < |k.hosts| && k.hosts[s].peer.logs != [] && k.hosts[v].peer.logs != []
    && AsRecent(LastTerm(k.hosts[s].peer.logs), End(k.hosts[s].peer) - 1, k.hosts[v].peer)
  }

  lemma {:induction false} MostRecent(k: K.System, xs: seq<nat>) returns (s: nat)
    requires Reachable(k) && xs != [] && forall x | x in xs :: x < |k.hosts|
    ensures s in xs && forall x | x in xs :: AtLeast(k, s, x)
  {
    var last := |xs| - 1;
    var x := xs[last];
    assert x in xs && forall y | y in xs[..last] :: y in xs;
    HostFacts(k, x);
    if last == 0 {
      s := x;
    } else {
      s := MostRecent(k, xs[..last]);
      assert s in xs[..last];
      HostFacts(k, s);
      if !AtLeast(k, s, x) {
        forall y | y in xs[..last] ensures AtLeast(k, x, y) { assert AtLeast(k, s, y); }
        s := x;
      }
    }
    forall y | y in xs ensures AtLeast(k, s, y) { if y != x { assert y in xs[..last]; } }
  }

  ghost predicate Voted(k: K.System, args: VoteArgs, v: nat) {
    v < |k.hosts| && k.hosts[v].peer.currentTerm == args.term && K.Plain(C.VoteRep(args, v, VoteReply(args.term, true))) in k.net
  }

  /** Everyone in a majority votes for the member with the most recent log. */
  lemma AllVote(q: set<nat>, k: K.System) returns (k': K.System, s: nat)
    requires Reachable(k) && IsQuorum(q, |k.hosts|) && |k.hosts| >= 2 && NoneLeads(k, q)
    ensures Went(q, k, k') && s in q && Standing(k', s)
    ensures forall v | v in q && v != s :: Voted(k', Asks(s, k'.hosts[s].peer), v)
  {
    var ys := Enumerate(q);
    s := MostRecent(k, ys);
    var t := TermBound(k.hosts);
    var k1 := StandsAbove(q, k, s, t);
    var args := Asks(s, k1.hosts[s].peer);
    var xs := Enumerate(q - {s});
    forall j | 0 <= j < |xs| ensures xs[j] in q && xs[j] != s && xs[j] < |k1.hosts| { assert xs[j] in xs; }
    k' := AnswerAll(q, k1, args, xs, |xs|);
    WentOn(q, k, k1, k');
    assert k'.hosts[s] == k1.hosts[s];
    forall v | v in q && v != s ensures Voted(k', args, v) {
      assert v in xs && v in ys && Answered(k1, k', args, v) && AtLeast(k, s, v);
      assert k1.hosts[v] == k.hosts[v];
      Votes(k1, k', args, s, v);
    }
  }

  lemma Votes(k: K.System, k': K.System, args: VoteArgs, s: nat, v: nat)
    requires AtLeast(k, s, v) && args == Asks(s, k.hosts[s].peer) && args.term > k.hosts[v].peer.currentTerm && Answered(k, k', args, v)
    ensures Voted(k', args, v)
  {
    VoteIff(k.hosts[v].peer, args);
  }

  lemma {:induction false} AllWins(results: seq<int>)
    requires forall i | 0 <= i < |results| :: results[i] == VOTE_SUCCESS
    ensures Wins(results) == |results|
  {
    if results != [] { AllWins(results[1..]); }
  }

  /** `s` has just been elected, and the rest of `q` is in its term. */
  ghost predicate Elected(k: K.System, q: set<nat>, s: nat) {
    && s in q && s < |k.hosts| && (forall v | v in q :: v < |k.hosts| && k.hosts[v].peer.currentTerm == k.hosts[s].peer.currentTerm)
    && k.hosts[s].peer.role == Leader && !k.hosts[s].newCommit && k.hosts[s].peer.newOp == 0
  }

  lemma Elects(q: set<nat>, k: K.System) returns (k': K.System, s: nat)
    requires Reachable(k) && IsQuorum(q, |k.hosts|) && |k.hosts| >= 2
    ensures Went(q, k, k') && Elected(k', q, s)
  {
    var k1 := StepDown(q, k);
    var k2, cand := AllVote(q, k1);
    s := cand;
    WentOn(q, k, k1, k2);
    var xs := Enumerate(q - {s});
    var h, args := k2.hosts[s], Asks(s, k2.hosts[s].peer);
    var results := seq(|xs|, _ => VOTE_SUCCESS);
    HostFacts(k2, s);
    AllWins(results);
    assert results[..|results|] == results;
    WinFound(results, 1, |k.hosts|, |results|);
    k' := K.Put(k2, s, h.(peer := TakeOffice(h.peer, args), workTerm := args.term, newCommit := false), {});
    forall i | 0 <= i < |xs| ensures K.Heard(k2.net, args, xs[i], results[i]) {
      assert xs[i] in xs;
      assert Voted(k2, args, xs[i]);
      assert VoteResult(args, VoteReply(args.term, true)) == VOTE_SUCCESS;
    }
    WentBy(q, k2, k', K.CountVotes(s, args, xs, results));
    WentOn(q, k, k2, k');
  }

  // -------------------------------------------------------------- replication

  /** `s` leads everyone in `q` and has a command at `x`, the last and first of its term, that none
      of them has applied. */
  ghost predicate Office(k: K.System, q: set<nat>, s: nat, x: nat, command: Payload) {
    && s in q && s < |k.hosts|
    && (forall v | v in q :: v < |k.hosts| && k.hosts[v].peer.currentTerm == k.hosts[s].peer.currentTerm && k.hosts[v].peer.lastApplied <= x)
    && var p := k.hosts[s].peer;
       && p.role == Leader && p.newOp == x && p.startIndex < x && End(p) == x + 1
       && p.logs[x - p.startIndex] == Entry(p.currentTerm, command)
  }

  lemma Submits(q: set<nat>, k: K.System, s: nat, command: Payload) returns (k': K.System, x: nat)
    requires Reachable(k) && Elected(k, q, s)
    ensures Went(q, k, k') && Office(k', q, s, x, command) && !k'.hosts[s].newCommit && x == Start(k.hosts[s].peer, command).1
  {
    HostFacts(k, s);
    var h := k.hosts[s];
    x := Start(h.peer, command).1;
    k' := K.Put(k, s, h.(peer := Start(h.peer, command).0, newCommit := h.newCommit && h.peer.newOp != 0), {});
    WentBy(q, k, k', K.Submit(s, command));
    forall v | v in q ensures k'.hosts[v].peer.currentTerm == k'.hosts[s].peer.currentTerm && k'.hosts[v].peer.lastApplied <= x {
      HostFacts(k, v);
      CommitBound(k, s, v);
    }
  }

  /** The leader is as before but for what it knows of `v`. */
  ghost predicate OnlyKnows(h: K.Host, h': K.Host, v: nat) {
    && h' == h.(peer := h.peer.(nextIndex := h'.peer.nextIndex, matchIndex := h'.peer.matchIndex))
    && |h'.peer.nextIndex| == |h.peer.nextIndex| == |h'.peer.matchIndex| == |h.peer.matchIndex|
    && forall w | 0 <= w < |h.peer.matchIndex| && w != v :: h'.peer.matchIndex[w] == h.peer.matchIndex[w] && h'.peer.nextIndex[w] == h.peer.nextIndex[w]
  }

  /** What goes on between the leader and `v` leaves the office as it is. */
  ghost predicate Between(k: K.System, k': K.System, s: nat, v: nat) {
    && s < |k.hosts| && v < |k.hosts| && s != v && Within(k, k', {s, v}) && OnlyKnows(k.hosts[s], k'.hosts[s], v)
    && k'.hosts[v].peer.currentTerm == k.hosts[v].peer.currentTerm
  }

  /** The leader knows that `v` has everything. */
  ghost predicate Caught(k: K.System, s: nat, v: nat, x: nat) {
    && s < |k.hosts| && v < |k.hosts[s].peer.nextIndex| == |k.hosts[s].peer.matchIndex|
    && k.hosts[s].peer.matchIndex[v] > x && k.hosts[s].peer.nextIndex[v] == x + 1
  }

  /** The leader calls `v` past its cut, and `v` answers. */
  lemma Calls(q: set<nat>, k: K.System, s: nat, x: nat, command: Payload, v: nat) returns (k': K.System, a: AppendArgs)
    requires Reachable(k) && Office(k, q, s, x, command) && v in q && v != s
    requires K.Ready(k.hosts[s], |k.hosts|) && k.hosts[s].peer.startIndex < k.hosts[s].peer.nextIndex[v] <= End(k.hosts[s].peer)
    ensures Went(q, k, k') && Within(k, k', {v})
    ensures K.Ready(k.hosts[v], |k.hosts|) && SendLog(k.hosts[s].peer, v).1 == SendAppend(a)
    ensures var (g, r) := AppendEntries(k.hosts[v].peer, a);
      k'.hosts[v] == k.hosts[v].(peer := g) && K.Plain(C.AppendRep(s, v, a, r)) in k'.net
    ensures a.prevIndex < k.hosts[v].peer.commitIndex ==> AppendEntries(k.hosts[v].peer, a).1.success
  {
    HostFacts(k, s);
    HostFacts(k, v);
    a := SendLog(k.hosts[s].peer, v).1.append;
    var mid := K.Put(k, s, k.hosts[s], {K.Plain(C.AppendReq(s, v, a))});
    WentBy(q, k, mid, K.Send(s, v));
    if a.prevIndex < k.hosts[v].peer.commitIndex { CommittedAccepts(mid, s, v, a); }
    var (g, r) := AppendEntries(k.hosts[v].peer, a);
    k' := K.Put(mid, v, k.hosts[v].(peer := g), {K.Plain(C.AppendRep(s, v, a, r))});
    WentBy(q, mid, k', K.Receive(v, s, a));
    WentOn(q, k, mid, k');
  }

  /** The leader has learnt something of `v`, and `v` has moved within its term. */
  lemma BetweenBy(k: K.System, k': K.System, s: nat, v: nat, l: Peer, g: Peer)
    requires s < |k.hosts| && v < |k.hosts| && s != v && Within(k, k', {s, v})
    requires k'.hosts[s] == k.hosts[s].(peer := l) && k'.hosts[v] == k.hosts[v].(peer := g) && g.currentTerm == k.hosts[v].peer.currentTerm
    requires var p := k.hosts[s].peer;
      && l == p.(nextIndex := l.nextIndex, matchIndex := l.matchIndex) && |l.nextIndex| == |l.matchIndex| == |p.nextIndex| == |p.matchIndex|
      && forall w | 0 <= w < |p.nextIndex| && w != v :: l.nextIndex[w] == p.nextIndex[w] && l.matchIndex[w] == p.matchIndex[w]
    ensures Between(k, k', s, v)
  {
  }

  lemma OfficeStays(k: K.System, k': K.System, q: set<nat>, s: nat, x: nat, command: Payload, v: nat)
    requires Office(k, q, s, x, command) && Between(k, k', s, v) && k'.hosts[v].peer.lastApplied <= x
    ensures Office(k', q, s, x, command)
  {
  }

  lemma AppendKeeps(p: Peer, a: AppendArgs)
    requires p.logs != [] && a.term == p.currentTerm
    ensures var (g, r) := AppendEntries(p, a); g.currentTerm == p.currentTerm && g.lastApplied == p.lastApplied && r.term == a.term
  {
  }

  /** What the leader makes of the answer to a call that carried its whole log from `m` on. */
  lemma Hears(p: Peer, v: nat, a: AppendArgs, r: AppendReply)
    requires p.logs != [] && v < |p.nextIndex| == |p.matchIndex| && p.startIndex < p.nextIndex[v] <= End(p)
    requires SendLog(p, v).1 == SendAppend(a) && r.xIndex <= End(p) && r.term == a.term
    ensures var q := OnAppendReply(p, v, a, r).0;
      && q == p.(nextIndex := q.nextIndex, matchIndex := q.matchIndex) && |q.nextIndex| == |p.nextIndex| && |q.matchIndex| == |p.matchIndex|
      && (forall w | 0 <= w < |p.nextIndex| && w != v :: q.nextIndex[w] == p.nextIndex[w] && q.matchIndex[w] == p.matchIndex[w])
      && (r.success ==> q.nextIndex[v] == End(p) <= q.matchIndex[v])
  {
  }

  /** One call and its answer. */
  lemma Exchange(q: set<nat>, k: K.System, s: nat, x: nat, command: Payload, v: nat) returns (k': K.System, done: bool)
    requires Reachable(k) && Office(k, q, s, x, command) && v in q && v != s
    requires K.Ready(k.hosts[s], |k.hosts|) && k.hosts[s].peer.startIndex < k.hosts[s].peer.nextIndex[v] <= End(k.hosts[s].peer)
    ensures Went(q, k, k') && Between(k, k', s, v) && Office(k', q, s, x, command)
    ensures if done then Caught(k', s, v, x) else k'.hosts[s].peer.nextIndex[v] < k.hosts[s].peer.nextIndex[v]
    ensures k.hosts[s].peer.nextIndex[v] <= k.hosts[v].peer.commitIndex ==> done
  {
    HostFacts(k, s);
    var mid, a := Calls(q, k, s, x, command, v);
    var h, r := k.hosts[s], AppendEntries(k.hosts[v].peer, a).1;
    AppendKeeps(k.hosts[v].peer, a);
    AnswerHeard(mid, s, v, a, r);
    Hears(h.peer, v, a, r);
    k' := K.Put(mid, s, h.(peer := OnAppendReply(h.peer, v, a, r).0), {});
    WentBy(q, mid, k', K.Hear(s, v, a, r));
    WentOn(q, k, mid, k');
    OfficeStays(k, k', q, s, x, command, v);
    done := r.success;
  }

  /** The leader sends its snapshot and `v` takes it, or has more already. */
  lemma Installs(q: set<nat>, k: K.System, s: nat, v: nat) returns (k': K.System, a: SnapshotArgs)
    requires Reachable(k) && s in q && v in q && v != s && s < |k.hosts| && v < |k.hosts| && k.hosts[s].peer.role == Leader
    requires K.Ready(k.hosts[s], |k.hosts|) && k.hosts[s].peer.nextIndex[v] <= k.hosts[s].peer.startIndex && K.Ready(k.hosts[v], |k.hosts|)
    ensures Went(q, k, k') && Within(k, k', {s, v}) && SendLog(k.hosts[s].peer, v).1 == SendSnapshot(a)
    ensures k'.hosts[s] == k.hosts[s].(peer := SendLog(k.hosts[s].peer, v).0)
    ensures var (g, term, _) := InstallSnapshot(k.hosts[v].peer, a);
      k'.hosts[v] == k.hosts[v].(peer := g) && K.InstallRep(s, v, a, term) in k'.net
  {
    HostFacts(k, s);
    var h, f := k.hosts[s], k.hosts[v];
    var (p, out) := SendLog(h.peer, v);
    a := out.install;
    var mid := K.Put(k, s, h.(peer := p), {K.InstallReq(s, v, a)});
    WentBy(q, k, mid, K.Send(s, v));
    var (g, term, _) := InstallSnapshot(f.peer, a);
    k' := K.Put(mid, v, f.(peer := g), {K.InstallRep(s, v, a, term)});
    WentBy(q, mid, k', K.Install(v, s, a));
    WentOn(q, k, mid, k');
  }

  /** What the two sides are after the exchange of a snapshot in the leader's term. */
  lemma InstallKeeps(p: Peer, v: nat, f: Peer)
    requires p.logs != [] && v < |p.nextIndex| == |p.matchIndex| && p.nextIndex[v] <= p.startIndex
    requires f.logs != [] && f.startIndex < f.lastApplied <= f.commitIndex && f.currentTerm == p.currentTerm
    ensures SendLog(p, v).1.SendSnapshot?
    ensures var (q, out) := SendLog(p, v);
      var (g, term, _) := InstallSnapshot(f, out.install);
      var l := OnSnapshotReply(q, v, out.install.term, out.install.lastIndex + 1, term);
      && l == p.(nextIndex := l.nextIndex, matchIndex := l.matchIndex) && |l.nextIndex| == |l.matchIndex| == |p.nextIndex|
      && (forall w | 0 <= w < |p.nextIndex| && w != v :: l.nextIndex[w] == p.nextIndex[w] && l.matchIndex[w] == p.matchIndex[w])
      && l.nextIndex[v] == p.startIndex + 1 <= g.commitIndex
      && g.currentTerm == f.currentTerm && g.lastApplied <= Max(f.lastApplied, p.startIndex + 1)
  {
    SnapshotExchange(p, v, f);
  }

  lemma HearsInstall(q: set<nat>, k: K.System, s: nat, v: nat, a: SnapshotArgs, term: nat) returns (k': K.System)
    requires Reachable(k) && s in q && s < |k.hosts| && v < |k.hosts| && K.InstallRep(s, v, a, term) in k.net
    requires k.hosts[s].peer.role == Leader && k.hosts[s].peer.currentTerm == a.term
    ensures Went(q, k, k') && Within(k, k', {s}) && v < |k.hosts[s].peer.matchIndex|
    ensures k'.hosts[s] == k.hosts[s].(peer := OnSnapshotReply(k.hosts[s].peer, v, a.term, a.lastIndex + 1, term))
  {
    HostFacts(k, s);
    k' := K.Put(k, s, k.hosts[s].(peer := OnSnapshotReply(k.hosts[s].peer, v, a.term, a.lastIndex + 1, term)), {});
    WentBy(q, k, k', K.HearInstall(s, v, a, term));
  }

  /** The leader sends its snapshot, `v` has the prefix afterwards, and the leader knows. */
  lemma Snapshots(q: set<nat>, k: K.System, s: nat, x: nat, command: Payload, v: nat) returns (k': K.System)
    requires Reachable(k) && Office(k, q, s, x, command) && v in q && v != s
    requires K.Ready(k.hosts[s], |k.hosts|) && k.hosts[s].peer.nextIndex[v] <= k.hosts[s].peer.startIndex
    ensures Went(q, k, k') && Between(k, k', s, v) && Office(k', q, s, x, command)
    ensures k'.hosts[s].peer.nextIndex[v] == k.hosts[s].peer.startIndex + 1 <= k'.hosts[v].peer.commitIndex
  {
    HostFacts(k, v);
    InstallKeeps(k.hosts[s].peer, v, k.hosts[v].peer);
    var mid, a := Installs(q, k, s, v);
    k' := HearsInstall(q, mid, s, v, a, InstallSnapshot(k.hosts[v].peer, a).1);
    WentOn(q, k, mid, k');
    BetweenBy(k, k', s, v, k'.hosts[s].peer, k'.hosts[v].peer);
    OfficeStays(k, k', q, s, x, command, v);
  }

  lemma BetweenOn(k: K.System, k': K.System, k'': K.System, s: nat, v: nat)
    requires Between(k, k', s, v) && Between(k', k'', s, v)
    ensures Between(k, k'', s, v)
  {
  }

  /** The retry loop comes to an end with `v` caught up. */
  lemma {:induction false} CatchesUp(q: set<nat>, k: K.System, s: nat, x: nat, command: Payload, v: nat) returns (k': K.System)
    requires Reachable(k) && Office(k, q, s, x, command) && v in q && v != s && v < |k.hosts[s].peer.nextIndex|
    ensures Went(q, k, k') && Between(k, k', s, v) && Office(k', q, s, x, command) && Caught(k', s, v, x)
    decreases k.hosts[s].peer.nextIndex[v]
  {
    NextInRange(k, s, v);
    var done;
    if k.hosts[s].peer.nextIndex[v] <= k.hosts[s].peer.startIndex {
      var mid := Snapshots(q, k, s, x, command, v);
      HostFacts(mid, s);
      k', done := Exchange(q, mid, s, x, command, v);
      WentOn(q, k, mid, k');
      BetweenOn(k, mid, k', s, v);
    } else {
      k', done := Exchange(q, k, s, x, command, v);
      if !done {
        var mid := k';
        k' := CatchesUp(q, mid, s, x, command, v);
        WentOn(q, k, mid, k');
        BetweenOn(k, mid, k', s, v);
      }
    }
  }

  lemma StillCaught(k: K.System, k': K.System, s: nat, v: nat, w: nat, x: nat)
    requires Between(k, k', s, v) && w != v && Caught(k, s, w, x)
    ensures Caught(k', s, w, x)
  {
  }

  lemma CaughtMore(q: set<nat>, k: K.System, k': K.System, s: nat, x: nat, xs: seq<nat>, i: nat)
    requires Others(xs, q, s) && 0 < i <= |xs| && Between(k, k', s, xs[i - 1]) && Caught(k', s, xs[i - 1], x)
    requires forall j | 0 <= j < i - 1 :: Caught(k, s, xs[j], x)
    ensures forall j | 0 <= j < i :: Caught(k', s, xs[j], x)
  {
    forall j | 0 <= j < i - 1 ensures Caught(k', s, xs[j], x) { StillCaught(k, k', s, xs[i - 1], xs[j], x); }
  }

  lemma CatchesUpNext(q: set<nat>, k: K.System, mid: K.System, s: nat, x: nat, command: Payload, v: nat) returns (k': K.System)
    requires Went(q, k, mid) && Office(mid, q, s, x, command) && v in q && v != s
    ensures Went(q, k, k') && Office(k', q, s, x, command) && Between(mid, k', s, v) && Caught(k', s, v, x)
    ensures k'.hosts[s].newCommit == mid.hosts[s].newCommit
  {
    HostFacts(mid, s);
    k' := CatchesUp(q, mid, s, x, command, v);
    WentOn(q, k, mid, k');
  }

  /** The first `i` in `xs` are caught up, one after the other. */
  lemma {:induction false} AllCatchUp(q: set<nat>, k: K.System, s: nat, x: nat, command: Payload, xs: seq<nat>, i: nat) returns (k': K.System)
    requires Reachable(k) && Office(k, q, s, x, command) && Others(xs, q, s) && i <= |xs|
    ensures Went(q, k, k') && Office(k', q, s, x, command) && k'.hosts[s].newCommit == k.hosts[s].newCommit
    ensures forall j | 0 <= j < i :: Caught(k', s, xs[j], x)
  {
    if i == 0 {
      WentNowhere(q, k);
      k' := k;
    } else {
      var mid := AllCatchUp(q, k, s, x, command, xs, i - 1);
      k' := CatchesUpNext(q, k, mid, s, x, command, xs[i - 1]);
      CaughtMore(q, mid, k', s, x, xs, i);
    }
  }

  lemma MajorityCaught(q: set<nat>, k: K.System, s: nat, x: nat)
    requires s in q && s < |k.hosts| && IsQuorum(q, |k.hosts|) && |k.hosts| >= 2
    requires k.hosts[s].peer.me == s && |k.hosts[s].peer.matchIndex| == |k.hosts| && forall v | v in q && v != s :: Caught(k, s, v, x)
    ensures MajorityHolds(k.hosts[s].peer, x)
  {
    assert q != {s};
    forall v | v in q && v != s ensures k.hosts[s].peer.matchIndex[v] > x { assert Caught(k, s, v, x); }
    assert HoldingQuorum(k.hosts[s].peer, x, q);
  }

  /** With a majority caught up, the committer commits the command. */
  lemma Commits(q: set<nat>, k: K.System, s: nat, x: nat, command: Payload) returns (k': K.System)
    requires Reachable(k) && Office(k, q, s, x, command) && IsQuorum(q, |k.hosts|) && |k.hosts| >= 2 && !k.hosts[s].newCommit
    requires forall v | v in q && v != s :: Caught(k, s, v, x)
    ensures Went(q, k, k') && Office(k', q, s, x, command) && k'.hosts[s].peer.commitIndex == x + 1
    ensures forall v | v in q && v != s :: Caught(k', s, v, x)
  {
    HostFacts(k, s);
    MajorityCaught(q, k, s, x);
    k' := CommitsFirst(q, k, s);
    OfficeCommitted(q, k, k', s, x, command);
    forall v | v in q && v != s ensures Caught(k', s, v, x) { CaughtCommitted(k, k', s, v, x); }
  }

  ghost predicate OnlyCommitted(k: K.System, k': K.System, s: nat, x: nat) {
    && s < |k.hosts| && Within(k, k', {s})
    && k'.hosts[s] == k.hosts[s].(peer := k.hosts[s].peer.(commitIndex := x + 1), newCommit := true)
  }

  lemma OfficeCommitted(q: set<nat>, k: K.System, k': K.System, s: nat, x: nat, command: Payload)
    requires Office(k, q, s, x, command) && OnlyCommitted(k, k', s, x)
    ensures Office(k', q, s, x, command) && k'.hosts[s].peer.commitIndex == x + 1
  {
  }

  lemma CaughtCommitted(k: K.System, k': K.System, s: nat, v: nat, x: nat)
    requires Caught(k, s, v, x) && OnlyCommitted(k, k', s, x)
    ensures Caught(k', s, v, x)
  {
  }

  lemma CommitsFirst(q: set<nat>, k: K.System, s: nat) returns (k': K.System)
    requires Reachable(k) && s in q && s < |k.hosts| && k.hosts[s].peer.role == Leader && !k.hosts[s].newCommit
    requires k.hosts[s].peer.newOp != 0 && MajorityHolds(k.hosts[s].peer, k.hosts[s].peer.newOp)
    ensures Went(q, k, k') && Within(k, k', {s})
    ensures k'.hosts[s] == k.hosts[s].(peer := k.hosts[s].peer.(commitIndex := k.hosts[s].peer.newOp + 1), newCommit := true)
  {
    HostFacts(k, s);
    var h := k.hosts[s];
    FirstCommitExact(h.peer);
    k' := K.Put(k, s, h.(peer := h.peer.(commitIndex := h.peer.newOp + 1), newCommit := true), {});
    WentBy(q, k, k', K.Advance(s));
  }

  /** The commit index of a follower that holds the leader's log follows with the next call. */
  lemma Learns(q: set<nat>, k: K.System, s: nat, x: nat, command: Payload, v: nat) returns (k': K.System)
    requires Reachable(k) && Office(k, q, s, x, command) && v in q && v != s && Caught(k, s, v, x) && k.hosts[s].peer.commitIndex == x + 1
    ensures Went(q, k, k') && Within(k, k', {v}) && Office(k', q, s, x, command) && k'.hosts[v].peer.commitIndex > x
  {
    HostFacts(k, s);
    HostFacts(k, v);
    MatchedHolds(k, s, v, x);
    var a;
    k', a := Calls(q, k, s, x, command, v);
    AppendKeeps(k.hosts[v].peer, a);
    LearnsPeer(k.hosts[s].peer, v, k.hosts[v].peer, a, x);
  }

  /** A follower with the leader's last entry takes over its commit index. */
  lemma LearnsPeer(p: Peer, v: nat, f: Peer, a: AppendArgs, x: nat)
    requires p.logs != [] && v < |p.nextIndex| && p.startIndex < x && p.nextIndex[v] == x + 1 == End(p) == p.commitIndex
    requires SendLog(p, v).1 == SendAppend(a) && f.logs != [] && f.startIndex < x < End(f) && f.currentTerm == p.currentTerm
    requires f.logs[x - f.startIndex] == p.logs[x - p.startIndex]
    ensures AppendEntries(f, a).0.commitIndex > x
  {
  }

  ghost predicate Learnt(k: K.System, v: nat, x: nat) {
    v < |k.hosts| && k.hosts[v].peer.commitIndex > x
  }

  lemma LearntMore(k: K.System, k': K.System, xs: seq<nat>, x: nat, i: nat)
    requires Distinct(xs) && 0 < i <= |xs| && Within(k, k', {xs[i - 1]}) && Learnt(k', xs[i - 1], x)
    requires forall j | 0 <= j < i - 1 :: Learnt(k, xs[j], x)
    ensures forall j | 0 <= j < i :: Learnt(k', xs[j], x)
  {
    forall j | 0 <= j < i - 1 ensures Learnt(k', xs[j], x) { assert Learnt(k, xs[j], x) && xs[j] != xs[i - 1]; }
  }

  lemma {:induction false} AllLearn(q: set<nat>, k: K.System, s: nat, x: nat, command: Payload, xs: seq<nat>, i: nat) returns (k': K.System)
    requires Reachable(k) && Office(k, q, s, x, command) && Others(xs, q, s) && i <= |xs| && k.hosts[s].peer.commitIndex == x + 1
    requires forall j | 0 <= j < |xs| :: Caught(k, s, xs[j], x)
    ensures Went(q, k, k') && Office(k', q, s, x, command) && k'.hosts[s] == k.hosts[s]
    ensures forall j | 0 <= j < i :: Learnt(k', xs[j], x)
  {
    if i == 0 {
      WentNowhere(q, k);
      k' := k;
    } else {
      var mid := AllLearn(q, k, s, x, command, xs, i - 1);
      k' := LearnsNext(q, k, mid, s, x, command, xs[i - 1]);
      LearntMore(mid, k', xs, x, i);
    }
  }

  lemma LearnsNext(q: set<nat>, k: K.System, mid: K.System, s: nat, x: nat, command: Payload, v: nat) returns (k': K.System)
    requires Went(q, k, mid) && Office(mid, q, s, x, command) && v in q && v != s && Caught(k, s, v, x)
    requires mid.hosts[s] == k.hosts[s] && mid.hosts[s].peer.commitIndex == x + 1
    ensures Went(q, k, k') && Within(mid, k', {v}) && Office(k', q, s, x, command) && Learnt(k', v, x)
  {
    k' := Learns(q, mid, s, x, command, v);
    WentOn(q, k, mid, k');
  }

  // ----------------------------------------------------------------- delivery

  /** The command at `x` is committed on a host and not applied. */
  ghost predicate Pending(h: K.Host, x: nat, command: Payload) {
    && h.peer.startIndex < h.peer.lastApplied <= x < h.peer.commitIndex <= End(h.peer)
    && h.peer.logs[x - h.peer.startIndex].command == command
  }

  lemma DeliversNext(q: set<nat>, k: K.System, u: nat) returns (k': K.System)
    requires Reachable(k) && u in q && u < |k.hosts| && k.hosts[u].batch != []
    ensures Went(q, k, k') && Within(k, k', {u})
    ensures var h := k.hosts[u]; k'.hosts[u] == h.(batch := h.batch[1..], sent := h.sent + [h.batch[0]])
    ensures var m := k.hosts[u].batch[0]; m.CommandMsg? ==> Applied(u, m.index, m.command) in k'.delivered
  {
    HostFacts(k, u);
    var h, m := k.hosts[u], k.hosts[u].batch[0];
    k' := K.Put(k, u, h.(batch := h.batch[1..], sent := h.sent + [m]), {}).(
            delivered := k.delivered + if m.CommandMsg? then {Applied(u, m.index, m.command)} else {});
    WentBy(q, k, k', K.Deliver(u));
  }

  ghost predicate SentOf(k: K.System, u: nat, batch: seq<ApplyMsg>) {
    forall i | 0 <= i < |batch| && batch[i].CommandMsg? :: Applied(u, batch[i].index, batch[i].command) in k.delivered
  }

  /** The applier sends all of its batch. */
  lemma {:induction false} Flushes(q: set<nat>, k: K.System, u: nat) returns (k': K.System)
    requires Reachable(k) && u in q && u < |k.hosts|
    ensures Went(q, k, k') && Within(k, k', {u}) && SentOf(k', u, k.hosts[u].batch)
    ensures k'.hosts[u].batch == [] && k'.hosts[u].peer == k.hosts[u].peer
    decreases |k.hosts[u].batch|
  {
    if k.hosts[u].batch == [] {
      WentNowhere(q, k);
      k' := k;
    } else {
      var mid := DeliversNext(q, k, u);
      k' := Flushes(q, mid, u);
      WentOn(q, k, mid, k');
      var batch := k.hosts[u].batch;
      forall i | 0 <= i < |batch| && batch[i].CommandMsg? ensures Applied(u, batch[i].index, batch[i].command) in k'.delivered {
        if i > 0 { assert batch[i] == mid.hosts[u].batch[i - 1]; }
      }
    }
  }

  /** The applier has nothing in hand and no snapshot to announce. */
  lemma Idles(q: set<nat>, k: K.System, u: nat, x: nat, command: Payload) returns (k': K.System)
    requires Reachable(k) && u in q && u < |k.hosts| && Pending(k.hosts[u], x, command)
    ensures Went(q, k, k') && Within(k, k', {u}) && Pending(k'.hosts[u], x, command)
    ensures k'.hosts[u].batch == [] && !k'.hosts[u].peer.snapshotApplying
  {
    k' := Flushes(q, k, u);
    if k'.hosts[u].peer.snapshotApplying {
      HostFacts(k', u);
      var k1, h := k', k'.hosts[u];
      var (p, msg) := TakeSnapshot(h.peer);
      var k2 := K.Put(k1, u, h.(peer := p, batch := [msg]), {});
      WentBy(q, k1, k2, K.TakeInstalled(u));
      k' := Flushes(q, k2, u);
      WentOn(q, k, k1, k2);
      WentOn(q, k, k2, k');
    }
  }

  lemma TakesBatch(q: set<nat>, k: K.System, u: nat, x: nat, command: Payload) returns (k': K.System)
    requires Reachable(k) && u in q && u < |k.hosts| && Pending(k.hosts[u], x, command)
    requires k.hosts[u].batch == [] && !k.hosts[u].peer.snapshotApplying
    ensures Went(q, k, k') && Within(k, k', {u}) && CommandMsg(command, x) in k'.hosts[u].batch
  {
    HostFacts(k, u);
    var h := k.hosts[u];
    var (p, batch) := TakeBatch(h.peer);
    k' := K.Put(k, u, h.(peer := p, batch := batch), {});
    WentBy(q, k, k', K.TakeCommitted(u));
    assert batch[x - h.peer.lastApplied] == CommandMsg(command, x);
  }

  lemma Delivers(q: set<nat>, k: K.System, u: nat, x: nat, command: Payload) returns (k': K.System)
    requires Reachable(k) && u in q && u < |k.hosts| && Pending(k.hosts[u], x, command)
    ensures Went(q, k, k') && Within(k, k', {u}) && Applied(u, x, command) in k'.delivered
  {
    var k1 := Idles(q, k, u, x, command);
    var k2 := TakesBatch(q, k1, u, x, command);
    k' := Flushes(q, k2, u);
    WentOn(q, k, k1, k2);
    WentOn(q, k, k2, k');
    var i :| 0 <= i < |k2.hosts[u].batch| && k2.hosts[u].batch[i] == CommandMsg(command, x);
  }

  ghost predicate Waits(k: K.System, u: nat, x: nat, command: Payload) {
    u < |k.hosts| && Pending(k.hosts[u], x, command)
  }

  lemma OthersWait(k: K.System, k': K.System, xs: seq<nat>, x: nat, command: Payload, i: nat)
    requires Distinct(xs) && 0 < i <= |xs| && Within(k, k', {xs[i - 1]})
    requires forall j | i <= j < |xs| :: Waits(k, xs[j], x, command)
    ensures forall j | i <= j < |xs| :: Waits(k', xs[j], x, command)
  {
    forall j | i <= j < |xs| ensures Waits(k', xs[j], x, command) { assert Waits(k, xs[j], x, command) && xs[j] != xs[i - 1]; }
  }

  lemma {:induction false} AllDeliver(q: set<nat>, k: K.System, x: nat, command: Payload, xs: seq<nat>, i: nat) returns (k': K.System)
    requires Reachable(k) && Distinct(xs) && i <= |xs| && forall j | 0 <= j < |xs| :: xs[j] in q
    requires forall j | 0 <= j < |xs| :: Waits(k, xs[j], x, command)
    ensures Went(q, k, k') && forall j | 0 <= j < i :: Applied(xs[j], x, command) in k'.delivered
    ensures forall j | i <= j < |xs| :: Waits(k', xs[j], x, command)
  {
    if i == 0 {
      WentNowhere(q, k);
      k' := k;
    } else {
      var mid := AllDeliver(q, k, x, command, xs, i - 1);
      k' := DeliversAfter(q, k, mid, xs[i - 1], x, command);
      OthersWait(mid, k', xs, x, command, i);
    }
  }

  lemma DeliversAfter(q: set<nat>, k: K.System, mid: K.System, u: nat, x: nat, command: Payload) returns (k': K.System)
    requires Went(q, k, mid) && u in q && Waits(mid, u, x, command)
    ensures Went(q, k, k') && Within(mid, k', {u}) && Applied(u, x, command) in k'.delivered
  {
    k' := Delivers(q, mid, u, x, command);
    WentOn(q, k, mid, k');
  }

  // ---------------------------------------------------------------- the theorem

  /** A leader of a majority gets a new command committed on all its members, at the index that
      Start returned. */
  lemma Replicates(q: set<nat>, k: K.System, s: nat, command: Payload) returns (k': K.System, x: nat)
    requires Reachable(k) && |k.hosts| >= 2 && IsQuorum(q, |k.hosts|) && Elected(k, q, s)
    ensures Went(q, k, k') && x == Start(k.hosts[s].peer, command).1 && forall u | u in q :: Waits(k', u, x, command)
  {
    var k1, i := Submits(q, k, s, command);
    x := i;
    var xs := Enumerate(q - {s});
    forall j | 0 <= j < |xs| ensures xs[j] in q && xs[j] != s { assert xs[j] in xs; }
    var k2 := AllCatchUp(q, k1, s, x, command, xs, |xs|);
    forall v | v in q && v != s ensures Caught(k2, s, v, x) { assert v in xs; }
    var k3 := Commits(q, k2, s, x, command);
    k' := AllLearn(q, k3, s, x, command, xs, |xs|);
    WentOn(q, k, k1, k2);
    WentOn(q, k, k2, k3);
    WentOn(q, k, k3, k');
    forall u | u in q ensures Waits(k', u, x, command) {
      assert u != s ==> u in xs && Caught(k3, s, u, x);
      PendingNow(q, k3, k', s, x, command, u);
    }
  }

  /** Any majority can get a new command delivered by all its members, from every reachable state
      and with no help from the others. */
  lemma MajorityDelivers(q: set<nat>, k: K.System, command: Payload) returns (k': K.System, x: nat)
    requires Reachable(k) && |k.hosts| >= 2 && IsQuorum(q, |k.hosts|)
    ensures Leads(q, k, k') && Reachable(k') && forall u | u in q :: Applied(u, x, command) in k'.delivered
  {
    var k1, s := Elects(q, k);
    var k2, i := Replicates(q, k1, s, command);
    x := i;
    var xs := Enumerate(q);
    forall j | 0 <= j < |xs| ensures xs[j] in q { assert xs[j] in xs; }
    k' := AllDeliver(q, k2, x, command, xs, |xs|);
    WentOn(q, k, k1, k2);
    WentOn(q, k, k2, k');
    forall u | u in q ensures Applied(u, x, command) in k'.delivered { assert u in xs; }
  }

  lemma PendingNow(q: set<nat>, k: K.System, k': K.System, s: nat, x: nat, command: Payload, u: nat)
    requires Reachable(k') && Office(k', q, s, x, command) && u in q && s < |k.hosts| && k'.hosts[s] == k.hosts[s]
    requires Learnt(k', u, x) && (u != s ==> Caught(k, s, u, x))
    ensures Pending(k'.hosts[u], x, command)
  {
    HostFacts(k', u);
    HostFacts(k', s);
    if u != s { MatchedHolds(k', s, u, x); }
  }

  /** So a new cluster of two or more servers can elect a leader and have every server deliver. */
  lemma FreshClusterDelivers(n: nat, command: Payload) returns (k: K.System, k': K.System, x: nat)
    requires n >= 2
    ensures K.Init(k) && |k.hosts| == n && Leads(Servers(n), k, k') && forall u: nat | u < n :: Applied(u, x, command) in k'.delivered
  {
    k := K.System(seq(n, s requires 0 <= s < n => K.Boot(Fresh(s, n))), {}, {}, {});
    assert K.Run([k]);
    assert [k][|[k]| - 1] == k;
    k', x := MajorityDelivers(Servers(n), k, command);
  }
}
