/** Client sessions (src/session/client.go): the pair of stream ids of a session, the sequence
    numbers on each stream, the retry loop, and what they mean for the lock table. */
module LockClients {
  import opened Session
  import opened LockTable

  const PERIOD := 0x8000_0000

  /** Two's complement wrap-around to 32 bits. */
  function Wrap32(x: int): (y: int)
    ensures -0x8000_0000 <= y < 0x8000_0000 && (y - x) % 0x1_0000_0000 == 0
  {
    (x + 0x8000_0000) % 0x1_0000_0000 - 0x8000_0000
  }

  /** The id of the session opened after `k` others: the counter starts at -2 and goes up by 2. */
  function SessionId(k: nat): (id: int)
    ensures id % 2 == 0
  {
    Wrap32(2 * k)
  }

  /** The streams of a session: requests, and keep-alives. */
  predicate Owns(k: nat, sessid: int) {
    sessid == SessionId(k) || sessid == SessionId(k) + 1
  }

  /** Two sessions share a stream exactly when 2^31 sessions, or a multiple, lie between them. */
  lemma StreamsDisjoint(j: nat, k: nat)
    ensures (exists sessid :: Owns(j, sessid) && Owns(k, sessid)) <==> (j - k) % PERIOD == 0
  {
    if (j - k) % PERIOD == 0 {
      SameId(j, k);
      assert Owns(j, SessionId(j)) && Owns(k, SessionId(j));
    } else {
      DistinctIds(j, k);
    }
  }

  lemma SameId(j: nat, k: nat)
    requires (j - k) % PERIOD == 0
    ensures SessionId(j) == SessionId(k)
  {
    var m := (j - k) / PERIOD;
    assert 2 * j - 2 * k == 0x1_0000_0000 * m;
    assert (SessionId(j) - SessionId(k)) % 0x1_0000_0000 == 0;
  }

  lemma DistinctIds(j: nat, k: nat)
    requires (j - k) % PERIOD != 0
    ensures SessionId(j) != SessionId(k)
  {
  }

  lemma PairOwned(k: nat, sessid: int)
    requires Owns(k, sessid)
    ensures Owns(k, Pair(sessid))
  {
  }

  /** No release of another session frees a lock. */
  lemma ForeignRelease(t: Tables, op: Op, path: string, j: nat, k: nat)
    requires op.code == Release && Owns(j, Holder(t, path)) && Owns(k, op.sessid) && (j - k) % PERIOD != 0
    requires Holder(t, path) != FREE
    ensures Holder(Apply(t, Request(op)), path) == Holder(t, path)
  {
    PairOwned(k, op.sessid);
    StreamsDisjoint(j, k);
    HolderStep(t, Request(op), path);
  }

  /** Entry `k` of the log, if a release or a revocation of `path`, is neither from session
      `j` nor a revocation of one of its streams. */
  ghost predicate Harmless(p: Payload, path: string, j: nat) {
    p.Request? && p.op.path == path && (p.op.code == Release || p.op.code == Revoke) ==> !Owns(j, p.op.sessid)
  }

  /** Between two points of any log, a session keeps its lock unless it releases it itself, on
      either stream, or a revocation names it. */
  lemma {:induction false} KeptByOwner(log: seq<Payload>, a: nat, b: nat, path: string, j: nat)
    requires a <= b <= |log| && Owns(j, Holder(ApplyAll(EMPTY, log[..a]), path)) && Holder(ApplyAll(EMPTY, log[..a]), path) != FREE
    requires forall i | a <= i < b :: Harmless(log[i], path, j)
    ensures Holder(ApplyAll(EMPTY, log[..b]), path) == Holder(ApplyAll(EMPTY, log[..a]), path)
    decreases b
  {
    if a < b {
      KeptByOwner(log, a, b - 1, path, j);
      var t := ApplyAll(EMPTY, log[..b - 1]);
      ApplyNext(EMPTY, log, b - 1);
      HolderStep(t, log[b - 1], path);
      assert Harmless(log[b - 1], path, j);
      if log[b - 1].Request? && Owns(j, Pair(log[b - 1].op.sessid)) { PairOwned(j, Pair(log[b - 1].op.sessid)); }
    }
  }

  // ------------------------------------------------------------------ requests

  /** What comes back from one attempt: nothing, or a result; and whether the session has been
      closed by the time the loop would wait after it. */
  datatype Attempt = Lost(closed: bool) | Answer(result: Err, closed: bool)

  datatype Outcome = Open | Result(result: Err)

  /** A call: which server, with which number of the stream. */
  datatype Try = Try(server: nat, seqno: int)

  /** The retry loop: the number in use, the counter that picks the server, the attempts left
      before the next wait, and the calls made so far. */
  datatype Loop = Loop(seqno: int, leader: nat, left: nat, tries: seq<Try>, outcome: Outcome)

  predicate Repeated(a: Attempt) {
    a.Answer? && a.result == RepeatedRequest
  }

  /** A lost call or one to a server that does not lead. */
  predicate Failed(a: Attempt) {
    a.Lost? || a.result == WrongLeader
  }

  /** One attempt; a loop that has ended stays as it is. */
  function Turn(l: Loop, n: nat, a: Attempt): Loop
    requires n > 0
  {
    if !l.outcome.Open? then l
    else
      var m := l.(tries := l.tries + [Try(l.leader % n, l.seqno)]);
      if Repeated(a) then m.(seqno := l.seqno + 1, left := n)
      else if !Failed(a) then m.(outcome := Result(a.result))
      else if l.left > 1 then m.(leader := l.leader + 1, left := l.left - 1)
      else m.(leader := l.leader + 1, left := n, outcome := if a.closed then Result(Terminated) else Open)
  }

  function Turns(l: Loop, n: nat, attempts: seq<Attempt>): Loop
    requires n > 0
  {
    if attempts == [] then l else Turn(Turns(l, n, attempts[..|attempts| - 1]), n, attempts[|attempts| - 1])
  }

  lemma {:induction false} TurnsEnded(l: Loop, n: nat, attempts: seq<Attempt>, i: nat)
    requires n > 0 && i <= |attempts| && !Turns(l, n, attempts[..i]).outcome.Open?
    ensures Turns(l, n, attempts) == Turns(l, n, attempts[..i])
    decreases |attempts|
  {
    if i == |attempts| {
      assert attempts[..i] == attempts;
    } else {
      var before := attempts[..|attempts| - 1];
      assert before[..i] == attempts[..i];
      TurnsEnded(l, n, before, i);
    }
  }

  class Client {
    const sessid: int
    const servers: nat
    var seqs: array<int>
    var leader: nat

    ghost predicate Valid()
      reads this
    {
      seqs.Length == 2 && servers > 0
    }

    constructor (before: nat, servers: nat)
      requires servers > 0
      ensures Valid() && fresh(seqs) && sessid == SessionId(before) && seqs[..] == [0, 0] && leader == 0 && this.servers == servers
    {
      sessid, this.servers, leader := Wrap32(-2 + 2 * before + 2), servers, 0;
      seqs := new int[2](_ => 0);
    }

    /** A request on stream `rid`, with what its attempts meet. */
    method Request(rid: nat, attempts: seq<Attempt>) returns (tries: seq<Try>, o: Outcome)
      requires Valid() && rid < 2
      modifies this`leader, seqs
      ensures seqs[1 - rid] == old(seqs[1 - rid])
      ensures var l := Turns(Loop(old(seqs[rid]) + 1, old(leader), servers, [], Open), servers, attempts);
        tries == l.tries && o == l.outcome && leader == l.leader && seqs[rid] == l.seqno
    {
      seqs[rid] := seqs[rid] + 1;
      tries, o := [], Open;
      ghost var start := Loop(seqs[rid], leader, servers, [], Open);
      var left, i := servers, 0;
      while i < |attempts| && o.Open?
        invariant 0 <= i <= |attempts| && seqs[1 - rid] == old(seqs[1 - rid])
        invariant Loop(seqs[rid], leader, left, tries, o) == Turns(start, servers, attempts[..i])
      {
        assert attempts[..i + 1][..i] == attempts[..i];
        tries := tries + [Try(leader % servers, seqs[rid])];
        var a := attempts[i];
        if a.Answer? && a.result == RepeatedRequest {
          seqs[rid], left := seqs[rid] + 1, servers;
        } else if a.Answer? && a.result != WrongLeader {
          o := Result(a.result);
        } else {
          leader := leader + 1;
          if left > 1 { left := left - 1; } else {
            left := servers;
            if a.closed { o := Result(Terminated); }
          }
        }
        i := i + 1;
      }
      assert attempts[..|attempts|] == attempts;
      if !o.Open? { TurnsEnded(start, servers, attempts, i); }
    }
  }

  // ------------------------------------------------------- what the loop means

  function NextServer(s: nat, n: nat): nat {
    if s + 1 >= n then 0 else s + 1
  }

  lemma NextModulo(leader: nat, n: nat)
    requires n > 0
    ensures (leader + 1) % n == NextServer(leader % n, n)
  {
    var d, e := leader / n, (leader + 1) / n;
    SmallMultiple(e - d, n, leader % n + 1 - (leader + 1) % n);
    SmallMultiple(e - d - 1, n, leader % n + 1 - n - (leader + 1) % n);
  }

  lemma SmallMultiple(k: int, n: nat, r: int)
    ensures k * n == r && 0 - n < r < n ==> r == 0
  {
    if k > 0 {
      assert k * n >= n;
    } else if k < 0 {
      assert k * n <= 0 - n;
    }
  }

  /** The call that follows `t` once its attempt met `a`. */
  function Following(t: Try, a: Attempt, n: nat): Try {
    if Repeated(a) then Try(t.server, t.seqno + 1) else Try(NextServer(t.server, n), t.seqno)
  }

  /** Attempts `i` to `j` all failed. */
  ghost predicate AllFailed(attempts: seq<Attempt>, i: nat, j: nat)
    requires i <= j <= |attempts|
  {
    forall k | i <= k < j :: Failed(attempts[k])
  }

  ghost predicate Follows(tries: seq<Try>, attempts: seq<Attempt>, n: nat, i: nat) {
    i + 1 < |tries| <= |attempts| ==> tries[i + 1] == Following(tries[i], attempts[i], n)
  }

  /** The loop goes on: what it will do next follows from the last attempt, and it waits after
      `left` more failures because those since the last wait were all failures. */
  ghost predicate Going(l: Loop, n: nat, attempts: seq<Attempt>, m: Loop)
    requires n > 0
  {
    && |m.tries| == |attempts| && 1 <= m.left <= n
    && n - m.left <= |attempts| && AllFailed(attempts, |attempts| - (n - m.left), |attempts|)
    && Try(m.leader % n, m.seqno)
         == if attempts == [] then Try(l.leader % n, l.seqno) else Following(m.tries[|attempts| - 1], attempts[|attempts| - 1], n)
  }

  /** The loop has ended: with the answer of its last call, at whose server the next request begins,
      or, closed, after as many failures in a row as there are servers. */
  ghost predicate Ended(n: nat, attempts: seq<Attempt>, m: Loop)
    requires n > 0
  {
    var last := |m.tries| - 1;
    && 0 <= last < |attempts| && m.seqno == m.tries[last].seqno
    && if Failed(attempts[last])
       then m.outcome == Result(Terminated) && attempts[last].closed && n <= last + 1 && AllFailed(attempts, last + 1 - n, last + 1)
       else !Repeated(attempts[last]) && m.outcome == Result(attempts[last].result) && m.leader % n == m.tries[last].server
  }

  ghost predicate Retried(l: Loop, n: nat, attempts: seq<Attempt>, m: Loop)
    requires n > 0
  {
    && |m.tries| <= |attempts|
    && (m.tries != [] ==> m.tries[0] == Try(l.leader % n, l.seqno))
    && (forall i: nat | i + 1 < |m.tries| :: Follows(m.tries, attempts, n, i))
    && if m.outcome.Open? then Going(l, n, attempts, m) else Ended(n, attempts, m)
  }

  lemma TurnGoes(l: Loop, n: nat, attempts: seq<Attempt>, k: Loop, a: Attempt)
    requires n > 0 && Retried(l, n, attempts, k) && k.outcome.Open?
    ensures var m := Turn(k, n, a); if m.outcome.Open? then Going(l, n, attempts + [a], m) else Ended(n, attempts + [a], m)
  {
    NextModulo(k.leader, n);
  }

  lemma TurnFollows(l: Loop, n: nat, attempts: seq<Attempt>, k: Loop, a: Attempt, i: nat)
    requires n > 0 && Retried(l, n, attempts, k) && k.outcome.Open? && i + 1 < |k.tries| + 1
    ensures Follows(Turn(k, n, a).tries, attempts + [a], n, i)
  {
    if i + 1 < |k.tries| {
      assert Follows(k.tries, attempts, n, i);
    }
  }

  lemma TurnRetried(l: Loop, n: nat, attempts: seq<Attempt>, k: Loop, a: Attempt)
    requires n > 0 && Retried(l, n, attempts, k)
    ensures Retried(l, n, attempts + [a], Turn(k, n, a))
  {
    if k.outcome.Open? {
      TurnGoes(l, n, attempts, k, a);
      forall i: nat | i + 1 < |k.tries| + 1 ensures Follows(Turn(k, n, a).tries, attempts + [a], n, i) {
        TurnFollows(l, n, attempts, k, a, i);
      }
    } else {
      forall i: nat | i + 1 < |k.tries| ensures Follows(k.tries, attempts + [a], n, i) {
        assert Follows(k.tries, attempts, n, i);
      }
    }
  }

  /** How a request goes, whatever its attempts meet: each call follows from the one before, with a
      new number exactly after a repeated one and the next server exactly after a failure. It
      ends with the first answer that is neither, or, closed, when as many calls in a row
      as there are servers have failed. */
  lemma {:induction false} RetryOk(l: Loop, n: nat, attempts: seq<Attempt>)
    requires n > 0 && l.tries == [] && l.outcome == Open && l.left == n
    ensures Retried(l, n, attempts, Turns(l, n, attempts))
  {
    if attempts != [] {
      var before := attempts[..|attempts| - 1];
      RetryOk(l, n, before);
      TurnRetried(l, n, before, Turns(l, n, before), attempts[|attempts| - 1]);
      assert attempts == before + [attempts[|attempts| - 1]];
    }
  }

  /** The numbers of a request are new to its stream: they begin above all earlier ones and
      never fall. */
  lemma {:induction false} NumbersRise(l: Loop, n: nat, attempts: seq<Attempt>, m: Loop, i: nat, j: nat)
    requires n > 0 && Retried(l, n, attempts, m) && i <= j < |m.tries|
    ensures l.seqno <= m.tries[i].seqno <= m.tries[j].seqno
    decreases j
  {
    if j > 0 {
      assert Follows(m.tries, attempts, n, j - 1);
      NumbersRise(l, n, attempts, m, if i == j then i - 1 else i, j - 1);
    }
  }

  lemma {:induction false} ServersInRange(l: Loop, n: nat, attempts: seq<Attempt>, m: Loop, i: nat)
    requires n > 0 && Retried(l, n, attempts, m) && i < |m.tries|
    ensures m.tries[i].server < n
  {
    if i > 0 {
      ServersInRange(l, n, attempts, m, i - 1);
      assert Follows(m.tries, attempts, n, i - 1);
    }
  }

  lemma {:induction false} Rotates(l: Loop, n: nat, attempts: seq<Attempt>, m: Loop, i: nat, j: nat)
    requires n > 0 && Retried(l, n, attempts, m) && j < n && i + j < |m.tries| && AllFailed(attempts, i, i + j)
    ensures m.tries[i].server < n
    ensures m.tries[i + j].server == if m.tries[i].server + j < n then m.tries[i].server + j else m.tries[i].server + j - n
    decreases j
  {
    ServersInRange(l, n, attempts, m, i);
    if j > 0 {
      Rotates(l, n, attempts, m, i, j - 1);
      assert Failed(attempts[i + j - 1]);
      assert Follows(m.tries, attempts, n, i + j - 1);
    }
  }

  /** Every server was asked among `n` calls in a row that all failed. */
  lemma EveryServerAsked(l: Loop, n: nat, attempts: seq<Attempt>, m: Loop, i: nat, server: nat) returns (j: nat)
    requires n > 0 && Retried(l, n, attempts, m) && server < n && i + n <= |m.tries| && AllFailed(attempts, i, i + n)
    ensures i <= j < i + n && m.tries[j].server == server
  {
    ServersInRange(l, n, attempts, m, i);
    var first := m.tries[i].server;
    var d := if server >= first then server - first else server + n - first;
    Rotates(l, n, attempts, m, i, d);
    j := i + d;
  }

  /** A request gives up only when the session is closed and its last `n` calls have failed at
      every one of the `n` servers. */
  lemma GivesUpOnlyAfterAll(l: Loop, n: nat, attempts: seq<Attempt>, server: nat) returns (j: nat)
    requires n > 0 && l.tries == [] && l.outcome == Open && l.left == n && server < n
    requires var m := Turns(l, n, attempts); m.outcome.Result? && 0 < |m.tries| <= |attempts| && Failed(attempts[|m.tries| - 1])
    ensures var m := Turns(l, n, attempts);
      && m.outcome.result == Terminated && attempts[|m.tries| - 1].closed
      && |m.tries| - n <= j < |m.tries| && m.tries[j].server == server && Failed(attempts[j])
  {
    RetryOk(l, n, attempts);
    var m := Turns(l, n, attempts);
    j := EveryServerAsked(l, n, attempts, m, |m.tries| - n, server);
  }

  lemma {:induction false} FailsOn(l: Loop, n: nat, attempts: seq<Attempt>)
    requires n > 0 && l.outcome == Open && l.left == n && |attempts| < n && AllFailed(attempts, 0, |attempts|)
    ensures var m := Turns(l, n, attempts);
      m.outcome == Open && m.left == n - |attempts| && m.leader == l.leader + |attempts| && m.seqno == l.seqno
  {
    if attempts != [] {
      var before := attempts[..|attempts| - 1];
      assert Failed(attempts[|attempts| - 1]) && AllFailed(before, 0, |before|);
      FailsOn(l, n, before);
    }
  }

  /** A full round of failures ends a closed session's request, and a request of an open session
      goes on from the server after, with a full round before it. */
  lemma FullRoundFails(l: Loop, n: nat, attempts: seq<Attempt>)
    requires n > 0 && l.outcome == Open && l.left == n && |attempts| == n && AllFailed(attempts, 0, n)
    ensures var m := Turns(l, n, attempts);
      && m.outcome == (if attempts[n - 1].closed then Result(Terminated) else Open)
      && m.left == n && m.leader == l.leader + n && m.seqno == l.seqno
  {
    assert Failed(attempts[n - 1]) && AllFailed(attempts[..n - 1], 0, n - 1);
    FailsOn(l, n, attempts[..n - 1]);
  }
}
