/** Revocation over every run of the lock service (checkLease and revoke in
    src/paxosserver/ticker.go, checkLeaseL in src/raftserver/ticker.go): servers look at the
    leases of some applied prefix, at some time, and put revocations in the log later. */
module LockLeases {
  import opened Session
  import opened LockTable

  /** A server that had applied `seen` entries found the lease of `op` out at time `now`. */
  datatype Look = Look(op: Op, seen: nat, now: int)

  datatype Service = Service(log: seq<Payload>, looks: set<Look>)

  datatype Step = Client(p: Payload) | CheckLease(op: Op, seen: nat, now: int) | Start(look: Look)

  predicate IsRevoke(p: Payload) {
    p.Request? && p.op.code == Revoke
  }

  ghost predicate StepOk(c: Service, c': Service, step: Step) {
    match step
    case Client(p) => !IsRevoke(p) && c' == c.(log := c.log + [p])
    case CheckLease(op, seen, now) =>
      && seen <= |c.log| && Expired(ApplyAll(EMPTY, c.log[..seen]), op, now)
      && c' == c.(looks := c.looks + {Look(op, seen, now)})
    case Start(look) => look in c.looks && c' == c.(log := c.log + [Request(look.op)])
  }

  ghost predicate Next(c: Service, c': Service) {
    exists step :: StepOk(c, c', step)
  }

  ghost predicate Linked(run: seq<Service>, i: nat) {
    i + 1 < |run| ==> Next(run[i], run[i + 1])
  }

  ghost predicate Run(run: seq<Service>) {
    && run != [] && run[0] == Service([], {})
    && forall i: nat {:trigger Linked(run, i)} :: Linked(run, i)
  }

  ghost predicate LookOk(log: seq<Payload>, look: Look) {
    look.seen <= |log| && Expired(ApplyAll(EMPTY, log[..look.seen]), look.op, look.now)
  }

  /** The revocation at `k` was started by a server that had looked before. */
  ghost predicate Founded(c: Service, k: nat) {
    exists look :: look in c.looks && k < |c.log| && c.log[k] == Request(look.op) && look.seen <= k
  }

  ghost predicate Inv(c: Service) {
    && (forall look | look in c.looks :: LookOk(c.log, look))
    && (forall k: nat {:trigger IsRevoke(c.log[k])} | k < |c.log| && IsRevoke(c.log[k]) :: Founded(c, k))
  }

  lemma StepKeeps(c: Service, c': Service, step: Step)
    requires Inv(c) && StepOk(c, c', step)
    ensures Inv(c')
  {
    forall look | look in c'.looks ensures LookOk(c'.log, look) {
      if look in c.looks {
        assert LookOk(c.log, look);
        assert c'.log[..look.seen] == c.log[..look.seen];
      }
    }
    forall k: nat | k < |c'.log| && IsRevoke(c'.log[k]) ensures Founded(c', k) {
      if k < |c.log| {
        assert IsRevoke(c.log[k]) && Founded(c, k);
        var look :| look in c.looks && k < |c.log| && c.log[k] == Request(look.op) && look.seen <= k;
        assert look in c'.looks;
      } else {
        assert LookOk(c.log, step.look) && step.look in c'.looks;
      }
    }
  }

  lemma {:induction false} RunKeeps(run: seq<Service>, i: nat)
    requires Run(run) && i < |run|
    ensures Inv(run[i])
  {
    if i > 0 {
      RunKeeps(run, i - 1);
      assert Linked(run, i - 1);
      var step :| StepOk(run[i - 1], run[i], step);
      StepKeeps(run[i - 1], run[i], step);
    }
  }

  /** In every run, a revocation takes effect only on the lease current at that point, and
      some server had found that very lease out by more than the grace period, on the same
      holder, in a prefix of the log before it. */
  lemma RevokedOnlyExpired(run: seq<Service>, i: nat, k: nat) returns (look: Look)
    requires Run(run) && i < |run| && k < |run[i].log| && IsRevoke(run[i].log[k])
    requires var t := ApplyAll(EMPTY, run[i].log[..k]); Apply(t, run[i].log[k]) != t
    ensures look in run[i].looks && look.seen <= k
    ensures var op, t := run[i].log[k].op, ApplyAll(EMPTY, run[i].log[..k]);
      && op.path in t.files && t.files[op.path] == File(op.sessid, op.lease)
      && t.files[op.path].lease + GRACE_PERIOD < look.now
      && Expired(ApplyAll(EMPTY, run[i].log[..look.seen]), op, look.now)
  {
    RunKeeps(run, i);
    var c := run[i];
    assert Founded(c, k);
    look :| look in c.looks && k < |c.log| && c.log[k] == Request(look.op) && look.seen <= k;
    assert LookOk(c.log, look);
  }

  // ----------------------------------------------------------------- renewals

  /** If `a` holds `path` at all, then with a lease past `lease`. */
  ghost predicate Above(t: Tables, path: string, a: int, lease: int) {
    path in t.files && t.files[path].sessid == a ==> t.files[path].lease > lease
  }

  /** An operation that gives out a lease on `path` gives one past `lease`. */
  ghost predicate RenewsAbove(p: Payload, path: string, lease: int) {
    p.Request? && p.op.path == path && (p.op.code == Extend || p.op.code == Acquire) ==> p.op.lease > lease
  }

  lemma AboveStays(t: Tables, p: Payload, path: string, a: int, lease: int)
    requires a != FREE && Above(t, path, a, lease) && RenewsAbove(p, path, lease)
    ensures Above(Apply(t, p), path, a, lease)
  {
  }

  lemma {:induction false} AboveThroughout(log: seq<Payload>, e: nat, k: nat, path: string, a: int, lease: int)
    requires e <= k <= |log| && a != FREE && Above(ApplyAll(EMPTY, log[..e]), path, a, lease)
    requires forall j | e <= j < k :: RenewsAbove(log[j], path, lease)
    ensures Above(ApplyAll(EMPTY, log[..k]), path, a, lease)
    decreases k
  {
    if e < k {
      AboveThroughout(log, e, k - 1, path, a, lease);
      ApplyNext(EMPTY, log, k - 1);
      assert RenewsAbove(log[k - 1], path, lease);
      AboveStays(ApplyAll(EMPTY, log[..k - 1]), log[k - 1], path, a, lease);
    }
  }

  /** In every run: a revocation that a server started on the strength of a look changes nothing, if
      after the look an extend took effect, and it and every lease given out on that path since
      lie past the lease that was seen; whoever released, removed or acquired in between. */
  lemma RenewedSurvives(run: seq<Service>, i: nat, look: Look, e: nat, k: nat)
    requires Run(run) && i < |run| && look in run[i].looks && look.seen <= e < k < |run[i].log|
    requires run[i].log[k] == Request(look.op)
    requires var t := ApplyAll(EMPTY, run[i].log[..e]);
      FreshOn(t, run[i].log[e], look.op.path, Extend) && Holder(t, look.op.path) == look.op.sessid == Pair(run[i].log[e].op.sessid)
    requires forall j | e <= j < k :: RenewsAbove(run[i].log[j], look.op.path, look.op.lease)
    ensures var t := ApplyAll(EMPTY, run[i].log[..k]); Apply(t, run[i].log[k]) == t
  {
    RunKeeps(run, i);
    assert LookOk(run[i].log, look);
    var log, op := run[i].log, look.op;
    assert RenewsAbove(log[e], op.path, op.lease);
    ApplyNext(EMPTY, log, e);
    AboveThroughout(log, e + 1, k, op.path, op.sessid, op.lease);
  }
}
