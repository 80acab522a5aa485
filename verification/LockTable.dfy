/** The replicated lock state machine (src/paxosserver/applier.go and src/raftserver/applier.go,
    which agree): the tables of files and sessions, and what each operation does to them. */
module LockTable {
  import opened Session

  datatype Tables = Tables(files: map<string, File>, sessions: map<int, int>)

  const EMPTY := Tables(map[], map[])

  /** The last sequence number seen on a stream; a missing entry reads as 0. */
  function Seen(t: Tables, sessid: int): int {
    if sessid in t.sessions then t.sessions[sessid] else 0
  }

  function Update(t: Tables, sessid: int, seqno: int): Tables {
    if seqno > Seen(t, sessid) then t.(sessions := t.sessions[sessid := seqno]) else t
  }

  /** An operation of a client stream, as opposed to a revocation or an unknown code. */
  predicate FromClient(op: Op) {
    !op.code.Revoke? && !op.code.Unknown?
  }

  /** What an operation that is carried out does to the files. */
  function Effect(files: map<string, File>, op: Op): map<string, File> {
    if op.path !in files then
      if op.code == Create then files[op.path := File(FREE, 0)] else files
    else
      var file := files[op.path];
      match op.code
      case Create => files
      case Remove => if file.sessid == FREE then files - {op.path} else files
      case Acquire =>
        if file.sessid == FREE then files[op.path := File(op.sessid, op.lease)]
        else if file.sessid == op.sessid && file.lease < op.lease then files[op.path := file.(lease := op.lease)]
        else files
      case Release =>
        if file.sessid == op.sessid || file.sessid == Pair(op.sessid) then files[op.path := file.(sessid := FREE)] else files
      case Extend => if file.sessid == Pair(op.sessid) then files[op.path := file.(lease := op.lease)] else files
      case Revoke =>
        if file.sessid == op.sessid && file.lease == op.lease then files[op.path := file.(sessid := FREE)] else files
      case Unknown(_) => files
  }

  /** One decided payload: a stale request is dropped, a revocation is never stale. */
  function Apply(t: Tables, p: Payload): Tables {
    if !p.Request? || p.op.code.Unknown? then t
    else if p.op.code.Revoke? then t.(files := Effect(t.files, p.op))
    else if p.op.seqno <= Seen(t, p.op.sessid) then t
    else Update(t.(files := Effect(t.files, p.op)), p.op.sessid, p.op.seqno)
  }

  function ApplyAll(t: Tables, log: seq<Payload>): Tables {
    if log == [] then t else Apply(ApplyAll(t, log[..|log| - 1]), log[|log| - 1])
  }

  lemma ApplyNext(t: Tables, log: seq<Payload>, k: nat)
    requires k < |log|
    ensures ApplyAll(t, log[..k + 1]) == Apply(ApplyAll(t, log[..k]), log[k])
  {
    assert log[..k + 1][..k] == log[..k];
  }

  lemma {:induction false} ApplyAppend(t: Tables, a: seq<Payload>, b: seq<Payload>)
    ensures ApplyAll(ApplyAll(t, a), b) == ApplyAll(t, a + b)
  {
    if b == [] {
      assert a + b == a;
    } else {
      assert (a + b)[..|a + b| - 1] == a + b[..|b| - 1];
      ApplyAppend(t, a, b[..|b| - 1]);
    }
  }

  // ------------------------------------------------------ exactly-once effect

  /** Entry `k` is the first of its stream with so high a number: an earlier entry of the
      same stream has a smaller one. It says nothing of tables. */
  predicate FirstFresh(log: seq<Payload>, k: nat)
    requires k < |log|
  {
    && log[k].Request? && FromClient(log[k].op) && log[k].op.seqno > 0
    && forall j | 0 <= j < k && SameStream(log, j, log[k].op.sessid) :: log[j].op.seqno < log[k].op.seqno
  }

  predicate SameStream(log: seq<Payload>, j: nat, sessid: int)
    requires j < |log|
  {
    log[j].Request? && FromClient(log[j].op) && log[j].op.sessid == sessid
  }

  predicate Counts(log: seq<Payload>, k: nat)
    requires k < |log|
  {
    (log[k].Request? && log[k].op.code.Revoke?) || FirstFresh(log, k)
  }

  /** The operations that count, in order: first-fresh client operations and revocations. */
  function Effective(log: seq<Payload>): (ops: seq<Op>)
  {
    if log == [] then []
    else
      var last := |log| - 1;
      Effective(log[..last]) + if Counts(log, last) then [log[last].op] else []
  }

  /** The files after carrying out all of `ops`, with no look at sequence numbers. */
  function Replay(files: map<string, File>, ops: seq<Op>): map<string, File> {
    if ops == [] then files else Effect(Replay(files, ops[..|ops| - 1]), ops[|ops| - 1])
  }

  /** The session table holds, for each stream, the highest number in the log (or 0). */
  lemma {:induction false} SeenIsHighest(log: seq<Payload>, sessid: int)
    ensures var t := ApplyAll(EMPTY, log);
      && Seen(t, sessid) >= 0
      && (forall j | 0 <= j < |log| && SameStream(log, j, sessid) :: log[j].op.seqno <= Seen(t, sessid))
      && (Seen(t, sessid) > 0 ==> exists j :: 0 <= j < |log| && SameStream(log, j, sessid) && log[j].op.seqno == Seen(t, sessid))
  {
    if log != [] {
      var last := |log| - 1;
      var before := log[..last];
      SeenIsHighest(before, sessid);
      var t, t' := ApplyAll(EMPTY, before), ApplyAll(EMPTY, log);
      forall j | 0 <= j < |log| && SameStream(log, j, sessid) ensures log[j].op.seqno <= Seen(t', sessid) {
        if j < last { assert SameStream(before, j, sessid); }
      }
      if Seen(t', sessid) > 0 {
        if Seen(t', sessid) != Seen(t, sessid) {
          assert SameStream(log, last, sessid) && log[last].op.seqno == Seen(t', sessid);
        } else {
          var j :| 0 <= j < |before| && SameStream(before, j, sessid) && before[j].op.seqno == Seen(t, sessid);
          assert SameStream(log, j, sessid) && log[j].op.seqno == Seen(t', sessid);
        }
      }
    }
  }

  /** The stale check of the code is exactly first-freshness in the log. */
  lemma FreshIffFirst(log: seq<Payload>, k: nat)
    requires k < |log| && log[k].Request? && FromClient(log[k].op)
    ensures log[k].op.seqno > Seen(ApplyAll(EMPTY, log[..k]), log[k].op.sessid) <==> FirstFresh(log, k)
  {
    var op, before := log[k].op, log[..k];
    var seen := Seen(ApplyAll(EMPTY, before), op.sessid);
    SeenIsHighest(before, op.sessid);
    if op.seqno > seen {
      forall j | 0 <= j < k && SameStream(log, j, op.sessid) ensures log[j].op.seqno < op.seqno {
        assert SameStream(before, j, op.sessid);
      }
    } else if seen > 0 {
      var j :| 0 <= j < |before| && SameStream(before, j, op.sessid) && before[j].op.seqno == seen;
      assert SameStream(log, j, op.sessid);
    }
  }

  lemma ReplaySnoc(files: map<string, File>, ops: seq<Op>, op: Op)
    ensures Replay(files, ops + [op]) == Effect(Replay(files, ops), op)
  {
    assert (ops + [op])[..|ops|] == ops;
  }

  lemma CountsPrefix(log: seq<Payload>, k: nat)
    requires k < |log|
    ensures Counts(log[..k + 1], k) <==> Counts(log, k)
  {
  }

  /** What the last entry does to the files, given those before it: all of its effect if it
      counts, and nothing otherwise. */
  lemma LastEntry(log: seq<Payload>)
    requires log != []
    ensures var k := |log| - 1;
      var t := ApplyAll(EMPTY, log[..k]);
      Apply(t, log[k]).files == if Counts(log, k) then Effect(t.files, log[k].op) else t.files
  {
    var k := |log| - 1;
    if log[k].Request? && FromClient(log[k].op) { FreshIffFirst(log, k); }
  }

  lemma EffectiveNext(log: seq<Payload>)
    requires log != []
    ensures var k := |log| - 1;
      Effective(log) == if Counts(log, k) then Effective(log[..k]) + [log[k].op] else Effective(log[..k])
  {
  }

  /** Exactly-once effect: for every log, with repeats and late arrivals, the files are those
      of carrying out once each operation that counts. */
  lemma {:induction false} ExactlyOnce(log: seq<Payload>)
    ensures ApplyAll(EMPTY, log).files == Replay(map[], Effective(log))
  {
    if log != [] {
      var k := |log| - 1;
      ExactlyOnce(log[..k]);
      LastEntry(log);
      EffectiveNext(log);
      if Counts(log, k) { ReplaySnoc(map[], Effective(log[..k]), log[k].op); }
    }
  }

  predicate OnceEach(ops: seq<Op>) {
    forall i, j | 0 <= i < j < |ops| && FromClient(ops[i]) && FromClient(ops[j]) && ops[i].sessid == ops[j].sessid ::
      ops[i].seqno < ops[j].seqno
  }

  /** Every operation that counts stands in the log. */
  lemma {:induction false} EffectiveFrom(log: seq<Payload>, i: nat) returns (k: nat)
    requires i < |Effective(log)|
    ensures k < |log| && log[k] == Request(Effective(log)[i]) && Counts(log, k)
  {
    var last := |log| - 1;
    if i < |Effective(log[..last])| {
      k := EffectiveFrom(log[..last], i);
      CountsPrefix(log, k);
      assert log[..last][..k + 1] == log[..k + 1];
      CountsPrefix(log[..last], k);
    } else {
      k := last;
    }
  }

  /** Among them no (session, number) pair occurs twice: the numbers of a stream rise. */
  lemma {:induction false} EffectiveOnce(log: seq<Payload>)
    ensures OnceEach(Effective(log))
  {
    if log != [] {
      var last := |log| - 1;
      var before := Effective(log[..last]);
      EffectiveOnce(log[..last]);
      if Counts(log, last) {
        forall i | 0 <= i < |before| && FromClient(before[i]) && FromClient(log[last].op) && before[i].sessid == log[last].op.sessid
          ensures before[i].seqno < log[last].op.seqno
        {
          var k := EffectiveFrom(log[..last], i);
          assert SameStream(log, k, log[last].op.sessid);
        }
      }
    }
  }

  function Requests(ops: seq<Op>): (log: seq<Payload>)
    ensures |log| == |ops| && forall i | 0 <= i < |ops| :: log[i] == Request(ops[i])
  {
    seq(|ops|, i requires 0 <= i < |ops| => Request(ops[i]))
  }

  /** Both tables are those of the operations that count alone. */
  lemma {:induction false} EffectiveSuffices(log: seq<Payload>)
    ensures ApplyAll(EMPTY, Requests(Effective(log))) == ApplyAll(EMPTY, log)
  {
    if log != [] {
      var last := |log| - 1;
      var before := Effective(log[..last]);
      EffectiveSuffices(log[..last]);
      assert Effective(log) == if Counts(log, last) then before + [log[last].op] else before;
      if log[last].Request? && FromClient(log[last].op) { FreshIffFirst(log, last); }
      if Counts(log, last) {
        var kept := Requests(Effective(log));
        assert kept[..|before|] == Requests(before) && kept[|before|] == log[last];
      }
    }
  }

  /** A log with its repeats and late arrivals removed gives the same tables. */
  lemma {:induction false} DropStale(log: seq<Payload>, k: nat)
    requires k < |log| && !Counts(log, k)
    ensures ApplyAll(EMPTY, log[..k] + log[k + 1..]) == ApplyAll(EMPTY, log)
    decreases |log|
  {
    var last := |log| - 1;
    var short := log[..k] + log[k + 1..];
    if k == last {
      assert short == log[..last];
      if log[k].Request? && FromClient(log[k].op) { FreshIffFirst(log, k); }
    } else {
      CountsPrefix(log, k);
      CountsPrefix(log[..last], k);
      assert log[..last][..k + 1] == log[..k + 1];
      assert short[..|short| - 1] == log[..last][..k] + log[..last][k + 1..];
      DropStale(log[..last], k);
    }
  }

  // ------------------------------------------------------------ lock exclusion

  /** Who holds `path` (FREE for nobody, also when the file does not exist). */
  function Holder(t: Tables, path: string): int {
    if path in t.files then t.files[path].sessid else FREE
  }

  /** `p` takes `path` away from its holder `a`: an effective release by one of the holder's
      two streams, or a revocation that names the holder and the exact current lease. */
  predicate Frees(t: Tables, p: Payload, path: string, a: int) {
    && p.Request? && p.op.path == path && path in t.files && t.files[path].sessid == a
    && ( || (p.op.code == Release && p.op.seqno > Seen(t, p.op.sessid) && (a == p.op.sessid || a == Pair(p.op.sessid)))
         || (p.op.code == Revoke && p.op.sessid == a && p.op.lease == t.files[path].lease))
  }

  /** A fresh acquire by `b` of a free file. */
  predicate Takes(t: Tables, p: Payload, path: string, b: int) {
    && p.Request? && p.op.path == path && p.op.code == Acquire && p.op.sessid == b
    && path in t.files && t.files[path].sessid == FREE && p.op.seqno > Seen(t, b)
  }

  /** A held lock changes hands in no step: it is freed, exactly by what Frees describes. A free
      one is taken exactly by what Takes describes, with the lease that the acquire asks for. */
  lemma HolderStep(t: Tables, p: Payload, path: string)
    ensures var a, b := Holder(t, path), Holder(Apply(t, p), path);
      && (a != FREE ==> b == (if Frees(t, p, path, a) then FREE else a))
      && (a == FREE && b != FREE ==> Takes(t, p, path, b))
    ensures forall b | Takes(t, p, path, b) :: path in Apply(t, p).files && Apply(t, p).files[path] == File(b, p.op.lease)
  {
  }

  ghost predicate FreedBetween(log: seq<Payload>, i: nat, j: nat, path: string, a: int) {
    exists k: nat :: i <= k < j <= |log| && Frees(ApplyAll(EMPTY, log[..k]), log[k], path, a)
  }

  /** Lock exclusion: whoever held a path and later does not was released or revoked in between. */
  lemma {:induction false} Exclusion(log: seq<Payload>, i: nat, j: nat, path: string)
    requires i <= j <= |log|
    ensures var a := Holder(ApplyAll(EMPTY, log[..i]), path);
      a != FREE && Holder(ApplyAll(EMPTY, log[..j]), path) != a ==> FreedBetween(log, i, j, path, a)
    decreases j
  {
    var a := Holder(ApplyAll(EMPTY, log[..i]), path);
    if i < j && a != FREE && Holder(ApplyAll(EMPTY, log[..j]), path) != a {
      var t := ApplyAll(EMPTY, log[..j - 1]);
      if Holder(t, path) != a {
        Exclusion(log, i, j - 1, path);
        var k: nat :| i <= k < j - 1 <= |log| && Frees(ApplyAll(EMPTY, log[..k]), log[k], path, a);
      } else {
        ApplyNext(EMPTY, log, j - 1);
        HolderStep(t, log[j - 1], path);
        assert Frees(ApplyAll(EMPTY, log[..j - 1]), log[j - 1], path, a);
      }
    }
  }

  /** Whoever holds a path and earlier did not has acquired it in between, when it was free. */
  lemma {:induction false} TakenBetween(log: seq<Payload>, i: nat, j: nat, path: string) returns (taken: nat)
    requires i <= j <= |log| && Holder(ApplyAll(EMPTY, log[..j]), path) != FREE
    requires Holder(ApplyAll(EMPTY, log[..i]), path) != Holder(ApplyAll(EMPTY, log[..j]), path)
    ensures i <= taken < j && Takes(ApplyAll(EMPTY, log[..taken]), log[taken], path, Holder(ApplyAll(EMPTY, log[..j]), path))
    decreases j
  {
    var t := ApplyAll(EMPTY, log[..j - 1]);
    ApplyNext(EMPTY, log, j - 1);
    HolderStep(t, log[j - 1], path);
    if Holder(t, path) == Holder(ApplyAll(EMPTY, log[..j]), path) {
      taken := TakenBetween(log, i, j - 1, path);
    } else {
      taken := j - 1;
    }
  }

  /** A handover from `a` to `b`: freed from `a` first, taken by `b` afterwards. */
  lemma Handover(log: seq<Payload>, i: nat, j: nat, path: string) returns (freed: nat, taken: nat)
    requires i <= j <= |log|
    requires Holder(ApplyAll(EMPTY, log[..i]), path) != FREE && Holder(ApplyAll(EMPTY, log[..j]), path) != FREE
    requires Holder(ApplyAll(EMPTY, log[..i]), path) != Holder(ApplyAll(EMPTY, log[..j]), path)
    ensures i <= freed < taken < j
    ensures Frees(ApplyAll(EMPTY, log[..freed]), log[freed], path, Holder(ApplyAll(EMPTY, log[..i]), path))
    ensures Takes(ApplyAll(EMPTY, log[..taken]), log[taken], path, Holder(ApplyAll(EMPTY, log[..j]), path))
  {
    taken := TakenBetween(log, i, j, path);
    Exclusion(log, i, taken, path);
    freed :| i <= freed < taken <= |log| && Frees(ApplyAll(EMPTY, log[..freed]), log[freed], path, Holder(ApplyAll(EMPTY, log[..i]), path));
  }

  /** `b` took `path` with entry `k` of the log and nothing has freed it since. */
  ghost predicate HoldsSince(log: seq<Payload>, k: nat, path: string, b: int) {
    && b != FREE && k < |log| && Takes(ApplyAll(EMPTY, log[..k]), log[k], path, b)
    && forall j: nat | k < j < |log| :: !Frees(ApplyAll(EMPTY, log[..j]), log[j], path, b)
  }

  /** Who holds a lock after a log: `b` does if and only if it took the path when it was free and
      was neither released nor revoked since. */
  lemma {:induction false} HolderIff(log: seq<Payload>, path: string, b: int)
    requires b != FREE
    ensures Holder(ApplyAll(EMPTY, log), path) == b <==> exists k: nat :: HoldsSince(log, k, path, b)
  {
    assert log[..|log|] == log;
    if Holder(ApplyAll(EMPTY, log), path) == b {
      var k := SinceTaken(log, path);
    }
    if k: nat :| HoldsSince(log, k, path, b) {
      KeptSince(log, k, path, b, |log|);
    }
  }

  lemma {:induction false} SinceTaken(log: seq<Payload>, path: string) returns (k: nat)
    requires Holder(ApplyAll(EMPTY, log), path) != FREE
    ensures HoldsSince(log, k, path, Holder(ApplyAll(EMPTY, log), path))
  {
    var last, b := |log| - 1, Holder(ApplyAll(EMPTY, log), path);
    var before := log[..last];
    HolderStep(ApplyAll(EMPTY, before), log[last], path);
    if Holder(ApplyAll(EMPTY, before), path) == b {
      k := SinceTaken(before, path);
      assert before[..k] == log[..k];
      forall j: nat | k < j < |log| ensures !Frees(ApplyAll(EMPTY, log[..j]), log[j], path, b) {
        if j < last { assert before[..j] == log[..j] && before[j] == log[j]; }
      }
    } else {
      k := last;
    }
  }

  lemma {:induction false} KeptSince(log: seq<Payload>, k: nat, path: string, b: int, j: nat)
    requires HoldsSince(log, k, path, b) && k < j <= |log|
    ensures Holder(ApplyAll(EMPTY, log[..j]), path) == b
    decreases j
  {
    ApplyNext(EMPTY, log, j - 1);
    HolderStep(ApplyAll(EMPTY, log[..j - 1]), log[j - 1], path);
    if k < j - 1 { KeptSince(log, k, path, b, j - 1); }
  }

  /** A fresh operation `code` of a client on `path`. */
  predicate FreshOn(t: Tables, p: Payload, path: string, code: Opcode) {
    p.Request? && p.op.path == path && p.op.code == code && p.op.seqno > Seen(t, p.op.sessid)
  }

  /** Files come only by a fresh create, free and without a lease, and go only by a fresh remove of
      a free file, so a held lock is never removed. A file keeps its lease while it is free and when
      it is freed, but for operations of the stream whose number stands for nobody. */
  lemma FileStep(t: Tables, p: Payload, path: string)
    ensures path !in t.files && path in Apply(t, p).files <==> path !in t.files && FreshOn(t, p, path, Create)
    ensures path in t.files && path !in Apply(t, p).files <==>
              path in t.files && t.files[path].sessid == FREE && FreshOn(t, p, path, Remove)
    ensures path !in t.files && path in Apply(t, p).files ==> Apply(t, p).files[path] == File(FREE, 0)
    ensures path in t.files && path in Apply(t, p).files && Holder(Apply(t, p), path) == FREE ==>
              Apply(t, p).files[path].lease == t.files[path].lease || (p.Request? && (p.op.sessid == FREE || Pair(p.op.sessid) == FREE))
  {
  }

  /** Nothing happens to a free file but refused, stale or foreign operations. */
  ghost predicate LeftFree(log: seq<Payload>, j: nat, path: string) {
    j < |log| ==>
      var t := ApplyAll(EMPTY, log[..j]);
      !FreshOn(t, log[j], path, Acquire) && !FreshOn(t, log[j], path, Remove)
  }

  lemma {:induction false} StaysFree(log: seq<Payload>, i: nat, k: nat, path: string)
    requires i <= k <= |log| && path in ApplyAll(EMPTY, log[..i]).files && Holder(ApplyAll(EMPTY, log[..i]), path) == FREE
    requires forall j: nat | i <= j < k :: LeftFree(log, j, path)
    ensures path in ApplyAll(EMPTY, log[..k]).files && Holder(ApplyAll(EMPTY, log[..k]), path) == FREE
    decreases k
  {
    if i < k {
      StaysFree(log, i, k - 1, path);
      var t := ApplyAll(EMPTY, log[..k - 1]);
      ApplyNext(EMPTY, log, k - 1);
      assert LeftFree(log, k - 1, path);
      FileStep(t, log[k - 1], path);
      HolderStep(t, log[k - 1], path);
    }
  }

  /** First come, first served: once a path exists and is free, the first fresh acquire in the log
      holds it, with the lease it asked for. */
  lemma FirstAcquireHolds(log: seq<Payload>, i: nat, k: nat, path: string)
    requires i <= k < |log| && path in ApplyAll(EMPTY, log[..i]).files && Holder(ApplyAll(EMPTY, log[..i]), path) == FREE
    requires forall j: nat | i <= j < k :: LeftFree(log, j, path)
    requires FreshOn(ApplyAll(EMPTY, log[..k]), log[k], path, Acquire)
    ensures var files := ApplyAll(EMPTY, log[..k + 1]).files;
      path in files && files[path] == File(log[k].op.sessid, log[k].op.lease)
  {
    StaysFree(log, i, k, path);
    ApplyNext(EMPTY, log, k);
    HolderStep(ApplyAll(EMPTY, log[..k]), log[k], path);
    assert Takes(ApplyAll(EMPTY, log[..k]), log[k], path, log[k].op.sessid);
  }

  // ------------------------------------------------------------------- leases

  /** While a lock stays with its holder its lease changes only by a fresh extend from the
      paired stream, to any value, or by a fresh acquire of the holder, upwards. */
  lemma LeaseStep(t: Tables, p: Payload, path: string)
    ensures var t' := Apply(t, p);
      path in t.files && path in t'.files && t'.files[path].sessid == t.files[path].sessid != FREE ==>
        var a, was, now := t.files[path].sessid, t.files[path].lease, t'.files[path].lease;
        now == if FreshOn(t, p, path, Extend) && Pair(p.op.sessid) == a then p.op.lease
                else if FreshOn(t, p, path, Acquire) && p.op.sessid == a && p.op.lease > was then p.op.lease
                else was
  {
  }

  ghost predicate HeldThroughout(log: seq<Payload>, i: nat, j: nat, path: string, a: int) {
    a != FREE && forall k: nat | i <= k <= j && k <= |log| :: Holder(ApplyAll(EMPTY, log[..k]), path) == a
  }

  /** Over any stretch of a log in which a lock stays with its holder, a lease that fell was
      lowered by a fresh extend from the paired stream. */
  lemma {:induction false} LeaseFallsByExtend(log: seq<Payload>, i: nat, j: nat, path: string, a: int) returns (k: nat)
    requires i <= j <= |log| && HeldThroughout(log, i, j, path, a)
    requires path in ApplyAll(EMPTY, log[..i]).files && path in ApplyAll(EMPTY, log[..j]).files
    requires ApplyAll(EMPTY, log[..j]).files[path].lease < ApplyAll(EMPTY, log[..i]).files[path].lease
    ensures i <= k < j && FreshOn(ApplyAll(EMPTY, log[..k]), log[k], path, Extend) && Pair(log[k].op.sessid) == a
    decreases j
  {
    var t, t' := ApplyAll(EMPTY, log[..j - 1]), ApplyAll(EMPTY, log[..j]);
    ApplyNext(EMPTY, log, j - 1);
    assert Holder(t, path) == a && Holder(t', path) == a;
    LeaseStep(t, log[j - 1], path);
    if FreshOn(t, log[j - 1], path, Extend) && Pair(log[j - 1].op.sessid) == a {
      k := j - 1;
    } else {
      k := LeaseFallsByExtend(log, i, j - 1, path, a);
    }
  }

  /** A revocation that a server starts when it looks at the leases at time `now`. */
  ghost predicate Expired(t: Tables, op: Op, now: int) {
    && op.code == Revoke && op.seqno == 0
    && op.path in t.files && t.files[op.path] == File(op.sessid, op.lease) && op.sessid != FREE
    && op.lease + GRACE_PERIOD < now
  }
}
