/** All the peers of a Paxos cluster with their windows, over every run: what may be
    forgotten, what a retained slot keeps, and what the persister holds. */
module PaxosForgetting {
  import opened Session
  import opened PaxosInstance
  import opened PaxosWindow

  /** One locked section of a peer that looks at no other peer. */
  datatype Call =
    | Touch(s: int)
    | DoPrepare(s: int, ballot: nat)
    | DoAccept(s: int, ballot: nat, value: Payload)
    | DoDecide(s: int, value: Payload)
    | DoSettle(s: int, held: Inst, value: Payload)
    | DoBegin(s: int, held: Inst)
    | DoRaise(s: int, held: Inst, ballot: nat)
    | DoEnter(s: int, held: Inst, ballot: nat, value: Payload)

  ghost function Serve(w: Window, call: Call): Window {
    match call
    case Touch(s) => Get(w, s)
    case DoPrepare(s, ballot) => PrepareAt(w, s, ballot).0
    case DoAccept(s, ballot, value) => AcceptAt(w, s, ballot, value).0
    case DoDecide(s, value) => DecideAt(w, s, value)
    case DoSettle(s, i, value) => Settle(w, s, i, value)
    case DoBegin(s, i) => BeginAt(w, s, i)
    case DoRaise(s, i, ballot) => RaiseAt(w, s, i, ballot)
    case DoEnter(s, i, ballot, value) => EnterAt(w, s, i, ballot, value)
  }

  /** A goroutine that works on a slot holds its instance. */
  ghost predicate CallOk(w: Window, call: Call) {
    call.DoSettle? || call.DoBegin? || call.DoRaise? || call.DoEnter? ==> Held(w, call.s, call.held)
  }

  /** `passed[p]` is the highest number ever passed to Done on peer `p`, or -1; no step reads it. */
  datatype Peers = Peers(ws: seq<Window>, net: set<DoneReply>, passed: seq<int>)

  datatype Step =
    | Local(p: nat, call: Call)
    | CallDone(p: nat, s: int)
    | Answer(p: nat)
    | Ticker(p: nat, replies: seq<DoneReply>)
    | Restart(p: nat)

  ghost predicate Init(c: Peers, n: nat) {
    && |c.ws| == n && |c.passed| == n && c.net == {}
    && forall p | 0 <= p < n :: c.passed[p] == -1 && exists enable :: c.ws[p] == Load(Disk(0, []), n, p, enable)
  }

  ghost predicate StepOk(c: Peers, c': Peers, step: Step) {
    && step.p < |c.ws| == |c.passed| && c.ws[step.p].me < |c.ws[step.p].done|
    && var w := c.ws[step.p];
       match step
       case Local(p, call) => CallOk(w, call) && c' == c.(ws := c.ws[p := Serve(w, call)])
       case CallDone(p, s) => c' == c.(ws := c.ws[p := Done(w, s)], passed := c.passed[p := Larger(c.passed[p], s)])
       case Answer(p) => c' == c.(net := c.net + {Report(w)})
       case Ticker(p, replies) =>
         && (forall r | r in replies :: r == NO_DONE_REPLY || r in c.net)
         && c' == c.(ws := c.ws[p := Tick(w, replies)])
       case Restart(p) => c' == c.(ws := c.ws[p := Load(Save(w, true).disk, |c.ws|, p, w.enable)])
  }

  ghost predicate Next(c: Peers, c': Peers) {
    exists step :: StepOk(c, c', step)
  }

  ghost predicate Linked(run: seq<Peers>, i: nat) {
    i + 1 < |run| ==> Next(run[i], run[i + 1])
  }

  ghost predicate Run(run: seq<Peers>, n: nat) {
    && run != [] && Init(run[0], n)
    && forall i: nat {:trigger Linked(run, i)} :: Linked(run, i)
  }

  // --------------------------------------------------------------- invariant

  /** `done` is at most one more than the highest number passed to Done on peer `q`. */
  ghost predicate DoneBound(passed: seq<int>, done: nat, q: int) {
    0 <= q < |passed| ==> done <= passed[q] + 1
  }

  ghost predicate PeerOk(c: Peers, p: nat)
    requires p < |c.ws|
  {
    var w := c.ws[p];
    && w.me == p && |w.done| == |c.ws| && DiskOk(w) && BoundOk(c.passed, w)
  }

  ghost predicate BoundOk(passed: seq<int>, w: Window) {
    && (forall q | 0 <= q < |passed| :: w.start <= passed[q] + 1)
    && (forall q {:trigger w.done[q]} | 0 <= q < |w.done| :: DoneBound(passed, w.done[q], q))
  }

  ghost predicate Inv(c: Peers, n: nat) {
    && |c.ws| == n && |c.passed| == n
    && (forall p {:trigger PeerOk(c, p)} | 0 <= p < n :: PeerOk(c, p))
    && (forall q | 0 <= q < n :: c.passed[q] >= -1)
    && (forall r | r in c.net :: DoneBound(c.passed, r.done, r.srv))
  }

  /** A step of one peer that passes nothing to Done needs to look at that peer alone. */
  lemma OnlyPeer(c: Peers, c': Peers, n: nat, p: nat, w: Window)
    requires Inv(c, n) && p < n && c' == c.(ws := c.ws[p := w])
    requires w.me == p && |w.done| == n && DiskOk(w) && BoundOk(c.passed, w)
    ensures Inv(c', n)
  {
    forall q | 0 <= q < n ensures PeerOk(c', q) {
      if q != p { assert PeerOk(c, q); }
    }
  }

  lemma ServeKeeps(w: Window, call: Call)
    requires DiskOk(w) && CallOk(w, call)
    ensures var v := Serve(w, call); DiskOk(v) && v.me == w.me && v.start == w.start && v.done == w.done
  {
    match call
    case Touch(s) => GetKeepsDisk(w, s);
    case DoPrepare(s, ballot) => HandlersKeepDisk(w, s, ballot, Nil);
    case DoAccept(s, ballot, value) => HandlersKeepDisk(w, s, ballot, value);
    case DoDecide(s, value) => HandlersKeepDisk(w, s, 0, value);
    case DoSettle(s, i, value) => SettleKeepsDisk(w, s, i, value);
    case DoBegin(s, i) => ProposerKeepsDisk(w, s, i, 0, Nil);
    case DoRaise(s, i, ballot) => ProposerKeepsDisk(w, s, i, ballot, Nil);
    case DoEnter(s, i, ballot, value) => ProposerKeepsDisk(w, s, i, ballot, value);
  }

  ghost predicate GotOk(passed: seq<int>, got: seq<nat>) {
    forall q {:trigger got[q]} | 0 <= q < |got| :: DoneBound(passed, got[q], q)
  }

  lemma {:induction false} CollectBound(passed: seq<int>, replies: seq<DoneReply>, got: seq<nat>)
    requires GotOk(passed, got)
    requires forall j | 0 <= j < |replies| && replies[j].srv >= 0 :: DoneBound(passed, replies[j].done, replies[j].srv)
    ensures GotOk(passed, Collect(replies, got))
  {
    if replies != [] {
      var r := replies[0];
      var next := if 0 <= r.srv < |got| then got[r.srv := r.done] else got;
      assert GotOk(passed, next);
      CollectBound(passed, replies[1..], next);
    }
  }

  lemma TickKeepsBound(c: Peers, n: nat, p: nat, replies: seq<DoneReply>)
    requires Inv(c, n) && p < n && PeerOk(c, p)
    requires forall r | r in replies :: r == NO_DONE_REPLY || r in c.net
    ensures var v := Tick(c.ws[p], replies); BoundOk(c.passed, v) && |v.done| == n && v.me == p
  {
    var w := c.ws[p];
    var zeros := seq(n, _ => 0);
    assert GotOk(c.passed, zeros);
    CollectBound(c.passed, replies, zeros);
    var got := Collect(replies, zeros);
    MergedBound(c.passed, w.done, got);
    var merged := MergeDone(w.done, got);
    var low := Lowest(merged, w.done[p]);
    TrimKeeps(w.(done := merged), low, 0);
    LowestBound(c.passed, merged, w.start, low);
  }

  lemma MergedBound(passed: seq<int>, done: seq<nat>, got: seq<nat>)
    requires |done| == |got| && GotOk(passed, done) && GotOk(passed, got)
    ensures GotOk(passed, MergeDone(done, got))
  {
    var merged := MergeDone(done, got);
    forall q | 0 <= q < |merged| ensures DoneBound(passed, merged[q], q) {
      assert merged[q] == got[q] || merged[q] == done[q];
      assert DoneBound(passed, got[q], q) && DoneBound(passed, done[q], q);
    }
  }

  lemma LowestBound(passed: seq<int>, merged: seq<nat>, start: nat, low: nat)
    requires |passed| == |merged| && GotOk(passed, merged) && forall q | 0 <= q < |merged| :: low <= merged[q]
    requires forall q | 0 <= q < |passed| :: start <= passed[q] + 1
    ensures forall q | 0 <= q < |passed| :: Larger(start, low) <= passed[q] + 1
  {
    forall q | 0 <= q < |passed| ensures Larger(start, low) <= passed[q] + 1 {
      assert low <= merged[q] && DoneBound(passed, merged[q], q);
    }
  }

  lemma NextKeeps(c: Peers, c': Peers, n: nat, step: Step)
    requires Inv(c, n) && StepOk(c, c', step)
    ensures Inv(c', n)
  {
    var p := step.p;
    assert PeerOk(c, p);
    var w := c.ws[p];
    match step
    case Local(_, call) =>
      ServeKeeps(w, call);
      OnlyPeer(c, c', n, p, Serve(w, call));
    case CallDone(_, s) => DoneKeeps(c, c', n, p, s);
    case Answer(_) =>
      assert Report(w).done == w.done[p];
      forall q | 0 <= q < n ensures PeerOk(c', q) { assert PeerOk(c, q); }
    case Ticker(_, replies) =>
      TickKeepsDisk(w, replies);
      TickKeepsBound(c, n, p, replies);
      OnlyPeer(c, c', n, p, Tick(w, replies));
    case Restart(_) =>
      RestartExact(w, n, 0);
      OnlyPeer(c, c', n, p, Load(Save(w, true).disk, n, p, w.enable));
  }

  lemma DoneKeeps(c: Peers, c': Peers, n: nat, p: nat, s: int)
    requires Inv(c, n) && p < n && PeerOk(c, p)
    requires c' == c.(ws := c.ws[p := Done(c.ws[p], s)], passed := c.passed[p := Larger(c.passed[p], s)])
    ensures Inv(c', n)
  {
    forall q | 0 <= q < n ensures PeerOk(c', q) {
      assert PeerOk(c, q);
      var v := c'.ws[q];
      if q == p { SameSlots(c.ws[p], v); }
      forall r | 0 <= r < n ensures DoneBound(c'.passed, v.done[r], r) {
        assert DoneBound(c.passed, c.ws[q].done[r], r);
      }
    }
  }

  lemma InitOk(c: Peers, n: nat)
    requires Init(c, n)
    ensures Inv(c, n)
  {
  }

  lemma StepKeeps(run: seq<Peers>, n: nat, i: nat)
    requires Run(run, n) && i + 1 < |run| && Inv(run[i], n)
    ensures Inv(run[i + 1], n)
  {
    assert Linked(run, i);
    var step :| StepOk(run[i], run[i + 1], step);
    NextKeeps(run[i], run[i + 1], n, step);
  }

  lemma {:induction false} RunKeeps(run: seq<Peers>, n: nat, i: nat)
    requires Run(run, n) && i < |run|
    ensures Inv(run[i], n)
  {
    if i == 0 {
      InitOk(run[0], n);
    } else {
      RunKeeps(run, n, i - 1);
      StepKeeps(run, n, i - 1);
    }
  }

  // ---------------------------------------------------------------- theorems

  /** In every run, a slot is forgotten anywhere only after every peer passed a number at
      least as high to Done. */
  lemma ForgettingSafe(run: seq<Peers>, n: nat, i: nat, p: nat, q: nat, s: int)
    requires Run(run, n) && i < |run| && p < n && q < n
    ensures |run[i].ws| == n && |run[i].passed| == n
    ensures run[i].ws[p].start <= run[i].passed[q] + 1
    ensures s >= 0 && Status(run[i].ws[p], s).0 == Forgotten ==> s <= run[i].passed[q]
  {
    RunKeeps(run, n, i);
    assert PeerOk(run[i], p);
  }

  /** In every run, with an enabled persister, the persisted window agrees with memory. */
  lemma DiskAgrees(run: seq<Peers>, n: nat, i: nat, p: nat)
    requires Run(run, n) && i < |run| && p < n
    ensures |run[i].ws| == n && DiskOk(run[i].ws[p])
  {
    RunKeeps(run, n, i);
    assert PeerOk(run[i], p);
  }

  // ------------------------------------------------------- what a slot keeps

  /** A slot only moves forward: promises rise, and a decision is final. */
  ghost predicate Advances(i: Inst, j: Inst) {
    i.prepare <= j.prepare && (i.status == Decided ==> SameVote(i, j))
  }

  ghost predicate SlotAdvances(w: Window, v: Window, s: int) {
    Retained(w, s) && Retained(v, s) ==> Advances(At(w, s), At(v, s))
  }

  ghost predicate Moves(w: Window, v: Window) {
    && w.start <= v.start && Max(w) <= Max(v)
    && forall s {:trigger SlotAdvances(w, v, s)} :: SlotAdvances(w, v, s)
  }

  /** A write to a held instance that only moves it forward. */
  lemma PutMoves(w: Window, s: int, i: Inst, j: Inst, save: bool)
    requires Held(w, s, i) && Advances(i, j)
    ensures Moves(w, PutHeld(w, s, j, save))
  {
  }

  lemma GetMoves(w: Window, s: int)
    ensures Moves(w, Get(w, s))
  {
  }

  /** The two writes of a handler: the slot is opened, then its instance is replaced. */
  lemma HandlerMoves(w: Window, s: int, j: Inst, save: bool)
    requires s >= w.start && Advances(At(Get(w, s), s), j)
    ensures Moves(w, PutInst(Get(w, s), s, j, save))
  {
    GetMoves(w, s);
    PutMoves(Get(w, s), s, At(Get(w, s), s), j, save);
    MovesChain(w, Get(w, s), PutInst(Get(w, s), s, j, save));
  }

  lemma ServeMoves(w: Window, call: Call)
    requires CallOk(w, call)
    ensures Moves(w, Serve(w, call))
  {
    GetMoves(w, call.s);
    match call
    case DoPrepare(s, ballot) => if s >= w.start { HandlerMoves(w, s, Prepare(At(Get(w, s), s), ballot).0, false); }
    case DoAccept(s, ballot, value) =>
      if s >= w.start {
        var (i, answer) := Accept(At(Get(w, s), s), ballot, value);
        HandlerMoves(w, s, i, answer == ACCEPT_OK);
      }
    case DoDecide(s, value) =>
      if s >= w.start { HandlerMoves(w, s, Decide(At(Get(w, s), s), value), At(Get(w, s), s).status != Decided); SettleMark(w, s, value); }
    case DoSettle(s, i, value) =>
      PutMoves(w, s, i, Decide(i, value), i.status != Decided);
      SameSlotsMove(w, PutHeld(w, s, Decide(i, value), i.status != Decided), Settle(w, s, i, value));
    case DoBegin(s, i) => PutMoves(w, s, i, BeginRound(i), false);
    case DoRaise(s, i, ballot) => PutMoves(w, s, i, Raise(i, ballot), false);
    case DoEnter(s, i, ballot, value) =>
      var (j, entered) := EnterAccept(i, ballot, value);
      PutMoves(w, s, i, j, entered);
    case Touch(_) =>
  }

  lemma SameSlotsMove(w: Window, u: Window, v: Window)
    requires Moves(w, u) && v.start == u.start && v.insts == u.insts
    ensures Moves(w, v)
  {
    StaysPut(u, v);
    MovesChain(w, u, v);
  }

  lemma SettleMark(w: Window, s: int, value: Payload)
    requires s >= w.start
    requires var v := Get(w, s); Moves(w, PutInst(v, s, Decide(At(v, s), value), At(v, s).status != Decided))
    ensures Moves(w, DecideAt(w, s, value))
  {
    var v := Get(w, s);
    SameSlotsMove(w, PutInst(v, s, Decide(At(v, s), value), At(v, s).status != Decided), DecideAt(w, s, value));
  }

  lemma TickMoves(w: Window, replies: seq<DoneReply>)
    requires w.me < |w.done|
    ensures Moves(w, Tick(w, replies))
  {
  }

  lemma RestartMoves(w: Window, n: nat)
    ensures Moves(w, Load(Save(w, true).disk, n, w.me, w.enable))
  {
  }

  lemma StaysPut(w: Window, v: Window)
    requires v.start == w.start && v.insts == w.insts
    ensures Moves(w, v)
  {
  }

  lemma NextMoves(c: Peers, c': Peers, n: nat, step: Step, p: nat)
    requires |c.ws| == n && p < n && c.ws[p].me == p && StepOk(c, c', step)
    ensures |c'.ws| == n && Moves(c.ws[p], c'.ws[p])
  {
    var w := c.ws[p];
    if p != step.p || step.CallDone? || step.Answer? {
      StaysPut(w, c'.ws[p]);
    } else {
      match step
      case Local(_, call) => ServeMoves(w, call);
      case Ticker(_, replies) => TickMoves(w, replies);
      case Restart(_) => RestartMoves(w, n);
    }
  }

  lemma MovesChain(u: Window, v: Window, w: Window)
    requires Moves(u, v) && Moves(v, w)
    ensures Moves(u, w)
  {
    forall s ensures SlotAdvances(u, w, s) {
      assert SlotAdvances(u, v, s) && SlotAdvances(v, w, s);
    }
  }

  lemma StepMoves(run: seq<Peers>, n: nat, j: nat, p: nat)
    requires Run(run, n) && 0 < j < |run| && p < n
    ensures |run[j - 1].ws| == n && |run[j].ws| == n && Moves(run[j - 1].ws[p], run[j].ws[p])
  {
    RunKeeps(run, n, j - 1);
    assert Linked(run, j - 1);
    var step :| StepOk(run[j - 1], run[j], step);
    assert PeerOk(run[j - 1], p);
    NextMoves(run[j - 1], run[j], n, step, p);
  }

  /** Along every run: the first slot and the highest slot of a peer never move back, and a
      retained slot stays at its number, keeps its decision and never lowers its promise. */
  lemma {:induction false} SlotsKept(run: seq<Peers>, n: nat, i: nat, j: nat, p: nat)
    requires Run(run, n) && i <= j < |run| && p < n
    ensures |run[i].ws| == n && |run[j].ws| == n && Moves(run[i].ws[p], run[j].ws[p])
    decreases j
  {
    if i < j {
      SlotsKept(run, n, i, j - 1, p);
      StepMoves(run, n, j, p);
      MovesChain(run[i].ws[p], run[j - 1].ws[p], run[j].ws[p]);
    } else {
      RunKeeps(run, n, i);
      forall s ensures SlotAdvances(run[i].ws[p], run[i].ws[p], s) { }
    }
  }

  /** Along every run Status moves one way only: a decided slot keeps answering its value until it is
      forgotten, forgotten slots stay so, and a slot that was there is never past the end again. */
  lemma StatusFinal(run: seq<Peers>, n: nat, i: nat, j: nat, p: nat, s: int)
    requires Run(run, n) && i <= j < |run| && p < n
    ensures |run[i].ws| == n && |run[j].ws| == n
    ensures var now, later := Status(run[i].ws[p], s), Status(run[j].ws[p], s);
      && (now.0 == Decided ==> later == now || later.0 == Forgotten)
      && (now.0 == Forgotten ==> later.0 == Forgotten)
      && (now.0 != Exceeded ==> later.0 != Exceeded)
  {
    SlotsKept(run, n, i, j, p);
    assert SlotAdvances(run[i].ws[p], run[j].ws[p], s);
  }

  // ---------------------------------------------------- what does get forgotten

  /** Done raises the peer's own mark past the number, and no other mark. */
  lemma DoneMarks(w: Window, s: int)
    requires w.me < |w.done|
    ensures var v := Done(w, s);
      && v == w.(done := v.done) && |v.done| == |w.done|
      && v.done[w.me] == (if s >= w.done[w.me] then s + 1 else w.done[w.me])
      && forall q | 0 <= q < |w.done| && q != w.me :: v.done[q] == w.done[q]
  {
  }

  /** The replies name peer `q`, and always with a mark past `s`. */
  ghost predicate Heard(replies: seq<DoneReply>, q: nat, s: int) {
    && (exists j :: 0 <= j < |replies| && replies[j].srv == q)
    && (forall j | 0 <= j < |replies| && replies[j].srv == q :: replies[j].done > s)
  }

  lemma {:induction false} CollectHears(replies: seq<DoneReply>, got: seq<nat>, q: nat, s: int)
    requires q < |got| && (forall j | 0 <= j < |replies| && replies[j].srv == q :: replies[j].done > s)
    requires got[q] > s || exists j :: 0 <= j < |replies| && replies[j].srv == q
    ensures Collect(replies, got)[q] > s
  {
    if replies != [] {
      var r, rest := replies[0], replies[1..];
      var next := if 0 <= r.srv < |got| then got[r.srv := r.done] else got;
      assert forall j | 0 <= j < |rest| :: rest[j] == replies[j + 1];
      if next[q] <= s {
        var j :| 0 <= j < |replies| && replies[j].srv == q;
        assert rest[j - 1].srv == q;
      }
      CollectHears(rest, next, q, s);
    }
  }

  /** Every slot up to `s` that a peer has is gone after a pass in which it heard every other peer with
      a mark past `s`, if its own mark is past `s` too. */
  lemma PassForgets(w: Window, replies: seq<DoneReply>, s: int, t: int)
    requires w.me < |w.done| && w.done[w.me] > s && t <= s < End(w)
    requires forall q: nat | q < |w.done| && q != w.me :: Heard(replies, q, s)
    ensures Status(Tick(w, replies), t).0 == Forgotten
  {
    var zeros := seq(|w.done|, _ => 0);
    var got := Collect(replies, zeros);
    var merged := MergeDone(w.done, got);
    forall q | 0 <= q < |merged| ensures merged[q] > s {
      if q != w.me {
        assert Heard(replies, q, s);
        CollectHears(replies, zeros, q, s);
      }
    }
    var low := Lowest(merged, w.done[w.me]);
    assert low > s;
  }

  /** In every run: once all peers' own marks are past `s`, a pass with an answer of each forgets all
      slots up to `s`. With ForgettingSafe this says exactly what a pass with fresh answers forgets. */
  lemma ForgottenAfterPass(run: seq<Peers>, n: nat, i: nat, p: nat, replies: seq<DoneReply>, s: int, t: int)
    requires Run(run, n) && i + 1 < |run| && StepOk(run[i], run[i + 1], Ticker(p, replies))
    requires |run[i].ws| == n && forall q | 0 <= q < n :: run[i].ws[q].me < |run[i].ws[q].done| && Report(run[i].ws[q]).done > s
    requires t <= s < End(run[i].ws[p])
    requires forall q | 0 <= q < n && q != p :: Report(run[i].ws[q]) in replies
    requires forall j, k | 0 <= j < k < |replies| && replies[j].srv >= 0 :: replies[j].srv != replies[k].srv
    ensures Status(run[i + 1].ws[p], t).0 == Forgotten
  {
    RunKeeps(run, n, i);
    assert PeerOk(run[i], p);
    forall q: nat | q < n && q != p ensures Heard(replies, q, s) {
      assert PeerOk(run[i], q);
      var r := Report(run[i].ws[q]);
      assert r in replies && r.srv == q && r.done > s;
      var j :| 0 <= j < |replies| && replies[j] == r;
      forall k | 0 <= k < |replies| && replies[k].srv == q ensures replies[k].done > s {
        assert k == j;
      }
    }
    PassForgets(run[i].ws[p], replies, s, t);
  }

  // ---------------------------------------------------------- the decided mark

  /** The decided mark is a slot of the window or below it, and no retained slot above it is decided. */
  ghost predicate MarkOk(w: Window) {
    w.decided < End(w) && forall s | Retained(w, s) && At(w, s).status == Decided :: s <= w.decided
  }

  lemma PutMark(w: Window, s: int, i: Inst, save: bool)
    requires MarkOk(w) && s < End(w) && (i.status == Decided ==> s <= w.decided)
    ensures MarkOk(PutHeld(w, s, i, save))
  {
    var v := PutHeld(w, s, i, save);
    forall t | Retained(v, t) && At(v, t).status == Decided ensures t <= v.decided {
      if t != s { assert At(v, t) == At(w, t); }
    }
  }

  lemma GetMark(w: Window, s: int)
    requires MarkOk(w)
    ensures MarkOk(Get(w, s))
  {
    var v := Get(w, s);
    forall t | Retained(v, t) && At(v, t).status == Decided ensures t <= v.decided {
      if Retained(w, t) { assert At(v, t) == At(w, t); }
    }
  }

  lemma SettleMarks(w: Window, s: int, i: Inst, value: Payload)
    requires MarkOk(w) && s < End(w)
    ensures MarkOk(Settle(w, s, i, value)) && Settle(w, s, i, value).decided == Larger(w.decided, s)
  {
    var v := Settle(w, s, i, value);
    forall t | Retained(v, t) && At(v, t).status == Decided ensures t <= v.decided {
      if t != s { assert Retained(w, t) && At(v, t) == At(w, t); }
    }
  }

  lemma SameMark(w: Window, v: Window)
    requires MarkOk(w) && v.start == w.start && v.insts == w.insts && v.decided == w.decided
    ensures MarkOk(v)
  {
    forall t | Retained(v, t) && At(v, t).status == Decided ensures t <= v.decided { assert Retained(w, t) && At(v, t) == At(w, t); }
  }

  lemma ServeMark(w: Window, call: Call)
    requires MarkOk(w) && CallOk(w, call)
    ensures MarkOk(Serve(w, call))
  {
    var v := Get(w, call.s);
    GetMark(w, call.s);
    match call
    case Touch(s) =>
    case DoPrepare(s, ballot) => if s >= w.start { PutMark(v, s, Prepare(At(v, s), ballot).0, false); }
    case DoAccept(s, ballot, value) =>
      if s >= w.start {
        var (i, answer) := Accept(At(v, s), ballot, value);
        PutMark(v, s, i, answer == ACCEPT_OK);
      }
    case DoDecide(s, value) => if s >= w.start { SettleMarks(v, s, At(v, s), value); }
    case DoSettle(s, i, value) => SettleMarks(w, s, i, value);
    case DoBegin(s, i) => if i.status != Decided { PutMark(w, s, BeginRound(i), false); }
    case DoRaise(s, i, ballot) => HeldMark(w, s, i, Raise(i, ballot), false);
    case DoEnter(s, i, ballot, value) =>
      var (j, entered) := EnterAccept(i, ballot, value);
      HeldMark(w, s, i, j, entered);
  }

  /** A held instance that was forgotten is not in the window any more. */
  lemma HeldMark(w: Window, s: int, i: Inst, j: Inst, save: bool)
    requires MarkOk(w) && Held(w, s, i) && j.status == i.status
    ensures MarkOk(PutHeld(w, s, j, save))
  {
    if Retained(w, s) {
      assert At(w, s) == i;
      PutMark(w, s, j, save);
    } else {
      SameMark(w, PutHeld(w, s, j, save));
    }
  }

  lemma TickMark(w: Window, replies: seq<DoneReply>)
    requires MarkOk(w) && w.me < |w.done|
    ensures MarkOk(Tick(w, replies))
  {
    var v := Trimmed(w, replies);
    assert MarkOk(v) by {
      forall t | Retained(v, t) && At(v, t).status == Decided ensures t <= v.decided {
        assert Retained(w, t) && At(v, t) == At(w, t);
      }
    }
    GetMark(v, HighDecided(replies, -1));
  }

  lemma LoadMark(d: Disk, n: nat, me: nat, enable: bool)
    ensures MarkOk(Load(d, n, me, enable))
  {
  }

  /** In every run, with restarts, a peer's decided mark is as high as its highest decided slot. */
  lemma {:induction false} MarkHighest(run: seq<Peers>, n: nat, i: nat, p: nat)
    requires Run(run, n) && i < |run| && p < n
    ensures |run[i].ws| == n && MarkOk(run[i].ws[p])
  {
    RunKeeps(run, n, i);
    if i == 0 {
      var enable :| run[0].ws[p] == Load(Disk(0, []), n, p, enable);
      LoadMark(Disk(0, []), n, p, enable);
    } else {
      MarkHighest(run, n, i - 1, p);
      assert Linked(run, i - 1);
      var step :| StepOk(run[i - 1], run[i], step);
      var w := run[i - 1].ws[p];
      if p == step.p {
        match step
        case Local(_, call) => ServeMark(w, call);
        case CallDone(_, s) => SameMark(w, run[i].ws[p]);
        case Answer(_) => SameMark(w, run[i].ws[p]);
        case Ticker(_, replies) => TickMark(w, replies);
        case Restart(_) => LoadMark(Save(w, true).disk, n, p, w.enable);
      }
    }
  }

  /** In every run a pass that hears from a peer which has decided a slot past the own mark opens that
      slot, so that its value can be learnt. */
  lemma PassLearnsOf(run: seq<Peers>, n: nat, i: nat, p: nat, replies: seq<DoneReply>, q: nat, s: int)
    requires Run(run, n) && i + 1 < |run| && StepOk(run[i], run[i + 1], Ticker(p, replies)) && q < n && |run[i].ws| == n
    requires run[i].ws[q].me < |run[i].ws[q].done| && Report(run[i].ws[q]) in replies
    requires Status(run[i].ws[q], s).0 == Decided && s > run[i].ws[p].decided
    ensures Status(run[i + 1].ws[p], s).0 != Exceeded
  {
    MarkHighest(run, n, i, q);
    var r, high := Report(run[i].ws[q]), HighDecided(replies, -1);
    assert r.decided >= s;
    var j :| 0 <= j < |replies| && replies[j] == r;
    assert high >= replies[j].decided;
    TickMoves(run[i].ws[p], replies);
  }

  ghost predicate OwnMark(w: Window) {
    w.me < |w.done| && w.start <= w.done[w.me]
  }

  lemma TickOwn(w: Window, replies: seq<DoneReply>)
    requires OwnMark(w)
    ensures OwnMark(Tick(w, replies))
  {
    var merged := MergeDone(w.done, Collect(replies, seq(|w.done|, _ => 0)));
    TrimOwn(w.(done := merged), Lowest(merged, w.done[w.me]));
  }

  lemma TrimOwn(w: Window, low: nat)
    requires w.me < |w.done| && w.start <= w.done[w.me] && low <= w.done[w.me]
    ensures OwnMark(Trim(w, low))
  {
  }

  lemma StepOwn(c: Peers, c': Peers, step: Step, p: nat)
    requires StepOk(c, c', step) && p < |c.ws| && c.ws[p].me == p && |c.ws[p].done| == |c.ws| && DiskOk(c.ws[p]) && OwnMark(c.ws[p])
    ensures |c'.ws| == |c.ws| && OwnMark(c'.ws[p])
  {
    if p == step.p {
      match step
      case Local(_, call) => ServeKeeps(c.ws[p], call);
      case CallDone(_, s) => DoneMarks(c.ws[p], s);
      case Answer(_) =>
      case Ticker(_, replies) => TickOwn(c.ws[p], replies);
      case Restart(_) => RestartExact(c.ws[p], |c.ws|, 0);
    }
  }

  /** In every run, with restarts, a peer's own mark is never below its first slot. */
  lemma {:induction false} OwnMarkKept(run: seq<Peers>, n: nat, i: nat, p: nat)
    requires Run(run, n) && i < |run| && p < n
    ensures |run[i].ws| == n && OwnMark(run[i].ws[p])
  {
    PeerShape(run, n, i, p);
    if i > 0 {
      OwnMarkKept(run, n, i - 1, p);
      PeerShape(run, n, i - 1, p);
      assert Linked(run, i - 1);
      var step :| StepOk(run[i - 1], run[i], step);
      StepOwn(run[i - 1], run[i], step, p);
    } else {
      var enable :| run[0].ws[p] == Load(Disk(0, []), n, p, enable);
    }
  }

  lemma PeerShape(run: seq<Peers>, n: nat, i: nat, p: nat)
    requires Run(run, n) && i < |run| && p < n
    ensures |run[i].ws| == n && run[i].ws[p].me == p && |run[i].ws[p].done| == n && DiskOk(run[i].ws[p])
  {
    RunKeeps(run, n, i);
    assert PeerOk(run[i], p);
  }
}
