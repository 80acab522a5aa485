/** The window of slots that a Paxos peer keeps, and its persisted copy (src/paxos/paxos.go,
    acceptor.go, ticker.go, persister.go): each locked section as a function on a value. */
module PaxosWindow {
  import opened Session
  import opened PaxosInstance

  /** What the persister holds: the first retained slot and the saved instances. */
  datatype Disk = Disk(start: nat, insts: seq<Inst>)

  datatype Window = Window(
    me: nat, start: nat, insts: seq<Inst>, done: seq<nat>, decided: int, disk: Disk, enable: bool)

  datatype DoneReply = DoneReply(done: nat, decided: int, srv: int)

  /** The reply left by a call that failed: zero values, with the server number set to -1. */
  const NO_DONE_REPLY := DoneReply(0, 0, -1)

  function End(w: Window): nat {
    w.start + |w.insts|
  }

  function Max(w: Window): int {
    End(w) - 1
  }

  predicate Retained(w: Window, s: int) {
    w.start <= s < End(w)
  }

  function At(w: Window, s: int): Inst
    requires Retained(w, s)
  {
    w.insts[s - w.start]
  }

  function Larger(x: int, y: int): int {
    if x > y then x else y
  }

  // -------------------------------------------------------------- the window

  function Grow(insts: seq<Inst>, len: nat): (r: seq<Inst>)
    ensures insts <= r && |r| == if len > |insts| then len else |insts|
    ensures forall k | |insts| <= k < |r| :: r[k] == BLANK
  {
    if len > |insts| then insts + seq(len - |insts|, _ => BLANK) else insts
  }

  /** getInstanceL: the slots up to `s` exist afterwards, unless `s` is forgotten. */
  function Get(w: Window, s: int): Window {
    if s < w.start then w else w.(insts := Grow(w.insts, s + 1 - w.start))
  }

  /** The slots from `lo` up to `hi`, in order. */
  function Range(lo: int, hi: int): (r: seq<int>)
    ensures |r| == (if lo < hi then hi - lo else 0) && forall i | 0 <= i < |r| :: r[i] == lo + i
    decreases hi - lo
  {
    if lo >= hi then [] else Range(lo, hi - 1) + [hi - 1]
  }

  /** The new slots for which getInstanceL starts a proposer without a value. */
  function Spawned(w: Window, s: int, propose: bool): seq<int> {
    Range(End(w), if propose then s + 1 else s)
  }

  lemma GrowNext(insts: seq<Inst>, len: nat)
    requires len >= |insts|
    ensures Grow(insts, len + 1) == Grow(insts, len) + [BLANK]
  {
  }

  /** persistInstanceL. */
  function SaveInst(d: Disk, s: int, i: Inst): Disk {
    if s < d.start then d else d.(insts := Grow(d.insts, s + 1 - d.start)[s - d.start := i])
  }

  function PutInst(w: Window, s: int, i: Inst, save: bool): Window
    requires Retained(w, s)
  {
    w.(insts := w.insts[s - w.start := i], disk := if save && w.enable then SaveInst(w.disk, s, i) else w.disk)
  }

  function PrepareAt(w: Window, s: int, ballot: nat): (r: (Window, PrepareReply)) {
    if s < w.start then (w, PrepareReply(LateRequest, 0, Nil))
    else
      var v := Get(w, s);
      var (i, reply) := Prepare(At(v, s), ballot);
      (PutInst(v, s, i, false), reply)
  }

  function AcceptAt(w: Window, s: int, ballot: nat, value: Payload): (r: (Window, int)) {
    if s < w.start then (w, ACCEPT_FAIL)
    else
      var v := Get(w, s);
      var (i, answer) := Accept(At(v, s), ballot, value);
      (PutInst(v, s, i, answer == ACCEPT_OK), answer)
  }

  /** A caller that works on slot `s` holds instance `i`: the one in the window, or one that was
      forgotten since. */
  predicate Held(w: Window, s: int, i: Inst) {
    s < End(w) && (Retained(w, s) ==> i == At(w, s))
  }

  /** The new state `i` of a held instance; one that was forgotten is written only as far as the
      persister still covers it. */
  function PutHeld(w: Window, s: int, i: Inst, save: bool): Window {
    if Retained(w, s) then PutInst(w, s, i, save)
    else if save && w.enable then w.(disk := SaveInst(w.disk, s, i))
    else w
  }

  /** decide, on the instance that its caller holds. */
  function Settle(w: Window, s: int, i: Inst, value: Payload): Window {
    PutHeld(w, s, Decide(i, value), i.status != Decided).(decided := Larger(w.decided, s))
  }

  function DecideAt(w: Window, s: int, value: Payload): Window {
    if s < w.start then w
    else
      var v := Get(w, s);
      Settle(v, s, At(v, s), value)
  }

  /** The proposer's own writes. */
  function BeginAt(w: Window, s: int, i: Inst): Window {
    if i.status != Decided then PutHeld(w, s, BeginRound(i), false) else w
  }

  function RaiseAt(w: Window, s: int, i: Inst, ballot: nat): Window {
    PutHeld(w, s, Raise(i, ballot), false)
  }

  function EnterAt(w: Window, s: int, i: Inst, ballot: nat, value: Payload): Window {
    var (j, entered) := EnterAccept(i, ballot, value);
    PutHeld(w, s, j, entered)
  }

  function Done(w: Window, s: int): Window
    requires w.me < |w.done|
  {
    if s >= w.done[w.me] then w.(done := w.done[w.me := s + 1]) else w
  }

  function Status(w: Window, s: int): (r: (Fate, Payload)) {
    if s >= End(w) then (Exceeded, Nil)
    else if s < w.start then (Forgotten, Nil)
    else if At(w, s).status == Decided then (Decided, At(w, s).value)
    else (Pending, Nil)
  }

  // ------------------------------------------------------------- forgetting

  function Report(w: Window): DoneReply
    requires w.me < |w.done|
  {
    DoneReply(w.done[w.me], w.decided, w.me)
  }

  /** The done numbers read from the replies, later ones over earlier ones. */
  function Collect(replies: seq<DoneReply>, got: seq<nat>): (r: seq<nat>)
    ensures |r| == |got|
  {
    if replies == [] then got
    else Collect(replies[1..], if 0 <= replies[0].srv < |got| then got[replies[0].srv := replies[0].done] else got)
  }

  function HighDecided(replies: seq<DoneReply>, high: int): (r: int)
    ensures r >= high && forall j | 0 <= j < |replies| :: r >= replies[j].decided
    ensures r == high || exists j :: 0 <= j < |replies| && r == replies[j].decided
  {
    if replies == [] then high else HighDecided(replies[1..], Larger(replies[0].decided, high))
  }

  function MergeDone(done: seq<nat>, got: seq<nat>): (r: seq<nat>)
    requires |done| == |got|
  {
    seq(|done|, i requires 0 <= i < |done| => if got[i] > done[i] then got[i] else done[i])
  }

  function Lowest(done: seq<nat>, low: nat): (r: nat)
    ensures r <= low && forall i | 0 <= i < |done| :: r <= done[i]
    ensures r == low || r in done
  {
    if done == [] then low else Lowest(done[1..], if done[0] < low then done[0] else low)
  }

  lemma LowestNext(done: seq<nat>, i: nat, low: nat)
    requires i < |done|
    ensures Lowest(done[i..], low) == Lowest(done[i + 1..], if done[i] < low then done[i] else low)
  {
    assert done[i..][1..] == done[i + 1..];
  }

  /** The window from slot `first` on. */
  function Cut(w: Window, first: nat): Window
    requires w.start <= first <= End(w)
  {
    w.(start := first, insts := w.insts[first - w.start..])
  }

  /** The slots below `done` are dropped, as far as they exist, and the rest is saved. */
  function Trim(w: Window, done: nat): Window {
    if done <= w.start then w else Save(Cut(w, if done > End(w) then End(w) else done), false)
  }

  /** The window after the trim of a pass. */
  function Trimmed(w: Window, replies: seq<DoneReply>): Window
    requires w.me < |w.done|
  {
    var merged := MergeDone(w.done, Collect(replies, seq(|w.done|, _ => 0)));
    Trim(w.(done := merged), Lowest(merged, w.done[w.me]))
  }

  function Tick(w: Window, replies: seq<DoneReply>): Window
    requires w.me < |w.done|
  {
    var v, high := Trimmed(w, replies), HighDecided(replies, -1);
    if high > v.decided then Get(v, high) else v
  }

  /** The slots for which a pass starts a proposer without a value. */
  function TickSpawned(w: Window, replies: seq<DoneReply>): seq<int>
    requires w.me < |w.done|
  {
    var v, high := Trimmed(w, replies), HighDecided(replies, -1);
    if high > v.decided then Spawned(v, high, true) else []
  }

  // ------------------------------------------------------------- persistence

  /** persistL. */
  function Save(w: Window, force: bool): Window {
    if w.enable || force then w.(disk := Disk(w.start, w.insts)) else w
  }

  /** The highest decided one of the first `n` slots, or the one before them. */
  function LastDecided(start: nat, insts: seq<Inst>, n: nat): (d: int)
    requires n <= |insts|
    ensures start - 1 <= d < start + n
    ensures d >= start ==> insts[d - start].status == Decided
    ensures forall k | 0 <= k < n && insts[k].status == Decided :: start + k <= d
  {
    if n == 0 then start - 1
    else if insts[n - 1].status == Decided then start + n - 1
    else LastDecided(start, insts, n - 1)
  }

  /** readPersist into a fresh peer. */
  function Load(d: Disk, n: nat, me: nat, enable: bool): Window {
    Window(me, d.start, d.insts, seq(n, i => if i == me then d.start else 0), LastDecided(d.start, d.insts, |d.insts|), d, enable)
  }

  // -------------------------------------------------------- memory and disk

  ghost predicate SameVote(i: Inst, j: Inst) {
    i.accept == j.accept && i.value == j.value && i.status == j.status
  }

  /** Slot `s` is saved with its current vote and fate, or has none yet. */
  ghost predicate SlotSaved(w: Window, s: int)
    requires Retained(w, s)
  {
    if s - w.start < |w.disk.insts| then SameVote(w.disk.insts[s - w.start], At(w, s)) && w.disk.insts[s - w.start].prepare <= At(w, s).prepare
    else SameVote(BLANK, At(w, s))
  }

  /** With an enabled persister, the persisted window agrees with memory. */
  ghost predicate DiskOk(w: Window) {
    w.enable ==>
      && w.disk.start == w.start && |w.disk.insts| <= |w.insts|
      && forall s {:trigger SlotSaved(w, s)} | Retained(w, s) :: SlotSaved(w, s)
  }

  lemma GetKeepsDisk(w: Window, s: int)
    requires DiskOk(w)
    ensures DiskOk(Get(w, s))
  {
    var v := Get(w, s);
    if w.enable {
      forall t | Retained(v, t) ensures SlotSaved(v, t) {
        if Retained(w, t) { assert SlotSaved(w, t); }
      }
    }
  }

  /** A write to one slot keeps memory and disk together when it saves, or leaves the vote alone. */
  lemma PutKeepsDisk(w: Window, s: int, i: Inst, save: bool)
    requires DiskOk(w) && Retained(w, s) && i.prepare >= At(w, s).prepare
    requires save || SameVote(i, At(w, s))
    ensures DiskOk(PutInst(w, s, i, save))
  {
    var v := PutInst(w, s, i, save);
    if w.enable {
      forall t | Retained(v, t) ensures SlotSaved(v, t) { assert SlotSaved(w, t); }
    }
  }

  lemma HandlersKeepDisk(w: Window, s: int, ballot: nat, value: Payload)
    requires DiskOk(w)
    ensures DiskOk(PrepareAt(w, s, ballot).0)
    ensures DiskOk(AcceptAt(w, s, ballot, value).0)
    ensures DiskOk(DecideAt(w, s, value))
  {
    if s >= w.start {
      GetKeepsDisk(w, s);
      var v := Get(w, s);
      PutKeepsDisk(v, s, Prepare(At(v, s), ballot).0, false);
      var (i, answer) := Accept(At(v, s), ballot, value);
      PutKeepsDisk(v, s, i, answer == ACCEPT_OK);
      SettleKeepsDisk(v, s, At(v, s), value);
    }
  }

  /** A forgotten slot lies below what the persister covers. */
  lemma HeldKeepsDisk(w: Window, s: int, i: Inst, j: Inst, save: bool)
    requires DiskOk(w) && Held(w, s, i) && j.prepare >= i.prepare && (save || SameVote(j, i))
    ensures DiskOk(PutHeld(w, s, j, save))
  {
    if Retained(w, s) { PutKeepsDisk(w, s, j, save); }
  }

  lemma SettleKeepsDisk(w: Window, s: int, i: Inst, value: Payload)
    requires DiskOk(w) && Held(w, s, i)
    ensures DiskOk(Settle(w, s, i, value))
  {
    var m := PutHeld(w, s, Decide(i, value), i.status != Decided);
    HeldKeepsDisk(w, s, i, Decide(i, value), i.status != Decided);
    SameSlots(m, Settle(w, s, i, value));
  }

  lemma ProposerKeepsDisk(w: Window, s: int, i: Inst, ballot: nat, value: Payload)
    requires DiskOk(w) && Held(w, s, i)
    ensures DiskOk(BeginAt(w, s, i)) && DiskOk(RaiseAt(w, s, i, ballot)) && DiskOk(EnterAt(w, s, i, ballot, value))
  {
    HeldKeepsDisk(w, s, i, BeginRound(i), false);
    HeldKeepsDisk(w, s, i, Raise(i, ballot), false);
    var (j, entered) := EnterAccept(i, ballot, value);
    HeldKeepsDisk(w, s, i, j, entered);
  }

  lemma SameSlots(w: Window, v: Window)
    requires DiskOk(w) && v.start == w.start && v.insts == w.insts && v.disk == w.disk && v.enable == w.enable
    ensures DiskOk(v)
  {
    forall t | w.enable && Retained(v, t) ensures SlotSaved(v, t) { assert SlotSaved(w, t); }
  }

  lemma TickKeepsDisk(w: Window, replies: seq<DoneReply>)
    requires DiskOk(w) && w.me < |w.done|
    ensures DiskOk(Tick(w, replies))
  {
    var v := Trimmed(w, replies);
    assert DiskOk(v) by {
      if v.start == w.start { SameSlots(w, v); }
    }
    GetKeepsDisk(v, HighDecided(replies, -1));
  }

  // ---------------------------------------------------------------- restarts

  /** persistL then readPersist restores every slot at its sequence number. */
  lemma RestartExact(w: Window, n: nat, s: int)
    ensures var v := Load(Save(w, true).disk, n, w.me, w.enable);
      && v.start == w.start && End(v) == End(w) && Status(v, s) == Status(w, s)
      && (Retained(w, s) ==> At(v, s) == At(w, s))
      && DiskOk(v)
  {
  }

  /** Without the final save, a restart with an enabled persister still brings back every
      vote and decision; only promises are lost. */
  lemma RestartFromDisk(w: Window, n: nat, s: int)
    requires w.enable && DiskOk(w) && Retained(w, s)
    ensures var v := Load(w.disk, n, w.me, w.enable);
      && v.start == w.start
      && (if Retained(v, s) then SameVote(At(v, s), At(w, s)) else SameVote(BLANK, At(w, s)))
  {
    assert SlotSaved(w, s);
  }

  /** A promise can be forgotten by such a restart: the slot answers Ok to ballot 1 twice. */
  lemma PromiseLost()
    ensures var w := Window(0, 0, [], [0, 0], -1, Disk(0, []), true);
      var (v, first) := PrepareAt(w, 0, 1);
      var (_, second) := PrepareAt(v, 0, 1);
      var (_, again) := PrepareAt(Load(v.disk, 2, 0, true), 0, 1);
      && DiskOk(v) && first.code == Ok && second.code == LowPrepare && again.code == Ok
  {
  }

  /** The ballot that the persister holds for a slot. */
  function SavedBallot(w: Window, s: int): nat
    requires Retained(w, s)
  {
    if s - w.start < |w.disk.insts| then w.disk.insts[s - w.start].prepare else 0
  }

  /** After such a restart an undecided slot grants exactly the ballots above the saved one. So a
      ballot that it would refuse is granted, again or past a later promise, exactly between the
      saved and the current one. */
  lemma GrantedAgain(w: Window, n: nat, s: int, b: nat)
    requires w.enable && DiskOk(w) && Retained(w, s) && At(w, s).status != Decided
    ensures var v := Load(w.disk, n, w.me, w.enable);
      && (PrepareAt(v, s, b).1.code == Ok <==> b > SavedBallot(w, s))
      && (PrepareAt(v, s, b).1.code == Ok && PrepareAt(w, s, b).1.code == LowPrepare <==> SavedBallot(w, s) < b <= At(w, s).prepare)
  {
    assert SlotSaved(w, s);
  }

  /** The saved ballot is the current one after an accept, and a promise leaves it behind. */
  lemma SavedByAccept(w: Window, s: int, b: nat, value: Payload)
    requires w.enable && DiskOk(w) && Retained(w, s)
    ensures AcceptAt(w, s, b, value).1 == ACCEPT_OK ==>
              var v := AcceptAt(w, s, b, value).0; Retained(v, s) && SavedBallot(v, s) == At(v, s).prepare
    ensures PrepareAt(w, s, b).1.code == Ok ==>
              var v := PrepareAt(w, s, b).0; Retained(v, s) && SavedBallot(v, s) == SavedBallot(w, s) < At(v, s).prepare
  {
    assert SlotSaved(w, s);
  }

  /** Trimming changes neither a retained slot nor its number, nor the highest slot. */
  lemma TrimKeeps(w: Window, done: nat, s: int)
    ensures var v := Trim(w, done);
      && v.start >= w.start && Max(v) == Max(w) && v.start <= Larger(w.start, done)
      && (Retained(v, s) <==> Retained(w, s) && s >= v.start)
      && (Retained(v, s) ==> At(v, s) == At(w, s))
  {
  }

  /** A forgetting pass opens new slots exactly when some reply claims a decision past the
      peer's own mark and past its window. */
  lemma TickOpens(w: Window, replies: seq<DoneReply>)
    requires w.me < |w.done|
    ensures End(Tick(w, replies)) > End(w) <==> HighDecided(replies, -1) > w.decided && HighDecided(replies, -1) >= End(w)
  {
  }

  /** A failed call claims slot 0: a fresh peer that reaches nobody opens it, without a value. */
  lemma FailedCallOpensSlot(n: nat, me: nat, enable: bool)
    requires me < n
    ensures var w := Load(Disk(0, []), n, me, enable);
      Max(w) == -1 && Max(Tick(w, [NO_DONE_REPLY])) == 0 && TickSpawned(w, [NO_DONE_REPLY]) == [0]
  {
    TickOpens(Load(Disk(0, []), n, me, enable), [NO_DONE_REPLY]);
  }
}
