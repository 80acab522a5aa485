/** The handlers of a Paxos peer on its window, against the acceptor and proposer of one slot: each
    acts on its slot as those do, answers what those answer, and leaves all other slots alone. */
module PaxosHandlers {
  import opened Session
  import opened PaxosInstance
  import opened PaxosWindow

  /** The instance of a slot that is not forgotten; one that was never opened is blank. */
  ghost function InstAt(w: Window, s: int): Inst
    requires s >= w.start
  {
    if s < End(w) then At(w, s) else BLANK
  }

  /** From `w` to `v` slot `s` has become `i`, and no other slot has changed. */
  ghost predicate ActsOn(w: Window, v: Window, s: int, i: Inst) {
    && s >= w.start && v.start == w.start && v.done == w.done && v.me == w.me && v.enable == w.enable
    && forall t | t >= w.start :: InstAt(v, t) == if t == s then i else InstAt(w, t)
  }

  lemma GetActs(w: Window, s: int)
    requires s >= w.start
    ensures ActsOn(w, Get(w, s), s, InstAt(w, s)) && Retained(Get(w, s), s)
  {
  }

  lemma PutActs(w: Window, s: int, i: Inst, save: bool)
    requires Retained(w, s)
    ensures ActsOn(w, PutInst(w, s, i, save), s, i)
  {
  }

  lemma ActsTwice(u: Window, v: Window, w: Window, s: int, i: Inst, j: Inst)
    requires ActsOn(u, v, s, i) && ActsOn(v, w, s, j)
    ensures ActsOn(u, w, s, j)
  {
  }

  lemma OpenedActs(w: Window, s: int, i: Inst, save: bool)
    requires s >= w.start
    ensures Retained(Get(w, s), s) && ActsOn(w, PutInst(Get(w, s), s, i, save), s, i)
  {
    GetActs(w, s);
    PutActs(Get(w, s), s, i, save);
    ActsTwice(w, Get(w, s), PutInst(Get(w, s), s, i, save), s, InstAt(w, s), i);
  }

  /** A prepare is late exactly for a forgotten slot, and otherwise the acceptor's own affair. */
  lemma PrepareActs(w: Window, s: int, ballot: nat)
    ensures PrepareAt(w, s, ballot).1.code == LateRequest <==> s < w.start
    ensures s < w.start ==> PrepareAt(w, s, ballot).0 == w
    ensures s >= w.start ==>
              var (i, reply) := Prepare(InstAt(w, s), ballot);
              PrepareAt(w, s, ballot).1 == reply && ActsOn(w, PrepareAt(w, s, ballot).0, s, i)
  {
    if s >= w.start { OpenedActs(w, s, Prepare(InstAt(w, s), ballot).0, false); }
  }

  lemma AcceptActs(w: Window, s: int, ballot: nat, value: Payload)
    ensures s < w.start ==> AcceptAt(w, s, ballot, value) == (w, ACCEPT_FAIL)
    ensures s >= w.start ==>
              var (i, answer) := Accept(InstAt(w, s), ballot, value);
              AcceptAt(w, s, ballot, value).1 == answer && ActsOn(w, AcceptAt(w, s, ballot, value).0, s, i)
  {
    if s >= w.start {
      var (i, answer) := Accept(InstAt(w, s), ballot, value);
      OpenedActs(w, s, i, answer == ACCEPT_OK);
    }
  }

  lemma SettleActs(w: Window, s: int, i: Inst, value: Payload)
    requires Retained(w, s) && i == At(w, s)
    ensures ActsOn(w, Settle(w, s, i, value), s, Decide(i, value)) && Settle(w, s, i, value).decided == Larger(w.decided, s)
  {
    PutActs(w, s, Decide(i, value), i.status != Decided);
  }

  lemma DecideActs(w: Window, s: int, value: Payload)
    ensures s < w.start ==> DecideAt(w, s, value) == w
    ensures s >= w.start ==> ActsOn(w, DecideAt(w, s, value), s, Decide(InstAt(w, s), value))
  {
    if s >= w.start {
      GetActs(w, s);
      var v := Get(w, s);
      SettleActs(v, s, At(v, s), value);
      ActsTwice(w, v, DecideAt(w, s, value), s, InstAt(w, s), Decide(InstAt(w, s), value));
    }
  }

  /** The proposer's sections on the instance it holds. */
  lemma ProposerActs(w: Window, s: int, ballot: nat, value: Payload)
    requires Retained(w, s)
    ensures var i := At(w, s);
      && ActsOn(w, BeginAt(w, s, i), s, if i.status == Decided then i else BeginRound(i))
      && ActsOn(w, RaiseAt(w, s, i, ballot), s, Raise(i, ballot))
      && ActsOn(w, EnterAt(w, s, i, ballot, value), s, EnterAccept(i, ballot, value).0)
  {
    var i := At(w, s);
    PutActs(w, s, BeginRound(i), false);
    PutActs(w, s, Raise(i, ballot), false);
    var (j, entered) := EnterAccept(i, ballot, value);
    PutActs(w, s, j, entered);
  }

  lemma RestartActs(w: Window, n: nat)
    ensures var v := Load(Save(w, true).disk, n, w.me, w.enable); v.start == w.start && v.insts == w.insts
  {
  }

  /** Opening a slot starts a proposer without a value for each slot that was not there, and for the
      slot itself exactly when asked to. */
  lemma SpawnsForNew(w: Window, s: int, propose: bool, t: int)
    requires s >= w.start
    ensures t in Spawned(w, s, propose) <==> w.start <= t < End(Get(w, s)) && !Retained(w, t) && (t != s || propose)
  {
    var r := Spawned(w, s, propose);
    if End(w) <= t < (if propose then s + 1 else s) { assert r[t - End(w)] == t; }
  }

  // -------------------------------------------------------------------- status

  /** What Status says of a slot, both ways. */
  lemma StatusIff(w: Window, s: int, v: Payload)
    ensures Status(w, s) == (Decided, v) <==> Retained(w, s) && At(w, s).status == Decided && At(w, s).value == v
    ensures Status(w, s).0 == Forgotten <==> s < w.start
    ensures Status(w, s).0 == Exceeded <==> s >= End(w)
    ensures Status(w, s).0 != Decided ==> Status(w, s).1 == Nil
  {
  }

  /** After a decision Status answers with its value; nil leaves the slot's own, and a later
      decision changes nothing. */
  lemma DecideAnswers(w: Window, s: int, v: Payload)
    requires s >= w.start
    ensures InstAt(w, s).status != Decided && v != Nil ==> Status(DecideAt(w, s, v), s) == (Decided, v)
    ensures InstAt(w, s).status != Decided && v == Nil ==> Status(DecideAt(w, s, v), s) == (Decided, InstAt(w, s).value)
    ensures InstAt(w, s).status == Decided ==> Status(DecideAt(w, s, v), s) == Status(w, s)
  {
    DecideActs(w, s, v);
    var d := DecideAt(w, s, v);
    assert InstAt(d, s) == Decide(InstAt(w, s), v);
    assert s < End(d);
  }
}
