/** The Paxos peer as the code has it: instances are objects that handlers and proposers
    keep a hold of, the window is a list of them, and the persister is shared. Every
    locked section is proved equal to its function on values (PaxosWindow, PaxosInstance). */
module Paxos {
  import opened Session
  import opened I = PaxosInstance
  import W = PaxosWindow

  class Instance {
    var prepare: nat
    var accept: nat
    var value: Payload
    var status: Fate

    function View(): Inst
      reads this
    {
      Inst(prepare, accept, value, status)
    }

    constructor (i: Inst)
      ensures View() == i
    {
      prepare, accept, value, status := i.prepare, i.accept, i.value, i.status;
    }

    method Prepare(ballot: nat) returns (reply: PrepareReply)
      modifies this
      ensures (View(), reply) == I.Prepare(old(View()), ballot)
    {
      if status == Decided {
        reply := PrepareReply(HasDecided, 0, value);
      } else if ballot > prepare {
        prepare := ballot;
        reply := PrepareReply(Ok, accept, value);
      } else {
        reply := PrepareReply(LowPrepare, prepare, Nil);
      }
    }

    method Accept(ballot: nat, v: Payload) returns (answer: int)
      modifies this
      ensures (View(), answer) == I.Accept(old(View()), ballot, v)
    {
      if status != Decided && ballot >= prepare {
        prepare, accept, value := ballot, ballot, v;
        answer := ACCEPT_OK;
      } else {
        answer := prepare;
      }
    }

    method Decide(v: Payload) returns (changed: bool)
      modifies this
      ensures View() == I.Decide(old(View()), v) && changed == (old(status) != Decided)
    {
      changed := status != Decided;
      if changed {
        status := Decided;
        if v != Nil { value := v; }
      }
    }

    method EnterAccept(ballot: nat, v: Payload) returns (entered: bool)
      modifies this
      ensures (View(), entered) == I.EnterAccept(old(View()), ballot, v)
    {
      entered := status != Decided && prepare == ballot;
      if entered { accept, value := ballot, v; }
    }
  }

  class Persister {
    const enable: bool
    var start: nat
    var insts: seq<Inst>

    function View(): W.Disk
      reads this
    {
      W.Disk(start, insts)
    }

    constructor (enable: bool)
      ensures this.enable == enable && View() == W.Disk(0, [])
    {
      this.enable := enable;
      start, insts := 0, [];
    }

    method Save(start': nat, insts': seq<Inst>)
      modifies this
      ensures View() == W.Disk(start', insts')
    {
      start, insts := start', insts';
    }

    /** One slot is written; the slots before it that were never saved are blank. */
    method SaveInstance(s: int, i: Inst)
      modifies this
      ensures View() == if enable then W.SaveInst(old(View()), s, i) else old(View())
    {
      if enable && s >= start {
        while s - start >= |insts|
          invariant start == old(start) && old(insts) <= insts
          invariant |insts| == |old(insts)| || |insts| <= s - start + 1
          invariant forall k | |old(insts)| <= k < |insts| :: insts[k] == BLANK
        {
          insts := insts + [BLANK];
        }
        assert insts == W.Grow(old(insts), s + 1 - start);
        insts := insts[s - start := i];
      }
    }
  }

  class Peer {
    const me: nat
    const persister: Persister
    const done: array<nat>
    var instances: seq<Instance>
    var startIndex: nat
    var decided: int

    ghost predicate Valid()
      reads this
    {
      me < done.Length && forall j, k | 0 <= j < k < |instances| :: instances[j] != instances[k]
    }

    ghost function Insts(): (r: seq<Inst>)
      reads this, instances
      ensures |r| == |instances| && forall k | 0 <= k < |r| :: r[k] == instances[k].View()
    {
      seq(|instances|, k requires 0 <= k < |instances| reads this, instances => instances[k].View())
    }

    ghost function View(): W.Window
      reads this, instances, persister, done
    {
      W.Window(me, startIndex, Insts(), done[..], decided, persister.View(), persister.enable)
    }

    /** The instance that a handler or proposer of slot `s` works on: the one in the window,
        or one that has been forgotten since. */
    ghost predicate Holds(s: int, inst: Instance)
      reads this
    {
      if startIndex <= s < startIndex + |instances| then instances[s - startIndex] == inst else inst !in instances
    }

    /** Make. */
    constructor (n: nat, me: nat, persister: Persister)
      requires me < n
      ensures Valid() && this.persister == persister && fresh(done) && forall k | 0 <= k < |instances| :: fresh(instances[k])
      ensures View() == W.Load(persister.View(), n, me, persister.enable)
    {
      this.me, this.persister := me, persister;
      done := new nat[n](_ => 0);
      instances, startIndex, decided := [], 0, 0;
      new;
      ReadPersist();
      ghost var start := startIndex;
      assert done[..] == seq(n, k => if k == me then start else 0);
    }

    method ReadPersist()
      requires Valid() && instances == []
      modifies this, done
      ensures Valid() && startIndex == persister.start && Insts() == persister.insts
      ensures decided == W.LastDecided(startIndex, persister.insts, |persister.insts|)
      ensures done[..] == old(done[..])[me := startIndex] && forall k | 0 <= k < |instances| :: fresh(instances[k])
    {
      startIndex, decided := persister.start, persister.start - 1;
      done[me] := startIndex;
      ReadInstances();
    }

    /** A new slot at the end of the window. */
    method Append(i: Inst) returns (inst: Instance)
      requires Valid()
      modifies this`instances
      ensures Valid() && instances == old(instances) + [inst] && fresh(inst) && inst.View() == i
      ensures Insts() == old(Insts()) + [i]
    {
      inst := new Instance(i);
      instances := instances + [inst];
    }

    method ReadInstances()
      requires Valid() && instances == [] && decided == startIndex - 1
      modifies this`instances, this`decided
      ensures Valid() && Insts() == persister.insts && forall k | 0 <= k < |instances| :: fresh(instances[k])
      ensures decided == W.LastDecided(startIndex, persister.insts, |persister.insts|)
    {
      var insts := persister.insts;
      var i := 0;
      while i < |insts|
        invariant 0 <= i <= |insts| && Valid() && Insts() == insts[..i]
        invariant forall k | 0 <= k < |instances| :: fresh(instances[k])
        invariant decided == W.LastDecided(startIndex, insts, i)
      {
        var inst := Append(insts[i]);
        if inst.status == Decided { decided := startIndex + i; }
        i := i + 1;
      }
      assert insts[..i] == insts;
    }

    /** The loop of getInstanceL. */
    method Open(s: int, propose: bool) returns (spawned: seq<int>)
      requires Valid() && startIndex <= s
      modifies this`instances
      ensures Valid() && old(instances) <= instances && forall k | |old(instances)| <= k < |instances| :: fresh(instances[k])
      ensures Insts() == W.Grow(old(Insts()), s + 1 - startIndex)
      ensures spawned == W.Range(startIndex + |old(instances)|, if propose then s + 1 else s)
    {
      spawned := [];
      ghost var first, insts, bound := startIndex + |instances|, Insts(), if propose then s + 1 else s;
      var i := startIndex + |instances|;
      while i <= s
        invariant Valid() && first <= i == startIndex + |instances| && (i == first || i <= s + 1)
        invariant old(instances) <= instances && forall k | |old(instances)| <= k < |instances| :: fresh(instances[k])
        invariant Insts() == W.Grow(insts, i - startIndex) && spawned == W.Range(first, if i < bound then i else bound)
      {
        W.GrowNext(insts, i - startIndex);
        var _ := Append(BLANK);
        if i < s || propose { spawned := spawned + [i]; }
        i := i + 1;
      }
    }

    method GetInstance(s: int, propose: bool) returns (inst: Instance?, spawned: seq<int>)
      requires Valid()
      modifies this`instances
      ensures Valid() && View() == W.Get(old(View()), s) && spawned == W.Spawned(old(View()), s, propose)
      ensures old(instances) <= instances && forall k | |old(instances)| <= k < |instances| :: fresh(instances[k])
      ensures inst == null <==> s < startIndex
      ensures inst != null ==> s < startIndex + |instances| && inst == instances[s - startIndex]
    {
      if s < startIndex { return null, []; }
      spawned := Open(s, propose);
      inst := instances[s - startIndex];
    }

    /** What a change of one held instance makes of a window. */
    ghost predicate OnlyChanged(s: int, inst: Instance, v: W.Window)
      reads this, instances, persister, done, inst
    {
      View() == v.(insts := if W.Retained(v, s) then v.insts[s - v.start := inst.View()] else v.insts)
    }

    /** The write to the persister, if any, that follows a change of a held instance. */
    method Record(s: int, inst: Instance, save: bool, ghost v: W.Window)
      requires Valid() && OnlyChanged(s, inst, v)
      modifies persister
      ensures Valid() && View() == W.PutHeld(v, s, inst.View(), save)
    {
      if save { persister.SaveInstance(s, inst.View()); }
    }

    // ------------------------------------------------------------- handlers

    method Prepare(s: int, ballot: nat) returns (reply: PrepareReply, spawned: seq<int>)
      requires Valid()
      modifies this, instances
      ensures Valid() && (View(), reply) == W.PrepareAt(old(View()), s, ballot)
      ensures spawned == W.Spawned(old(View()), s, true)
    {
      var inst;
      inst, spawned := GetInstance(s, true);
      if inst == null { return PrepareReply(LateRequest, 0, Nil), spawned; }
      ghost var v := View();
      reply := inst.Prepare(ballot);
      assert Insts() == v.insts[s - startIndex := inst.View()];
    }

    method Accept(s: int, ballot: nat, value: Payload) returns (answer: int, spawned: seq<int>)
      requires Valid()
      modifies this, instances, persister
      ensures Valid() && (View(), answer) == W.AcceptAt(old(View()), s, ballot, value)
      ensures spawned == W.Spawned(old(View()), s, true)
    {
      var inst;
      inst, spawned := GetInstance(s, true);
      if inst == null { return ACCEPT_FAIL, spawned; }
      answer := AcceptOn(s, inst, ballot, value);
    }

    method AcceptOn(s: int, inst: Instance, ballot: nat, value: Payload) returns (answer: int)
      requires Valid() && startIndex <= s < startIndex + |instances| && Holds(s, inst)
      modifies inst, persister
      ensures Valid() && (View(), answer) == W.AcceptAt(old(View()), s, ballot, value)
    {
      ghost var v := View();
      answer := inst.Accept(ballot, value);
      assert Insts() == v.insts[s - startIndex := inst.View()];
      Record(s, inst, answer == ACCEPT_OK, v);
    }

    /** decide, on the instance that its caller holds. */
    method Settle(s: int, inst: Instance, value: Payload)
      requires Valid() && Holds(s, inst)
      modifies inst, persister, this`decided
      ensures Valid() && inst.View() == I.Decide(old(inst.View()), value)
      ensures View() == W.Settle(old(View()), s, old(inst.View()), value)
    {
      SettleOn(s, inst, value);
      if s > decided { decided := s; }
    }

    method SettleOn(s: int, inst: Instance, value: Payload)
      requires Valid() && Holds(s, inst)
      modifies inst, persister
      ensures Valid() && inst.View() == I.Decide(old(inst.View()), value)
      ensures View() == W.PutHeld(old(View()), s, inst.View(), old(inst.status) != Decided)
    {
      ghost var v := View();
      var changed := inst.Decide(value);
      assert Insts() == if W.Retained(v, s) then v.insts[s - startIndex := inst.View()] else v.insts;
      Record(s, inst, changed, v);
    }

    method Decide(s: int, value: Payload) returns (spawned: seq<int>)
      requires Valid()
      modifies this, instances, persister
      ensures Valid() && View() == W.DecideAt(old(View()), s, value)
      ensures spawned == W.Spawned(old(View()), s, false)
    {
      var inst;
      inst, spawned := GetInstance(s, false);
      if inst != null { Settle(s, inst, value); }
    }

    // ------------------------------------------------------------- proposer

    /** The start of a round: its ballot and what the own acceptor holds, unless the slot is decided. */
    method Begin(s: int, inst: Instance) returns (going: bool, ballot: nat, accept: nat, value: Payload)
      requires Valid() && Holds(s, inst)
      modifies inst
      ensures Valid() && View() == W.BeginAt(old(View()), s, old(inst.View()))
      ensures going == (old(inst.status) != Decided)
      ensures going ==> inst.View() == BeginRound(old(inst.View()))
      ensures going ==> ballot == inst.prepare && accept == inst.accept && value == inst.value
    {
      ghost var v := View();
      going, ballot, accept, value := inst.status != Decided, 0, 0, Nil;
      if going {
        inst.prepare := inst.prepare + 1;
        ballot, value, accept := inst.prepare, inst.value, inst.accept;
      }
      assert Insts() == if W.Retained(v, s) then v.insts[s - startIndex := inst.View()] else v.insts;
    }

    method Raise(s: int, inst: Instance, ballot: nat)
      requires Valid() && Holds(s, inst)
      modifies inst
      ensures Valid() && inst.View() == I.Raise(old(inst.View()), ballot)
      ensures View() == W.RaiseAt(old(View()), s, old(inst.View()), ballot)
    {
      ghost var v := View();
      if ballot > inst.prepare { inst.prepare := ballot; }
      assert Insts() == if W.Retained(v, s) then v.insts[s - startIndex := inst.View()] else v.insts;
    }

    method Enter(s: int, inst: Instance, ballot: nat, value: Payload) returns (entered: bool)
      requires Valid() && Holds(s, inst)
      modifies inst, persister
      ensures Valid() && (inst.View(), entered) == I.EnterAccept(old(inst.View()), ballot, value)
      ensures View() == W.EnterAt(old(View()), s, old(inst.View()), ballot, value)
    {
      ghost var v := View();
      entered := inst.EnterAccept(ballot, value);
      assert Insts() == if W.Retained(v, s) then v.insts[s - startIndex := inst.View()] else v.insts;
      Record(s, inst, entered, v);
    }

    // -------------------------------------------------- the application's calls

    /** Start: the slots that get a proposer without a value, and whether `s` gets one with it. */
    method Start(s: int) returns (spawned: seq<int>, proposes: bool)
      requires Valid()
      modifies this`instances
      ensures Valid() && View() == W.Get(old(View()), s)
      ensures spawned == W.Spawned(old(View()), s, false) && proposes == (s >= startIndex)
    {
      var inst;
      inst, spawned := GetInstance(s, false);
      proposes := inst != null;
    }

    method Done(s: int)
      requires Valid()
      modifies done
      ensures Valid() && View() == W.Done(old(View()), s)
    {
      if s >= done[me] { done[me] := s + 1; }
    }

    method Max() returns (s: int)
      requires Valid()
      ensures s == W.Max(View()) && forall t :: W.Status(View(), t).0 == Exceeded <==> t > s
    {
      s := startIndex + |instances| - 1;
    }

    method Min() returns (s: int)
      requires Valid()
      ensures forall t :: W.Status(View(), t).0 == Forgotten <==> t < s
      ensures s == View().start
    {
      s := startIndex;
    }

    method Status(s: int) returns (fate: Fate, value: Payload)
      requires Valid()
      modifies this`instances
      ensures Valid() && instances == old(instances) && (fate, value) == W.Status(View(), s)
    {
      if s >= |instances| + startIndex { return Exceeded, Nil; }
      var inst, _ := GetInstance(s, false);
      if inst == null { return Forgotten, Nil; }
      if inst.status == Decided { return Decided, inst.value; }
      return Pending, Nil;
    }

    // --------------------------------------------------------- forgetting pass

    method GetDone() returns (reply: W.DoneReply)
      requires Valid()
      ensures reply == W.Report(View())
    {
      reply := W.DoneReply(done[me], decided, me);
    }

    static method ReadReplies(n: nat, replies: seq<W.DoneReply>) returns (got: seq<nat>, high: int)
      ensures |got| == n && got == W.Collect(replies, seq(n, _ => 0)) && high == W.HighDecided(replies, -1)
    {
      got, high := seq(n, _ => 0), -1;
      var i := 0;
      while i < |replies|
        invariant 0 <= i <= |replies| && |got| == n
        invariant W.Collect(replies[i..], got) == W.Collect(replies, seq(n, _ => 0))
        invariant W.HighDecided(replies[i..], high) == W.HighDecided(replies, -1)
      {
        assert replies[i..][1..] == replies[i + 1..];
        if replies[i].decided > high { high := replies[i].decided; }
        if 0 <= replies[i].srv < n { got := got[replies[i].srv := replies[i].done]; }
        i := i + 1;
      }
    }

    method MergeDone(got: seq<nat>) returns (low: nat)
      requires Valid() && |got| == done.Length
      modifies done
      ensures Valid() && done[..] == W.MergeDone(old(done[..]), got) && low == W.Lowest(done[..], old(done[me]))
    {
      low := done[me];
      ghost var was, first := done[..], done[me];
      ghost var merged := W.MergeDone(was, got);
      var i := 0;
      while i < |got|
        invariant 0 <= i <= |got| && done[..] == merged[..i] + was[i..]
        invariant W.Lowest(merged[i..], low) == W.Lowest(merged, first)
      {
        W.LowestNext(merged, i, low);
        var d := MergeAt(i, got[i], was, merged);
        if d < low { low := d; }
        i := i + 1;
      }
    }

    /** One turn of the merge. */
    method MergeAt(i: nat, rd: nat, ghost was: seq<nat>, ghost merged: seq<nat>) returns (d: nat)
      requires i < done.Length == |was| == |merged| && done[..] == merged[..i] + was[i..]
      requires merged[i] == if rd > was[i] then rd else was[i]
      modifies done
      ensures d == merged[i] && done[..] == merged[..i + 1] + was[i + 1..]
    {
      assert done[i] == done[..][i] == was[i];
      if rd > done[i] { done[i] := rd; }
      d := done[i];
    }

    method Persist(force: bool)
      requires Valid()
      modifies persister
      ensures Valid() && View() == W.Save(old(View()), force)
    {
      if persister.enable || force {
        var insts := [];
        var i := 0;
        while i < |instances|
          invariant 0 <= i <= |instances| && insts == Insts()[..i]
        {
          insts := insts + [instances[i].View()];
          i := i + 1;
        }
        assert insts == Insts();
        persister.Save(startIndex, insts);
      }
    }

    /** The slots below `low` leave the window; `forgotten` are then settled in the background. */
    method Trim(low: nat) returns (forgotten: seq<Instance>)
      requires Valid()
      modifies this, persister
      ensures Valid() && View() == W.Trim(old(View()), low)
      ensures forgotten + instances == old(instances) && |forgotten| == startIndex - old(startIndex)
    {
      forgotten := [];
      if low > startIndex {
        var first := low;
        if first > startIndex + |instances| { first := startIndex + |instances|; }
        forgotten := Drop(first);
        Persist(false);
      }
    }

    method Drop(first: nat) returns (forgotten: seq<Instance>)
      requires Valid() && startIndex <= first <= startIndex + |instances|
      modifies this`instances, this`startIndex
      ensures Valid() && View() == W.Cut(old(View()), first)
      ensures forgotten + instances == old(instances) && |forgotten| == first - old(startIndex)
    {
      var d := first - startIndex;
      ghost var was, insts := instances, Insts();
      forgotten, instances := instances[..d], instances[d..];
      startIndex := first;
      assert forall k | 0 <= k < |instances| :: instances[k] == was[d + k];
      forall k | 0 <= k < |instances| ensures Insts()[k] == insts[d..][k] { assert was[d + k].View() == insts[d + k]; }
      assert Insts() == insts[d..];
    }

    method Tick(replies: seq<W.DoneReply>) returns (forgotten: seq<Instance>, spawned: seq<int>)
      requires Valid()
      modifies this, done, persister
      ensures Valid() && View() == W.Tick(old(View()), replies) && spawned == W.TickSpawned(old(View()), replies)
      ensures |forgotten| <= |old(instances)| && forgotten == old(instances)[..|forgotten|]
      ensures |forgotten| == startIndex - old(startIndex)
    {
      var got, high := ReadReplies(done.Length, replies);
      var low := MergeDone(got);
      spawned := [];
      forgotten := Trim(low);
      assert View() == W.Trimmed(old(View()), replies);
      if high > decided {
        var _, slots := GetInstance(high, true);
        spawned := slots;
      }
    }
  }

  // ----------------------------------------------------------- the tally loops

  /** The prepare loop of a proposer over the replies in the order they arrive. */
  method TallyPrepare(replies: seq<PrepareReply>, n: nat, accept: nat, value: Payload) returns (o: PrepareOutcome)
    ensures o == I.TallyPrepare(replies, n, 0, 1, accept, value)
  {
    var votes, best, carried, i := 1, accept, value, 0;
    while i < |replies|
      invariant 0 <= i <= |replies| && votes <= i + 1
      invariant I.TallyPrepare(replies[i..], n, i, votes, best, carried) == I.TallyPrepare(replies, n, 0, 1, accept, value)
    {
      var r := replies[i];
      assert replies[i..][1..] == replies[i + 1..];
      match r.code {
        case Ok =>
          votes := votes + 1;
          if r.acPr > best { best, carried := r.acPr, r.value; }
          if votes * 2 > n { return Promised(best, carried); }
        case HasDecided => return AlreadyDecided(r.value);
        case LowPrepare => return Refused(r.acPr);
        case LateRequest => return Late;
        case NoReply =>
      }
      if (i + 1 + 1 - votes) * 2 >= n { return BadNetwork; }
      i := i + 1;
    }
    o := Waiting;
  }

  /** The accept loop; the highest refusal is what the next ballot must pass. */
  method TallyAccept(answers: seq<int>, n: nat, ballot: nat) returns (o: AcceptOutcome)
    ensures o == I.TallyAccept(answers, n, 0, 1, ballot)
  {
    var votes, high, i := 1, ballot as int, 0;
    while i < |answers|
      invariant 0 <= i <= |answers| && votes <= i + 1
      invariant I.TallyAccept(answers[i..], n, i, votes, high) == I.TallyAccept(answers, n, 0, 1, ballot)
    {
      assert answers[i..][1..] == answers[i + 1..];
      if answers[i] == ACCEPT_OK {
        votes := votes + 1;
        if votes * 2 > n { return Chosen; }
      } else {
        if answers[i] > high { high := answers[i]; }
        if (i + 1 + 1 - votes) * 2 >= n { return NotChosen(high); }
      }
      i := i + 1;
    }
    o := NotChosen(high);
  }
}
