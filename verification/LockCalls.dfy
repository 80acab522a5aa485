/** A client call on a Paxos lock server (operateL in src/paxosserver/server.go), over every
    run of the server around it: slots are decided, applied and opened at any time. */
module LockCalls {
  import opened Session
  import opened LockTable

  /** A call in operateL: the slot it waits for, and all the slots it has proposed its
      operation in. */
  datatype Call = Call(op: Op, pxseq: int, proposed: seq<int>, returned: bool)

  /** The top of the loop: propose in the next slot once the last one has been applied. */
  function Propose(call: Call, applied: nat, max: int): Call {
    if applied > call.pxseq then call.(pxseq := max + 1, proposed := call.proposed + [max + 1]) else call
  }

  /** The call after its wait: it returns when its number has been seen. */
  function Wake(call: Call, applied: nat, t: Tables, max: int): Call {
    if call.returned then call
    else if call.op.seqno <= Seen(t, call.op.sessid) then call.(returned := true)
    else Propose(call, applied, max)
  }

  /** `slots` are the slots decided anywhere; `max` is the highest slot of this server's peer. */
  datatype Server = Server(slots: map<nat, Payload>, applied: nat, tables: Tables, max: int, call: Call)

  ghost predicate AllDecided(slots: map<nat, Payload>, k: nat) {
    forall i: nat | i < k :: i in slots
  }

  ghost function Prefix(slots: map<nat, Payload>, k: nat): (log: seq<Payload>)
    requires AllDecided(slots, k)
    ensures |log| == k && forall i | 0 <= i < k :: log[i] == slots[i]
  {
    seq(k, i requires 0 <= i < k => slots[i])
  }

  /** The server has applied the first slots, all of which its peer knows. */
  ghost predicate ServerOk(c: Server) {
    && AllDecided(c.slots, c.applied) && c.tables == ApplyAll(EMPTY, Prefix(c.slots, c.applied)) && c.max >= c.applied - 1
  }

  /** Any state of the server in which a handler enters operateL. */
  ghost predicate Init(c: Server) {
    && ServerOk(c) && FromClient(c.call.op)
    && c.call == Propose(Call(c.call.op, -1, [], false), c.applied, c.max)
  }

  datatype Step = DecideSlot(k: nat, value: Payload) | OpenSlots(max: int) | ApplySlot | WakeCall

  ghost predicate StepOk(c: Server, c': Server, step: Step) {
    match step
    case DecideSlot(k, value) => k !in c.slots && c' == c.(slots := c.slots[k := value])
    case OpenSlots(max) => max >= c.max && c' == c.(max := max)
    case ApplySlot =>
      && c.applied in c.slots && c.applied <= c.max
      && c' == c.(applied := c.applied + 1, tables := Apply(c.tables, c.slots[c.applied]))
    case WakeCall =>
      var call := Wake(c.call, c.applied, c.tables, c.max);
      c' == c.(call := call, max := if call.pxseq > c.max then call.pxseq else c.max)
  }

  ghost predicate Next(c: Server, c': Server) {
    exists step :: StepOk(c, c', step)
  }

  ghost predicate Linked(run: seq<Server>, i: nat) {
    i + 1 < |run| ==> Next(run[i], run[i + 1])
  }

  ghost predicate Run(run: seq<Server>) {
    && run != [] && Init(run[0])
    && forall i: nat {:trigger Linked(run, i)} :: Linked(run, i)
  }

  // --------------------------------------------------------------- invariant

  /** An earlier proposal of the call: applied since, with something else in the slot. */
  ghost predicate LostSlot(c: Server, s: int) {
    0 <= s < c.applied && s in c.slots && c.slots[s] != Request(c.call.op)
  }

  ghost predicate Inv(c: Server) {
    && ServerOk(c) && FromClient(c.call.op)
    && c.call.proposed != [] && c.call.proposed[|c.call.proposed| - 1] == c.call.pxseq >= 0
    && (forall j, k | 0 <= j < k < |c.call.proposed| :: c.call.proposed[j] < c.call.proposed[k])
    && (forall j {:trigger LostSlot(c, c.call.proposed[j])} | 0 <= j < |c.call.proposed| - 1 :: LostSlot(c, c.call.proposed[j]))
    && (c.call.returned ==> c.call.op.seqno <= Seen(c.tables, c.call.op.sessid))
  }

  lemma SeenRises(t: Tables, p: Payload, sessid: int)
    ensures Seen(t, sessid) <= Seen(Apply(t, p), sessid)
  {
  }

  /** Once a slot with the call's operation is applied, its number has been seen. */
  lemma AppliedSeen(c: Server, s: int)
    requires ServerOk(c) && FromClient(c.call.op) && 0 <= s < c.applied
    ensures s in c.slots
    ensures c.slots[s] == Request(c.call.op) ==> c.call.op.seqno <= Seen(c.tables, c.call.op.sessid)
  {
    var log := Prefix(c.slots, c.applied);
    SeenIsHighest(log, c.call.op.sessid);
    if log[s] == Request(c.call.op) { assert SameStream(log, s, c.call.op.sessid); }
  }

  lemma ApplyKeeps(c: Server, c': Server)
    requires Inv(c) && StepOk(c, c', ApplySlot)
    ensures Inv(c')
  {
    var log := Prefix(c'.slots, c'.applied);
    assert log[..c.applied] == Prefix(c.slots, c.applied);
    SeenRises(c.tables, c.slots[c.applied], c.call.op.sessid);
    forall j | 0 <= j < |c'.call.proposed| - 1 ensures LostSlot(c', c'.call.proposed[j]) { assert LostSlot(c, c.call.proposed[j]); }
  }

  lemma WakeKeeps(c: Server, c': Server)
    requires Inv(c) && StepOk(c, c', WakeCall)
    ensures Inv(c')
  {
    if c.call.pxseq < c.applied { AppliedSeen(c, c.call.pxseq); }
    forall j | 0 <= j < |c'.call.proposed| - 1 ensures LostSlot(c', c'.call.proposed[j]) {
      if j < |c.call.proposed| - 1 { assert LostSlot(c, c.call.proposed[j]); }
    }
  }

  lemma DecideKeeps(c: Server, c': Server, k: nat, value: Payload)
    requires Inv(c) && StepOk(c, c', DecideSlot(k, value))
    ensures Inv(c')
  {
    assert Prefix(c'.slots, c.applied) == Prefix(c.slots, c.applied);
    forall j | 0 <= j < |c'.call.proposed| - 1 ensures LostSlot(c', c'.call.proposed[j]) { assert LostSlot(c, c.call.proposed[j]); }
  }

  lemma StepKeeps(c: Server, c': Server, step: Step)
    requires Inv(c) && StepOk(c, c', step)
    ensures Inv(c')
  {
    match step
    case DecideSlot(k, value) => DecideKeeps(c, c', k, value);
    case OpenSlots(max) =>
      forall j | 0 <= j < |c'.call.proposed| - 1 ensures LostSlot(c', c'.call.proposed[j]) { assert LostSlot(c, c.call.proposed[j]); }
    case ApplySlot => ApplyKeeps(c, c');
    case WakeCall => WakeKeeps(c, c');
  }

  lemma {:induction false} RunKeeps(run: seq<Server>, i: nat)
    requires Run(run) && i < |run|
    ensures Inv(run[i]) && run[i].call.op == run[0].call.op
  {
    if i > 0 {
      RunKeeps(run, i - 1);
      assert Linked(run, i - 1);
      var step :| StepOk(run[i - 1], run[i], step);
      StepKeeps(run[i - 1], run[i], step);
    }
  }

  /** Slot `s` is decided with the operation of the call. */
  ghost predicate Carries(c: Server, s: int) {
    s >= 0 && s in c.slots && c.slots[s] == Request(c.call.op)
  }

  /** In every run a call gets its operation decided in at most one of the slots it proposed. */
  lemma OneSlotPerCall(run: seq<Server>, i: nat, j: nat, k: nat)
    requires Run(run) && i < |run| && j < k < |run[i].call.proposed|
    ensures !(Carries(run[i], run[i].call.proposed[j]) && Carries(run[i], run[i].call.proposed[k]))
  {
    RunKeeps(run, i);
    assert LostSlot(run[i], run[i].call.proposed[j]);
  }

  /** Its slots rise, and it proposes again only after the earlier slot was applied with something else. */
  lemma EarlierSlotsLost(run: seq<Server>, i: nat, j: nat)
    requires Run(run) && i < |run| && j + 1 < |run[i].call.proposed|
    ensures LostSlot(run[i], run[i].call.proposed[j]) && run[i].call.proposed[j] < run[i].call.proposed[j + 1]
  {
    RunKeeps(run, i);
  }

  /** A call that has returned by itself had its number applied. */
  lemma ReturnedSeen(run: seq<Server>, i: nat)
    requires Run(run) && i < |run| && run[i].call.returned
    ensures run[i].call.op.seqno <= Seen(run[i].tables, run[i].call.op.sessid)
  {
    RunKeeps(run, i);
  }

  // ------------------------------------------------------------------ progress

  lemma Extend(run: seq<Server>, c: Server, step: Step)
    requires Run(run) && StepOk(run[|run| - 1], c, step)
    ensures Run(run + [c])
  {
    var longer := run + [c];
    forall i: nat ensures Linked(longer, i) { if i + 1 < |run| { assert Linked(run, i); } }
  }

  /** The slots below `k` can all be applied, undecided ones with nil; the call waits meanwhile. */
  lemma {:induction false} AppliesUpTo(run: seq<Server>, k: nat) returns (more: seq<Server>)
    requires Run(run) && k <= run[|run| - 1].max + 1
    ensures Run(more) && run <= more
    ensures var c, d := run[|run| - 1], more[|more| - 1];
      && d.call == c.call && d.max == c.max && d.applied >= k
      && (forall s: nat | s in c.slots :: s in d.slots && d.slots[s] == c.slots[s])
      && (forall s: nat | s in d.slots && s >= k :: s in c.slots)
    decreases k - run[|run| - 1].applied
  {
    var c := run[|run| - 1];
    if c.applied >= k {
      more := run;
    } else {
      var mid := run;
      if c.applied !in c.slots {
        var d := c.(slots := c.slots[c.applied := Nil]);
        Extend(run, d, DecideSlot(c.applied, Nil));
        mid := run + [d];
      }
      var d := mid[|mid| - 1];
      var e := d.(applied := d.applied + 1, tables := Apply(d.tables, d.slots[d.applied]));
      Extend(mid, e, ApplySlot);
      more := AppliesUpTo(mid + [e], k);
    }
  }

  lemma {:induction false} SlotBound(slots: set<nat>) returns (m: nat)
    ensures forall s | s in slots :: s <= m
  {
    if slots == {} {
      m := 0;
    } else {
      var s :| s in slots;
      var rest := SlotBound(slots - {s});
      m := if s > rest then s else rest;
      assert forall t | t in slots :: t == s || t in slots - {s};
    }
  }

  /** The call wakes once its slot has been applied: it returns if its number has been seen, and
      otherwise proposes in a slot past all that the server knows. */
  lemma Wakes(run: seq<Server>) returns (more: seq<Server>)
    requires Run(run) && run[|run| - 1].applied > run[|run| - 1].call.pxseq
    ensures Run(more) && run <= more
    ensures var c, d := run[|run| - 1], more[|more| - 1];
      && d == c.(call := d.call, max := d.max) && d.call.op == c.call.op
      && (c.call.op.seqno <= Seen(c.tables, c.call.op.sessid) ==> d.call.returned)
      && (!d.call.returned ==> d.call.pxseq == c.max + 1 == d.max && c.max + 1 in d.call.proposed)
  {
    var c := run[|run| - 1];
    var call := Wake(c.call, c.applied, c.tables, c.max);
    var d := c.(call := call, max := if call.pxseq > c.max then call.pxseq else c.max);
    Extend(run, d, WakeCall);
    more := run + [d];
  }

  /** No call is stuck: from every point of every run it can go on to return, with its number
      applied. */
  lemma CallReturns(run: seq<Server>) returns (more: seq<Server>)
    requires Run(run)
    ensures Run(more) && run <= more && more[|more| - 1].call.returned && more[|more| - 1].call.op == run[0].call.op
  {
    var c := run[|run| - 1];
    RunKeeps(run, |run| - 1);
    var top := SlotBound(c.slots.Keys);
    var max := if c.max > top then c.max else top;
    max := if c.call.pxseq > max then c.call.pxseq else max;
    Extend(run, c.(max := max), OpenSlots(max));
    var r1 := AppliesUpTo(run + [c.(max := max)], c.call.pxseq + 1);
    var r2 := Wakes(r1);
    var d := r2[|r2| - 1];
    if d.call.returned {
      more := r2;
    } else {
      more := Carried(r2, max + 1);
    }
    RunKeeps(more, |more| - 1);
  }

  /** A call whose slot is still open returns once the slot is decided with its operation. */
  lemma Carried(run: seq<Server>, s: nat) returns (more: seq<Server>)
    requires Run(run) && run[|run| - 1].call.pxseq == s == run[|run| - 1].max && s !in run[|run| - 1].slots
    ensures Run(more) && run <= more && more[|more| - 1].call.returned && more[|more| - 1].call.op == run[|run| - 1].call.op
  {
    var c := run[|run| - 1];
    var d := c.(slots := c.slots[s := Request(c.call.op)]);
    Extend(run, d, DecideSlot(s, Request(c.call.op)));
    var mid := AppliesUpTo(run + [d], s + 1);
    RunKeeps(mid, |mid| - 1);
    AppliedSeen(mid[|mid| - 1], s);
    more := Wakes(mid);
  }
}
