/** The lock service over Paxos, end to end: every server has its window of slots, any number of
    slots run side by side through the window's handlers, and every server applies what Status
    answers for its slots in order. */
module PaxosReplicas {
  import opened Session
  import opened Quorums
  import opened LockTable
  import opened PaxosInstance
  import opened PaxosWindow
  import opened PaxosHandlers
  import S = PaxosSlot
  import A = PaxosAgreement
  import PaxosSteps
  import PaxosSafety
  import PaxosAvailability

  /** The application of one server; `trace[k]` are its tables after `k` slots. */
  datatype App = App(applied: nat, tables: Tables, trace: seq<Tables>)

  const FRESH := App(0, EMPTY, [EMPTY])

  /** What a slot has outside the windows: its rounds, its messages, its history. */
  datatype Lane = Lane(rounds: map<(nat, nat), S.Round>, net: set<S.Msg>, hist: S.Hist)

  datatype Service = Service(windows: seq<Window>, lanes: seq<Lane>, apps: seq<App>)

  /** What a window has for a slot. */
  ghost function InstOf(w: Window, k: nat): Inst {
    if Retained(w, k) then At(w, k) else BLANK
  }

  /** Slot `k` across all servers. */
  ghost function SlotOf(c: Service, k: nat): (slot: S.Slot)
    requires k < |c.lanes|
    ensures |slot.insts| == |c.windows| && forall s | 0 <= s < |c.windows| :: slot.insts[s] == InstOf(c.windows[s], k)
  {
    S.Slot(seq(|c.windows|, s requires 0 <= s < |c.windows| => InstOf(c.windows[s], k)), c.lanes[k].rounds, c.lanes[k].net, c.lanes[k].hist)
  }

  datatype Step = InSlot(k: nat, step: S.Step) | Open(s: nat, k: nat) | ApplySlot(s: nat) | Restart(s: nat)

  ghost predicate Init(c: Service, m: nat, n: nat) {
    && |c.windows| == n && (forall s | 0 <= s < n :: exists enable :: c.windows[s] == Load(Disk(0, []), n, s, enable))
    && |c.lanes| == m && (forall k | 0 <= k < m :: c.lanes[k] == Lane(map[], {}, S.Hist({}, {}, {}, map[])))
    && c.apps == seq(n, _ => FRESH)
  }

  /** What the section behind a step of slot `k` does to the window of its server. */
  ghost function Handle(c: Service, k: nat, step: S.Step): Window
    requires k < |c.lanes| && step.s < |c.windows|
  {
    var w, n := c.windows[step.s], |c.windows|;
    var v, i := Get(w, k), InstOf(w, k);
    match step
    case Submit(_, _) => w
    case Begin(_, _) => BeginAt(v, k, i)
    case Promise(_, _, b) => PrepareAt(w, k, b).0
    case EndPrepare(s, b, _, replies) =>
      if (s, b) !in c.lanes[k].rounds then w
      else
        var r := c.lanes[k].rounds[(s, b)];
        (match TallyPrepare(replies, n, 0, 1, r.accept, r.value)
         case Refused(p) => RaiseAt(v, k, i, p)
         case Promised(_, best) => EnterAt(v, k, i, b, if best == Nil then r.v else best)
         case _ => w)
    case Vouch(_, _, b, value) => AcceptAt(w, k, b, value).0
    case EndAccept(_, b, _, answers) =>
      (match TallyAccept(answers, n, 0, 1, b)
       case NotChosen(high) => if high > b then RaiseAt(v, k, i, high) else w
       case Chosen => w)
    case Learn(_, value) => DecideAt(w, k, value)
    case Reboot(_) => w
  }

  /** A step of slot `k`, by the handlers on the window; any round may propose nil. */
  ghost predicate InSlotStep(c: Service, c': Service, k: nat, step: S.Step) {
    && k < |c.lanes| == |c'.lanes| && step.s < |c.windows| && !step.Reboot?
    && c' == c.(windows := c.windows[step.s := Handle(c, k, step)], lanes := c.lanes[k := c'.lanes[k]])
    && S.StepOk(SlotOf(c, k), SlotOf(c', k), step, true)
  }

  /** The applier asks for the next slot of its own server and goes on if it is decided. */
  ghost predicate ApplyStep(c: Service, c': Service, s: nat) {
    && s < |c.apps| && s < |c.windows|
    && var app := c.apps[s];
       var (fate, value) := Status(c.windows[s], app.applied);
       && app.applied < |c.lanes| && fate == Decided
       && var t := Apply(app.tables, value);
          c' == c.(apps := c.apps[s := App(app.applied + 1, t, app.trace + [t])])
  }

  ghost function Stopped(l: Lane, s: nat): Lane {
    l.(rounds := map k | k in l.rounds :: if k.0 == s then l.rounds[k].(phase := S.Over) else l.rounds[k])
  }

  /** A controlled restart: the window is saved and read back, the proposers are gone and the
      application begins anew. */
  ghost predicate RestartStep(c: Service, c': Service, s: nat) {
    && s < |c.windows| && s < |c.apps| && |c'.lanes| == |c.lanes| && (forall k | 0 <= k < |c.lanes| :: c'.lanes[k] == Stopped(c.lanes[k], s))
    && c' == c.(windows := c.windows[s := Load(Save(c.windows[s], true).disk, |c.windows|, s, c.windows[s].enable)],
                lanes := c'.lanes, apps := c.apps[s := FRESH])
  }

  ghost predicate StepOk(c: Service, c': Service, step: Step) {
    match step
    case InSlot(k, step) => InSlotStep(c, c', k, step)
    case Open(s, k) => s < |c.windows| && c' == c.(windows := c.windows[s := Get(c.windows[s], k)])
    case ApplySlot(s) => ApplyStep(c, c', s)
    case Restart(s) => RestartStep(c, c', s)
  }

  ghost predicate Next(c: Service, c': Service) {
    exists step :: StepOk(c, c', step)
  }

  ghost predicate Linked(run: seq<Service>, i: nat) {
    i + 1 < |run| ==> Next(run[i], run[i + 1])
  }

  ghost predicate Run(run: seq<Service>, m: nat, n: nat) {
    && run != [] && Init(run[0], m, n)
    && forall i: nat {:trigger Linked(run, i)} :: Linked(run, i)
  }

  // ------------------------------------------------------ windows against slots

  /** Nothing has been forgotten. */
  ghost predicate Whole(c: Service) {
    forall s | 0 <= s < |c.windows| :: c.windows[s].start == 0
  }

  /** A section leaves in the window what the protocol step leaves in its slot, and every other slot
      as it was. */
  lemma HandleActs(c: Service, k: nat, step: S.Step, x: S.Slot)
    requires Whole(c) && k < |c.lanes| && step.s < |c.windows| && !step.Reboot? && S.StepOk(SlotOf(c, k), x, step, true)
    ensures |x.insts| == |c.windows| && ActsOn(c.windows[step.s], Handle(c, k, step), k, x.insts[step.s])
    ensures forall s | 0 <= s < |c.windows| && s != step.s :: x.insts[s] == InstOf(c.windows[s], k)
  {
    var w, i := c.windows[step.s], InstOf(c.windows[step.s], k);
    var v := Get(w, k);
    assert i == InstAt(w, k) && SlotOf(c, k).insts[step.s] == i;
    GetActs(w, k);
    match step
    case Submit(_, _) => Unmoved(w, k);
    case Begin(_, _) => ProposerOpens(w, k, 0, Nil);
    case Promise(_, _, b) => PrepareActs(w, k, b);
    case EndPrepare(s, b, _, replies) => EndPrepareActs(c, k, step, x);
    case Vouch(_, _, b, value) => AcceptActs(w, k, b, value);
    case EndAccept(_, b, _, answers) => EndAcceptActs(c, k, step, x);
    case Learn(_, value) => DecideActs(w, k, value);
  }

  lemma Unmoved(w: Window, k: nat)
    requires w.start == 0
    ensures ActsOn(w, w, k, InstAt(w, k))
  {
  }

  lemma ProposerOpens(w: Window, k: nat, ballot: nat, value: Payload)
    requires w.start == 0
    ensures var v, i := Get(w, k), InstAt(w, k);
      && ActsOn(w, BeginAt(v, k, i), k, if i.status == Decided then i else BeginRound(i))
      && ActsOn(w, RaiseAt(v, k, i, ballot), k, Raise(i, ballot))
      && ActsOn(w, EnterAt(v, k, i, ballot, value), k, EnterAccept(i, ballot, value).0)
  {
    var v, i := Get(w, k), InstAt(w, k);
    GetActs(w, k);
    ProposerActs(v, k, ballot, value);
    ActsTwice(w, v, BeginAt(v, k, i), k, i, if i.status == Decided then i else BeginRound(i));
    ActsTwice(w, v, RaiseAt(v, k, i, ballot), k, i, Raise(i, ballot));
    ActsTwice(w, v, EnterAt(v, k, i, ballot, value), k, i, EnterAccept(i, ballot, value).0);
  }

  lemma EndPrepareActs(c: Service, k: nat, step: S.Step, x: S.Slot)
    requires Whole(c) && k < |c.lanes| && step.s < |c.windows| && step.EndPrepare? && S.StepOk(SlotOf(c, k), x, step, true)
    ensures |x.insts| == |c.windows| && ActsOn(c.windows[step.s], Handle(c, k, step), k, x.insts[step.s])
    ensures forall s | 0 <= s < |c.windows| && s != step.s :: x.insts[s] == InstOf(c.windows[s], k)
  {
    var w, r := c.windows[step.s], c.lanes[k].rounds[(step.s, step.ballot)];
    Unmoved(w, k);
    match TallyPrepare(step.replies, |c.windows|, 0, 1, r.accept, r.value)
    case Refused(p) => ProposerOpens(w, k, p, Nil);
    case Promised(_, best) => ProposerOpens(w, k, step.ballot, if best == Nil then r.v else best);
    case _ =>
  }

  lemma EndAcceptActs(c: Service, k: nat, step: S.Step, x: S.Slot)
    requires Whole(c) && k < |c.lanes| && step.s < |c.windows| && step.EndAccept? && S.StepOk(SlotOf(c, k), x, step, true)
    ensures |x.insts| == |c.windows| && ActsOn(c.windows[step.s], Handle(c, k, step), k, x.insts[step.s])
    ensures forall s | 0 <= s < |c.windows| && s != step.s :: x.insts[s] == InstOf(c.windows[s], k)
  {
    var w := c.windows[step.s];
    Unmoved(w, k);
    match TallyAccept(step.answers, |c.windows|, 0, 1, step.ballot)
    case NotChosen(high) => if high > step.ballot { ProposerOpens(w, k, high, Nil); }
    case Chosen =>
  }

  /** So whatever a slot can do the windows can do: no handler gets in the way. */
  lemma SlotStepEnabled(c: Service, k: nat, step: S.Step, x: S.Slot) returns (c': Service)
    requires Whole(c) && k < |c.lanes| && step.s < |c.windows| && !step.Reboot? && S.StepOk(SlotOf(c, k), x, step, true)
    ensures InSlotStep(c, c', k, step) && SlotOf(c', k) == x && Whole(c')
  {
    HandleActs(c, k, step, x);
    c' := c.(windows := c.windows[step.s := Handle(c, k, step)], lanes := c.lanes[k := Lane(x.rounds, x.net, x.hist)]);
    var slot := SlotOf(c', k);
    forall s | 0 <= s < |x.insts| ensures slot.insts[s] == x.insts[s] {
      if s == step.s { assert InstAt(c'.windows[s], k) == x.insts[s]; }
    }
    assert slot.insts == x.insts;
  }

  /** And no other slot is touched. */
  lemma OtherSlots(c: Service, c': Service, k: nat, step: S.Step, j: nat)
    requires Whole(c) && InSlotStep(c, c', k, step) && j < |c.lanes| && j != k
    ensures SlotOf(c', j) == SlotOf(c, j)
  {
    HandleActs(c, k, step, SlotOf(c', k));
    var a, b := SlotOf(c, j), SlotOf(c', j);
    forall s | 0 <= s < |a.insts| ensures b.insts[s] == a.insts[s] {
      if s == step.s { assert InstAt(c'.windows[s], j) == InstAt(c.windows[s], j); }
    }
    assert a.insts == b.insts;
  }

  lemma InSlotWhole(c: Service, c': Service, k: nat, step: S.Step)
    requires Whole(c) && InSlotStep(c, c', k, step)
    ensures Whole(c')
  {
    HandleActs(c, k, step, SlotOf(c', k));
  }

  lemma OpenUnseen(c: Service, c': Service, s: nat, k: nat, j: nat)
    requires Whole(c) && StepOk(c, c', Open(s, k)) && j < |c.lanes|
    ensures Whole(c') && SlotOf(c', j) == SlotOf(c, j)
  {
    GetActs(c.windows[s], k);
    var a, b := SlotOf(c, j), SlotOf(c', j);
    forall t | 0 <= t < |a.insts| ensures b.insts[t] == a.insts[t] {
      if t == s { assert InstAt(c'.windows[s], j) == InstAt(c.windows[s], j); }
    }
    assert a.insts == b.insts;
  }

  lemma RestartSeen(c: Service, c': Service, s: nat, j: nat)
    requires Whole(c) && RestartStep(c, c', s) && j < |c.lanes|
    ensures Whole(c') && S.StepOk(SlotOf(c, j), SlotOf(c', j), S.Reboot(s), true)
  {
    RestartActs(c.windows[s], |c.windows|);
    var a, b := SlotOf(c, j), SlotOf(c', j);
    forall t | 0 <= t < |a.insts| ensures b.insts[t] == a.insts[t] {
      if t == s { assert c'.windows[s].insts == c.windows[s].insts; }
    }
    assert a.insts == b.insts;
  }

  // --------------------------------------------------------------- invariant

  ghost predicate SlotOk(slot: S.Slot, n: nat) {
    A.Inv(slot, n) && PaxosSafety.Safe(slot, n)
  }

  /** Server `s` answers for slot `k` that it is decided with `v`. */
  ghost predicate DecidedAs(c: Service, k: nat, s: nat, v: Payload) {
    k < |c.lanes| && s < |c.windows| && Status(c.windows[s], k) == (Decided, v)
  }

  lemma DecidedIff(c: Service, k: nat, s: nat, v: Payload)
    requires k < |c.lanes| && s < |c.windows|
    ensures DecidedAs(c, k, s, v) <==> SlotOf(c, k).insts[s].status == Decided && SlotOf(c, k).insts[s].value == v
  {
    StatusIff(c.windows[s], k, v);
  }

  /** Step `k` of the trace of server `s` carried out what the server has decided in slot `k`. */
  ghost predicate TraceStep(c: Service, s: nat, k: nat) {
    && s < |c.apps| && k + 1 < |c.apps[s].trace|
    && exists v :: DecidedAs(c, k, s, v) && c.apps[s].trace[k + 1] == Apply(c.apps[s].trace[k], v)
  }

  ghost predicate AppOk(c: Service, s: nat)
    requires s < |c.apps|
  {
    var app := c.apps[s];
    && |app.trace| == app.applied + 1 && app.trace[0] == EMPTY && app.tables == app.trace[app.applied]
    && forall k: nat {:trigger TraceStep(c, s, k)} | k < app.applied :: TraceStep(c, s, k)
  }

  ghost predicate SlotsOk(c: Service, n: nat) {
    forall k {:trigger SlotOf(c, k)} | 0 <= k < |c.lanes| :: SlotOk(SlotOf(c, k), n)
  }

  ghost predicate Inv(c: Service, m: nat, n: nat) {
    && |c.lanes| == m && |c.apps| == n && |c.windows| == n && Whole(c) && SlotsOk(c, n)
    && (forall s {:trigger AppOk(c, s)} | 0 <= s < n :: AppOk(c, s))
  }

  /** A decision of a server is final. */
  lemma DecidedFinal(c: S.Slot, c': S.Slot, s: nat)
    requires S.Next(c, c', true) && s < |c.insts| && c.insts[s].status == Decided
    ensures |c'.insts| == |c.insts| && c'.insts[s].status == Decided && c'.insts[s].value == c.insts[s].value
  {
  }

  /** A slot has not changed, or by a step of its own. */
  ghost predicate Moves(slot: S.Slot, slot': S.Slot) {
    slot' == slot || S.Next(slot, slot', true)
  }

  lemma StepMoves(c: Service, c': Service, step: Step, k: nat)
    requires Whole(c) && StepOk(c, c', step) && k < |c.lanes|
    ensures |c'.lanes| == |c.lanes| && |c'.windows| == |c.windows| && |c'.apps| == |c.apps| && Whole(c')
    ensures Moves(SlotOf(c, k), SlotOf(c', k))
  {
    match step
    case InSlot(j, inner) =>
      InSlotWhole(c, c', j, inner);
      if j != k { OtherSlots(c, c', j, inner, k); }
    case Open(s, j) => OpenUnseen(c, c', s, j, k);
    case ApplySlot(s) => assert SlotOf(c', k) == SlotOf(c, k);
    case Restart(s) => RestartSeen(c, c', s, k);
  }

  /** The shape stays, also with no slots at all. */
  lemma StepShape(c: Service, c': Service, step: Step)
    requires Whole(c) && StepOk(c, c', step)
    ensures |c'.lanes| == |c.lanes| && |c'.windows| == |c.windows| && |c'.apps| == |c.apps| && Whole(c')
  {
    match step
    case InSlot(j, inner) => InSlotWhole(c, c', j, inner);
    case Open(s, j) => GetActs(c.windows[s], j);
    case ApplySlot(s) =>
    case Restart(s) => RestartActs(c.windows[s], |c.windows|);
  }

  ghost predicate Grows(c: Service, c': Service) {
    forall k: nat, s: nat, v {:trigger DecidedAs(c', k, s, v)} | DecidedAs(c, k, s, v) :: DecidedAs(c', k, s, v)
  }

  lemma NextGrows(c: Service, c': Service)
    requires Whole(c) && Next(c, c')
    ensures Grows(c, c') && Whole(c')
  {
    var step :| StepOk(c, c', step);
    StepShape(c, c', step);
    forall k: nat, s: nat, v | DecidedAs(c, k, s, v) ensures DecidedAs(c', k, s, v) {
      StepMoves(c, c', step, k);
      DecidedIff(c, k, s, v);
      DecidedIff(c', k, s, v);
      if SlotOf(c', k) != SlotOf(c, k) { DecidedFinal(SlotOf(c, k), SlotOf(c', k), s); }
    }
  }

  lemma AppKept(c: Service, c': Service, s: nat)
    requires s < |c.apps| && AppOk(c, s) && Grows(c, c') && s < |c'.apps| && c'.apps[s] == c.apps[s]
    ensures AppOk(c', s)
  {
    forall k: nat | k < c.apps[s].applied ensures TraceStep(c', s, k) {
      assert TraceStep(c, s, k);
      var v :| DecidedAs(c, k, s, v) && c.apps[s].trace[k + 1] == Apply(c.apps[s].trace[k], v);
      assert DecidedAs(c', k, s, v);
    }
  }

  lemma ApplyKept(c: Service, c': Service, s: nat)
    requires s < |c.apps| && AppOk(c, s) && ApplyStep(c, c', s)
    ensures AppOk(c', s)
  {
    var app, app' := c.apps[s], c'.apps[s];
    assert app'.trace[..|app.trace|] == app.trace;
    forall k: nat | k < app'.applied ensures TraceStep(c', s, k) {
      var v := Status(c.windows[s], app.applied).1;
      if k < app.applied {
        assert TraceStep(c, s, k);
        v :| DecidedAs(c, k, s, v) && app.trace[k + 1] == Apply(app.trace[k], v);
      }
      assert DecidedAs(c', k, s, v) && app'.trace[k + 1] == Apply(app'.trace[k], v);
    }
  }

  lemma SlotKept(c: S.Slot, c': S.Slot, n: nat)
    requires SlotOk(c, n) && S.Next(c, c', true)
    ensures SlotOk(c', n)
  {
    PaxosSteps.NextKeeps(c, c', n, true);
    PaxosSafety.NextSafe(c, c', n, true);
  }

  lemma NextKeeps(c: Service, c': Service, m: nat, n: nat)
    requires Inv(c, m, n) && Next(c, c')
    ensures Inv(c', m, n) && Grows(c, c')
  {
    NextGrows(c, c');
    var step :| StepOk(c, c', step);
    StepShape(c, c', step);
    forall k | 0 <= k < m ensures SlotOk(SlotOf(c', k), n) {
      assert SlotOk(SlotOf(c, k), n);
      StepMoves(c, c', step, k);
      if SlotOf(c', k) != SlotOf(c, k) { SlotKept(SlotOf(c, k), SlotOf(c', k), n); }
    }
    forall s | 0 <= s < n ensures AppOk(c', s) {
      assert AppOk(c, s);
      if c'.apps[s] == c.apps[s] { AppKept(c, c', s); } else if step.ApplySlot? { ApplyKept(c, c', s); }
    }
  }

  lemma InitOk(c: Service, m: nat, n: nat, k: nat)
    requires Init(c, m, n) && k < m
    ensures SlotOk(SlotOf(c, k), n)
  {
    var slot := SlotOf(c, k);
    forall s | 0 <= s < n ensures slot.insts[s] == BLANK {
      var enable :| c.windows[s] == Load(Disk(0, []), n, s, enable);
    }
    PaxosSafety.InitInv(slot, n);
  }

  lemma {:induction false} RunKeeps(run: seq<Service>, m: nat, n: nat, i: nat)
    requires Run(run, m, n) && i < |run|
    ensures Inv(run[i], m, n)
  {
    if i == 0 {
      forall k | 0 <= k < m ensures SlotOk(SlotOf(run[0], k), n) { InitOk(run[0], m, n, k); }
    } else {
      RunKeeps(run, m, n, i - 1);
      assert Linked(run, i - 1);
      NextKeeps(run[i - 1], run[i], m, n);
    }
  }

  lemma {:induction false} RunGrows(run: seq<Service>, m: nat, n: nat, i: nat, j: nat)
    requires Run(run, m, n) && i <= j < |run|
    ensures Grows(run[i], run[j])
    decreases j
  {
    if i < j {
      RunGrows(run, m, n, i, j - 1);
      RunKeeps(run, m, n, j - 1);
      assert Linked(run, j - 1);
      NextGrows(run[j - 1], run[j]);
    }
  }

  // ---------------------------------------------------------------- theorems

  /** In the first `k` slots no majority has chosen nil. */
  ghost predicate NilUnchosen(c: Service, n: nat, k: nat) {
    k <= |c.lanes| && forall i | 0 <= i < k :: !PaxosSafety.NilChosen(c.lanes[i].hist, n)
  }

  /** What two servers answer as the decision of one slot agrees, at whatever points of the run,
      unless nil was chosen in it. */
  lemma SlotAgrees(run: seq<Service>, m: nat, n: nat, i: nat, s: nat, v: Payload, j: nat, u: nat, w: Payload, k: nat)
    requires Run(run, m, n) && i <= j < |run| && DecidedAs(run[i], k, s, v) && DecidedAs(run[j], k, u, w)
    requires !PaxosSafety.NilChosen(run[j].lanes[k].hist, n)
    ensures v == w && v != Nil && v in run[j].lanes[k].hist.starts
  {
    RunKeeps(run, m, n, j);
    RunGrows(run, m, n, i, j);
    assert DecidedAs(run[j], k, s, v);
    var slot := SlotOf(run[j], k);
    assert SlotOk(slot, n);
    DecidedIff(run[j], k, s, v);
    DecidedIff(run[j], k, u, w);
    PaxosSafety.DecidedMeans(slot, n, s);
    PaxosSafety.DecidedMeans(slot, n, u);
    A.ChosenUnique(slot.hist, n, v, w);
  }

  /** Replica agreement: in every run, as long as no majority has chosen nil in the first `k`
      slots, any two servers that have applied those slots, at whatever points, went through
      the same files and sessions after them. */
  lemma {:induction false} ReplicasAgree(run: seq<Service>, m: nat, n: nat, i: nat, s: nat, j: nat, u: nat, k: nat)
    requires Run(run, m, n) && i <= j < |run| && s < n && u < n && NilUnchosen(run[j], n, k)
    requires |run[i].apps| == n && |run[j].apps| == n && k <= run[i].apps[s].applied && k <= run[j].apps[u].applied
    ensures k < |run[i].apps[s].trace| && k < |run[j].apps[u].trace| && run[i].apps[s].trace[k] == run[j].apps[u].trace[k]
    decreases k
  {
    RunKeeps(run, m, n, i);
    RunKeeps(run, m, n, j);
    assert AppOk(run[i], s) && AppOk(run[j], u);
    if k > 0 {
      ReplicasAgree(run, m, n, i, s, j, u, k - 1);
      assert TraceStep(run[i], s, k - 1) && TraceStep(run[j], u, k - 1);
      var v :| DecidedAs(run[i], k - 1, s, v) && run[i].apps[s].trace[k - 1 + 1] == Apply(run[i].apps[s].trace[k - 1], v);
      var w :| DecidedAs(run[j], k - 1, u, w) && run[j].apps[u].trace[k - 1 + 1] == Apply(run[j].apps[u].trace[k - 1], w);
      SlotAgrees(run, m, n, i, s, v, j, u, w, k - 1);
    }
  }

  /** So two servers that have applied equally many slots hold the same tables. */
  lemma TablesAgree(run: seq<Service>, m: nat, n: nat, i: nat, s: nat, j: nat, u: nat)
    requires Run(run, m, n) && i <= j < |run| && s < n && u < n
    requires |run[i].apps| == n && |run[j].apps| == n && run[i].apps[s].applied == run[j].apps[u].applied
    requires NilUnchosen(run[j], n, run[i].apps[s].applied)
    ensures run[i].apps[s].tables == run[j].apps[u].tables
  {
    RunKeeps(run, m, n, i);
    RunKeeps(run, m, n, j);
    assert AppOk(run[i], s) && AppOk(run[j], u);
    ReplicasAgree(run, m, n, i, s, j, u, run[i].apps[s].applied);
  }

  /** A run of the service in which no round enters its accept phase with nil. */
  ghost predicate NilKeptOut(run: seq<Service>) {
    forall i: nat, k: nat, step {:trigger SlotStepAt(run, i, k, step)} | SlotStepAt(run, i, k, step) ::
      S.StepOk(SlotOf(run[i], k), SlotOf(run[i + 1], k), step, false)
  }

  /** The step from state `i` of the run is one of slot `k`. */
  ghost predicate SlotStepAt(run: seq<Service>, i: nat, k: nat, step: S.Step) {
    i + 1 < |run| && InSlotStep(run[i], run[i + 1], k, step)
  }

  /** Keeping nil out of the accept phases meets the hypothesis. */
  lemma {:induction false} KeptOutUnchosen(run: seq<Service>, m: nat, n: nat, i: nat, k: nat)
    requires Run(run, m, n) && NilKeptOut(run) && i < |run| && k <= m
    ensures |run[i].lanes| == m && NilUnchosen(run[i], n, k)
  {
    KeptOutFree(run, m, n, i);
    forall q | 0 <= q < k ensures !PaxosSafety.NilChosen(run[i].lanes[q].hist, n) {
      PaxosSafety.NilFreeMeans(run[i].lanes[q].hist, n);
    }
  }

  lemma {:induction false} KeptOutFree(run: seq<Service>, m: nat, n: nat, i: nat)
    requires Run(run, m, n) && NilKeptOut(run) && i < |run|
    ensures |run[i].lanes| == m && forall q | 0 <= q < m :: A.NilFree(run[i].lanes[q].hist)
  {
    if i > 0 {
      KeptOutFree(run, m, n, i - 1);
      RunKeeps(run, m, n, i - 1);
      assert Linked(run, i - 1);
      var step :| StepOk(run[i - 1], run[i], step);
      StepShape(run[i - 1], run[i], step);
      if step.InSlot? {
        assert SlotStepAt(run, i - 1, step.k, step.step);
        PaxosSafety.NextNilFree(SlotOf(run[i - 1], step.k), SlotOf(run[i], step.k));
      }
    }
  }

  // -------------------------------------------------------------- availability

  /** Along the trail every step is one of slot `k` on a server in `q`. */
  ghost predicate Trail(trail: seq<Service>, q: set<nat>, k: nat) {
    trail != [] && forall i: nat {:trigger TrailStep(trail, q, k, i)} :: TrailStep(trail, q, k, i)
  }

  ghost predicate TrailStep(trail: seq<Service>, q: set<nat>, k: nat, i: nat) {
    i + 1 < |trail| ==> exists step :: SlotStepAt(trail, i, k, step) && step.s in q
  }

  /** What a slot can do without restarts, the windows do. */
  lemma {:induction false} Lifts(q: set<nat>, c: Service, k: nat, path: seq<S.Slot>, i: nat) returns (trail: seq<Service>)
    requires Whole(c) && k < |c.lanes| && (forall s | s in q :: s < |c.windows|)
    requires PaxosAvailability.Path(path, q, true) && path[0] == SlotOf(c, k) && i < |path|
    ensures Trail(trail, q, k) && trail[0] == c
    ensures var d := trail[|trail| - 1]; Whole(d) && |d.lanes| == |c.lanes| && |d.windows| == |c.windows| && SlotOf(d, k) == path[i]
  {
    if i == 0 {
      trail := [c];
    } else {
      var before := Lifts(q, c, k, path, i - 1);
      var d := before[|before| - 1];
      assert PaxosAvailability.StepIn(path, q, true, i - 1);
      var step :| S.StepOk(path[i - 1], path[i], step, true) && step.s in q && !step.Reboot?;
      var e := SlotStepEnabled(d, k, step, path[i]);
      trail := before + [e];
      forall j: nat ensures TrailStep(trail, q, k, j) {
        if j + 1 < |before| {
          assert TrailStep(before, q, k, j);
          var st :| SlotStepAt(before, j, k, st) && st.s in q;
          assert SlotStepAt(trail, j, k, st);
        } else if j + 1 < |trail| {
          assert SlotStepAt(trail, j, k, step);
        }
      }
    }
  }

  /** From every point of every run, a majority can by itself get any slot decided on all its members,
      through their windows; on the value just submitted, if none of them has accepted or decided
      anything there. */
  lemma MajorityDecidesSlot(run: seq<Service>, m: nat, n: nat, i: nat, q: set<nat>, k: nat, v: Payload) returns (trail: seq<Service>)
    requires Run(run, m, n) && i < |run| && n >= 2 && IsQuorum(q, n) && k < m && v != Nil
    ensures Trail(trail, q, k) && trail[0] == run[i] && |run[i].windows| == n
    ensures var d := trail[|trail| - 1];
      && |d.windows| == n && (forall s | s in q :: Status(d.windows[s], k).0 == Decided)
      && ((forall s | s in q :: Status(run[i].windows[s], k).0 != Decided && InstOf(run[i].windows[s], k).accept == 0 && InstOf(run[i].windows[s], k).value == Nil)
          ==> forall s | s in q :: Status(d.windows[s], k) == (Decided, v))
  {
    RunKeeps(run, m, n, i);
    var c := run[i];
    var slot := SlotOf(c, k);
    var slot' := PaxosAvailability.MajorityDecides(q, true, slot, v);
    var path :| PaxosAvailability.Path(path, q, true) && path[0] == slot && path[|path| - 1] == slot';
    trail := Lifts(q, c, k, path, |path| - 1);
    var d := trail[|trail| - 1];
    forall s | s in q ensures Status(d.windows[s], k) == (Decided, slot'.insts[s].value) {
      assert PaxosAvailability.DecidedAt(slot', s);
      StatusIff(d.windows[s], k, slot'.insts[s].value);
    }
    if forall s | s in q :: Status(c.windows[s], k).0 != Decided && InstOf(c.windows[s], k).accept == 0 && InstOf(c.windows[s], k).value == Nil {
      forall s | s in q ensures PaxosAvailability.Blank(slot, s) { StatusIff(c.windows[s], k, InstOf(c.windows[s], k).value); }
    }
  }
}
