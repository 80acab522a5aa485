/** One Paxos slot on one server (src/paxos/paxos.go, acceptor.go, proposer.go): the
    locked sections of acceptor and proposer as functions on a value, and the two
    tally loops of the proposer. */
module PaxosInstance {
  import opened Session

  datatype Fate = Decided | Pending | Forgotten | Exceeded

  datatype Inst = Inst(prepare: nat, accept: nat, value: Payload, status: Fate)

  const BLANK := Inst(0, 0, Nil, Pending)

  /** NoReply is the zero value a failed call leaves behind. */
  datatype Code = NoReply | Ok | LowPrepare | HasDecided | LateRequest

  datatype PrepareReply = PrepareReply(code: Code, acPr: nat, value: Payload)

  const ACCEPT_OK := -1
  const ACCEPT_FAIL := 0

  // ----------------------------------------------------------------- acceptor

  function Prepare(i: Inst, ballot: nat): (r: (Inst, PrepareReply)) {
    if i.status == Decided then (i, PrepareReply(HasDecided, 0, i.value))
    else if ballot > i.prepare then (i.(prepare := ballot), PrepareReply(Ok, i.accept, i.value))
    else (i, PrepareReply(LowPrepare, i.prepare, Nil))
  }

  function Accept(i: Inst, ballot: nat, value: Payload): (r: (Inst, int)) {
    var refusal: int := i.prepare;
    if i.status != Decided && ballot >= i.prepare then
      (i.(prepare := ballot, accept := ballot, value := value), ACCEPT_OK)
    else (i, refusal)
  }

  /** A nil value does not overwrite what the slot holds. */
  function Decide(i: Inst, value: Payload): (j: Inst) {
    if i.status == Decided then i
    else i.(status := Decided, value := if value != Nil then value else i.value)
  }

  // ----------------------------------------------------------------- proposer

  /** A new round: the next ballot, promised to oneself. */
  function BeginRound(i: Inst): (j: Inst) {
    i.(prepare := i.prepare + 1)
  }

  function Raise(i: Inst, ballot: nat): (j: Inst) {
    if ballot > i.prepare then i.(prepare := ballot) else i
  }

  /** The check and self-accept between the two phases. */
  function EnterAccept(i: Inst, ballot: nat, value: Payload): (r: (Inst, bool)) {
    if i.status == Decided || i.prepare != ballot then (i, false)
    else (i.(accept := ballot, value := value), true)
  }

  /** How a prepare phase ends; Waiting means that more replies are needed. */
  datatype PrepareOutcome =
    | Promised(accept: nat, value: Payload)
    | AlreadyDecided(value: Payload)
    | Refused(prepare: nat)
    | Late
    | BadNetwork
    | Waiting

  /** The prepare loop: `i` replies have been read before these, `votes` promises counted,
      `accept` and `value` are the best proposal reported so far. */
  function TallyPrepare(replies: seq<PrepareReply>, n: nat, i: nat, votes: nat, accept: nat, value: Payload): (o: PrepareOutcome) {
    if replies == [] then Waiting
    else
      var r := replies[0];
      if r.code == HasDecided then AlreadyDecided(r.value)
      else if r.code == LowPrepare then Refused(r.acPr)
      else if r.code == LateRequest then Late
      else
        var votes' := if r.code == Ok then votes + 1 else votes;
        var better := r.code == Ok && r.acPr > accept;
        var accept' := if better then r.acPr else accept;
        var value' := if better then r.value else value;
        if r.code == Ok && 2 * votes' > n then Promised(accept', value')
        else if 2 * (i + 1 + 1 - votes') >= n then BadNetwork
        else TallyPrepare(replies[1..], n, i + 1, votes', accept', value')
  }

  datatype AcceptOutcome = Chosen | NotChosen(prepare: int)

  /** The accept loop; the highest refusal is kept. */
  function TallyAccept(replies: seq<int>, n: nat, i: nat, votes: nat, high: int): (o: AcceptOutcome) {
    if replies == [] then NotChosen(high)
    else if replies[0] == ACCEPT_OK then
      if 2 * (votes + 1) > n then Chosen else TallyAccept(replies[1..], n, i + 1, votes + 1, high)
    else
      var high' := if replies[0] > high then replies[0] else high;
      if 2 * (i + 1 + 1 - votes) >= n then NotChosen(high') else TallyAccept(replies[1..], n, i + 1, votes, high')
  }

  // -------------------------------------------------------- what a tally means

  ghost function Promises(replies: seq<PrepareReply>): nat {
    if replies == [] then 0 else (if replies[0].code == Ok then 1 else 0) + Promises(replies[1..])
  }

  ghost function Accepts(replies: seq<int>): nat {
    if replies == [] then 0 else (if replies[0] == ACCEPT_OK then 1 else 0) + Accepts(replies[1..])
  }

  /** The replies that the loop read before it stopped with a majority of promises. */
  ghost function ReadUntilPromised(replies: seq<PrepareReply>, n: nat, i: nat, votes: nat, accept: nat, value: Payload): (k: nat)
    requires TallyPrepare(replies, n, i, votes, accept, value).Promised?
    ensures k <= |replies|
  {
    var r := replies[0];
    var votes' := if r.code == Ok then votes + 1 else votes;
    if r.code == Ok && 2 * votes' > n then 1
    else
      var better := r.code == Ok && r.acPr > accept;
      1 + ReadUntilPromised(replies[1..], n, i + 1, votes', if better then r.acPr else accept, if better then r.value else value)
  }

  /** A promised outcome: the promises read are a majority with the proposer's own, and
      the proposal carried forward is the one with the highest ballot among them. */
  lemma {:induction false} PromisedMeans(replies: seq<PrepareReply>, n: nat, i: nat, votes: nat, accept: nat, value: Payload)
    requires TallyPrepare(replies, n, i, votes, accept, value).Promised?
    ensures var k := ReadUntilPromised(replies, n, i, votes, accept, value);
      var o := TallyPrepare(replies, n, i, votes, accept, value);
      && 2 * (votes + Promises(replies[..k])) > n
      && o.accept >= accept
      && (forall j | 0 <= j < k && replies[j].code == Ok :: replies[j].acPr <= o.accept)
      && ((o.accept == accept && o.value == value)
          || exists j :: 0 <= j < k && replies[j].code == Ok && replies[j].acPr == o.accept && replies[j].value == o.value)
  {
    var k := ReadUntilPromised(replies, n, i, votes, accept, value);
    var o := TallyPrepare(replies, n, i, votes, accept, value);
    var r := replies[0];
    var votes' := if r.code == Ok then votes + 1 else votes;
    var better := r.code == Ok && r.acPr > accept;
    var accept', value' := if better then r.acPr else accept, if better then r.value else value;
    var rest := replies[1..];
    assert replies[..k][1..] == rest[..k - 1];
    if !(r.code == Ok && 2 * votes' > n) {
      PromisedMeans(rest, n, i + 1, votes', accept', value');
      forall j | 0 <= j < k && replies[j].code == Ok ensures replies[j].acPr <= o.accept {
        if j > 0 { assert rest[j - 1] == replies[j]; }
      }
      if !(o.accept == accept' && o.value == value') {
        var j :| 0 <= j < k - 1 && rest[j].code == Ok && rest[j].acPr == o.accept && rest[j].value == o.value;
        assert replies[j + 1] == rest[j];
      }
    }
  }

  /** A chosen outcome: the accepts read are a majority with the proposer's own. */
  lemma {:induction false} ChosenMeans(replies: seq<int>, n: nat, i: nat, votes: nat, high: int)
    requires TallyAccept(replies, n, i, votes, high) == Chosen
    ensures 2 * (votes + Accepts(replies)) > n
  {
    if replies[0] == ACCEPT_OK {
      if 2 * (votes + 1) <= n { ChosenMeans(replies[1..], n, i + 1, votes + 1, high); }
    } else {
      ChosenMeans(replies[1..], n, i + 1, votes, if replies[0] > high then replies[0] else high);
    }
  }

  /** With all the replies of a cluster in hand, the prepare loop has an outcome. */
  lemma {:induction false} PrepareEnds(replies: seq<PrepareReply>, n: nat, i: nat, votes: nat, accept: nat, value: Payload)
    requires i + 1 + |replies| == n && 2 * votes <= n && replies != []
    ensures TallyPrepare(replies, n, i, votes, accept, value) != Waiting
  {
    var r := replies[0];
    var votes' := if r.code == Ok then votes + 1 else votes;
    var better := r.code == Ok && r.acPr > accept;
    if |replies| > 1 && 2 * votes' <= n {
      PrepareEnds(replies[1..], n, i + 1, votes', if better then r.acPr else accept, if better then r.value else value);
    }
  }

  /** With an answer or a failure from every other peer and none that ends the loop, it ends with
      promises if and only if they are a majority, and as a bad network otherwise. */
  lemma {:induction false} PrepareIff(replies: seq<PrepareReply>, n: nat, i: nat, votes: nat, accept: nat, value: Payload)
    requires i + 1 + |replies| == n && votes <= i + 1 && 2 * votes <= n && 2 * (i + 1 - votes) < n && replies != []
    requires forall j | 0 <= j < |replies| :: replies[j].code == Ok || replies[j].code == NoReply
    ensures var o := TallyPrepare(replies, n, i, votes, accept, value);
      (o.Promised? <==> 2 * (votes + Promises(replies)) > n) && (o == BadNetwork <==> 2 * (votes + Promises(replies)) <= n)
  {
    var r, rest := replies[0], replies[1..];
    assert forall j | 0 <= j < |rest| :: rest[j] == replies[j + 1];
    var votes' := if r.code == Ok then votes + 1 else votes;
    var better := r.code == Ok && r.acPr > accept;
    PromisesBound(rest);
    if 2 * votes' <= n && 2 * (i + 2 - votes') < n && rest != [] {
      PrepareIff(rest, n, i + 1, votes', if better then r.acPr else accept, if better then r.value else value);
    }
  }

  lemma {:induction false} PromisesBound(replies: seq<PrepareReply>)
    ensures Promises(replies) <= |replies|
  {
    if replies != [] { PromisesBound(replies[1..]); }
  }

  /** The first answer that ends the loop decides how: with the value of a decided slot, with the
      ballot to beat, or as late. */
  lemma {:induction false} FirstWordCounts(replies: seq<PrepareReply>, n: nat, i: nat, votes: nat, accept: nat, value: Payload, k: nat)
    requires k < |replies| && TallyPrepare(replies[..k], n, i, votes, accept, value) == Waiting
    ensures var o, r := TallyPrepare(replies, n, i, votes, accept, value), replies[k];
      && (r.code == HasDecided ==> o == AlreadyDecided(r.value))
      && (r.code == LowPrepare ==> o == Refused(r.acPr))
      && (r.code == LateRequest ==> o == Late)
  {
    if k > 0 {
      var r, rest := replies[0], replies[1..];
      var votes' := if r.code == Ok then votes + 1 else votes;
      var better := r.code == Ok && r.acPr > accept;
      assert replies[..k][0] == r && replies[..k][1..] == rest[..k - 1];
      FirstWordCounts(rest, n, i + 1, votes', if better then r.acPr else accept, if better then r.value else value, k - 1);
    }
  }

  /** An acceptor accepts if and only if it is undecided and has promised nothing later, and answers a
      refusal with what it has promised. */
  lemma AcceptIff(i: Inst, ballot: nat, value: Payload)
    ensures var (j, answer) := Accept(i, ballot, value);
      && (answer == ACCEPT_OK <==> i.status != Decided && i.prepare <= ballot)
      && (answer == ACCEPT_OK ==> j == Inst(ballot, ballot, value, i.status))
      && (answer != ACCEPT_OK ==> j == i && answer == i.prepare)
  {
  }

  /** With an answer or a failure from every other peer the accept loop succeeds if and only if the
      accepts are a majority. */
  lemma {:induction false} ChosenIff(replies: seq<int>, n: nat, i: nat, votes: nat, high: int)
    requires i + 1 + |replies| == n && votes <= i + 1 && 2 * votes <= n
    ensures TallyAccept(replies, n, i, votes, high) == Chosen <==> 2 * (votes + Accepts(replies)) > n
  {
    if replies != [] {
      var ok, rest := replies[0] == ACCEPT_OK, replies[1..];
      AcceptsBound(rest);
      if ok {
        if 2 * (votes + 1) <= n { ChosenIff(rest, n, i + 1, votes + 1, high); }
      } else if 2 * (i + 2 - votes) < n {
        ChosenIff(rest, n, i + 1, votes, if replies[0] > high then replies[0] else high);
      }
    }
  }

  lemma {:induction false} AcceptsBound(replies: seq<int>)
    ensures Accepts(replies) <= |replies|
  {
    if replies != [] { AcceptsBound(replies[1..]); }
  }

  /** A round that is not chosen comes back with the highest of the refusals it read: the ballot to
      beat is never lower than an answer before the end of the loop. */
  lemma {:induction false} RefusalsKept(replies: seq<int>, n: nat, i: nat, votes: nat, high: int) returns (k: nat)
    requires TallyAccept(replies, n, i, votes, high).NotChosen? && high >= ACCEPT_OK
    ensures var o := TallyAccept(replies, n, i, votes, high);
      && k <= |replies| && (replies != [] ==> k > 0) && o.prepare >= high
      && (k < |replies| ==> 2 * (i + k + 1 - votes - Accepts(replies[..k])) >= n)
      && (forall j | 0 <= j < k :: replies[j] <= o.prepare)
      && (o.prepare == high || o.prepare in replies)
  {
    if replies == [] {
      k := 0;
    } else {
      var r, rest := replies[0], replies[1..];
      var ok := r == ACCEPT_OK;
      var high' := if !ok && r > high then r else high;
      if !ok && 2 * (i + 2 - votes) >= n {
        k := 1;
        assert replies[..1][1..] == [];
      } else {
        var m := RefusalsKept(rest, n, i + 1, if ok then votes + 1 else votes, high');
        k := m + 1;
        assert replies[..k][1..] == rest[..m];
        var o := TallyAccept(replies, n, i, votes, high);
        forall j | 0 <= j < k ensures replies[j] <= o.prepare { if j > 0 { assert replies[j] == rest[j - 1]; } }
      }
    }
  }
}
