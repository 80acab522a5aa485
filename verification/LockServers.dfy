/** The two lock servers as the code has them. Both carry the same six apply functions
    over a map of file objects and a map of sessions, so those are written once, in Store;
    the Paxos server feeds it decided slots and the Raft server apply messages. */
module LockServers {
  import opened Session
  import opened LockTable
  import opened PaxosInstance
  import C = LockCalls

  /** A file object; a revoke goroutine keeps a hold of the one it saw. */
  class Cell {
    var sessid: int
    var lease: int

    constructor (sessid: int)
      ensures this.sessid == sessid && lease == 0
    {
      this.sessid, lease := sessid, 0;
    }
  }

  class Store {
    var files: map<string, Cell>
    var sessions: map<int, int>

    ghost predicate Valid()
      reads this
    {
      forall p, q | p in files && q in files && p != q :: files[p] != files[q]
    }

    ghost function Cells(): set<Cell>
      reads this
    {
      set p | p in files :: files[p]
    }

    ghost function View(): Tables
      reads this, Cells()
    {
      Tables(map p | p in files :: File(files[p].sessid, files[p].lease), sessions)
    }

    constructor ()
      ensures Valid() && View() == EMPTY
    {
      files, sessions := map[], map[];
    }

    method LastSeen(sessid: int) returns (seqno: int)
      ensures seqno == Seen(View(), sessid)
    {
      seqno := if sessid in sessions then sessions[sessid] else 0;
    }

    method UpdateSession(sessid: int, seqno: int)
      modifies this`sessions
      ensures View() == Update(old(View()), sessid, seqno)
    {
      var seen := LastSeen(sessid);
      if seqno > seen { sessions := sessions[sessid := seqno]; }
      assert View().files == old(View()).files;
    }

    method Create(op: Op)
      requires Valid() && op.code == Session.Create
      modifies this
      ensures Valid() && View() == Apply(old(View()), Request(op))
    {
      var seen := LastSeen(op.sessid);
      if op.seqno <= seen { return; }
      if op.path !in files {
        ghost var t := View();
        var file := new Cell(FREE);
        files := files[op.path := file];
        assert View().files == t.files[op.path := File(FREE, 0)];
      }
      UpdateSession(op.sessid, op.seqno);
    }

    method Remove(op: Op)
      requires Valid() && op.code == Session.Remove
      modifies this
      ensures Valid() && View() == Apply(old(View()), Request(op))
    {
      var seen := LastSeen(op.sessid);
      if op.seqno <= seen { return; }
      if op.path in files && files[op.path].sessid == FREE {
        ghost var t := View();
        files := files - {op.path};
        assert View().files == t.files - {op.path};
      }
      UpdateSession(op.sessid, op.seqno);
    }

    method Acquire(op: Op)
      requires Valid() && op.code == Session.Acquire
      modifies this`sessions, Cells()
      ensures Valid() && View() == Apply(old(View()), Request(op))
    {
      var seen := LastSeen(op.sessid);
      if op.seqno <= seen { return; }
      if op.path in files {
        var file := files[op.path];
        if file.sessid == FREE {
          file.sessid, file.lease := op.sessid, op.lease;
        } else if file.sessid == op.sessid && file.lease < op.lease {
          file.lease := op.lease;
        }
      }
      UpdateSession(op.sessid, op.seqno);
    }

    method Release(op: Op)
      requires Valid() && op.code == Session.Release
      modifies this`sessions, Cells()
      ensures Valid() && View() == Apply(old(View()), Request(op))
    {
      var seen := LastSeen(op.sessid);
      if op.seqno <= seen { return; }
      if op.path in files {
        var file := files[op.path];
        if file.sessid == op.sessid || file.sessid == Pair(op.sessid) { file.sessid := FREE; }
      }
      UpdateSession(op.sessid, op.seqno);
    }

    method Extend(op: Op)
      requires Valid() && op.code == Session.Extend
      modifies this`sessions, Cells()
      ensures Valid() && View() == Apply(old(View()), Request(op))
    {
      var seen := LastSeen(op.sessid);
      if op.seqno <= seen { return; }
      if op.path in files && files[op.path].sessid == Pair(op.sessid) { files[op.path].lease := op.lease; }
      UpdateSession(op.sessid, op.seqno);
    }

    method Revoke(op: Op)
      requires Valid() && op.code == Session.Revoke
      modifies Cells()
      ensures Valid() && View() == Apply(old(View()), Request(op))
    {
      if op.path in files {
        var file := files[op.path];
        if file.sessid == op.sessid && file.lease == op.lease { file.sessid := FREE; }
      }
    }

    method Dispatch(op: Op)
      requires Valid()
      modifies this, Cells()
      ensures Valid() && View() == Apply(old(View()), Request(op))
    {
      match op.code {
        case Create => Create(op);
        case Remove => Remove(op);
        case Acquire => Acquire(op);
        case Release => Release(op);
        case Extend => Extend(op);
        case Revoke => Revoke(op);
        case Unknown(_) =>
      }
    }

    /** checkLease: one revocation for each lock whose lease is out by more than the grace period. */
    method CheckLease(now: int) returns (revokes: set<Op>)
      requires Valid()
      ensures forall op :: op in revokes <==> Expired(View(), op, now)
    {
      revokes := {};
      var left := files.Keys;
      while left != {}
        invariant left <= files.Keys
        invariant forall op :: op in revokes <==> Expired(View(), op, now) && op.path !in left
        decreases |left|
      {
        var path :| path in left;
        left := left - {path};
        var file := files[path];
        if file.sessid != FREE && file.lease + GRACE_PERIOD < now {
          revokes := revokes + {Op(Session.Revoke, path, file.sessid, 0, file.lease)};
        }
      }
    }
  }

  class PaxosServer {
    const store: Store
    var applied: nat

    constructor ()
      ensures store.Valid() && store.View() == EMPTY && applied == 0
    {
      store := new Store();
      applied := 0;
    }

    /** One turn of the applier, with what Status says of the next slot. */
    method ApplySlot(fate: Fate, value: Payload)
      requires store.Valid()
      modifies this, store, store.Cells()
      ensures store.Valid()
      ensures if fate == Decided then store.View() == Apply(old(store.View()), value) && applied == old(applied) + 1
              else store.View() == old(store.View()) && applied == old(applied)
    {
      if fate == Decided {
        if value.Request? { store.Dispatch(value.op); }
        applied := applied + 1;
      }
    }

    /** One turn of operateL after its wait, with the peer's highest slot: whether the call
        returns, and the slot it waits for from here on. */
    method OperateTurn(op: Op, pxseq: int, max: int) returns (returned: bool, slot: int)
      ensures var call := C.Wake(C.Call(op, pxseq, [], false), applied, store.View(), max);
        returned == call.returned && slot == call.pxseq
    {
      slot := pxseq;
      var seen := store.LastSeen(op.sessid);
      if op.seqno <= seen { return true, slot; }
      if applied > slot { slot := max + 1; }
      returned := false;
    }

    /** One turn of revoke: it goes on only while the file it saw is still there, with the
        same holder and lease, and proposes again only once its last slot was applied. */
    method RevokeTurn(path: string, file: Cell, op: Op, pxseq: int, max: int) returns (going: bool, slot: int)
      ensures going <==> path in store.files && store.files[path] == file && store.View().files[path] == File(op.sessid, op.lease)
      ensures slot == if going && applied > pxseq then max + 1 else pxseq
    {
      slot := pxseq;
      going := path in store.files && store.files[path] == file && file.sessid == op.sessid && file.lease == op.lease;
      if going && applied > slot { slot := max + 1; }
    }
  }

  class RaftServer {
    const store: Store

    constructor ()
      ensures store.Valid() && store.View() == EMPTY
    {
      store := new Store();
    }

    method ApplyMsg(commandValid: bool, command: Payload)
      requires store.Valid()
      modifies store, store.Cells()
      ensures store.Valid()
      ensures store.View() == if commandValid then Apply(old(store.View()), command) else old(store.View())
    {
      if commandValid && command.Request? { store.Dispatch(command.op); }
    }
  }
}
