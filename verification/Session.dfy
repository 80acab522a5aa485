/** The vocabulary shared by both consensus protocols and the lock service
    (src/session/common.go): operations, files, replies and the payload that a
    consensus slot carries. */
module Session {

  datatype Opcode = Create | Remove | Acquire | Release | Extend | Revoke | Unknown(code: int)

  datatype Op = Op(code: Opcode, path: string, sessid: int, seqno: int, lease: int)

  /** What an `interface{}` slot or log entry may hold: nothing, an operation of
      the lock service, or a value of some other type. */
  datatype Payload = Nil | Request(op: Op) | Foreign(tag: int)

  /** A lock: its holder (FREE when nobody holds it) and its lease. */
  datatype File = File(sessid: int, lease: int)

  datatype Err = OK | WrongLeader | RepeatedRequest | LockNotExist | LockBusy
               | LockNotAcquired | LockReacquire | Terminated

  const FREE := -1
  const DEFAULT_LEASE := 12
  const GRACE_PERIOD := DEFAULT_LEASE / 2

  /** `x ^ 1` on a two's complement integer: the other stream of the same session. */
  function Pair(x: int): (y: int)
    ensures y != x && y / 2 == x / 2
  {
    if x % 2 == 0 then x + 1 else x - 1
  }
}
