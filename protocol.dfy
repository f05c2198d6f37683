/**
 * The wire vocabulary of the blackboard: the four client roles, the words a
 * client sends on its request pipe and the words the server answers with.
 * Every word on a pipe is one C `int`; the server only compares and copies
 * them, so they are modelled as unbounded integers.
 */
module Protocol {

  /** The token the server sends to a writer after storing its value. */
  const ACK: int := 1

  /** The word a reader client sends to ask for its cell; the server discards it. */
  const READ_REQ: int := 999

  /** Index of a cell, of a writer and of a reader: 0 or 1. */
  type Idx = i: int | 0 <= i < 2

  function Other(i: Idx): Idx
  {
    1 - i
  }

  /** The four clients, each with its own request pipe and response pipe. */
  datatype Role = Writer(i: Idx) | Reader(i: Idx)

  const AllRoles: set<Role> := {Writer(0), Writer(1), Reader(0), Reader(1)}

  /** The fixed order in which one pass services the ready channels. */
  const Order: seq<Role> := [Writer(0), Writer(1), Reader(0), Reader(1)]

  /** Position of a role in `Order`. */
  function Rank(r: Role): (n: nat)
    ensures n < |Order| && Order[n] == r
  {
    match r
    case Writer(i) => i
    case Reader(i) => 2 + i
  }

  /**
   * The word waiting at the head of each request pipe: a writer's new value,
   * or a reader's poll word (normally READ_REQ).
   */
  datatype Requests = Requests(w0: int, w1: int, r0: int, r1: int) {
    function Word(r: Role): int
    {
      match r
      case Writer(i) => if i == 0 then w0 else w1
      case Reader(i) => if i == 0 then r0 else r1
    }
  }

  /** One word written by the server on the response pipe of `to`. */
  datatype Reply = Reply(to: Role, value: int)
}
