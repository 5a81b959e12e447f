/** What more than one module needs. */
module Shared {
  datatype Option<+T> = None | Some(value: T)

  /** What a database call can do besides answering: never run, or run and lose its
      reply.  The caller sees the same error either way. */
  datatype Fault = NoFault | NotExecuted | ReplyLost

  function Bit(b: bool): nat {
    if b then 1 else 0
  }
}
