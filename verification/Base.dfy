/** Types shared by the two state machines: bytes, the event flags of libevent
    and the status codes of a task. */
module Base {

  newtype byte = x: int | 0 <= x < 256

  datatype Option<+T> = None | Some(value: T)

  function Min(a: nat, b: nat): nat {
    if a <= b then a else b
  }

  /** What an event waits for. */
  datatype Flag = EvRead | EvWrite

  /** The `type` argument of an event callback is a bit set. */
  datatype EvType = EvType(timeout: bool, read: bool, write: bool) {
    /** `type == EV_TIMEOUT`, as the task handler tests it. */
    predicate OnlyTimeout() {
      timeout && !read && !write
    }
  }

  /** LIBSSH2_ERROR_EAGAIN. */
  const EAGAIN: int := -37

  datatype TaskStat =
    | StatNone
    | StatError
    | StatStart
    | StatChannelReady
    | StatDataTransfer
    | StatCmdRunning
    | StatStreamsReaded
    | StatDone

  /** What a step handler returns: 0, EAGAIN, or not at all because the handler
      spins for ever or aborts the process. */
  datatype Ret = Ok | Again | Hang | Abort

  /** One unsuccessful attempt at a library call that either is to be repeated
      or has failed for good. */
  datatype Attempt = TryAgain | Refused

  /** A task's channel: NULL, usable, or freed. */
  datatype Chan = NoChan | OpenChan | FreedChan
}
