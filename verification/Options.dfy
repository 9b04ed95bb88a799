/** The conventional optional value, shared by the other modules. */
module Options {
  datatype Option<+T> = None | Some(value: T)
}

/** Instants and durations as natural numbers of one clock unit. */
module Instants {
  /** `duration_since`, which saturates at zero. */
  function Since(now: nat, t: nat): nat {
    if t <= now then now - t else 0
  }
}

/** What names a call. */
module Calls {
  type CallId = string
}
