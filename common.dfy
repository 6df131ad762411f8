/** Optional values: a JavaScript `undefined`/`null` on one side, a present value on the other. */
module Wrappers {
  datatype Option<+T> = None | Some(value: T)
}

/** The JSON replies the message-style endpoints (subscribe, support) send back. */
module Http {
  import opened Wrappers

  /** A reply: its HTTP status, the `message` field, and `downloadUrl` when the body carries one. */
  datatype Reply = Reply(status: nat, message: string, downloadUrl: Option<string>)

  /** The reply of the catch-all `catch` block of every handler. */
  const UnexpectedError := Reply(500, "An unexpected error occurred", None)
}
