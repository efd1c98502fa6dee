// Outcomes of calls to the Kubernetes API and to the server.

module Calls {
  // Done, not done, refused with a conflict, or done but reported as failed.
  datatype Call = Ok | NotDone | Refused | DoneButFailed {
    predicate Took()
    {
      Ok? || DoneButFailed?
    }
  }
}
