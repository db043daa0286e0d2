/** Go's error values, as they appear at the boundaries of the modelled core. */
module Errors {

  datatype Option<+T> = None | Some(value: T)

  datatype Result<+T, +E> = Ok(value: T) | Err(error: E)

  /** What a collaborator that returns only a Go `error` reports: nil, or a failure with its message. */
  datatype Outcome = Success | Failure(cause: string)

  /** The non-nil errors the two engines send on the shared fatal-error (exit) channel. */
  datatype Error =
    | MergeFailed(cause: string)   // giteng: `git merge` failed while behind
    | LocalAhead                   // giteng: "local branch shouldn't be ahead"
    | LaunchFailed(cause: string)  // doceng: "error running pkgsite: ..."
    | KillFailed(cause: string)    // doceng: "error killing runtime: ..."
}
