/** Option and Result values, and the ways a run of the scripts can stop early. */
module Wrappers {

  /** A value that may be missing: a JSON `null`, an absent key read with `.get`. */
  datatype Option<+T> = None | Some(value: T)

  /** Why a run stopped before finishing. */
  datatype Failure =
    | Aborted             // the script printed a diagnostic and called exit()
    | SuiteMissing(suite: string)  // a KeyError: a run's suite has no entry among the runner results
    | ResponsesExhausted  // the supplied responses ran out before the loop ended

  datatype Result<+T> = Ok(value: T) | Err(error: Failure)

  /** One network response that either came back or failed (`not response.ok`). */
  datatype Fetch<+T> = Fetched(value: T) | FetchFailed
}
