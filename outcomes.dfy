/**
 * Calls into code the model cannot see (a command's `execute`, a worker task's
 * `fcn`) are represented by the outcome they had: a returned value or a raised
 * exception.
 */
module Outcomes {
  import opened Wrappers

  /** A raised Python exception: its class name and its message. */
  datatype Exception = Exception(kind: string, message: string)

  /** What a foreign call did: returned a value (`None` when absent) or raised. */
  datatype Outcome = Returned(value: Option<string>) | Raised(error: Exception)
}
