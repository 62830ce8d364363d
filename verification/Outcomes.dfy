/** A value that may be missing, a result that may be an error, and a process that may die. */
module Outcomes {

  datatype Option<+T> = None | Some(value: T)

  datatype Result<+T, +E> = Ok(value: T) | Err(error: E)

  /** Whether the process dies here, or the call that comes next fails. */
  method Dies(faulty: bool) returns (dies: bool)
    ensures dies ==> faulty
  {
    dies := false;
    if faulty {
      dies := *;
    }
  }
}
