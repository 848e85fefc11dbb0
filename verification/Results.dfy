/** Success-or-reason results and optional values (include/langsvr/result.h). */
module Results {
  datatype Option<+T> = None | Some(value: T)

  datatype Result<+T> = Success(value: T) | Failure(reason: string)

  /** A Result<SuccessType>. */
  datatype Outcome = Pass | Fail(reason: string)
}
