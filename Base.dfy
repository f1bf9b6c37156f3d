/** Small value types shared by the whole model: optional values, the
    exceptions the modelled code can raise, and how a job body ended. */
module Base {

  datatype Option<+T> = None | Some(value: T)

  /** The Python exceptions that the modelled code raises on purpose or
      by construction (an uncaught Selenium exception is not modelled). */
  datatype Error =
    | ConflictingIdError(id: string)   // APScheduler: add_job without replace_existing on a taken id
    | JobLookupError(id: string)       // APScheduler: pause_job/remove_job on an unknown id
    | ValueError                       // int()/strptime() on malformed page text
    | UnboundLocalError                // a name used after the lookup that should bind it failed

  datatype Result<+T> = Ok(value: T) | Err(error: Error)

  /** How one firing of a job body ended: it returned, or it raised and
      APScheduler caught the exception at its boundary. */
  datatype Completion = Normal | Raised(error: Error)
}
