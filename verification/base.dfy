/** Shared wrappers: optional values (a JSON key that may be absent, a Python
    `None`) and the results of steps that can abort the script with an
    uncaught exception. */
module Base {

  /** A value that may be absent. */
  datatype Option<+T> = None | Some(value: T)

  /** The uncaught exceptions this model follows through a run of the
      script: those raised by the link rewrite, by a missing `absolute_url`
      or `date_filed` key, and by `strptime`. Results are assumed to carry
      every other key the renderer reads. */
  datatype Crash =
    | UnboundLocalHref          // `href` read before any anchor assigned it
    | MissingKey(key: string)   // a metadata key the renderer indexes directly
    | InvalidDate(raw: string)  // `strptime` rejected the filing date

  /** Either a value or the exception that aborted its computation. */
  datatype Result<+T> = Ok(value: T) | Err(crash: Crash)
}
