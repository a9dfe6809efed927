/** Failure-carrying values shared by every module of the model.

    Go returns `(value, error)` pairs; here a call either yields `Ok(value)`
    or `Err(error)`, and an operation that only reports an error yields an
    `Option<Error>` (`None` is Go's `nil`). */
module Wrappers {

  datatype Option<+T> = None | Some(value: T)

  /** The failures the archive indexer can observe. Go only distinguishes
      them by message; the model names each source of failure. */
  datatype Error =
    | NotFound(path: string)        // os.Stat / ioutil.ReadDir / os.Open on a missing path
    | NotADirectory(path: string)   // a plain file where a directory is required
    | ParseError(path: string)      // study.xml exists but does not decode
    | InvalidNumber(text: string)   // strconv syntax or range error
    | InvalidKey(key: string)       // a search key that is not "<volume>/<study>"
    | Cancelled                     // ctx.Err() after cancellation
    | IndexFailure                  // a failure inside the bleve store
    | DicomReadError(path: string)  // the DICOM file behind an instance could not be read
    | NoAppContext                  // the request carries no application context
    | Aborted                       // getStudyByUID already wrote a 404/400 response

  datatype Result<+T> = Ok(value: T) | Err(error: Error)
}
