/**
 * The exceptions that the pipeline, the driver and the storage adapters raise,
 * catch or let through, and the outcome of one pipeline run.
 */
module Exceptions {

  /** Exceptions by class. The first two are the project's own taxonomy. */
  datatype Exc =
    | TransientError            // a retry on a later pass may succeed
    | PermanentError            // the file (or a fixed defect) makes a retry pointless
    | DropboxApiError           // dropbox.exceptions.ApiError
    | HttpError(status: int)    // googleapiclient.errors.HttpError, with its response status
    | ApiConnectionError        // openai: connection failure or timeout
    | RateLimitError            // openai
    | BadRequestError           // openai
    | AuthenticationError       // openai
    | PdfPageCountError         // pdf2image
    | PdfSyntaxError            // pdf2image
    | FileNotFoundError
    | AttributeError            // reading a setting that the Settings class does not define
    | UnboundLocalError         // reading a local variable no branch assigned
    | OtherError                // any other exception

  /** How the driver sees an exception that escapes the pipeline. */
  datatype ErrorKind = Transient | Permanent | Unclassified

  function KindOf(e: Exc): (k: ErrorKind)
    ensures k == Transient <==> e == TransientError
    ensures k == Permanent <==> e == PermanentError
  {
    match e
    case TransientError => Transient
    case PermanentError => Permanent
    case _ => Unclassified
  }

  /** The answer of an external call: a value, or the exception it raised. */
  datatype Reply<+T> = Ok(value: T) | Raised(error: Exc)

  /** What one pipeline run reports to its caller: a normal return, or the exception it raised. */
  datatype Outcome = Success | Failed(error: Exc)
}
