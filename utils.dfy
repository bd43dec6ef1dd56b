/** `handleError`: turns whatever was thrown into a message for the user. */
module Utils {
  import opened Wrappers

  /** A thrown value: an `Error` instance (message and stack trace), or
      anything else, kept with its string form. */
  datatype Thrown = ErrorInstance(message: string, stack: Option<string>) | NotAnError(shown: string)

  /** The object `handleError` returns; its only field is `errorMessage`. */
  datatype ErrorReport = ErrorReport(errorMessage: string)

  const UnknownErrorMessage: string := "An unknown error occurred"

  /** Total: every thrown value yields a report. */
  function HandleError(error: Thrown): (r: ErrorReport)
    ensures error.ErrorInstance? ==> r.errorMessage == error.message
    ensures error.NotAnError? ==> r.errorMessage == UnknownErrorMessage
  {
    match error
    case ErrorInstance(message, _) => ErrorReport(message)
    case NotAnError(_) => ErrorReport(UnknownErrorMessage)
  }

  /** The stack trace never reaches the report, nor does the text of a
      thrown non-`Error`. */
  lemma ReportHidesDetails(m: string, s1: Option<string>, s2: Option<string>, t1: string, t2: string)
    ensures HandleError(ErrorInstance(m, s1)) == HandleError(ErrorInstance(m, s2))
    ensures HandleError(NotAnError(t1)) == HandleError(NotAnError(t2))
  {
  }
}
