/** The `{result, message}` envelope that the moderation endpoints answer with, and the
    rule the list pages use to turn a finished call into a notification and decide
    whether the success callback runs. */
module ApiEnvelope {
  import opened Text
  import opened JsValue

  /** A completed call's body; an empty `message` stands for an absent one. */
  datatype Response = Response(result: Value, message: string)

  /** A failed call: `error.response.data.message` and `error.message`, '' when absent. */
  datatype Failure = Failure(dataMessage: string, message: string)

  /** How a remote call ends. The call itself is not modelled. */
  datatype CallOutcome = Completed(response: Response) | Failed(failure: Failure)

  datatype Notice = SuccessNotice(text: string) | ErrorNotice(text: string)

  /** The success callback runs only for `result === true`. */
  predicate Succeeded(outcome: CallOutcome) {
    outcome.Completed? && outcome.response.result == Bool(true)
  }

  /** `handleApiResponse`: a success notice, extended with the server's message when there is
      one, for `result === true`; otherwise an error notice with the server's message or the
      page's own error text. */
  function ResponseNotice(r: Response, successMessage: string, errorMessage: string): (n: Notice)
    ensures n.SuccessNotice? <==> r.result == Bool(true)
    ensures n.SuccessNotice? && r.message != "" ==> n.text == successMessage + ": " + r.message
    ensures n.SuccessNotice? && r.message == "" ==> n.text == successMessage
    ensures n.ErrorNotice? && r.message != "" ==> n.text == r.message
    ensures n.ErrorNotice? && r.message == "" ==> n.text == errorMessage
  {
    if r.result == Bool(true) then
      SuccessNotice(if r.message != "" then successMessage + ": " + r.message else successMessage)
    else
      ErrorNotice(if r.message != "" then r.message else errorMessage)
  }

  /** `handleApiError`: the first present of the response body's message, the error's own
      message and the default. */
  function FailureText(f: Failure, defaultMessage: string): (t: string)
    ensures t == f.dataMessage || t == f.message || t == defaultMessage
    ensures f.dataMessage != "" ==> t == f.dataMessage
    ensures f.dataMessage == "" && f.message != "" ==> t == f.message
    ensures t == "" ==> f.dataMessage == "" && f.message == "" && defaultMessage == ""
  {
    if f.dataMessage != "" then f.dataMessage
    else if f.message != "" then f.message
    else defaultMessage
  }

  /** The notice shown once a call ends: a success notice exactly when the success callback
      runs, and an error notice from the failure otherwise. */
  function Settle(outcome: CallOutcome, successMessage: string, errorMessage: string, defaultMessage: string): (n: Notice)
    ensures n.SuccessNotice? <==> Succeeded(outcome)
    ensures outcome.Failed? ==> n == ErrorNotice(FailureText(outcome.failure, defaultMessage))
  {
    match outcome
    case Completed(r) => ResponseNotice(r, successMessage, errorMessage)
    case Failed(f) => ErrorNotice(FailureText(f, defaultMessage))
  }
}
