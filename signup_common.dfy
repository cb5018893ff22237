/** What the two signup forms share: the toast they end with and how the failure text is chosen. */
module SignupCommon {
  import opened Js

  /** A `react-hot-toast` notification. */
  datatype Toast = SuccessToast(text: string) | ErrorToast(text: string)

  /** How the registration request ends: created, or failed with the server's `message` and the
      error's own `message`, each absent when missing. */
  datatype SignupResponse = Created | SignupFailed(serverMessage: Option<string>, errorMessage: Option<string>)

  const CreatedText := "Account created successfully!"
  const DefaultErrorText := "An error occurred. Please try again."

  /** `error?.response?.data?.message || error?.message || "An error occurred. Please try again."`. */
  function FailureText(serverMessage: Option<string>, errorMessage: Option<string>): (msg: string)
    ensures msg != ""
    ensures Truthy(serverMessage) ==> msg == serverMessage.value
    ensures !Truthy(serverMessage) && Truthy(errorMessage) ==> msg == errorMessage.value
    ensures !Truthy(serverMessage) && !Truthy(errorMessage) ==> msg == DefaultErrorText
  {
    OrDefault(Or(serverMessage, errorMessage), DefaultErrorText)
  }

  /** The toast a finished registration shows. */
  function ResponseToast(r: SignupResponse): (t: Toast)
    ensures r.Created? <==> t.SuccessToast?
    ensures r.Created? ==> t.text == CreatedText
    ensures r.SignupFailed? ==> t.text == FailureText(r.serverMessage, r.errorMessage)
  {
    match r
    case Created => SuccessToast(CreatedText)
    case SignupFailed(server, err) => ErrorToast(FailureText(server, err))
  }
}
