/**
 * The forgot-password form's submit handler: asks the backend to mail a
 * reset link for the trimmed username and reports the outcome.
 */
module ForgotPassword {
  import opened Wrappers
  import opened JsStrings
  import opened Browser
  import opened Http

  const EnterUsername: string := "Vui lòng nhập username"
  const RequestFailed: string := "Gửi yêu cầu thất bại"
  const RequestSent: string := "Yêu cầu đặt lại mật khẩu đã được gửi. Vui lòng kiểm tra email."
  const SomethingWentWrong: string := "Có lỗi xảy ra"

  /**
   * `data?.message` where `data` is `await res.json().catch(() => ({}))`:
   * a body that is not JSON reads as `{}`, and `null` has no message either.
   */
  function BodyMessage(body: JsonBody<MessageFields>): (m: Option<string>)
    ensures body.Object? ==> m == body.fields.message
    ensures !body.Object? ==> m.None?
  {
    match body
    case Object(fields) => fields.message
    case _ => None
  }

  class ForgotPasswordForm {
    var username: string
    var message: string
    var error: string
    var loading: bool

    constructor ()
      ensures username == "" && message == "" && error == "" && !loading
    {
      username, message, error, loading := "", "", "", false;
    }

    /**
     * `handleSubmit`. A username that trims to "" sets the "enter username"
     * error and sends nothing. Otherwise the request carries the trimmed
     * username; an ok reply shows the server's message (or the default
     * notice) and empties the field; a non-ok reply or a failed `fetch`
     * shows an error and keeps the field; `loading` ends false either way.
     * While the request is out, `error` and `message` are empty and
     * `loading` is true (the ghost outputs), which disables the form.
     */
    method HandleSubmit(reply: Reply<MessageFields>)
      returns (request: Option<string>,
               ghost errorAtRequest: string, ghost messageAtRequest: string, ghost loadingAtRequest: bool)
      modifies this
      ensures Trim(old(username)) == "" ==>
                && request == None
                && error == EnterUsername
                && username == old(username) && message == old(message) && loading == old(loading)
      ensures Trim(old(username)) != "" ==>
                && request == Some(Trim(old(username)))
                && errorAtRequest == "" && messageAtRequest == "" && loadingAtRequest
                && !loading
      ensures Trim(old(username)) != "" && reply.Response? && reply.ok ==>
                && message == OrElse(BodyMessage(reply.body), RequestSent)
                && error == "" && username == ""
      ensures Trim(old(username)) != "" && reply.Response? && !reply.ok ==>
                && error == OrElse(BodyMessage(reply.body), RequestFailed)
                && message == "" && username == old(username)
      ensures Trim(old(username)) != "" && reply.NetworkError? ==>
                && error == OrElse(Some(reply.message), SomethingWentWrong)
                && message == "" && username == old(username)
    {
      var name := Trim(username);
      if name == "" {
        error := EnterUsername;
        request := None;
        errorAtRequest, messageAtRequest, loadingAtRequest := error, message, loading;
        return;
      }
      error := "";
      message := "";
      loading := true;
      request := Some(name);
      errorAtRequest, messageAtRequest, loadingAtRequest := error, message, loading;

      match reply {
        case Response(ok, body) =>
          if !ok {
            // The thrown Error's message is never empty, so the catch shows it as is.
            error := OrElse(BodyMessage(body), RequestFailed);
          } else {
            message := OrElse(BodyMessage(body), RequestSent);
            username := "";
          }
        case NetworkError(m) =>
          error := OrElse(Some(m), SomethingWentWrong);
      }
      loading := false;
    }
  }
}
