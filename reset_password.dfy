/**
 * The reset-password form: reads the reset token from the query string,
 * checks the two password fields, posts the new password and shows one
 * message for the outcome.
 */
module ResetPassword {
  import opened Wrappers
  import opened Browser
  import opened Http

  const FillAllFields: string := "Vui lòng nhập đầy đủ thông tin."
  const PasswordsDiffer: string := "Mật khẩu xác nhận không khớp."
  const ResetSucceeded: string := "Đặt lại mật khẩu thành công!"
  const ResetFailed: string := "Đặt lại mật khẩu thất bại."
  const ErrorOccurred: string := "Có lỗi xảy ra, vui lòng thử lại."

  /** The request body, `{ token, newPassword }`; a missing token is sent as `null`. */
  datatype ResetRequest = ResetRequest(token: Option<string>, newPassword: string)

  /**
   * The message for the endpoint's reply. `res.json()` runs first, so a
   * body that is not JSON gives the generic error even with `res.ok`; an ok
   * reply otherwise succeeds; a non-ok reply shows the server's message or
   * the default failure, except a `null` body, on which reading `.message`
   * throws and the generic error shows; a failed `fetch` shows the generic error.
   */
  function ReplyMessage(reply: Reply<MessageFields>): (m: string)
    ensures reply.NetworkError? ==> m == ErrorOccurred
    ensures reply.Response? && reply.body.Unparseable? ==> m == ErrorOccurred
    ensures reply.Response? && reply.ok && !reply.body.Unparseable? ==> m == ResetSucceeded
    ensures reply.Response? && !reply.ok && reply.body.Null? ==> m == ErrorOccurred
    ensures reply.Response? && !reply.ok && reply.body.Object? ==> m == OrElse(reply.body.fields.message, ResetFailed)
  {
    match reply
    case NetworkError(_) => ErrorOccurred
    case Response(ok, body) =>
      match body
      case Unparseable => ErrorOccurred
      case Null => if ok then ResetSucceeded else ErrorOccurred
      case Object(fields) => if ok then ResetSucceeded else OrElse(fields.message, ResetFailed)
  }

  class ResetPasswordForm {
    /** `searchParams.get("token")`. */
    const token: Option<string>
    var password: string
    var confirmPassword: string
    var message: string

    constructor (queryToken: Option<string>)
      ensures token == queryToken && password == "" && confirmPassword == "" && message == ""
    {
      token := queryToken;
      password, confirmPassword, message := "", "", "";
    }

    /** Without a (non-empty) token only the invalid-token notice is rendered, not the form. */
    predicate ShowsOnlyInvalidTokenNotice()
      reads this
      ensures ShowsOnlyInvalidTokenNotice() <==> token.None? || token.value == ""
    {
      !Present(token)
    }

    /**
     * `handleSubmit`: an empty field is reported before a mismatch, and a
     * request goes out only when both fields are filled and equal; it carries
     * the token and the password, and its reply decides the message.
     */
    method HandleSubmit(reply: Reply<MessageFields>) returns (request: Option<ResetRequest>)
      modifies this`message
      ensures request.Some? <==> password != "" && confirmPassword != "" && password == confirmPassword
      ensures password == "" || confirmPassword == "" ==> message == FillAllFields
      ensures password != "" && confirmPassword != "" && password != confirmPassword ==> message == PasswordsDiffer
      ensures request.Some? ==> request.value == ResetRequest(token, password) && message == ReplyMessage(reply)
    {
      if password == "" || confirmPassword == "" {
        message := FillAllFields;
        request := None;
        return;
      }
      if password != confirmPassword {
        message := PasswordsDiffer;
        request := None;
        return;
      }
      request := Some(ResetRequest(token, password));
      message := ReplyMessage(reply);
    }
  }
}
