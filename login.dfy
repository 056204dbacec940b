/**
 * The login page's submit handler: checks that both fields are filled,
 * calls the login service, stores the two session tokens and goes to
 * "/home", or shows the error.
 */
module Login {
  import opened Wrappers
  import opened Browser

  const FillAllFields: string := "Vui lòng nhập đầy đủ thông tin"
  const LoginFailed: string := "Đăng nhập thất bại"
  const HomePath: string := "/home"

  /** What is sent: the login service strips the `remember` flag. */
  datatype LoginPayload = LoginPayload(username: string, password: string)

  /**
   * What `await login(payload)` does: resolve to the reply's `data` with
   * its two tokens, or throw an error carrying a message (from the server,
   * or from a failed `fetch` or JSON parse).
   */
  datatype LoginResult = LoggedIn(token: string, refreshToken: string) | Failed(message: string)

  class LoginForm {
    var username: string
    var password: string
    var remember: bool
    var error: string
    var loading: bool

    constructor ()
      ensures username == "" && password == "" && !remember && error == "" && !loading
    {
      username, password, remember, error, loading := "", "", false, "", false;
    }

    /**
     * `handleSubmit`. An empty username or password (no trimming) sets the
     * "fill in all fields" error and sends nothing. Otherwise the error is
     * cleared and `loading` set while the request is in flight (reported by
     * the ghost outputs); afterwards `loading` is false again. Success writes
     * `token` and `refreshToken` and navigates home; failure stores nothing
     * and shows the error's message, or the default text when it is empty.
     */
    method HandleSubmit(store: Storage, result: LoginResult)
      returns (request: Option<LoginPayload>, navigation: Option<string>,
               ghost errorAtRequest: string, ghost loadingAtRequest: bool)
      modifies this`error, this`loading, store
      ensures old(username) == "" || old(password) == "" ==>
                && request == None && navigation == None
                && error == FillAllFields && loading == old(loading)
                && store.items == old(store.items)
      ensures old(username) != "" && old(password) != "" ==>
                && request == Some(LoginPayload(username, password))
                && errorAtRequest == "" && loadingAtRequest
                && !loading
      ensures old(username) != "" && old(password) != "" && result.LoggedIn? ==>
                && store.items == old(store.items)[TokenKey := result.token][RefreshTokenKey := result.refreshToken]
                && navigation == Some(HomePath) && error == ""
      ensures old(username) != "" && old(password) != "" && result.Failed? ==>
                && store.items == old(store.items)
                && navigation == None
                && error == OrElse(Some(result.message), LoginFailed)
    {
      if username == "" || password == "" {
        error := FillAllFields;
        request, navigation := None, None;
        errorAtRequest, loadingAtRequest := error, loading;
        return;
      }

      error := "";
      loading := true;
      request := Some(LoginPayload(username, password));
      errorAtRequest, loadingAtRequest := error, loading;

      match result {
        case LoggedIn(token, refreshToken) =>
          store.SetItem(TokenKey, token);
          store.SetItem(RefreshTokenKey, refreshToken);
          navigation := Some(HomePath);
        case Failed(message) =>
          error := OrElse(Some(message), LoginFailed);
          navigation := None;
      }
      loading := false;
    }
  }
}
