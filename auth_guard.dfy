/**
 * The session guard that wraps every protected page: it reads the access
 * and refresh tokens from localStorage, accepts a token that has not
 * expired, otherwise trades the refresh token for a new access token, and
 * when that is impossible or fails clears both tokens and redirects.
 *
 * `atob` followed by `JSON.parse` is the `Decoder` parameter, and the clock
 * (`Date.now()`, in milliseconds) is the `nowMs` parameter. One run of the
 * effect is one call of `Guard.CheckAuth`; the refresh endpoint's answer is
 * its `reply` parameter, consulted only when a request is sent.
 */
module AuthGuard {
  import opened Wrappers
  import opened JsStrings
  import opened Browser
  import opened Http

  /**
   * The claims of a token payload the core reads. `exp` is the numeric
   * expiry claim in seconds since the epoch (None when absent or null);
   * `scope` is the space-separated scope claim (None when absent, null or
   * not a string).
   */
  datatype Claims = Claims(exp: Option<int>, scope: Option<string>)

  /**
   * `JSON.parse(atob(segment))` restricted to what the core reads; None
   * when `atob` or `JSON.parse` throws, or the JSON is `null`.
   */
  type Decoder = string -> Option<Claims>

  /**
   * `parseJwt`: the decoded second dot-separated segment, or None. A token
   * without a '.' has no second segment; `atob(undefined)` then decodes the
   * nine letters "undefined", which is not valid base64 and throws. One '.'
   * is enough for a second segment.
   */
  function ParseJwt(token: string, decode: Decoder): (claims: Option<Claims>)
    ensures '.' !in token ==> claims == None
  {
    var segments := Split(token, '.');
    if '.' !in token then SplitWithoutSeparator(token, '.'); None
    else SplitAtSeparator(token, '.'); decode(segments[1])
  }

  /**
   * Whatever follows the first '.' of a token, up to the next '.' if there
   * is one, is what gets decoded: the header never matters.
   */
  lemma ParseJwtReadsPayloadSegment(header: string, tail: string, decode: Decoder)
    requires '.' !in header
    ensures ParseJwt(header + "." + tail, decode) == decode(Split(tail, '.')[0])
  {
    var token := header + "." + tail;
    SplitAtFirstSeparator(header, '.', tail);
    assert token == header + ['.'] + tail;
    assert token[|header|] == '.';
  }

  /** A token with a single '.' decodes everything after it. */
  lemma OneDotTokenDecodesTail(header: string, payload: string, decode: Decoder)
    requires '.' !in header && '.' !in payload
    ensures ParseJwt(header + "." + payload, decode) == decode(payload)
  {
    ParseJwtReadsPayloadSegment(header, payload, decode);
    SplitWithoutSeparator(payload, '.');
  }

  /**
   * For a token of the usual shape header.payload.rest, only the payload
   * segment is decoded: header and signature never matter.
   */
  lemma ParseJwtIgnoresHeaderAndSignature(header: string, payload: string, rest: string, decode: Decoder)
    requires '.' !in header && '.' !in payload
    ensures ParseJwt(header + "." + payload + "." + rest, decode) == decode(payload)
  {
    ParseJwtReadsPayloadSegment(header, payload + "." + rest, decode);
    SplitAtFirstSeparator(payload, '.', rest);
    assert payload + "." + rest == payload + ['.'] + rest;
    assert header + "." + payload + "." + rest == header + "." + (payload + "." + rest);
  }

  /**
   * `isTokenExpired`: a token is still valid exactly when its payload
   * decodes to a truthy (non-zero) `exp` that is not before the current
   * whole second `Math.floor(nowMs / 1000)`. Dafny's `/` on a positive
   * divisor rounds down, as `Math.floor` does, also for negative clocks.
   */
  function IsTokenExpired(token: string, nowMs: int, decode: Decoder): (expired: bool)
    ensures !expired <==> ParseJwt(token, decode).Some?
                          && ParseJwt(token, decode).value.exp.Some?
                          && ParseJwt(token, decode).value.exp.value != 0
                          && nowMs / 1000 <= ParseJwt(token, decode).value.exp.value
  {
    var payload := ParseJwt(token, decode);
    if payload.None? || payload.value.exp.None? || payload.value.exp.value == 0 then true
    else payload.value.exp.value < nowMs / 1000
  }

  /** The expiry is strict: during the very second named by `exp` the token is still valid. */
  lemma ValidThroughExpirySecond(token: string, nowMs: int, decode: Decoder, e: int)
    requires ParseJwt(token, decode).Some? && ParseJwt(token, decode).value.exp == Some(e)
    requires e != 0
    ensures !IsTokenExpired(token, e * 1000, decode)
    ensures !IsTokenExpired(token, e * 1000 + 999, decode)
    ensures IsTokenExpired(token, e * 1000 + 1000, decode)
  {
    assert (e * 1000) / 1000 == e;
    assert (e * 1000 + 999) / 1000 == e;
    assert (e * 1000 + 1000) / 1000 == e + 1;
  }

  /** Once expired, a token stays expired as the clock moves forward. */
  lemma ExpiryIsPermanent(token: string, earlierMs: int, laterMs: int, decode: Decoder)
    requires earlierMs <= laterMs
    requires IsTokenExpired(token, earlierMs, decode)
    ensures IsTokenExpired(token, laterMs, decode)
  {
    DivMonotone(earlierMs, laterMs);
  }

  /** Rounding down to whole seconds keeps the order of clock readings. */
  lemma DivMonotone(a: int, b: int)
    requires a <= b
    ensures a / 1000 <= b / 1000
  {
  }

  /** What `checkAuth` does with the two stored values. */
  datatype Verdict = Accept | Refresh(refreshToken: string) | Logout

  /** The access token is present (truthy) and not expired. */
  predicate Usable(token: Option<string>, nowMs: int, decode: Decoder) {
    Present(token) && !IsTokenExpired(token.value, nowMs, decode)
  }

  /**
   * `checkAuth`'s decision: accept a usable token; otherwise refresh when a
   * (truthy) refresh token is stored; otherwise log out. A missing token and
   * an expired one are handled alike.
   */
  function Decide(token: Option<string>, refreshToken: Option<string>, nowMs: int, decode: Decoder): (v: Verdict)
    ensures v == Accept <==> Usable(token, nowMs, decode)
    ensures v.Refresh? <==> !Usable(token, nowMs, decode) && Present(refreshToken)
    ensures v.Refresh? ==> refreshToken == Some(v.refreshToken)
    ensures v == Logout <==> !Usable(token, nowMs, decode) && !Present(refreshToken)
  {
    if !Present(token) then
      if Present(refreshToken) then Refresh(refreshToken.value) else Logout
    else if IsTokenExpired(token.value, nowMs, decode) then
      if Present(refreshToken) then Refresh(refreshToken.value) else Logout
    else Accept
  }

  /**
   * A token whose payload says `exp: 0` (the epoch) is never accepted, at
   * any clock reading; with no refresh token stored the guard logs out.
   */
  lemma EpochTokenLogsOut(header: string, payload: string, rest: string, nowMs: int, decode: Decoder)
    requires '.' !in header && '.' !in payload
    requires decode(payload).Some? && decode(payload).value.exp == Some(0)
    ensures IsTokenExpired(header + "." + payload + "." + rest, nowMs, decode)
    ensures Decide(Some(header + "." + payload + "." + rest), None, nowMs, decode) == Logout
  {
    ParseJwtIgnoresHeaderAndSignature(header, payload, rest, decode);
  }

  /** `data.data?.token` of the refresh endpoint's JSON body. */
  datatype RefreshFields = RefreshFields(token: Option<string>)

  /** The body of the refresh request, `{ refresh_token }`. */
  datatype RefreshRequest = RefreshRequest(refreshToken: string)

  /**
   * The new access token a refresh reply yields: only a response with
   * `res.ok`, a JSON body and a truthy `data.token` succeeds; a thrown
   * `fetch`, a non-ok status, a body that is not JSON or is `null`, or a
   * missing or empty token all fail.
   */
  function RefreshedToken(reply: Reply<RefreshFields>): (t: Option<string>)
    ensures t.Some? <==> reply.Response? && reply.ok && reply.body.Object? && Present(reply.body.fields.token)
    ensures t.Some? ==> t == reply.body.fields.token && t.value != ""
  {
    match reply
    case NetworkError(_) => None
    case Response(ok, body) =>
      match body
      case Object(fields) => if ok && Present(fields.token) then fields.token else None
      case _ => None
  }

  /** The `status` state: the page shows only a loading notice while checking. */
  datatype Status = Checking | Ok

  class Guard {
    var status: Status
    /** The `redirectIfUnauthenticatedTo` prop. */
    const redirectTo: string

    constructor (redirectIfUnauthenticatedTo: Option<string>)
      ensures status == Checking
      ensures redirectTo == redirectIfUnauthenticatedTo.GetOr("/login")
    {
      status := Checking;
      redirectTo := redirectIfUnauthenticatedTo.GetOr("/login");
    }

    /** The children are rendered only once the status is `ok`. */
    predicate RendersChildren()
      reads this
      ensures RendersChildren() <==> status != Checking
    {
      status == Ok
    }

    /** `forceLogout`: removes both tokens and redirects; the status is left alone. */
    method ForceLogout(store: Storage) returns (navigation: string)
      modifies store
      ensures store.items == old(store.items) - {TokenKey, RefreshTokenKey}
      ensures navigation == redirectTo
    {
      store.RemoveItem(TokenKey);
      store.RemoveItem(RefreshTokenKey);
      navigation := redirectTo;
    }

    /**
     * `attemptRefresh`: sends one request carrying the refresh token; on
     * success overwrites `token` only and sets `ok`, on any failure forces
     * a logout.
     */
    method AttemptRefresh(store: Storage, refreshToken: string, reply: Reply<RefreshFields>)
      returns (request: RefreshRequest, navigation: Option<string>)
      modifies this, store
      ensures request == RefreshRequest(refreshToken)
      ensures RefreshedToken(reply).Some? ==>
                && store.items == old(store.items)[TokenKey := RefreshedToken(reply).value]
                && status == Ok
                && navigation == None
      ensures RefreshedToken(reply).None? ==>
                && store.items == old(store.items) - {TokenKey, RefreshTokenKey}
                && status == old(status)
                && navigation == Some(redirectTo)
    {
      request := RefreshRequest(refreshToken);
      var newToken := RefreshedToken(reply);
      if newToken.Some? {
        store.SetItem(TokenKey, newToken.value);
        status := Ok;
        navigation := None;
      } else {
        var target := ForceLogout(store);
        navigation := Some(target);
      }
    }

    /**
     * `checkAuth`: one run of the guard. It sends at most one request, a
     * refresh carrying the stored refresh token, and only when the access
     * token is missing or expired.
     */
    method CheckAuth(store: Storage, nowMs: int, decode: Decoder, reply: Reply<RefreshFields>)
      returns (request: Option<RefreshRequest>, navigation: Option<string>)
      modifies this, store
      ensures var v := Decide(old(store.GetItem(TokenKey)), old(store.GetItem(RefreshTokenKey)), nowMs, decode);
              && (v == Accept ==>
                    request == None && navigation == None && status == Ok
                    && store.items == old(store.items))
              && (v.Refresh? ==> request == Some(RefreshRequest(v.refreshToken)))
              && (v.Refresh? && RefreshedToken(reply).Some? ==>
                    store.items == old(store.items)[TokenKey := RefreshedToken(reply).value]
                    && status == Ok && navigation == None)
              && (v.Refresh? && RefreshedToken(reply).None? ==>
                    store.items == old(store.items) - {TokenKey, RefreshTokenKey}
                    && status == old(status) && navigation == Some(redirectTo))
              && (v == Logout ==>
                    request == None
                    && store.items == old(store.items) - {TokenKey, RefreshTokenKey}
                    && status == old(status) && navigation == Some(redirectTo))
    {
      var token := store.GetItem(TokenKey);
      var refreshToken := store.GetItem(RefreshTokenKey);

      if !Present(token) || IsTokenExpired(token.value, nowMs, decode) {
        if Present(refreshToken) {
          var sent;
          sent, navigation := AttemptRefresh(store, refreshToken.value, reply);
          request := Some(sent);
          return;
        }
        var target := ForceLogout(store);
        request, navigation := None, Some(target);
        return;
      }

      status := Ok;
      request, navigation := None, None;
    }
  }
}
