# Session guard, role-gated menu and form handlers of the lkdt admin console

This project models the small amount of decision logic in the lkdt admin
console, a Next.js front end for an electronics-inventory and retail-order
business. Almost all of the console is pages that fetch and render data.
Under them sits the logic modelled here:

- **The session guard** (`AuthGuard`). It wraps every protected page. It reads
  the access token (`token`) and the refresh token (`refreshToken`) from
  localStorage. A token that decodes to a non-zero `exp` no earlier than the
  current second is accepted. Otherwise the guard sends one refresh request,
  provided a refresh token is stored. A successful refresh overwrites `token`
  only. When no refresh is possible, or the refresh fails, the guard removes
  both keys and redirects. The page shows its children only once the status is
  `ok`.
- **Role extraction** (`getRolesFromToken`). It returns the entries of the
  token's `scope` claim that start with `ROLE_`. Every failure gives `[]`.
- **The admin sidebar.** Entries that require admin are hidden from
  non-admins. The module also models how each entry is highlighted and drawn,
  the group headings, and the logout button, which clears both session keys.
  The fixed menu list (`getMenuList`) is the filter's input.
- **The `component` and `user` Redux slices.** Their reducers set, patch and
  clear a record and its `loading`/`error` flags.
- **The submit handlers** of the login, forgot-password and reset-password
  forms. Each checks guards in order, then sends a request or not, then sets
  `error`, `message` and `loading`.

localStorage is the `Browser.Storage` class, a map from keys to strings.
`atob` followed by `JSON.parse` becomes a `Decoder` function parameter. The
clock (`Date.now()`) becomes an integer parameter. Every server answer becomes
an input value (`Http.Reply`, `AuthGuard.RefreshFields`, `Login.LoginResult`).
Navigation (`router.replace`, `router.push`, `window.location.href`) becomes
an output value. The JavaScript built-ins the logic depends on are modelled
in `JsStrings` and `JsArrays`, with their own lemmas:

- `split` with a one-character separator. It is proved to be the inverse of
  joining with that separator.
- `startsWith`.
- `trim`, with the ECMAScript white-space set.
- `filter`. It is proved to keep exactly the passing elements, in order and
  with their multiplicities.

Behaviour of the code that is easy to miss:

- Expiry is strict. The code compares `exp < Math.floor(Date.now() / 1000)`,
  so a token stays valid through the whole second named by `exp`
  (`AuthGuard.ValidThroughExpirySecond`).
- One '.' is enough for a token to have a payload segment: `parseJwt` decodes
  whatever follows the first dot, up to the next dot if there is one
  (`AuthGuard.ParseJwtReadsPayloadSegment`, `AuthGuard.OneDotTokenDecodesTail`).
- The guard's status is only ever `checking` or `ok`. On a redirect it stays
  `checking`.
- The roles are a list in scope order, and a role that occurs twice is
  reported twice (`Auth.DuplicateRolesKept`).
- A refresh is attempted at most once per guard run. There is no
  single-flight coordination between guards, no retry, and the refresh token
  is never replaced.

## Model

| member | source | states |
|---|---|---|
| `JsStrings.StartsWithIffPrefix` | lib/auth.ts:11 | `s.startsWith(prefix)` holds exactly when `s` is `prefix` followed by some rest |
| `JsStrings.Split` | lib/auth.ts:9 | `split(" ")` gives at least one part, no part holds the separator, and joining the parts with the separator gives back the input |
| `JsStrings.SplitWithoutSeparator` | components/AuthGuard.tsx:13 | a string with no separator splits into itself alone, so a token without '.' has no payload segment |
| `JsStrings.SplitAtFirstSeparator` | components/AuthGuard.tsx:13 | splitting `head + sep + tail` with a separator-free `head` gives `head` followed by the parts of `tail` |
| `JsStrings.SplitAtSeparator` | components/AuthGuard.tsx:13 | a string that holds the separator splits into at least two parts, so a token with a '.' always has a second segment |
| `JsStrings.SplitJoin` | lib/auth.ts:9 | split undoes join for any list of separator-free parts, so the split is the unique such decomposition |
| `JsStrings.TrimStart` | app/forgot-password/ForgotPasswordClient.tsx:18 | the result is a suffix of the input, all that was dropped is white space, and it does not start with white space |
| `JsStrings.TrimEnd` | app/forgot-password/ForgotPasswordClient.tsx:18 | the result is a prefix of the input, all that was dropped is white space, and it does not end with white space |
| `JsStrings.Trim` | app/forgot-password/ForgotPasswordClient.tsx:18 | the result is an infix with only white space cut on either side, it neither starts nor ends with white space, and it is empty exactly when the input is all white space |
| `JsStrings.TrimCutsWhitespace` | app/forgot-password/ForgotPasswordClient.tsx:18 | trimming both ends leaves an infix of the input with only white space cut on either side |
| `JsStrings.TrimEmptyIffWhitespace` | app/forgot-password/ForgotPasswordClient.tsx:18 | trimming both ends leaves nothing exactly when the input is all white space, which is when the handler's emptiness guard fires |
| `JsStrings.TrimIdempotent` | app/forgot-password/ForgotPasswordClient.tsx:32 | `trim` is idempotent, so the request carries a username with no white space left at either end; the handler trims the raw username at the check and again for the request, which the model computes once since `Trim` is a function |
| `JsArrays.Filter` | lib/auth.ts:11 | `filter` keeps exactly the elements that pass, each as often as it occurs, as an order-preserving subsequence; when every element passes, the result is the input |
| `Browser.OrElse` | app/login/page.tsx:45 | `v \|\| fallback` gives `v` when it is a non-empty string and the fallback otherwise |
| `Browser.Storage.GetItem` | components/AuthGuard.tsx:35-36 | `getItem` gives the stored value for a key, or null when the key is absent |
| `Browser.Storage.SetItem` | components/AuthGuard.tsx:81 | `setItem` maps the key to the value and leaves every other key as it was |
| `Browser.Storage.RemoveItem` | components/AuthGuard.tsx:90-91 | `removeItem` drops the key and leaves every other key as it was |
| `AuthGuard.ParseJwt` | components/AuthGuard.tsx:11-19 | `parseJwt` never throws; a token without '.' yields null |
| `AuthGuard.ParseJwtReadsPayloadSegment` | components/AuthGuard.tsx:13-15 | for a token `header.tail` with a dot-free header, what is decoded is the first dot-separated part of `tail`; the header does not matter |
| `AuthGuard.OneDotTokenDecodesTail` | components/AuthGuard.tsx:13-15 | a token with a single '.' decodes everything after the dot |
| `AuthGuard.ParseJwtIgnoresHeaderAndSignature` | components/AuthGuard.tsx:13-15 | for `header.payload.rest`, only the payload segment is decoded; the header and signature do not matter |
| `AuthGuard.IsTokenExpired` | components/AuthGuard.tsx:21-26 | a token is valid exactly when its payload decodes to a non-zero `exp` that is no earlier than `floor(nowMs / 1000)`; an unparseable payload, a missing `exp` and `exp = 0` are expired |
| `AuthGuard.ValidThroughExpirySecond` | components/AuthGuard.tsx:24-25 | expiry is strict: at `exp * 1000` ms and at `exp * 1000 + 999` ms the token is valid, and from `(exp + 1) * 1000` ms on it is expired |
| `AuthGuard.ExpiryIsPermanent` | components/AuthGuard.tsx:24-25 | a token expired at one clock reading is expired at every later one |
| `AuthGuard.Decide` | components/AuthGuard.tsx:41-63 | accept iff the token is present and unexpired; refresh iff it is not, and a non-empty refresh token is stored, which is the token the refresh carries; log out iff neither |
| `AuthGuard.EpochTokenLogsOut` | components/AuthGuard.tsx:22-23 | a token whose payload has `exp: 0` is expired at any clock reading, and with no refresh token the guard logs out |
| `AuthGuard.RefreshedToken` | components/AuthGuard.tsx:76-78 | a refresh succeeds iff `res.ok`, the body is JSON and `data.data.token` is a non-empty string, and then it yields that token; a thrown fetch, a non-ok status, a non-JSON or null body and a missing token all fail |
| `AuthGuard.Guard.constructor` | components/AuthGuard.tsx:28-33 | the guard starts in `checking`; the redirect target defaults to `/login` |
| `AuthGuard.Guard.RendersChildren` | components/AuthGuard.tsx:102-110 | children are rendered exactly when the status is no longer `checking` |
| `AuthGuard.Guard.ForceLogout` | components/AuthGuard.tsx:89-93 | removes `token` and `refreshToken`, keeps every other key, redirects to the configured target, and leaves the status alone |
| `AuthGuard.Guard.AttemptRefresh` | components/AuthGuard.tsx:65-87 | sends one request carrying the refresh token; on success it overwrites only `token`, keeps `refreshToken`, and sets `ok`; on any failure it clears both keys and redirects |
| `AuthGuard.Guard.CheckAuth` | components/AuthGuard.tsx:41-63 | an unexpired token: status `ok`, no request, storage unchanged; otherwise, with a refresh token: exactly one request carrying it, then the refresh outcome; with neither: both keys removed, a redirect, no request, and the status unchanged |
| `Auth.RoleEntries` | lib/auth.ts:9-11 | the result holds exactly the space-separated scope entries that start with `ROLE_`, prefix kept, as an order-preserving subsequence, each as often as it occurs |
| `Auth.RolesFromToken` | lib/auth.ts:1-15 | `[]` without `window`, without a (non-empty) stored token, on a payload that fails to decode and on one without a string `scope`; otherwise the role entries of the scope; it only reads storage |
| `Auth.RoleEntriesOfJoin` | lib/auth.ts:9-11 | a scope written as entries joined by single spaces yields exactly the role entries among them |
| `Auth.AdminViewerScope` | lib/auth.ts:9-11 | the scope `openid ROLE_ADMIN ROLE_VIEWER` yields `[ROLE_ADMIN, ROLE_VIEWER]` |
| `Auth.DuplicateRolesKept` | lib/auth.ts:11 | a role that occurs twice in the scope is reported twice |
| `MenuList.GetMenuList` | lib/menu-list.ts:30-97 | three groups labelled "", "" and "Settings"; no entry sets `active` or `requireAdmin`; "Component" has an empty submenu list; "Transaction" has href "" and the four submenus today, monthly, posts, all; the other four entries have no submenus |
| `MenuList.MenuListIgnoresPathname` | lib/menu-list.ts:30-31 | the list is the same for every pathname |
| `AdminMenu.IsAdmin` | components/admin-panel/menu.tsx:29-30 | admin iff some role is exactly `ROLE_ADMIN` |
| `AdminMenu.VisibleMenus` | components/admin-panel/menu.tsx:35 | within one group, an entry is kept iff it does not require admin or the user is admin, each kept entry as often as it occurs, as an order-preserving subsequence; when every entry is visible the group is unchanged |
| `AdminMenu.FilterMenus` | components/admin-panel/menu.tsx:33-39 | every group is kept, in order, with its label, and its menus are exactly the visible ones (`VisibleMenus`); for an admin, or when no menu requires admin, the list is unchanged |
| `AdminMenu.VisibleMenuList` | components/admin-panel/menu.tsx:25-39 | the sidebar every user sees, whatever the roles, is the whole menu list |
| `AdminMenu.ButtonVariant` | components/admin-panel/menu.tsx:76-82 | an entry is highlighted iff `active` is true, or `active` is absent and the pathname starts with its href |
| `AdminMenu.MenuItemView` | components/admin-panel/menu.tsx:69-119 | a missing or empty `submenus` gives a plain button with that highlight; otherwise a collapse button over the submenus, active iff the pathname starts with the href |
| `AdminMenu.TransactionAlwaysActive` | components/admin-panel/menu.tsx:110-118 | the "Transaction" entry (href "") is drawn as an active collapse button on every page |
| `AdminMenu.GroupHeader` | components/admin-panel/menu.tsx:47-67 | the label text when the sidebar is open and the label is non-empty, or when `isOpen` is undefined; an ellipsis exactly when the sidebar is collapsed and the label is non-empty; a spacer exactly when `isOpen` is defined and the label is empty |
| `AdminMenu.Logout` | components/admin-panel/menu.tsx:127-131 | removes `token` and `refreshToken`, keeps every other key, and navigates to `/` |
| `ComponentSlice.Spread` | store/slices/componentSlice.ts:26 | `{ ...component, ...payload }`: every field of the result is the patch's when the patch gives it and the component's otherwise, i.e. the result as a whole patch is the component's whole patch merged with the payload |
| `ComponentSlice.Combine` | store/slices/componentSlice.ts:26 | merging two patches: an empty patch on either side is neutral, and a later patch that gives every field wins outright |
| `ComponentSlice.SpreadExtremes` | store/slices/componentSlice.ts:26 | an empty patch leaves the component unchanged; a patch that gives every field replaces it |
| `ComponentSlice.SpreadIdempotent` | store/slices/componentSlice.ts:26 | applying the same patch twice equals applying it once |
| `ComponentSlice.SpreadComposes` | store/slices/componentSlice.ts:26 | two patches in a row equal one patch with their keys merged, the later winning |
| `ComponentSlice.ComponentSliceState.constructor` | store/slices/componentSlice.ts:10-14 | the initial state is no component, not loading, no error |
| `ComponentSlice.ComponentSliceState.SetComponent` | store/slices/componentSlice.ts:20-23 | stores the payload and clears the error; `loading` is unchanged |
| `ComponentSlice.ComponentSliceState.UpdateComponent` | store/slices/componentSlice.ts:24-28 | no-op without a component; otherwise the patch's keys override the component's fields and the rest are kept; `loading` and `error` never change |
| `ComponentSlice.ComponentSliceState.ClearComponent` | store/slices/componentSlice.ts:29-33 | the state becomes the initial state from any state, so a second call changes nothing |
| `ComponentSlice.ComponentSliceState.SetLoading` | store/slices/componentSlice.ts:34-36 | changes `loading` only |
| `ComponentSlice.ComponentSliceState.SetError` | store/slices/componentSlice.ts:37-39 | changes `error` only |
| `UserSlice.Spread` | store/slices/userSlice.ts:20 | `{ ...user, ...payload }`: every field of the result is the patch's when the patch gives it and the user's otherwise, i.e. the result as a whole patch is the user's whole patch merged with the payload |
| `UserSlice.Combine` | store/slices/userSlice.ts:20 | merging two patches: an empty patch on either side is neutral, and a later patch that gives every field wins outright |
| `UserSlice.SpreadExtremes` | store/slices/userSlice.ts:20 | an empty patch leaves the user unchanged; a patch that gives every field replaces it |
| `UserSlice.SpreadIdempotent` | store/slices/userSlice.ts:20 | applying the same patch twice equals applying it once |
| `UserSlice.SpreadComposes` | store/slices/userSlice.ts:20 | two patches in a row equal one patch with their keys merged, the later winning |
| `UserSlice.UserSliceState.constructor` | store/slices/userSlice.ts:4-8 | the initial state is no user, not loading, no error |
| `UserSlice.UserSliceState.SetUser` | store/slices/userSlice.ts:14-17 | stores the payload and clears the error; `loading` is unchanged |
| `UserSlice.UserSliceState.UpdateUser` | store/slices/userSlice.ts:18-22 | no-op without a user; otherwise the patch's keys override the user's fields and the rest are kept; `loading` and `error` never change |
| `UserSlice.UserSliceState.ClearUser` | store/slices/userSlice.ts:23-27 | the state becomes the initial state from any state, so a second call changes nothing |
| `UserSlice.UserSliceState.SetLoading` | store/slices/userSlice.ts:28-30 | changes `loading` only |
| `UserSlice.UserSliceState.SetError` | store/slices/userSlice.ts:31-33 | changes `error` only |
| `Login.LoginForm.constructor` | app/login/page.tsx:17-21 | the form starts with empty fields, no error, not loading |
| `Login.LoginForm.HandleSubmit` | app/login/page.tsx:24-49 | an empty username or password (not trimmed) sets the fill-in error, sends nothing and stores nothing; otherwise the error is cleared and `loading` is true when the credentials are sent; success stores `token` and `refreshToken` and navigates to `/home`; failure stores nothing and shows the error's message or the default; `loading` ends false |
| `ForgotPassword.BodyMessage` | app/forgot-password/ForgotPasswordClient.tsx:36-41 | a JSON object body yields its `message` field (present or absent); a non-JSON body counts as `{}` and a `null` body has no message |
| `ForgotPassword.ForgotPasswordForm.constructor` | app/forgot-password/ForgotPasswordClient.tsx:11-14 | the form starts empty, without error or message, not loading |
| `ForgotPassword.ForgotPasswordForm.HandleSubmit` | app/forgot-password/ForgotPasswordClient.tsx:16-52 | a username that trims to "" sets the enter-username error and sends nothing; otherwise `error` and `message` are cleared and `loading` is true when the trimmed username is sent; ok: the server's message or the default notice, and the field is emptied; non-ok or a failed fetch: the error, an empty message, and the field kept; `loading` ends false |
| `ResetPassword.ReplyMessage` | app/reset-password/ResetPasswordForm.tsx:36-45 | ok with a JSON body gives the success text; non-ok with an object body gives its message or the default failure; a non-JSON body, a non-ok `null` body and a failed fetch give the generic error |
| `ResetPassword.ResetPasswordForm.constructor` | app/reset-password/ResetPasswordForm.tsx:7-12 | the token comes from the query string; the fields and message start empty |
| `ResetPassword.ResetPasswordForm.ShowsOnlyInvalidTokenNotice` | app/reset-password/ResetPasswordForm.tsx:49-51 | only the invalid-token notice renders when the token is missing or empty |
| `ResetPassword.ResetPasswordForm.HandleSubmit` | app/reset-password/ResetPasswordForm.tsx:14-47 | a request is sent iff both fields are non-empty and equal, carrying the token and `newPassword = password`; an empty field is reported before a mismatch; the reply decides the message |

## Left out

- React mechanics are not modelled. This covers effect scheduling, the
  guard's `active` unmount flag (components/AuthGuard.tsx:39, 97-99),
  re-running the effect when its dependencies change, and concurrent guard
  mounts. One guard run is one sequential call of `Guard.CheckAuth`.
- Navigation is an output value; the router is not modelled. Rendering is not
  modelled beyond the status gate, the sidebar's drawing choices and the
  reset form's token notice.
- `atob` and `JSON.parse` are the abstract `Decoder` parameter. The model does
  not claim they decode JWTs correctly: `atob` is standard base64, section 4
  of RFC 4648, while JWT payloads use unpadded base64url, section 5 of RFC
  4648.
- `AuthGuard.IsTokenExpired` models `exp` as an integer number of seconds when
  present. A fractional `exp`, or a non-numeric truthy `exp` that JavaScript
  coerces in `<`, is not modelled.
- `Auth.RolesFromToken` models `scope` as a string or absent. Any non-string
  scope throws on `.split` and gives `[]`, which is the absent case.
- Request URLs and headers, and the `console` calls, are not modelled. Each
  request is modelled by its body only.
- The two login and reset fetch wrappers in app/services/auth are not part of
  this model. Their outcome is the `Login.LoginResult` input.
- `Login.LoginForm.HandleSubmit` does not model a success body without
  `token` or `refresh_token`, which would store the text "undefined".
- The state while a request is out (`loading` true, `error` and, in the
  forgot-password form, `message` cleared) is reported by the ghost outputs
  of `Login.LoginForm.HandleSubmit` and
  `ForgotPassword.ForgotPasswordForm.HandleSubmit`. React
  state batching is not modelled: each handler's state updates are applied in
  program order.
- `ComponentSlice.Spread` and `UserSlice.Spread`: a patch key that is present
  with the value `undefined` is not modelled. In JavaScript it would override
  the field with `undefined`.
- JavaScript numbers in the records are modelled as integers.
- Exceptions thrown by localStorage (quota, disabled storage) are not
  modelled.
- Icons, CSS classes, tooltips and the collapse-menu button's internals are
  not modelled. components/admin-panel/collapse-menu-button.tsx is not part
  of this model.
- The form fields' `onChange` setters and the login form's `remember` flag
  are plain assignments and are not modelled as operations. The login service
  removes `remember` before sending.
- The Web Serial page, the CRUD pages, app/forgot-password/page.tsx (a stub
  with a single emptiness check), the type declarations, store/store.ts and
  next.config.ts are not part of this model.
