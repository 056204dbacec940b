/**
 * `getRolesFromToken`: the role markers of the stored access token, read
 * by the admin menu to decide what to show. It only reads localStorage and
 * fails closed: every failure yields the empty list.
 */
module Auth {
  import opened Wrappers
  import opened JsStrings
  import opened JsArrays
  import opened Browser
  import AuthGuard

  /** The prefix that marks a scope entry as a role. */
  const RolePrefix: string := "ROLE_"

  predicate IsRole(entry: string) {
    StartsWith(entry, RolePrefix)
  }

  /**
   * `scope.split(" ").filter(s => s.startsWith("ROLE_"))`: exactly the
   * space-separated entries that carry the role prefix, prefix kept, in
   * their original order, duplicates kept.
   */
  function RoleEntries(scope: string): (roles: seq<string>)
    ensures forall r :: r in roles ==> IsRole(r) && ' ' !in r
    ensures forall x :: x in roles <==> x in Split(scope, ' ') && IsRole(x)
    ensures forall x :: multiset(roles)[x] == if IsRole(x) then multiset(Split(scope, ' '))[x] else 0
    ensures IsSubsequence(roles, Split(scope, ' '))
  {
    Filter(Split(scope, ' '), IsRole)
  }

  /**
   * `getRolesFromToken`. `hasWindow` is false during server rendering.
   * The token is decoded as `parseJwt` does in the guard (lib/auth.ts
   * repeats that expression); a payload that fails to decode, is `null`,
   * or has no string `scope` yields [] (a non-string scope throws on
   * `.split`, and the catch returns []).
   */
  function RolesFromToken(hasWindow: bool, store: Storage, decode: AuthGuard.Decoder): (roles: seq<string>)
    reads store
    ensures !hasWindow ==> roles == []
    ensures !Present(store.GetItem(TokenKey)) ==> roles == []
    ensures forall r :: r in roles ==> IsRole(r)
    ensures roles != [] ==> hasWindow && Present(store.GetItem(TokenKey))
    ensures hasWindow && Present(store.GetItem(TokenKey)) ==>
              match AuthGuard.ParseJwt(store.GetItem(TokenKey).value, decode)
              case None => roles == []
              case Some(claims) =>
                roles == if claims.scope.Some? then RoleEntries(claims.scope.value) else []
  {
    if !hasWindow then []
    else
      var token := store.GetItem(TokenKey);
      if !Present(token) then []
      else
        match AuthGuard.ParseJwt(token.value, decode)
        case None => []
        case Some(claims) =>
          if claims.scope.Some? then RoleEntries(claims.scope.value) else []
  }

  /** A scope written as entries joined by single spaces yields the role entries among them. */
  lemma RoleEntriesOfJoin(entries: seq<string>)
    requires |entries| >= 1
    requires forall i :: 0 <= i < |entries| ==> ' ' !in entries[i]
    ensures RoleEntries(Join(entries, ' ')) == Filter(entries, IsRole)
  {
    SplitJoin(entries, ' ');
  }

  /** A scope with an admin and a viewer role yields both markers, in order. */
  lemma AdminViewerScope(scope: string)
    requires scope == "openid ROLE_ADMIN ROLE_VIEWER"
    ensures RoleEntries(scope) == ["ROLE_ADMIN", "ROLE_VIEWER"]
  {
    AdminViewerJoin(scope);
    AdminViewerRoles(scope);
  }

  lemma AdminViewerJoin(scope: string)
    requires scope == "openid ROLE_ADMIN ROLE_VIEWER"
    ensures Join(["openid", "ROLE_ADMIN", "ROLE_VIEWER"], ' ') == scope
  {
    JoinThree("openid", "ROLE_ADMIN", "ROLE_VIEWER");
  }

  lemma AdminViewerRoles(scope: string)
    requires Join(["openid", "ROLE_ADMIN", "ROLE_VIEWER"], ' ') == scope
    ensures RoleEntries(scope) == ["ROLE_ADMIN", "ROLE_VIEWER"]
  {
    var parts := ["openid", "ROLE_ADMIN", "ROLE_VIEWER"];
    RoleEntriesOfJoin(parts);
    FilterAdminViewer(parts);
  }

  lemma FilterAdminViewer(parts: seq<string>)
    requires parts == ["openid", "ROLE_ADMIN", "ROLE_VIEWER"]
    ensures Filter(parts, IsRole) == ["ROLE_ADMIN", "ROLE_VIEWER"]
  {
    assert !IsRole(parts[0]) by {
      assert parts[0][0] == 'o';
    }
    assert IsRole(parts[1]) && IsRole(parts[2]);
    assert parts[1..][1..][1..] == [];
  }

  /** A repeated role is reported as many times as it occurs. */
  lemma DuplicateRolesKept(scope: string)
    requires scope == "ROLE_ADMIN ROLE_ADMIN"
    ensures RoleEntries(scope) == ["ROLE_ADMIN", "ROLE_ADMIN"]
  {
    var parts := ["ROLE_ADMIN", "ROLE_ADMIN"];
    assert parts[1..] == ["ROLE_ADMIN"];
    assert Join(parts, ' ') == scope;
    RoleEntriesOfJoin(parts);
    assert IsRole(parts[0]);
  }

  lemma JoinThree(a: string, b: string, c: string)
    ensures Join([a, b, c], ' ') == a + " " + b + " " + c
  {
    assert [a, b, c][1..] == [b, c];
    assert [b, c][1..] == [c];
    assert Join([b, c], ' ') == b + " " + c;
    assert a + " " + (b + " " + c) == a + " " + b + " " + c;
  }
}
