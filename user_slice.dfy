/**
 * The `user` slice of the Redux store: the signed-in user's profile, a
 * loading flag and an error message, with the same reducer shapes as the
 * component slice.
 */
module UserSlice {
  import opened Wrappers

  datatype Permission = Permission(id: int, name: string, description: string)

  datatype Role = Role(id: int, name: string, description: string, permissions: seq<Permission>)

  /** A user profile as the API returns it. */
  datatype DataUser = DataUser(
    username: string,
    phone: string,
    email: string,
    fullname: string,
    active: bool,
    datecreate: string,
    birthday: string,
    lastUpdate: string,
    roles: seq<Role>)

  /** `Partial<DataUser>`: each field either given or absent. */
  datatype UserPatch = UserPatch(
    username: Option<string>,
    phone: Option<string>,
    email: Option<string>,
    fullname: Option<string>,
    active: Option<bool>,
    datecreate: Option<string>,
    birthday: Option<string>,
    lastUpdate: Option<string>,
    roles: Option<seq<Role>>)

  const NoChange: UserPatch := UserPatch(None, None, None, None, None, None, None, None, None)

  /** The patch that gives every field of `u`. */
  function Whole(u: DataUser): UserPatch {
    UserPatch(Some(u.username), Some(u.phone), Some(u.email), Some(u.fullname), Some(u.active),
              Some(u.datecreate), Some(u.birthday), Some(u.lastUpdate), Some(u.roles))
  }

  /** `{ ...u, ...p }`: the fields `p` gives replace those of `u`; the rest are kept. */
  function Spread(u: DataUser, p: UserPatch): (r: DataUser)
    ensures Whole(r) == Combine(Whole(u), p)
  {
    DataUser(
      p.username.GetOr(u.username), p.phone.GetOr(u.phone), p.email.GetOr(u.email),
      p.fullname.GetOr(u.fullname), p.active.GetOr(u.active), p.datecreate.GetOr(u.datecreate),
      p.birthday.GetOr(u.birthday), p.lastUpdate.GetOr(u.lastUpdate), p.roles.GetOr(u.roles))
  }

  /** `{ ...p, ...q }` on two patches: a field is given when either gives it, `q` winning. */
  function Combine(p: UserPatch, q: UserPatch): (r: UserPatch)
    ensures q == NoChange ==> r == p
    ensures p == NoChange ==> r == q
    ensures forall d :: q == Whole(d) ==> r == q
  {
    UserPatch(
      if q.username.Some? then q.username else p.username,
      if q.phone.Some? then q.phone else p.phone,
      if q.email.Some? then q.email else p.email,
      if q.fullname.Some? then q.fullname else p.fullname,
      if q.active.Some? then q.active else p.active,
      if q.datecreate.Some? then q.datecreate else p.datecreate,
      if q.birthday.Some? then q.birthday else p.birthday,
      if q.lastUpdate.Some? then q.lastUpdate else p.lastUpdate,
      if q.roles.Some? then q.roles else p.roles)
  }

  /** An empty patch changes nothing; a whole patch replaces everything. */
  lemma SpreadExtremes(u: DataUser, d: DataUser)
    ensures Spread(u, NoChange) == u
    ensures Spread(u, Whole(d)) == d
  {
  }

  /** Applying the same patch twice is applying it once. */
  lemma SpreadIdempotent(u: DataUser, p: UserPatch)
    ensures Spread(Spread(u, p), p) == Spread(u, p)
  {
  }

  /** Two updates in a row are one update with the combined patch. */
  lemma SpreadComposes(u: DataUser, p: UserPatch, q: UserPatch)
    ensures Spread(Spread(u, p), q) == Spread(u, Combine(p, q))
  {
  }

  datatype UserState = UserState(user: Option<DataUser>, loading: bool, error: Option<string>)

  /** `initialState`: no user, not loading, no error. */
  const InitialState: UserState := UserState(None, false, None)

  class UserSliceState {
    var user: Option<DataUser>
    var loading: bool
    var error: Option<string>

    function State(): UserState
      reads this
    {
      UserState(user, loading, error)
    }

    constructor ()
      ensures State() == InitialState
    {
      user, loading, error := None, false, None;
    }

    /** `setUser`: stores the payload and clears the error; `loading` is kept. */
    method SetUser(payload: DataUser)
      modifies this
      ensures State() == old(State()).(user := Some(payload), error := None)
    {
      user := Some(payload);
      error := None;
    }

    /**
     * `updateUser`: with no user, nothing happens; otherwise the patch's
     * fields override the user's. `loading` and `error` are kept.
     */
    method UpdateUser(patch: UserPatch)
      modifies this
      ensures old(user).None? ==> State() == old(State())
      ensures old(user).Some? ==> State() == old(State()).(user := Some(Spread(old(user).value, patch)))
    {
      if user.Some? {
        user := Some(Spread(user.value, patch));
      }
    }

    /** `clearUser`: back to the initial state, whatever the state was (so twice is once). */
    method ClearUser()
      modifies this
      ensures State() == InitialState
    {
      user := None;
      error := None;
      loading := false;
    }

    /** `setLoading`: changes `loading` only. */
    method SetLoading(payload: bool)
      modifies this
      ensures State() == old(State()).(loading := payload)
    {
      loading := payload;
    }

    /** `setError`: changes `error` only. */
    method SetError(payload: Option<string>)
      modifies this
      ensures State() == old(State()).(error := payload)
    {
      error := payload;
    }
  }
}
