/** The web client's session store: the signed-in user and the status of
    the session, updated in place by `fetchUser`, `setUser` and `clearUser`. */
module SessionStore {
  import opened Wrappers
  import opened UserFilters

  /** The user record the `/api/auth/me` and `/api/settings` responses carry;
      a missing e-mail address is `None`, times are milliseconds. */
  datatype SessionUser = SessionUser(
    id: string,
    username: string,
    avatarUrl: string,
    email: Option<string>,
    notificationEmail: Option<string>,
    cadence: string,
    filters: Option<Filters>,
    lastDigestSentAt: Option<int>)

  datatype SessionStatus = Idle | Loading | Authenticated | Unauthenticated

  /** The status a settled store reports for a user value: `user ? 'authenticated' : 'unauthenticated'`. */
  function StatusFor(user: Option<SessionUser>): (status: SessionStatus)
    ensures status == Authenticated <==> user.Some?
    ensures status == Unauthenticated <==> user.None?
  {
    if user.Some? then Authenticated else Unauthenticated
  }

  /** The store. `set` merges the given fields into the state, so a field it
      does not name keeps its value. */
  class Session {
    var user: Option<SessionUser>
    var status: SessionStatus

    /** An authenticated session has a user and an unauthenticated one has none. */
    ghost predicate Valid()
      reads this
    {
      && (status == Authenticated ==> user.Some?)
      && (status == Unauthenticated ==> user.None?)
    }

    /** The initial state: no user, status idle. */
    constructor ()
      ensures user.None? && status == Idle
      ensures Valid()
    {
      user := None;
      status := Idle;
    }

    /** `setUser` */
    method SetUser(u: Option<SessionUser>)
      modifies this
      ensures user == u && status == StatusFor(u)
      ensures Valid()
    {
      user := u;
      status := if u.Some? then Authenticated else Unauthenticated;
    }

    /** `clearUser` */
    method ClearUser()
      modifies this
      ensures user.None? && status == Unauthenticated
      ensures Valid()
    {
      user := None;
      status := Unauthenticated;
    }

    /** The first step of `fetchUser`, before the request settles: only the
        status changes. */
    method BeginFetch()
      modifies this
      ensures user == old(user) && status == Loading
      ensures Valid()
    {
      status := Loading;
    }

    /** The second step of `fetchUser`: `response` is the settled request,
        a `Failure` where `api.get` rejects. */
    method CompleteFetch(response: Result<Option<SessionUser>, string>)
      modifies this
      ensures response.Success? ==> user == response.value && status == StatusFor(response.value)
      ensures response.Failure? ==> user.None? && status == Unauthenticated
      ensures Valid()
    {
      match response {
        case Success(u) =>
          user := u;
          status := if u.Some? then Authenticated else Unauthenticated;
        case Failure(_) =>
          user := None;
          status := Unauthenticated;
      }
    }

    /** `fetchUser`, both steps: it ends authenticated exactly when the
        response carries a user, and unauthenticated with no user on failure. */
    method FetchUser(response: Result<Option<SessionUser>, string>)
      modifies this
      ensures status == Authenticated <==> response.Success? && response.value.Some?
      ensures response.Success? ==> user == response.value
      ensures response.Failure? ==> user.None? && status == Unauthenticated
      ensures Valid()
    {
      BeginFetch();
      CompleteFetch(response);
    }
  }
}
