/** The client's session state: the token kept in `localStorage`, the user
    fetched from `/auth/me`, and the flags every page gates on. */
module AuthContext {
  import opened Wrappers
  import opened Store
  import opened Guards
  import opened Auth

  /** `localStorage.token`, the `user` state and the `loading` state. */
  datatype AuthState = AuthState(storedToken: Option<Token>, user: Option<UserView>, loading: bool)

  /** The provider's first render: no user yet, still loading. */
  function Initial(stored: Option<Token>): AuthState {
    AuthState(stored, None, true)
  }

  /** `if (token)`: a stored token is used only when it is a non-empty string. */
  predicate HasToken(s: AuthState) {
    s.storedToken.Some? && s.storedToken.value != ""
  }

  /** The mount effect. With a usable token the state waits for `fetchUser`;
      without one loading ends at once and no request is made. */
  function Mount(s: AuthState): (r: AuthState)
    ensures HasToken(s) ==> r == s
    ensures !HasToken(s) ==> r == s.(loading := false)
  {
    if HasToken(s) then s else s.(loading := false)
  }

  /** `fetchUser` settling: the user on success; on failure the token is
      removed and the user left as it was. Loading ends either way. */
  function FetchDone(s: AuthState, response: Result<UserView, HttpError>): (r: AuthState)
    ensures !r.loading
    ensures response.Success? ==> r.user == Some(response.value) && r.storedToken == s.storedToken
    ensures response.Failure? ==> r.storedToken.None? && r.user == s.user
  {
    match response
    case Success(u) => s.(user := Some(u), loading := false)
    case Failure(_) => s.(storedToken := None, loading := false)
  }

  function LoginUser(s: AuthState, token: Token, userData: UserView): (r: AuthState)
    ensures r.storedToken == Some(token) && r.user == Some(userData) && r.loading == s.loading
  {
    s.(storedToken := Some(token), user := Some(userData))
  }

  function LogoutUser(s: AuthState): (r: AuthState)
    ensures r.storedToken.None? && r.user.None? && r.loading == s.loading
  {
    s.(storedToken := None, user := None)
  }

  /** `user?.role === 'admin'`: false while signed out, and on a user the
      server sent, exactly when the stored role is admin. */
  function IsAdmin(s: AuthState): (r: bool)
    ensures s.user.None? ==> !r
    ensures forall u: User :: s.user == Some(View(u)) ==> (r <==> u.body.role == Admin)
  {
    s.user.Some? && s.user.value.role == "admin"
  }

  /** `user?.status === 'approved'`: false while signed out, and on a user the
      server sent, exactly when the stored status is approved. */
  function IsApproved(s: AuthState): (r: bool)
    ensures s.user.None? ==> !r
    ensures forall u: User :: s.user == Some(View(u)) ==> (r <==> u.body.status == Approved)
  {
    s.user.Some? && s.user.value.status == "approved"
  }

  /** `user?.mentorship_access || false`: false while signed out, and on a user
      the server sent, exactly the stored flag. */
  function HasMentorship(s: AuthState): (r: bool)
    ensures s.user.None? ==> !r
    ensures forall u: User :: s.user == Some(View(u)) ==> (r <==> u.body.mentorshipAccess)
  {
    s.user.Some? && s.user.value.mentorshipAccess
  }

  /** Starting from a stored token, the state once the mount fetch settles.
      Each client flag then agrees with the server guard it stands for: a
      user is present, and the token kept, exactly when the token resolves;
      the admin flag holds exactly when `require_admin` passes and the
      approval flag exactly when `require_approved` passes. Without a usable
      token nothing is fetched and the user stays null. */
  function SessionFor(st: State, token: Token): (s: AuthState)
    ensures !s.loading
    ensures token == "" ==> s == AuthState(Some(token), None, false)
    ensures token != "" ==>
      && (s.user.Some? <==> CurrentUser(st, token).Success?)
      && (s.storedToken.Some? <==> CurrentUser(st, token).Success?)
      && (IsAdmin(s) <==> RequireAdmin(st, token).Success?)
      && (IsApproved(s) <==> RequireApproved(st, token).Success?)
      && (HasMentorship(s) <==>
            CurrentUser(st, token).Success? && CurrentUser(st, token).value.body.mentorshipAccess)
  {
    var s := Mount(Initial(Some(token)));
    if HasToken(s) then FetchDone(s, GetMe(st, token)) else s
  }
}
