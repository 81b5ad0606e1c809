/** The FastAPI dependencies that resolve and check the caller. */
module Guards {
  import opened Wrappers
  import opened Store
  import opened Docs

  const INVALID_TOKEN := HttpError(401, "Invalid token")
  const USER_NOT_FOUND := HttpError(401, "User not found")
  const ADMIN_REQUIRED := HttpError(403, "Admin access required")
  const APPROVAL_REQUIRED := HttpError(403, "Account approval required")

  /** `get_current_user`: the token names a user id, and the first stored
      user with that id is the caller. The `archived` flag is not looked at. */
  function CurrentUser(st: State, token: Token): (r: Result<User, HttpError>)
    ensures token !in st.tokens ==> r == Failure(INVALID_TOKEN)
    ensures token in st.tokens ==> (r.Success? <==> st.tokens[token] in Ids(st.users))
    ensures token in st.tokens && r.Failure? ==> r.error == USER_NOT_FOUND
    ensures r.Success? ==> r.value.id == st.tokens[token] && r.value in st.users
  {
    if token !in st.tokens then Failure(INVALID_TOKEN)
    else
      match IndexOfId(st.users, st.tokens[token])
      case None => Failure(USER_NOT_FOUND)
      case Some(k) => Success(st.users[k])
  }

  /** `require_admin`: the caller, if their role is admin; 403 otherwise. */
  function RequireAdmin(st: State, token: Token): (r: Result<User, HttpError>)
    ensures r.Success? <==> CurrentUser(st, token).Success? && CurrentUser(st, token).value.body.role == Admin
    ensures r.Success? ==> r.value == CurrentUser(st, token).value
    ensures CurrentUser(st, token).Failure? ==> r == CurrentUser(st, token)
    ensures CurrentUser(st, token).Success? && r.Failure? ==> r.error == ADMIN_REQUIRED
  {
    var caller :- CurrentUser(st, token);
    if caller.body.role != Admin then Failure(ADMIN_REQUIRED) else Success(caller)
  }

  /** `require_approved`: the caller, if their status is approved; 403 for
      any other status. Archived callers pass when their status is approved. */
  function RequireApproved(st: State, token: Token): (r: Result<User, HttpError>)
    ensures r.Success? <==> CurrentUser(st, token).Success? && CurrentUser(st, token).value.body.status == Approved
    ensures r.Success? ==> r.value == CurrentUser(st, token).value
    ensures CurrentUser(st, token).Failure? ==> r == CurrentUser(st, token)
    ensures CurrentUser(st, token).Success? && r.Failure? ==> r.error == APPROVAL_REQUIRED
  {
    var caller :- CurrentUser(st, token);
    if caller.body.status != Approved then Failure(APPROVAL_REQUIRED) else Success(caller)
  }

  /** `r` is what a handler behind `require_admin` returns when the guard fails. */
  ghost predicate AdminGated<T>(st: State, token: Token, r: Result<T, HttpError>) {
    RequireAdmin(st, token).Failure? ==> r.Failure? && r.error == RequireAdmin(st, token).error
  }

  ghost predicate ApprovalGated<T>(st: State, token: Token, r: Result<T, HttpError>) {
    RequireApproved(st, token).Failure? ==> r.Failure? && r.error == RequireApproved(st, token).error
  }

  /** A change that keeps every user's id and role at its position and keeps
      the issued tokens does not change who passes `require_admin`. */
  lemma AdminStable(st: State, st': State, token: Token)
    requires st'.tokens == st.tokens
    requires |st'.users| == |st.users|
    requires forall i :: 0 <= i < |st.users| ==>
      st'.users[i].id == st.users[i].id && st'.users[i].body.role == st.users[i].body.role
    ensures RequireAdmin(st', token).Success? == RequireAdmin(st, token).Success?
  {
    if token in st.tokens {
      IndexOfSameIds(st.users, st'.users, st.tokens[token]);
    }
  }
}
