/** The admin user-management routes: list, approve, grant or revoke
    mentorship, archive. */
module UserAdmin {
  import opened Wrappers
  import opened Lists
  import opened Store
  import opened Docs
  import opened Guards
  import opened Auth

  const USER_404 := HttpError(404, "User not found")

  /** The query of `GET /admin/users`: never archived users; a status filter
      only when one is given and non-empty (Python's `if filter_status:`); a
      mentorship filter whenever one is given. */
  function UserQuery(status: Option<string>, mentorship: Option<bool>): (q: User -> bool)
    ensures forall u :: q(u) ==> !u.archived
    ensures forall u :: q(u) && mentorship.Some? ==> u.body.mentorshipAccess == mentorship.value
    ensures status.Some? && status.value != "" && status.value != "pending" && status.value != "approved" ==>
      forall u :: !q(u)
    ensures (status.None? || status == Some("")) && mentorship.None? ==> forall u :: q(u) <==> !u.archived
    ensures status == Some("pending") && mentorship.None? ==> forall u :: q(u) <==> !u.archived && u.body.status == Pending
    ensures status == Some("approved") && mentorship.None? ==> forall u :: q(u) <==> !u.archived && u.body.status == Approved
  {
    (u: User) =>
      && !u.archived
      && (status.None? || status.value == "" || StatusName(u.body.status) == status.value)
      && (mentorship.None? || u.body.mentorshipAccess == mentorship.value)
  }

  /** `GET /admin/users`: the matching users in store order, at most `LIST_LIMIT`. */
  function ListUsers(st: State, token: Token, status: Option<string>, mentorship: Option<bool>)
    : (r: Result<seq<UserView>, HttpError>)
    ensures AdminGated(st, token, r)
    ensures RequireAdmin(st, token).Success? ==> r.Success?
    ensures r.Success? ==>
      var matching := Filter(st.users, UserQuery(status, mentorship));
      && |r.value| == Min(|matching|, LIST_LIMIT)
      && forall i :: 0 <= i < |r.value| ==> r.value[i] == View(matching[i])
  {
    var _ :- RequireAdmin(st, token);
    Success(ViewsOf(Take(Filter(st.users, UserQuery(status, mentorship)), LIST_LIMIT)))
  }

  /** The `UserResponse` of each user, in order. */
  function ViewsOf(users: seq<User>): (r: seq<UserView>)
    ensures |r| == |users|
    ensures forall i :: 0 <= i < |users| ==> r[i] == View(users[i])
  {
    seq(|users|, i requires 0 <= i < |users| => View(users[i]))
  }

  lemma ViewsAppend(a: seq<User>, b: seq<User>)
    ensures ViewsOf(a + b) == ViewsOf(a) + ViewsOf(b)
  {
  }

  /** `PATCH /admin/users/{id}/approve`. */
  function ApproveUser(st: State, token: Token, userId: Id): (r: Result<State, HttpError>)
    ensures AdminGated(st, token, r)
    ensures RequireAdmin(st, token).Success? ==>
      (r.Success? <==> userId in Ids(st.users) && st.users[IndexOfId(st.users, userId).value].body.status != Approved)
    ensures RequireAdmin(st, token).Success? && r.Failure? ==> r.error == USER_404
    ensures r.Success? ==>
      var k := IndexOfId(st.users, userId).value;
      && r.value.(users := st.users) == st
      && |r.value.users| == |st.users|
      && r.value.users[k] == st.users[k].(body := st.users[k].body.(status := Approved))
      && (forall j :: 0 <= j < |st.users| && j != k ==> r.value.users[j] == st.users[j])
  {
    var _ :- RequireAdmin(st, token);
    match UpdateOne(st.users, userId, (u: User) => u.(body := u.body.(status := Approved)))
    case None => Failure(USER_404)
    case Some(users) => Success(st.(users := users))
  }

  /** `PATCH /admin/users/{id}/mentorship?grant=...`. */
  function SetMentorship(st: State, token: Token, userId: Id, grant: bool): (r: Result<State, HttpError>)
    ensures AdminGated(st, token, r)
    ensures RequireAdmin(st, token).Success? ==>
      (r.Success? <==> userId in Ids(st.users) && st.users[IndexOfId(st.users, userId).value].body.mentorshipAccess != grant)
    ensures RequireAdmin(st, token).Success? && r.Failure? ==> r.error == USER_404
    ensures r.Success? ==>
      var k := IndexOfId(st.users, userId).value;
      && r.value.(users := st.users) == st
      && |r.value.users| == |st.users|
      && r.value.users[k] == st.users[k].(body := st.users[k].body.(mentorshipAccess := grant))
      && (forall j :: 0 <= j < |st.users| && j != k ==> r.value.users[j] == st.users[j])
  {
    var _ :- RequireAdmin(st, token);
    match UpdateOne(st.users, userId, (u: User) => u.(body := u.body.(mentorshipAccess := grant)))
    case None => Failure(USER_404)
    case Some(users) => Success(st.(users := users))
  }

  /** `PATCH /admin/users/{id}/archive`: sets only the `archived` flag. */
  function ArchiveUser(st: State, token: Token, userId: Id): (r: Result<State, HttpError>)
    ensures AdminGated(st, token, r)
    ensures RequireAdmin(st, token).Success? ==>
      (r.Success? <==> userId in Ids(st.users) && !st.users[IndexOfId(st.users, userId).value].archived)
    ensures RequireAdmin(st, token).Success? && r.Failure? ==> r.error == USER_404
    ensures r.Success? ==>
      var k := IndexOfId(st.users, userId).value;
      && r.value.(users := st.users) == st
      && |r.value.users| == |st.users|
      && r.value.users[k] == st.users[k].(archived := true)
      && (forall j :: 0 <= j < |st.users| && j != k ==> r.value.users[j] == st.users[j])
  {
    var _ :- RequireAdmin(st, token);
    match UpdateOne(st.users, userId, MarkArchived)
    case None => Failure(USER_404)
    case Some(users) => Success(st.(users := users))
  }

  /** Approving an already approved user is "not found": the `$set` modifies
      nothing, so `modified_count` is 0. */
  lemma ApproveTwiceFails(st: State, token: Token, userId: Id)
    requires ApproveUser(st, token, userId).Success?
    ensures ApproveUser(ApproveUser(st, token, userId).value, token, userId) == Failure(USER_404)
  {
    var st' := ApproveUser(st, token, userId).value;
    AdminStable(st, st', token);
    IndexOfSameIds(st.users, st'.users, userId);
  }

  /** Archiving twice is likewise "not found", and archiving leaves the
      user's status and mentorship flag as they were. */
  lemma ArchiveTwiceFails(st: State, token: Token, userId: Id)
    requires ArchiveUser(st, token, userId).Success?
    ensures ArchiveUser(ArchiveUser(st, token, userId).value, token, userId) == Failure(USER_404)
    ensures var st' := ArchiveUser(st, token, userId).value;
      forall i :: 0 <= i < |st.users| ==> st'.users[i].body == st.users[i].body
  {
    var st' := ArchiveUser(st, token, userId).value;
    AdminStable(st, st', token);
    IndexOfSameIds(st.users, st'.users, userId);
  }
}
