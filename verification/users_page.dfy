/** The admin users page: the status filter and the per-user actions. */
module UsersManagement {
  import opened Wrappers
  import opened Lists
  import opened Store
  import opened Docs
  import opened Guards
  import opened Auth
  import opened UserAdmin

  /** The `filteredUsers` predicate for one filter value: on a user as the
      server sends it, the "pending" and "approved" filters keep exactly the
      users the server's status query selects; any other value keeps all. */
  function Keeps(filter: string): (keep: UserView -> bool)
    ensures filter == "pending" || filter == "approved" ==>
      forall u: User :: !u.archived ==> (keep(View(u)) <==> UserQuery(Some(filter), None)(u))
    ensures filter != "pending" && filter != "approved" ==> forall v :: keep(v)
  {
    (u: UserView) =>
      if filter == "pending" then u.status == "pending"
      else if filter == "approved" then u.status == "approved"
      else true
  }

  function FilterUsers(users: seq<UserView>, filter: string): (r: seq<UserView>)
    ensures filter == "pending" ==>
      forall u :: multiset(r)[u] == if u.status == "pending" then multiset(users)[u] else 0
    ensures filter == "approved" ==>
      forall u :: multiset(r)[u] == if u.status == "approved" then multiset(users)[u] else 0
    ensures filter != "pending" && filter != "approved" ==> r == users
    ensures Subsequence(r, users)
  {
    var r := Filter(users, Keeps(filter));
    FilterIsSubsequence(users, Keeps(filter));
    assert filter != "pending" && filter != "approved" ==> r == users by {
      if filter != "pending" && filter != "approved" {
        FilterAll(users, Keeps(filter));
      }
    }
    r
  }

  /** The Approve button is rendered for pending users only: on a user as the
      server sends it, exactly when the stored status is pending. */
  function ShowsApprove(u: UserView): (shown: bool)
    ensures forall x: User :: u == View(x) ==> (shown <==> x.body.status == Pending)
  {
    u.status == "pending"
  }

  /** The `grant` value the mentorship button sends. */
  function ToggleGrant(u: UserView): (grant: bool)
    ensures grant != u.mentorshipAccess
  {
    !u.mentorshipAccess
  }

  /** `u` is what the server currently holds for its user. */
  ghost predicate Current(st: State, u: UserView) {
    u.id in Ids(st.users) && u == View(st.users[IndexOfId(st.users, u.id).value])
  }

  /** On an up-to-date row the Approve button is shown exactly when the
      server would accept the approval. */
  lemma ApproveShownIffAccepted(st: State, adminToken: Token, u: UserView)
    requires RequireAdmin(st, adminToken).Success?
    requires Current(st, u)
    ensures ShowsApprove(u) <==> ApproveUser(st, adminToken, u.id).Success?
  {
  }

  /** On an up-to-date row the mentorship button's request always succeeds
      and flips the stored flag. */
  lemma ToggleAlwaysFlips(st: State, adminToken: Token, u: UserView)
    requires RequireAdmin(st, adminToken).Success?
    requires Current(st, u)
    ensures SetMentorship(st, adminToken, u.id, ToggleGrant(u)).Success?
    ensures var st' := SetMentorship(st, adminToken, u.id, ToggleGrant(u)).value;
      st'.users[IndexOfId(st.users, u.id).value].body.mentorshipAccess == !u.mentorshipAccess
  {
  }

  /** The page's status filter over the unfiltered list agrees with the
      server's own status filter: when every live user fits in one response,
      filtering `GET /admin/users` on the client for "pending" or "approved"
      gives the very list the server returns for that `filter_status`. */
  lemma StatusFilterMatchesServer(st: State, token: Token, filter: string)
    requires RequireAdmin(st, token).Success?
    requires filter == "pending" || filter == "approved"
    requires |Filter(st.users, UserQuery(None, None))| <= LIST_LIMIT
    ensures FilterUsers(ListUsers(st, token, None, None).value, filter) == ListUsers(st, token, Some(filter), None).value
  {
    var all := Filter(st.users, UserQuery(None, None));
    var picked := Filter(st.users, UserQuery(Some(filter), None));
    CountMonotone(st.users, UserQuery(None, None), UserQuery(Some(filter), None));
    assert ListUsers(st, token, None, None).value == ViewsOf(all);
    assert ListUsers(st, token, Some(filter), None).value == ViewsOf(picked);
    FilterOfViews(st.users, filter);
  }

  lemma {:induction false} FilterOfViews(users: seq<User>, filter: string)
    requires filter == "pending" || filter == "approved"
    ensures Filter(ViewsOf(Filter(users, UserQuery(None, None))), Keeps(filter))
         == ViewsOf(Filter(users, UserQuery(Some(filter), None)))
  {
    if |users| > 0 {
      var live := UserQuery(None, None);
      var q := UserQuery(Some(filter), None);
      var h := users[0];
      var hl := if live(h) then [h] else [];
      var hq := if q(h) then [h] else [];
      var restL := Filter(users[1..], live);
      var restQ := Filter(users[1..], q);
      FilterOfViews(users[1..], filter);
      assert Filter(users, live) == hl + restL;
      assert Filter(users, q) == hq + restQ;
      ViewsAppend(hl, restL);
      ViewsAppend(hq, restQ);
      FilterAppend(ViewsOf(hl), ViewsOf(restL), Keeps(filter));
      HeadView(h, filter);
    }
  }

  /** One user: the client filter over its view is the server filter. */
  lemma HeadView(h: User, filter: string)
    requires filter == "pending" || filter == "approved"
    ensures Filter(ViewsOf(if UserQuery(None, None)(h) then [h] else []), Keeps(filter))
         == ViewsOf(if UserQuery(Some(filter), None)(h) then [h] else [])
  {
    if !h.archived {
      var v := ViewsOf([h]);
      assert v == [View(h)];
      assert Filter(v, Keeps(filter)) == (if Keeps(filter)(View(h)) then [View(h)] else []) + Filter(v[1..], Keeps(filter));
      assert v[1..] == [];
    }
  }
}
