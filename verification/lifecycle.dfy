/** How the record lifecycle shows through the read routes: what a write
    makes visible or hides, and the member approval path end to end. */
module Lifecycle {
  import opened Wrappers
  import opened Lists
  import opened Store
  import opened Docs
  import opened Guards
  import opened Auth
  import opened UserAdmin
  import opened Catalog
  import opened Invariants

  /** An admin's new course is listed, as long as the live courses still fit in the cap. */
  lemma CreatedCourseIsListed(st: State, token: Token, info: CourseInfo, newId: Id, now: Timestamp)
    requires newId !in Ids(st.courses)
    requires RequireAdmin(st, token).Success?
    requires |Filter(st.courses, IsLive)| < LIST_LIMIT
    ensures CreateCourse(st, token, info, newId, now).Success?
    ensures Doc(newId, false, now, info) in ListCourses(CreateCourse(st, token, info, newId, now).value)
    ensures GetCourse(CreateCourse(st, token, info, newId, now).value, newId).Success?
  {
    var st' := CreateCourse(st, token, info, newId, now).value;
    var d := Doc(newId, false, now, info);
    assert st'.courses == st.courses + [d];
    FilterAppend(st.courses, [d], IsLive);
    assert |Filter([d], IsLive)| == 1;
    assert st'.courses[|st.courses|] == d;
    assert multiset(st'.courses)[d] > 0;
    assert multiset(ListCourses(st'))[d] > 0;
  }

  /** Once archived, a course is neither listed nor found by id, though the
      module route still finds it. */
  lemma ArchivedCourseIsHidden(st: State, token: Token, courseId: Id)
    requires DistinctIds(st.courses)
    requires ArchiveCourse(st, token, courseId).Success?
    ensures var st' := ArchiveCourse(st, token, courseId).value;
      && (forall c :: c in ListCourses(st') ==> c.id != courseId)
      && GetCourse(st', courseId) == Failure(COURSE_404)
      && courseId in Ids(st'.courses)
  {
    var st' := ArchiveCourse(st, token, courseId).value;
    var k := IndexOfId(st.courses, courseId).value;
    forall i | 0 <= i < |st'.courses| && st'.courses[i].id == courseId ensures st'.courses[i].archived {
      assert st'.courses[i].id == st.courses[i].id;
      assert i == k;
    }
    assert st'.courses[k].id == courseId;
    NoLiveWithId(st'.courses, ListCourses(st'), courseId);
  }

  lemma NoLiveWithId<B>(s: seq<Doc<B>>, r: seq<Doc<B>>, id: Id)
    requires forall i :: 0 <= i < |s| && s[i].id == id ==> s[i].archived
    requires forall i :: 0 <= i < |r| ==> !r[i].archived && r[i] in s
    ensures forall d :: d in r ==> d.id != id
  {
    forall d | d in r ensures d.id != id {
      var i :| 0 <= i < |r| && r[i] == d;
      var j :| 0 <= j < |s| && s[j] == d;
    }
  }

  /** Archiving a user changes nobody's token resolution: the archived user
      keeps passing `get_current_user` and the role and approval guards. */
  lemma ArchivedUserKeepsAccess(st: State, token: Token, userId: Id, t: Token)
    requires ArchiveUser(st, token, userId).Success?
    ensures var st' := ArchiveUser(st, token, userId).value;
      && CurrentUser(st', t).Success? == CurrentUser(st, t).Success?
      && RequireAdmin(st', t).Success? == RequireAdmin(st, t).Success?
      && RequireApproved(st', t).Success? == RequireApproved(st, t).Success?
  {
    var st' := ArchiveUser(st, token, userId).value;
    if t in st.tokens {
      IndexOfSameIds(st.users, st'.users, st.tokens[t]);
    }
  }

  /** A sign-up leaves every earlier user at its position, so an admin
      token keeps passing `require_admin`. */
  lemma SignupKeepsAdmins(st: State, form: SignupForm, newId: Id, hash: string, now: Timestamp, later: Timestamp, token: Token,
                          adminToken: Token)
    requires newId !in Ids(st.users) && token !in st.tokens
    requires Signup(st, form, newId, hash, now, later, token).Success?
    requires RequireAdmin(st, adminToken).Success?
    ensures RequireAdmin(Signup(st, form, newId, hash, now, later, token).value.state, adminToken).Success?
  {
    var st1 := Signup(st, form, newId, hash, now, later, token).value.state;
    var id := st.tokens[adminToken];
    assert st1.tokens[adminToken] == id;
    assert st1.users == st.users + [st1.users[|st.users|]];
    IndexOfIdExtend(st.users, [st1.users[|st.users|]], id);
  }

  /** After approval the signed-up user's token passes `require_approved`. */
  lemma ApproveMakesApproved(st1: State, adminToken: Token, token: Token, newId: Id, k: nat)
    requires k < |st1.users| && st1.users[k].id == newId
    requires forall j :: 0 <= j < k ==> st1.users[j].id != newId
    requires token in st1.tokens && st1.tokens[token] == newId
    requires ApproveUser(st1, adminToken, newId).Success?
    ensures RequireApproved(ApproveUser(st1, adminToken, newId).value, token).Success?
  {
    var st2 := ApproveUser(st1, adminToken, newId).value;
    assert IndexOfId(st1.users, newId) == Some(k);
    assert st2.users[k].body.status == Approved;
    assert forall j :: 0 <= j < |st1.users| ==> st2.users[j].id == st1.users[j].id;
    assert IndexOfId(st2.users, newId) == Some(k);
  }

  /** The approval path: a fresh sign-up is refused the module route with 403,
      and once an admin approves the account the same token reaches the
      modules of every course that is not a mentorship course. */
  lemma ApprovalOpensModules(st: State, form: SignupForm, newId: Id, hash: string, now: Timestamp, later: Timestamp, token: Token,
                             adminToken: Token, courseId: Id)
    requires newId !in Ids(st.users) && token !in st.tokens
    requires Signup(st, form, newId, hash, now, later, token).Success?
    requires RequireAdmin(st, adminToken).Success?
    requires courseId in Ids(st.courses)
    requires st.courses[IndexOfId(st.courses, courseId).value].body.courseType != MENTORSHIP
    ensures var st1 := Signup(st, form, newId, hash, now, later, token).value.state;
      && ListModules(st1, token, courseId) == Failure(APPROVAL_REQUIRED)
      && ApproveUser(st1, adminToken, newId).Success?
      && ListModules(ApproveUser(st1, adminToken, newId).value, token, courseId).Success?
  {
    var st1 := Signup(st, form, newId, hash, now, later, token).value.state;
    var k := |st.users|;
    SignedUpIsPending(st, form, newId, hash, now, later, token);
    SignupKeepsAdmins(st, form, newId, hash, now, later, token, adminToken);
    assert ApproveUser(st1, adminToken, newId).Success?;
    ApproveMakesApproved(st1, adminToken, token, newId, k);
    var st2 := ApproveUser(st1, adminToken, newId).value;
    assert st2.courses == st.courses;
    ApprovedReadsOpenCourse(st2, token, courseId);
  }

  /** A fresh sign-up is stored last, pending, and its token resolves to it. */
  lemma SignedUpIsPending(st: State, form: SignupForm, newId: Id, hash: string, now: Timestamp, later: Timestamp, token: Token)
    requires newId !in Ids(st.users) && token !in st.tokens
    requires Signup(st, form, newId, hash, now, later, token).Success?
    ensures var st1 := Signup(st, form, newId, hash, now, later, token).value.state;
      && st1.courses == st.courses
      && |st.users| < |st1.users| && st1.users[|st.users|].id == newId
      && (forall j :: 0 <= j < |st.users| ==> st1.users[j].id != newId)
      && st1.users[|st.users|].body.status == Pending
      && token in st1.tokens && st1.tokens[token] == newId
      && IndexOfId(st1.users, newId) == Some(|st.users|)
      && RequireApproved(st1, token) == Failure(APPROVAL_REQUIRED)
  {
    var st1 := Signup(st, form, newId, hash, now, later, token).value.state;
    var k := |st.users|;
    assert forall j :: 0 <= j < k ==> st1.users[j] == st.users[j] && st.users[j].id in Ids(st.users);
    assert CurrentUser(st1, token) == Success(st1.users[k]);
  }

  /** An approved caller reads the modules of any stored course that is not a
      mentorship course. */
  lemma ApprovedReadsOpenCourse(st: State, token: Token, courseId: Id)
    requires RequireApproved(st, token).Success?
    requires courseId in Ids(st.courses)
    requires st.courses[IndexOfId(st.courses, courseId).value].body.courseType != MENTORSHIP
    ensures ListModules(st, token, courseId).Success?
  {
  }
}
