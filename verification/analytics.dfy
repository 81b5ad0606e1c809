/** `GET /admin/analytics`: user counts and per-course completion figures. */
module Analytics {
  import opened Wrappers
  import opened Lists
  import opened Ordering
  import opened Store
  import opened Docs
  import opened Guards
  import opened Catalog
  import opened ProgressApi

  /** One entry of `course_stats`, without the floating-point `completion_rate`. */
  datatype CourseStat = CourseStat(courseId: Id, title: string, enrolled: nat, completed: nat)

  datatype Report = Report(
    totalUsers: nat,
    approvedUsers: nat,
    pendingUsers: nat,
    activeUsers: nat,
    mentorshipUsers: nat,
    courseStats: seq<CourseStat>)

  function WithStatus(s: Status): User -> bool {
    (u: User) => !u.archived && u.body.status == s
  }

  function WithMentorship(u: User): bool {
    !u.archived && u.body.mentorshipAccess
  }

  /** Logged in at or after `since` (ISO strings compare lexicographically). */
  function ActiveSince(since: Timestamp): User -> bool {
    (u: User) => !u.archived && StrLe(since, u.body.lastLogin)
  }

  /** The user ids `distinct("user_id", {"module_id": {"$in": mids}})` returns. */
  function Enrolled(progress: seq<Progress>, mids: set<Id>): set<Id> {
    set j | 0 <= j < |progress| && progress[j].moduleId in mids :: progress[j].userId
  }

  function CompletedBy(userId: Id, mids: set<Id>): Progress -> bool {
    (p: Progress) => p.userId == userId && p.moduleId in mids && p.completed
  }

  /** The enrolled users whose count of completed records over `mids` is `total`. */
  function Finishers(progress: seq<Progress>, mids: set<Id>, total: nat): set<Id> {
    set u | u in Enrolled(progress, mids) && |Filter(progress, CompletedBy(u, mids))| == total
  }

  /** The live modules of a course as analytics reads them: store order, capped. */
  function LiveModules(modules: seq<Module>, courseId: Id): (r: seq<Module>)
    ensures forall i :: 0 <= i < |r| ==> r[i].body.courseId == courseId && !r[i].archived && r[i] in modules
    ensures |r| == Min(|Filter(modules, InCourse(courseId))|, LIST_LIMIT)
    ensures r == Filter(modules, InCourse(courseId))[..|r|]
    ensures |Filter(modules, InCourse(courseId))| <= LIST_LIMIT ==>
      forall m :: m in modules && m.body.courseId == courseId && !m.archived ==> m in r
  {
    var f := Filter(modules, InCourse(courseId));
    var r := Take(f, LIST_LIMIT);
    TakeFilter(modules, InCourse(courseId), LIST_LIMIT);
    r
  }

  /** With distinct module ids the modules analytics reads for a course have
      distinct ids too, so `len(modules)` is the number of module ids queried. */
  lemma LiveModulesDistinct(modules: seq<Module>, courseId: Id)
    requires DistinctIds(modules)
    ensures DistinctIds(LiveModules(modules, courseId))
  {
    var f := Filter(modules, InCourse(courseId));
    FilterKeepsDistinct(modules, InCourse(courseId));
    var r := LiveModules(modules, courseId);
    assert forall i :: 0 <= i < |r| ==> r[i] == f[i];
  }

  /** The entry for one course, or nothing when the course has no live module. */
  function StatOf(progress: seq<Progress>, modules: seq<Module>, c: Course): (r: Option<CourseStat>)
    ensures r.Some? <==> |LiveModules(modules, c.id)| > 0
    ensures r.Some? ==>
      var mods := LiveModules(modules, c.id);
      && r.value.courseId == c.id && r.value.title == c.body.title
      && r.value.enrolled == |Enrolled(progress, Ids(mods))|
      && r.value.completed == |Finishers(progress, Ids(mods), |mods|)|
      && r.value.completed <= r.value.enrolled
  {
    var mods := LiveModules(modules, c.id);
    if |mods| == 0 then None
    else
      var mids := Ids(mods);
      var done := Finishers(progress, mids, |mods|);
      SubsetCard(done, Enrolled(progress, mids));
      Some(CourseStat(c.id, c.body.title, |Enrolled(progress, mids)|, |done|))
  }

  /** The `for course in courses` loop: one entry per course that has live modules, in course order. */
  function CourseStats(progress: seq<Progress>, modules: seq<Module>, courses: seq<Course>): (r: seq<CourseStat>)
    ensures |r| <= |courses|
    ensures forall i :: 0 <= i < |r| ==> r[i].completed <= r[i].enrolled
  {
    if |courses| == 0 then []
    else
      var rest := CourseStats(progress, modules, courses[1..]);
      match StatOf(progress, modules, courses[0])
      case None => rest
      case Some(s) => [s] + rest
  }

  /** Every entry comes from a course of the list, and every course with live
      modules has its entry. */
  lemma {:induction false} CourseStatsComplete(progress: seq<Progress>, modules: seq<Module>, courses: seq<Course>)
    ensures forall s :: s in CourseStats(progress, modules, courses) <==>
      exists c :: c in courses && StatOf(progress, modules, c) == Some(s)
  {
    if |courses| > 0 {
      CourseStatsComplete(progress, modules, courses[1..]);
      assert courses == [courses[0]] + courses[1..];
      forall c | c in courses ensures c == courses[0] || c in courses[1..] {}
    }
  }

  function GetAnalytics(st: State, token: Token, since: Timestamp): (r: Result<Report, HttpError>)
    ensures AdminGated(st, token, r)
    ensures RequireAdmin(st, token).Success? ==> r.Success?
    ensures r.Success? ==>
      var a := r.value;
      && a.totalUsers == |Filter(st.users, IsLive)|
      && a.approvedUsers == |Filter(st.users, WithStatus(Approved))|
      && a.pendingUsers == |Filter(st.users, WithStatus(Pending))|
      && a.mentorshipUsers == |Filter(st.users, WithMentorship)|
      && a.activeUsers == |Filter(st.users, ActiveSince(since))|
      && a.approvedUsers + a.pendingUsers == a.totalUsers
      && a.mentorshipUsers <= a.totalUsers
      && a.activeUsers <= a.totalUsers
      && |a.courseStats| <= Min(|Filter(st.courses, IsLive)|, LIST_LIMIT)
      && (forall i :: 0 <= i < |a.courseStats| ==> a.courseStats[i].completed <= a.courseStats[i].enrolled)
      && (forall s :: s in a.courseStats <==>
            exists c :: c in Take(Filter(st.courses, IsLive), LIST_LIMIT) && StatOf(st.progress, st.modules, c) == Some(s))
  {
    var _ :- RequireAdmin(st, token);
    var total := |Filter(st.users, IsLive)|;
    var approved := |Filter(st.users, WithStatus(Approved))|;
    var pending := |Filter(st.users, WithStatus(Pending))|;
    CountSplit(st.users, IsLive, WithStatus(Approved), WithStatus(Pending));
    CountMonotone(st.users, IsLive, WithMentorship);
    CountMonotone(st.users, IsLive, ActiveSince(since));
    var courses := Take(Filter(st.courses, IsLive), LIST_LIMIT);
    CourseStatsComplete(st.progress, st.modules, courses);
    Success(Report(total, approved, pending, |Filter(st.users, ActiveSince(since))|,
                   |Filter(st.users, WithMentorship)|, CourseStats(st.progress, st.modules, courses)))
  }

  // ---------- what `completed` counts ----------

  lemma SubsetCard<T>(a: set<T>, b: set<T>)
    requires a <= b
    ensures |a| <= |b|
    ensures |a| == |b| ==> a == b
  {
    assert b == a + (b - a);
  }

  /** The modules among `mids` that `userId` has a completed record for. */
  function DoneModules(progress: seq<Progress>, userId: Id, mids: set<Id>): (r: set<Id>)
    ensures r <= mids
    ensures forall m :: m in r <==>
      exists j :: 0 <= j < |progress| && CompletedBy(userId, mids)(progress[j]) && progress[j].moduleId == m
  {
    if |progress| == 0 then {}
    else
      var rest := DoneModules(progress[1..], userId, mids);
      assert forall j :: 1 <= j < |progress| ==> progress[j] == progress[1..][j - 1];
      (if CompletedBy(userId, mids)(progress[0]) then {progress[0].moduleId} else {}) + rest
  }

  lemma UniquePairsTail(progress: seq<Progress>)
    requires |progress| > 0 && UniquePairs(progress)
    ensures UniquePairs(progress[1..])
    ensures forall j :: 1 <= j < |progress| && progress[j].userId == progress[0].userId ==>
      progress[j].moduleId != progress[0].moduleId
  {
    var tail := progress[1..];
    forall i, j | 0 <= i < j < |tail|
      ensures tail[i].userId != tail[j].userId || tail[i].moduleId != tail[j].moduleId
    {
      assert tail[i] == progress[i + 1] && tail[j] == progress[j + 1];
    }
  }

  /** With one record per (user, module) pair, the completed-record count is
      the number of distinct completed modules. */
  lemma {:induction false} CountIsDoneModules(progress: seq<Progress>, userId: Id, mids: set<Id>)
    requires UniquePairs(progress)
    ensures |Filter(progress, CompletedBy(userId, mids))| == |DoneModules(progress, userId, mids)|
  {
    if |progress| > 0 {
      UniquePairsTail(progress);
      CountIsDoneModules(progress[1..], userId, mids);
      if CompletedBy(userId, mids)(progress[0]) {
        HeadIsNew(progress, userId, mids);
      }
      DoneModulesStep(progress, userId, mids);
    }
  }

  /** One step of the induction: the head adds one to the count exactly when it adds a new module. */
  lemma DoneModulesStep(progress: seq<Progress>, userId: Id, mids: set<Id>)
    requires |progress| > 0
    requires CompletedBy(userId, mids)(progress[0]) ==>
      progress[0].moduleId !in DoneModules(progress[1..], userId, mids)
    ensures |Filter(progress, CompletedBy(userId, mids))| - |Filter(progress[1..], CompletedBy(userId, mids))|
         == |DoneModules(progress, userId, mids)| - |DoneModules(progress[1..], userId, mids)|
  {
    CountStep(progress, CompletedBy(userId, mids));
    DoneModulesHead(progress, userId, mids);
  }

  lemma DoneModulesHead(progress: seq<Progress>, userId: Id, mids: set<Id>)
    requires |progress| > 0
    ensures DoneModules(progress, userId, mids) ==
      (if CompletedBy(userId, mids)(progress[0]) then {progress[0].moduleId} else {})
      + DoneModules(progress[1..], userId, mids)
  {
  }

  lemma HeadIsNew(progress: seq<Progress>, userId: Id, mids: set<Id>)
    requires |progress| > 0 && UniquePairs(progress)
    requires CompletedBy(userId, mids)(progress[0])
    ensures progress[0].moduleId !in DoneModules(progress[1..], userId, mids)
  {
    var tail := progress[1..];
    forall j | 0 <= j < |tail| && CompletedBy(userId, mids)(tail[j])
      ensures tail[j].moduleId != progress[0].moduleId
    {
      assert tail[j] == progress[j + 1];
    }
  }

  lemma {:induction false} IdsCard<B>(s: seq<Doc<B>>)
    requires DistinctIds(s)
    ensures |Ids(s)| == |s|
  {
    if |s| > 0 {
      var tail := s[1..];
      assert DistinctIds(tail) by {
        forall i, j | 0 <= i < j < |tail| ensures tail[i].id != tail[j].id {
          assert tail[i] == s[i + 1] && tail[j] == s[j + 1];
        }
      }
      IdsCard(tail);
      assert Ids(s) == {s[0].id} + Ids(tail) by {
        forall x | x in Ids(s) ensures x in {s[0].id} + Ids(tail) {
          var i :| 0 <= i < |s| && s[i].id == x;
          if i > 0 { assert tail[i - 1] == s[i]; }
        }
        forall x | x in Ids(tail) ensures x in Ids(s) {
          var i :| 0 <= i < |tail| && tail[i].id == x;
          assert s[i + 1] == tail[i];
        }
      }
      assert s[0].id !in Ids(tail) by {
        forall i | 0 <= i < |tail| ensures tail[i].id != s[0].id {
          assert s[i + 1] == tail[i];
        }
      }
    }
  }

  /** With one record per (user, module) pair and distinct module ids, a user
      counts as having completed a course exactly when they hold a completed
      record for every one of its modules. */
  lemma FinisherMeansAllDone(progress: seq<Progress>, mods: seq<Module>, userId: Id)
    requires UniquePairs(progress)
    requires DistinctIds(mods)
    requires |mods| > 0
    ensures userId in Finishers(progress, Ids(mods), |mods|) <==>
      forall i :: 0 <= i < |mods| ==> HasCompleted(progress, userId, mods[i].id)
  {
    var mids := Ids(mods);
    var done := DoneModules(progress, userId, mids);
    CountIsDoneModules(progress, userId, mids);
    IdsCard(mods);
    SubsetCard(done, mids);
    AllDoneIff(progress, mods, userId);
    if done == mids {
      assert mods[0].id in mids;
      EnrolledIfDone(progress, mids, userId, mods[0].id);
    }
  }

  /** The done set covers the course exactly when every module has a completed record. */
  lemma AllDoneIff(progress: seq<Progress>, mods: seq<Module>, userId: Id)
    ensures DoneModules(progress, userId, Ids(mods)) == Ids(mods) <==>
      forall i :: 0 <= i < |mods| ==> HasCompleted(progress, userId, mods[i].id)
  {
    var mids := Ids(mods);
    var done := DoneModules(progress, userId, mids);
    if forall i :: 0 <= i < |mods| ==> HasCompleted(progress, userId, mods[i].id) {
      forall m | m in mids ensures m in done {
        var i :| 0 <= i < |mods| && mods[i].id == m;
        assert HasCompleted(progress, userId, mods[i].id);
      }
    }
    if done == mids {
      forall i | 0 <= i < |mods| ensures HasCompleted(progress, userId, mods[i].id) {
        assert mods[i].id in done;
      }
    }
  }

  lemma EnrolledIfDone(progress: seq<Progress>, mids: set<Id>, userId: Id, m: Id)
    requires m in DoneModules(progress, userId, mids)
    ensures userId in Enrolled(progress, mids)
  {
    var j :| 0 <= j < |progress| && CompletedBy(userId, mids)(progress[j]) && progress[j].moduleId == m;
    assert progress[j].userId == userId;
  }

  /** The enrolled users holding a completed record for every module of `mods`. */
  ghost function FullCompleters(progress: seq<Progress>, mods: seq<Module>): set<Id> {
    set u | u in Enrolled(progress, Ids(mods)) && AllCompleted(progress, u, mods)
  }

  ghost predicate AllCompleted(progress: seq<Progress>, userId: Id, mods: seq<Module>) {
    forall i :: 0 <= i < |mods| ==> HasCompleted(progress, userId, mods[i].id)
  }

  /** What a course's `completed` figure counts, under the store invariants:
      the enrolled users holding a completed record for every module the
      course's query returned. */
  lemma StatCountsFullCompletions(progress: seq<Progress>, modules: seq<Module>, c: Course)
    requires UniquePairs(progress)
    requires DistinctIds(modules)
    requires StatOf(progress, modules, c).Some?
    ensures var mods := LiveModules(modules, c.id);
      StatOf(progress, modules, c).value.completed == |FullCompleters(progress, mods)|
  {
    var mods := LiveModules(modules, c.id);
    var mids := Ids(mods);
    LiveModulesDistinct(modules, c.id);
    var full := FullCompleters(progress, mods);
    forall u | u in Enrolled(progress, mids)
      ensures u in Finishers(progress, mids, |mods|) <==> u in full
    {
      FinisherMeansAllDone(progress, mods, u);
    }
    assert Finishers(progress, mids, |mods|) == full;
  }
}
