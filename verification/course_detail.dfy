/** The course detail page: per-module completion marks, the reaction to a
    failed load, and the coach link. */
module CourseDetail {
  import opened Wrappers
  import opened Lists
  import opened Store
  import opened Docs
  import opened Guards
  import opened Catalog
  import opened ProgressApi
  import ModulePlayer

  /** `progress.some(p => p.module_id === moduleId && p.completed)`. */
  function IsModuleCompleted(progress: seq<Progress>, moduleId: Id): (r: bool)
    ensures r <==> exists i :: 0 <= i < |progress| && progress[i].moduleId == moduleId && progress[i].completed
    ensures |progress| == 0 ==> !r
  {
    FirstIndex(progress, (p: Progress) => p.moduleId == moduleId && p.completed).Some?
  }

  /** When a user holds at most one record per module, as the server's upsert
      keeps it, the course page's "some record is completed" and the module
      player's "the first record is completed" agree. */
  lemma CompletionLookupsAgree(progress: seq<Progress>, moduleId: Id)
    requires forall i, j :: 0 <= i < j < |progress| ==> progress[i].moduleId != progress[j].moduleId
    ensures IsModuleCompleted(progress, moduleId) == ModulePlayer.IsCompleted(progress, moduleId)
  {
    if IsModuleCompleted(progress, moduleId) {
      var i :| 0 <= i < |progress| && progress[i].moduleId == moduleId && progress[i].completed;
      assert forall j :: 0 <= j < i ==> progress[j].moduleId != moduleId;
    }
  }

  /** With two records for one module the lookups can disagree. */
  lemma CompletionLookupsCanDiffer()
    ensures var progress := [Progress("p1", "u", "m", false, None), Progress("p2", "u", "m", true, Some("t"))];
      IsModuleCompleted(progress, "m") && !ModulePlayer.IsCompleted(progress, "m")
  {
    var progress := [Progress("p1", "u", "m", false, None), Progress("p2", "u", "m", true, Some("t"))];
    assert progress[1].moduleId == "m" && progress[1].completed;
  }

  /** A load error leads to the dashboard only when its status is 403. */
  function OnLoadError(e: HttpError): (target: Option<string>)
    ensures target.Some? <==> e.code == 403
    ensures target.Some? ==> target.value == "/dashboard"
  {
    if e.code == 403 then Some("/dashboard") else None
  }

  /** The "Meet Your Coach" link is shown for mentorship courses only. */
  predicate ShowsCoachLink(c: Course) {
    c.body.courseType == MENTORSHIP
  }

  /** The coach link only ever reaches mentees: when the page loads and shows
      the link, the caller is approved and holds mentorship access, because the
      module list the page waits for is refused to everyone else. */
  lemma CoachLinkOnlyForMentees(st: State, token: Token, courseId: Id)
    requires DistinctIds(st.courses)
    requires LoadCourseDetail(st, token, courseId).Success?
    requires ShowsCoachLink(LoadCourseDetail(st, token, courseId).value.course)
    ensures CurrentUser(st, token).Success?
    ensures CurrentUser(st, token).value.body.status == Approved
    ensures CurrentUser(st, token).value.body.mentorshipAccess
  {
    var course := GetCourse(st, courseId).value;
    var i :| 0 <= i < |st.courses| && st.courses[i] == course;
    IndexOfDistinct(st.courses, i);
  }

  /** The completion marks both pages draw from `GET /progress` agree with the
      store: with one record per (user, module) pair and all of the caller's
      records served, a module shows as completed exactly when the caller
      holds a completed record for it. */
  lemma ServedProgressMatchesStore(st: State, token: Token, moduleId: Id)
    requires UniquePairs(st.progress)
    requires CurrentUser(st, token).Success?
    requires |Filter(st.progress, OwnedBy(CurrentUser(st, token).value.id))| <= LIST_LIMIT
    ensures var served := GetProgress(st, token).value;
      var me := CurrentUser(st, token).value.id;
      && (IsModuleCompleted(served, moduleId) <==> HasCompleted(st.progress, me, moduleId))
      && (ModulePlayer.IsCompleted(served, moduleId) <==> HasCompleted(st.progress, me, moduleId))
  {
    var served := GetProgress(st, token).value;
    var me := CurrentUser(st, token).value.id;
    ServedIsMine(st, token);
    SomeCompletedIffStore(st.progress, served, me, moduleId);
    FirstCompletedIffStore(st.progress, served, me, moduleId);
  }

  /** What the loaded course page holds: with one record per pair and all of
      the caller's records served, the page marks a module completed exactly
      when the caller holds a completed record for it in the store. */
  lemma PageMarksMatchStore(st: State, token: Token, courseId: Id, moduleId: Id)
    requires UniquePairs(st.progress)
    requires LoadCourseDetail(st, token, courseId).Success?
    requires CurrentUser(st, token).Success?
    requires |Filter(st.progress, OwnedBy(CurrentUser(st, token).value.id))| <= LIST_LIMIT
    ensures var page := LoadCourseDetail(st, token, courseId).value;
      var me := CurrentUser(st, token).value.id;
      && (IsModuleCompleted(page.progress, moduleId) <==> HasCompleted(st.progress, me, moduleId))
      && (ModulePlayer.IsCompleted(page.progress, moduleId) <==> HasCompleted(st.progress, me, moduleId))
  {
    ServedProgressMatchesStore(st, token, moduleId);
  }

  /** When all of the caller's records fit, `GET /progress` serves exactly them. */
  lemma ServedIsMine(st: State, token: Token)
    requires CurrentUser(st, token).Success?
    requires |Filter(st.progress, OwnedBy(CurrentUser(st, token).value.id))| <= LIST_LIMIT
    ensures var me := CurrentUser(st, token).value.id;
      forall x :: x in GetProgress(st, token).value <==> x in st.progress && x.userId == me
  {
    var served := GetProgress(st, token).value;
    var me := CurrentUser(st, token).value.id;
    forall x ensures x in served <==> x in st.progress && x.userId == me {
      assert multiset(served)[x] == if x.userId == me then multiset(st.progress)[x] else 0;
    }
  }

  lemma SomeCompletedIffStore(progress: seq<Progress>, served: seq<Progress>, me: Id, moduleId: Id)
    requires forall x :: x in served <==> x in progress && x.userId == me
    ensures IsModuleCompleted(served, moduleId) <==> HasCompleted(progress, me, moduleId)
  {
    if HasCompleted(progress, me, moduleId) {
      var j :| 0 <= j < |progress| && progress[j].userId == me && progress[j].moduleId == moduleId && progress[j].completed;
      assert progress[j] in served;
    }
    if IsModuleCompleted(served, moduleId) {
      var i :| 0 <= i < |served| && served[i].moduleId == moduleId && served[i].completed;
      assert served[i] in served;
    }
  }

  lemma FirstCompletedIffStore(progress: seq<Progress>, served: seq<Progress>, me: Id, moduleId: Id)
    requires UniquePairs(progress)
    requires forall x :: x in served <==> x in progress && x.userId == me
    ensures ModulePlayer.IsCompleted(served, moduleId) <==> HasCompleted(progress, me, moduleId)
  {
    if HasCompleted(progress, me, moduleId) {
      var j :| 0 <= j < |progress| && progress[j].userId == me && progress[j].moduleId == moduleId && progress[j].completed;
      FirstForModuleIsTheRecord(progress, served, me, moduleId, j);
    }
    if ModulePlayer.IsCompleted(served, moduleId) {
      var k :| 0 <= k < |served| && served[k].moduleId == moduleId && served[k].completed;
      assert served[k] in served;
    }
  }

  /** Every record served for the module is the caller's one record for it. */
  lemma FirstForModuleIsTheRecord(progress: seq<Progress>, served: seq<Progress>, me: Id, moduleId: Id, j: nat)
    requires UniquePairs(progress)
    requires forall x :: x in served <==> x in progress && x.userId == me
    requires j < |progress| && progress[j].userId == me && progress[j].moduleId == moduleId
    requires progress[j].completed
    ensures ModulePlayer.IsCompleted(served, moduleId)
  {
    assert progress[j] in served;
    var k :| 0 <= k < |served| && served[k] == progress[j];
    var f :| 0 <= f < |served| && served[f].moduleId == moduleId && forall g :: 0 <= g < f ==> served[g].moduleId != moduleId
      by { FirstExists(served, moduleId, k); }
    assert served[f] in served;
    var i :| 0 <= i < |progress| && progress[i] == served[f];
    assert i == j;
  }

  lemma FirstExists(s: seq<Progress>, moduleId: Id, k: nat)
    requires k < |s| && s[k].moduleId == moduleId
    ensures exists f :: 0 <= f < |s| && s[f].moduleId == moduleId && forall g :: 0 <= g < f ==> s[g].moduleId != moduleId
  {
    var r := FirstIndex(s, (p: Progress) => p.moduleId == moduleId);
    assert r.Some?;
  }

  datatype Loaded = Loaded(course: Course, modules: seq<Module>, progress: seq<Progress>)

  /** The page's three requests. The failure reported is the first failing
      one in request order; once the module list is served, the progress
      request cannot fail, since both resolve the same token. */
  function LoadCourseDetail(st: State, token: Token, courseId: Id): (r: Result<Loaded, HttpError>)
    ensures r.Success? <==> GetCourse(st, courseId).Success? && ListModules(st, token, courseId).Success?
    ensures r.Success? ==> r.value.course.id == courseId && !r.value.course.archived
    ensures r.Success? ==> r.value.course == GetCourse(st, courseId).value
    ensures r.Success? ==> r.value.modules == ListModules(st, token, courseId).value
    ensures r.Success? ==> GetProgress(st, token).Success? && r.value.progress == GetProgress(st, token).value
    ensures GetCourse(st, courseId).Failure? ==> r == Failure(GetCourse(st, courseId).error)
    ensures r.Failure? && GetCourse(st, courseId).Success? ==> r.error == ListModules(st, token, courseId).error
  {
    var course :- GetCourse(st, courseId);
    var modules :- ListModules(st, token, courseId);
    Success(Loaded(course, modules, GetProgress(st, token).value))
  }

  /** For a live course and a signed-in caller, the page returns to the
      dashboard exactly when the server refuses the module list: the caller
      is not approved, or the course is a mentorship course and the caller
      lacks the flag. */
  lemma RedirectIffModulesRefused(st: State, token: Token, courseId: Id)
    requires DistinctIds(st.courses)
    requires GetCourse(st, courseId).Success?
    requires CurrentUser(st, token).Success?
    ensures var r := LoadCourseDetail(st, token, courseId);
      var caller := CurrentUser(st, token).value;
      var course := GetCourse(st, courseId).value;
      (r.Failure? && OnLoadError(r.error).Some?) <==>
        (caller.body.status != Approved || (course.body.courseType == MENTORSHIP && !caller.body.mentorshipAccess))
  {
    var course := GetCourse(st, courseId).value;
    var i :| 0 <= i < |st.courses| && st.courses[i] == course;
    IndexOfDistinct(st.courses, i);
  }
}
