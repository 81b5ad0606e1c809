/** The course and module routes. Only the module listing is gated on
    approval and mentorship; the course list and single-course lookup are
    public and do not look at `course_type`. */
module Catalog {
  import opened Wrappers
  import opened Lists
  import opened Ordering
  import opened Store
  import opened Docs
  import opened Guards

  const COURSE_404 := HttpError(404, "Course not found")
  const MODULE_404 := HttpError(404, "Module not found")
  const MENTORSHIP_REQUIRED := HttpError(403, "Mentorship access required")

  function CourseKey(c: Course): SortKey {
    Ascending(c.body.orderNumber)
  }

  function ModuleKey(m: Module): SortKey {
    Ascending(m.body.orderNumber)
  }

  /** The module query `{"course_id": id, "archived": False}`. */
  function InCourse(courseId: Id): Module -> bool {
    (m: Module) => m.body.courseId == courseId && !m.archived
  }

  /** `GET /courses`: the live courses by ascending `order_number`, whatever their type. */
  function ListCourses(st: State): (r: seq<Course>)
    ensures ListsLive(st.courses, r)
    ensures forall i, j :: 0 <= i < j < |r| ==> r[i].body.orderNumber <= r[j].body.orderNumber
  {
    LiveListing(st.courses, CourseKey);
    Listing(st.courses, IsLive, CourseKey)
  }

  /** `GET /courses/{id}`: the first course with the id that is not archived. */
  function GetCourse(st: State, courseId: Id): (r: Result<Course, HttpError>)
    ensures r.Success? <==> exists i :: 0 <= i < |st.courses| && st.courses[i].id == courseId && !st.courses[i].archived
    ensures r.Success? ==> r.value in st.courses && r.value.id == courseId && !r.value.archived
    ensures r.Failure? ==> r.error == COURSE_404
  {
    match FirstIndex(st.courses, (c: Course) => c.id == courseId && !c.archived)
    case None => Failure(COURSE_404)
    case Some(k) => Success(st.courses[k])
  }

  /** `POST /admin/courses`. */
  function CreateCourse(st: State, token: Token, info: CourseInfo, newId: Id, now: Timestamp): (r: Result<State, HttpError>)
    requires newId !in Ids(st.courses)
    ensures AdminGated(st, token, r)
    ensures RequireAdmin(st, token).Success? ==> r.Success?
    ensures r.Success? ==>
      && r.value.(courses := st.courses) == st
      && r.value.courses == st.courses + [Doc(newId, false, now, info)]
  {
    var _ :- RequireAdmin(st, token);
    Success(st.(courses := st.courses + [Doc(newId, false, now, info)]))
  }

  /** `PUT /admin/courses/{id}`: replaces every `CourseCreate` field; 404 when
      no course has the id or the new fields equal the stored ones. */
  function UpdateCourse(st: State, token: Token, courseId: Id, info: CourseInfo): (r: Result<State, HttpError>)
    ensures AdminGated(st, token, r)
    ensures RequireAdmin(st, token).Success? ==>
      (r.Success? <==> courseId in Ids(st.courses) && st.courses[IndexOfId(st.courses, courseId).value].body != info)
    ensures RequireAdmin(st, token).Success? && r.Failure? ==> r.error == COURSE_404
    ensures r.Success? ==>
      var k := IndexOfId(st.courses, courseId).value;
      && r.value.(courses := st.courses) == st
      && |r.value.courses| == |st.courses|
      && r.value.courses[k] == st.courses[k].(body := info)
      && (forall j :: 0 <= j < |st.courses| && j != k ==> r.value.courses[j] == st.courses[j])
  {
    var _ :- RequireAdmin(st, token);
    match UpdateOne(st.courses, courseId, (c: Course) => c.(body := info))
    case None => Failure(COURSE_404)
    case Some(courses) => Success(st.(courses := courses))
  }

  /** `PATCH /admin/courses/{id}/archive`. */
  function ArchiveCourse(st: State, token: Token, courseId: Id): (r: Result<State, HttpError>)
    ensures AdminGated(st, token, r)
    ensures RequireAdmin(st, token).Success? ==>
      (r.Success? <==> courseId in Ids(st.courses) && !st.courses[IndexOfId(st.courses, courseId).value].archived)
    ensures RequireAdmin(st, token).Success? && r.Failure? ==> r.error == COURSE_404
    ensures r.Success? ==>
      var k := IndexOfId(st.courses, courseId).value;
      && r.value.(courses := st.courses) == st
      && |r.value.courses| == |st.courses|
      && r.value.courses[k] == st.courses[k].(archived := true)
      && (forall j :: 0 <= j < |st.courses| && j != k ==> r.value.courses[j] == st.courses[j])
  {
    var _ :- RequireAdmin(st, token);
    match UpdateOne(st.courses, courseId, MarkArchived)
    case None => Failure(COURSE_404)
    case Some(courses) => Success(st.(courses := courses))
  }

  /** `GET /courses/{id}/modules`: approved callers only; the course is looked
      up without the archived filter; a mentorship course needs the caller's
      mentorship flag; the result is the course's live modules by ascending
      `order_number`. */
  function ListModules(st: State, token: Token, courseId: Id): (r: Result<seq<Module>, HttpError>)
    ensures ApprovalGated(st, token, r)
    ensures RequireApproved(st, token).Success? && courseId !in Ids(st.courses) ==> r == Failure(COURSE_404)
    ensures RequireApproved(st, token).Success? && courseId in Ids(st.courses) ==>
      var course := st.courses[IndexOfId(st.courses, courseId).value];
      var caller := RequireApproved(st, token).value;
      && (r.Success? <==> course.body.courseType != MENTORSHIP || caller.body.mentorshipAccess)
      && (r.Failure? ==> r.error == MENTORSHIP_REQUIRED)
    ensures r.Success? ==>
      && (forall i :: 0 <= i < |r.value| ==> r.value[i] in st.modules)
      && (forall i :: 0 <= i < |r.value| ==> r.value[i].body.courseId == courseId && !r.value[i].archived)
      && (forall i, j :: 0 <= i < j < |r.value| ==> r.value[i].body.orderNumber <= r.value[j].body.orderNumber)
      && |r.value| == Min(|Filter(st.modules, InCourse(courseId))|, LIST_LIMIT)
    ensures r.Success? && |Filter(st.modules, InCourse(courseId))| <= LIST_LIMIT ==>
      forall m :: multiset(r.value)[m] ==
        if m.body.courseId == courseId && !m.archived then multiset(st.modules)[m] else 0
  {
    var caller :- RequireApproved(st, token);
    match IndexOfId(st.courses, courseId)
    case None => Failure(COURSE_404)
    case Some(k) =>
      if st.courses[k].body.courseType == MENTORSHIP && !caller.body.mentorshipAccess then Failure(MENTORSHIP_REQUIRED)
      else Success(CourseModules(st.modules, courseId))
  }

  /** The module query of `get_course_modules` once the gate has passed. */
  function CourseModules(modules: seq<Module>, courseId: Id): (r: seq<Module>)
    ensures forall i :: 0 <= i < |r| ==> r[i] in modules
    ensures forall i :: 0 <= i < |r| ==> r[i].body.courseId == courseId && !r[i].archived
    ensures forall i, j :: 0 <= i < j < |r| ==> r[i].body.orderNumber <= r[j].body.orderNumber
    ensures |r| == Min(|Filter(modules, InCourse(courseId))|, LIST_LIMIT)
    ensures |Filter(modules, InCourse(courseId))| <= LIST_LIMIT ==>
      forall m :: multiset(r)[m] == if m.body.courseId == courseId && !m.archived then multiset(modules)[m] else 0
  {
    Listing(modules, InCourse(courseId), ModuleKey)
  }

  /** `POST /admin/modules`: the course id is not checked. */
  function CreateModule(st: State, token: Token, info: ModuleInfo, newId: Id, now: Timestamp): (r: Result<State, HttpError>)
    requires newId !in Ids(st.modules)
    ensures AdminGated(st, token, r)
    ensures RequireAdmin(st, token).Success? ==> r.Success?
    ensures r.Success? ==>
      && r.value.(modules := st.modules) == st
      && r.value.modules == st.modules + [Doc(newId, false, now, info)]
  {
    var _ :- RequireAdmin(st, token);
    Success(st.(modules := st.modules + [Doc(newId, false, now, info)]))
  }

  /** `PUT /admin/modules/{id}`: replaces every field but the course id. */
  function UpdateModule(st: State, token: Token, moduleId: Id, info: ModuleInfo): (r: Result<State, HttpError>)
    ensures AdminGated(st, token, r)
    ensures RequireAdmin(st, token).Success? ==>
      (r.Success? <==>
        && moduleId in Ids(st.modules)
        && var m := st.modules[IndexOfId(st.modules, moduleId).value];
           m.body != info.(courseId := m.body.courseId))
    ensures RequireAdmin(st, token).Success? && r.Failure? ==> r.error == MODULE_404
    ensures r.Success? ==>
      var k := IndexOfId(st.modules, moduleId).value;
      && r.value.(modules := st.modules) == st
      && |r.value.modules| == |st.modules|
      && r.value.modules[k] == st.modules[k].(body := info.(courseId := st.modules[k].body.courseId))
      && (forall j :: 0 <= j < |st.modules| && j != k ==> r.value.modules[j] == st.modules[j])
  {
    var _ :- RequireAdmin(st, token);
    match UpdateOne(st.modules, moduleId, (m: Module) => m.(body := info.(courseId := m.body.courseId)))
    case None => Failure(MODULE_404)
    case Some(modules) => Success(st.(modules := modules))
  }

  /** `PATCH /admin/modules/{id}/archive`. */
  function ArchiveModule(st: State, token: Token, moduleId: Id): (r: Result<State, HttpError>)
    ensures AdminGated(st, token, r)
    ensures RequireAdmin(st, token).Success? ==>
      (r.Success? <==> moduleId in Ids(st.modules) && !st.modules[IndexOfId(st.modules, moduleId).value].archived)
    ensures RequireAdmin(st, token).Success? && r.Failure? ==> r.error == MODULE_404
    ensures r.Success? ==>
      var k := IndexOfId(st.modules, moduleId).value;
      && r.value.(modules := st.modules) == st
      && |r.value.modules| == |st.modules|
      && r.value.modules[k] == st.modules[k].(archived := true)
      && (forall j :: 0 <= j < |st.modules| && j != k ==> r.value.modules[j] == st.modules[j])
  {
    var _ :- RequireAdmin(st, token);
    match UpdateOne(st.modules, moduleId, MarkArchived)
    case None => Failure(MODULE_404)
    case Some(modules) => Success(st.(modules := modules))
  }

  function WithModuleOrder(b: ModuleInfo, n: int): ModuleInfo {
    b.(orderNumber := n)
  }

  /** `POST /admin/modules/reorder`: every named module gets the order the
      last item naming it gives; unknown ids are skipped; never fails for an admin. */
  function ReorderModules(st: State, token: Token, items: seq<OrderItem>): (r: Result<State, HttpError>)
    ensures AdminGated(st, token, r)
    ensures RequireAdmin(st, token).Success? ==> r.Success?
    ensures r.Success? ==>
      && r.value.(modules := st.modules) == st
      && |r.value.modules| == |st.modules|
      && (forall i :: 0 <= i < |st.modules| && LastOrder(items, st.modules[i].id).None? ==>
            r.value.modules[i] == st.modules[i])
    ensures r.Success? && DistinctIds(st.modules) ==>
      forall i :: 0 <= i < |st.modules| && LastOrder(items, st.modules[i].id).Some? ==>
        r.value.modules[i] == st.modules[i].(body := st.modules[i].body.(orderNumber := LastOrder(items, st.modules[i].id).value))
  {
    var _ :- RequireAdmin(st, token);
    var modules := Reorder(st.modules, items, WithModuleOrder);
    ReorderAppliesLastAll(st.modules, items, WithModuleOrder);
    Success(st.(modules := modules))
  }
}
