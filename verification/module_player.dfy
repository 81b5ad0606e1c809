/** The module player page: the current-module and completion lookups, the
    completion toggle, and "next module" navigation. */
module ModulePlayer {
  import opened Wrappers
  import opened Lists
  import opened Store
  import opened Docs
  import opened Guards
  import opened ProgressApi

  /** `modules.find(m => m.id === moduleId)`. */
  function FindModule(modules: seq<Module>, moduleId: Id): (r: Option<Module>)
    ensures r.Some? <==> moduleId in Ids(modules)
    ensures r.Some? ==> r.value == modules[IndexOfId(modules, moduleId).value]
  {
    match IndexOfId(modules, moduleId)
    case None => None
    case Some(k) => Some(modules[k])
  }

  /** `modules.findIndex(m => m.id === moduleId)`: -1 when absent. */
  function FindIndex(modules: seq<Module>, moduleId: Id): (r: int)
    ensures -1 <= r < |modules|
    ensures r == -1 <==> moduleId !in Ids(modules)
    ensures r >= 0 ==> modules[r].id == moduleId && forall j :: 0 <= j < r ==> modules[j].id != moduleId
  {
    match IndexOfId(modules, moduleId)
    case None => -1
    case Some(k) => k
  }

  /** `progress.find(p => p.module_id === moduleId)?.completed || false`. */
  function IsCompleted(progress: seq<Progress>, moduleId: Id): (r: bool)
    ensures r <==> exists k :: 0 <= k < |progress| && progress[k].moduleId == moduleId && progress[k].completed
                             && forall j :: 0 <= j < k ==> progress[j].moduleId != moduleId
  {
    match FirstIndex(progress, (p: Progress) => p.moduleId == moduleId)
    case None => false
    case Some(k) => progress[k].completed
  }

  function CoursePath(courseId: Id): string {
    "/course/" + courseId
  }

  function ModulePath(courseId: Id, moduleId: Id): string {
    "/course/" + courseId + "/module/" + moduleId
  }

  /** `goToNextModule`: the module after the current one while there is one;
      an unknown id in a non-empty list counts as index -1 and so leads to
      the first module; otherwise back to the course page. */
  function NextTarget(courseId: Id, modules: seq<Module>, moduleId: Id): (r: string)
    ensures var i := FindIndex(modules, moduleId);
      i < |modules| - 1 ==> r == ModulePath(courseId, modules[i + 1].id)
    ensures FindIndex(modules, moduleId) >= |modules| - 1 ==> r == CoursePath(courseId)
    ensures moduleId !in Ids(modules) && |modules| > 0 ==> r == ModulePath(courseId, modules[0].id)
    ensures |modules| == 0 ==> r == CoursePath(courseId)
  {
    var i := FindIndex(modules, moduleId);
    if i < |modules| - 1 then ModulePath(courseId, modules[i + 1].id) else CoursePath(courseId)
  }

  /** With distinct ids, "next" walks the list in order and leaves it after
      the last module. */
  lemma NextFollowsList(courseId: Id, modules: seq<Module>, i: nat)
    requires DistinctIds(modules)
    requires i < |modules|
    ensures i + 1 < |modules| ==> NextTarget(courseId, modules, modules[i].id) == ModulePath(courseId, modules[i + 1].id)
    ensures i + 1 == |modules| ==> NextTarget(courseId, modules, modules[i].id) == CoursePath(courseId)
  {
    IndexOfDistinct(modules, i);
  }

  datatype PlayerState = PlayerState(modules: seq<Module>, current: Option<Module>, isCompleted: bool)

  /** The body `handleToggleComplete` posts. */
  datatype ToggleRequest = ToggleRequest(moduleId: Id, completed: bool)

  function ToggleRequestOf(s: PlayerState, moduleId: Id): (r: ToggleRequest)
    ensures r.moduleId == moduleId && r.completed != s.isCompleted
  {
    ToggleRequest(moduleId, !s.isCompleted)
  }

  /** The local flag flips only once the request has succeeded. */
  function ToggleSettled<T>(s: PlayerState, response: Result<T, HttpError>): (r: PlayerState)
    ensures response.Success? ==> r == s.(isCompleted := !s.isCompleted)
    ensures response.Failure? ==> r == s
  {
    if response.Success? then s.(isCompleted := !s.isCompleted) else s
  }

  /** After a successful toggle the page shows what the server stored for the
      caller and the module. */
  lemma ToggleMatchesServer(st: State, token: Token, s: PlayerState, moduleId: Id, newId: Id, now: Timestamp)
    requires newId !in ProgressIds(st.progress)
    requires UpdateProgress(st, token, moduleId, ToggleRequestOf(s, moduleId).completed, newId, now).Success?
    ensures var reply := UpdateProgress(st, token, moduleId, ToggleRequestOf(s, moduleId).completed, newId, now).value;
      var me := RequireApproved(st, token).value.id;
      && ToggleSettled(s, Success(reply)).isCompleted == reply.out.completed
      && reply.state.progress[IndexOfPair(reply.state.progress, me, moduleId).value].completed
           == ToggleSettled(s, Success(reply)).isCompleted
  {
  }
}
