/** The progress routes. Reading needs only a valid token; recording needs
    approval and upserts on the (user, module) pair. The module id is not
    checked against the modules collection. */
module ProgressApi {
  import opened Wrappers
  import opened Lists
  import opened Store
  import opened Docs
  import opened Guards
  import opened Auth

  /** The record `find_one({"user_id": u, "module_id": m})` returns. */
  function IndexOfPair(progress: seq<Progress>, userId: Id, moduleId: Id): (r: Option<nat>)
    ensures r.Some? ==> r.value < |progress| && progress[r.value].userId == userId && progress[r.value].moduleId == moduleId
    ensures r.Some? ==> forall j :: 0 <= j < r.value ==> !(progress[j].userId == userId && progress[j].moduleId == moduleId)
    ensures r.None? <==> forall j :: 0 <= j < |progress| ==> !(progress[j].userId == userId && progress[j].moduleId == moduleId)
  {
    FirstIndex(progress, (p: Progress) => p.userId == userId && p.moduleId == moduleId)
  }

  ghost predicate UniquePairs(progress: seq<Progress>) {
    forall i, j :: 0 <= i < j < |progress| ==>
      progress[i].userId != progress[j].userId || progress[i].moduleId != progress[j].moduleId
  }

  /** `completed_at` is set exactly on completed records. */
  ghost predicate Stamped(progress: seq<Progress>) {
    forall i :: 0 <= i < |progress| ==> (progress[i].completedAt.Some? <==> progress[i].completed)
  }

  /** `userId` holds a completed record for module `moduleId`. */
  ghost predicate HasCompleted(progress: seq<Progress>, userId: Id, moduleId: Id) {
    exists j :: 0 <= j < |progress| && progress[j].userId == userId && progress[j].moduleId == moduleId
                && progress[j].completed
  }

  /** Progress records carry distinct ids, as `generate_id` makes them. */
  ghost predicate DistinctProgressIds(progress: seq<Progress>) {
    forall i, j :: 0 <= i < j < |progress| ==> progress[i].id != progress[j].id
  }

  function ProgressIds(progress: seq<Progress>): set<Id> {
    set i | 0 <= i < |progress| :: progress[i].id
  }

  function OwnedBy(userId: Id): Progress -> bool {
    (p: Progress) => p.userId == userId
  }

  /** `GET /progress`: the caller's records in store order, whatever the
      caller's status. */
  function GetProgress(st: State, token: Token): (r: Result<seq<Progress>, HttpError>)
    ensures r.Success? <==> CurrentUser(st, token).Success?
    ensures r.Failure? ==> r.error == CurrentUser(st, token).error
    ensures r.Success? ==>
      var me := CurrentUser(st, token).value.id;
      && (forall i :: 0 <= i < |r.value| ==> r.value[i].userId == me && r.value[i] in st.progress)
      && |r.value| == Min(|Filter(st.progress, OwnedBy(me))|, LIST_LIMIT)
      && r.value == Filter(st.progress, OwnedBy(me))[..|r.value|]
      && (|Filter(st.progress, OwnedBy(me))| <= LIST_LIMIT ==>
            forall p :: multiset(r.value)[p] == if p.userId == me then multiset(st.progress)[p] else 0)
  {
    var caller :- CurrentUser(st, token);
    var mine := Take(Filter(st.progress, OwnedBy(caller.id)), LIST_LIMIT);
    TakeFilter(st.progress, OwnedBy(caller.id), LIST_LIMIT);
    Success(mine)
  }

  function Stamp(completed: bool, now: Timestamp): Option<Timestamp> {
    if completed then Some(now) else None
  }

  /** A new progress collection and the record the request wrote. */
  datatype Upserted = Upserted(records: seq<Progress>, record: Progress)

  /** The upsert on the (user, module) pair: the first matching record is
      overwritten, or a new one is appended when there is none. */
  function Upsert(progress: seq<Progress>, userId: Id, moduleId: Id, completed: bool, newId: Id, now: Timestamp)
    : (u: Upserted)
    requires newId !in ProgressIds(progress)
    ensures |u.records| == |progress| + (if IndexOfPair(progress, userId, moduleId).Some? then 0 else 1)
    ensures IndexOfPair(u.records, userId, moduleId).Some?
    ensures u.records[IndexOfPair(u.records, userId, moduleId).value] == u.record
    ensures u.record.userId == userId && u.record.moduleId == moduleId
    ensures u.record.completed == completed && (u.record.completedAt.Some? <==> completed)
    ensures IndexOfPair(progress, userId, moduleId).Some? ==>
      u.record.id == progress[IndexOfPair(progress, userId, moduleId).value].id
    ensures IndexOfPair(progress, userId, moduleId).None? ==> u.record.id == newId
    ensures forall i :: 0 <= i < |progress| && !(progress[i].userId == userId && progress[i].moduleId == moduleId) ==>
      u.records[i] == progress[i]
  {
    match IndexOfPair(progress, userId, moduleId)
    case Some(k) =>
      var rec := progress[k].(completed := completed, completedAt := Stamp(completed, now));
      var p' := progress[k := rec];
      assert IndexOfPair(p', userId, moduleId) == Some(k) by {
        assert forall j :: 0 <= j < k ==> !(p'[j].userId == userId && p'[j].moduleId == moduleId);
        assert p'[k].userId == userId && p'[k].moduleId == moduleId;
      }
      Upserted(p', rec)
    case None =>
      var rec := Progress(newId, userId, moduleId, completed, Stamp(completed, now));
      var p' := progress + [rec];
      assert IndexOfPair(p', userId, moduleId) == Some(|progress|) by {
        assert forall j :: 0 <= j < |progress| ==> !(p'[j].userId == userId && p'[j].moduleId == moduleId);
        assert p'[|progress|] == rec;
      }
      Upserted(p', rec)
  }

  /** The upsert never creates a second record for one (user, module) pair,
      and keeps `completed_at` set exactly on completed records. */
  lemma UpsertKeepsInvariants(progress: seq<Progress>, userId: Id, moduleId: Id, completed: bool, newId: Id, now: Timestamp)
    requires newId !in ProgressIds(progress)
    ensures var u := Upsert(progress, userId, moduleId, completed, newId, now);
      && (UniquePairs(progress) ==> UniquePairs(u.records))
      && (Stamped(progress) ==> Stamped(u.records))
      && (DistinctProgressIds(progress) ==> DistinctProgressIds(u.records))
  {
    var u := Upsert(progress, userId, moduleId, completed, newId, now);
    var k := IndexOfPair(u.records, userId, moduleId).value;
    if IndexOfPair(progress, userId, moduleId).Some? {
      var k0 := IndexOfPair(progress, userId, moduleId).value;
      assert forall i :: 0 <= i < |progress| && i != k0 ==> u.records[i] == progress[i] by {
        if UniquePairs(progress) {}
      }
    }
  }

  /** `POST /progress`: approved callers only. */
  function UpdateProgress(st: State, token: Token, moduleId: Id, completed: bool, newId: Id, now: Timestamp)
    : (r: Result<Reply<Progress>, HttpError>)
    requires newId !in ProgressIds(st.progress)
    ensures ApprovalGated(st, token, r)
    ensures RequireApproved(st, token).Success? ==> r.Success?
    ensures r.Success? ==>
      var me := RequireApproved(st, token).value.id;
      && r.value.state.(progress := st.progress) == st
      && r.value.out.userId == me && r.value.out.moduleId == moduleId
      && r.value.out.completed == completed
      && (r.value.out.completedAt.Some? <==> completed)
      && IndexOfPair(r.value.state.progress, me, moduleId).Some?
      && r.value.state.progress[IndexOfPair(r.value.state.progress, me, moduleId).value] == r.value.out
      && |r.value.state.progress| == |st.progress| + (if IndexOfPair(st.progress, me, moduleId).Some? then 0 else 1)
    ensures r.Success? && UniquePairs(st.progress) ==> UniquePairs(r.value.state.progress)
    ensures r.Success? && Stamped(st.progress) ==> Stamped(r.value.state.progress)
    ensures r.Success? && DistinctProgressIds(st.progress) ==> DistinctProgressIds(r.value.state.progress)
  {
    var caller :- RequireApproved(st, token);
    var u := Upsert(st.progress, caller.id, moduleId, completed, newId, now);
    UpsertKeepsInvariants(st.progress, caller.id, moduleId, completed, newId, now);
    Success(Reply(st.(progress := u.records), u.record))
  }

  /** The server overwrites an existing record with `update_one({"id": ...})`
      on the id of the record its pair lookup found. With distinct record ids
      that is the found record and no other, which is the position `Upsert`
      overwrites. */
  lemma OverwriteHitsFoundRecord(progress: seq<Progress>, userId: Id, moduleId: Id)
    requires DistinctProgressIds(progress)
    requires IndexOfPair(progress, userId, moduleId).Some?
    ensures var k := IndexOfPair(progress, userId, moduleId).value;
      forall j :: 0 <= j < |progress| && progress[j].id == progress[k].id ==> j == k
  {
  }
}
