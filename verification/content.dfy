/** The public content routes: leadership, announcements, success events,
    homepage sections and coach info. Reads are public; every write is
    behind `require_admin`. */
module Content {
  import opened Wrappers
  import opened Lists
  import opened Ordering
  import opened Store
  import opened Docs
  import opened Guards

  const MEMBER_404 := HttpError(404, "Member not found")
  const ANNOUNCEMENT_404 := HttpError(404, "Announcement not found")
  const EVENT_404 := HttpError(404, "Event not found")
  const COACH_404 := HttpError(404, "Coach info not found")

  function LeaderKey(m: LeadershipMember): SortKey {
    Ascending(m.body.orderNumber)
  }

  function AnnouncementKey(a: Announcement): SortKey {
    Descending(a.createdAt)
  }

  function EventKey(e: SuccessEvent): SortKey {
    Descending(e.body.date)
  }

  // ---------- leadership ----------

  /** `GET /leadership`: live members by ascending `order_number`. */
  function ListLeadership(st: State): (r: seq<LeadershipMember>)
    ensures ListsLive(st.leadership, r)
    ensures forall i, j :: 0 <= i < j < |r| ==> r[i].body.orderNumber <= r[j].body.orderNumber
  {
    LiveListing(st.leadership, LeaderKey);
    Listing(st.leadership, IsLive, LeaderKey)
  }

  function CreateLeader(st: State, token: Token, info: Leader, newId: Id, now: Timestamp): (r: Result<State, HttpError>)
    requires newId !in Ids(st.leadership)
    ensures AdminGated(st, token, r)
    ensures RequireAdmin(st, token).Success? ==> r.Success?
    ensures r.Success? ==>
      && r.value.(leadership := st.leadership) == st
      && r.value.leadership == st.leadership + [Doc(newId, false, now, info)]
  {
    var _ :- RequireAdmin(st, token);
    Success(st.(leadership := st.leadership + [Doc(newId, false, now, info)]))
  }

  function UpdateLeader(st: State, token: Token, memberId: Id, info: Leader): (r: Result<State, HttpError>)
    ensures AdminGated(st, token, r)
    ensures RequireAdmin(st, token).Success? ==>
      (r.Success? <==> memberId in Ids(st.leadership) && st.leadership[IndexOfId(st.leadership, memberId).value].body != info)
    ensures RequireAdmin(st, token).Success? && r.Failure? ==> r.error == MEMBER_404
    ensures r.Success? ==>
      var k := IndexOfId(st.leadership, memberId).value;
      && r.value.(leadership := st.leadership) == st
      && |r.value.leadership| == |st.leadership|
      && r.value.leadership[k] == st.leadership[k].(body := info)
      && (forall j :: 0 <= j < |st.leadership| && j != k ==> r.value.leadership[j] == st.leadership[j])
  {
    var _ :- RequireAdmin(st, token);
    match UpdateOne(st.leadership, memberId, (m: LeadershipMember) => m.(body := info))
    case None => Failure(MEMBER_404)
    case Some(s) => Success(st.(leadership := s))
  }

  function ArchiveLeader(st: State, token: Token, memberId: Id): (r: Result<State, HttpError>)
    ensures AdminGated(st, token, r)
    ensures RequireAdmin(st, token).Success? ==>
      (r.Success? <==> memberId in Ids(st.leadership) && !st.leadership[IndexOfId(st.leadership, memberId).value].archived)
    ensures RequireAdmin(st, token).Success? && r.Failure? ==> r.error == MEMBER_404
    ensures r.Success? ==>
      var k := IndexOfId(st.leadership, memberId).value;
      && r.value.(leadership := st.leadership) == st
      && |r.value.leadership| == |st.leadership|
      && r.value.leadership[k] == st.leadership[k].(archived := true)
      && (forall j :: 0 <= j < |st.leadership| && j != k ==> r.value.leadership[j] == st.leadership[j])
  {
    var _ :- RequireAdmin(st, token);
    match UpdateOne(st.leadership, memberId, MarkArchived)
    case None => Failure(MEMBER_404)
    case Some(s) => Success(st.(leadership := s))
  }

  function WithLeaderOrder(b: Leader, n: int): Leader {
    b.(orderNumber := n)
  }

  /** `POST /admin/leadership/reorder`. */
  function ReorderLeadership(st: State, token: Token, items: seq<OrderItem>): (r: Result<State, HttpError>)
    ensures AdminGated(st, token, r)
    ensures RequireAdmin(st, token).Success? ==> r.Success?
    ensures r.Success? ==>
      && r.value.(leadership := st.leadership) == st
      && |r.value.leadership| == |st.leadership|
      && (forall i :: 0 <= i < |st.leadership| && LastOrder(items, st.leadership[i].id).None? ==>
            r.value.leadership[i] == st.leadership[i])
    ensures r.Success? && DistinctIds(st.leadership) ==>
      forall i :: 0 <= i < |st.leadership| && LastOrder(items, st.leadership[i].id).Some? ==>
        r.value.leadership[i] ==
          st.leadership[i].(body := st.leadership[i].body.(orderNumber := LastOrder(items, st.leadership[i].id).value))
  {
    var _ :- RequireAdmin(st, token);
    var s := Reorder(st.leadership, items, WithLeaderOrder);
    ReorderAppliesLastAll(st.leadership, items, WithLeaderOrder);
    Success(st.(leadership := s))
  }

  // ---------- announcements ----------

  /** `GET /announcements`: live announcements, newest `created_at` first. */
  function ListAnnouncements(st: State): (r: seq<Announcement>)
    ensures ListsLive(st.announcements, r)
    ensures forall i, j :: 0 <= i < j < |r| ==> StrLe(r[j].createdAt, r[i].createdAt)
  {
    LiveListing(st.announcements, AnnouncementKey);
    Listing(st.announcements, IsLive, AnnouncementKey)
  }

  function CreateAnnouncement(st: State, token: Token, info: AnnouncementInfo, newId: Id, now: Timestamp): (r: Result<State, HttpError>)
    requires newId !in Ids(st.announcements)
    ensures AdminGated(st, token, r)
    ensures RequireAdmin(st, token).Success? ==> r.Success?
    ensures r.Success? ==>
      && r.value.(announcements := st.announcements) == st
      && r.value.announcements == st.announcements + [Doc(newId, false, now, info)]
  {
    var _ :- RequireAdmin(st, token);
    Success(st.(announcements := st.announcements + [Doc(newId, false, now, info)]))
  }

  function UpdateAnnouncement(st: State, token: Token, annId: Id, info: AnnouncementInfo): (r: Result<State, HttpError>)
    ensures AdminGated(st, token, r)
    ensures RequireAdmin(st, token).Success? ==>
      (r.Success? <==> annId in Ids(st.announcements) && st.announcements[IndexOfId(st.announcements, annId).value].body != info)
    ensures RequireAdmin(st, token).Success? && r.Failure? ==> r.error == ANNOUNCEMENT_404
    ensures r.Success? ==>
      var k := IndexOfId(st.announcements, annId).value;
      && r.value.(announcements := st.announcements) == st
      && |r.value.announcements| == |st.announcements|
      && r.value.announcements[k] == st.announcements[k].(body := info)
      && (forall j :: 0 <= j < |st.announcements| && j != k ==> r.value.announcements[j] == st.announcements[j])
  {
    var _ :- RequireAdmin(st, token);
    match UpdateOne(st.announcements, annId, (a: Announcement) => a.(body := info))
    case None => Failure(ANNOUNCEMENT_404)
    case Some(s) => Success(st.(announcements := s))
  }

  function ArchiveAnnouncement(st: State, token: Token, annId: Id): (r: Result<State, HttpError>)
    ensures AdminGated(st, token, r)
    ensures RequireAdmin(st, token).Success? ==>
      (r.Success? <==> annId in Ids(st.announcements) && !st.announcements[IndexOfId(st.announcements, annId).value].archived)
    ensures RequireAdmin(st, token).Success? && r.Failure? ==> r.error == ANNOUNCEMENT_404
    ensures r.Success? ==>
      var k := IndexOfId(st.announcements, annId).value;
      && r.value.(announcements := st.announcements) == st
      && |r.value.announcements| == |st.announcements|
      && r.value.announcements[k] == st.announcements[k].(archived := true)
      && (forall j :: 0 <= j < |st.announcements| && j != k ==> r.value.announcements[j] == st.announcements[j])
  {
    var _ :- RequireAdmin(st, token);
    match UpdateOne(st.announcements, annId, MarkArchived)
    case None => Failure(ANNOUNCEMENT_404)
    case Some(s) => Success(st.(announcements := s))
  }

  // ---------- success events ----------

  /** `GET /success-events`: live events, latest `date` first. */
  function ListEvents(st: State): (r: seq<SuccessEvent>)
    ensures ListsLive(st.events, r)
    ensures forall i, j :: 0 <= i < j < |r| ==> StrLe(r[j].body.date, r[i].body.date)
  {
    LiveListing(st.events, EventKey);
    Listing(st.events, IsLive, EventKey)
  }

  function CreateEvent(st: State, token: Token, info: EventInfo, newId: Id, now: Timestamp): (r: Result<State, HttpError>)
    requires newId !in Ids(st.events)
    ensures AdminGated(st, token, r)
    ensures RequireAdmin(st, token).Success? ==> r.Success?
    ensures r.Success? ==>
      && r.value.(events := st.events) == st
      && r.value.events == st.events + [Doc(newId, false, now, info)]
  {
    var _ :- RequireAdmin(st, token);
    Success(st.(events := st.events + [Doc(newId, false, now, info)]))
  }

  function UpdateEvent(st: State, token: Token, eventId: Id, info: EventInfo): (r: Result<State, HttpError>)
    ensures AdminGated(st, token, r)
    ensures RequireAdmin(st, token).Success? ==>
      (r.Success? <==> eventId in Ids(st.events) && st.events[IndexOfId(st.events, eventId).value].body != info)
    ensures RequireAdmin(st, token).Success? && r.Failure? ==> r.error == EVENT_404
    ensures r.Success? ==>
      var k := IndexOfId(st.events, eventId).value;
      && r.value.(events := st.events) == st
      && |r.value.events| == |st.events|
      && r.value.events[k] == st.events[k].(body := info)
      && (forall j :: 0 <= j < |st.events| && j != k ==> r.value.events[j] == st.events[j])
  {
    var _ :- RequireAdmin(st, token);
    match UpdateOne(st.events, eventId, (e: SuccessEvent) => e.(body := info))
    case None => Failure(EVENT_404)
    case Some(s) => Success(st.(events := s))
  }

  function ArchiveEvent(st: State, token: Token, eventId: Id): (r: Result<State, HttpError>)
    ensures AdminGated(st, token, r)
    ensures RequireAdmin(st, token).Success? ==>
      (r.Success? <==> eventId in Ids(st.events) && !st.events[IndexOfId(st.events, eventId).value].archived)
    ensures RequireAdmin(st, token).Success? && r.Failure? ==> r.error == EVENT_404
    ensures r.Success? ==>
      var k := IndexOfId(st.events, eventId).value;
      && r.value.(events := st.events) == st
      && |r.value.events| == |st.events|
      && r.value.events[k] == st.events[k].(archived := true)
      && (forall j :: 0 <= j < |st.events| && j != k ==> r.value.events[j] == st.events[j])
  {
    var _ :- RequireAdmin(st, token);
    match UpdateOne(st.events, eventId, MarkArchived)
    case None => Failure(EVENT_404)
    case Some(s) => Success(st.(events := s))
  }

  // ---------- homepage and coach ----------

  /** `PUT /admin/homepage-content`: an upsert keyed by section, so it never
      fails for an admin and always refreshes `updated_at`. */
  function UpdateSection(st: State, token: Token, section: string, content: string, now: Timestamp)
    : (r: Result<State, HttpError>)
    ensures AdminGated(st, token, r)
    ensures RequireAdmin(st, token).Success? ==> r.Success?
    ensures r.Success? ==>
      && r.value.(homepage := st.homepage) == st
      && section in r.value.homepage
      && r.value.homepage[section] == Section(content, now)
      && r.value.homepage.Keys == st.homepage.Keys + {section}
      && (forall k :: k in st.homepage && k != section ==> r.value.homepage[k] == st.homepage[k])
  {
    var _ :- RequireAdmin(st, token);
    Success(st.(homepage := st.homepage[section := Section(content, now)]))
  }

  /** `GET /coach-info`. */
  function GetCoach(st: State): (r: Result<Coach, HttpError>)
    ensures r.Success? <==> st.coach.Some?
    ensures r.Success? ==> r.value == st.coach.value
    ensures r.Failure? ==> r.error == COACH_404
  {
    match st.coach
    case None => Failure(COACH_404)
    case Some(c) => Success(c)
  }

  /** `PUT /admin/coach-info`: deletes the stored record and inserts the new one. */
  function ReplaceCoach(st: State, token: Token, name: string, bio: string, achievements: string,
                        imageUrl: Option<string>, now: Timestamp): (r: Result<State, HttpError>)
    ensures AdminGated(st, token, r)
    ensures RequireAdmin(st, token).Success? ==> r.Success?
    ensures r.Success? ==>
      && r.value.(coach := st.coach) == st
      && r.value.coach == Some(Coach(name, bio, achievements, imageUrl, now))
  {
    var _ :- RequireAdmin(st, token);
    Success(st.(coach := Some(Coach(name, bio, achievements, imageUrl, now))))
  }

  /** Replacing the coach record and reading it back returns what the admin
      sent, stamped with the write's time. */
  lemma ReplaceThenGetCoach(st: State, token: Token, name: string, bio: string, achievements: string,
                            imageUrl: Option<string>, now: Timestamp)
    requires RequireAdmin(st, token).Success?
    ensures ReplaceCoach(st, token, name, bio, achievements, imageUrl, now).Success?
    ensures GetCoach(ReplaceCoach(st, token, name, bio, achievements, imageUrl, now).value)
      == Success(Coach(name, bio, achievements, imageUrl, now))
  {
  }
}
