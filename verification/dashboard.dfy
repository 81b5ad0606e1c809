/** The student dashboard: the approval gate, the mentorship filter on the
    course list, and the course cards. */
module StudentDashboard {
  import opened Wrappers
  import opened Lists
  import opened Store
  import opened AuthContext
  import Docs
  import Guards
  import Catalog
  import ProgressApi

  function NotMentorship(c: Course): bool {
    c.body.courseType != MENTORSHIP
  }

  /** `availableCourses`: the fetched list, minus the mentorship courses when
      the user lacks mentorship access. */
  function VisibleCourses(fetched: seq<Course>, hasMentorship: bool): (r: seq<Course>)
    ensures hasMentorship ==> r == fetched
    ensures !hasMentorship ==> forall i :: 0 <= i < |r| ==> r[i].body.courseType != MENTORSHIP
    ensures !hasMentorship ==>
      forall c :: multiset(r)[c] == if c.body.courseType == MENTORSHIP then 0 else multiset(fetched)[c]
    ensures Subsequence(r, fetched)
  {
    if hasMentorship then
      FilterAll(fetched, (c: Course) => true);
      FilterIsSubsequence(fetched, (c: Course) => true);
      fetched
    else
      FilterIsSubsequence(fetched, NotMentorship);
      Filter(fetched, NotMentorship)
  }

  datatype DashboardData = DashboardData(courses: seq<Course>, progress: seq<Progress>)

  const DASHBOARD_START := DashboardData([], [])

  /** What `Promise.all([getCourses(), getUserProgress()])` settles with. */
  datatype Fetched = Fetched(courses: seq<Course>, progress: seq<Progress>)

  /** The `[isApproved]` effect: data loads only for an approved user, and a
      failed load keeps what was shown. */
  function LoadEffect(a: AuthState, d: DashboardData, response: Result<Fetched, HttpError>): (r: DashboardData)
    ensures !IsApproved(a) || response.Failure? ==> r == d
    ensures IsApproved(a) && response.Success? ==>
      r.courses == VisibleCourses(response.value.courses, HasMentorship(a)) && r.progress == response.value.progress
  {
    if !IsApproved(a) then d
    else
      match response
      case Failure(_) => d
      case Success(f) => DashboardData(VisibleCourses(f.courses, HasMentorship(a)), f.progress)
  }

  datatype CourseCard = CourseCard(courseId: Id, title: string, description: string, progressPercent: int, link: string)

  datatype DashboardScreen = PendingApprovalCard | CourseCards(cards: seq<CourseCard>)

  function Card(c: Course, progress: seq<Progress>): CourseCard {
    CourseCard(c.id, c.body.title, c.body.description, 0, "/course/" + c.id)
  }

  function Cards(courses: seq<Course>, progress: seq<Progress>): (r: seq<CourseCard>)
    ensures |r| == |courses|
    ensures forall i :: 0 <= i < |r| ==> r[i] == Card(courses[i], progress)
  {
    seq(|courses|, i requires 0 <= i < |courses| => Card(courses[i], progress))
  }

  /** A non-approved user sees only the pending card; an approved one sees a
      card per shown course, each linking to its course page. */
  function Screen(a: AuthState, d: DashboardData): (r: DashboardScreen)
    ensures !IsApproved(a) <==> r == PendingApprovalCard
    ensures IsApproved(a) ==>
      && r.CourseCards? && |r.cards| == |d.courses|
      && forall i :: 0 <= i < |d.courses| ==>
           r.cards[i].courseId == d.courses[i].id && r.cards[i].link == "/course/" + d.courses[i].id
  {
    if !IsApproved(a) then PendingApprovalCard else CourseCards(Cards(d.courses, d.progress))
  }

  /** The percentage on every card is 0, so the screen is the same whatever
      the progress records hold. */
  lemma ProgressNeverShown(a: AuthState, d: DashboardData, progress: seq<Progress>)
    ensures Screen(a, d) == Screen(a, d.(progress := progress))
    ensures Screen(a, d).CourseCards? ==> forall i :: 0 <= i < |Screen(a, d).cards| ==> Screen(a, d).cards[i].progressPercent == 0
  {
    if IsApproved(a) {
      assert Cards(d.courses, d.progress) == Cards(d.courses, progress);
    }
  }

  /** Fed what the server serves, an approved student's dashboard lists live
      stored courses only, no mentorship course unless the student holds the
      flag, and, when every live course fits in one response, every course
      the student may open. */
  lemma DashboardShowsServedCourses(st: State, token: Token, d: DashboardData)
    requires token != ""
    requires Guards.RequireApproved(st, token).Success?
    ensures var flag := Guards.CurrentUser(st, token).value.body.mentorshipAccess;
      var served := Fetched(Catalog.ListCourses(st), ProgressApi.GetProgress(st, token).value);
      var shown := LoadEffect(SessionFor(st, token), d, Success(served)).courses;
      && (forall i :: 0 <= i < |shown| ==> !shown[i].archived && shown[i] in st.courses)
      && (!flag ==> forall i :: 0 <= i < |shown| ==> shown[i].body.courseType != MENTORSHIP)
      && (|Filter(st.courses, Docs.IsLive)| <= LIST_LIMIT ==>
            forall c :: c in st.courses && !c.archived && (flag || c.body.courseType != MENTORSHIP) ==> c in shown)
  {
    var flag := Guards.CurrentUser(st, token).value.body.mentorshipAccess;
    var a := SessionFor(st, token);
    assert IsApproved(a) && HasMentorship(a) == flag;
    assert Docs.ListsLive(st.courses, Catalog.ListCourses(st));
    VisibleOfListed(st.courses, Catalog.ListCourses(st), flag);
  }

  /** The mentorship filter over a public list of live courses. */
  lemma VisibleOfListed(courses: seq<Course>, fetched: seq<Course>, flag: bool)
    requires Docs.ListsLive(courses, fetched)
    ensures var shown := VisibleCourses(fetched, flag);
      && (forall i :: 0 <= i < |shown| ==> !shown[i].archived && shown[i] in courses)
      && (!flag ==> forall i :: 0 <= i < |shown| ==> shown[i].body.courseType != MENTORSHIP)
      && (|Filter(courses, Docs.IsLive)| <= LIST_LIMIT ==>
            forall c :: c in courses && !c.archived && (flag || c.body.courseType != MENTORSHIP) ==> c in shown)
  {
    var shown := VisibleCourses(fetched, flag);
    ShownAreFetched(fetched, flag);
    forall i | 0 <= i < |shown| ensures !shown[i].archived && shown[i] in courses {
      assert shown[i] in shown;
      var j :| 0 <= j < |fetched| && fetched[j] == shown[i];
    }
    if |Filter(courses, Docs.IsLive)| <= LIST_LIMIT {
      forall c | c in courses && !c.archived && (flag || c.body.courseType != MENTORSHIP) ensures c in shown {
        assert multiset(fetched)[c] == multiset(courses)[c];
        if !flag {
          assert multiset(shown)[c] == multiset(fetched)[c];
        }
      }
    }
  }

  lemma ShownAreFetched(fetched: seq<Course>, flag: bool)
    ensures forall c :: c in VisibleCourses(fetched, flag) ==> c in fetched
  {
    var shown := VisibleCourses(fetched, flag);
    forall c | c in shown ensures c in fetched {
      if !flag {
        assert multiset(shown)[c] > 0;
      }
    }
  }
}
