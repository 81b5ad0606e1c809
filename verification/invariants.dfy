/** The store invariants every successful write keeps, stated over the whole
    API as one request type and a dispatcher. */
module Invariants {
  import opened Wrappers
  import opened Store
  import opened Docs
  import opened Guards
  import opened Auth
  import opened UserAdmin
  import opened Catalog
  import opened ProgressApi
  import opened Content

  ghost predicate UniqueEmails(users: seq<User>) {
    forall i, j :: 0 <= i < j < |users| ==> users[i].body.email != users[j].body.email
  }

  /** Every issued token names a stored user. */
  ghost predicate TokensResolve(tokens: map<Token, Id>, users: seq<User>) {
    forall t :: t in tokens ==> tokens[t] in Ids(users)
  }

  ghost predicate Valid(st: State) {
    && DistinctIds(st.users) && UniqueEmails(st.users) && TokensResolve(st.tokens, st.users)
    && DistinctIds(st.courses) && DistinctIds(st.modules)
    && UniquePairs(st.progress) && Stamped(st.progress) && DistinctProgressIds(st.progress)
    && DistinctIds(st.leadership) && DistinctIds(st.announcements) && DistinctIds(st.events)
  }

  /** Every write route, with its path and body parameters. */
  datatype Request =
    | SignupReq(form: SignupForm)
    | LoginReq(email: string, password: string)
    | InitializeReq(admin: AdminForm, seed: Seed)
    | ApproveReq(token: Token, userId: Id)
    | MentorshipReq(token: Token, userId: Id, grant: bool)
    | ArchiveUserReq(token: Token, userId: Id)
    | CreateCourseReq(token: Token, course: CourseInfo)
    | UpdateCourseReq(token: Token, courseId: Id, course: CourseInfo)
    | ArchiveCourseReq(token: Token, courseId: Id)
    | CreateModuleReq(token: Token, moduleInfo: ModuleInfo)
    | UpdateModuleReq(token: Token, moduleId: Id, moduleInfo: ModuleInfo)
    | ArchiveModuleReq(token: Token, moduleId: Id)
    | ReorderModulesReq(token: Token, items: seq<OrderItem>)
    | ProgressReq(token: Token, moduleId: Id, completed: bool)
    | CreateLeaderReq(token: Token, leader: Leader)
    | UpdateLeaderReq(token: Token, memberId: Id, leader: Leader)
    | ArchiveLeaderReq(token: Token, memberId: Id)
    | ReorderLeadershipReq(token: Token, items: seq<OrderItem>)
    | CreateAnnouncementReq(token: Token, announcement: AnnouncementInfo)
    | UpdateAnnouncementReq(token: Token, announcementId: Id, announcement: AnnouncementInfo)
    | ArchiveAnnouncementReq(token: Token, announcementId: Id)
    | CreateEventReq(token: Token, event: EventInfo)
    | UpdateEventReq(token: Token, eventId: Id, event: EventInfo)
    | ArchiveEventReq(token: Token, eventId: Id)
    | SectionReq(token: Token, section: string, content: string)
    | CoachReq(token: Token, name: string, bio: string, achievements: string, imageUrl: Option<string>)

  /** What the server draws from outside the request: a fresh uuid, a fresh
      JWT, the clock, the bcrypt hash of the request's password, and bcrypt's
      check of a password against a stored hash. */
  datatype Env = Env(newId: Id, newToken: Token, now: Timestamp, later: Timestamp, hash: string, verify: (string, string) -> bool)

  /** uuid4 and JWT issuance are modelled as never colliding. */
  ghost predicate Fresh(st: State, env: Env) {
    && env.newId !in Ids(st.users) && env.newId !in Ids(st.courses) && env.newId !in Ids(st.modules)
    && env.newId !in ProgressIds(st.progress) && env.newId !in Ids(st.leadership)
    && env.newId !in Ids(st.announcements) && env.newId !in Ids(st.events)
    && env.newToken !in st.tokens
  }

  /** The default content written by setup carries its own distinct ids. */
  ghost predicate SeedFits(st: State, seed: Seed) {
    DistinctIds(st.courses + seed.courses) && DistinctIds(st.modules + seed.modules) && DistinctIds(seed.leadership)
  }

  function Step(st: State, req: Request, env: Env): (r: Result<State, HttpError>)
    requires Fresh(st, env)
    ensures r.Success? ==> r.value.setupComplete == (st.setupComplete || req.InitializeReq?)
  {
    match req
    case SignupReq(form) =>
      var reply :- Signup(st, form, env.newId, env.hash, env.now, env.later, env.newToken);
      Success(reply.state)
    case LoginReq(email, password) =>
      var reply :- Login(st, email, password, env.verify, env.now, env.later, env.newToken);
      Success(reply.state)
    case InitializeReq(admin, seed) =>
      var reply :- Initialize(st, admin, env.newId, env.hash, env.now, env.later, env.newToken, seed);
      Success(reply.state)
    case ApproveReq(token, userId) => ApproveUser(st, token, userId)
    case MentorshipReq(token, userId, grant) => SetMentorship(st, token, userId, grant)
    case ArchiveUserReq(token, userId) => ArchiveUser(st, token, userId)
    case CreateCourseReq(token, info) => CreateCourse(st, token, info, env.newId, env.now)
    case UpdateCourseReq(token, courseId, info) => UpdateCourse(st, token, courseId, info)
    case ArchiveCourseReq(token, courseId) => ArchiveCourse(st, token, courseId)
    case CreateModuleReq(token, info) => CreateModule(st, token, info, env.newId, env.now)
    case UpdateModuleReq(token, moduleId, info) => UpdateModule(st, token, moduleId, info)
    case ArchiveModuleReq(token, moduleId) => ArchiveModule(st, token, moduleId)
    case ReorderModulesReq(token, items) => ReorderModules(st, token, items)
    case ProgressReq(token, moduleId, completed) =>
      var reply :- UpdateProgress(st, token, moduleId, completed, env.newId, env.now);
      Success(reply.state)
    case CreateLeaderReq(token, info) => CreateLeader(st, token, info, env.newId, env.now)
    case UpdateLeaderReq(token, memberId, info) => UpdateLeader(st, token, memberId, info)
    case ArchiveLeaderReq(token, memberId) => ArchiveLeader(st, token, memberId)
    case ReorderLeadershipReq(token, items) => ReorderLeadership(st, token, items)
    case CreateAnnouncementReq(token, info) => CreateAnnouncement(st, token, info, env.newId, env.now)
    case UpdateAnnouncementReq(token, annId, info) => UpdateAnnouncement(st, token, annId, info)
    case ArchiveAnnouncementReq(token, annId) => ArchiveAnnouncement(st, token, annId)
    case CreateEventReq(token, info) => CreateEvent(st, token, info, env.newId, env.now)
    case UpdateEventReq(token, eventId, info) => UpdateEvent(st, token, eventId, info)
    case ArchiveEventReq(token, eventId) => ArchiveEvent(st, token, eventId)
    case SectionReq(token, section, content) => UpdateSection(st, token, section, content, env.now)
    case CoachReq(token, name, bio, achievements, imageUrl) =>
      ReplaceCoach(st, token, name, bio, achievements, imageUrl, env.now)
  }

  // ---------- sequence facts ----------

  lemma AppendFresh<B>(s: seq<Doc<B>>, d: Doc<B>)
    requires d.id !in Ids(s)
    requires DistinctIds(s)
    ensures DistinctIds(s + [d])
    ensures Ids(s + [d]) == Ids(s) + {d.id}
  {
    var t := s + [d];
    forall i | 0 <= i < |s| ensures t[i].id != d.id {
      assert s[i].id in Ids(s);
    }
    forall x | x in Ids(s) ensures x in Ids(t) {
      var i :| 0 <= i < |s| && s[i].id == x;
      assert t[i].id == x;
    }
    assert t[|s|].id == d.id;
    forall x | x in Ids(t) ensures x in Ids(s) + {d.id} {
      var i :| 0 <= i < |t| && t[i].id == x;
      if i < |s| { assert s[i].id == x; }
    }
  }

  /** A write that keeps every user's id and email keeps the user invariants. */
  lemma SameUsers(users: seq<User>, users': seq<User>, tokens: map<Token, Id>)
    requires |users'| == |users|
    requires forall i :: 0 <= i < |users| ==> users'[i].id == users[i].id && users'[i].body.email == users[i].body.email
    requires DistinctIds(users) && UniqueEmails(users) && TokensResolve(tokens, users)
    ensures DistinctIds(users') && UniqueEmails(users') && TokensResolve(tokens, users')
  {
    SameIds(users, users');
  }

  /** Issuing a token for a stored id keeps every token resolving. */
  lemma IssueToken(tokens: map<Token, Id>, users: seq<User>, token: Token, id: Id)
    requires TokensResolve(tokens, users) && id in Ids(users)
    ensures TokensResolve(tokens[token := id], users)
  {
  }

  /** Appending a user with a fresh id and an unused email, and issuing a
      token for it, keeps the user invariants. */
  lemma AddUser(users: seq<User>, tokens: map<Token, Id>, u: User, token: Token)
    requires DistinctIds(users) && UniqueEmails(users) && TokensResolve(tokens, users)
    requires u.id !in Ids(users)
    requires forall i :: 0 <= i < |users| ==> users[i].body.email != u.body.email
    ensures DistinctIds(users + [u]) && UniqueEmails(users + [u])
    ensures TokensResolve(tokens[token := u.id], users + [u])
  {
    AppendFresh(users, u);
    var t := users + [u];
    forall i, j | 0 <= i < j < |t| ensures t[i].body.email != t[j].body.email {
      if j < |users| { assert t[i] == users[i] && t[j] == users[j]; }
    }
  }

  // ---------- one lemma per group of routes ----------

  lemma SignupKeepsValid(st: State, form: SignupForm, env: Env)
    requires Valid(st) && Fresh(st, env)
    ensures Step(st, SignupReq(form), env).Success? ==> Valid(Step(st, SignupReq(form), env).value)
  {
    var r := Signup(st, form, env.newId, env.hash, env.now, env.later, env.newToken);
    if r.Success? {
      var st' := r.value.state;
      var u := st'.users[|st.users|];
      assert st'.users == st.users + [u];
      assert st'.tokens == st.tokens[env.newToken := env.newId];
      forall i | 0 <= i < |st.users| ensures st.users[i].body.email != u.body.email {}
      AddUser(st.users, st.tokens, u, env.newToken);
    }
  }

  lemma LoginKeepsValid(st: State, email: string, password: string, env: Env)
    requires Valid(st) && Fresh(st, env)
    ensures Step(st, LoginReq(email, password), env).Success? ==> Valid(Step(st, LoginReq(email, password), env).value)
  {
    var r := Login(st, email, password, env.verify, env.now, env.later, env.newToken);
    if r.Success? {
      var st' := r.value.state;
      var u := st.users[IndexOfEmail(st.users, email).value];
      assert u.id in Ids(st.users);
      assert st'.tokens == st.tokens[env.newToken := u.id];
      SameUsers(st.users, st'.users, st.tokens);
      IssueToken(st.tokens, st'.users, env.newToken, u.id);
      assert st'.(users := st.users, tokens := st.tokens) == st;
    }
  }

  lemma InitializeKeepsValid(st: State, admin: AdminForm, seed: Seed, env: Env)
    requires Valid(st) && Fresh(st, env)
    requires SeedFits(st, seed)
    ensures Step(st, InitializeReq(admin, seed), env).Success? ==> Valid(Step(st, InitializeReq(admin, seed), env).value)
  {
    var r := Initialize(st, admin, env.newId, env.hash, env.now, env.later, env.newToken, seed);
    if r.Success? {
      var st' := r.value.state;
      var u := st'.users[|st.users|];
      assert st'.users == st.users + [u];
      assert st'.tokens == st.tokens[env.newToken := env.newId];
      forall i | 0 <= i < |st.users| ensures st.users[i].body.email != u.body.email {}
      AddUser(st.users, st.tokens, u, env.newToken);
      assert st'.courses == st.courses + seed.courses && st'.modules == st.modules + seed.modules;
      assert st'.leadership == seed.leadership && st'.progress == st.progress;
      assert st'.announcements == st.announcements && st'.events == st.events;
    }
  }

  lemma UserAdminKeepsValid(st: State, req: Request, env: Env)
    requires Valid(st) && Fresh(st, env)
    requires req.ApproveReq? || req.MentorshipReq? || req.ArchiveUserReq?
    ensures Step(st, req, env).Success? ==> Valid(Step(st, req, env).value)
  {
    var r := Step(st, req, env);
    if r.Success? {
      SameUsers(st.users, r.value.users, st.tokens);
    }
  }

  lemma CoursesKeepValid(st: State, req: Request, env: Env)
    requires Valid(st) && Fresh(st, env)
    requires req.CreateCourseReq? || req.UpdateCourseReq? || req.ArchiveCourseReq?
    ensures Step(st, req, env).Success? ==> Valid(Step(st, req, env).value)
  {
    var r := Step(st, req, env);
    if r.Success? {
      var st' := r.value;
      match req
      case CreateCourseReq(_, info) => AppendFresh(st.courses, Doc(env.newId, false, env.now, info));
      case UpdateCourseReq(_, _, _) => SameIds(st.courses, st'.courses);
      case ArchiveCourseReq(_, _) => SameIds(st.courses, st'.courses);
    }
  }

  lemma ModulesKeepValid(st: State, req: Request, env: Env)
    requires Valid(st) && Fresh(st, env)
    requires req.CreateModuleReq? || req.UpdateModuleReq? || req.ArchiveModuleReq? || req.ReorderModulesReq?
    ensures Step(st, req, env).Success? ==> Valid(Step(st, req, env).value)
  {
    var r := Step(st, req, env);
    if r.Success? {
      var st' := r.value;
      match req
      case CreateModuleReq(_, info) => AppendFresh(st.modules, Doc(env.newId, false, env.now, info));
      case UpdateModuleReq(_, _, _) => SameIds(st.modules, st'.modules);
      case ArchiveModuleReq(_, _) => SameIds(st.modules, st'.modules);
      case ReorderModulesReq(_, _) => SameIds(st.modules, st'.modules);
    }
  }

  lemma LeadershipKeepsValid(st: State, req: Request, env: Env)
    requires Valid(st) && Fresh(st, env)
    requires req.CreateLeaderReq? || req.UpdateLeaderReq? || req.ArchiveLeaderReq? || req.ReorderLeadershipReq?
    ensures Step(st, req, env).Success? ==> Valid(Step(st, req, env).value)
  {
    var r := Step(st, req, env);
    if r.Success? {
      var st' := r.value;
      match req
      case CreateLeaderReq(_, info) => AppendFresh(st.leadership, Doc(env.newId, false, env.now, info));
      case UpdateLeaderReq(_, _, _) => SameIds(st.leadership, st'.leadership);
      case ArchiveLeaderReq(_, _) => SameIds(st.leadership, st'.leadership);
      case ReorderLeadershipReq(_, _) => SameIds(st.leadership, st'.leadership);
    }
  }

  lemma AnnouncementsKeepValid(st: State, req: Request, env: Env)
    requires Valid(st) && Fresh(st, env)
    requires req.CreateAnnouncementReq? || req.UpdateAnnouncementReq? || req.ArchiveAnnouncementReq?
    ensures Step(st, req, env).Success? ==> Valid(Step(st, req, env).value)
  {
    var r := Step(st, req, env);
    if r.Success? {
      var st' := r.value;
      match req
      case CreateAnnouncementReq(_, info) => AppendFresh(st.announcements, Doc(env.newId, false, env.now, info));
      case UpdateAnnouncementReq(_, _, _) => SameIds(st.announcements, st'.announcements);
      case ArchiveAnnouncementReq(_, _) => SameIds(st.announcements, st'.announcements);
    }
  }

  lemma EventsKeepValid(st: State, req: Request, env: Env)
    requires Valid(st) && Fresh(st, env)
    requires req.CreateEventReq? || req.UpdateEventReq? || req.ArchiveEventReq?
    ensures Step(st, req, env).Success? ==> Valid(Step(st, req, env).value)
  {
    var r := Step(st, req, env);
    if r.Success? {
      var st' := r.value;
      match req
      case CreateEventReq(_, info) => AppendFresh(st.events, Doc(env.newId, false, env.now, info));
      case UpdateEventReq(_, _, _) => SameIds(st.events, st'.events);
      case ArchiveEventReq(_, _) => SameIds(st.events, st'.events);
    }
  }

  lemma SingletonsKeepValid(st: State, req: Request, env: Env)
    requires Valid(st) && Fresh(st, env)
    requires req.ProgressReq? || req.SectionReq? || req.CoachReq?
    ensures Step(st, req, env).Success? ==> Valid(Step(st, req, env).value)
  {
  }

  /** Every successful write keeps the store invariants. */
  lemma StepKeepsValid(st: State, req: Request, env: Env)
    requires Valid(st) && Fresh(st, env)
    requires req.InitializeReq? ==> SeedFits(st, req.seed)
    ensures Step(st, req, env).Success? ==> Valid(Step(st, req, env).value)
  {
    match req
    case SignupReq(form) => SignupKeepsValid(st, form, env);
    case LoginReq(email, password) => LoginKeepsValid(st, email, password, env);
    case InitializeReq(admin, seed) => InitializeKeepsValid(st, admin, seed, env);
    case ApproveReq(_, _) => UserAdminKeepsValid(st, req, env);
    case MentorshipReq(_, _, _) => UserAdminKeepsValid(st, req, env);
    case ArchiveUserReq(_, _) => UserAdminKeepsValid(st, req, env);
    case CreateCourseReq(_, _) => CoursesKeepValid(st, req, env);
    case UpdateCourseReq(_, _, _) => CoursesKeepValid(st, req, env);
    case ArchiveCourseReq(_, _) => CoursesKeepValid(st, req, env);
    case CreateModuleReq(_, _) => ModulesKeepValid(st, req, env);
    case UpdateModuleReq(_, _, _) => ModulesKeepValid(st, req, env);
    case ArchiveModuleReq(_, _) => ModulesKeepValid(st, req, env);
    case ReorderModulesReq(_, _) => ModulesKeepValid(st, req, env);
    case ProgressReq(_, _, _) => SingletonsKeepValid(st, req, env);
    case CreateLeaderReq(_, _) => LeadershipKeepsValid(st, req, env);
    case UpdateLeaderReq(_, _, _) => LeadershipKeepsValid(st, req, env);
    case ArchiveLeaderReq(_, _) => LeadershipKeepsValid(st, req, env);
    case ReorderLeadershipReq(_, _) => LeadershipKeepsValid(st, req, env);
    case CreateAnnouncementReq(_, _) => AnnouncementsKeepValid(st, req, env);
    case UpdateAnnouncementReq(_, _, _) => AnnouncementsKeepValid(st, req, env);
    case ArchiveAnnouncementReq(_, _) => AnnouncementsKeepValid(st, req, env);
    case CreateEventReq(_, _) => EventsKeepValid(st, req, env);
    case UpdateEventReq(_, _, _) => EventsKeepValid(st, req, env);
    case ArchiveEventReq(_, _) => EventsKeepValid(st, req, env);
    case SectionReq(_, _, _) => SingletonsKeepValid(st, req, env);
    case CoachReq(_, _, _, _, _) => SingletonsKeepValid(st, req, env);
  }

  /** The empty store satisfies the invariants. */
  lemma EmptyStoreValid()
    ensures Valid(EmptyStore)
  {
  }
}
