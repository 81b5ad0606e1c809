/** The auth and one-time setup routes: signup, login, `/auth/me`, setup
    status and system initialization. Password hashing and token signing are
    outside the model: the hash and the fresh token are parameters. */
module Auth {
  import opened Wrappers
  import opened Store
  import opened Docs
  import opened Guards

  const EMAIL_TAKEN := HttpError(400, "Email already registered")
  const INVALID_CREDENTIALS := HttpError(401, "Invalid credentials")
  const ALREADY_INITIALIZED := HttpError(400, "System already initialized")

  /** `UserResponse`: a user as the server sends it, role and status as text. */
  datatype UserView = UserView(
    id: Id,
    fullName: string,
    email: string,
    role: string,
    status: string,
    mentorshipAccess: bool,
    batch: Option<string>,
    lastLogin: Timestamp,
    createdAt: Timestamp)

  /** `TokenResponse`; the token type is always "bearer". */
  datatype Session = Session(accessToken: Token, user: UserView)

  /** A handler's new store together with its response body. */
  datatype Reply<T> = Reply(state: State, out: T)

  datatype SignupForm = SignupForm(fullName: string, email: string, password: string, batch: Option<string>, reason: Option<string>)

  datatype AdminForm = AdminForm(fullName: string, email: string, password: string)

  /** The fixed content `initialize_default_content` writes. */
  datatype Seed = Seed(
    homepage: map<string, Section>,
    leadership: seq<LeadershipMember>,
    coach: Coach,
    courses: seq<Course>,
    modules: seq<Module>)

  function View(u: User): (v: UserView)
    ensures v.id == u.id && v.email == u.body.email
    ensures v.role == "admin" <==> u.body.role == Admin
    ensures v.status == "approved" <==> u.body.status == Approved
    ensures v.status == "pending" <==> u.body.status == Pending
    ensures v.mentorshipAccess == u.body.mentorshipAccess
  {
    UserView(u.id, u.body.fullName, u.body.email, RoleName(u.body.role), StatusName(u.body.status),
             u.body.mentorshipAccess, u.body.batch, u.body.lastLogin, u.createdAt)
  }

  /** The user `find_one({"email": email})` returns, archived or not. */
  function IndexOfEmail(users: seq<User>, email: string): (r: Option<nat>)
    ensures r.Some? ==> r.value < |users| && users[r.value].body.email == email
    ensures r.Some? ==> forall j :: 0 <= j < r.value ==> users[j].body.email != email
    ensures r.None? <==> forall j :: 0 <= j < |users| ==> users[j].body.email != email
  {
    Lists.FirstIndex(users, (u: User) => u.body.email == email)
  }

  /** `POST /auth/signup`. The handler reads the clock twice: `now` is the
      read that fills `last_login` and `later` the one that fills `created_at`. */
  function Signup(st: State, form: SignupForm, newId: Id, hash: string, now: Timestamp, later: Timestamp, token: Token)
    : (r: Result<Reply<Session>, HttpError>)
    requires newId !in Ids(st.users)
    requires token !in st.tokens
    ensures r.Failure? <==> exists i :: 0 <= i < |st.users| && st.users[i].body.email == form.email
    ensures r.Failure? ==> r.error == EMAIL_TAKEN
    ensures r.Success? ==>
      var st' := r.value.state;
      && |st'.users| == |st.users| + 1
      && st'.users[..|st.users|] == st.users
      && st'.tokens == st.tokens[token := newId]
      && st'.(users := st.users, tokens := st.tokens) == st
    ensures r.Success? ==>
      var st' := r.value.state;
      var u := st'.users[|st.users|];
      && u.id == newId && !u.archived
      && u.body.role == Student && u.body.status == Pending && !u.body.mentorshipAccess
      && u.body.email == form.email && u.body.fullName == form.fullName
      && u.body.passwordHash == hash && u.body.batch == form.batch && u.body.reason == form.reason
      && u.body.lastLogin == now && u.createdAt == later
      && CurrentUser(st', r.value.out.accessToken) == Success(u)
      && r.value.out.user == View(u)
  {
    if IndexOfEmail(st.users, form.email).Some? then Failure(EMAIL_TAKEN)
    else
      var u := Doc(newId, false, later,
                   Profile(form.fullName, form.email, hash, Student, Pending, false, form.batch, form.reason, now));
      var st' := st.(users := st.users + [u], tokens := st.tokens[token := newId]);
      assert IndexOfId(st'.users, newId) == Some(|st.users|) by {
        assert newId in Ids(st'.users) by { assert st'.users[|st.users|].id == newId; }
        assert forall j :: 0 <= j < |st.users| ==> st'.users[j].id == st.users[j].id && st.users[j].id in Ids(st.users);
      }
      Success(Reply(st', Session(token, View(u))))
  }

  /** `POST /auth/login`: the first user with the email, if the password
      verifies; `last_login` is refreshed on the first user with its id.
      The clock is read twice: `now` is the stamp stored by the update and
      `later` the one put into the response, so the two need not agree. */
  function Login(st: State, email: string, password: string, verify: (string, string) -> bool,
                 now: Timestamp, later: Timestamp, token: Token)
    : (r: Result<Reply<Session>, HttpError>)
    requires token !in st.tokens
    ensures r.Success? <==>
      IndexOfEmail(st.users, email).Some? && verify(password, st.users[IndexOfEmail(st.users, email).value].body.passwordHash)
    ensures r.Failure? ==> r.error == INVALID_CREDENTIALS
    ensures r.Success? ==>
      var st' := r.value.state;
      var u := st.users[IndexOfEmail(st.users, email).value];
      && st'.(users := st.users, tokens := st.tokens) == st
      && st'.tokens == st.tokens[token := u.id]
      && |st'.users| == |st.users|
      && u.id in Ids(st.users)
      && st'.users[IndexOfId(st.users, u.id).value] == LoggedInAt(st.users[IndexOfId(st.users, u.id).value], now)
      && (forall i :: 0 <= i < |st.users| && i != IndexOfId(st.users, u.id).value ==> st'.users[i] == st.users[i])
      && st'.users[IndexOfId(st.users, u.id).value].body.lastLogin == now
      && r.value.out.user == View(LoggedInAt(u, later))
      && r.value.out.user.lastLogin == later
      && CurrentUser(st', r.value.out.accessToken).Success?
      && CurrentUser(st', r.value.out.accessToken).value.id == u.id
  {
    match IndexOfEmail(st.users, email)
    case None => Failure(INVALID_CREDENTIALS)
    case Some(k) =>
      var u := st.users[k];
      if !verify(password, u.body.passwordHash) then Failure(INVALID_CREDENTIALS)
      else
        assert u.id in Ids(st.users);
        var st' := st.(users := RefreshLogin(st.users, u.id, now), tokens := st.tokens[token := u.id]);
        Success(Reply(st', Session(token, View(LoggedInAt(u, later)))))
  }

  /** A user whose `last_login` is `now`. */
  function LoggedInAt(u: User, now: Timestamp): User {
    u.(body := u.body.(lastLogin := now))
  }

  /** The `update_one` that sets `last_login` on the first user with the id:
      that user alone is stamped, and nothing changes when no user has it. */
  function RefreshLogin(users: seq<User>, id: Id, now: Timestamp): (r: seq<User>)
    ensures |r| == |users|
    ensures Ids(r) == Ids(users)
    ensures id !in Ids(users) ==> r == users
    ensures id in Ids(users) ==>
      var k := IndexOfId(users, id).value;
      && r[k] == LoggedInAt(users[k], now)
      && r[k].body.lastLogin == now
      && forall i :: 0 <= i < |users| && i != k ==> r[i] == users[i]
  {
    match IndexOfId(users, id)
    case None => users
    case Some(j) =>
      var r := users[j := LoggedInAt(users[j], now)];
      assert forall i :: 0 <= i < |users| ==> r[i].id == users[i].id;
      assert Ids(r) == Ids(users) by {
        forall x | x in Ids(users) ensures x in Ids(r) {
          var i :| 0 <= i < |users| && users[i].id == x;
          assert r[i].id == x;
        }
      }
      r
  }

  /** A new account can log in at once: when the stored hash verifies the
      password given at sign-up, logging in with the same email succeeds and
      its token resolves to the new user. */
  lemma SignupThenLogin(st: State, form: SignupForm, newId: Id, hash: string, now: Timestamp, later: Timestamp, token: Token,
                        verify: (string, string) -> bool, now2: Timestamp, later2: Timestamp, token2: Token)
    requires newId !in Ids(st.users)
    requires token !in st.tokens
    requires Signup(st, form, newId, hash, now, later, token).Success?
    requires token2 !in Signup(st, form, newId, hash, now, later, token).value.state.tokens
    requires verify(form.password, hash)
    ensures var st1 := Signup(st, form, newId, hash, now, later, token).value.state;
      var r := Login(st1, form.email, form.password, verify, now2, later2, token2);
      && r.Success?
      && CurrentUser(r.value.state, r.value.out.accessToken).Success?
      && CurrentUser(r.value.state, r.value.out.accessToken).value.id == newId
  {
    var st1 := Signup(st, form, newId, hash, now, later, token).value.state;
    var k := |st.users|;
    assert st1.users[k].body.email == form.email;
    assert IndexOfEmail(st1.users, form.email) == Some(k) by {
      forall j | 0 <= j < k ensures st1.users[j].body.email != form.email {
        assert st1.users[j] == st.users[j];
      }
    }
  }

  /** `GET /auth/me`. */
  function GetMe(st: State, token: Token): (r: Result<UserView, HttpError>)
    ensures r.Success? <==> CurrentUser(st, token).Success?
    ensures r.Success? ==> r.value == View(CurrentUser(st, token).value)
    ensures r.Failure? ==> r.error == CurrentUser(st, token).error
  {
    var u :- CurrentUser(st, token);
    Success(View(u))
  }

  /** `GET /setup/status`: reports setup complete exactly when a call to
      initialize would be refused as already initialized. */
  function SetupStatus(st: State): (complete: bool)
    ensures forall form, newId, hash, now, later, token, seed | newId !in Ids(st.users) && token !in st.tokens ::
      complete <==> Initialize(st, form, newId, hash, now, later, token, seed) == Failure(ALREADY_INITIALIZED)
  {
    st.setupComplete
  }

  /** `POST /setup/initialize`: creates the first admin, writes the default
      content, and sets the setup flag. As in signup, `now` fills the admin's
      `last_login` and the second clock read `later` its `created_at`. */
  function Initialize(st: State, form: AdminForm, newId: Id, hash: string, now: Timestamp, later: Timestamp, token: Token, seed: Seed)
    : (r: Result<Reply<Session>, HttpError>)
    requires newId !in Ids(st.users)
    requires token !in st.tokens
    ensures st.setupComplete ==> r == Failure(ALREADY_INITIALIZED)
    ensures !st.setupComplete ==>
      (r.Failure? <==> exists i :: 0 <= i < |st.users| && st.users[i].body.email == form.email)
    ensures !st.setupComplete && r.Failure? ==> r.error == EMAIL_TAKEN
    ensures r.Success? ==>
      var st' := r.value.state;
      && st'.setupComplete
      && st'.tokens == st.tokens[token := newId]
      && |st'.users| == |st.users| + 1
      && st'.users[..|st.users|] == st.users
      && st'.progress == st.progress && st'.announcements == st.announcements && st'.events == st.events
      && st'.homepage == seed.homepage && st'.leadership == seed.leadership && st'.coach == Some(seed.coach)
      && st'.courses == st.courses + seed.courses && st'.modules == st.modules + seed.modules
    ensures r.Success? ==>
      var st' := r.value.state;
      var u := st'.users[|st.users|];
      && u.id == newId && !u.archived
      && u.body.role == Admin && u.body.status == Approved && u.body.mentorshipAccess
      && u.body.email == form.email && u.body.fullName == form.fullName
      && u.body.passwordHash == hash && u.body.batch == None && u.body.reason == None
      && u.body.lastLogin == now && u.createdAt == later
      && CurrentUser(st', r.value.out.accessToken) == Success(u)
      && r.value.out.user == View(u)
  {
    if st.setupComplete then Failure(ALREADY_INITIALIZED)
    else if IndexOfEmail(st.users, form.email).Some? then Failure(EMAIL_TAKEN)
    else
      var u := Doc(newId, false, later,
                   Profile(form.fullName, form.email, hash, Admin, Approved, true, None, None, now));
      var st' := State(st.users + [u], st.courses + seed.courses, st.modules + seed.modules, st.progress,
                       seed.leadership, st.announcements, st.events, seed.homepage, Some(seed.coach),
                       true, st.tokens[token := newId]);
      assert IndexOfId(st'.users, newId) == Some(|st.users|) by {
        assert newId in Ids(st'.users) by { assert st'.users[|st.users|].id == newId; }
        assert forall j :: 0 <= j < |st.users| ==> st'.users[j].id == st.users[j].id && st.users[j].id in Ids(st.users);
      }
      Success(Reply(st', Session(token, View(u))))
  }

  /** Setup succeeds at most once: after a successful initialization every
      further attempt fails with 400, whatever its payload. */
  lemma InitializeOnlyOnce(st: State, form: AdminForm, newId: Id, hash: string, now: Timestamp, later: Timestamp, token: Token, seed: Seed,
                           form2: AdminForm, newId2: Id, hash2: string, now2: Timestamp, later2: Timestamp, token2: Token, seed2: Seed)
    requires newId !in Ids(st.users) && token !in st.tokens
    requires Initialize(st, form, newId, hash, now, later, token, seed).Success?
    requires var st' := Initialize(st, form, newId, hash, now, later, token, seed).value.state;
      newId2 !in Ids(st'.users) && token2 !in st'.tokens
    ensures var st' := Initialize(st, form, newId, hash, now, later, token, seed).value.state;
      Initialize(st', form2, newId2, hash2, now2, later2, token2, seed2) == Failure(ALREADY_INITIALIZED)
  {
  }
}
