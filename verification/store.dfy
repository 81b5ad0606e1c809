/** The data the FastAPI server keeps in MongoDB, as immutable values. Each
    collection is a sequence of documents in the store's natural order, so
    that `find_one` and `update_one` (which act on the first match) and the
    sorted list queries have a definite meaning. */
module Store {
  import opened Wrappers

  type Id = string
  type Token = string
  /** An ISO-8601 text as produced by `datetime.now(timezone.utc).isoformat()`. */
  type Timestamp = string

  /** Every list endpoint reads its query with `.to_list(1000)`. */
  const LIST_LIMIT: nat := 1000

  /** The `course_type` that `get_course_modules` gates on. */
  const MENTORSHIP: string := "mentorship"

  /** Only the server writes roles: "student" at signup, "admin" at setup. */
  datatype Role = Student | Admin

  /** Only the server writes statuses: "pending" at signup, "approved" by an
      admin or at setup. Archiving is a separate flag, not a status. */
  datatype Status = Pending | Approved

  function RoleName(r: Role): string {
    match r
    case Student => "student"
    case Admin => "admin"
  }

  function StatusName(s: Status): string {
    match s
    case Pending => "pending"
    case Approved => "approved"
  }

  /** One stored document: the fields every soft-deletable record has, and a
      body holding the fields an update handler's `$set` replaces. */
  datatype Doc<B> = Doc(id: Id, archived: bool, createdAt: Timestamp, body: B)

  datatype Profile = Profile(
    fullName: string,
    email: string,
    passwordHash: string,
    role: Role,
    status: Status,
    mentorshipAccess: bool,
    batch: Option<string>,
    reason: Option<string>,
    lastLogin: Timestamp)

  /** The fields of `CourseCreate`; `course_type` is free text. */
  datatype CourseInfo = CourseInfo(
    title: string,
    description: string,
    outline: string,
    courseType: string,
    orderNumber: int)

  /** The fields of `ModuleCreate`; an update replaces all of them but `courseId`. */
  datatype ModuleInfo = ModuleInfo(
    courseId: Id,
    title: string,
    duration: Option<string>,
    videoLink: Option<string>,
    pdfLink: Option<string>,
    orderNumber: int)

  datatype Leader = Leader(name: string, position: string, photoUrl: Option<string>, orderNumber: int)

  datatype AnnouncementInfo = AnnouncementInfo(title: string, content: string, imageUrl: Option<string>)

  datatype EventInfo = EventInfo(title: string, description: string, imageUrl: Option<string>, date: string)

  type User = Doc<Profile>
  type Course = Doc<CourseInfo>
  type Module = Doc<ModuleInfo>
  type LeadershipMember = Doc<Leader>
  type Announcement = Doc<AnnouncementInfo>
  type SuccessEvent = Doc<EventInfo>

  /** A progress record has no `archived` flag and is never deleted. */
  datatype Progress = Progress(
    id: Id,
    userId: Id,
    moduleId: Id,
    completed: bool,
    completedAt: Option<Timestamp>)

  datatype Section = Section(content: string, updatedAt: Timestamp)

  datatype Coach = Coach(name: string, bio: string, achievements: string, imageUrl: Option<string>, updatedAt: Timestamp)

  /** The whole store. `tokens` stands for the signed JWTs the server has
      issued: each resolves to the `sub` (user id) it was issued for. */
  datatype State = State(
    users: seq<User>,
    courses: seq<Course>,
    modules: seq<Module>,
    progress: seq<Progress>,
    leadership: seq<LeadershipMember>,
    announcements: seq<Announcement>,
    events: seq<SuccessEvent>,
    homepage: map<string, Section>,
    coach: Option<Coach>,
    setupComplete: bool,
    tokens: map<Token, Id>)

  /** An `HTTPException(status_code, detail)`. */
  datatype HttpError = HttpError(code: int, detail: string)

  const EmptyStore := State([], [], [], [], [], [], [], map[], None, false, map[])
}
