/**
 * The tables of the CDF tracker's database (the files under backend/models) and the closed
 * enumerations their columns use. The database session is the class `Db`: one
 * field per table, id-keyed tables as maps with the next autoincrement id beside
 * them, and the constituency table as a sequence in insertion order.
 */
module Models {
  import opened Common

  /** A point in time (`datetime`), as an opaque ordered number. */
  type Timestamp = int

  // ---------------------------------------------------------------------------
  // Closed enumerations (str-valued Python enums)

  datatype Category = Education | Health | Water | Infrastructure | Security | Environment | Other

  function CategoryName(c: Category): string
  {
    match c
    case Education => "Education"
    case Health => "Health"
    case Water => "Water"
    case Infrastructure => "Infrastructure"
    case Security => "Security"
    case Environment => "Environment"
    case Other => "Other"
  }

  /** `ProjectCategory(value)`: the member whose value is exactly `s`, if any. */
  function CategoryFromName(s: string): (r: Option<Category>)
    ensures r.Some? ==> CategoryName(r.value) == s
    ensures r.None? ==> forall c :: CategoryName(c) != s
  {
    if s == "Education" then Some(Education)
    else if s == "Health" then Some(Health)
    else if s == "Water" then Some(Water)
    else if s == "Infrastructure" then Some(Infrastructure)
    else if s == "Security" then Some(Security)
    else if s == "Environment" then Some(Environment)
    else if s == "Other" then Some(Other)
    else None
  }

  datatype ProjectStatus = Planned | Ongoing | Completed | Flagged

  function StatusName(s: ProjectStatus): string
  {
    match s
    case Planned => "Planned"
    case Ongoing => "Ongoing"
    case Completed => "Completed"
    case Flagged => "Flagged"
  }

  /** `ProjectStatus(value)`. */
  function StatusFromName(s: string): (r: Option<ProjectStatus>)
    ensures r.Some? ==> StatusName(r.value) == s
    ensures r.None? ==> forall st :: StatusName(st) != s
  {
    if s == "Planned" then Some(Planned)
    else if s == "Ongoing" then Some(Ongoing)
    else if s == "Completed" then Some(Completed)
    else if s == "Flagged" then Some(Flagged)
    else None
  }

  datatype UserRole = Admin | Moderator | Viewer

  function RoleName(r: UserRole): string
  {
    match r
    case Admin => "admin"
    case Moderator => "moderator"
    case Viewer => "viewer"
  }

  /** `UserRole(value)`. */
  function RoleFromName(s: string): (r: Option<UserRole>)
    ensures r.Some? ==> RoleName(r.value) == s
    ensures r.None? ==> forall role :: RoleName(role) != s
  {
    if s == "admin" then Some(Admin)
    else if s == "moderator" then Some(Moderator)
    else if s == "viewer" then Some(Viewer)
    else None
  }

  datatype UserStatus = Active | Disabled

  function UserStatusName(s: UserStatus): string
  {
    match s
    case Active => "active"
    case Disabled => "disabled"
  }

  /** `UserStatus(value)`. */
  function UserStatusFromName(s: string): (r: Option<UserStatus>)
    ensures r.Some? ==> UserStatusName(r.value) == s
    ensures r.None? ==> forall st :: UserStatusName(st) != s
  {
    if s == "active" then Some(Active)
    else if s == "disabled" then Some(Disabled)
    else None
  }

  // ---------------------------------------------------------------------------
  // Rows

  /** backend/models/project.py */
  datatype Project = Project(
    id: int,
    title: string,
    description: Option<string>,
    category: Category,
    status: ProjectStatus,
    budget: real,
    spent: Option<real>,
    progress: Option<real>,
    constituencyCode: string,
    startDate: Option<Timestamp>,
    completionDate: Option<Timestamp>,
    isMock: bool,
    sourceName: Option<string>,
    sourceUrl: Option<string>,
    sourceDocRef: Option<string>,
    lastUpdated: Timestamp)

  /** backend/models/constituency.py (primary key `code`) */
  datatype Constituency = Constituency(
    code: string,
    name: string,
    county: string,
    mpName: string,
    population: Option<int>,
    pasScore: Option<real>)

  /** backend/models/contractor.py */
  datatype Contractor = Contractor(
    id: int,
    name: string,
    phone: Option<string>,
    email: Option<string>,
    registrationNo: Option<string>,
    address: Option<string>,
    createdAt: Timestamp)

  /** backend/models/procurement_award.py */
  datatype Award = Award(
    id: int,
    projectId: int,
    contractorId: int,
    tenderId: Option<string>,
    procurementMethod: Option<string>,
    contractValue: Option<real>,
    awardDate: Option<Timestamp>,
    contractorShareHint: Option<real>,
    performanceFlag: Option<bool>,
    performanceFlagReason: Option<string>,
    createdAt: Timestamp)

  /** backend/models/feedback.py; `status` is a free string column ("pending" by default). */
  datatype Feedback = Feedback(
    id: int,
    projectId: int,
    name: Option<string>,
    email: Option<string>,
    message: string,
    ipAddress: Option<string>,
    status: string,
    createdAt: Timestamp)

  /** backend/models/project_image.py */
  datatype ProjectImage = ProjectImage(
    id: int,
    projectId: int,
    filename: string,
    objectName: string,
    caption: Option<string>,
    uploadedBy: string,
    uploadedAt: Timestamp)

  /** backend/models/user.py; `passwordHash` is whatever the password hasher produced. */
  datatype User = User(
    id: int,
    username: string,
    passwordHash: string,
    fullName: Option<string>,
    email: Option<string>,
    role: UserRole,
    status: UserStatus,
    createdAt: Timestamp,
    lastLogin: Option<Timestamp>)

  // ---------------------------------------------------------------------------
  // Table invariants

  predicate ProjectsValid(m: map<int, Project>, next: int)
  {
    IdsBelow(m, next) && forall k :: k in m ==> m[k].id == k
  }

  predicate AwardsValid(m: map<int, Award>, next: int)
  {
    IdsBelow(m, next) && forall k :: k in m ==> m[k].id == k
  }

  predicate ContractorsValid(m: map<int, Contractor>, next: int)
  {
    IdsBelow(m, next) && forall k :: k in m ==> m[k].id == k
  }

  predicate FeedbackValid(m: map<int, Feedback>, next: int)
  {
    IdsBelow(m, next) && forall k :: k in m ==> m[k].id == k
  }

  predicate ImagesValid(m: map<int, ProjectImage>, next: int)
  {
    IdsBelow(m, next) && forall k :: k in m ==> m[k].id == k
  }

  predicate UsersValid(m: map<int, User>, next: int)
  {
    IdsBelow(m, next) && forall k :: k in m ==> m[k].id == k
  }

  /**
   * At most one award per project. The award table itself does not enforce
   * it; `create_award` keeps it.
   */
  predicate OneAwardPerProject(m: map<int, Award>)
  {
    forall a, b :: a in m && b in m && m[a].projectId == m[b].projectId ==> a == b
  }

  /**
   * Some award refers to project `id`. Deleting that project makes the ORM set
   * the award's NOT NULL `project_id` to NULL, so the commit fails.
   */
  predicate AwardOfProjectExists(m: map<int, Award>, id: int)
  {
    exists k :: k in m && m[k].projectId == id
  }

  /** Some award refers to contractor `id`; deleting the contractor fails the same way. */
  predicate AwardOfContractorExists(m: map<int, Award>, id: int)
  {
    exists k :: k in m && m[k].contractorId == id
  }

  /** The primary key of the constituency table. */
  predicate CodesUnique(cs: seq<Constituency>)
  {
    forall i, j :: 0 <= i < j < |cs| ==> cs[i].code != cs[j].code
  }

  /** The unique index on `user.username`. */
  predicate UsernamesUnique(m: map<int, User>)
  {
    forall a, b :: a in m && b in m && m[a].username == m[b].username ==> a == b
  }

  /** `session.get(Constituency, code)`: position of the row with that key. */
  function FindConstituency(cs: seq<Constituency>, code: string): (r: Option<nat>)
    ensures r.Some? ==> r.value < |cs| && cs[r.value].code == code
    ensures r.None? ==> forall i :: 0 <= i < |cs| ==> cs[i].code != code
  {
    if cs == [] then None
    else if cs[|cs| - 1].code == code then Some(|cs| - 1)
    else FindConstituency(cs[..|cs| - 1], code)
  }

  /**
   * `select(User).where(User.username == name).first()`: the user with that
   * name (the lowest id, although the unique index allows at most one).
   */
  function UserByName(users: map<int, User>, next: int, name: string): (r: Option<int>)
    ensures r.Some? ==> r.value in users && users[r.value].username == name
    ensures r.None? && IdsBelow(users, next) ==> forall k :: k in users ==> users[k].username != name
  {
    FirstWhere(users, (u: User) => u.username == name, 1, next)
  }

  /** Under the unique index the lookup finds the one user with that name. */
  lemma UserByNameFindsUnique(users: map<int, User>, next: int, k: int)
    requires UsersValid(users, next) && UsernamesUnique(users) && k in users
    ensures UserByName(users, next, users[k].username) == Some(k)
  {
  }

  /** The database, as seen through one session. */
  class Db {
    var projects: map<int, Project>
    var nextProjectId: int
    var constituencies: seq<Constituency>
    var awards: map<int, Award>
    var nextAwardId: int
    var contractors: map<int, Contractor>
    var nextContractorId: int
    var feedback: map<int, Feedback>
    var nextFeedbackId: int
    var images: map<int, ProjectImage>
    var nextImageId: int
    var users: map<int, User>
    var nextUserId: int

    ghost predicate Valid()
      reads this
    {
      && ProjectsValid(projects, nextProjectId)
      && CodesUnique(constituencies)
      && AwardsValid(awards, nextAwardId)
      && ContractorsValid(contractors, nextContractorId)
      && FeedbackValid(feedback, nextFeedbackId)
      && ImagesValid(images, nextImageId)
      && UsersValid(users, nextUserId)
      && UsernamesUnique(users)
    }

    /** An empty database whose autoincrement sequences start at 1. */
    constructor ()
      ensures Valid()
      ensures projects == map[] && constituencies == [] && awards == map[] && contractors == map[]
      ensures feedback == map[] && images == map[] && users == map[]
      ensures nextProjectId == nextAwardId == nextContractorId == nextFeedbackId == 1
      ensures nextImageId == nextUserId == 1
    {
      projects, nextProjectId := map[], 1;
      constituencies := [];
      awards, nextAwardId := map[], 1;
      contractors, nextContractorId := map[], 1;
      feedback, nextFeedbackId := map[], 1;
      images, nextImageId := map[], 1;
      users, nextUserId := map[], 1;
    }
  }
}
