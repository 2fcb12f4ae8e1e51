/**
 * User administration (GET, POST and PUT /api/users): an admin-only listing, account
 * creation with a hashed password, and role changes, over a user table whose email
 * column is unique.
 */
module UsersRoute {
  import opened Wrappers
  import opened Roles
  import Sorting

  type UserId = nat

  /** A row of the User table; `password` holds the stored hash. */
  datatype User = User(id: UserId, name: string, email: string, password: string, role: Role, createdAt: int)

  /** The columns the handlers select: every column except the password. */
  datatype UserView = UserView(id: UserId, name: string, email: string, role: Role, createdAt: int)

  /** The server session; `role` is `session.user?.role`. */
  datatype Session = Session(role: Option<string>)

  /** The JSON body of POST; `role` is None when the field is omitted. */
  datatype CreateBody = CreateBody(name: Option<string>, email: Option<string>, password: Option<string>, role: Option<string>)

  /** The JSON body of PUT. */
  datatype UpdateBody = UpdateBody(userId: Option<UserId>, role: Option<string>)

  datatype UserError =
    | Unauthorized
    | MissingFields
    | InvalidRole
    | EmailTaken
    | UpdateFailed

  /** The HTTP status each error is reported with (`UpdateFailed` is Prisma's error for a missing id). */
  function Status(e: UserError): int
  {
    match e
    case Unauthorized => 401
    case MissingFields => 400
    case InvalidRole => 400
    case EmailTaken => 409
    case UpdateFailed => 500
  }

  function View(u: User): UserView
  {
    UserView(u.id, u.name, u.email, u.role, u.createdAt)
  }

  /** `!session || session.user?.role !== UserRole.ADMIN` fails. */
  predicate IsAdmin(session: Option<Session>)
  {
    session.Some? && session.value.role == Some(RoleName(Admin))
  }

  /** A JavaScript-truthy string field: present and not empty. */
  predicate Given(field: Option<string>)
  {
    field.Some? && field.value != ""
  }

  /** The destructuring default `role = UserRole.SALES` applies only when the field is omitted. */
  function RequestedRole(role: Option<string>): string
  {
    if role.None? then RoleName(Sales) else role.value
  }

  predicate EmailInUse(users: seq<User>, email: string)
  {
    exists i :: 0 <= i < |users| && users[i].email == email
  }

  /** The ordered checks of POST: 401, then 400 for missing fields, 400 for the role, 409 for the email. */
  function CheckCreate(users: seq<User>, session: Option<Session>, body: CreateBody): (r: Result<Role, UserError>)
    ensures r.Success? <==>
              && IsAdmin(session) && Given(body.name) && Given(body.email) && Given(body.password)
              && ParseRole(RequestedRole(body.role)).Some? && !EmailInUse(users, body.email.value)
    ensures r.Success? ==> RoleName(r.value) == RequestedRole(body.role)
  {
    if !IsAdmin(session) then Failure(Unauthorized)
    else if !Given(body.name) || !Given(body.email) || !Given(body.password) then Failure(MissingFields)
    else if ParseRole(RequestedRole(body.role)).None? then Failure(InvalidRole)
    else if EmailInUse(users, body.email.value) then Failure(EmailTaken)
    else Success(ParseRole(RequestedRole(body.role)).value)
  }

  /** The ordered checks of PUT: 401, then 400 for a missing id or role, then 400 for an unknown role. */
  function CheckUpdate(session: Option<Session>, body: UpdateBody): (r: Result<(UserId, Role), UserError>)
    ensures r.Success? <==> IsAdmin(session) && body.userId.Some? && Given(body.role) && ParseRole(body.role.value).Some?
    ensures r.Success? ==> r.value.0 == body.userId.value && RoleName(r.value.1) == body.role.value
  {
    if !IsAdmin(session) then Failure(Unauthorized)
    else if body.userId.None? || !Given(body.role) then Failure(MissingFields)
    else if ParseRole(body.role.value).None? then Failure(InvalidRole)
    else Success((body.userId.value, ParseRole(body.role.value).value))
  }

  /** The order in which the checks fire. */
  lemma CheckOrder(users: seq<User>, session: Option<Session>, create: CreateBody, update: UpdateBody)
    ensures !IsAdmin(session) ==>
              CheckCreate(users, session, create) == Failure(Unauthorized) && CheckUpdate(session, update) == Failure(Unauthorized)
              && Status(CheckCreate(users, session, create).error) == 401 && Status(CheckUpdate(session, update).error) == 401
    ensures (IsAdmin(session) && !(Given(create.name) && Given(create.email) && Given(create.password))) ==>
              CheckCreate(users, session, create) == Failure(MissingFields) && Status(CheckCreate(users, session, create).error) == 400
    ensures (IsAdmin(session) && Given(create.name) && Given(create.email) && Given(create.password)
             && create.role.None? && !EmailInUse(users, create.email.value)) ==>
              CheckCreate(users, session, create) == Success(Sales)
    ensures (IsAdmin(session) && create.role == Some("") && Given(create.name) && Given(create.email) && Given(create.password)) ==>
              CheckCreate(users, session, create) == Failure(InvalidRole)
    ensures IsAdmin(session) && update.role == Some("") ==> CheckUpdate(session, update) == Failure(MissingFields)
  {
  }

  /** The position of the user with id `id`, as the table's primary key finds it. */
  function FindById(users: seq<User>, id: UserId): (r: Option<nat>)
    ensures r.Some? ==> r.value < |users| && users[r.value].id == id
    ensures r.None? ==> forall i :: 0 <= i < |users| ==> users[i].id != id
  {
    if users == [] then None
    else if users[0].id == id then Some(0)
    else
      match FindById(users[1..], id)
      case None => None
      case Some(k) => Some(k + 1)
  }

  /** GET's ordering: `orderBy: { createdAt: "desc" }`. */
  function CreatedAtOf(v: UserView): int { v.createdAt }

  function Views(users: seq<User>): (r: seq<UserView>)
    ensures |r| == |users| && forall i :: 0 <= i < |users| ==> r[i] == View(users[i])
  {
    if users == [] then [] else [View(users[0])] + Views(users[1..])
  }

  /** The User table. New ids come from a counter, standing for the database's id generator. */
  class UserTable {
    var users: seq<User>
    var nextId: nat

    /** Ids are below the counter and distinct, and no email is used twice. */
    ghost predicate Valid()
      reads this
    {
      && (forall i :: 0 <= i < |users| ==> users[i].id < nextId)
      && (forall i, j :: 0 <= i < j < |users| ==> users[i].id != users[j].id && users[i].email != users[j].email)
    }

    constructor ()
      ensures Valid() && users == [] && nextId == 0
    {
      users := [];
      nextId := 0;
    }

    /** GET /api/users: every user, newest first, without the password. */
    method List(session: Option<Session>) returns (r: Result<seq<UserView>, UserError>)
      ensures r.Failure? <==> !IsAdmin(session)
      ensures r.Failure? ==> r.error == Unauthorized
      ensures r.Success? ==> && multiset(r.value) == multiset(Views(users))
                             && Sorting.NonIncreasing(r.value, CreatedAtOf)
    {
      if !IsAdmin(session) {
        return Failure(Unauthorized);
      }
      r := Success(Sorting.SortDesc(Views(users), CreatedAtOf));
    }

    /**
     * POST /api/users. On success exactly one user is appended, storing `hash(password)`
     * in the password column; on any error the table is unchanged.
     */
    method Create(session: Option<Session>, body: CreateBody, hash: string -> string, now: int)
      returns (r: Result<UserView, UserError>)
      requires Valid()
      modifies this
      ensures Valid()
      ensures r.Failure? ==> users == old(users) && nextId == old(nextId)
      ensures CheckCreate(old(users), session, body).Failure? ==> r == Failure(CheckCreate(old(users), session, body).error)
      ensures r.Success? <==> CheckCreate(old(users), session, body).Success?
      ensures r.Success? ==>
                var u := User(old(nextId), body.name.value, body.email.value, hash(body.password.value),
                              CheckCreate(old(users), session, body).value, now);
                && users == old(users) + [u]
                && nextId == old(nextId) + 1
                && r.value == View(u)
    {
      var checked := CheckCreate(users, session, body);
      if checked.Failure? {
        return Failure(checked.error);
      }
      var hashed := hash(body.password.value);
      var u := User(nextId, body.name.value, body.email.value, hashed, checked.value, now);
      users := users + [u];
      nextId := nextId + 1;
      r := Success(View(u));
    }

    /**
     * PUT /api/users. On success only the target user's role changes; every other field
     * and every other user is left as it was.
     */
    method UpdateRole(session: Option<Session>, body: UpdateBody) returns (r: Result<UserView, UserError>)
      requires Valid()
      modifies this
      ensures Valid() && nextId == old(nextId)
      ensures |users| == |old(users)|
      ensures r.Failure? ==> users == old(users)
      ensures CheckUpdate(session, body).Failure? ==> r == Failure(CheckUpdate(session, body).error)
      ensures (CheckUpdate(session, body).Success? && FindById(old(users), body.userId.value).None?) ==>
                r == Failure(UpdateFailed)
      ensures r.Success? <==> CheckUpdate(session, body).Success? && FindById(old(users), body.userId.value).Some?
      ensures r.Success? ==>
                && CheckUpdate(session, body).Success?
                && var k := FindById(old(users), body.userId.value).value;
                   && users == old(users)[k := old(users)[k].(role := CheckUpdate(session, body).value.1)]
                   && r.value == View(users[k])
    {
      var checked := CheckUpdate(session, body);
      if checked.Failure? {
        return Failure(checked.error);
      }
      var (id, role) := checked.value;
      var found := FindById(users, id);
      if found.None? {
        return Failure(UpdateFailed);
      }
      var k := found.value;
      users := users[k := users[k].(role := role)];
      r := Success(View(users[k]));
    }
  }

  /** A role update leaves every field but `role`, and every other user, unchanged. */
  lemma UpdateTouchesOnlyRole(users: seq<User>, k: nat, role: Role)
    requires k < |users|
    ensures var after := users[k := users[k].(role := role)];
            && |after| == |users|
            && (forall i :: 0 <= i < |users| && i != k ==> after[i] == users[i])
            && after[k].id == users[k].id && after[k].name == users[k].name && after[k].email == users[k].email
            && after[k].password == users[k].password && after[k].createdAt == users[k].createdAt
            && after[k].role == role
  {
  }
}
