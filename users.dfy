/** The user store: argument routing with JavaScript truthiness, the read-only
    queries as functions of the user table, and the service whose methods
    create, update and delete records in place. The database is an in-memory
    table of records keyed by their id. */
module Users {
  import opened Common
  import opened Credentials
  import Roles

  /** A stored user record. `password` is always a salted hash. */
  datatype User = User(id: int, name: string, email: string, password: PasswordHash,
                       role: Roles.Role, picture: Option<string>, isValidMail: bool,
                       updatedAt: int)

  /** The fields a registration supplies; `role` may be left out. */
  datatype NewUser = NewUser(name: string, email: string, password: string, role: Option<Roles.Role>)

  /** The fields of a partial update; an absent field keeps its old value. */
  datatype UserPatch = UserPatch(name: Option<string>, email: Option<string>, password: Option<string>,
                                 role: Option<Roles.Role>, picture: Option<string>)

  /** A lookup argument: a number (an id), a string (an email), or
      `undefined`, which arises inside `getOne` as `id || email` when the id
      is 0. */
  datatype Arg = Num(n: int) | Str(s: string) | Undefined

  /** The `{ id, email }` pair, each part possibly `undefined`. */
  datatype IdAndEmail = IdAndEmail(id: Option<int>, email: Option<string>)

  /** The `where` object of a database query. */
  datatype QueryObject = ById(id: int) | ByEmail(email: string)

  const DefaultRole := Roles.User
  const EitherIdOrEmail := BadRequest("Either id or email must be provided")
  const UserNotFound := NotFound("User not found")
  const EmailAlreadyTaken := BadRequest("User with this email already exists")

  /** JavaScript truthiness: 0 and `undefined` are falsy ids, "" and
      `undefined` are falsy emails. */
  predicate TruthyId(id: Option<int>) {
    id.Some? && id.value != 0
  }

  predicate TruthyEmail(email: Option<string>) {
    email.Some? && email.value != ""
  }

  /** An argument that names a user: a nonzero number or a nonempty string. */
  predicate Addressable(arg: Arg) {
    (arg.Num? && arg.n != 0) || (arg.Str? && arg.s != "")
  }

  /** The record `u` is the one `arg` names. */
  predicate Selects(arg: Arg, u: User) {
    match arg
    case Num(n) => u.id == n
    case Str(s) => u.email == s
    case Undefined => false
  }

  predicate Matches(u: User, q: QueryObject) {
    match q
    case ById(id) => u.id == id
    case ByEmail(email) => u.email == email
  }

  predicate EmailTaken(users: map<int, User>, email: string) {
    exists id :: id in users && users[id].email == email
  }

  /** Every record is stored under its own id. */
  predicate WellKeyed(users: map<int, User>) {
    forall id :: id in users ==> users[id].id == id
  }

  /** Routes a number to the id and a string to the email. */
  function GetEmailAndIdFromArg(arg: Arg): (r: IdAndEmail)
    ensures arg.Num? <==> r.id.Some?
    ensures arg.Str? <==> r.email.Some?
    ensures arg.Num? ==> r.id.value == arg.n
    ensures arg.Str? ==> r.email.value == arg.s
  {
    match arg
    case Num(n) => IdAndEmail(Some(n), None)
    case Str(s) => IdAndEmail(None, Some(s))
    case Undefined => IdAndEmail(None, None)
  }

  /** `id || email`: the id when it is truthy, otherwise the email as it is. */
  function IdOrEmail(ie: IdAndEmail): (arg: Arg)
    ensures Addressable(arg) <==> TruthyId(ie.id) || TruthyEmail(ie.email)
    ensures TruthyId(ie.id) ==> arg == Num(ie.id.value)
    ensures !TruthyId(ie.id) && ie.email.Some? ==> arg == Str(ie.email.value)
    ensures !TruthyId(ie.id) && ie.email.None? ==> arg == Undefined
  {
    if TruthyId(ie.id) then Num(ie.id.value)
    else if ie.email.Some? then Str(ie.email.value)
    else Undefined
  }

  /** Splitting an argument and joining it again with `||` gives the argument
      back, except that the id 0 is lost and becomes `undefined`. */
  lemma ArgumentRoundTrip(arg: Arg)
    ensures IdOrEmail(GetEmailAndIdFromArg(arg)) == (if arg == Num(0) then Undefined else arg)
  {
  }

  /** The query for an id and an email: refused when both are falsy, by id
      when the id is truthy, otherwise by email. */
  function GetQueryObjectByIdOrEmail(id: Option<int>, email: Option<string>): (r: Result<QueryObject>)
    ensures r.Err? <==> !TruthyId(id) && !TruthyEmail(email)
    ensures r.Err? ==> r.error == EitherIdOrEmail
    ensures TruthyId(id) ==> r == Ok(ById(id.value))
    ensures !TruthyId(id) && TruthyEmail(email) ==> r == Ok(ByEmail(email.value))
  {
    if !TruthyId(id) && !TruthyEmail(email) then Err(EitherIdOrEmail)
    else if TruthyId(id) then Ok(ById(id.value))
    else Ok(ByEmail(email.value))
  }

  /** The query an argument is routed to names exactly the records the
      argument selects; an argument that names nothing is refused. */
  lemma QueryOfArg(arg: Arg, u: User)
    ensures var ie := GetEmailAndIdFromArg(arg);
            var q := GetQueryObjectByIdOrEmail(ie.id, ie.email);
            && (q.Ok? <==> Addressable(arg))
            && (q.Ok? ==> (Matches(u, q.value) <==> Selects(arg, u)))
  {
  }

  /** The ids of the records a query matches. */
  function MatchingIds(users: map<int, User>, q: QueryObject): (ids: set<int>)
    ensures forall id :: id in ids <==> id in users && Matches(users[id], q)
  {
    set id | id in users && Matches(users[id], q)
  }

  /** The number of records a query matches (the database's `count`). */
  function Count(users: map<int, User>, q: QueryObject): (n: nat)
    ensures n <= |users|
  {
    var ids := MatchingIds(users, q);
    SubsetNoLarger(ids, users.Keys);
    |ids|
  }

  lemma SubsetNoLarger(a: set<int>, b: set<int>)
    requires a <= b
    ensures |a| <= |b|
  {
    assert b == a + (b - a);
  }

  lemma CountPositive(users: map<int, User>, q: QueryObject)
    ensures Count(users, q) > 0 <==> exists id :: id in users && Matches(users[id], q)
  {
    var ids := MatchingIds(users, q);
    if Count(users, q) > 0 {
      HasMember(ids);
    }
  }

  /** A set that is not empty has a member. */
  lemma HasMember(s: set<int>)
    requires s != {}
    ensures exists m :: m in s
  {
    if forall m :: m !in s {
      NoMemberMeansEmpty(s);
    }
  }

  lemma NoMemberMeansEmpty(s: set<int>)
    requires forall m :: m !in s
    ensures s == {}
  {
    assert forall m :: m in s <==> m in {};
  }

  /** Every finite nonempty set of ids has a least element. */
  lemma {:induction false} LeastExists(s: set<int>)
    requires s != {}
    ensures exists m :: m in s && forall j :: j in s ==> m <= j
  {
    HasMember(s);
    var x :| x in s;
    var rest := s - {x};
    if rest == {} {
      forall j | j in s
        ensures x <= j
      {
        assert j !in rest;
      }
    } else {
      LeastExists(rest);
      var m :| m in rest && forall j :: j in rest ==> m <= j;
      var least := if x < m then x else m;
      forall j | j in s
        ensures least <= j
      {
        if j != x {
          assert j in rest;
        }
      }
      assert least in s;
    }
  }

  function Least(s: set<int>): (m: int)
    requires s != {}
    ensures m in s && forall j :: j in s ==> m <= j
  {
    LeastExists(s);
    var m :| m in s && forall j :: j in s ==> m <= j;
    m
  }

  /** The record a `findFirst`, a `findUnique` or an `update` with this query
      addresses: the matching record with the least id. */
  function FindFirst(users: map<int, User>, q: QueryObject): (r: Option<int>)
    ensures r.Some? ==> r.value in users && Matches(users[r.value], q)
    ensures r.Some? ==> forall j :: j in users && Matches(users[j], q) ==> r.value <= j
    ensures r.None? <==> forall j :: j in users ==> !Matches(users[j], q)
  {
    var ids := MatchingIds(users, q);
    if ids == {} then None else Some(Least(ids))
  }

  /** Two tables with the same ids that agree on which records a query
      matches give the same `FindFirst` answer, whatever else differs. */
  lemma FindFirstSameMatches(users: map<int, User>, users': map<int, User>, q: QueryObject)
    requires users.Keys == users'.Keys
    requires forall id :: id in users ==> (Matches(users[id], q) <==> Matches(users'[id], q))
    ensures FindFirst(users, q) == FindFirst(users', q)
  {
    assert forall id :: id in MatchingIds(users, q) <==> id in MatchingIds(users', q);
    assert MatchingIds(users, q) == MatchingIds(users', q);
  }

  /** `exists`: refused for an argument that names nothing, otherwise true
      exactly when some stored record is the one the argument names. */
  function Exists(users: map<int, User>, arg: Arg): (r: Result<bool>)
    ensures r.Err? <==> !Addressable(arg)
    ensures r.Err? ==> r.error == EitherIdOrEmail
    ensures r.Ok? ==> (r.value <==> exists id :: id in users && Selects(arg, users[id]))
  {
    var ie := GetEmailAndIdFromArg(arg);
    var q :- GetQueryObjectByIdOrEmail(ie.id, ie.email);
    CountPositive(users, q);
    assert forall id :: id in users ==> (Matches(users[id], q) <==> Selects(arg, users[id])) by {
      forall id | id in users {
        QueryOfArg(arg, users[id]);
      }
    }
    Ok(Count(users, q) > 0)
  }

  /** `throwErrorIfNotExists`: "User not found" exactly when `exists` says
      false, its own error when it fails, and nothing otherwise. */
  function ThrowErrorIfNotExists(users: map<int, User>, arg: Arg): (r: Result<()>)
    ensures r.Ok? <==> Exists(users, arg) == Ok(true)
    ensures Exists(users, arg) == Ok(false) ==> r == Err(UserNotFound)
    ensures Exists(users, arg).Err? ==> r == Err(EitherIdOrEmail)
  {
    var found :- Exists(users, arg);
    if !found then Err(UserNotFound) else Ok(())
  }

  /** With well-keyed records, `exists` on an id is a plain key lookup. */
  lemma ExistsById(users: map<int, User>, id: int)
    requires WellKeyed(users)
    ensures Exists(users, Num(id)) == (if id == 0 then Err(EitherIdOrEmail) else Ok(id in users))
  {
    if id != 0 && id in users {
      assert Selects(Num(id), users[id]);
    }
  }

  /** Numeric id 0 and the empty email count as absent arguments. */
  lemma FalsyArgumentsRejected(users: map<int, User>)
    ensures Exists(users, Num(0)) == Err(EitherIdOrEmail)
    ensures Exists(users, Str("")) == Err(EitherIdOrEmail)
    ensures ThrowErrorIfNotExists(users, Num(0)) == Err(EitherIdOrEmail)
    ensures ThrowErrorIfNotExists(users, Str("")) == Err(EitherIdOrEmail)
    ensures GetOne(users, Num(0)) == Err(EitherIdOrEmail)
    ensures GetOne(users, Str("")) == Err(EitherIdOrEmail)
  {
  }

  /** `getOne`: the existence check on `id || email`, then the record the
      query for the id or email finds. That lookup cannot come back empty
      after the check. */
  function GetOne(users: map<int, User>, arg: Arg): (r: Result<User>)
    ensures r.Err? <==> !Addressable(arg) || !exists id :: id in users && Selects(arg, users[id])
    ensures r.Err? ==> r.error == (if Addressable(arg) then UserNotFound else EitherIdOrEmail)
    ensures r.Ok? ==> r.value in users.Values && Selects(arg, r.value)
  {
    var ie := GetEmailAndIdFromArg(arg);
    ArgumentRoundTrip(arg);
    var _ :- ThrowErrorIfNotExists(users, IdOrEmail(ie));
    var q := GetQueryObjectByIdOrEmail(ie.id, ie.email).value;
    assert forall id :: id in users ==> (Matches(users[id], q) <==> Selects(arg, users[id])) by {
      forall id | id in users {
        QueryOfArg(arg, users[id]);
      }
    }
    var id := FindFirst(users, q).value;
    Ok(users[id])
  }

  /** With well-keyed records, `getOne` on a stored id returns that record. */
  lemma GetOneById(users: map<int, User>, id: int)
    requires WellKeyed(users)
    requires id in users && id != 0
    ensures GetOne(users, Num(id)) == Ok(users[id])
  {
    assert Selects(Num(id), users[id]);
    assert forall k :: k in MatchingIds(users, ById(id)) <==> k in {id};
    assert MatchingIds(users, ById(id)) == {id};
  }

  /** The record after a partial update at time `now`: every absent field
      keeps its value, and the password is rehashed only when a nonempty one
      is supplied. The id and the mail flag never change. */
  function Patched(u: User, patch: UserPatch, salt: Salt, now: int): (r: User)
    ensures r.id == u.id && r.isValidMail == u.isValidMail && r.updatedAt == now
    ensures r.name == (if patch.name.Some? then patch.name.value else u.name)
    ensures r.email == (if patch.email.Some? then patch.email.value else u.email)
    ensures r.role == (if patch.role.Some? then patch.role.value else u.role)
    ensures r.picture == (if patch.picture.Some? then patch.picture else u.picture)
    ensures patch.password.None? || patch.password == Some("") ==> r.password == u.password
    ensures patch.password.Some? && patch.password != Some("") ==>
              r.password == Hash(patch.password.value, salt) && Compare(patch.password.value, r.password)
  {
    User(u.id,
         patch.name.GetOr(u.name),
         patch.email.GetOr(u.email),
         if patch.password.Some? && patch.password.value != "" then Hash(patch.password.value, salt) else u.password,
         patch.role.GetOr(u.role),
         if patch.picture.Some? then patch.picture else u.picture,
         u.isValidMail,
         now)
  }

  /** An update that supplies nothing only stamps `updatedAt`. */
  lemma EmptyPatchOnlyStamps(u: User, salt: Salt, now: int)
    ensures Patched(u, UserPatch(None, None, None, None, None), salt, now) == u.(updatedAt := now)
    ensures Patched(u, UserPatch(None, None, Some(""), None, None), salt, now) == u.(updatedAt := now)
  {
  }

  /** The service over the user table. Ids are handed out from `nextId`
      upwards, as an autoincrement column does. */
  class UserService {
    var users: map<int, User>
    var nextId: int

    ghost predicate Valid()
      reads this
    {
      && 1 <= nextId
      && WellKeyed(users)
      && forall id :: id in users ==> 1 <= id < nextId
    }

    constructor ()
      ensures Valid() && users == map[] && nextId == 1
    {
      users := map[];
      nextId := 1;
    }

    /** `create`: refused when the email names nothing or is already taken;
        otherwise exactly one record is added, holding a salted hash of the
        password, under a fresh id. */
    method Create(dto: NewUser, salt: Salt, now: int) returns (r: Result<User>)
      requires Valid()
      modifies this
      ensures Valid()
      ensures r.Err? <==> dto.email == "" || EmailTaken(old(users), dto.email)
      ensures r.Err? ==> r.error == (if dto.email == "" then EitherIdOrEmail else EmailAlreadyTaken)
      ensures r.Err? ==> users == old(users) && nextId == old(nextId)
      ensures r.Ok? ==> r.value.id !in old(users) && users == old(users)[r.value.id := r.value]
      ensures r.Ok? ==> && r.value.name == dto.name && r.value.email == dto.email
                        && r.value.password == Hash(dto.password, salt)
                        && r.value.role == dto.role.GetOr(DefaultRole)
                        && r.value.picture == None && !r.value.isValidMail
                        && r.value.updatedAt == now
    {
      var taken :- Exists(users, Str(dto.email));
      if taken {
        return Err(EmailAlreadyTaken);
      }
      var user := User(nextId, dto.name, dto.email, Hash(dto.password, salt),
                       dto.role.GetOr(DefaultRole), None, false, now);
      users := users[nextId := user];
      nextId := nextId + 1;
      r := Ok(user);
    }

    /** `update`: refused unless the id names a stored record; otherwise only
        that record changes, as `Patched` describes. */
    method Update(id: int, patch: UserPatch, salt: Salt, now: int) returns (r: Result<User>)
      requires Valid()
      modifies this
      ensures Valid() && nextId == old(nextId)
      ensures r.Err? <==> id == 0 || id !in old(users)
      ensures r.Err? ==> r.error == (if id == 0 then EitherIdOrEmail else UserNotFound)
      ensures r.Err? ==> users == old(users)
      ensures r.Ok? ==> users == old(users)[id := Patched(old(users)[id], patch, salt, now)]
      ensures r.Ok? ==> r.value == users[id]
    {
      ExistsById(users, id);
      var _ :- ThrowErrorIfNotExists(users, Num(id));
      var updated := Patched(users[id], patch, salt, now);
      users := users[id := updated];
      r := Ok(updated);
    }

    /** `delete`: refused unless the id names a stored record; otherwise that
        record, and only it, is removed and returned. */
    method Delete(id: int) returns (r: Result<User>)
      requires Valid()
      modifies this
      ensures Valid() && nextId == old(nextId)
      ensures r.Err? <==> id == 0 || id !in old(users)
      ensures r.Err? ==> r.error == (if id == 0 then EitherIdOrEmail else UserNotFound)
      ensures r.Err? ==> users == old(users)
      ensures r.Ok? ==> r.value == old(users)[id] && users == old(users) - {id}
    {
      ExistsById(users, id);
      var _ :- ThrowErrorIfNotExists(users, Num(id));
      r := Ok(users[id]);
      users := users - {id};
    }
  }

  /** After a deletion the id is no longer found, and every other record
      still is. */
  lemma DeletedIdNotFound(users: map<int, User>, id: int, other: int)
    requires WellKeyed(users) && id != 0
    requires other in users && other != id && other != 0
    ensures Exists(users - {id}, Num(id)) == Ok(false)
    ensures GetOne(users - {id}, Num(other)) == Ok(users[other])
  {
    ExistsById(users - {id}, id);
    GetOneById(users - {id}, other);
  }
}
