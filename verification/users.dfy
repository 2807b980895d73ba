/** The user record (models/User.ts): required fields, the role enumeration,
    defaults, the optional location fix, and the unique email and phone keys. */
module UserModel {
  import opened Common

  const RoleNames: seq<string> := ["user", "admin", "responder"]
  const DefaultRole: string := "user"

  /** The schema's role enumeration. */
  predicate ValidRole(r: string) {
    r == "user" || r == "admin" || r == "responder"
  }

  /** The `currentLocation` sub-record; a coordinate is `None` when absent. */
  datatype GeoFix = GeoFix(latitude: Option<real>, longitude: Option<real>, accuracy: Option<real>, timestamp: int)

  /** A stored user. `password` and `phone` are optional here so that the
      store can hold accounts created through Google sign-in. */
  datatype User = User(
    id: string,
    name: string,
    email: string,
    password: Option<string>,
    phone: Option<string>,
    role: string,
    isActive: bool,
    lastSeen: int,
    createdAt: int,
    currentLocation: Option<GeoFix>,
    googleId: Option<string>,
    lguCode: Option<string>,
    image: Option<string>)

  /** The document handed to `save` for a new user. */
  datatype UserDraft = UserDraft(
    name: Option<string>,
    email: Option<string>,
    password: Option<string>,
    phone: Option<string>,
    role: Option<string>,
    isActive: Option<bool>,
    lastSeen: Option<int>,
    currentLocation: Option<GeoFix>,
    googleId: Option<string>,
    image: Option<string>)

  datatype UserField = NameField | EmailField | PasswordField | PhoneField | RoleField
                     | LatitudeField | LongitudeField


  /** Validators shared by both schema readings: name, email, role, location. */
  function CommonErrors(d: UserDraft): set<UserField> {
    (if Truthy(d.name) then {} else {NameField})
    + (if Truthy(d.email) then {} else {EmailField})
    + (if d.role.None? || ValidRole(d.role.value) then {} else {RoleField})
    + (if d.currentLocation.Some? && d.currentLocation.value.latitude.None? then {LatitudeField} else {})
    + (if d.currentLocation.Some? && d.currentLocation.value.longitude.None? then {LongitudeField} else {})
  }

  /** The schema as written: `password` and `phone` are required for every user. */
  function SaveErrorsAsWritten(d: UserDraft): (errs: set<UserField>)
    ensures PasswordField in errs <==> !Truthy(d.password)
    ensures PhoneField in errs <==> !Truthy(d.phone)
    ensures NameField in errs <==> !Truthy(d.name)
    ensures EmailField in errs <==> !Truthy(d.email)
    ensures RoleField in errs <==> (d.role.Some? && !ValidRole(d.role.value))
  {
    CommonErrors(d)
    + (if Truthy(d.password) then {} else {PasswordField})
    + (if Truthy(d.phone) then {} else {PhoneField})
  }

  /** The schema as the Google sign-in paths need it: `password` and `phone`
      are required only of accounts without a `googleId`. */
  function SaveErrors(d: UserDraft): (errs: set<UserField>)
    ensures PasswordField in errs <==> (d.googleId.None? && !Truthy(d.password))
    ensures PhoneField in errs <==> (d.googleId.None? && !Truthy(d.phone))
    ensures NameField in errs <==> !Truthy(d.name)
    ensures EmailField in errs <==> !Truthy(d.email)
    ensures RoleField in errs <==> (d.role.Some? && !ValidRole(d.role.value))
  {
    CommonErrors(d)
    + (if d.googleId.Some? || Truthy(d.password) then {} else {PasswordField})
    + (if d.googleId.Some? || Truthy(d.phone) then {} else {PhoneField})
  }

  /** For a draft that carries a password and a phone, the two readings agree. */
  lemma SchemasAgreeWithCredentials(d: UserDraft)
    requires Truthy(d.password) && Truthy(d.phone)
    ensures SaveErrors(d) == SaveErrorsAsWritten(d)
  {
  }

  /** Email is unique, and so is every phone that is present. */
  ghost predicate UniqueKeys(store: seq<User>) {
    forall i, j :: 0 <= i < j < |store| ==>
      store[i].email != store[j].email
      && (store[i].phone.Some? ==> store[i].phone != store[j].phone)
  }

  /** Some stored user has this email or this phone (`findOne({$or: [{email}, {phone}]})`). */
  predicate Taken(store: seq<User>, email: string, phone: Option<string>) {
    exists i :: 0 <= i < |store| && (store[i].email == email || (phone.Some? && store[i].phone == phone))
  }

  datatype SaveResult = Saved(user: User) | Invalid(fields: set<UserField>) | DuplicateKey

  /** Which reading of the schema a save runs under. */
  datatype Schema = AsWritten | GoogleOptional

  /** The record a valid draft becomes: defaults `role = 'user'`, `isActive = true`, `lastSeen = now`. */
  function Materialize(d: UserDraft, id: string, now: int): User
    requires Truthy(d.name) && Truthy(d.email)
  {
    User(id, d.name.value, d.email.value, d.password, d.phone, d.role.GetOr(DefaultRole),
         d.isActive.GetOr(true), d.lastSeen.GetOr(now), now, d.currentLocation, d.googleId, None, d.image)
  }

  /** `save` of a new user under the validator set `errs`, then the unique indexes. */
  function SaveWith(store: seq<User>, d: UserDraft, errs: set<UserField>, id: string, now: int): (r: SaveResult)
    requires NameField !in errs ==> Truthy(d.name)
    requires EmailField !in errs ==> Truthy(d.email)
  {
    if errs != {} then Invalid(errs)
    else if Taken(store, d.email.value, d.phone) then DuplicateKey
    else Saved(Materialize(d, id, now))
  }

  /** `save` under the schema as written. */
  function SaveAsWritten(store: seq<User>, d: UserDraft, id: string, now: int): (r: SaveResult)
    ensures r.Invalid? <==> SaveErrorsAsWritten(d) != {}
    ensures r.Invalid? ==> r.fields == SaveErrorsAsWritten(d)
  {
    SaveWith(store, d, SaveErrorsAsWritten(d), id, now)
  }

  /** `save` of a new user: validators first, then the unique email/phone indexes. */
  function Save(store: seq<User>, d: UserDraft, id: string, now: int): (r: SaveResult)
    ensures r.Invalid? <==> SaveErrors(d) != {}
    ensures r.Invalid? ==> r.fields == SaveErrors(d)
    ensures r.DuplicateKey? <==> SaveErrors(d) == {} && Taken(store, d.email.value, d.phone)
    ensures r.Saved? ==>
      && Some(r.user.name) == d.name && Some(r.user.email) == d.email
      && r.user.password == d.password && r.user.phone == d.phone
      && r.user.role == d.role.GetOr(DefaultRole) && ValidRole(r.user.role)
      && r.user.isActive == d.isActive.GetOr(true)
      && r.user.lastSeen == d.lastSeen.GetOr(now) && r.user.createdAt == now
      && r.user.id == id
    ensures r.Saved? ==> (r.user.googleId.None? ==> Truthy(r.user.password) && Truthy(r.user.phone))
  {
    SaveWith(store, d, SaveErrors(d), id, now)
  }

  /** `save` under the chosen reading of the schema. */
  function SaveUnder(schema: Schema, store: seq<User>, d: UserDraft, id: string, now: int): (r: SaveResult)
    ensures schema.AsWritten? ==> r == SaveAsWritten(store, d, id, now)
    ensures schema.GoogleOptional? ==> r == Save(store, d, id, now)
  {
    if schema.AsWritten? then SaveAsWritten(store, d, id, now) else Save(store, d, id, now)
  }

  /** Appending a saved user keeps email and phone unique. */
  lemma SavePreservesUniqueKeys(store: seq<User>, d: UserDraft, id: string, now: int)
    requires UniqueKeys(store)
    requires Save(store, d, id, now).Saved?
    ensures UniqueKeys(store + [Save(store, d, id, now).user])
  {
    var u := Save(store, d, id, now).user;
    var s' := store + [u];
    forall i, j | 0 <= i < j < |s'|
      ensures s'[i].email != s'[j].email && (s'[i].phone.Some? ==> s'[i].phone != s'[j].phone)
    {
      if j == |store| {
        assert s'[i] == store[i];
        assert !(store[i].email == u.email || (u.phone.Some? && store[i].phone == u.phone));
      } else {
        assert s'[i] == store[i] && s'[j] == store[j];
      }
    }
  }

  /** The first stored user with this email (`findOne({email})`). */
  function FindByEmail(store: seq<User>, email: string): (r: Option<nat>)
    ensures r.Some? ==> r.value < |store| && store[r.value].email == email
    ensures r.Some? ==> forall i :: 0 <= i < r.value ==> store[i].email != email
    ensures r.None? ==> forall i :: 0 <= i < |store| ==> store[i].email != email
  {
    if |store| == 0 then None
    else if store[0].email == email then Some(0)
    else
      var r := FindByEmail(store[1..], email);
      if r.Some? then Some(r.value + 1) else None
  }

  /** A user as the list routes return it: every field except `password`. */
  datatype PublicUser = PublicUser(
    id: string,
    name: string,
    email: string,
    phone: Option<string>,
    role: string,
    isActive: bool,
    lastSeen: int,
    createdAt: int,
    currentLocation: Option<GeoFix>,
    googleId: Option<string>,
    lguCode: Option<string>,
    image: Option<string>)

  /** `.select('-password')`. */
  function Project(u: User): (p: PublicUser)
    ensures p.id == u.id && p.email == u.email && p.role == u.role && p.createdAt == u.createdAt
  {
    PublicUser(u.id, u.name, u.email, u.phone, u.role, u.isActive, u.lastSeen, u.createdAt,
               u.currentLocation, u.googleId, u.lguCode, u.image)
  }

  /** Projection forgets only the password: two users that differ elsewhere stay distinct. */
  lemma ProjectForgetsOnlyPassword(u: User, v: User)
    requires Project(u) == Project(v)
    ensures u.(password := v.password) == v
  {
  }

  function CreatedAtOf(p: PublicUser): int {
    p.createdAt
  }

  /** `find({}).select('-password').sort({createdAt: -1})`. */
  function ListPublic(store: seq<User>): (r: seq<PublicUser>)
    ensures |r| == |store|
    ensures SortedDesc(r, CreatedAtOf)
    ensures multiset(r) == multiset(seq(|store|, i requires 0 <= i < |store| => Project(store[i])))
  {
    SortDesc(seq(|store|, i requires 0 <= i < |store| => Project(store[i])), CreatedAtOf)
  }

  /** Every listed entry is the projection of a stored user. */
  lemma ListPublicFromStore(store: seq<User>, k: nat)
    requires k < |ListPublic(store)|
    ensures exists i :: 0 <= i < |store| && ListPublic(store)[k] == Project(store[i])
  {
    var proj := seq(|store|, i requires 0 <= i < |store| => Project(store[i]));
    var r := ListPublic(store);
    assert r[k] in multiset(proj);
    var i :| 0 <= i < |proj| && proj[i] == r[k];
  }
}

/** The response envelope shared by the user routes. */
module Api {
  /** `NextResponse.json({success, ...}, {status})`. */
  datatype Reply<T> = Success(code: int, data: T) | Failure(code: int, error: string)
}

/** Administrator user management (app/api/users/route.ts): both verbs are
    gated on the literal role `'admin'`. */
module UsersRoute {
  import opened Common
  import opened Text
  import opened Api
  import opened UserModel
  import opened Session

  const Unauthorized: string := "Unauthorized"
  const Forbidden: string := "Forbidden - Admin access required"
  const AllRequired: string := "All fields are required"
  const BadEmail: string := "Invalid email format"
  const ShortPassword: string := "Password must be at least 6 characters"
  const AlreadyExists: string := "User with this email or phone already exists"
  const MinPasswordLength: nat := 6

  /** The session gate: 401 without a session, 403 unless the role is `'admin'`. */
  function Gate(session: Option<SessionUser>): (r: Option<(int, string)>)
    ensures r.None? <==> session.Some? && session.value.role == Some("admin")
    ensures session.None? ==> r == Some((401, Unauthorized))
    ensures session.Some? && session.value.role != Some("admin") ==> r == Some((403, Forbidden))
  {
    if session.None? then Some((401, Unauthorized))
    else if session.value.role != Some("admin") then Some((403, Forbidden))
    else None
  }

  /** `GET`: the gate, then every user without the password, newest first.
      `db` is `None` when the store cannot be reached (500). */
  function Get(session: Option<SessionUser>, db: Option<seq<User>>): (r: Reply<seq<PublicUser>>)
    ensures Gate(session).Some? ==> r == Failure(Gate(session).value.0, Gate(session).value.1)
    ensures Gate(session).None? && db.None? ==> r.Failure? && r.code == 500
    ensures r.Success? ==> r.code == 200 && db.Some? && r.data == ListPublic(db.value)
  {
    var g := Gate(session);
    if g.Some? then Failure(g.value.0, g.value.1)
    else if db.None? then Failure(500, "store unavailable")
    else Success(200, ListPublic(db.value))
  }

  datatype Body = Body(name: Option<string>, email: Option<string>, phone: Option<string>,
                       password: Option<string>, role: Option<string>, isActive: Option<bool>)


  /** The draft the handler saves; `hash` is bcrypt with this call's salt. */
  function DraftOf(b: Body, hash: string -> string, now: int): UserDraft
    requires Truthy(b.password)
  {
    UserDraft(b.name, b.email, Some(hash(b.password.value)), b.phone,
              Some(if Truthy(b.role) then b.role.value else DefaultRole),
              Some(b.isActive.GetOr(true)), Some(now), None, None, None)
  }

  /** The body checks in the handler's order, before any store access. */
  function Validate(b: Body): (r: Option<string>)
    ensures r.None? <==> (Truthy(b.name) && Truthy(b.email) && Truthy(b.phone) && Truthy(b.password)
      && EmailShape(b.email.value) && |b.password.value| >= MinPasswordLength)
    ensures !(Truthy(b.name) && Truthy(b.email) && Truthy(b.phone) && Truthy(b.password)) ==> r == Some(AllRequired)
  {
    if !(Truthy(b.name) && Truthy(b.email) && Truthy(b.phone) && Truthy(b.password)) then Some(AllRequired)
    else if !EmailShape(b.email.value) then Some(BadEmail)
    else if |b.password.value| < MinPasswordLength then Some(ShortPassword)
    else None
  }

  /** `POST`: gate, body checks, the duplicate check, then `save`. Returns the reply and the store afterwards. */
  function Post(session: Option<SessionUser>, b: Body, store: seq<User>, hash: string -> string, id: string, now: int)
    : (out: (Reply<User>, seq<User>))
    ensures !out.0.Success? ==> out.1 == store
    ensures Gate(session).Some? ==> out.0 == Failure(Gate(session).value.0, Gate(session).value.1)
    ensures Gate(session).None? && Validate(b).Some? ==> out.0 == Failure(400, Validate(b).value)
    ensures Gate(session).None? && Validate(b).None? && Taken(store, b.email.value, b.phone)
      ==> out.0 == Failure(400, AlreadyExists)
    ensures out.0.Success? <==>
      && Gate(session).None? && Validate(b).None? && !Taken(store, b.email.value, b.phone)
      && (!Truthy(b.role) || ValidRole(b.role.value)) && hash(b.password.value) != ""
    ensures out.0.Success? ==>
      && out.0.code == 201 && out.1 == store + [out.0.data]
      && Truthy(b.password) && out.0.data.password == Some(hash(b.password.value))
      && (!Truthy(b.role) ==> out.0.data.role == "user")
      && (b.isActive.None? ==> out.0.data.isActive)
      && Some(out.0.data.email) == b.email && out.0.data.phone == b.phone
  {
    var g := Gate(session);
    if g.Some? then (Failure(g.value.0, g.value.1), store)
    else
      var v := Validate(b);
      if v.Some? then (Failure(400, v.value), store)
      else if Taken(store, b.email.value, b.phone) then (Failure(400, AlreadyExists), store)
      else
        match Save(store, DraftOf(b, hash, now), id, now)
        case Saved(u) => (Success(201, u), store + [u])
        case Invalid(_) => (Failure(500, "validation failed"), store)
        case DuplicateKey => (Failure(500, "duplicate key"), store)
  }

  /** A created user is new in email and phone, so the store keeps its unique keys;
      a caller-supplied role outside the enumeration is refused by `save`. */
  lemma PostKeepsUniqueKeys(session: Option<SessionUser>, b: Body, store: seq<User>, hash: string -> string, id: string, now: int)
    requires UniqueKeys(store)
    ensures UniqueKeys(Post(session, b, store, hash, id, now).1)
    ensures Truthy(b.role) && !ValidRole(b.role.value) ==> !Post(session, b, store, hash, id, now).0.Success?
  {
    var out := Post(session, b, store, hash, id, now);
    if out.0.Success? {
      SavePreservesUniqueKeys(store, DraftOf(b, hash, now), id, now);
    }
  }
}

/** Self-registration (app/api/auth/register/route.ts): no session, no email
    or length check, the same duplicate check, and a password-free reply. */
module RegisterRoute {
  import opened Common
  import opened Api
  import opened UserModel

  const AllRequired: string := "All fields are required"
  const AlreadyExists: string := "User with this email or phone already exists"

  datatype Body = Body(name: Option<string>, email: Option<string>, password: Option<string>,
                       phone: Option<string>, role: Option<string>)

  /** The reply's `data`: id, name, email, phone and role, and nothing else. */
  datatype Registered = Registered(id: string, name: string, email: string, phone: Option<string>, role: string)


  function DraftOf(b: Body, hash: string -> string, now: int): UserDraft
    requires Truthy(b.password)
  {
    UserDraft(b.name, b.email, Some(hash(b.password.value)), b.phone,
              Some(if Truthy(b.role) then b.role.value else DefaultRole),
              Some(true), Some(now), None, None, None)
  }

  function View(u: User): Registered {
    Registered(u.id, u.name, u.email, u.phone, u.role)
  }

  /** `POST`: required fields, the duplicate check, then `save`. */
  function Post(b: Body, store: seq<User>, hash: string -> string, id: string, now: int)
    : (out: (Reply<Registered>, seq<User>))
    ensures !out.0.Success? ==> out.1 == store
    ensures !(Truthy(b.name) && Truthy(b.email) && Truthy(b.password) && Truthy(b.phone))
      ==> out.0 == Failure(400, AllRequired)
    ensures (Truthy(b.name) && Truthy(b.email) && Truthy(b.password) && Truthy(b.phone)
      && Taken(store, b.email.value, b.phone)) ==> out.0 == Failure(400, AlreadyExists)
    ensures out.0.Success? <==>
      && Truthy(b.name) && Truthy(b.email) && Truthy(b.password) && Truthy(b.phone)
      && !Taken(store, b.email.value, b.phone)
      && (!Truthy(b.role) || ValidRole(b.role.value)) && hash(b.password.value) != ""
    ensures out.0.Success? ==>
      && out.0.code == 201 && |out.1| == |store| + 1 && out.1[..|store|] == store
      && var u := out.1[|store|];
      && out.0.data == View(u)
      && Truthy(b.password) && u.password == Some(hash(b.password.value))
      && u.isActive && u.lastSeen == now
      && u.role == (if Truthy(b.role) then b.role.value else "user")
  {
    if !(Truthy(b.name) && Truthy(b.email) && Truthy(b.password) && Truthy(b.phone)) then
      (Failure(400, AllRequired), store)
    else if Taken(store, b.email.value, b.phone) then (Failure(400, AlreadyExists), store)
    else
      match Save(store, DraftOf(b, hash, now), id, now)
      case Saved(u) => (Success(201, View(u)), store + [u])
      case Invalid(_) => (Failure(500, "validation failed"), store)
      case DuplicateKey => (Failure(500, "duplicate key"), store)
  }

  /** Registration keeps email and phone unique, and a caller who asks for
      `'admin'` or `'responder'` gets that role. */
  lemma RegisterRoles(b: Body, store: seq<User>, hash: string -> string, id: string, now: int)
    requires UniqueKeys(store)
    ensures UniqueKeys(Post(b, store, hash, id, now).1)
    ensures b.role == Some("admin") && Post(b, store, hash, id, now).0.Success?
      ==> Post(b, store, hash, id, now).0.data.role == "admin"
    ensures b.role == Some("admin") && Truthy(b.name) && Truthy(b.email) && Truthy(b.password)
      && Truthy(b.phone) && !Taken(store, b.email.value, b.phone) && hash(b.password.value) != ""
      ==> Post(b, store, hash, id, now).0.Success? && Post(b, store, hash, id, now).0.data.role == "admin"
  {
    var out := Post(b, store, hash, id, now);
    if out.0.Success? {
      SavePreservesUniqueKeys(store, DraftOf(b, hash, now), id, now);
    }
  }
}

/** The system-administrator listing (app/api/admin/users/route.ts): gated on
    the literal role `'system-admin'`, with a single 401 for both refusals. */
module AdminUsersRoute {
  import opened Common
  import opened Api
  import opened UserModel
  import opened Session
  import UsersRoute

  function Get(session: Option<SessionUser>, db: Option<seq<User>>): (r: Reply<seq<PublicUser>>)
    ensures (session.None? || session.value.role != Some("system-admin")) ==> r == Failure(401, "Unauthorized")
    ensures session.Some? && session.value.role == Some("system-admin") && db.None? ==> r.Failure? && r.code == 500
    ensures r.Success? ==> r.code == 200 && db.Some? && r.data == ListPublic(db.value)
  {
    if session.None? || session.value.role != Some("system-admin") then Failure(401, "Unauthorized")
    else if db.None? then Failure(500, "store unavailable")
    else Success(200, ListPublic(db.value))
  }

  /** The two listing routes never both admit the same session: one wants
      `'admin'`, the other `'system-admin'`. */
  lemma ListingGatesDisjoint(session: Option<SessionUser>, db: Option<seq<User>>)
    requires db.Some?
    ensures !(Get(session, db).Success? && UsersRoute.Gate(session).None?)
  {
  }
}
