/** The session and token shapes of the authentication configuration
    (lib/auth.ts) and its `jwt` and `session` callbacks. */
module Session {
  import opened Common
  import opened UserModel

  /** `session.user`: every field may be missing. */
  datatype SessionUser = SessionUser(
    id: Option<string>,
    name: Option<string>,
    email: Option<string>,
    role: Option<string>,
    phone: Option<string>,
    googleId: Option<string>,
    lguCode: Option<string>)

  /** The JWT the session strategy keeps between requests. */
  datatype Token = Token(
    email: Option<string>,
    name: Option<string>,
    role: Option<string>,
    id: Option<string>,
    phone: Option<string>,
    googleId: Option<string>,
    lguCode: Option<string>)

  /** `jwt`: when a user is signing in and the token's email names a stored
      user, the token takes that user's role, id, phone and googleId. The user
      schema declares no `lguCode`, so reading it gives `undefined` and the
      token's `lguCode` is cleared. */
  function Jwt(token: Token, signingIn: bool, store: seq<User>): (t: Token)
    ensures t.email == token.email && t.name == token.name
    ensures (!signingIn || token.email.None? || FindByEmail(store, token.email.value).None?) ==> t == token
    ensures signingIn && token.email.Some? && FindByEmail(store, token.email.value).Some? ==>
      var u := store[FindByEmail(store, token.email.value).value];
      && u.email == token.email.value
      && t.role == Some(u.role) && t.id == Some(u.id) && t.phone == u.phone
      && t.googleId == u.googleId && t.lguCode.None?
  {
    if !signingIn || token.email.None? then token
    else
      match FindByEmail(store, token.email.value)
      case None => token
      case Some(i) =>
        var u := store[i];
        token.(role := Some(u.role), id := Some(u.id), phone := u.phone, googleId := u.googleId, lguCode := None)
  }

  /** `session`: when the session has a user, its role, id, phone, googleId and
      lguCode are copied from the token; name and email are left alone. */
  function SessionOf(user: Option<SessionUser>, token: Token): (s: Option<SessionUser>)
    ensures s.None? <==> user.None?
    ensures s.Some? ==>
      && s.value.role == token.role && s.value.id == token.id && s.value.phone == token.phone
      && s.value.googleId == token.googleId && s.value.lguCode == token.lguCode
      && s.value.name == user.value.name && s.value.email == user.value.email
  {
    if user.None? then None
    else Some(user.value.(role := token.role, id := token.id, phone := token.phone,
                          googleId := token.googleId, lguCode := token.lguCode))
  }

  /** A sign-in followed by the session callback shows the stored user's role,
      and no LGU code. */
  lemma SessionCarriesStoredRole(user: SessionUser, token: Token, store: seq<User>)
    requires token.email.Some? && FindByEmail(store, token.email.value).Some?
    ensures SessionOf(Some(user), Jwt(token, true, store)).value.role
         == Some(store[FindByEmail(store, token.email.value).value].role)
    ensures SessionOf(Some(user), Jwt(token, true, store)).value.lguCode.None?
  {
  }
}

/** The credentials provider's `authorize` (lib/auth.ts): a fixed sequence of
    refusals, then a `lastSeen` update. bcrypt is the parameter `matches`. */
module CredentialsAuth {
  import opened Common
  import opened UserModel

  const EnterBoth: string := "Please enter email and password"
  const NoSuchUser: string := "No user found with this email"
  const UseGoogle: string := "This account was created using Google. Please sign in with Google."
  const WrongPassword: string := "Invalid password"

  datatype Credentials = Credentials(email: Option<string>, password: Option<string>)

  /** The object `authorize` returns. The user schema declares no `lguCode`, so
      `user.lguCode || null` is always `null` (`None`). */
  datatype AuthUser = AuthUser(id: string, email: string, name: string, role: string,
                               phone: Option<string>, image: Option<string>,
                               googleId: Option<string>, lguCode: Option<string>)

  datatype Outcome = Authorized(user: AuthUser) | Refused(message: string)


  /** `authorize`: the outcome and the store afterwards. */
  function Authorize(c: Credentials, store: seq<User>, matches: (string, string) -> bool, now: int)
    : (out: (Outcome, seq<User>))
    ensures !out.0.Authorized? ==> out.1 == store
    ensures !(Truthy(c.email) && Truthy(c.password)) ==> out.0 == Refused(EnterBoth)
    ensures Truthy(c.email) && Truthy(c.password) && FindByEmail(store, c.email.value).None?
      ==> out.0 == Refused(NoSuchUser)
    ensures (Truthy(c.email) && Truthy(c.password) && FindByEmail(store, c.email.value).Some?
      && !Truthy(store[FindByEmail(store, c.email.value).value].password)) ==> out.0 == Refused(UseGoogle)
    ensures out.0.Authorized? ==>
      && Truthy(c.email) && Truthy(c.password) && FindByEmail(store, c.email.value).Some?
      && var i := FindByEmail(store, c.email.value).value;
      && Truthy(store[i].password) && matches(c.password.value, store[i].password.value)
      && out.1 == store[i := store[i].(lastSeen := now)]
      && out.0.user.id == store[i].id && out.0.user.email == c.email.value
      && out.0.user.role == store[i].role
      && out.0.user.lguCode.None?
  {
    if !(Truthy(c.email) && Truthy(c.password)) then (Refused(EnterBoth), store)
    else
      match FindByEmail(store, c.email.value)
      case None => (Refused(NoSuchUser), store)
      case Some(i) =>
        var u := store[i];
        if !Truthy(u.password) then (Refused(UseGoogle), store)
        else if !matches(c.password.value, u.password.value) then (Refused(WrongPassword), store)
        else
          (Authorized(AuthUser(u.id, u.email, u.name, u.role, u.phone, u.image, u.googleId, None)),
           store[i := u.(lastSeen := now)])
  }

  /** A wrong password is refused and changes nothing; the right one touches only `lastSeen`. */
  lemma AuthorizeDecidedByPassword(c: Credentials, store: seq<User>, matches: (string, string) -> bool, now: int)
    requires Truthy(c.email) && Truthy(c.password)
    requires FindByEmail(store, c.email.value).Some?
    requires Truthy(store[FindByEmail(store, c.email.value).value].password)
    ensures var u := store[FindByEmail(store, c.email.value).value];
      var out := Authorize(c, store, matches, now);
      && (out.0.Authorized? <==> matches(c.password.value, u.password.value))
      && (!matches(c.password.value, u.password.value) ==> out == (Refused(WrongPassword), store))
      && |out.1| == |store|
      && (forall k :: 0 <= k < |store| ==> out.1[k].(lastSeen := store[k].lastSeen) == store[k])
  {
  }
}

/** The OAuth `signIn` callback (lib/auth.ts): find the account by email,
    create it when unknown, or link the Google id when it is missing. */
module GoogleSignIn {
  import opened Common
  import opened UserModel

  /** What the provider reports: the profile and `account.providerAccountId`. */
  datatype Profile = Profile(name: Option<string>, email: string, image: Option<string>, providerAccountId: string)

  datatype Outcome = Allowed | Failed

  /** The document `UserModel.create` receives for an unknown email. */
  function NewAccount(p: Profile): UserDraft {
    UserDraft(p.name, Some(p.email), None, None, Some("user"), Some(true), None, None,
              Some(p.providerAccountId), p.image)
  }


  /** `signIn` for a provider name and profile, with the store saving under `schema`. */
  function SignInUnder(schema: Schema, provider: string, p: Profile, store: seq<User>, id: string, now: int)
    : (out: (Outcome, seq<User>))
    ensures provider != "google" ==> out == (Allowed, store)
    ensures out.0.Failed? ==> out.1 == store
    ensures provider == "google" && FindByEmail(store, p.email).Some? ==>
      var i := FindByEmail(store, p.email).value;
      && out.0 == Allowed
      && out.1 == (if Truthy(store[i].googleId) then store
                   else store[i := store[i].(googleId := Some(p.providerAccountId))])
  {
    if provider != "google" then (Allowed, store)
    else
      match FindByEmail(store, p.email)
      case Some(i) =>
        if Truthy(store[i].googleId) then (Allowed, store)
        else (Allowed, store[i := store[i].(googleId := Some(p.providerAccountId))])
      case None =>
        match SaveUnder(schema, store, NewAccount(p), id, now)
        case Saved(u) => (Allowed, store + [u])
        case Invalid(_) => (Failed, store)
        case DuplicateKey => (Failed, store)
  }

  /** As written, an unknown Google email is never stored: the schema requires a
      password and a phone that the callback does not supply, so `create` throws. */
  lemma NewGoogleAccountFailsAsWritten(p: Profile, store: seq<User>, id: string, now: int)
    requires FindByEmail(store, p.email).None?
    ensures SignInUnder(AsWritten, "google", p, store, id, now) == (Failed, store)
  {
    assert PasswordField in SaveErrorsAsWritten(NewAccount(p));
  }

  /** `signIn` as the store needs it: an unknown email with a name becomes a
      `user`-role, active account carrying the Google id; `signIn` then returns true. */
  function SignIn(provider: string, p: Profile, store: seq<User>, id: string, now: int): (out: (Outcome, seq<User>))
    ensures provider != "google" ==> out == (Allowed, store)
    ensures provider == "google" && FindByEmail(store, p.email).None? && Truthy(p.name) && p.email != "" ==>
      && out.0 == Allowed && |out.1| == |store| + 1 && out.1[..|store|] == store
      && var u := out.1[|store|];
      && u.email == p.email && u.role == "user" && u.isActive && u.googleId == Some(p.providerAccountId)
  {
    var out := SignInUnder(GoogleOptional, provider, p, store, id, now);
    assert FindByEmail(store, p.email).None? ==> !Taken(store, p.email, None);
    assert |out.1| > |store| ==> out.1[..|store|] == store;
    out
  }

  /** The Google id is linked only to an account that lacks one, and an existing
      link is never overwritten. */
  lemma LinkOnlyWhenMissing(p: Profile, store: seq<User>, id: string, now: int)
    requires FindByEmail(store, p.email).Some?
    ensures var i := FindByEmail(store, p.email).value;
      var s' := SignIn("google", p, store, id, now).1;
      && |s'| == |store|
      && (Truthy(store[i].googleId) ==> s'[i].googleId == store[i].googleId)
      && (!Truthy(store[i].googleId) ==> s'[i].googleId == Some(p.providerAccountId))
      && (forall k :: 0 <= k < |store| && k != i ==> s'[k] == store[k])
  {
  }
}

/** The mobile Google sign-in endpoint (app/api/auth/google/route.ts). */
module GoogleRoute {
  import opened Common
  import opened UserModel

  /** The verifier's answer for the posted token: it throws, it has no payload, or a payload. */
  datatype Verification = VerifyThrows | NoPayload | Payload(email: string, name: Option<string>, picture: Option<string>, sub: Option<string>)

  datatype Body = Body(token: Option<string>, role: Option<string>)

  /** The reply's `data`: optional text defaults to `''` only when it is missing.
      The user schema declares none of `lguCode`, `municipality`, `barangay` and
      `province`, so reading them gives `undefined` and the reply has `''`. */
  datatype GoogleView = GoogleView(id: string, name: string, email: string, role: string, image: Option<string>,
                                   phone: string, lguCode: string, municipality: string, barangay: string, province: string)

  datatype Reply = Ok(data: GoogleView) | BadRequest(error: string) | Unauthorized(error: string)

  const TokenRequired: string := "Token is required"
  const InvalidPayload: string := "Invalid token payload"
  const VerifyFailed: string := "Failed to verify Google account"


  function View(u: User): GoogleView {
    GoogleView(u.id, u.name, u.email, u.role, u.image, u.phone.GetOr(""), "", "", "", "")
  }

  function NewAccount(b: Body, name: Option<string>, email: string, picture: Option<string>, sub: Option<string>, now: int): UserDraft {
    UserDraft(name, Some(email), None, None, Some(if Truthy(b.role) then b.role.value else "user"),
              Some(true), Some(now), None, sub, picture)
  }

  /** `POST` with the store saving under `schema`: the reply and the store afterwards. */
  function PostUnder(schema: Schema, b: Body, v: Verification, store: seq<User>, id: string, now: int)
    : (out: (Reply, seq<User>))
    ensures !Truthy(b.token) ==> out == (BadRequest(TokenRequired), store)
    ensures Truthy(b.token) && v.VerifyThrows? ==> out == (Unauthorized(VerifyFailed), store)
    ensures Truthy(b.token) && v.NoPayload? ==> out == (BadRequest(InvalidPayload), store)
    ensures !out.0.Ok? ==> out.1 == store
    ensures Truthy(b.token) && v.Payload? && FindByEmail(store, v.email).Some? ==>
      var i := FindByEmail(store, v.email).value;
      && out.0.Ok? && |out.1| == |store|
      && out.1[i].lastSeen == now
      && out.1[i].googleId == (if Truthy(v.sub) && !Truthy(store[i].googleId) then v.sub else store[i].googleId)
      && out.0.data == View(out.1[i])
    ensures out.0.Ok? ==> out.0.data.lguCode == "" && out.0.data.municipality == ""
  {
    if !Truthy(b.token) then (BadRequest(TokenRequired), store)
    else
      match v
      case VerifyThrows => (Unauthorized(VerifyFailed), store)
      case NoPayload => (BadRequest(InvalidPayload), store)
      case Payload(email, name, picture, sub) =>
        match FindByEmail(store, email)
        case Some(i) =>
          var u := store[i].(lastSeen := now,
                             googleId := if Truthy(sub) && !Truthy(store[i].googleId) then sub else store[i].googleId);
          (Ok(View(u)), store[i := u])
        case None =>
          match SaveUnder(schema, store, NewAccount(b, name, email, picture, sub, now), id, now)
          case Saved(u) => (Ok(View(u)), store + [u])
          case Invalid(_) => (Unauthorized(VerifyFailed), store)
          case DuplicateKey => (Unauthorized(VerifyFailed), store)
  }

  /** As written, a first-time Google user always gets 401: `save` rejects the
      new document for its missing password and phone. */
  lemma FirstGoogleLoginFailsAsWritten(b: Body, v: Verification, store: seq<User>, id: string, now: int)
    requires Truthy(b.token) && v.Payload? && FindByEmail(store, v.email).None?
    ensures PostUnder(AsWritten, b, v, store, id, now) == (Unauthorized(VerifyFailed), store)
  {
    assert PasswordField in SaveErrorsAsWritten(NewAccount(b, v.name, v.email, v.picture, v.sub, now));
  }

  /** `POST` as the store needs it: a first-time user with a name and an email,
      and a role from the enumeration (or none), is created and answered with 200. */
  function Post(b: Body, v: Verification, store: seq<User>, id: string, now: int): (out: (Reply, seq<User>))
    ensures (Truthy(b.token) && v.Payload? && FindByEmail(store, v.email).None? && v.sub.Some?
      && Truthy(v.name) && v.email != "" && (!Truthy(b.role) || ValidRole(b.role.value))) ==>
      && out.0.Ok? && |out.1| == |store| + 1 && out.1[..|store|] == store
      && var u := out.1[|store|];
      && u.email == v.email && u.isActive && u.lastSeen == now && u.googleId == v.sub
      && u.role == (if Truthy(b.role) then b.role.value else "user")
      && out.0.data == View(u) && out.0.data.phone == "" && out.0.data.province == ""
  {
    var out := PostUnder(GoogleOptional, b, v, store, id, now);
    assert v.Payload? && FindByEmail(store, v.email).None? ==> !Taken(store, v.email, None);
    assert |out.1| > |store| ==> out.1[..|store|] == store;
    out
  }
}
