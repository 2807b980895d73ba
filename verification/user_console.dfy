/** The user administration table (components/UserManagement.tsx): the list
    filters, the form validation, the counters and the per-row Delete button. */
module UserConsole {
  import opened Common
  import opened Text

  /** A user as the table receives it from the users API. */
  datatype Row = Row(id: string, name: string, email: string, phone: string, role: string, isActive: bool)

  // ---------------------------------------------------------------- filters

  /** The search box: a case-blind substring of the name or email, or a plain substring of the phone. */
  predicate SearchHit(u: Row, term: string) {
    Contains(Lower(u.name), Lower(term)) || Contains(Lower(u.email), Lower(term)) || Contains(u.phone, term)
  }

  /** The status filter as written: `'active'` keeps active users and every
      other value keeps the inactive ones. */
  predicate StatusHit(u: Row, status: string) {
    if status == "active" then u.isActive else !u.isActive
  }

  /** Every active filter accepts the row. */
  predicate Keep(u: Row, term: string, role: string, status: string) {
    (term == "" || SearchHit(u, term))
    && (role == "all" || u.role == role)
    && (status == "all" || StatusHit(u, status))
  }

  function BySearch(term: string): Row -> bool {
    (u: Row) => term == "" || SearchHit(u, term)
  }

  function ByRole(role: string): Row -> bool {
    (u: Row) => role == "all" || u.role == role
  }

  function ByStatus(status: string): Row -> bool {
    (u: Row) => status == "all" || StatusHit(u, status)
  }

  function BySearchAndRole(term: string, role: string): Row -> bool {
    (u: Row) => BySearch(term)(u) && ByRole(role)(u)
  }

  function ByAll(term: string, role: string, status: string): Row -> bool {
    (u: Row) => Keep(u, term, role, status)
  }

  /** `filterUsers`: the three filters one after another, each only when active. */
  function FilterUsers(users: seq<Row>, term: string, role: string, status: string): (r: seq<Row>)
    ensures IsSubsequence(r, users)
    ensures forall i :: 0 <= i < |r| ==> Keep(r[i], term, role, status)
    ensures forall i :: 0 <= i < |users| && Keep(users[i], term, role, status) ==> users[i] in r
  {
    var r := Stage(Stage(Stage(users, term != "", BySearch(term)), role != "all", ByRole(role)),
                   status != "all", ByStatus(status));
    FilterChain(users, term, role, status);
    r
  }

  /** The chain of filters is one filter by the conjunction. */
  lemma {:induction false} FilterChain(users: seq<Row>, term: string, role: string, status: string)
    ensures Stage(Stage(Stage(users, term != "", BySearch(term)), role != "all", ByRole(role)),
                  status != "all", ByStatus(status))
         == Filter(users, ByAll(term, role, status))
  {
    var a := Stage(users, term != "", BySearch(term));
    var b := Stage(a, role != "all", ByRole(role));
    StageIsFilter(users, term != "", BySearch(term));
    StageIsFilter(a, role != "all", ByRole(role));
    StageIsFilter(b, status != "all", ByStatus(status));
    FilterFilter(users, BySearch(term), ByRole(role), BySearchAndRole(term, role));
    ThirdFilter(users, term, role, status);
  }

  /** Filtering by the status after the search and the role is filtering by all three. */
  lemma {:induction false} ThirdFilter(users: seq<Row>, term: string, role: string, status: string)
    ensures Filter(Filter(users, BySearchAndRole(term, role)), ByStatus(status))
         == Filter(users, ByAll(term, role, status))
  {
    var two := BySearchAndRole(term, role);
    var all := ByAll(term, role, status);
    forall x | x in users ensures all(x) == (two(x) && ByStatus(status)(x)) {
      assert two(x) == (BySearch(term)(x) && ByRole(role)(x));
    }
    FilterFilter(users, two, ByStatus(status), all);
  }

  /** The `'active'` and `'inactive'` filters split every list between them. */
  lemma StatusFiltersSplit(users: seq<Row>)
    ensures |FilterUsers(users, "", "all", "active")| + |FilterUsers(users, "", "all", "inactive")| == |users|
    ensures forall i :: 0 <= i < |FilterUsers(users, "", "all", "active")| ==> FilterUsers(users, "", "all", "active")[i].isActive
    ensures forall i :: 0 <= i < |FilterUsers(users, "", "all", "inactive")| ==> !FilterUsers(users, "", "all", "inactive")[i].isActive
  {
    FilterChain(users, "", "all", "active");
    FilterChain(users, "", "all", "inactive");
    FilterAll(users, BySearch(""));
    FilterAll(users, ByRole("all"));
    CountComplement(users, ByAll("", "all", "active"), ByAll("", "all", "inactive"));
  }

  // ---------------------------------------------------------------- form

  datatype Mode = Create | Edit | Inspect

  datatype Form = Form(name: string, email: string, phone: string, password: string, role: string, isActive: bool)

  const MinPasswordLength: nat := 6

  /** The messages `validateForm` records, one slot per input; `None` is a key left unset. */
  datatype Errors = Errors(name: Option<string>, email: Option<string>, phone: Option<string>, password: Option<string>)
  {
    predicate Empty() {
      name.None? && email.None? && phone.None? && password.None?
    }
  }

  function NameError(f: Form): (e: Option<string>)
    ensures e.Some? <==> Trim(f.name) == ""
    ensures e.Some? ==> e.value == "Name is required"
  {
    if Trim(f.name) == "" then Some("Name is required") else None
  }

  /** An empty email is reported as missing; otherwise the untrimmed text must have the address shape. */
  function EmailError(f: Form): (e: Option<string>)
    ensures e.Some? <==> Trim(f.email) == "" || !EmailShape(f.email)
    ensures Trim(f.email) == "" ==> e == Some("Email is required")
    ensures Trim(f.email) != "" && !EmailShape(f.email) ==> e == Some("Email is invalid")
  {
    if Trim(f.email) == "" then Some("Email is required")
    else if !EmailShape(f.email) then Some("Email is invalid")
    else None
  }

  function PhoneError(f: Form): (e: Option<string>)
    ensures e.Some? <==> Trim(f.phone) == ""
    ensures e.Some? ==> e.value == "Phone is required"
  {
    if Trim(f.phone) == "" then Some("Phone is required") else None
  }

  /** A password is required only when creating; a non-empty one must be long enough in every mode. */
  function PasswordError(f: Form, mode: Mode): (e: Option<string>)
    ensures e.Some? <==> (mode.Create? && f.password == "") || (f.password != "" && |f.password| < MinPasswordLength)
    ensures mode.Create? && f.password == "" ==> e == Some("Password is required")
    ensures f.password != "" && |f.password| < MinPasswordLength ==> e == Some("Password must be at least 6 characters")
  {
    if mode.Create? && f.password == "" then Some("Password is required")
    else if f.password != "" && |f.password| < MinPasswordLength then Some("Password must be at least 6 characters")
    else None
  }

  /** `validateForm`: the recorded errors, and whether there were none; a form
      passes exactly when every input passes its own check, and an empty
      password passes unless creating. */
  function ValidateForm(f: Form, mode: Mode): (r: (Errors, bool))
    ensures r.0 == Errors(NameError(f), EmailError(f), PhoneError(f), PasswordError(f, mode))
    ensures r.1 <==> r.0.Empty()
    ensures r.1 <==>
      && Trim(f.name) != "" && Trim(f.email) != "" && EmailShape(f.email) && Trim(f.phone) != ""
      && (if mode.Create? then |f.password| >= MinPasswordLength else f.password == "" || |f.password| >= MinPasswordLength)
  {
    var errs := Errors(NameError(f), EmailError(f), PhoneError(f), PasswordError(f, mode));
    (errs, errs.Empty())
  }

  // ---------------------------------------------------------------- counters

  function IsActive(u: Row): bool {
    u.isActive
  }

  function RoleIs(role: string): Row -> bool {
    (u: Row) => u.role == role
  }

  datatype Stats = Stats(total: nat, active: nat, admins: nat, responders: nat, users: nat)

  /** The header counters over the unfiltered list. */
  function StatsOf(users: seq<Row>): (st: Stats)
    ensures st.total == |users|
    ensures st.active == Count(users, IsActive) && st.active <= st.total
    ensures st.admins == Count(users, RoleIs("system-admin"))
    ensures st.responders == Count(users, RoleIs("responder"))
    ensures st.users == Count(users, RoleIs("user"))
  {
    Stats(|users|, Count(users, IsActive), Count(users, RoleIs("system-admin")),
          Count(users, RoleIs("responder")), Count(users, RoleIs("user")))
  }

  function IsAdminOrResponder(u: Row): bool {
    u.role == "system-admin" || u.role == "responder"
  }

  function KnownRole(u: Row): bool {
    u.role == "system-admin" || u.role == "responder" || u.role == "user"
  }

  /** The three role counters (`system-admin`, `responder`, `user`) never
      exceed the total, and add up to it when every role is one of those
      three. The form and the role filter offer `admin`, not `system-admin`. */
  lemma RoleCountersPartition(users: seq<Row>)
    ensures var st := StatsOf(users);
      st.admins + st.responders + st.users == Count(users, KnownRole) <= st.total
    ensures (forall i :: 0 <= i < |users| ==> KnownRole(users[i])) ==>
      var st := StatsOf(users); st.admins + st.responders + st.users == st.total
  {
    CountDisjointUnion(users, RoleIs("system-admin"), RoleIs("responder"), IsAdminOrResponder);
    CountDisjointUnion(users, IsAdminOrResponder, RoleIs("user"), KnownRole);
    if forall i :: 0 <= i < |users| ==> KnownRole(users[i]) {
      FilterAll(users, KnownRole);
    }
  }

  /** A user the form creates as `admin` is in none of the role counters. */
  lemma AdminInNoCounter(users: seq<Row>, u: Row)
    requires u.role == "admin"
    ensures var st := StatsOf(users + [u]);
      && st.total == |users| + 1
      && st.admins + st.responders + st.users == Count(users, KnownRole)
  {
    RoleCountersPartition(users + [u]);
    CountAppend(users, [u], KnownRole);
  }

  // ---------------------------------------------------------------- rows

  /** A row shows Delete unless it is the signed-in user's own row. */
  function ShowsDelete(u: Row, sessionUserId: Option<string>): (shown: bool)
    ensures sessionUserId.None? ==> shown
    ensures sessionUserId.Some? ==> (shown <==> u.id != sessionUserId.value)
  {
    sessionUserId != Some(u.id)
  }
}
