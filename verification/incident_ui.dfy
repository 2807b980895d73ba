/** The incident management console (components/EmergencyManagement.tsx): the
    list filters, the actions each row offers, the requests those actions send,
    and the header counters. */
module IncidentConsole {
  import opened Common
  import opened Text
  import opened EmergencyModel
  import opened Session

  // ---------------------------------------------------------------- filters

  /** The search box matches the reporter's name (case-insensitively), the
      phone (exactly as typed) or the incident type (case-insensitively). */
  predicate SearchHit(e: Emergency, term: string) {
    Contains(Lower(e.userName), Lower(term))
    || Contains(e.userPhone, term)
    || Contains(Lower(TypeName(e.emergencyType)), Lower(term))
  }

  /** Every active filter accepts the record; `'all'` and an empty search accept everything. */
  predicate Keep(e: Emergency, term: string, status: string, severity: string, kind: string) {
    (term == "" || SearchHit(e, term))
    && (status == "all" || e.status == status)
    && (severity == "all" || SeverityName(e.severity) == severity)
    && (kind == "all" || TypeName(e.emergencyType) == kind)
  }

  /** The single filters; each accepts everything when it is inactive. */
  function BySearch(term: string): Emergency -> bool {
    (e: Emergency) => term == "" || SearchHit(e, term)
  }

  function ByStatus(status: string): Emergency -> bool {
    (e: Emergency) => status == "all" || e.status == status
  }

  function BySeverity(severity: string): Emergency -> bool {
    (e: Emergency) => severity == "all" || SeverityName(e.severity) == severity
  }

  function ByKind(kind: string): Emergency -> bool {
    (e: Emergency) => kind == "all" || TypeName(e.emergencyType) == kind
  }

  function ByAll(term: string, status: string, severity: string, kind: string): Emergency -> bool {
    (e: Emergency) => Keep(e, term, status, severity, kind)
  }

  function ByFirstTwo(term: string, status: string): Emergency -> bool {
    (e: Emergency) => BySearch(term)(e) && ByStatus(status)(e)
  }

  function ByFirstThree(term: string, status: string, severity: string): Emergency -> bool {
    (e: Emergency) => ByFirstTwo(term, status)(e) && BySeverity(severity)(e)
  }

  /** `filterEmergencies`: the four filters applied one after another, each only when active. */
  function FilterEmergencies(es: seq<Emergency>, term: string, status: string, severity: string, kind: string)
    : (r: seq<Emergency>)
    ensures IsSubsequence(r, es)
    ensures forall i :: 0 <= i < |r| ==> Keep(r[i], term, status, severity, kind)
    ensures forall i :: 0 <= i < |es| && Keep(es[i], term, status, severity, kind) ==> es[i] in r
  {
    var r := Stage(Stage(Stage(Stage(es, term != "", BySearch(term)),
                                status != "all", ByStatus(status)),
                          severity != "all", BySeverity(severity)),
                    kind != "all", ByKind(kind));
    FilterChainKeep(es, term, status, severity, kind);
    r
  }

  lemma {:induction false} TwoStages(es: seq<Emergency>, term: string, status: string)
    ensures Stage(Stage(es, term != "", BySearch(term)), status != "all", ByStatus(status))
         == Filter(es, ByFirstTwo(term, status))
  {
    var a := Stage(es, term != "", BySearch(term));
    StageIsFilter(es, term != "", BySearch(term));
    StageIsFilter(a, status != "all", ByStatus(status));
    FilterFilter(es, BySearch(term), ByStatus(status), ByFirstTwo(term, status));
  }

  lemma {:induction false} ThreeStages(es: seq<Emergency>, term: string, status: string, severity: string)
    ensures Stage(Stage(Stage(es, term != "", BySearch(term)), status != "all", ByStatus(status)),
                  severity != "all", BySeverity(severity))
         == Filter(es, ByFirstThree(term, status, severity))
  {
    var b := Stage(Stage(es, term != "", BySearch(term)), status != "all", ByStatus(status));
    TwoStages(es, term, status);
    StageIsFilter(b, severity != "all", BySeverity(severity));
    FilterFilter(es, ByFirstTwo(term, status), BySeverity(severity), ByFirstThree(term, status, severity));
  }

  /** The chain of filters is one filter by the conjunction. */
  lemma {:induction false} FilterChainKeep(es: seq<Emergency>, term: string, status: string, severity: string, kind: string)
    ensures Stage(Stage(Stage(Stage(es, term != "", BySearch(term)),
                              status != "all", ByStatus(status)),
                        severity != "all", BySeverity(severity)),
                  kind != "all", ByKind(kind))
         == Filter(es, ByAll(term, status, severity, kind))
  {
    var c := Stage(Stage(Stage(es, term != "", BySearch(term)), status != "all", ByStatus(status)),
                   severity != "all", BySeverity(severity));
    StageIsFilter(c, kind != "all", ByKind(kind));
    ThreeStages(es, term, status, severity);
    FourthFilter(es, term, status, severity, kind);
  }

  /** Filtering by the kind after the first three is filtering by all four. */
  lemma {:induction false} FourthFilter(es: seq<Emergency>, term: string, status: string, severity: string, kind: string)
    ensures Filter(Filter(es, ByFirstThree(term, status, severity)), ByKind(kind))
         == Filter(es, ByAll(term, status, severity, kind))
  {
    var three := ByFirstThree(term, status, severity);
    var all := ByAll(term, status, severity, kind);
    forall x | x in es ensures all(x) == (three(x) && ByKind(kind)(x)) {
      assert three(x) == (ByFirstTwo(term, status)(x) && BySeverity(severity)(x));
      assert ByFirstTwo(term, status)(x) == (BySearch(term)(x) && ByStatus(status)(x));
    }
    FilterFilter(es, three, ByKind(kind), all);
  }

  /** With every filter at `'all'` and no search, the list is shown unchanged. */
  lemma NoFilterKeepsAll(es: seq<Emergency>)
    ensures FilterEmergencies(es, "", "all", "all", "all") == es
  {
    FilterChainKeep(es, "", "all", "all", "all");
    FilterAll(es, ByAll("", "all", "all", "all"));
  }

  // ---------------------------------------------------------------- actions

  datatype Action = View | Chat | Acknowledge | Respond | Resolve | Cancel | Delete

  /** The buttons a row shows, for a record status and the session's role. */
  function OfferedActions(status: string, role: Option<string>): (acts: set<Action>)
    ensures View in acts
    ensures Delete in acts <==> role == Some("system-admin")
    ensures Cancel in acts <==> status != "resolved" && status != "cancelled"
  {
    {View}
    + (if status == "pending" then {Acknowledge, Respond, Chat} else {})
    + (if status == "acknowledged" then {Respond, Chat} else {})
    + (if status == "responding" || status == "acknowledged" then {Resolve, Chat} else {})
    + (if status != "resolved" && status != "cancelled" then {Cancel} else {})
    + (if role == Some("system-admin") then {Delete} else {})
  }

  /** The actions that move a record along its lifecycle. */
  function Lifecycle(acts: set<Action>): set<Action> {
    acts * {Acknowledge, Respond, Resolve, Cancel}
  }

  /** The status each lifecycle action requests. */
  function Target(a: Action): Option<Status> {
    match a
    case Acknowledge => Some(Acknowledged)
    case Respond => Some(Responding)
    case Resolve => Some(Resolved)
    case Cancel => Some(Cancelled)
    case _ => None
  }

  /** Progress order of the lifecycle: both terminal states share the top rank. */
  function Rank(s: Status): nat {
    match s
    case Pending => 0
    case Acknowledged => 1
    case Responding => 2
    case Resolved => 3
    case Cancelled => 3
  }

  /** The table, status by status. */
  lemma ActionTable(role: Option<string>)
    ensures Lifecycle(OfferedActions("pending", role)) == {Acknowledge, Respond, Cancel}
    ensures Lifecycle(OfferedActions("acknowledged", role)) == {Respond, Resolve, Cancel}
    ensures Lifecycle(OfferedActions("responding", role)) == {Resolve, Cancel}
    ensures Lifecycle(OfferedActions("resolved", role)) == {}
    ensures Lifecycle(OfferedActions("cancelled", role)) == {}
  {
  }

  /** Every lifecycle action offered on a known status moves strictly forward,
      and a status with nothing further to offer is a terminal one. */
  lemma MonotoneProgress(s: Status, role: Option<string>, a: Action)
    requires a in Lifecycle(OfferedActions(StatusName(s), role))
    ensures Target(a).Some? && Rank(Target(a).value) > Rank(s)
    ensures s != Resolved && s != Cancelled
  {
  }

  /** Resolved and cancelled records offer no lifecycle action; the others all do. */
  lemma TerminalIff(s: Status, role: Option<string>)
    ensures Lifecycle(OfferedActions(StatusName(s), role)) == {} <==> (s == Resolved || s == Cancelled)
  {
    ActionTable(role);
  }

  // ---------------------------------------------------------------- requests

  /** The modal's form fields. */
  datatype FormData = FormData(estimatedArrival: string, team: string, vehicle: string,
                               equipment: string, notes: string, priority: string)

  datatype Responder = Responder(id: Option<string>, name: Option<string>, respondedAt: int)
  datatype AckDetails = AckDetails(priority: string, notes: string, acknowledgedBy: Option<string>, acknowledgedAt: int)
  datatype ResponseDetails = ResponseDetails(estimatedArrival: string, team: string, vehicle: string,
                                             equipment: string, notes: string, dispatchedAt: int)

  /** A `PATCH /api/emergencies/{id}` body. */
  datatype Patch = Patch(status: string, responder: Option<Responder>, acknowledgeDetails: Option<AckDetails>,
                         responseDetails: Option<ResponseDetails>, resolvedAt: Option<int>)

  datatype Request = PatchRequest(path: string, body: Patch) | DeleteRequest(path: string)

  function ItemPath(id: string): string {
    "/api/emergencies/" + id
  }

  /** `session?.user?.id` and `session?.user?.name`. */
  function SessionId(session: Option<SessionUser>): Option<string> {
    if session.Some? then session.value.id else None
  }

  function SessionName(session: Option<SessionUser>): Option<string> {
    if session.Some? then session.value.name else None
  }

  /** `handleAcknowledge`. */
  function AcknowledgeRequest(id: string, form: Option<FormData>, session: Option<SessionUser>, now: int): (r: Request)
    ensures r.PatchRequest? && r.path == ItemPath(id) && r.body.status == "acknowledged"
    ensures r.body.responder == Some(Responder(SessionId(session), SessionName(session), now))
    ensures r.body.acknowledgeDetails.Some? <==> form.Some?
    ensures form.Some? ==>
      && r.body.acknowledgeDetails.value.priority == form.value.priority
      && r.body.acknowledgeDetails.value.acknowledgedBy == SessionName(session)
    ensures r.body.responseDetails.None? && r.body.resolvedAt.None?
  {
    PatchRequest(ItemPath(id), Patch(
      "acknowledged",
      Some(Responder(SessionId(session), SessionName(session), now)),
      if form.Some? then Some(AckDetails(form.value.priority, form.value.notes, SessionName(session), now)) else None,
      None, None))
  }

  /** `handleRespond`. */
  function RespondRequest(id: string, form: Option<FormData>, session: Option<SessionUser>, now: int): (r: Request)
    ensures r.PatchRequest? && r.path == ItemPath(id) && r.body.status == "responding"
    ensures r.body.responder == Some(Responder(SessionId(session), SessionName(session), now))
    ensures r.body.responseDetails.Some? <==> form.Some?
    ensures form.Some? ==>
      && r.body.responseDetails.value.team == form.value.team
      && r.body.responseDetails.value.estimatedArrival == form.value.estimatedArrival
    ensures r.body.acknowledgeDetails.None? && r.body.resolvedAt.None?
  {
    PatchRequest(ItemPath(id), Patch(
      "responding",
      Some(Responder(SessionId(session), SessionName(session), now)),
      None,
      if form.Some? then Some(ResponseDetails(form.value.estimatedArrival, form.value.team, form.value.vehicle,
                                               form.value.equipment, form.value.notes, now)) else None,
      None))
  }

  /** `handleResolve`, which sends nothing unless the user confirms. */
  function ResolveRequest(id: string, confirmed: bool, now: int): (r: Option<Request>)
    ensures r.Some? <==> confirmed
    ensures r.Some? ==>
      && r.value.PatchRequest? && r.value.path == "/api/emergencies/" + id
      && r.value.body.status == "resolved" && r.value.body.resolvedAt == Some(now)
      && r.value.body.responder.None? && r.value.body.acknowledgeDetails.None? && r.value.body.responseDetails.None?
  {
    if confirmed then Some(PatchRequest(ItemPath(id), Patch("resolved", None, None, None, Some(now)))) else None
  }

  /** `handleCancel`, likewise behind a confirmation. */
  function CancelRequest(id: string, confirmed: bool): (r: Option<Request>)
    ensures r.Some? <==> confirmed
    ensures r.Some? ==>
      && r.value.PatchRequest? && r.value.path == "/api/emergencies/" + id
      && r.value.body.status == "cancelled" && r.value.body.responder.None? && r.value.body.resolvedAt.None?
  {
    if confirmed then Some(PatchRequest(ItemPath(id), Patch("cancelled", None, None, None, None))) else None
  }

  /** `handleDelete`, likewise behind a confirmation. */
  function DeleteItemRequest(id: string, confirmed: bool): (r: Option<Request>)
    ensures r.Some? <==> confirmed
    ensures r.Some? ==> r.value.DeleteRequest? && r.value.path == "/api/emergencies/" + id
  {
    if confirmed then Some(DeleteRequest(ItemPath(id))) else None
  }

  /** The request a lifecycle button sends, with the form passed by the modal. */
  function RequestFor(a: Action, id: string, form: Option<FormData>, session: Option<SessionUser>, now: int): Option<Request> {
    match a
    case Acknowledge => Some(AcknowledgeRequest(id, form, session, now))
    case Respond => Some(RespondRequest(id, form, session, now))
    case Resolve => ResolveRequest(id, true, now)
    case Cancel => CancelRequest(id, true)
    case Delete => DeleteItemRequest(id, true)
    case _ => None
  }

  /** The status a confirmed lifecycle button writes is exactly the table's target. */
  lemma RequestsMatchTargets(a: Action, id: string, form: Option<FormData>, session: Option<SessionUser>, now: int)
    requires a in {Acknowledge, Respond, Resolve, Cancel}
    ensures RequestFor(a, id, form, session, now).Some?
    ensures var r := RequestFor(a, id, form, session, now).value;
      r.PatchRequest? && r.path == ItemPath(id) && ParseStatus(r.body.status) == Target(a)
  {
  }

  // ---------------------------------------------------------------- counters

  /** The console's header counters. */
  datatype Counters = Counters(total: nat, pending: nat, acknowledged: nat, responding: nat, resolved: nat, critical: nat)

  /** Each counter is the number of records with that status (or, for
      `critical`, that severity, whatever the status). */
  function Stats(es: seq<Emergency>): (c: Counters)
    ensures c.total == |es|
    ensures c.pending == Count(es, StatusIs("pending"))
    ensures c.acknowledged == Count(es, StatusIs("acknowledged"))
    ensures c.responding == Count(es, StatusIs("responding"))
    ensures c.resolved == Count(es, StatusIs("resolved"))
    ensures c.critical == Count(es, SeverityIs(Critical)) && c.critical <= c.total
  {
    Counters(|es|, Count(es, StatusIs("pending")), Count(es, StatusIs("acknowledged")),
             Count(es, StatusIs("responding")), Count(es, StatusIs("resolved")), Count(es, SeverityIs(Critical)))
  }

  /** The four status counters never exceed the total: cancelled records (and
      any other status) are simply not counted. */
  lemma {:induction false} StatusCountersBounded(es: seq<Emergency>)
    ensures var c := Stats(es);
      c.pending + c.acknowledged + c.responding + c.resolved
        == c.total - Count(es, (e: Emergency) => e.status !in ["pending", "acknowledged", "responding", "resolved"])
  {
    if |es| > 0 {
      StatusCountersBounded(es[1..]);
    }
  }
}

/** The compact incident list (components/EmergencyList.tsx). */
module IncidentList {
  import opened Common
  import opened EmergencyModel
  import IncidentConsole

  /** The card border for a severity name; unknown names fall back to gray. */
  function SeverityColor(severity: string): string {
    match severity
    case "critical" => "border-red-600 bg-red-50"
    case "high" => "border-orange-600 bg-orange-50"
    case "medium" => "border-yellow-600 bg-yellow-50"
    case "low" => "border-green-600 bg-green-50"
    case _ => "border-gray-600 bg-gray-50"
  }

  /** The status badge for a status name; unknown names fall back to gray. */
  function StatusColor(status: string): string {
    match status
    case "pending" => "bg-yellow-500 text-white"
    case "acknowledged" => "bg-blue-500 text-white"
    case "responding" => "bg-purple-500 text-white"
    case "resolved" => "bg-green-500 text-white"
    case "cancelled" => "bg-gray-500 text-white"
    case _ => "bg-gray-500 text-white"
  }

  /** The badge classes per status, as a table over the enumeration. */
  function StatusClass(s: Status): string {
    match s
    case Pending => "bg-yellow-500 text-white"
    case Acknowledged => "bg-blue-500 text-white"
    case Responding => "bg-purple-500 text-white"
    case Resolved => "bg-green-500 text-white"
    case Cancelled => "bg-gray-500 text-white"
  }

  function SeverityClass(s: Severity): string {
    match s
    case Critical => "border-red-600 bg-red-50"
    case High => "border-orange-600 bg-orange-50"
    case Medium => "border-yellow-600 bg-yellow-50"
    case Low => "border-green-600 bg-green-50"
  }

  /** Both maps are total: a known name gets its class, any other text gets gray. */
  lemma ColorMapsTotal(status: string, severity: string)
    ensures StatusColor(status) == (if ParseStatus(status).Some? then StatusClass(ParseStatus(status).value)
                                    else "bg-gray-500 text-white")
    ensures SeverityColor(severity) == (if ParseSeverity(severity).Some? then SeverityClass(ParseSeverity(severity).value)
                                        else "border-gray-600 bg-gray-50")
  {
  }

  /** A status-change call: `onUpdateStatus(id, status)`. */
  datatype StatusCall = StatusCall(id: string, status: string)

  /** The card's buttons, left to right, as the calls they make; none unless a
      handler is supplied and the record is pending. */
  function Buttons(e: Emergency, hasHandler: bool): (calls: seq<StatusCall>)
    ensures |calls| > 0 <==> hasHandler && e.status == "pending"
    ensures |calls| > 0 ==> calls == [StatusCall(e.id, "acknowledged"), StatusCall(e.id, "responding")]
  {
    if hasHandler && e.status == "pending" then
      [StatusCall(e.id, "acknowledged"), StatusCall(e.id, "responding")]
    else []
  }

  /** The list's two buttons request the same targets the console offers for a pending record. */
  lemma ButtonsAgreeWithConsole(e: Emergency, role: Option<string>)
    requires e.status == "pending"
    ensures var calls := Buttons(e, true);
      && ParseStatus(calls[0].status) == IncidentConsole.Target(IncidentConsole.Acknowledge)
      && ParseStatus(calls[1].status) == IncidentConsole.Target(IncidentConsole.Respond)
      && {IncidentConsole.Acknowledge, IncidentConsole.Respond}
           <= IncidentConsole.OfferedActions(e.status, role)
  {
  }
}

/** The dashboard tiles (components/StatsDashboard.tsx). */
module Dashboard {
  import opened Common
  import opened EmergencyModel
  import UserModel

  datatype Tiles = Tiles(total: nat, pending: nat, active: nat, resolved: nat, critical: nat, activeUsers: nat)

  predicate IsActiveStatus(e: Emergency) {
    e.status in ["acknowledged", "responding"]
  }

  predicate IsOpenCritical(e: Emergency) {
    e.severity == Critical && e.status != "resolved"
  }

  function IsActiveUser(u: UserModel.PublicUser): bool {
    u.isActive
  }

  /** Each tile counts the records (or, for `activeUsers`, the users) that
      pass its test; `critical` leaves out resolved records only. */
  function Stats(es: seq<Emergency>, users: seq<UserModel.PublicUser>): (t: Tiles)
    ensures t.total == |es|
    ensures t.pending == Count(es, StatusIs("pending"))
    ensures t.active == Count(es, IsActiveStatus)
    ensures t.resolved == Count(es, StatusIs("resolved"))
    ensures t.critical == Count(es, IsOpenCritical) && t.critical <= t.total
    ensures t.activeUsers == Count(users, IsActiveUser) && t.activeUsers <= |users|
  {
    Tiles(|es|, Count(es, StatusIs("pending")), Count(es, IsActiveStatus), Count(es, StatusIs("resolved")),
          Count(es, IsOpenCritical), Count(users, IsActiveUser))
  }

  /** `active` is exactly the acknowledged records plus the responding ones. */
  lemma ActiveIsAcknowledgedPlusResponding(es: seq<Emergency>, users: seq<UserModel.PublicUser>)
    ensures Stats(es, users).active
         == Count(es, StatusIs("acknowledged")) + Count(es, StatusIs("responding"))
  {
    CountDisjointUnion(es, StatusIs("acknowledged"), StatusIs("responding"), IsActiveStatus);
  }

  /** pending + active + resolved never exceeds the total. */
  lemma {:induction false} TilesBounded(es: seq<Emergency>, users: seq<UserModel.PublicUser>)
    ensures var t := Stats(es, users);
      t.pending + t.active + t.resolved <= t.total
  {
    if |es| > 0 {
      TilesBounded(es[1..], users);
    }
  }

  /** A cancelled critical record still counts as critical. */
  lemma CancelledCriticalCounted(e: Emergency, users: seq<UserModel.PublicUser>)
    requires e.severity == Critical && e.status == "cancelled"
    ensures Stats([e], users).critical == 1
  {
  }
}
