/** The emergency record as the schema defines it (models/Emergency.ts): the
    closed enumerations, the defaults, the required fields, and what a save
    accepts or rejects. */
module EmergencyModel {
  import opened Common

  datatype EmergencyType = Medical | Fire | Police | Accident | Landslide | Flood | Ambulance
  datatype Severity = Low | Medium | High | Critical
  datatype Status = Pending | Acknowledged | Responding | Resolved | Cancelled

  function TypeName(t: EmergencyType): string {
    match t
    case Medical => "medical"
    case Fire => "fire"
    case Police => "police"
    case Accident => "accident"
    case Landslide => "landslide"
    case Flood => "flood"
    case Ambulance => "ambulance"
  }

  function SeverityName(s: Severity): string {
    match s
    case Low => "low"
    case Medium => "medium"
    case High => "high"
    case Critical => "critical"
  }

  function StatusName(s: Status): string {
    match s
    case Pending => "pending"
    case Acknowledged => "acknowledged"
    case Responding => "responding"
    case Resolved => "resolved"
    case Cancelled => "cancelled"
  }

  /** The schema's enum check for `emergencyType`. */
  function ParseType(s: string): (r: Option<EmergencyType>)
    ensures r.Some? ==> TypeName(r.value) == s
  {
    if s == "medical" then Some(Medical)
    else if s == "fire" then Some(Fire)
    else if s == "police" then Some(Police)
    else if s == "accident" then Some(Accident)
    else if s == "landslide" then Some(Landslide)
    else if s == "flood" then Some(Flood)
    else if s == "ambulance" then Some(Ambulance)
    else None
  }

  /** The schema's enum check for `severity`. */
  function ParseSeverity(s: string): (r: Option<Severity>)
    ensures r.Some? ==> SeverityName(r.value) == s
  {
    if s == "low" then Some(Low)
    else if s == "medium" then Some(Medium)
    else if s == "high" then Some(High)
    else if s == "critical" then Some(Critical)
    else None
  }

  /** The schema's enum check for `status`. */
  function ParseStatus(s: string): (r: Option<Status>)
    ensures r.Some? ==> StatusName(r.value) == s
  {
    if s == "pending" then Some(Pending)
    else if s == "acknowledged" then Some(Acknowledged)
    else if s == "responding" then Some(Responding)
    else if s == "resolved" then Some(Resolved)
    else if s == "cancelled" then Some(Cancelled)
    else None
  }

  /** Each enumeration's names parse back to the value they name, and to nothing else. */
  lemma EnumNamesRoundTrip(t: EmergencyType, v: Severity, s: Status)
    ensures ParseType(TypeName(t)) == Some(t)
    ensures ParseSeverity(SeverityName(v)) == Some(v)
    ensures ParseStatus(StatusName(s)) == Some(s)
  {
  }

  const DefaultSeverity: Severity := Medium
  const DefaultStatus: string := "pending"

  /** The GeoJSON `Point` sub-record: `coordinates` is `[longitude, latitude]`
      (sections 3.1.1 and 3.1.2 of RFC 7946), `accuracy` is optional. */
  datatype Point = Point(longitude: real, latitude: real, accuracy: Option<real>) {
    /** The stored `coordinates` array. */
    function Coordinates(): seq<real> {
      [longitude, latitude]
    }
  }

  /** A stored emergency. `status` is kept as text: the schema's enum is only
      enforced by `save`, and an update by id (server.js) writes any string. */
  datatype Emergency = Emergency(
    id: string,
    lguCode: string,
    userId: string,
    userName: string,
    userPhone: string,
    location: Point,
    emergencyType: EmergencyType,
    severity: Severity,
    status: string,
    description: Option<string>,
    responderId: Option<string>,
    responderName: Option<string>,
    estimatedArrival: Option<int>,
    createdAt: int,
    updatedAt: int)

  /** The document handed to `save`, before defaults and validation. */
  datatype Draft = Draft(
    lguCode: Option<string>,
    userId: Option<string>,
    userName: Option<string>,
    userPhone: Option<string>,
    location: Option<Point>,
    emergencyType: Option<string>,
    severity: Option<string>,
    status: Option<string>,
    description: Option<string>)

  datatype Field = LguCodeField | UserIdField | UserNameField | UserPhoneField
                 | LocationField | TypeField | SeverityField | StatusField


  /** The paths the schema's validators reject: required fields that are missing,
      and enumerated fields whose value is outside the enumeration. A missing
      `severity` or `status` takes its default and passes. */
  function SaveErrors(d: Draft): (errs: set<Field>)
    ensures errs == {} <==>
      && Truthy(d.lguCode) && Truthy(d.userId) && Truthy(d.userName) && Truthy(d.userPhone)
      && d.location.Some?
      && d.emergencyType.Some? && ParseType(d.emergencyType.value).Some?
      && (d.severity.None? || ParseSeverity(d.severity.value).Some?)
      && (d.status.None? || ParseStatus(d.status.value).Some?)
  {
    (if Truthy(d.lguCode) then {} else {LguCodeField})
    + (if Truthy(d.userId) then {} else {UserIdField})
    + (if Truthy(d.userName) then {} else {UserNameField})
    + (if Truthy(d.userPhone) then {} else {UserPhoneField})
    + (if d.location.Some? then {} else {LocationField})
    + (if d.emergencyType.Some? && ParseType(d.emergencyType.value).Some? then {} else {TypeField})
    + (if d.severity.None? || ParseSeverity(d.severity.value).Some? then {} else {SeverityField})
    + (if d.status.None? || ParseStatus(d.status.value).Some? then {} else {StatusField})
  }

  datatype SaveResult = Saved(record: Emergency) | Rejected(fields: set<Field>)

  /** Every stored record satisfies the schema: required text present and the status in its enumeration. */
  predicate WellFormed(e: Emergency) {
    e.lguCode != "" && e.userId != "" && e.userName != "" && e.userPhone != ""
    && ParseStatus(e.status).Some?
  }

  /** `save` on a new document: validation, then defaults and timestamps. */
  function Save(d: Draft, id: string, now: int): (r: SaveResult)
    ensures r.Rejected? <==> SaveErrors(d) != {}
    ensures r.Rejected? ==> r.fields == SaveErrors(d)
    ensures r.Saved? ==> WellFormed(r.record)
    ensures r.Saved? ==> r.record.id == id && r.record.createdAt == now && r.record.updatedAt == now
    ensures r.Saved? ==>
      && Some(r.record.lguCode) == d.lguCode && Some(r.record.userId) == d.userId
      && Some(r.record.userName) == d.userName && Some(r.record.userPhone) == d.userPhone
      && Some(r.record.location) == d.location && Some(TypeName(r.record.emergencyType)) == d.emergencyType
      && r.record.description == d.description
    ensures r.Saved? ==> r.record.severity == (if d.severity.None? then DefaultSeverity else ParseSeverity(d.severity.value).value)
    ensures r.Saved? ==> r.record.status == d.status.GetOr(DefaultStatus)
    ensures r.Saved? ==> r.record.responderId.None? && r.record.responderName.None? && r.record.estimatedArrival.None?
  {
    var errs := SaveErrors(d);
    if errs != {} then Rejected(errs)
    else
      Saved(Emergency(
        id, d.lguCode.value, d.userId.value, d.userName.value, d.userPhone.value,
        d.location.value, ParseType(d.emergencyType.value).value,
        if d.severity.None? then DefaultSeverity else ParseSeverity(d.severity.value).value,
        d.status.GetOr(DefaultStatus), d.description, None, None, None, now, now))
  }

  /** A record missing any one required field is rejected whatever the other fields hold. */
  lemma MissingRequiredRejected(d: Draft, id: string, now: int)
    requires !Truthy(d.lguCode) || !Truthy(d.userId) || !Truthy(d.userName)
          || !Truthy(d.userPhone) || d.location.None? || d.emergencyType.None?
    ensures Save(d, id, now).Rejected?
  {
  }

  /** An empty draft status and severity come out as `pending` and `medium`. */
  lemma SaveDefaults(d: Draft, id: string, now: int)
    requires d.severity.None? && d.status.None? && Save(d, id, now).Saved?
    ensures Save(d, id, now).record.severity == Medium
    ensures ParseStatus(Save(d, id, now).record.status) == Some(Pending)
  {
  }

  /** The record tests behind the `filter(e => e.status === s)` and
      `filter(e => e.severity === v)` counters. */
  function StatusIs(s: string): Emergency -> bool {
    (e: Emergency) => e.status == s
  }

  function SeverityIs(v: Severity): Emergency -> bool {
    (e: Emergency) => e.severity == v
  }

  /** The store holds each id at most once. */
  ghost predicate UniqueIds(store: seq<Emergency>) {
    forall i, j :: 0 <= i < j < |store| ==> store[i].id != store[j].id
  }

  /** `findById`: the record with that id, if any. */
  function FindById(store: seq<Emergency>, id: string): (r: Option<nat>)
    ensures r.Some? ==> r.value < |store| && store[r.value].id == id
    ensures r.None? ==> forall i :: 0 <= i < |store| ==> store[i].id != id
  {
    if |store| == 0 then None
    else if store[|store| - 1].id == id then Some(|store| - 1)
    else FindById(store[..|store| - 1], id)
  }
}

/** The collection route (app/api/emergencies/route.ts): `POST` validates the
    coordinates, builds a GeoJSON point and saves a `pending` record; `GET` lists
    records newest first, filtered by the query parameters that are present. */
module EmergencyRoute {
  import opened Common
  import opened EmergencyModel

  /** The body's `location.accuracy`: falsy, a number, or a value `Number` turns into NaN. */
  datatype AccuracyInput = NoAccuracy | AccuracyNumber(value: real) | AccuracyNaN

  /** The body's `location`; a coordinate is `None` when `Number(...)` gives NaN. */
  datatype LocationBody = LocationBody(longitude: Option<real>, latitude: Option<real>, accuracy: AccuracyInput)

  datatype CreateBody = CreateBody(
    lguCode: Option<string>,
    userId: Option<string>,
    userName: Option<string>,
    userPhone: Option<string>,
    location: Option<LocationBody>,
    emergencyType: Option<string>,
    severity: Option<string>,
    description: Option<string>)

  /** Why the handler's `try` block failed: no `location` object to read, an
      accuracy the schema cannot cast to a number, or the validators' paths. */
  datatype Failure = NoLocationObject | AccuracyCast | Invalid(fields: set<Field>)

  datatype Response =
    | Created(record: Emergency)          // 201
    | BadRequest(error: string)           // 400
    | ServerError(failure: Failure)       // 500

  const InvalidCoordinates: string := "Invalid coordinates"


  function AccuracyOf(a: AccuracyInput): real
    requires !a.AccuracyNaN?
  {
    if a.AccuracyNumber? then a.value else 0.0
  }

  /** The document the handler builds: coordinates in [longitude, latitude]
      order, accuracy defaulting to 0, severity to `medium`, status always `pending`. */
  function DraftOf(body: CreateBody, lon: real, lat: real, accuracy: real): Draft {
    Draft(body.lguCode, body.userId, body.userName, body.userPhone,
          Some(Point(lon, lat, Some(accuracy))), body.emergencyType,
          Some(if Truthy(body.severity) then body.severity.value else "medium"),
          Some("pending"), body.description)
  }

  /** `POST`: the response and the store afterwards. `id` is the fresh ObjectId and `now` the clock. */
  function Post(store: seq<Emergency>, body: CreateBody, id: string, now: int): (out: (Response, seq<Emergency>))
    requires forall i :: 0 <= i < |store| ==> store[i].id != id
    ensures body.location.None? ==> out == (ServerError(NoLocationObject), store)
    ensures body.location.Some? && (body.location.value.longitude.None? || body.location.value.latitude.None?)
      ==> out == (BadRequest(InvalidCoordinates), store)
    ensures (body.location.Some? && body.location.value.longitude.Some? && body.location.value.latitude.Some?
             && body.location.value.accuracy.AccuracyNaN?)
      ==> out == (ServerError(AccuracyCast), store)
    ensures (body.location.Some? && body.location.value.longitude.Some? && body.location.value.latitude.Some?
             && !body.location.value.accuracy.AccuracyNaN?)
      ==>
      var loc := body.location.value;
      var errs := SaveErrors(DraftOf(body, loc.longitude.value, loc.latitude.value, AccuracyOf(loc.accuracy)));
      && (out.0.Created? <==> errs == {})
      && (errs != {} ==> out.0 == ServerError(Invalid(errs)))
    ensures !out.0.Created? ==> out.1 == store
    ensures out.0.Created? ==> out.1 == store + [out.0.record]
    ensures out.0.Created? ==>
      var e := out.0.record;
      && body.location.Some?
      && Some(e.location.longitude) == body.location.value.longitude
      && Some(e.location.latitude) == body.location.value.latitude
      && e.location.Coordinates() == [body.location.value.longitude.value, body.location.value.latitude.value]
      && e.status == "pending"
      && e.id == id && e.createdAt == now
      && (body.location.value.accuracy.NoAccuracy? ==> e.location.accuracy == Some(0.0))
      && (!Truthy(body.severity) ==> e.severity == Medium)
      && Some(e.userId) == body.userId && Some(e.lguCode) == body.lguCode
  {
    if body.location.None? then (ServerError(NoLocationObject), store)
    else
      var loc := body.location.value;
      if loc.longitude.None? || loc.latitude.None? then (BadRequest(InvalidCoordinates), store)
      else if loc.accuracy.AccuracyNaN? then (ServerError(AccuracyCast), store)
      else
        match Save(DraftOf(body, loc.longitude.value, loc.latitude.value, AccuracyOf(loc.accuracy)), id, now)
        case Rejected(fields) => (ServerError(Invalid(fields)), store)
        case Saved(e) => (Created(e), store + [e])
  }

  /** Creating an incident and reading it back by id gives the same coordinate
      pair and the `pending` status; the store keeps unique ids. */
  lemma CreateThenRead(store: seq<Emergency>, body: CreateBody, id: string, now: int)
    requires UniqueIds(store)
    requires forall i :: 0 <= i < |store| ==> store[i].id != id
    requires Post(store, body, id, now).0.Created?
    ensures var store' := Post(store, body, id, now).1;
      && UniqueIds(store')
      && FindById(store', id).Some?
      && store'[FindById(store', id).value].location.Coordinates()
           == [body.location.value.longitude.value, body.location.value.latitude.value]
      && ParseStatus(store'[FindById(store', id).value].status) == Some(Pending)
  {
    var store' := Post(store, body, id, now).1;
    assert store'[|store'| - 1].id == id;
  }

  /** The `find` filter: a status and an LGU constraint, each only when its parameter is given. */
  datatype Query = Query(status: Option<string>, lguCode: Option<string>)

  /** `if (status) query.status = status; if (lguCode) query.lguCode = lguCode;` */
  function BuildQuery(statusParam: Option<string>, lguParam: Option<string>): (q: Query)
    ensures q.status.Some? <==> Truthy(statusParam)
    ensures q.lguCode.Some? <==> Truthy(lguParam)
    ensures q.status.Some? ==> q.status == statusParam
    ensures q.lguCode.Some? ==> q.lguCode == lguParam
  {
    Query(if Truthy(statusParam) then statusParam else None,
          if Truthy(lguParam) then lguParam else None)
  }

  predicate Matches(q: Query, e: Emergency) {
    (q.status.None? || e.status == q.status.value)
    && (q.lguCode.None? || e.lguCode == q.lguCode.value)
  }

  /** `parseInt(limit || '50')` as the store applies it: 0 means no limit and a
      negative limit returns that many records in one batch. */
  function EffectiveLimit(limitParam: Option<int>): Option<nat> {
    var n := limitParam.GetOr(50);
    if n == 0 then None else if n > 0 then Some(n) else Some(-n)
  }

  function CreatedAt(e: Emergency): int {
    e.createdAt
  }

  /** `GET`: matching records, newest `createdAt` first, at most the limit. */
  function List(store: seq<Emergency>, statusParam: Option<string>, lguParam: Option<string>, limitParam: Option<int>): (r: seq<Emergency>)
    ensures forall i :: 0 <= i < |r| ==> Matches(BuildQuery(statusParam, lguParam), r[i])
    ensures SortedDesc(r, CreatedAt)
    ensures EffectiveLimit(limitParam).Some? ==> |r| <= EffectiveLimit(limitParam).value
    ensures multiset(r) <= multiset(store)
  {
    var q := BuildQuery(statusParam, lguParam);
    var p := (e: Emergency) => Matches(q, e);
    var sorted := SortedMatches(store, p, CreatedAt);
    var lim := EffectiveLimit(limitParam);
    var n := if lim.None? then |sorted| else lim.value;
    TakeKeeps(sorted, n, CreatedAt, p);
    var r := Take(sorted, n);
    assert sorted == r + sorted[|r|..];
    FilterSubMultiset(store, p);
    r
  }

  /** The list returns as many records as match, up to the limit, and every matching
      record left out is no newer than any record returned. */
  lemma ListNewestFirst(store: seq<Emergency>, statusParam: Option<string>, lguParam: Option<string>, limitParam: Option<int>)
    ensures var q := BuildQuery(statusParam, lguParam);
      var r := List(store, statusParam, lguParam, limitParam);
      var n := Count(store, e => Matches(q, e));
      && |r| == (if EffectiveLimit(limitParam).Some? && EffectiveLimit(limitParam).value < n then EffectiveLimit(limitParam).value else n)
      && (forall x, j :: x in store && Matches(q, x) && x !in r && 0 <= j < |r| ==> r[j].createdAt >= x.createdAt)
  {
    var q := BuildQuery(statusParam, lguParam);
    var p := (e: Emergency) => Matches(q, e);
    var sorted := SortedMatches(store, p, CreatedAt);
    var lim := EffectiveLimit(limitParam);
    var n := if lim.None? then |sorted| else lim.value;
    var r := List(store, statusParam, lguParam, limitParam);
    assert r == Take(sorted, n);
    forall x | x in store && Matches(q, x) && x !in r
      ensures forall j :: 0 <= j < |r| ==> r[j].createdAt >= x.createdAt
    {
      assert x in Filter(store, p);
      assert x in multiset(sorted);
      TakeOmitsLower(sorted, n, CreatedAt, x);
    }
  }


  /** With neither `status` nor `lguCode`, the list is drawn from every LGU:
      every record matches, so the default call returns min(50, |store|) records. */
  lemma ListUnfiltered(store: seq<Emergency>)
    ensures forall e :: Matches(BuildQuery(None, None), e)
    ensures |List(store, None, None, None)| == if |store| < 50 then |store| else 50
  {
    var q := BuildQuery(None, None);
    FilterAll(store, e => Matches(q, e));
    ListNewestFirst(store, None, None, None);
  }
}
