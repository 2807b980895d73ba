/** The report generator (app/api/reports/route.ts): the incidents created in
    a date range, counted by status, severity and type, with responder and
    response-time statistics. Times are milliseconds since the epoch. */
module Reports {
  import opened Common
  import opened Decimal
  import opened EmergencyModel
  import EmergencyRoute

  datatype Body = Body(startDate: Option<string>, endDate: Option<string>, kind: Option<string>)

  datatype StatusCounts = StatusCounts(pending: nat, acknowledged: nat, responding: nat, resolved: nat, cancelled: nat)

  datatype SeverityCounts = SeverityCounts(critical: nat, high: nat, medium: nat, low: nat)

  /** The `byType` object under its own keys: `crime` counts flood records,
      `other` counts ambulance records, and police records fall under no key. */
  datatype TypeCounts = TypeCounts(medical: nat, fire: nat, crime: nat, accident: nat, landslide: nat, other: nat)

  datatype ResponderCount = ResponderCount(name: string, count: nat)

  datatype ResponseStats = ResponseStats(averageResponseTime: string, totalResponders: nat, resolvedCount: nat, resolutionRate: nat)

  datatype Report = Report(
    period: string,
    totalEmergencies: nat,
    byStatus: StatusCounts,
    bySeverity: SeverityCounts,
    byType: TypeCounts,
    responseStats: ResponseStats,
    topResponders: seq<ResponderCount>,
    emergenciesList: seq<Emergency>)

  datatype Response = Generated(report: Report) | Unauthorized | DatesRequired | ServerError

  /** Which way round a record's response minutes are taken: the route passes
      `createdAt` first; the corrected rule passes `updatedAt` first. */
  datatype MinutesRule = CreatedMinusUpdated | UpdatedMinusCreated

  const MillisPerMinute: nat := 60000
  const TopCount: nat := 5

  function TypeIs(t: EmergencyType): Emergency -> bool {
    (e: Emergency) => e.emergencyType == t
  }

  function InRange(from: int, to: int): Emergency -> bool {
    (e: Emergency) => from <= e.createdAt <= to
  }

  function HasResponder(e: Emergency): bool {
    Truthy(e.responderName)
  }

  /** The record bears the (non-empty) responder name `n`. */
  function RespondedBy(n: string): Emergency -> bool {
    (e: Emergency) => n != "" && e.responderName == Some(n)
  }

  /** The range query: records with `from <= createdAt <= to`, newest first. */
  function Selected(store: seq<Emergency>, from: int, to: int): (r: seq<Emergency>)
    ensures forall i :: 0 <= i < |r| ==> from <= r[i].createdAt <= to
    ensures multiset(r) == multiset(Filter(store, InRange(from, to)))
    ensures |r| == Count(store, InRange(from, to))
    ensures SortedDesc(r, EmergencyRoute.CreatedAt)
  {
    var matching := Filter(store, InRange(from, to));
    var r := SortDesc(matching, EmergencyRoute.CreatedAt);
    assert forall i :: 0 <= i < |r| ==> r[i] in multiset(matching);
    r
  }

  /** JavaScript `Math.trunc(a / b)`: the multiple of `b` nearest to `a` on the zero side. */
  function TruncDiv(a: int, b: nat): (r: int)
    requires b > 0
    ensures a >= 0 ==> 0 <= r * b <= a < r * b + b
    ensures a < 0 ==> r * b - b < a <= r * b <= 0
  {
    var q := (if a >= 0 then a else -a) / b;
    DivBounds(if a >= 0 then a else -a, b);
    if a >= 0 then q else
      assert -q * b == -(q * b);
      -q
  }

  lemma DivBounds(a: nat, b: nat)
    requires b > 0
    ensures 0 <= (a / b) * b <= a < (a / b) * b + b
  {
    assert a == (a / b) * b + a % b;
  }

  /** `Math.round(a / b)` for `b > 0`: the integer nearest `a / b`, halves rounding up. */
  function RoundRatio(a: int, b: nat): (r: int)
    requires b > 0
    ensures b * (2 * r - 1) <= 2 * a < b * (2 * r + 1)
  {
    var q := (2 * a + b) / (2 * b);
    assert 2 * b * q <= 2 * a + b < 2 * b * q + 2 * b;
    q
  }

  /** date-fns `differenceInMinutes(left, right)`: whole minutes from `right` to `left`, truncated. */
  function MinutesBetween(left: int, right: int): int {
    TruncDiv(left - right, MillisPerMinute)
  }

  function ResponseMinutes(rule: MinutesRule, e: Emergency): (m: int)
    ensures rule.CreatedMinusUpdated? && e.updatedAt >= e.createdAt ==> m <= 0
    ensures rule.UpdatedMinusCreated? && e.updatedAt >= e.createdAt ==> m >= 0
    ensures rule.UpdatedMinusCreated? && e.updatedAt - e.createdAt >= MillisPerMinute ==> m >= 1
  {
    match rule
    case CreatedMinusUpdated => MinutesBetween(e.createdAt, e.updatedAt)
    case UpdatedMinusCreated => MinutesBetween(e.updatedAt, e.createdAt)
  }

  function TotalMinutes(rule: MinutesRule, es: seq<Emergency>): int {
    if |es| == 0 then 0 else ResponseMinutes(rule, es[0]) + TotalMinutes(rule, es[1..])
  }

  /** The rounded mean of the response minutes of the records with a responder, or 0 when there are none. */
  function AverageMinutes(rule: MinutesRule, es: seq<Emergency>): int {
    var responded := Filter(es, HasResponder);
    if |responded| > 0 then RoundRatio(TotalMinutes(rule, responded), |responded|) else 0
  }

  /** The `averageResponseTime` label: `N/A`, `<m> min`, or `<h>h <m>m`. */
  function FormatMinutes(m: int): string {
    if m > 0 then
      if m < 60 then NatToString(m) + " min"
      else NatToString(m / 60) + "h " + NatToString(m % 60) + "m"
    else "N/A"
  }

  /** The label is `N/A` exactly for non-positive averages, and different
      positive averages get different labels. */
  lemma FormatMinutesFaithful(m: int, n: int)
    ensures FormatMinutes(m) == "N/A" <==> m <= 0
    ensures m > 0 && n > 0 && FormatMinutes(m) == FormatMinutes(n) ==> m == n
  {
    if m > 0 {
      assert IsDigit(FormatMinutes(m)[0]);
    }
    if m > 0 && n > 0 && FormatMinutes(m) == FormatMinutes(n) {
      FormatInjective(m, n);
    }
  }

  /** The next-to-last character of a positive label tells the two forms apart. */
  lemma FormatShape(m: int)
    requires m > 0
    ensures |FormatMinutes(m)| >= 3
    ensures m < 60 <==> FormatMinutes(m)[|FormatMinutes(m)| - 2] == 'i'
  {
    if m >= 60 {
      var b := NatToString(m % 60);
      var s := FormatMinutes(m);
      assert s == NatToString(m / 60) + "h " + b + "m";
      assert s[|s| - 2] == b[|b| - 1];
      assert IsDigit(b[|b| - 1]);
    }
  }

  lemma FormatInjective(m: int, n: int)
    requires m > 0 && n > 0 && FormatMinutes(m) == FormatMinutes(n)
    ensures m == n
  {
    var s := FormatMinutes(m);
    FormatShape(m);
    FormatShape(n);
    if m < 60 {
      var a, b := NatToString(m), NatToString(n);
      assert |a| == |b|;
      assert a == s[..|a|] == b;
      NatToStringInjective(m, n);
    } else {
      var a1, b1 := NatToString(m / 60), NatToString(m % 60);
      var a2, b2 := NatToString(n / 60), NatToString(n % 60);
      assert s == a1 + "h " + b1 + "m" && s == a2 + "h " + b2 + "m";
      assert s[|a1|] == 'h' && s[|a2|] == 'h';
      assert |a1| == |a2|;
      assert a1 == s[..|a1|] == a2;
      assert b1 == s[|a1| + 2..|s| - 1] == b2;
      NatToStringInjective(m / 60, n / 60);
      NatToStringInjective(m % 60, n % 60);
      assert m == (m / 60) * 60 + m % 60 && n == (n / 60) * 60 + n % 60;
    }
  }

  /** A non-positive total averages to at most 0; a total of at least one per record averages to at least 1. */
  lemma RoundRatioSign(a: int, b: nat)
    requires b > 0
    ensures a <= 0 ==> RoundRatio(a, b) <= 0
    ensures a >= b ==> RoundRatio(a, b) >= 1
  {
    var r := RoundRatio(a, b);
    if r >= 1 {
      assert b * (2 * r - 1) >= b * 1;
    }
    if r <= 0 {
      assert b * (2 * r + 1) <= b * 1;
    }
  }

  /** `Math.round(resolved / total * 100)`, or 0 with no records. */
  function ResolutionRate(resolved: nat, total: nat): (r: int)
    ensures total == 0 ==> r == 0
    ensures total > 0 ==> total * (2 * r - 1) <= 200 * resolved < total * (2 * r + 1)
    ensures resolved <= total ==> 0 <= r <= 100
  {
    if total > 0 then
      var r := RoundRatio(100 * resolved, total);
      RateBounds(resolved, total, r);
      r
    else 0
  }

  /** A rounded percentage of a part of the whole lies in [0, 100]. */
  lemma RateBounds(resolved: nat, total: nat, r: int)
    requires total > 0 && total * (2 * r - 1) <= 200 * resolved < total * (2 * r + 1)
    ensures resolved <= total ==> 0 <= r <= 100
  {
    if resolved <= total {
      assert total * (2 * r + 1) > 0;
      PositiveFactor(total, 2 * r + 1);
      assert total * (2 * r - 1) <= total * 200;
      CancelFactor(total, 2 * r - 1, 200);
    }
  }

  lemma PositiveFactor(x: int, y: int)
    requires x > 0 && x * y > 0
    ensures y > 0
  {
    assert y <= 0 ==> x * y <= 0;
  }

  lemma CancelFactor(x: int, y: int, z: int)
    requires x > 0 && x * y <= x * z
    ensures y <= z
  {
    assert x * (z - y) >= 0;
    assert z - y < 0 ==> x * (z - y) < 0;
  }

  /** The responder names of the records that have one, in list order. */
  function Names(es: seq<Emergency>): (r: seq<string>)
    ensures forall i :: 0 <= i < |r| ==> r[i] != ""
    ensures forall n :: multiset(r)[n] == Count(es, RespondedBy(n))
  {
    if |es| == 0 then []
    else
      var rest := Names(es[1..]);
      var r := if HasResponder(es[0]) then [es[0].responderName.value] + rest else rest;
      forall n ensures multiset(r)[n] == Count(es, RespondedBy(n)) {
        assert Count(es, RespondedBy(n)) == (if RespondedBy(n)(es[0]) then 1 else 0) + Count(es[1..], RespondedBy(n));
        assert multiset(r)[n] == (if HasResponder(es[0]) && n == es[0].responderName.value then 1 else 0) + multiset(rest)[n];
      }
      r
  }

  /** A name is among the responder names exactly when some record bears it. */
  lemma NamesMember(es: seq<Emergency>, n: string)
    ensures n in Names(es) <==> exists e :: e in es && RespondedBy(n)(e)
  {
    CountPositive(es, RespondedBy(n));
    assert n in Names(es) <==> multiset(Names(es))[n] > 0;
  }

  function CountKey(rc: ResponderCount): int {
    rc.count
  }

  /** The responder map's entries in first-occurrence order. */
  function Entries(es: seq<Emergency>): seq<ResponderCount> {
    var names := Names(es);
    var d := Dedup(names);
    seq(|d|, i requires 0 <= i < |d| => ResponderCount(d[i], multiset(names)[d[i]]))
  }

  /** Each entry holds a non-empty responder name and the number of records bearing it. */
  lemma EntryCounts(es: seq<Emergency>)
    ensures var r := Entries(es);
      forall i :: 0 <= i < |r| ==> r[i].name != "" && r[i].count == Count(es, RespondedBy(r[i].name))
  {
    var names := Names(es);
    var d := Dedup(names);
    var r := Entries(es);
    forall i | 0 <= i < |r| ensures r[i].name != "" && r[i].count == Count(es, RespondedBy(r[i].name)) {
      assert r[i].name == d[i] && d[i] in names;
    }
  }

  /** No name has two entries, and every responder name has one. */
  lemma EntryNames(es: seq<Emergency>)
    ensures var r := Entries(es);
      && (forall i, j :: 0 <= i < j < |r| ==> r[i].name != r[j].name)
      && (forall n :: Count(es, RespondedBy(n)) > 0 ==> exists k :: 0 <= k < |r| && r[k].name == n)
  {
    var names := Names(es);
    var d := Dedup(names);
    var r := Entries(es);
    forall i, j | 0 <= i < j < |r| ensures r[i].name != r[j].name {
      assert r[i].name == d[i] && r[j].name == d[j];
    }
    forall n | Count(es, RespondedBy(n)) > 0 ensures exists k :: 0 <= k < |r| && r[k].name == n {
      assert n in multiset(names);
      var p :| 0 <= p < |names| && names[p] == n;
      assert names[p] in d;
      var k :| 0 <= k < |d| && d[k] == n;
      assert r[k].name == n;
    }
  }

  /** The entries sorted by count, first five. */
  function TopResponders(es: seq<Emergency>): seq<ResponderCount> {
    Take(SortDesc(Entries(es), CountKey), TopCount)
  }

  /** `responderMap.size`. */
  function TotalResponders(es: seq<Emergency>): nat {
    |Dedup(Names(es))|
  }

  function Period(kind: Option<string>): string {
    if kind == Some("weekly") then "Weekly Report"
    else if kind == Some("monthly") then "Monthly Report"
    else "Custom Report"
  }

  function StatusCountsOf(es: seq<Emergency>): StatusCounts {
    StatusCounts(Count(es, StatusIs("pending")), Count(es, StatusIs("acknowledged")),
                 Count(es, StatusIs("responding")), Count(es, StatusIs("resolved")), Count(es, StatusIs("cancelled")))
  }

  function SeverityCountsOf(es: seq<Emergency>): SeverityCounts {
    SeverityCounts(Count(es, SeverityIs(Critical)), Count(es, SeverityIs(High)),
                   Count(es, SeverityIs(Medium)), Count(es, SeverityIs(Low)))
  }

  function TypeCountsOf(es: seq<Emergency>): TypeCounts {
    TypeCounts(Count(es, TypeIs(Medical)), Count(es, TypeIs(Fire)), Count(es, TypeIs(Flood)),
               Count(es, TypeIs(Accident)), Count(es, TypeIs(Landslide)), Count(es, TypeIs(Ambulance)))
  }

  function ResponseStatsOf(rule: MinutesRule, es: seq<Emergency>): ResponseStats {
    var resolved := Count(es, StatusIs("resolved"));
    ResponseStats(FormatMinutes(AverageMinutes(rule, es)), TotalResponders(es), resolved, ResolutionRate(resolved, |es|))
  }

  /** The aggregation over the selected records. */
  function Build(rule: MinutesRule, kind: Option<string>, es: seq<Emergency>): Report {
    Report(Period(kind), |es|, StatusCountsOf(es), SeverityCountsOf(es), TypeCountsOf(es),
           ResponseStatsOf(rule, es), TopResponders(es), es)
  }

  /** `POST` under a minutes rule. `hasSession` is the session lookup, `toTime`
      is `new Date(...)` (None for an invalid date, on which the query throws)
      and `db` is the store, None when it cannot be reached. */
  function PostUnder(rule: MinutesRule, hasSession: bool, body: Body, toTime: string -> Option<int>, db: Option<seq<Emergency>>): (r: Response)
    ensures !hasSession ==> r.Unauthorized?
    ensures hasSession && (!Truthy(body.startDate) || !Truthy(body.endDate)) ==> r.DatesRequired?
    ensures r.Generated? ==>
      && hasSession && Truthy(body.startDate) && Truthy(body.endDate) && db.Some?
      && toTime(body.startDate.value).Some? && toTime(body.endDate.value).Some?
      && var from, to := toTime(body.startDate.value).value, toTime(body.endDate.value).value;
         && r.report.emergenciesList == Selected(db.value, from, to)
         && r.report.totalEmergencies == Count(db.value, InRange(from, to))
    ensures hasSession && Truthy(body.startDate) && Truthy(body.endDate) && !r.Generated? ==>
      && r.ServerError?
      && (db.None? || toTime(body.startDate.value).None? || toTime(body.endDate.value).None?)
    ensures r.Generated? ==> r.report == Build(rule, body.kind, r.report.emergenciesList)
  {
    if !hasSession then Unauthorized
    else if !Truthy(body.startDate) || !Truthy(body.endDate) then DatesRequired
    else
      var from, to := toTime(body.startDate.value), toTime(body.endDate.value);
      if from.None? || to.None? || db.None? then ServerError
      else Generated(Build(rule, body.kind, Selected(db.value, from.value, to.value)))
  }

  /** The route with the corrected response minutes. */
  function Post(hasSession: bool, body: Body, toTime: string -> Option<int>, db: Option<seq<Emergency>>): (r: Response)
    ensures r.Unauthorized? <==> !hasSession
    ensures r.Generated? ==> r.report == Build(UpdatedMinusCreated, body.kind, r.report.emergenciesList)
    ensures r.Generated? ==> r.report.responseStats.averageResponseTime == FormatMinutes(AverageMinutes(UpdatedMinusCreated, r.report.emergenciesList))
  {
    PostUnder(UpdatedMinusCreated, hasSession, body, toTime, db)
  }

  /** The session and date checks come before the query: their answers do not depend on the store. */
  lemma ChecksBeforeQuery(rule: MinutesRule, hasSession: bool, body: Body, toTime: string -> Option<int>, db1: Option<seq<Emergency>>, db2: Option<seq<Emergency>>)
    requires !hasSession || !Truthy(body.startDate) || !Truthy(body.endDate)
    ensures PostUnder(rule, hasSession, body, toTime, db1) == PostUnder(rule, hasSession, body, toTime, db2)
    ensures PostUnder(rule, hasSession, body, toTime, db1).Unauthorized? || PostUnder(rule, hasSession, body, toTime, db1).DatesRequired?
  {
  }

  /** For records whose status is one of the five, the `byStatus` counts partition the total. */
  lemma {:induction false} StatusPartition(es: seq<Emergency>)
    requires forall e :: e in es ==> ParseStatus(e.status).Some?
    ensures Count(es, StatusIs("pending")) + Count(es, StatusIs("acknowledged")) + Count(es, StatusIs("responding"))
          + Count(es, StatusIs("resolved")) + Count(es, StatusIs("cancelled")) == |es|
  {
    if |es| > 0 {
      assert forall e :: e in es[1..] ==> e in es;
      StatusPartition(es[1..]);
      var st := ParseStatus(es[0].status).value;
      assert es[0].status == StatusName(st);
    }
  }

  /** The four `bySeverity` counts always partition the total. */
  lemma {:induction false} SeverityPartition(es: seq<Emergency>)
    ensures Count(es, SeverityIs(Critical)) + Count(es, SeverityIs(High))
          + Count(es, SeverityIs(Medium)) + Count(es, SeverityIs(Low)) == |es|
  {
    if |es| > 0 {
      SeverityPartition(es[1..]);
    }
  }

  /** The six `byType` keys count everything but police records. */
  lemma {:induction false} TypeCountsMissPolice(es: seq<Emergency>)
    ensures Count(es, TypeIs(Medical)) + Count(es, TypeIs(Fire)) + Count(es, TypeIs(Flood))
          + Count(es, TypeIs(Accident)) + Count(es, TypeIs(Landslide)) + Count(es, TypeIs(Ambulance))
          + Count(es, TypeIs(Police)) == |es|
  {
    if |es| > 0 {
      TypeCountsMissPolice(es[1..]);
    }
  }

  /** The `byStatus` counts are the records under each status name. */
  lemma ReportStatusCounts(es: seq<Emergency>)
    ensures var c := StatusCountsOf(es);
      && c.pending == Count(es, StatusIs(StatusName(Pending)))
      && c.acknowledged == Count(es, StatusIs(StatusName(Acknowledged)))
      && c.responding == Count(es, StatusIs(StatusName(Responding)))
      && c.resolved == Count(es, StatusIs(StatusName(Resolved)))
      && c.cancelled == Count(es, StatusIs(StatusName(Cancelled)))
  {
  }

  /** For records whose status is one of the five, the `byStatus` counts sum to the total. */
  lemma ReportStatusPartition(es: seq<Emergency>)
    requires forall e :: e in es ==> ParseStatus(e.status).Some?
    ensures var c := StatusCountsOf(es);
      c.pending + c.acknowledged + c.responding + c.resolved + c.cancelled == |es|
  {
    StatusPartition(es);
  }

  /** `bySeverity` partitions the total; `byType` counts flood under `crime`,
      ambulance under `other`, and misses police. */
  lemma ReportSeverityAndTypeCounts(es: seq<Emergency>)
    ensures var c := SeverityCountsOf(es);
      c.critical + c.high + c.medium + c.low == |es|
    ensures var t := TypeCountsOf(es);
      && t.crime == Count(es, TypeIs(Flood))
      && t.other == Count(es, TypeIs(Ambulance))
      && t.medical + t.fire + t.crime + t.accident + t.landslide + t.other == |es| - Count(es, TypeIs(Police))
  {
    TypeCountsMissPolice(es);
    SeverityPartition(es);
  }

  /** `resolvedCount` is the resolved records and the rate lies in [0, 100]. */
  lemma ReportResolution(rule: MinutesRule, es: seq<Emergency>)
    ensures var st := ResponseStatsOf(rule, es);
      && st.resolvedCount == Count(es, StatusIs("resolved"))
      && 0 <= st.resolutionRate <= 100
  {
    var resolved := Count(es, StatusIs("resolved"));
    assert resolved <= |es|;
    var rate := ResolutionRate(resolved, |es|);
  }

  /** Every aggregate of a report the route generates is computed from the
      records it lists: the status and severity counts, the resolved count
      and rate, the top responders and the period label. */
  lemma GeneratedReportAgrees(rule: MinutesRule, hasSession: bool, body: Body, toTime: string -> Option<int>,
                              db: Option<seq<Emergency>>)
    requires PostUnder(rule, hasSession, body, toTime, db).Generated?
    ensures var rep := PostUnder(rule, hasSession, body, toTime, db).report; var es := rep.emergenciesList;
      && rep.totalEmergencies == |es|
      && rep.byStatus.pending == Count(es, StatusIs("pending"))
      && rep.byStatus.resolved == Count(es, StatusIs("resolved"))
      && rep.bySeverity.critical + rep.bySeverity.high + rep.bySeverity.medium + rep.bySeverity.low == |es|
      && rep.responseStats.resolvedCount == Count(es, StatusIs("resolved"))
      && 0 <= rep.responseStats.resolutionRate <= 100
      && |rep.topResponders| <= TopCount
      && (forall i :: 0 <= i < |rep.topResponders| ==>
            rep.topResponders[i].count == Count(es, RespondedBy(rep.topResponders[i].name)))
      && rep.period == Period(body.kind)
  {
    var es := PostUnder(rule, hasSession, body, toTime, db).report.emergenciesList;
    ReportStatusCounts(es);
    ReportSeverityAndTypeCounts(es);
    ReportResolution(rule, es);
    TopRespondersFaithful(es);
  }

  /** The period label follows `type`, with anything else a custom report. */
  lemma PeriodLabels(kind: Option<string>)
    ensures Period(Some("weekly")) == "Weekly Report" && Period(Some("monthly")) == "Monthly Report"
    ensures kind != Some("weekly") && kind != Some("monthly") ==> Period(kind) == "Custom Report"
  {
  }

  /** The top responders: at most five, by non-increasing count, each with its
      true count and named once. */
  lemma TopRespondersFaithful(es: seq<Emergency>)
    ensures var top := TopResponders(es);
      && |top| <= TopCount
      && SortedDesc(top, CountKey)
      && (forall i :: 0 <= i < |top| ==> top[i].name != "" && top[i].count == Count(es, RespondedBy(top[i].name)))
      && (forall i, j :: 0 <= i < j < |top| ==> top[i].name != top[j].name)
  {
    var sorted := SortDesc(Entries(es), CountKey);
    SortedEntries(es, Entries(es), sorted);
    TopIsPrefix(sorted, TopResponders(es));
  }

  /** A responder left out of the top list has no more records than any listed,
      and is left out only when five are listed. */
  lemma TopRespondersComplete(es: seq<Emergency>, n: string)
    requires Count(es, RespondedBy(n)) > 0
    requires forall i :: 0 <= i < |TopResponders(es)| ==> TopResponders(es)[i].name != n
    ensures |TopResponders(es)| == TopCount
    ensures forall i :: 0 <= i < |TopResponders(es)| ==> TopResponders(es)[i].count >= Count(es, RespondedBy(n))
  {
    var top := TopResponders(es);
    var sorted := SortDesc(Entries(es), CountKey);
    SortedEntries(es, Entries(es), sorted);
    var k :| 0 <= k < |sorted| && sorted[k].name == n;
    TopOmitted(sorted, top, k);
  }

  lemma TopOmitted(sorted: seq<ResponderCount>, top: seq<ResponderCount>, k: nat)
    requires SortedDesc(sorted, CountKey)
    requires top == Take(sorted, TopCount)
    requires k < |sorted|
    requires forall i :: 0 <= i < |top| ==> top[i].name != sorted[k].name
    ensures |top| == TopCount && forall i :: 0 <= i < |top| ==> top[i].count >= sorted[k].count
  {
    assert top == sorted[..|top|];
    assert forall i :: 0 <= i < |top| ==> sorted[i].name != sorted[k].name;
  }

  /** The first five of a sorted list: any entry not among them is no larger than any that is. */
  lemma TopIsPrefix(sorted: seq<ResponderCount>, top: seq<ResponderCount>)
    requires SortedDesc(sorted, CountKey)
    requires top == Take(sorted, TopCount)
    ensures |top| <= TopCount && SortedDesc(top, CountKey)
    ensures forall i :: 0 <= i < |top| ==> top[i] == sorted[i]
    ensures forall j :: |top| <= j < |sorted| ==> |top| == TopCount && forall i :: 0 <= i < |top| ==> top[i].count >= sorted[j].count
  {
  }

  /** Sorting the entries keeps what the entries say about each name. */
  lemma SortedEntries(es: seq<Emergency>, entries: seq<ResponderCount>, sorted: seq<ResponderCount>)
    requires entries == Entries(es)
    requires multiset(sorted) == multiset(entries)
    ensures forall i :: 0 <= i < |sorted| ==> sorted[i].name != "" && sorted[i].count == Count(es, RespondedBy(sorted[i].name))
    ensures forall i, j :: 0 <= i < j < |sorted| ==> sorted[i].name != sorted[j].name
    ensures forall n :: Count(es, RespondedBy(n)) > 0 ==> exists k :: 0 <= k < |sorted| && sorted[k].name == n
  {
    EntryCounts(es);
    EntryNames(es);
    PermutationKeepsNames(entries, sorted);
    forall n | Count(es, RespondedBy(n)) > 0 ensures exists k :: 0 <= k < |sorted| && sorted[k].name == n {
      var k :| 0 <= k < |entries| && entries[k].name == n;
      var i :| 0 <= i < |sorted| && sorted[i] == entries[k];
    }
  }

  /** A permutation of entries with distinct names has distinct names and the same entries. */
  lemma PermutationKeepsNames(entries: seq<ResponderCount>, sorted: seq<ResponderCount>)
    requires multiset(sorted) == multiset(entries)
    requires forall i, j :: 0 <= i < j < |entries| ==> entries[i].name != entries[j].name
    ensures forall i :: 0 <= i < |sorted| ==> exists k :: 0 <= k < |entries| && sorted[i] == entries[k]
    ensures forall k :: 0 <= k < |entries| ==> exists i :: 0 <= i < |sorted| && sorted[i] == entries[k]
    ensures forall i, j :: 0 <= i < j < |sorted| ==> sorted[i].name != sorted[j].name
  {
    forall i | 0 <= i < |sorted| ensures exists k :: 0 <= k < |entries| && sorted[i] == entries[k] {
      assert sorted[i] in multiset(entries);
    }
    forall k | 0 <= k < |entries| ensures exists i :: 0 <= i < |sorted| && sorted[i] == entries[k] {
      assert entries[k] in multiset(sorted);
    }
    assert Distinct(entries);
    DistinctPermutation(entries, sorted);
    forall i, j | 0 <= i < j < |sorted| ensures sorted[i].name != sorted[j].name {
      var k1 :| 0 <= k1 < |entries| && sorted[i] == entries[k1];
      var k2 :| 0 <= k2 < |entries| && sorted[j] == entries[k2];
    }
  }

  /** `totalResponders` is the number of distinct non-empty responder names. */
  lemma TotalRespondersDistinct(es: seq<Emergency>)
    ensures TotalResponders(es) == |set e | e in es && HasResponder(e) :: e.responderName.value|
  {
    var names := Names(es);
    var d := Dedup(names);
    assert DedupOf(names, d);
    DistinctCardinality(d);
    var byRecord := set e | e in es && HasResponder(e) :: e.responderName.value;
    forall n ensures n in byRecord <==> n in d {
      NamesMember(es, n);
      if n in byRecord {
        var e :| e in es && HasResponder(e) && e.responderName.value == n;
        assert RespondedBy(n)(e);
        assert n in names;
      }
      if n in d {
        assert n in names;
      }
    }
    assert (set x | x in d) == byRecord;
  }

  lemma {:induction false} TotalMinutesNonPositive(es: seq<Emergency>)
    requires forall e :: e in es ==> e.updatedAt >= e.createdAt
    ensures TotalMinutes(CreatedMinusUpdated, es) <= 0
  {
    if |es| > 0 {
      assert forall e :: e in es[1..] ==> e in es;
      TotalMinutesNonPositive(es[1..]);
    }
  }

  lemma {:induction false} TotalMinutesAtLeastOne(es: seq<Emergency>)
    requires forall e :: e in es ==> e.updatedAt - e.createdAt >= MillisPerMinute
    ensures TotalMinutes(UpdatedMinusCreated, es) >= |es|
  {
    if |es| > 0 {
      assert forall e :: e in es[1..] ==> e in es;
      TotalMinutesAtLeastOne(es[1..]);
    }
  }

  /** As written: records are only ever updated after they are created, so the
      route's minutes are never positive and the label is always `N/A`. */
  lemma AsWrittenResponseTimeAlwaysNA(es: seq<Emergency>)
    requires forall e :: e in es ==> e.updatedAt >= e.createdAt
    ensures AverageMinutes(CreatedMinusUpdated, es) <= 0
    ensures ResponseStatsOf(CreatedMinusUpdated, es).averageResponseTime == "N/A"
  {
    var responded := Filter(es, HasResponder);
    TotalMinutesNonPositive(responded);
    if |responded| > 0 {
      RoundRatioSign(TotalMinutes(CreatedMinusUpdated, responded), |responded|);
    }
    FormatMinutesFaithful(AverageMinutes(CreatedMinusUpdated, es), 0);
  }

  /** Corrected: when every responded record was last updated at least a minute
      after it was created, the average is at least one minute and is shown. */
  lemma CorrectedResponseTimeShown(es: seq<Emergency>)
    requires Count(es, HasResponder) > 0
    requires forall e :: e in es && HasResponder(e) ==> e.updatedAt - e.createdAt >= MillisPerMinute
    ensures AverageMinutes(UpdatedMinusCreated, es) >= 1
    ensures ResponseStatsOf(UpdatedMinusCreated, es).averageResponseTime != "N/A"
  {
    var responded := Filter(es, HasResponder);
    TotalMinutesAtLeastOne(responded);
    RoundRatioSign(TotalMinutes(UpdatedMinusCreated, responded), |responded|);
    FormatMinutesFaithful(AverageMinutes(UpdatedMinusCreated, es), 0);
  }

  /** One record answered ten minutes after it was reported: the route prints
      `N/A`, the corrected rule `10 min`. */
  lemma TenMinuteResponse(e: Emergency)
    requires e.responderName == Some("Unit 7") && e.updatedAt == e.createdAt + 10 * MillisPerMinute
    ensures ResponseStatsOf(CreatedMinusUpdated, [e]).averageResponseTime == "N/A"
    ensures ResponseStatsOf(UpdatedMinusCreated, [e]).averageResponseTime == "10 min"
  {
    StatsLabel(CreatedMinusUpdated, [e]);
    StatsLabel(UpdatedMinusCreated, [e]);
    SingleAverage(CreatedMinusUpdated, e);
    SingleAverage(UpdatedMinusCreated, e);
    assert ResponseMinutes(CreatedMinusUpdated, e) == -10;
    assert ResponseMinutes(UpdatedMinusCreated, e) == 10;
    TenMinutesLabel();
  }

  lemma StatsLabel(rule: MinutesRule, es: seq<Emergency>)
    ensures ResponseStatsOf(rule, es).averageResponseTime == FormatMinutes(AverageMinutes(rule, es))
  {
  }

  lemma TenMinutesLabel()
    ensures FormatMinutes(10) == "10 min" && FormatMinutes(-10) == "N/A"
  {
    assert NatToString(10) == "10";
  }

  /** The average over one responded record is that record's minutes. */
  lemma SingleAverage(rule: MinutesRule, e: Emergency)
    requires HasResponder(e)
    ensures AverageMinutes(rule, [e]) == ResponseMinutes(rule, e)
  {
    assert [e][1..] == [];
    assert Filter([e], HasResponder) == [e];
    assert TotalMinutes(rule, [e]) == ResponseMinutes(rule, e);
  }
}
