/** The live map's location poll (app/map/page.tsx, `fetchUsers`): which fetched
    user raises the alert banner, and what the page remembers for the next poll. */
module LocationWatch {
  import opened Common

  /** A user as the location endpoint returns it; `lastSeen` is the instant in milliseconds. */
  datatype MapUser = MapUser(id: string, name: string, lastSeen: int)

  /** A poll's parsed response; a thrown fetch is a poll without success. */
  datatype Poll = Poll(success: bool, data: seq<MapUser>)

  /** The page state the poll touches: the remembered list, the shown list and the alert. */
  datatype Watch = Watch(previous: seq<MapUser>, users: seq<MapUser>, alert: Option<MapUser>)

  /** `previous.find(u => u._id === id)`: the first remembered user with that id. */
  function FindUser(previous: seq<MapUser>, id: string): (r: Option<MapUser>)
    ensures r.None? <==> forall i :: 0 <= i < |previous| ==> previous[i].id != id
    ensures r.Some? ==> exists k :: (0 <= k < |previous| && previous[k] == r.value && r.value.id == id
      && forall j :: 0 <= j < k ==> previous[j].id != id)
  {
    if |previous| == 0 then None
    else if previous[0].id == id then
      Some(previous[0])
    else
      var r := FindUser(previous[1..], id);
      FindUserStep(previous, id, r);
      r
  }

  lemma FindUserStep(previous: seq<MapUser>, id: string, r: Option<MapUser>)
    requires |previous| > 0 && previous[0].id != id
    requires r.None? <==> forall i :: 0 <= i < |previous[1..]| ==> previous[1..][i].id != id
    requires r.Some? ==> exists k :: (0 <= k < |previous[1..]| && previous[1..][k] == r.value && r.value.id == id
      && forall j :: 0 <= j < k ==> previous[1..][j].id != id)
    ensures r.None? <==> forall i :: 0 <= i < |previous| ==> previous[i].id != id
    ensures r.Some? ==> exists k :: (0 <= k < |previous| && previous[k] == r.value && r.value.id == id
      && forall j :: 0 <= j < k ==> previous[j].id != id)
  {
    var rest := previous[1..];
    assert forall i :: 0 < i < |previous| ==> previous[i] == rest[i - 1];
    if r.Some? {
      var k :| 0 <= k < |rest| && rest[k] == r.value && r.value.id == id
        && forall j :: 0 <= j < k ==> rest[j].id != id;
      assert previous[k + 1] == r.value;
    }
  }

  /** A fetched user raises the alert when no remembered user has its id, or
      when the first remembered one was seen strictly earlier. */
  predicate Qualifies(previous: seq<MapUser>, u: MapUser) {
    match FindUser(previous, u.id)
    case None => true
    case Some(seen) => u.lastSeen > seen.lastSeen
  }

  /** The `forEach` with `setAlertUser`: each qualifying user replaces the alert,
      so the last one wins. */
  function Alerting(previous: seq<MapUser>, fetched: seq<MapUser>, current: Option<MapUser>): (r: Option<MapUser>)
    ensures (forall i :: 0 <= i < |fetched| ==> !Qualifies(previous, fetched[i])) ==> r == current
    ensures (exists i :: 0 <= i < |fetched| && Qualifies(previous, fetched[i])) ==>
      exists k :: 0 <= k < |fetched| && Qualifies(previous, fetched[k]) && r == Some(fetched[k])
        && forall j :: k < j < |fetched| ==> !Qualifies(previous, fetched[j])
    decreases |fetched|
  {
    if |fetched| == 0 then current
    else
      var rest := fetched[1..];
      var next := if Qualifies(previous, fetched[0]) then Some(fetched[0]) else current;
      var r := Alerting(previous, rest, next);
      AlertingStep(previous, fetched, current, r);
      r
  }

  lemma AlertingStep(previous: seq<MapUser>, fetched: seq<MapUser>, current: Option<MapUser>, r: Option<MapUser>)
    requires |fetched| > 0
    requires var rest := fetched[1..];
      var next := if Qualifies(previous, fetched[0]) then Some(fetched[0]) else current;
      && ((forall i :: 0 <= i < |rest| ==> !Qualifies(previous, rest[i])) ==> r == next)
      && ((exists i :: 0 <= i < |rest| && Qualifies(previous, rest[i])) ==>
          exists k :: 0 <= k < |rest| && Qualifies(previous, rest[k]) && r == Some(rest[k])
            && forall j :: k < j < |rest| ==> !Qualifies(previous, rest[j]))
    ensures (forall i :: 0 <= i < |fetched| ==> !Qualifies(previous, fetched[i])) ==> r == current
    ensures (exists i :: 0 <= i < |fetched| && Qualifies(previous, fetched[i])) ==>
      exists k :: 0 <= k < |fetched| && Qualifies(previous, fetched[k]) && r == Some(fetched[k])
        && forall j :: k < j < |fetched| ==> !Qualifies(previous, fetched[j])
  {
    var rest := fetched[1..];
    assert forall j :: 0 < j < |fetched| ==> fetched[j] == rest[j - 1];
    if exists i :: 0 <= i < |rest| && Qualifies(previous, rest[i]) {
      var k :| 0 <= k < |rest| && Qualifies(previous, rest[k]) && r == Some(rest[k])
        && forall j :: k < j < |rest| ==> !Qualifies(previous, rest[j]);
      assert fetched[k + 1] == rest[k];
    }
  }

  /** One poll: on success the remembered and shown lists become the fetched list and
      the alert follows `Alerting`; a failed poll leaves the page as it was. */
  function Step(w: Watch, p: Poll): (r: Watch)
    ensures !p.success ==> r == w
    ensures p.success ==> r.previous == p.data && r.users == p.data
  {
    if p.success then Watch(p.data, p.data, Alerting(w.previous, p.data, w.alert)) else w
  }

  /** On the first poll nothing is remembered, so the last fetched user raises the alert. */
  lemma FirstPollAlertsLast(w: Watch, p: Poll)
    requires p.success && w.previous == [] && |p.data| > 0
    ensures Step(w, p).alert == Some(p.data[|p.data| - 1])
  {
    var k :| 0 <= k < |p.data| && Qualifies([], p.data[k]) && Step(w, p).alert == Some(p.data[k])
      && forall j :: k < j < |p.data| ==> !Qualifies([], p.data[j]);
    assert Qualifies([], p.data[|p.data| - 1]);
  }

  /** No two users share an id. */
  predicate UniqueIds(us: seq<MapUser>) {
    forall i, j :: 0 <= i < |us| && 0 <= j < |us| && us[i].id == us[j].id ==> i == j
  }

  /** With distinct ids, fetching the same list again raises no new alert. */
  lemma RepeatPollIsQuiet(w: Watch, p: Poll)
    requires p.success && UniqueIds(p.data)
    ensures Step(Step(w, p), p).alert == Step(w, p).alert
  {
    var d := p.data;
    forall i | 0 <= i < |d| ensures !Qualifies(d, d[i]) {
      var f := FindUser(d, d[i].id);
      var k :| 0 <= k < |d| && d[k] == f.value && f.value.id == d[i].id
        && forall j :: 0 <= j < k ==> d[j].id != d[i].id;
      assert k == i;
    }
  }
}

/** The hospital registry page (app/hospitals/page.tsx): the search and category
    filters over the fetched list (newest `createdAt` first), and the category
    choices. The hospitals are given in that fetched order. */
module HospitalList {
  import opened Common
  import opened Text

  datatype Hospital = Hospital(name: string, address: string, category: string)

  /** `searchParams.q?.toLowerCase() || ""`. */
  function QueryOf(q: Option<string>): (r: string)
    ensures q.None? ==> r == ""
    ensures q.Some? ==> r == Lower(q.value)
  {
    if q.Some? then Lower(q.value) else ""
  }

  /** An empty query matches every hospital; otherwise it must occur in the
      lower-cased name or address. */
  predicate MatchQuery(h: Hospital, query: string) {
    query == "" || Contains(Lower(h.name), query) || Contains(Lower(h.address), query)
  }

  /** An empty category matches every hospital; otherwise it must be equal. */
  predicate MatchCategory(h: Hospital, category: string) {
    category == "" || h.category == category
  }

  function Matching(query: string, category: string): Hospital -> bool {
    (h: Hospital) => MatchQuery(h, query) && MatchCategory(h, category)
  }

  /** `hospitals.map(h => h.category)`. */
  function CategoryColumn(hs: seq<Hospital>): (r: seq<string>)
    ensures |r| == |hs| && forall i :: 0 <= i < |hs| ==> r[i] == hs[i].category
  {
    seq(|hs|, i requires 0 <= i < |hs| => hs[i].category)
  }

  /** What the page shows: the unfiltered count in the header, the filtered rows
      and the distinct categories of all hospitals. */
  datatype View = View(total: nat, rows: seq<Hospital>, categories: seq<string>)

  function Render(hs: seq<Hospital>, q: Option<string>, category: Option<string>): (v: View)
    ensures v.total == |hs|
    ensures IsSubsequence(v.rows, hs)
    ensures forall i :: 0 <= i < |v.rows| ==> MatchQuery(v.rows[i], QueryOf(q)) && MatchCategory(v.rows[i], category.GetOr(""))
    ensures forall i :: 0 <= i < |hs| && MatchQuery(hs[i], QueryOf(q)) && MatchCategory(hs[i], category.GetOr("")) ==> hs[i] in v.rows
    ensures DedupOf(CategoryColumn(hs), v.categories)
  {
    View(|hs|, Filter(hs, Matching(QueryOf(q), category.GetOr(""))), Dedup(CategoryColumn(hs)))
  }

  /** With neither parameter every hospital is listed, in the fetched order, newest first. */
  lemma NoFilterListsAll(hs: seq<Hospital>)
    ensures Render(hs, None, None).rows == hs
  {
    FilterAll(hs, Matching("", ""));
  }

  /** The search is case-blind in the query. */
  lemma QueryCaseBlind(hs: seq<Hospital>, q: string, category: Option<string>)
    ensures Render(hs, Some(q), category) == Render(hs, Some(Lower(q)), category)
  {
    LowerIdempotent(q);
  }

  /** Every category shown among the rows is offered as a choice, filtered or not. */
  lemma RowCategoriesOffered(hs: seq<Hospital>, q: Option<string>, category: Option<string>)
    ensures var v := Render(hs, q, category);
      forall i :: 0 <= i < |v.rows| ==> v.rows[i].category in v.categories
  {
    var v := Render(hs, q, category);
    var column := CategoryColumn(hs);
    forall i | 0 <= i < |v.rows| ensures v.rows[i].category in v.categories {
      var k :| 0 <= k < |hs| && hs[k] == v.rows[i];
      assert column[k] == v.rows[i].category;
    }
  }
}

/** The toast store (components/ui/use-toast.tsx): id generation, the one-toast
    limit, dismissal and listener notification. Timers are handles passed in;
    a timeout firing is the `Dismiss` it schedules. */
module Toasts {
  import opened Common
  import opened Decimal

  const ToastLimit: nat := 1
  /** `Number.MAX_SAFE_INTEGER`, 2^53 - 1. */
  const MaxSafeInteger: nat := 9007199254740991

  datatype Props = Props(title: Option<string>, description: Option<string>)

  datatype Toast = Toast(id: string, title: Option<string>, description: Option<string>)

  type Timer = nat
  type Listener = nat

  /** One call of a listener with the state it is given. */
  datatype Notice = Notice(listener: Listener, state: seq<Toast>)

  /** The module-level variables: the id counter, the toasts, the pending
      timeouts by toast id, and the registered listeners. */
  datatype Store = Store(count: nat, state: seq<Toast>, timeouts: map<string, Timer>, listeners: seq<Listener>)

  const Initial: Store := Store(0, [], map[], [])

  /** `genId`: the counter advances modulo `MAX_SAFE_INTEGER` and its decimal form is the id. */
  function GenId(count: nat): (r: (nat, string))
    ensures r.0 < MaxSafeInteger && r.1 == NatToString(r.0)
    ensures count + 1 < MaxSafeInteger ==> r.0 == count + 1
    ensures count + 1 == MaxSafeInteger ==> r.0 == 0
    ensures ParseDigits(r.1) == r.0
  {
    var next := (count + 1) % MaxSafeInteger;
    ParseNatToString(next);
    (next, NatToString(next))
  }

  /** Below the wrap-around, every call yields an id not issued since the counter was at `count`. */
  lemma GenIdFresh(count: nat, later: nat)
    requires count < later < MaxSafeInteger
    ensures GenId(count).1 != GenId(later).1
  {
    NatToStringInjective(GenId(count).0, GenId(later).0);
  }

  /** `emitChange`: every listener, in registration order, receives the state. */
  function Emit(listeners: seq<Listener>, state: seq<Toast>): seq<Notice> {
    seq(|listeners|, i requires 0 <= i < |listeners| => Notice(listeners[i], state))
  }

  /** Every registered listener was called once, in order, with `state`. */
  predicate NotifiedAll(out: seq<Notice>, listeners: seq<Listener>, state: seq<Toast>) {
    |out| == |listeners| && forall i :: 0 <= i < |out| ==> out[i] == Notice(listeners[i], state)
  }

  /** `toast(props)`: the new toast goes to the head, the list is cut to the
      limit, listeners are told, and its removal timer is recorded. */
  function Show(s: Store, p: Props, timer: Timer): (r: (Store, seq<Notice>))
    ensures 1 <= |r.0.state| <= ToastLimit
    ensures r.0.state[0] == Toast(GenId(s.count).1, p.title, p.description)
    ensures r.0.state[1..] == s.state[..|r.0.state| - 1]
    ensures r.0.state == [Toast(GenId(s.count).1, p.title, p.description)]
    ensures r.0.count == GenId(s.count).0
    ensures r.0.timeouts == s.timeouts[GenId(s.count).1 := timer]
    ensures r.0.listeners == s.listeners
    ensures NotifiedAll(r.1, s.listeners, r.0.state)
  {
    var (count, id) := GenId(s.count);
    var state := Take([Toast(id, p.title, p.description)] + s.state, ToastLimit);
    (Store(count, state, s.timeouts[id := timer], s.listeners), Emit(s.listeners, state))
  }

  function HasId(id: string): Toast -> bool {
    (t: Toast) => t.id == id
  }

  function OtherId(id: string): Toast -> bool {
    (t: Toast) => t.id != id
  }

  /** `dismiss(id)`: a pending timeout for the id is cleared and forgotten, the
      toasts with that id are removed, and listeners are told. The third
      component is the timers cleared. */
  function Dismiss(s: Store, id: string): (r: (Store, seq<Notice>, seq<Timer>))
    ensures r.2 == if id in s.timeouts then [s.timeouts[id]] else []
    ensures id !in r.0.timeouts && forall k :: k != id ==> (k in r.0.timeouts <==> k in s.timeouts)
    ensures forall k :: k in r.0.timeouts ==> r.0.timeouts[k] == s.timeouts[k]
    ensures IsSubsequence(r.0.state, s.state)
    ensures forall i :: 0 <= i < |r.0.state| ==> r.0.state[i].id != id
    ensures forall i :: 0 <= i < |s.state| && s.state[i].id != id ==> s.state[i] in r.0.state
    ensures |r.0.state| == |s.state| - Count(s.state, HasId(id))
    ensures r.0.count == s.count && r.0.listeners == s.listeners
    ensures NotifiedAll(r.1, s.listeners, r.0.state)
  {
    var cleared := if id in s.timeouts then [s.timeouts[id]] else [];
    var state := Filter(s.state, OtherId(id));
    CountComplement(s.state, OtherId(id), HasId(id));
    (Store(s.count, state, s.timeouts - {id}, s.listeners), Emit(s.listeners, state), cleared)
  }

  /** Dismissing twice is dismissing once; the second call clears no timer. */
  lemma DismissIdempotent(s: Store, id: string)
    ensures var once := Dismiss(s, id).0;
      Dismiss(once, id).0 == once && Dismiss(once, id).2 == []
  {
    var once := Dismiss(s, id).0;
    FilterAll(once.state, OtherId(id));
  }

  /** Dismissing an id no toast bears leaves the toasts as they were. */
  lemma DismissAbsentKeepsToasts(s: Store, id: string)
    requires forall i :: 0 <= i < |s.state| ==> s.state[i].id != id
    ensures Dismiss(s, id).0.state == s.state
  {
    FilterAll(s.state, OtherId(id));
  }

  /** A toast's own timeout firing empties the list and clears exactly its timer. */
  lemma ShowThenExpire(s: Store, p: Props, timer: Timer)
    ensures var shown := Show(s, p, timer).0;
      var id := GenId(s.count).1;
      var after := Dismiss(shown, id);
      after.0.state == [] && after.2 == [timer] && id !in after.0.timeouts
  {
    var shown := Show(s, p, timer).0;
    var id := GenId(s.count).1;
    assert shown.state == [Toast(id, p.title, p.description)];
    assert shown.state[1..] == [];
  }

  /** `useToast`'s effect: the component's listener is appended. */
  function Subscribe(s: Store, l: Listener): (r: Store)
    ensures r.listeners == s.listeners + [l]
    ensures r.(listeners := s.listeners) == s
  {
    s.(listeners := s.listeners + [l])
  }

  /** The position of the first `l`, or -1 (`indexOf`). */
  function IndexOfListener(ls: seq<Listener>, l: Listener): (i: int)
    ensures -1 <= i < |ls|
    ensures i == -1 <==> l !in ls
    ensures i >= 0 ==> ls[i] == l && l !in ls[..i]
  {
    if |ls| == 0 then -1
    else if ls[0] == l then 0
    else
      var i := IndexOfListener(ls[1..], l);
      if i == -1 then -1
      else
        assert ls[..i + 1] == [ls[0]] + ls[1..][..i];
        i + 1
  }

  /** The effect's cleanup: the first occurrence of the listener is spliced out. */
  function Unsubscribe(s: Store, l: Listener): (r: Store)
    ensures l !in s.listeners ==> r == s
    ensures l in s.listeners ==> |r.listeners| == |s.listeners| - 1
    ensures l in s.listeners ==> multiset(r.listeners) == multiset(s.listeners) - multiset{l}
    ensures r.(listeners := s.listeners) == s
  {
    var i := IndexOfListener(s.listeners, l);
    if i == -1 then s
    else
      SpliceMultiset(s.listeners, i);
      s.(listeners := s.listeners[..i] + s.listeners[i + 1..])
  }

  lemma SpliceMultiset<T>(ls: seq<T>, i: nat)
    requires i < |ls|
    ensures multiset(ls[..i] + ls[i + 1..]) == multiset(ls) - multiset{ls[i]}
  {
    assert ls == ls[..i] + [ls[i]] + ls[i + 1..];
  }

  /** A component that mounts and unmounts leaves the listeners as they were. */
  lemma MountUnmount(s: Store, l: Listener)
    requires l !in s.listeners
    ensures Unsubscribe(Subscribe(s, l), l) == s
  {
    var ls := s.listeners + [l];
    assert ls[..|s.listeners|] == s.listeners;
  }
}
