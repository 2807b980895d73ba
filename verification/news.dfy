/** The news article schema (models/News.ts): its validators, the slug derived
    from the title, and the `publishedAt` latch of the pre-save hook. */
module NewsModel {
  import opened Common
  import opened Text
  import opened Decimal

  const TitleMax: nat := 200
  const SummaryMax: nat := 500

  const Statuses: set<string> := {"draft", "published", "archived"}
  const Categories: set<string> := {"announcement", "alert", "event", "update", "general"}

  datatype News = News(
    id: string,
    title: string,
    slug: string,
    content: string,
    summary: string,
    author: string,
    category: string,
    tags: seq<string>,
    imageUrl: Option<string>,
    lguCode: Option<string>,
    status: string,
    publishedAt: Option<int>,
    createdAt: int,
    updatedAt: int)

  /** The fields given to the constructor; absent ones are `None`. */
  datatype NewsDraft = NewsDraft(
    title: Option<string>,
    content: Option<string>,
    summary: Option<string>,
    author: Option<string>,
    category: Option<string>,
    tags: seq<string>,
    imageUrl: Option<string>,
    lguCode: Option<string>,
    status: Option<string>)

  datatype NewsField = Title | Content | Summary | Author | CategoryField | StatusField

  const AllFields: set<NewsField> := {Title, Content, Summary, Author, CategoryField, StatusField}

  /** Whether the draft passes the validators of one field. */
  predicate FieldOk(d: NewsDraft, f: NewsField) {
    match f
    case Title => d.title.Some? && Trim(d.title.value) != "" && |Trim(d.title.value)| <= TitleMax
    case Content => Truthy(d.content)
    case Summary => Truthy(d.summary) && |d.summary.value| <= SummaryMax
    case Author => d.author.Some? && Trim(d.author.value) != ""
    case CategoryField => d.category.None? || d.category.value in Categories
    case StatusField => d.status.None? || d.status.value in Statuses
  }

  /** The fields a save rejects. Title and author are trimmed by their setters
      before the checks; a required string must be non-empty. */
  function SaveErrors(d: NewsDraft): (errs: set<NewsField>)
    ensures Title !in errs <==> d.title.Some? && Trim(d.title.value) != "" && |Trim(d.title.value)| <= TitleMax
    ensures Summary !in errs <==> Truthy(d.summary) && |d.summary.value| <= SummaryMax
    ensures Content !in errs <==> Truthy(d.content)
    ensures Author !in errs <==> d.author.Some? && Trim(d.author.value) != ""
    ensures CategoryField !in errs <==> d.category.None? || d.category.value in Categories
    ensures StatusField !in errs <==> d.status.None? || d.status.value in Statuses
  {
    set f | f in AllFields && !FieldOk(d, f)
  }

  /** The characters `[a-z0-9]`. */
  predicate SlugChar(c: char) {
    'a' <= c <= 'z' || '0' <= c <= '9'
  }

  /** The characters `/[^a-z0-9\s-]/g` leaves in place. */
  predicate Kept(c: char) {
    SlugChar(c) || IsWhitespace(c) || c == '-'
  }

  /** The letters and digits of `s`, in order. */
  function Alnums(s: string): string {
    if |s| == 0 then "" else (if SlugChar(s[0]) then [s[0]] else "") + Alnums(s[1..])
  }

  lemma AlnumsCons(c: char, s: string)
    ensures Alnums([c] + s) == (if SlugChar(c) then [c] else "") + Alnums(s)
  {
    assert ([c] + s)[1..] == s;
  }

  /** `.replace(/[^a-z0-9\s-]/g, '')`. */
  function StripDisallowed(s: string): (r: string)
    ensures forall i :: 0 <= i < |r| ==> Kept(r[i])
    ensures Alnums(r) == Alnums(s)
  {
    if |s| == 0 then ""
    else
      var rest := StripDisallowed(s[1..]);
      if Kept(s[0]) then AlnumsCons(s[0], rest); [s[0]] + rest else rest
  }

  /** `.replace(/\s+/g, '-')`; `inRun` says the previous character was white space. */
  function DashWhitespace(s: string, inRun: bool): (r: string)
    ensures forall i :: 0 <= i < |r| ==> !IsWhitespace(r[i])
    ensures (forall i :: 0 <= i < |s| ==> Kept(s[i])) ==> forall i :: 0 <= i < |r| ==> SlugChar(r[i]) || r[i] == '-'
    ensures Alnums(r) == Alnums(s)
  {
    if |s| == 0 then ""
    else
      var rest := DashWhitespace(s[1..], IsWhitespace(s[0]));
      if IsWhitespace(s[0]) then
        AlnumsCons('-', rest);
        if inRun then rest else "-" + rest
      else
        AlnumsCons(s[0], rest);
        [s[0]] + rest
  }

  /** `.replace(/-+/g, '-')`; `afterDash` says the previous character was a dash. */
  function CollapseDashes(s: string, afterDash: bool): (r: string)
    ensures forall i :: 0 <= i < |r| - 1 ==> !(r[i] == '-' && r[i + 1] == '-')
    ensures afterDash && |r| > 0 ==> r[0] != '-'
    ensures (forall i :: 0 <= i < |s| ==> SlugChar(s[i]) || s[i] == '-') ==> forall i :: 0 <= i < |r| ==> SlugChar(r[i]) || r[i] == '-'
    ensures Alnums(r) == Alnums(s)
  {
    if |s| == 0 then ""
    else
      var rest := CollapseDashes(s[1..], s[0] == '-');
      if s[0] == '-' && afterDash then rest
      else
        AlnumsCons(s[0], rest);
        var r := [s[0]] + rest;
        assert forall i :: 1 <= i < |r| ==> r[i] == rest[i - 1];
        r
  }

  /** The part of the slug derived from the title (the trailing `.trim()` finds
      no white space left to remove). */
  function SlugPrefix(title: string): string {
    CollapseDashes(DashWhitespace(StripDisallowed(Lower(title)), false), false)
  }

  /** The slug prefix uses only `[a-z0-9-]`, never has two dashes in a row, and
      keeps every letter and digit of the lower-cased title, in order. */
  lemma SlugPrefixShape(title: string)
    ensures var p := SlugPrefix(title);
      && (forall i :: 0 <= i < |p| ==> SlugChar(p[i]) || p[i] == '-')
      && (forall i :: 0 <= i < |p| - 1 ==> !(p[i] == '-' && p[i + 1] == '-'))
      && Alnums(p) == Alnums(Lower(title))
  {
  }

  /** The slug: the prefix, a dash, and the clock reading in milliseconds. */
  function Slug(title: string, now: nat): string {
    SlugPrefix(title) + "-" + NatToString(now)
  }

  /** The slug splits back into the title part, a dash, and the digits of the
      clock reading, which parse back to it. */
  lemma SlugEndsWithTime(title: string, now: nat)
    ensures var s := Slug(title, now); var t := NatToString(now);
      && |t| < |s| && s[..|s| - |t| - 1] == SlugPrefix(title) && s[|s| - |t| - 1] == '-'
      && ParseDigits(s[|s| - |t|..]) == now
  {
    var s := Slug(title, now);
    var t := NatToString(now);
    assert s[..|s| - |t| - 1] == SlugPrefix(title);
    assert s[|s| - |t|..] == t;
    ParseNatToString(now);
  }

  /** The pre-save hook. The slug is regenerated for a new document or a changed
      title; `publishedAt` is set when the status was changed to published and
      it is unset. `now` is the clock reading. */
  function PreSave(doc: News, isNew: bool, titleModified: bool, statusModified: bool, now: nat): (r: News)
    ensures (isNew || titleModified) ==> r.slug == Slug(doc.title, now)
    ensures !(isNew || titleModified) ==> r.slug == doc.slug
    ensures doc.publishedAt.Some? ==> r.publishedAt == doc.publishedAt
    ensures r.publishedAt != doc.publishedAt <==> statusModified && doc.status == "published" && doc.publishedAt.None?
    ensures r.publishedAt != doc.publishedAt ==> r.publishedAt == Some(now)
    ensures r.(slug := doc.slug, publishedAt := doc.publishedAt) == doc
  {
    var withSlug := if isNew || titleModified then doc.(slug := Slug(doc.title, now)) else doc;
    if statusModified && doc.status == "published" && doc.publishedAt.None? then withSlug.(publishedAt := Some(now))
    else withSlug
  }

  /** One later save of an existing article: optionally a new title and status. */
  datatype Edit = Edit(title: Option<string>, status: Option<string>, now: nat)

  /** Apply an edit and run the hook; a field counts as modified only when its value changes. */
  function ApplyEdit(doc: News, e: Edit): News {
    var titleModified := e.title.Some? && e.title.value != doc.title;
    var statusModified := e.status.Some? && e.status.value != doc.status;
    var edited := doc.(title := e.title.GetOr(doc.title), status := e.status.GetOr(doc.status));
    PreSave(edited, false, titleModified, statusModified, e.now)
  }

  function ApplyEdits(doc: News, edits: seq<Edit>): News
    decreases |edits|
  {
    if |edits| == 0 then doc else ApplyEdits(ApplyEdit(doc, edits[0]), edits[1..])
  }

  /** The latch: once `publishedAt` is set no later save changes it, and it is
      only ever set by an edit that makes the status published. */
  lemma {:induction false} PublishedAtLatch(doc: News, edits: seq<Edit>)
    ensures doc.publishedAt.Some? ==> ApplyEdits(doc, edits).publishedAt == doc.publishedAt
    ensures ApplyEdits(doc, edits).publishedAt.Some? && doc.publishedAt.None? ==>
      exists k :: 0 <= k < |edits| && edits[k].status == Some("published")
        && ApplyEdits(doc, edits).publishedAt == Some(edits[k].now)
    decreases |edits|
  {
    if |edits| > 0 {
      var next := ApplyEdit(doc, edits[0]);
      PublishedAtLatch(next, edits[1..]);
      if doc.publishedAt.None? && next.publishedAt.None? && ApplyEdits(doc, edits).publishedAt.Some? {
        var k :| 0 <= k < |edits[1..]| && edits[1..][k].status == Some("published")
          && ApplyEdits(next, edits[1..]).publishedAt == Some(edits[1..][k].now);
        assert edits[k + 1] == edits[1..][k];
      }
    }
  }

  /** A save of a new document: validation, then the hook with every field modified. */
  datatype SaveResult = Saved(news: News) | Rejected(fields: set<NewsField>)

  function SaveNew(d: NewsDraft, id: string, now: nat): (r: SaveResult)
    ensures r.Rejected? <==> SaveErrors(d) != {}
    ensures r.Rejected? ==> r.fields == SaveErrors(d)
    ensures r.Saved? ==>
      && r.news.id == id && r.news.title == Trim(d.title.value) && |r.news.title| <= TitleMax
      && r.news.slug == Slug(r.news.title, now)
      && r.news.category == d.category.GetOr("general") && r.news.category in Categories
      && r.news.status == d.status.GetOr("draft") && r.news.status in Statuses
      && (r.news.publishedAt == Some(now) <==> r.news.status == "published")
      && (r.news.publishedAt.None? <==> r.news.status != "published")
      && r.news.createdAt == now && r.news.updatedAt == now
      && r.news.tags == d.tags
  {
    var errs := SaveErrors(d);
    if errs != {} then Rejected(errs)
    else
      var doc := News(id, Trim(d.title.value), "", d.content.value, d.summary.value, Trim(d.author.value),
                      d.category.GetOr("general"), d.tags,
                      if d.imageUrl.Some? then Some(Trim(d.imageUrl.value)) else None,
                      if d.lguCode.Some? then Some(Trim(d.lguCode.value)) else None,
                      d.status.GetOr("draft"), None, now, now);
      Saved(PreSave(doc, true, true, true, now))
  }
}

/** The news API (app/api/news/route.ts): the paged, filtered listing and creation. */
module NewsRoute {
  import opened Common
  import opened Text
  import opened NewsModel

  const DefaultPage: int := 1
  const DefaultLimit: int := 10
  const MaxLimit: int := 50

  /** The filtering parameters of the query string. */
  datatype Criteria = Criteria(
    status: Option<string>,
    category: Option<string>,
    lguCode: Option<string>,
    search: Option<string>)

  /** The query string, already parsed: a missing or empty parameter is None. */
  datatype Query = Query(page: Option<int>, limit: Option<int>, criteria: Criteria)

  /** `Math.max(1, page)`. */
  function PageOf(q: Query): (p: int)
    ensures p >= 1 && p >= q.page.GetOr(DefaultPage)
    ensures q.page.GetOr(DefaultPage) >= 1 ==> p == q.page.GetOr(DefaultPage)
  {
    var requested := q.page.GetOr(DefaultPage);
    if requested < 1 then 1 else requested
  }

  /** `Math.min(50, Math.max(1, limit))`. */
  function LimitOf(q: Query): (l: int)
    ensures 1 <= l <= MaxLimit
    ensures 1 <= q.limit.GetOr(DefaultLimit) <= MaxLimit ==> l == q.limit.GetOr(DefaultLimit)
    ensures q.limit.GetOr(DefaultLimit) < 1 ==> l == 1
    ensures q.limit.GetOr(DefaultLimit) > MaxLimit ==> l == MaxLimit
  {
    var requested := q.limit.GetOr(DefaultLimit);
    if requested < 1 then 1 else if requested > MaxLimit then MaxLimit else requested
  }

  /** The `$regex` search with option `i`, taken as a literal, case-blind substring. */
  predicate SearchHit(field: string, search: string) {
    Contains(Lower(field), Lower(search))
  }

  /** The filter object: each constraint only when its parameter is truthy. */
  predicate Matches(q: Criteria, n: News) {
    (Truthy(q.status) ==> n.status == q.status.value)
    && (Truthy(q.category) ==> n.category == q.category.value)
    && (Truthy(q.lguCode) ==> n.lguCode == q.lguCode)
    && (Truthy(q.search) ==>
        SearchHit(n.title, q.search.value) || SearchHit(n.summary, q.search.value) || SearchHit(n.author, q.search.value))
  }

  function MatchesQuery(q: Criteria): News -> bool {
    (n: News) => Matches(q, n)
  }

  function CreatedAt(n: News): int {
    n.createdAt
  }

  /** `Math.ceil(total / limit)`. */
  function TotalPages(total: nat, limit: int): (t: nat)
    requires limit >= 1
    ensures t * limit >= total
    ensures t > 0 ==> (t - 1) * limit < total
    ensures total == 0 <==> t == 0
  {
    (total + limit - 1) / limit
  }

  datatype Pagination = Pagination(page: int, limit: int, total: nat, totalPages: nat)

  datatype Listing = Listing(data: seq<News>, pagination: Pagination) | ListingFailed

  /** All matching articles, newest first. */
  function Ordered(store: seq<News>, q: Criteria): (r: seq<News>)
    ensures |r| == Count(store, MatchesQuery(q))
    ensures forall i :: 0 <= i < |r| ==> Matches(q, r[i])
    ensures multiset(r) == multiset(Filter(store, MatchesQuery(q)))
    ensures SortedDesc(r, CreatedAt)
  {
    var matching := Filter(store, MatchesQuery(q));
    var r := SortDesc(matching, CreatedAt);
    assert forall i :: 0 <= i < |r| ==> r[i] in multiset(matching);
    r
  }

  /** The records `(page - 1) * limit` onwards, at most `limit` of them. */
  function PageSlice<T>(all: seq<T>, page: int, limit: int): (r: seq<T>)
    requires page >= 1 && limit >= 1
    ensures |r| <= limit
    ensures forall i :: 0 <= i < |r| ==> (page - 1) * limit + i < |all| && r[i] == all[(page - 1) * limit + i]
    ensures (page - 1) * limit >= |all| ==> r == []
    ensures (page - 1) * limit < |all| ==> |r| == if |all| - (page - 1) * limit < limit then |all| - (page - 1) * limit else limit
  {
    var skip := (page - 1) * limit;
    assert skip >= 0;
    var rest := if skip < |all| then all[skip..] else [];
    Take(rest, limit)
  }

  /** `GET`: the page of the ordered matches the query asks for. */
  function Get(store: Option<seq<News>>, q: Query): (r: Listing)
    ensures store.None? <==> r.ListingFailed?
    ensures r.Listing? ==>
      && r.data == PageSlice(Ordered(store.value, q.criteria), PageOf(q), LimitOf(q))
      && r.pagination.page == PageOf(q) && r.pagination.limit == LimitOf(q)
      && r.pagination.total == Count(store.value, MatchesQuery(q.criteria))
      && r.pagination.totalPages == TotalPages(r.pagination.total, r.pagination.limit)
  {
    if store.None? then ListingFailed
    else
      var all := Ordered(store.value, q.criteria);
      Listing(PageSlice(all, PageOf(q), LimitOf(q)), Pagination(PageOf(q), LimitOf(q), |all|, TotalPages(|all|, LimitOf(q))))
  }

  /** A slice of records that all satisfy `p` holds only such records. */
  lemma SliceKeeps<T>(all: seq<T>, page: int, limit: int, p: T -> bool)
    requires page >= 1 && limit >= 1
    requires forall i :: 0 <= i < |all| ==> p(all[i])
    ensures forall i :: 0 <= i < |PageSlice(all, page, limit)| ==> p(PageSlice(all, page, limit)[i])
  {
    var r := PageSlice(all, page, limit);
    forall i | 0 <= i < |r| ensures p(r[i]) {
      assert r[i] == all[(page - 1) * limit + i];
    }
  }

  /** A page holds at most `limit` records, all matching. */
  lemma PageMatches(store: seq<News>, q: Query)
    ensures var r := Get(Some(store), q);
      |r.data| <= r.pagination.limit && forall i :: 0 <= i < |r.data| ==> Matches(q.criteria, r.data[i])
  {
    var all := Ordered(store, q.criteria);
    var r := Get(Some(store), q);
    assert r.data == PageSlice(all, PageOf(q), LimitOf(q));
    assert forall i :: 0 <= i < |all| ==> MatchesQuery(q.criteria)(all[i]);
    SliceKeeps(all, PageOf(q), LimitOf(q), MatchesQuery(q.criteria));
  }

  /** The pages cut a listing into consecutive slices: record
      `(page - 1) * limit + slot`, with `slot < limit`, is item `slot` of page
      `page`, and that page is within `totalPages` (`GetPage` says these are
      what `GET` returns for a page of the ordered matches). */
  lemma PagesPartition<T>(all: seq<T>, limit: int, page: int, slot: int)
    requires limit >= 1 && page >= 1 && 0 <= slot < limit && (page - 1) * limit + slot < |all|
    ensures slot < |PageSlice(all, page, limit)|
    ensures PageSlice(all, page, limit)[slot] == all[(page - 1) * limit + slot]
    ensures page <= TotalPages(|all|, limit)
  {
    var skip := (page - 1) * limit;
    assert skip >= 0;
    assert |all| - skip > slot;
    PageWithinTotal(|all|, limit, page, slot);
  }

  /** Asking for a page by number gets that slice of the ordered matches. */
  lemma GetPage(store: seq<News>, q: Query, page: int)
    requires page >= 1
    ensures var r := Get(Some(store), q.(page := Some(page)));
      && r.Listing?
      && r.data == PageSlice(Ordered(store, q.criteria), page, LimitOf(q))
      && r.pagination.totalPages == TotalPages(|Ordered(store, q.criteria)|, LimitOf(q))
  {
    var q' := q.(page := Some(page));
    assert LimitOf(q') == LimitOf(q);
    assert PageOf(q') == page;
  }

  lemma PageWithinTotal(total: nat, limit: int, page: int, slot: int)
    requires limit >= 1 && page >= 1 && 0 <= slot < limit && (page - 1) * limit + slot < total
    ensures page <= TotalPages(total, limit)
  {
    var t := TotalPages(total, limit);
    assert (page - 1) * limit < t * limit;
  }

  /** With no filter parameters every article is listed. */
  lemma NoFilterMatchesAll(q: Criteria, n: News)
    requires q == Criteria(None, None, None, None)
    ensures Matches(q, n)
  {
  }

  /** The search ignores the case of the search text. */
  lemma SearchIgnoresCase(q: Criteria, s: string, n: News)
    ensures Matches(q.(search := Some(s)), n) <==> Matches(q.(search := Some(Lower(s))), n)
  {
    LowerIdempotent(s);
    assert Truthy(Some(s)) <==> Truthy(Some(Lower(s)));
  }

  /** The fields of a create request. */
  datatype Body = Body(
    title: Option<string>,
    content: Option<string>,
    summary: Option<string>,
    author: Option<string>,
    category: Option<string>,
    tags: Option<seq<string>>,
    imageUrl: Option<string>,
    lguCode: Option<string>,
    status: Option<string>)

  function DraftOf(b: Body): NewsDraft {
    NewsDraft(b.title, b.content, b.summary, b.author,
              Some(if Truthy(b.category) then b.category.value else "general"),
              b.tags.GetOr([]), b.imageUrl, b.lguCode,
              Some(if Truthy(b.status) then b.status.value else "draft"))
  }

  datatype Created = Created(news: News) | CreateFailed(fields: set<NewsField>)

  /** `POST`: category `general`, tags `[]` and status `draft` unless given; a
      failed validation is a 500. */
  function Post(b: Body, id: string, now: nat): (r: Created)
    ensures r.Created? ==>
      && r.news.category == (if Truthy(b.category) then b.category.value else "general")
      && r.news.status == (if Truthy(b.status) then b.status.value else "draft")
      && r.news.tags == b.tags.GetOr([])
      && (r.news.publishedAt.Some? <==> r.news.status == "published")
    ensures r.CreateFailed? <==> SaveErrors(DraftOf(b)) != {}
  {
    match SaveNew(DraftOf(b), id, now)
    case Saved(n) => Created(n)
    case Rejected(fs) => CreateFailed(fs)
  }

  /** A body that names only the required text fields creates a general draft with no tags and no publication time. */
  lemma PostDefaults(title: string, content: string, summary: string, author: string, id: string, now: nat)
    requires Trim(title) != "" && |Trim(title)| <= TitleMax && content != "" && summary != "" && |summary| <= SummaryMax && Trim(author) != ""
    ensures var r := Post(Body(Some(title), Some(content), Some(summary), Some(author), None, None, None, None, None), id, now);
      r.Created? && r.news.category == "general" && r.news.status == "draft" && r.news.tags == [] && r.news.publishedAt.None?
  {
    var b := Body(Some(title), Some(content), Some(summary), Some(author), None, None, None, None, None);
    var d := DraftOf(b);
    assert d.category == Some("general") && d.status == Some("draft") && d.tags == [];
    assert FieldOk(d, CategoryField) && FieldOk(d, StatusField);
    assert FieldOk(d, Title) && FieldOk(d, Content) && FieldOk(d, Summary) && FieldOk(d, Author);
    NoErrors(d);
  }

  /** A draft that passes every field's validators saves. */
  lemma NoErrors(d: NewsDraft)
    requires FieldOk(d, Title) && FieldOk(d, Content) && FieldOk(d, Summary) && FieldOk(d, Author)
    requires FieldOk(d, CategoryField) && FieldOk(d, StatusField)
    ensures SaveErrors(d) == {}
  {
  }
}

/** The news manager page (app/news/page.tsx): the tag field, the save request,
    the fetch parameters and the pager. */
module NewsPage {
  import opened Common
  import opened Text
  import NewsRoute
  import NewsModel

  /** Trim every piece. */
  function TrimAll(pieces: seq<string>): (r: seq<string>)
    ensures |r| == |pieces|
    ensures forall i :: 0 <= i < |r| ==> r[i] == Trim(pieces[i])
  {
    if |pieces| == 0 then [] else [Trim(pieces[0])] + TrimAll(pieces[1..])
  }

  function NonEmpty(s: string): bool {
    s != ""
  }

  /** `tags.split(',').map(t => t.trim()).filter(Boolean)`. */
  function ParseTags(tags: string): seq<string> {
    Filter(TrimAll(Split(tags, ',')), NonEmpty)
  }

  /** A tag as the parser produces it: non-empty, trimmed, without commas. */
  predicate CleanTag(t: string) {
    |t| > 0 && !IsWhitespace(t[0]) && !IsWhitespace(t[|t| - 1]) && ',' !in t
  }

  /** Every parsed tag is clean. */
  lemma ParsedTagsClean(tags: string)
    ensures forall i :: 0 <= i < |ParseTags(tags)| ==> CleanTag(ParseTags(tags)[i])
  {
    var pieces := Split(tags, ',');
    var trimmed := TrimAll(pieces);
    var parsed := Filter(trimmed, NonEmpty);
    forall i | 0 <= i < |parsed| ensures CleanTag(parsed[i]) {
      var t := parsed[i];
      assert t in trimmed && t != "";
      var k :| 0 <= k < |trimmed| && trimmed[k] == t;
      TrimClean(pieces[k]);
    }
  }

  /** A comma-free piece that does not trim to nothing trims to a clean tag. */
  lemma TrimClean(p: string)
    requires ',' !in p && Trim(p) != ""
    ensures CleanTag(Trim(p))
  {
    var t := Trim(p);
    var w :| TrimmedAt(p, t, w);
    assert forall c :: c in t ==> c in p;
  }

  /** Each tag after the first, with the space `join(', ')` puts before it. */
  function Spaced(tags: seq<string>): (r: seq<string>)
    ensures |r| == |tags|
    ensures forall i :: 0 <= i < |r| ==> r[i] == " " + tags[i]
  {
    if |tags| == 0 then [] else [" " + tags[0]] + Spaced(tags[1..])
  }

  lemma {:induction false} JoinSpaced(tags: seq<string>)
    requires |tags| >= 1
    ensures " " + Join(tags, ", ") == Join(Spaced(tags), ",")
    decreases |tags|
  {
    if |tags| > 1 {
      JoinSpaced(tags[1..]);
      assert Spaced(tags)[1..] == Spaced(tags[1..]);
    }
  }

  /** `join(', ')` is a comma join of the tags with a space before every tag but the first. */
  lemma JoinCommaSpace(tags: seq<string>)
    requires |tags| >= 1
    ensures Join(tags, ", ") == Join([tags[0]] + Spaced(tags[1..]), ",")
  {
    var rest := tags[1..];
    if |tags| == 1 {
      assert [tags[0]] + Spaced(rest) == [tags[0]];
    } else {
      calc {
        Join(tags, ", ");
        tags[0] + ", " + Join(rest, ", ");
        { CommaSpace(tags[0], Join(rest, ", ")); }
        tags[0] + "," + (" " + Join(rest, ", "));
        { JoinSpaced(rest); }
        tags[0] + "," + Join(Spaced(rest), ",");
        { JoinCons(tags[0], Spaced(rest), ","); }
        Join([tags[0]] + Spaced(rest), ",");
      }
    }
  }

  lemma CommaSpace(a: string, tail: string)
    ensures a + ", " + tail == a + "," + (" " + tail)
  {
  }

  /** Trimming the pieces of the comma join gives the clean tags back. */
  lemma TrimPieces(tags: seq<string>)
    requires |tags| >= 1
    requires forall i :: 0 <= i < |tags| ==> CleanTag(tags[i])
    ensures TrimAll([tags[0]] + Spaced(tags[1..])) == tags
  {
    var pieces := [tags[0]] + Spaced(tags[1..]);
    var trimmed := TrimAll(pieces);
    forall i | 0 <= i < |tags| ensures trimmed[i] == tags[i] {
      TrimTrimmed(tags[i]);
      if i > 0 {
        assert pieces[i] == " " + tags[i];
        TrimLeadingSpace(tags[i]);
      }
    }
  }

  /** The editor shows `tags.join(', ')` and saves its parse: clean tags survive unchanged. */
  lemma TagsRoundTrip(tags: seq<string>)
    requires forall i :: 0 <= i < |tags| ==> CleanTag(tags[i])
    ensures ParseTags(Join(tags, ", ")) == tags
  {
    if |tags| == 0 {
      assert Split("", ',') == [""];
      assert TrimAll([""]) == [""];
    } else {
      var pieces := [tags[0]] + Spaced(tags[1..]);
      CommaFree(tags);
      calc {
        ParseTags(Join(tags, ", "));
        { JoinCommaSpace(tags); }
        Filter(TrimAll(Split(Join(pieces, ","), ',')), NonEmpty);
        { SplitJoin(pieces, ','); }
        Filter(TrimAll(pieces), NonEmpty);
        { TrimPieces(tags); }
        Filter(tags, NonEmpty);
        { FilterAll(tags, NonEmpty); }
        tags;
      }
    }
  }

  /** The pieces of the comma join hold no comma. */
  lemma CommaFree(tags: seq<string>)
    requires |tags| >= 1
    requires forall i :: 0 <= i < |tags| ==> CleanTag(tags[i])
    ensures forall k :: 0 <= k < |tags| ==> ',' !in ([tags[0]] + Spaced(tags[1..]))[k]
  {
    var pieces := [tags[0]] + Spaced(tags[1..]);
    forall k | 0 <= k < |pieces| ensures ',' !in pieces[k] {
      if k > 0 {
        assert pieces[k] == " " + tags[k];
        assert forall c :: c in pieces[k] ==> c == ' ' || c in tags[k];
      }
    }
  }

  /** The form as the dialog holds it; tags are one comma-separated string. */
  datatype Form = Form(
    title: string,
    summary: string,
    content: string,
    author: string,
    category: string,
    tags: string,
    imageUrl: string,
    lguCode: string,
    status: string)

  datatype Payload = Payload(
    title: string,
    summary: string,
    content: string,
    author: string,
    category: string,
    tags: seq<string>,
    imageUrl: string,
    lguCode: string,
    status: string)

  /** `handleSave`'s payload: the form with the session's name and LGU code and the parsed tags. */
  function PayloadOf(f: Form, sessionName: string, sessionLguCode: string): (p: Payload)
    ensures p.author == sessionName && p.lguCode == sessionLguCode
    ensures p.tags == ParseTags(f.tags)
    ensures p.title == f.title && p.summary == f.summary && p.content == f.content
      && p.category == f.category && p.imageUrl == f.imageUrl && p.status == f.status
  {
    Payload(f.title, f.summary, f.content, sessionName, f.category, ParseTags(f.tags), f.imageUrl, sessionLguCode, f.status)
  }

  /** Whatever the form says, the saved author and LGU are the session's. */
  lemma PayloadOverridesForm(f: Form, g: Form, name: string, lgu: string)
    requires f.(author := g.author, lguCode := g.lguCode) == g
    ensures PayloadOf(f, name, lgu) == PayloadOf(g, name, lgu)
  {
  }

  datatype Method = Put | PostMethod

  datatype SaveRequest = SaveRequest(verb: Method, url: string)

  /** Editing an existing article sends `PUT /api/news/<id>`, otherwise `POST /api/news`. */
  function SaveRequestFor(editing: Option<string>): (r: SaveRequest)
    ensures editing.Some? <==> r.verb.Put?
    ensures editing.Some? ==> r.url == "/api/news/" + editing.value
    ensures editing.None? ==> r.url == "/api/news"
  {
    match editing
    case Some(id) => SaveRequest(Put, "/api/news/" + id)
    case None => SaveRequest(PostMethod, "/api/news")
  }

  /** The list state that drives a fetch. */
  datatype Filters = Filters(search: string, status: string, category: string)

  /** `fetchNews`'s query: page and limit 10 always, the rest only when chosen. */
  function FetchQuery(page: int, f: Filters, sessionLguCode: string): (q: NewsRoute.Query)
    ensures q.page == Some(page) && q.limit == Some(10)
    ensures q.criteria.search.Some? <==> f.search != ""
    ensures q.criteria.status.Some? <==> f.status != "all"
    ensures q.criteria.category.Some? <==> f.category != "all"
    ensures q.criteria.lguCode.Some? <==> sessionLguCode != ""
  {
    NewsRoute.Query(
      Some(page), Some(10),
      NewsRoute.Criteria(
        if f.status != "all" then Some(f.status) else None,
        if f.category != "all" then Some(f.category) else None,
        if sessionLguCode != "" then Some(sessionLguCode) else None,
        if f.search != "" then Some(f.search) else None))
  }

  /** The route reads the page's query back as sent: page `page` of ten, and
      the status filter is applied exactly when one other than `all` is chosen. */
  lemma FetchAgreesWithRoute(page: int, f: Filters, lgu: string, n: NewsModel.News)
    requires page >= 1 && f.status != ""
    ensures NewsRoute.PageOf(FetchQuery(page, f, lgu)) == page
    ensures NewsRoute.LimitOf(FetchQuery(page, f, lgu)) == 10
    ensures f.status != "all" && NewsRoute.Matches(FetchQuery(page, f, lgu).criteria, n) ==> n.status == f.status
  {
  }

  /** The pager: the current page and the last fetch's page count. */
  datatype Pager = Pager(page: int, totalPages: int, filters: Filters)

  datatype PagerEvent = Previous | Next | Fetched(totalPages: int) | FiltersChanged(filters: Filters)

  /** The buttons' `disabled` tests, as written. */
  predicate PreviousDisabled(p: Pager) {
    p.page == 1
  }

  predicate NextDisabledAsWritten(p: Pager) {
    p.page == p.totalPages
  }

  /** Next disabled on or past the last page. */
  predicate NextDisabled(p: Pager) {
    p.page >= p.totalPages
  }

  /** The pager is rendered only when there is more than one page. */
  predicate PagerShown(p: Pager) {
    p.totalPages > 1
  }

  /** One pager step under a choice of Next test; a button that is not rendered,
      or is disabled, does nothing. */
  function StepWith(correctedNext: bool, p: Pager, e: PagerEvent): Pager {
    match e
    case Previous => if !PagerShown(p) || PreviousDisabled(p) then p else p.(page := p.page - 1)
    case Next =>
      if !PagerShown(p) || (if correctedNext then NextDisabled(p) else NextDisabledAsWritten(p)) then p
      else p.(page := p.page + 1)
    case Fetched(t) => p.(totalPages := t)
    case FiltersChanged(f) => if f != p.filters then p.(page := 1, filters := f) else p
  }

  function Step(p: Pager, e: PagerEvent): (r: Pager)
    ensures p.page >= 1 ==> r.page >= 1
    ensures e.FiltersChanged? && e.filters != p.filters ==> r.page == 1
    ensures e.Next? && r.page != p.page ==> r.page <= p.totalPages
    ensures (e.Previous? || e.Next?) && p.totalPages <= 1 ==> r == p
  {
    StepWith(true, p, e)
  }

  /** As written: once the page count drops below the current page (say, the
      last article of the last page was deleted), Next stays enabled and every
      click moves further past the end. */
  lemma NextRunsPastEndAsWritten(clicks: nat)
    ensures var p := Pager(3, 2, Filters("", "all", "all"));
      Clicks(false, p, clicks).page == 3 + clicks && Clicks(false, p, clicks).totalPages == 2
    decreases clicks
  {
    if clicks > 0 {
      NextRunsPastEndAsWritten(clicks - 1);
    }
  }

  function Clicks(correctedNext: bool, p: Pager, clicks: nat): Pager
    decreases clicks
  {
    if clicks == 0 then p else StepWith(correctedNext, Clicks(correctedNext, p, clicks - 1), Next)
  }

  /** Corrected: Next never takes the page beyond the last page, and any number
      of clicks ends at most there (or where it started, if already past it). */
  lemma {:induction false} NextStopsAtEnd(p: Pager, clicks: nat)
    ensures var r := Clicks(true, p, clicks);
      r.totalPages == p.totalPages && r.page >= p.page
      && (r.page <= p.totalPages || r.page == p.page)
    decreases clicks
  {
    if clicks > 0 {
      NextStopsAtEnd(p, clicks - 1);
    }
  }
}
