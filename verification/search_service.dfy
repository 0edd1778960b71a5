/** Search, suggestions and trending (WebSite/BackEnd/app/services/search_service.py).
    The SQL statements are modelled as sequence operations over a scan of the
    tables: `WHERE` as a filter, `ORDER BY` as `Query.SortBy`, `LIMIT`/`OFFSET`
    as `Query.Window`. */
module SearchService {
  import opened Common
  import opened Models
  import opened Strings
  import Query
  import PostTags
  import PostService

  // ---------------------------------------------------------------------------
  // The `tags` parameter

  /** Python truthiness of an optional text parameter. */
  predicate Given(o: Option<string>) {
    o.Some? && o.value != ""
  }

  /** `_normalize_tags`: nothing for a missing or empty parameter; otherwise
      the comma-separated entries, stripped and lower-cased, blanks dropped. */
  function NormalizeTagParam(tags: Option<string>): seq<string> {
    if !Given(tags) then [] else DropEmpty(LowerEach(StripEach(Split(tags.value, ','))))
  }

  /** Every normalised entry is a non-empty, trimmed, lower-case slug without a comma. */
  lemma TagParamShape(tags: Option<string>)
    ensures forall x :: x in NormalizeTagParam(tags) ==> x != "" && IsLower(x) && ',' !in x && NoEdgeSpace(x)
  {
    if Given(tags) {
      var parts := Split(tags.value, ',');
      var stripped := StripEach(parts);
      StripEachKeepsOut(parts, ',');
      forall x | x in NormalizeTagParam(tags)
        ensures x != "" && IsLower(x) && ',' !in x && NoEdgeSpace(x)
      {
        var i :| 0 <= i < |stripped| && LowerEach(stripped)[i] == x;
        assert stripped[i] in stripped;
        StripShape(parts[i]);
        LowerKeepsShape(stripped[i]);
      }
    }
  }

  /** Lower-casing changes letters only: commas and whitespace stay where they are. */
  lemma LowerKeepsShape(s: string)
    ensures ',' in Lower(s) <==> ',' in s
    ensures NoEdgeSpace(s) ==> NoEdgeSpace(Lower(s))
  {
    var l := Lower(s);
    if ',' in l {
      var i :| 0 <= i < |l| && l[i] == ',';
      assert s[i] == ',';
    }
    if ',' in s {
      var i :| 0 <= i < |s| && s[i] == ',';
      assert l[i] == ',';
    }
  }

  /** Tags written back as a comma-separated parameter normalise to themselves:
      the parameter round-trips any list of trimmed, lower-case, non-empty
      slugs without commas. */
  lemma TagParamRoundTrip(slugs: seq<string>)
    requires forall i :: 0 <= i < |slugs| ==> slugs[i] != "" && IsLower(slugs[i]) && ',' !in slugs[i] && NoEdgeSpace(slugs[i])
    ensures NormalizeTagParam(Some(Join(slugs, ','))) == slugs
  {
    if slugs != [] {
      JoinNonEmpty(slugs, ',');
      SplitJoin(slugs, ',');
      StripEachTrimmed(slugs);
      LowerEachOfLower(slugs);
      DropEmptyKeeps(slugs);
    }
  }

  lemma {:induction false} JoinNonEmpty(parts: seq<string>, sep: char)
    requires parts != [] && parts[0] != ""
    ensures Join(parts, sep) != ""
  {
    if |parts| > 1 {
      assert |Join(parts, sep)| >= |parts[0]|;
    }
  }

  lemma {:induction false} LowerEachOfLower(parts: seq<string>)
    requires forall i :: 0 <= i < |parts| ==> IsLower(parts[i])
    ensures LowerEach(parts) == parts
  {
    forall i | 0 <= i < |parts|
      ensures LowerEach(parts)[i] == parts[i]
    {
      LowerOfLower(parts[i]);
    }
  }

  lemma {:induction false} DropEmptyKeeps(parts: seq<string>)
    requires forall i :: 0 <= i < |parts| ==> parts[i] != ""
    ensures DropEmpty(parts) == parts
  {
    if parts != [] {
      DropEmptyKeeps(parts[1..]);
      assert parts == [parts[0]] + parts[1..];
    }
  }

  // ---------------------------------------------------------------------------
  // `search_posts`

  datatype SearchRequest = SearchRequest(
    query: Option<string>, language: string, categoryId: Option<Id>, tags: Option<string>,
    sort: string, limit: nat, offset: nat)

  /** The `ilike` clause: `%query%` against the title or the content. */
  predicate TextMatches(t: PostTranslation, query: string) {
    ILike(t.title, "%" + query + "%") || ILike(t.content, "%" + query + "%")
  }

  /** The `WHERE` clauses of `search_posts` on a post joined with its
      translation in the requested language (at most one, by the unique
      constraint on (post, language)), before the tag join. */
  predicate Admitted(posts: map<Id, Post>, ts: seq<PostTranslation>, req: SearchRequest, postId: Id) {
    && postId in posts && posts[postId].status == "published"
    && FindTranslation(ts, postId, req.language).Some?
    && (Given(req.query) ==> TextMatches(ts[FindTranslation(ts, postId, req.language).value], req.query.value))
    && (Given(req.categoryId) ==> posts[postId].categoryId == Some(req.categoryId.value))
  }

  /** The post's tags whose slug is in the list: the rows the tag join adds. */
  function MatchingTags(tags: map<Id, Tag>, postTags: set<(Id, Id)>, tagList: seq<string>, postId: Id): set<Id> {
    set pt | pt in postTags && pt.0 == postId && pt.1 in tags && tags[pt.1].slug in tagList :: pt.1
  }

  /** A post the search should find: admitted, and carrying at least one of
      the requested tags when tags are requested. */
  predicate Selected(posts: map<Id, Post>, ts: seq<PostTranslation>, tags: map<Id, Tag>, postTags: set<(Id, Id)>,
                     req: SearchRequest, tagList: seq<string>, postId: Id) {
    Admitted(posts, ts, req, postId) && (tagList == [] || MatchingTags(tags, postTags, tagList, postId) != {})
  }

  /** The matching posts in scan order, each once: the corrected selection.
      The source's join yields a post once per requested tag it carries
      (`SearchRowsAsWritten`, `AsWrittenCountsTwice`). */
  function SearchRows(posts: map<Id, Post>, ts: seq<PostTranslation>, tags: map<Id, Tag>, postTags: set<(Id, Id)>,
                      req: SearchRequest, tagList: seq<string>, scan: seq<Id>): (rows: seq<(Id, Post)>)
    ensures forall x :: x in rows <==>
      x.0 in scan && Selected(posts, ts, tags, postTags, req, tagList, x.0) && x.1 == posts[x.0]
  {
    if scan == [] then []
    else
      (if Selected(posts, ts, tags, postTags, req, tagList, scan[0]) then [(scan[0], posts[scan[0]])] else [])
      + SearchRows(posts, ts, tags, postTags, req, tagList, scan[1..])
  }

  /** `x` repeated `n` times. */
  function Copies<T>(x: T, n: nat): (r: seq<T>)
    ensures |r| == n && forall i :: 0 <= i < n ==> r[i] == x
  {
    if n == 0 then [] else [x] + Copies(x, n - 1)
  }

  /** How many rows the joins of `search_posts` as written produce for one
      post: one per requested tag it carries once tags are requested. */
  function JoinedRowCount(posts: map<Id, Post>, ts: seq<PostTranslation>, tags: map<Id, Tag>, postTags: set<(Id, Id)>,
                          req: SearchRequest, tagList: seq<string>, postId: Id): nat {
    if !Admitted(posts, ts, req, postId) then 0
    else if tagList == [] then 1
    else |MatchingTags(tags, postTags, tagList, postId)|
  }

  /** The rows of `search_posts` as written: the tag join is not followed by a
      `DISTINCT`, and rows of an ORM `select` are not de-duplicated. */
  function SearchRowsAsWritten(posts: map<Id, Post>, ts: seq<PostTranslation>, tags: map<Id, Tag>,
                               postTags: set<(Id, Id)>, req: SearchRequest, tagList: seq<string>,
                               scan: seq<Id>): seq<(Id, Post)>
  {
    if scan == [] then []
    else
      var n := JoinedRowCount(posts, ts, tags, postTags, req, tagList, scan[0]);
      (if n == 0 then [] else Copies((scan[0], posts[scan[0]]), n))
      + SearchRowsAsWritten(posts, ts, tags, postTags, req, tagList, scan[1..])
  }

  /** A post carrying two of the requested tags comes back twice from the
      query as written (and `total` counts it twice); the corrected rows hold
      it once. */
  lemma AsWrittenCountsTwice(posts: map<Id, Post>, ts: seq<PostTranslation>, tags: map<Id, Tag>,
                             postTags: set<(Id, Id)>, req: SearchRequest, tagList: seq<string>,
                             postId: Id, t1: Id, t2: Id)
    requires Admitted(posts, ts, req, postId)
    requires t1 != t2 && (postId, t1) in postTags && (postId, t2) in postTags && t1 in tags && t2 in tags
    requires tags[t1].slug in tagList && tags[t2].slug in tagList
    ensures |SearchRowsAsWritten(posts, ts, tags, postTags, req, tagList, [postId])| >= 2
    ensures SearchRows(posts, ts, tags, postTags, req, tagList, [postId]) == [(postId, posts[postId])]
  {
    var m := MatchingTags(tags, postTags, tagList, postId);
    assert t1 in m && t2 in m;
    assert {t1, t2} <= m;
    assert |{t1, t2}| == 2;
    CardMono({t1, t2}, m);
    assert [postId][1..] == [];
  }

  lemma CardMono(a: set<Id>, b: set<Id>)
    requires a <= b
    ensures |a| <= |b|
  {
    assert b == a + (b - a);
  }

  predicate NewestFirst(a: (Id, Post), b: (Id, Post)) {
    a.1.createdAt >= b.1.createdAt
  }

  predicate MostHelpfulFirst(a: (Id, Post), b: (Id, Post)) {
    a.1.helpfulCount > b.1.helpfulCount || (a.1.helpfulCount == b.1.helpfulCount && NewestFirst(a, b))
  }

  predicate MostAccurateFirst(a: (Id, Post), b: (Id, Post)) {
    || a.1.accuracyAvg > b.1.accuracyAvg
    || (a.1.accuracyAvg == b.1.accuracyAvg &&
        (a.1.accuracyCount > b.1.accuracyCount || (a.1.accuracyCount == b.1.accuracyCount && NewestFirst(a, b))))
  }

  /** The `ORDER BY` of `search_posts`: `helpful`, `accuracy`, or newest first
      for any other value. */
  function SearchOrder(sort: string): ((Id, Post), (Id, Post)) -> bool {
    if sort == "helpful" then MostHelpfulFirst
    else if sort == "accuracy" then MostAccurateFirst
    else NewestFirst
  }

  lemma SearchOrderPreorder(sort: string)
    ensures Query.TotalPreorder(SearchOrder(sort))
  {
  }

  /** `search_posts` on the corrected rows of `SearchRows`: the page of
      matching posts in the requested order, and the number of matches before
      the window is applied. */
  function SearchPosts(posts: map<Id, Post>, ts: seq<PostTranslation>, tags: map<Id, Tag>, postTags: set<(Id, Id)>,
                       scan: seq<Id>, req: SearchRequest): (r: (seq<(Id, Post)>, nat))
    ensures |r.0| <= req.limit
    ensures req.offset <= r.1 ==>
      |r.0| == if req.offset + req.limit <= r.1 then req.limit else r.1 - req.offset
    ensures forall i :: 0 <= i < |r.0| ==>
      && r.0[i].0 in scan && r.0[i].0 in posts && r.0[i].1 == posts[r.0[i].0]
      && Selected(posts, ts, tags, postTags, req, NormalizeTagParam(req.tags), r.0[i].0)
    ensures Query.SortedBy(r.0, SearchOrder(req.sort))
  {
    var tagList := NormalizeTagParam(req.tags);
    var rows := SearchRows(posts, ts, tags, postTags, req, tagList, scan);
    SearchOrderPreorder(req.sort);
    var sorted := Query.SortBy(rows, SearchOrder(req.sort));
    Query.SortByMembers(rows, SearchOrder(req.sort));
    Query.WindowOfSorted(sorted, SearchOrder(req.sort), req.limit, req.offset);
    var page := Query.Window(sorted, req.limit, req.offset);
    assert forall i :: 0 <= i < |page| ==> page[i] in sorted;
    (page, |rows|)
  }

  /** A matching post left off a first page ranks no higher, in the requested
      order, than any post on it. */
  lemma SearchTop(posts: map<Id, Post>, ts: seq<PostTranslation>, tags: map<Id, Tag>, postTags: set<(Id, Id)>,
                  scan: seq<Id>, req: SearchRequest, postId: Id)
    requires req.offset == 0 && postId in scan && postId in posts
    requires Selected(posts, ts, tags, postTags, req, NormalizeTagParam(req.tags), postId)
    requires (postId, posts[postId]) !in SearchPosts(posts, ts, tags, postTags, scan, req).0
    ensures forall x :: x in SearchPosts(posts, ts, tags, postTags, scan, req).0 ==>
      SearchOrder(req.sort)(x, (postId, posts[postId]))
  {
    var rows := SearchRows(posts, ts, tags, postTags, req, NormalizeTagParam(req.tags), scan);
    SearchOrderPreorder(req.sort);
    Query.SortByMembers(rows, SearchOrder(req.sort));
    Query.WindowTop(Query.SortBy(rows, SearchOrder(req.sort)), SearchOrder(req.sort), req.limit, (postId, posts[postId]));
  }

  /** When the scan visits each post once, no page shows a post twice. */
  lemma SearchPageDistinct(posts: map<Id, Post>, ts: seq<PostTranslation>, tags: map<Id, Tag>,
                           postTags: set<(Id, Id)>, scan: seq<Id>, req: SearchRequest)
    requires PostTags.Distinct(scan)
    ensures var page := SearchPosts(posts, ts, tags, postTags, scan, req).0;
      forall i, j :: 0 <= i < j < |page| ==> page[i].0 != page[j].0
  {
    var rows := SearchRows(posts, ts, tags, postTags, req, NormalizeTagParam(req.tags), scan);
    RowsOnce(posts, ts, tags, postTags, req, NormalizeTagParam(req.tags), scan);
    SearchOrderPreorder(req.sort);
    var sorted := Query.SortBy(rows, SearchOrder(req.sort));
    assert multiset(sorted) == multiset(rows);
    WindowApart(sorted, req.limit, req.offset);
    var page := SearchPosts(posts, ts, tags, postTags, scan, req).0;
    assert page == Query.Window(sorted, req.limit, req.offset);
    forall i, j | 0 <= i < j < |page|
      ensures page[i].0 != page[j].0
    {
      assert page[i].1 == posts[page[i].0] && page[j].1 == posts[page[j].0];
    }
  }

  /** A window of a sequence in which everything occurs at most once holds no
      value at two positions. */
  lemma WindowApart<T>(s: seq<T>, limit: nat, offset: nat)
    requires forall x :: multiset(s)[x] <= 1
    ensures var w := Query.Window(s, limit, offset);
      forall i, j :: 0 <= i < j < |w| ==> w[i] != w[j]
  {
    OnceApart(s);
    var w := Query.Window(s, limit, offset);
    forall i, j | 0 <= i < j < |w|
      ensures w[i] != w[j]
    {
      assert w[i] == s[offset + i] && w[j] == s[offset + j];
    }
  }

  /** With a scan that visits each post once, every row occurs once. */
  lemma {:induction false} RowsOnce(posts: map<Id, Post>, ts: seq<PostTranslation>, tags: map<Id, Tag>,
                                    postTags: set<(Id, Id)>, req: SearchRequest, tagList: seq<string>, scan: seq<Id>)
    requires PostTags.Distinct(scan)
    ensures forall x :: multiset(SearchRows(posts, ts, tags, postTags, req, tagList, scan))[x] <= 1
  {
    if scan != [] {
      var rest := scan[1..];
      DistinctTail(scan);
      RowsOnce(posts, ts, tags, postTags, req, tagList, rest);
      var tail := SearchRows(posts, ts, tags, postTags, req, tagList, rest);
      var head := if Selected(posts, ts, tags, postTags, req, tagList, scan[0]) then [(scan[0], posts[scan[0]])] else [];
      assert SearchRows(posts, ts, tags, postTags, req, tagList, scan) == head + tail;
      forall x ensures multiset(head + tail)[x] <= 1 {
        assert multiset(head + tail) == multiset(head) + multiset(tail);
        if x in head {
          assert x !in tail;
        }
      }
    }
  }

  /** A sequence in which everything occurs at most once holds no value at two
      positions. */
  lemma OnceApart<T>(s: seq<T>)
    requires forall x :: multiset(s)[x] <= 1
    ensures forall i, j :: 0 <= i < j < |s| ==> s[i] != s[j]
  {
    forall i, j | 0 <= i < j < |s|
      ensures s[i] != s[j]
    {
      assert s == s[..j] + s[j..];
      assert s[i] in s[..j] && s[j] in s[j..];
      assert multiset(s)[s[j]] == multiset(s[..j])[s[j]] + multiset(s[j..])[s[j]];
    }
  }

  /** The requested language is the one the page is shown in: every post on it
      has a translation in that language, so rendering never fails. */
  lemma SearchRendersInLanguage(posts: map<Id, Post>, ts: seq<PostTranslation>, tags: map<Id, Tag>,
                                postTags: set<(Id, Id)>, scan: seq<Id>, req: SearchRequest)
    ensures var page := SearchPosts(posts, ts, tags, postTags, scan, req).0;
      var shown := Render(ts, page, req.language);
      shown.Ok? && forall i :: 0 <= i < |page| ==> shown.value[i].language == req.language
  {
    var page := SearchPosts(posts, ts, tags, postTags, scan, req).0;
    forall i | 0 <= i < |page|
      ensures PostService.HasTranslation(ts, page[i].0, req.language)
    {
      PostService.FindIffHas(ts, page[i].0, req.language);
    }
  }

  /** With no query wildcards (`%`, `_`) the text clause is a case-insensitive
      substring test on the title or the content. */
  lemma TextMatchesContains(t: PostTranslation, query: string)
    requires NoWildcards(query)
    ensures TextMatches(t, query) <==> Contains(Lower(t.title), Lower(query)) || Contains(Lower(t.content), Lower(query))
  {
    ILikeContains(t.title, query);
    ILikeContains(t.content, query);
  }

  /** `total` counts every matching post exactly once when the scan visits each
      post once. */
  lemma SearchTotal(posts: map<Id, Post>, ts: seq<PostTranslation>, tags: map<Id, Tag>, postTags: set<(Id, Id)>,
                    scan: seq<Id>, req: SearchRequest)
    requires PostTags.Distinct(scan) && forall p :: p in posts ==> p in scan
    ensures SearchPosts(posts, ts, tags, postTags, scan, req).1 ==
      |set p | p in posts && Selected(posts, ts, tags, postTags, req, NormalizeTagParam(req.tags), p)|
  {
    var tagList := NormalizeTagParam(req.tags);
    RowsCount(posts, ts, tags, postTags, req, tagList, scan);
    assert SelectedIn(posts, ts, tags, postTags, req, tagList, scan)
        == (set p | p in posts && Selected(posts, ts, tags, postTags, req, tagList, p));
  }

  /** The ids of the matching posts in the scan. */
  function SelectedIn(posts: map<Id, Post>, ts: seq<PostTranslation>, tags: map<Id, Tag>, postTags: set<(Id, Id)>,
                      req: SearchRequest, tagList: seq<string>, scan: seq<Id>): (r: set<Id>)
    ensures forall p :: p in r <==> p in scan && Selected(posts, ts, tags, postTags, req, tagList, p)
  {
    if scan == [] then {}
    else
      (if Selected(posts, ts, tags, postTags, req, tagList, scan[0]) then {scan[0]} else {})
      + SelectedIn(posts, ts, tags, postTags, req, tagList, scan[1..])
  }

  lemma {:induction false} RowsCount(posts: map<Id, Post>, ts: seq<PostTranslation>, tags: map<Id, Tag>,
                                     postTags: set<(Id, Id)>, req: SearchRequest, tagList: seq<string>, scan: seq<Id>)
    requires PostTags.Distinct(scan)
    ensures |SearchRows(posts, ts, tags, postTags, req, tagList, scan)| ==
      |SelectedIn(posts, ts, tags, postTags, req, tagList, scan)|
  {
    if scan != [] {
      var rest := scan[1..];
      DistinctTail(scan);
      RowsCount(posts, ts, tags, postTags, req, tagList, rest);
      assert scan[0] !in SelectedIn(posts, ts, tags, postTags, req, tagList, rest);
    }
  }

  lemma DistinctTail(s: seq<string>)
    requires s != [] && PostTags.Distinct(s)
    ensures PostTags.Distinct(s[1..]) && s[0] !in s[1..]
  {
    var rest := s[1..];
    forall i, j | 0 <= i < j < |rest| ensures rest[i] != rest[j] {
      assert rest[i] == s[i + 1] && rest[j] == s[j + 1];
    }
    forall j | 0 <= j < |rest| ensures rest[j] != s[0] {
      assert rest[j] == s[j + 1];
    }
  }

  /** `_to_response` on each row, in order; the first post without a usable
      translation aborts with 500. */
  function Render(ts: seq<PostTranslation>, rows: seq<(Id, Post)>, language: string)
    : (r: Result<seq<PostService.PostView>>)
    ensures r.Ok? ==> |r.value| == |rows|
    ensures r.Ok? ==>
      forall i :: 0 <= i < |rows| ==> PostService.ToResponse(ts, rows[i].0, rows[i].1, language) == Ok(r.value[i])
    ensures r.Err? ==> r.error == AppError(500, "post_translation_missing")
    ensures (forall i :: 0 <= i < |rows| ==> PostService.HasTranslation(ts, rows[i].0, language)) ==> r.Ok?
  {
    if rows == [] then Ok([])
    else match PostService.ToResponse(ts, rows[0].0, rows[0].1, language)
      case Err(e) => Err(e)
      case Ok(v) =>
        match Render(ts, rows[1..], language)
        case Err(e) => Err(e)
        case Ok(vs) => Ok([v] + vs)
  }

  // ---------------------------------------------------------------------------
  // `suggest_terms`

  /** The registry's slugs in scan order. */
  function TagSlugs(tags: map<Id, Tag>, scan: seq<Id>): (r: seq<string>)
    ensures forall s :: s in r ==> exists t :: t in scan && t in tags && tags[t].slug == s
  {
    if scan == [] then []
    else (if scan[0] in tags then [tags[scan[0]].slug] else []) + TagSlugs(tags, scan[1..])
  }

  /** The slugs among `slugs` that match the pattern, in order. */
  function Hits(items: seq<string>, pattern: string): (r: seq<string>)
    ensures forall x :: x in r <==> x in items && ILike(x, pattern)
  {
    if items == [] then []
    else (if ILike(items[0], pattern) then [items[0]] else []) + Hits(items[1..], pattern)
  }

  function Titles(ts: seq<PostTranslation>): seq<string> {
    seq(|ts|, i requires 0 <= i < |ts| => ts[i].title)
  }

  /** `suggest_terms`' merge: titles then slugs, each term once, in first-seen
      order, at most `limit` of them. */
  function Merged(titles: seq<string>, slugs: seq<string>, limit: nat): seq<string> {
    Query.Window(PostTags.Dedup(titles + slugs), limit, 0)
  }

  /** The merge keeps distinct terms drawn from its inputs, no more than the
      limit, and keeps the titles first when they fit. */
  lemma MergedShape(titles: seq<string>, slugs: seq<string>, limit: nat)
    ensures var m := Merged(titles, slugs, limit);
      && |m| <= limit && PostTags.Distinct(m)
      && (forall x :: x in m ==> x in titles || x in slugs)
      && (PostTags.Distinct(titles) && |titles| <= limit ==> |titles| <= |m| && m[..|titles|] == titles)
  {
    var d := PostTags.Dedup(titles + slugs);
    var m := Merged(titles, slugs, limit);
    assert m == d[..|m|];
    forall i, j | 0 <= i < j < |m| ensures m[i] != m[j] {
      assert m[i] == d[i] && m[j] == d[j];
    }
    forall x | x in m ensures x in titles || x in slugs {
      assert x in d;
    }
    if PostTags.Distinct(titles) && |titles| <= limit {
      assert (titles + slugs)[..|titles|] == titles;
      DedupPrefix(titles + slugs, |titles|);
      DedupDistinct(titles);
    }
  }

  /** Deduplicating a prefix gives a prefix of the deduplicated whole. */
  lemma {:induction false} DedupPrefix(s: seq<string>, j: nat)
    requires j <= |s|
    ensures |PostTags.Dedup(s[..j])| <= |PostTags.Dedup(s)|
    ensures PostTags.Dedup(s)[..|PostTags.Dedup(s[..j])|] == PostTags.Dedup(s[..j])
    decreases |s|
  {
    if j < |s| {
      var init := s[..|s| - 1];
      assert init[..j] == s[..j];
      DedupPrefix(init, j);
    } else {
      assert s[..j] == s;
    }
  }

  /** Deduplicating distinct entries changes nothing. */
  lemma {:induction false} DedupDistinct(s: seq<string>)
    requires PostTags.Distinct(s)
    ensures PostTags.Dedup(s) == s
    decreases |s|
  {
    if s != [] {
      var init := s[..|s| - 1];
      assert PostTags.Distinct(init) by {
        forall i, j | 0 <= i < j < |init| ensures init[i] != init[j] {
          assert init[i] == s[i] && init[j] == s[j];
        }
      }
      DedupDistinct(init);
      assert s[|s| - 1] !in init by {
        forall i | 0 <= i < |init| ensures init[i] != s[|s| - 1] {
          assert init[i] == s[i];
        }
      }
      assert s == init + [s[|s| - 1]];
    }
  }

  /** Deduplicating one more entry keeps it exactly when it is new. */
  lemma DedupSnoc(items: seq<string>, i: nat)
    requires i < |items|
    ensures var d := PostTags.Dedup(items[..i]);
      PostTags.Dedup(items[..i + 1]) == if items[i] in d then d else d + [items[i]]
  {
    assert items[..i + 1][..i] == items[..i];
  }

  /** The `for item in titles + tags` loop: append unseen terms, stop once the
      limit is reached. */
  method MergeSuggestions(titles: seq<string>, slugs: seq<string>, limit: nat) returns (merged: seq<string>)
    requires limit >= 1
    ensures merged == Merged(titles, slugs, limit)
  {
    var items := titles + slugs;
    merged := [];
    var i := 0;
    while i < |items|
      invariant 0 <= i <= |items|
      invariant merged == PostTags.Dedup(items[..i])
      invariant |merged| < limit
    {
      DedupSnoc(items, i);
      if items[i] !in merged {
        merged := merged + [items[i]];
      }
      i := i + 1;
      if |merged| >= limit {
        DedupPrefix(items, i);
        return;
      }
    }
    assert items[..i] == items;
  }

  /** `suggest_terms`: without a query, the first `limit` slugs in ascending
      order; with one, the matching titles (distinct, at most `limit`) and the
      matching slugs (at most `limit`) merged. `limit` is at least 1 (the route
      enforces it). */
  method SuggestTerms(ts: seq<PostTranslation>, tags: map<Id, Tag>, tagScan: seq<Id>, query: Option<string>, limit: nat)
    returns (items: seq<string>)
    requires limit >= 1
    ensures |items| <= limit
    ensures !Given(query) ==>
      Query.TotalPreorder(Query.TextLe) &&
      items == Query.Window(Query.SortBy(TagSlugs(tags, tagScan), Query.TextLe), limit, 0)
    ensures Given(query) ==>
      var pattern := "%" + query.value + "%";
      items == Merged(Query.Window(PostTags.Dedup(Hits(Titles(ts), pattern)), limit, 0),
                      Query.Window(Hits(TagSlugs(tags, tagScan), pattern), limit, 0), limit)
  {
    if !Given(query) {
      Query.TextLePreorder();
      items := Query.Window(Query.SortBy(TagSlugs(tags, tagScan), Query.TextLe), limit, 0);
      return;
    }
    var pattern := "%" + query.value + "%";
    var titles := Query.Window(PostTags.Dedup(Hits(Titles(ts), pattern)), limit, 0);
    var slugs := Query.Window(Hits(TagSlugs(tags, tagScan), pattern), limit, 0);
    items := MergeSuggestions(titles, slugs, limit);
  }

  /** Every suggestion for a query without wildcards contains it, ignoring case:
      a title of some post translation or a slug of the registry. */
  lemma SuggestionsMatch(ts: seq<PostTranslation>, tags: map<Id, Tag>, tagScan: seq<Id>, q: string, limit: nat)
    requires q != "" && NoWildcards(q)
    ensures var pattern := "%" + q + "%";
      forall x :: x in Merged(Query.Window(PostTags.Dedup(Hits(Titles(ts), pattern)), limit, 0),
                             Query.Window(Hits(TagSlugs(tags, tagScan), pattern), limit, 0), limit) ==>
        (Contains(Lower(x), Lower(q)) && (x in Titles(ts) || exists t :: t in tagScan && t in tags && tags[t].slug == x))
  {
    var pattern := "%" + q + "%";
    var titles := Query.Window(PostTags.Dedup(Hits(Titles(ts), pattern)), limit, 0);
    var slugs := Query.Window(Hits(TagSlugs(tags, tagScan), pattern), limit, 0);
    MergedShape(titles, slugs, limit);
    forall x | x in Merged(titles, slugs, limit)
      ensures Contains(Lower(x), Lower(q)) && (x in Titles(ts) || exists t :: t in tagScan && t in tags && tags[t].slug == x)
    {
      ILikeContains(x, q);
      if x in titles {
        var i :| 0 <= i < |titles| && titles[i] == x;
        assert x in PostTags.Dedup(Hits(Titles(ts), pattern));
      } else {
        var i :| 0 <= i < |slugs| && slugs[i] == x;
        assert x in Hits(TagSlugs(tags, tagScan), pattern);
      }
    }
  }

  /** Without a query, a slug left off the list sorts after every listed one. */
  lemma SuggestedSlugsFirst(tags: map<Id, Tag>, tagScan: seq<Id>, limit: nat, slug: string)
    requires slug in TagSlugs(tags, tagScan)
    ensures Query.TotalPreorder(Query.TextLe)
    ensures var listed := Query.Window(Query.SortBy(TagSlugs(tags, tagScan), Query.TextLe), limit, 0);
      slug !in listed ==> forall x :: x in listed ==> Query.TextLe(x, slug)
  {
    Query.TextLePreorder();
    var sorted := Query.SortBy(TagSlugs(tags, tagScan), Query.TextLe);
    Query.SortByMembers(TagSlugs(tags, tagScan), Query.TextLe);
    if slug !in Query.Window(sorted, limit, 0) {
      Query.WindowTop(sorted, Query.TextLe, limit, slug);
    }
  }

  // ---------------------------------------------------------------------------
  // `trending_posts`

  /** The `ORDER BY` of `trending_posts`: most helpful, then most accurate,
      then newest. */
  predicate TrendingFirst(a: (Id, Post), b: (Id, Post)) {
    || a.1.helpfulCount > b.1.helpfulCount
    || (a.1.helpfulCount == b.1.helpfulCount &&
        (a.1.accuracyAvg > b.1.accuracyAvg || (a.1.accuracyAvg == b.1.accuracyAvg && NewestFirst(a, b))))
  }

  lemma TrendingPreorder()
    ensures Query.TotalPreorder(TrendingFirst)
  {
  }

  /** The published posts in scan order. */
  function PublishedRows(posts: map<Id, Post>, scan: seq<Id>): (rows: seq<(Id, Post)>)
    ensures forall x :: x in rows <==> x.0 in scan && x.0 in posts && x.1 == posts[x.0] && x.1.status == "published"
  {
    if scan == [] then []
    else
      (if scan[0] in posts && posts[scan[0]].status == "published" then [(scan[0], posts[scan[0]])] else [])
      + PublishedRows(posts, scan[1..])
  }

  /** `trending_posts` on the rows: the top `limit` published posts. Rendering
      (`Render`) is left to the caller, and fails with 500 for a post that has
      neither the requested nor its original language. */
  function TrendingPosts(posts: map<Id, Post>, scan: seq<Id>, limit: nat): (r: seq<(Id, Post)>)
    ensures |r| <= limit
    ensures forall i :: 0 <= i < |r| ==>
      r[i].0 in posts && r[i].1 == posts[r[i].0] && r[i].1.status == "published"
    ensures Query.SortedBy(r, TrendingFirst)
  {
    TrendingPreorder();
    var rows := PublishedRows(posts, scan);
    var sorted := Query.SortBy(rows, TrendingFirst);
    Query.SortByMembers(rows, TrendingFirst);
    Query.WindowOfSorted(sorted, TrendingFirst, limit, 0);
    var top := Query.Window(sorted, limit, 0);
    assert forall i :: 0 <= i < |top| ==> top[i] in sorted;
    top
  }

  /** A published post left off the trending list ranks no higher than any
      post on it. */
  lemma TrendingTop(posts: map<Id, Post>, scan: seq<Id>, limit: nat, postId: Id)
    requires postId in scan && postId in posts && posts[postId].status == "published"
    requires (postId, posts[postId]) !in TrendingPosts(posts, scan, limit)
    ensures forall x :: x in TrendingPosts(posts, scan, limit) ==> TrendingFirst(x, (postId, posts[postId]))
  {
    TrendingPreorder();
    var rows := PublishedRows(posts, scan);
    Query.SortByMembers(rows, TrendingFirst);
    Query.WindowTop(Query.SortBy(rows, TrendingFirst), TrendingFirst, limit, (postId, posts[postId]));
  }
}
