/** `PostController`: the public post endpoints. Each action runs after its
    form request validated the input, so every action below takes the raw
    input with the guarantee the framework gives: it is normalised and it
    passes the request's rules. Messages are translation keys. */
module PostController {
  import opened Php
  import opened Json
  import opened Seqs
  import opened Store
  import opened Post
  import opened Pagination
  import Rules
  import opened PostResource
  import opened BaseController
  import opened Messages
  import PostRequest
  import SearchRequest

  /** How many posts each list of the summary holds. */
  const SUMMARY_LIMIT: nat := 5

  /** `Post::query()->withRelations()`: every column, the three relations. */
  const LIST_SHAPE: Shape := WithRelationsShape(PlainShape)

  /** `$validated['per_page'] ?? 15`. */
  function PerPage(validated: Rules.Input): int {
    Rules.IntOr(validated, "per_page", DEFAULT_PER_PAGE)
  }

  /** `$validated['page'] ?? 1`. */
  function Page(validated: Rules.Input): int {
    Rules.IntOr(validated, "page", DEFAULT_PAGE)
  }

  predicate PageParams(validated: Rules.Input) {
    PerPage(validated) >= 1 && Page(validated) >= 1
  }

  /** `meta`: the current page, the last page, the page size, the total. */
  function MetaJson<T>(p: Paginator<T>): (fs: seq<(string, Json)>)
    requires ValidPaginator(p)
    ensures Keys(fs) == ["current_page", "last_page", "per_page", "total"]
    ensures Lookup(fs, "current_page") == Some(JInt(p.currentPage))
    ensures Lookup(fs, "last_page") == Some(JInt(PaginatorLastPage(p)))
    ensures Lookup(fs, "per_page") == Some(JInt(p.perPage))
    ensures Lookup(fs, "total") == Some(JInt(p.total))
  {
    [("current_page", JInt(p.currentPage)),
     ("last_page", JInt(PaginatorLastPage(p))),
     ("per_page", JInt(p.perPage)),
     ("total", JInt(p.total))]
  }

  /** `paginateAndRespond`: one page of the ordered rows `rows` as resources,
      with the page numbers and the neighbouring page links. */
  function PaginateAndRespond(db: Db, rows: seq<Store.Post>, validated: Rules.Input): (r: Response)
    requires PageParams(validated)
    ensures r.status == HTTP_OK && Enveloped(r) && Succeeded(r) && Message(r) == POSTS_RETRIEVED
    ensures Keys(Data(r)) == ["posts", "meta", "links"]
    ensures Lookup(Data(r), "posts") == Some(Resources(db, LIST_SHAPE, Paginate(rows, PerPage(validated), Page(validated)).items))
    ensures Lookup(Data(r), "meta") == Some(JObj(MetaJson(Paginate(rows, PerPage(validated), Page(validated)))))
    ensures Lookup(Data(r), "links") == Some(JObj(LinksJson(Paginate(rows, PerPage(validated), Page(validated)))))
  {
    SendData(PageBody(db, Paginate(rows, PerPage(validated), Page(validated))), POSTS_RETRIEVED)
  }

  /** The `data` of a paginated response. */
  function PageBody(db: Db, p: Paginator<Store.Post>): (fs: seq<(string, Json)>)
    requires ValidPaginator(p)
    ensures Keys(fs) == ["posts", "meta", "links"]
    ensures Lookup(fs, "posts") == Some(Resources(db, LIST_SHAPE, p.items))
    ensures Lookup(fs, "meta") == Some(JObj(MetaJson(p)))
    ensures Lookup(fs, "links") == Some(JObj(LinksJson(p)))
  {
    Lookup3("posts", Resources(db, LIST_SHAPE, p.items), "meta", JObj(MetaJson(p)), "links", JObj(LinksJson(p)));
    [("posts", Resources(db, LIST_SHAPE, p.items)), ("meta", JObj(MetaJson(p))), ("links", JObj(LinksJson(p)))]
  }

  /** The page a paginated response shows: rows `(page - 1) * perPage` on,
      at most `perPage` of them, and the total is the number of all rows. */
  lemma PaginatedPage(db: Db, rows: seq<Store.Post>, validated: Rules.Input)
    requires PageParams(validated)
    ensures var p := Paginate(rows, PerPage(validated), Page(validated));
      && |p.items| <= PerPage(validated)
      && (p.items == [] <==> Offset(Page(validated), PerPage(validated)) >= |rows|)
      && (p.items != [] ==> p.items == rows[Offset(Page(validated), PerPage(validated))..Offset(Page(validated), PerPage(validated)) + |p.items|])
      && Lookup(MetaJson(p), "total") == Some(JInt(|rows|))
  {
  }

  /** The listing rows: the posts a where-list selects, newest first. */
  function Listing(db: Db, ws: seq<Where>): seq<Store.Post> {
    Latest(Select(db, ws))
  }

  /** The listing holds exactly the selected posts, each as often as in the
      table, newest first. */
  lemma ListingIs(db: Db, ws: seq<Where>)
    ensures multiset(Listing(db, ws)) == multiset(Select(db, ws))
    ensures forall p :: p in Listing(db, ws) <==> p in db.posts && Matches(db, ws, p)
    ensures forall i, j :: 0 <= i < j < |Listing(db, ws)| ==> Listing(db, ws)[i].createdAt >= Listing(db, ws)[j].createdAt
  {
    forall p ensures p in Listing(db, ws) <==> p in Select(db, ws) {
      assert p in multiset(Listing(db, ws)) <==> p in multiset(Select(db, ws));
    }
  }

  // ---------------------------------------------------------------------
  // index

  /** `index`: all posts, newest first, paginated. */
  function Index(db: Db, input: Rules.Input): (r: Response)
    requires Rules.Normalised(input) && PostRequest.Passes(input)
    ensures PageParams(PostRequest.ValidatedInput(input))
      && r == PaginateAndRespond(db, Listing(db, []), PostRequest.ValidatedInput(input))
  {
    PostRequest.ValidatedBounds(input);
    PaginateAndRespond(db, Listing(db, []), PostRequest.ValidatedInput(input))
  }

  /** An empty where-list selects every post, so the index pages through the
      whole table. */
  lemma IndexListsAll(db: Db)
    ensures multiset(Listing(db, [])) == multiset(db.posts)
  {
    forall p | p in db.posts ensures Matches(db, [], p) {
      assert Matches(db, [], p);
    }
    FilterAll(db.posts, (p: Store.Post) => Matches(db, [], p));
  }

  // ---------------------------------------------------------------------
  // summary

  /** The newest five posts. */
  function LatestFive(ps: seq<Store.Post>): seq<Store.Post> {
    Take(Latest(ps), SUMMARY_LIMIT)
  }

  /** The five most viewed posts. */
  function MostViewedFive(ps: seq<Store.Post>): seq<Store.Post> {
    Take(MostViewed(ps), SUMMARY_LIMIT)
  }

  /** `$category->posts` with `withRelations()->latest()->limit(5)`. */
  function CategoryPosts(db: Db, c: Category): seq<Store.Post> {
    LatestFive(Filter(db.posts, (p: Store.Post) => p.categoryId == c.id))
  }

  /** One entry of `posts_by_category`: `{id, name, posts}`, the posts read
      with shape `s`. */
  function CategoryEntry(db: Db, s: Shape, c: Category): (j: Json)
    requires s.updatedAt
    ensures KeysOf(j) == ["id", "name", "posts"]
    ensures Get(j, "id") == Some(JInt(c.id)) && Get(j, "name") == Some(JStr(c.name))
    ensures Get(j, "posts") == Some(Resources(db, s, CategoryPosts(db, c)))
  {
    Lookup3("id", JInt(c.id), "name", JStr(c.name), "posts", Resources(db, s, CategoryPosts(db, c)));
    JObj([("id", JInt(c.id)), ("name", JStr(c.name)), ("posts", Resources(db, s, CategoryPosts(db, c)))])
  }

  /** `posts_by_category`: one entry per category, in table order. */
  function PostsByCategoryJson(db: Db, s: Shape): (j: Json)
    requires s.updatedAt
    ensures j.JArr? && |j.items| == |db.categories|
    ensures forall i :: 0 <= i < |db.categories| ==> j.items[i] == CategoryEntry(db, s, db.categories[i])
  {
    JArr(seq(|db.categories|, i requires 0 <= i < |db.categories| => CategoryEntry(db, s, db.categories[i])))
  }

  /** `summary`: the newest five, the five most viewed, and per category its
      five newest posts. */
  function Summary(db: Db): (r: Response)
    ensures r.status == HTTP_OK && Enveloped(r) && Succeeded(r) && Message(r) == BLOG_RETRIEVED
    ensures Keys(Data(r)) == ["latest_posts", "most_viewed_posts", "posts_by_category"]
    ensures Lookup(Data(r), "latest_posts") == Some(Resources(db, LIST_SHAPE, LatestFive(db.posts)))
    ensures Lookup(Data(r), "most_viewed_posts") == Some(Resources(db, LIST_SHAPE, MostViewedFive(db.posts)))
    ensures Lookup(Data(r), "posts_by_category") == Some(PostsByCategoryJson(db, LIST_SHAPE))
  {
    SendData(SummaryBody(db), BLOG_RETRIEVED)
  }

  /** The `data` of the summary. */
  function SummaryBody(db: Db): (fs: seq<(string, Json)>)
    ensures Keys(fs) == ["latest_posts", "most_viewed_posts", "posts_by_category"]
    ensures Lookup(fs, "latest_posts") == Some(Resources(db, LIST_SHAPE, LatestFive(db.posts)))
    ensures Lookup(fs, "most_viewed_posts") == Some(Resources(db, LIST_SHAPE, MostViewedFive(db.posts)))
    ensures Lookup(fs, "posts_by_category") == Some(PostsByCategoryJson(db, LIST_SHAPE))
  {
    Lookup3("latest_posts", Resources(db, LIST_SHAPE, LatestFive(db.posts)),
            "most_viewed_posts", Resources(db, LIST_SHAPE, MostViewedFive(db.posts)),
            "posts_by_category", PostsByCategoryJson(db, LIST_SHAPE));
    [("latest_posts", Resources(db, LIST_SHAPE, LatestFive(db.posts))),
     ("most_viewed_posts", Resources(db, LIST_SHAPE, MostViewedFive(db.posts))),
     ("posts_by_category", PostsByCategoryJson(db, LIST_SHAPE))]
  }

  /** The latest list holds five posts, or every post when there are fewer;
      they are newest first, and no post left out is newer than one shown. */
  lemma LatestFiveAreNewest(ps: seq<Store.Post>)
    ensures |LatestFive(ps)| == if |ps| < SUMMARY_LIMIT then |ps| else SUMMARY_LIMIT
    ensures forall x :: x in LatestFive(ps) ==> x in ps
    ensures forall i, j :: 0 <= i < j < |LatestFive(ps)| ==> LatestFive(ps)[i].createdAt >= LatestFive(ps)[j].createdAt
    ensures forall p, x :: p in ps && p !in LatestFive(ps) && x in LatestFive(ps) ==> x.createdAt >= p.createdAt
  {
    var s := Latest(ps);
    var t := LatestFive(ps);
    forall x | x in t ensures x in ps {
      assert x in multiset(s);
    }
    forall p, x | p in ps && p !in t && x in t ensures x.createdAt >= p.createdAt {
      assert p in multiset(s);
      var j :| 0 <= j < |s| && s[j] == p;
      var i :| 0 <= i < |t| && t[i] == x;
      assert s[i] == x;
      if j >= |t| {
        assert i < j;
      }
    }
  }

  /** The most-viewed list holds five posts, or every post when there are
      fewer; no post left out has more views than one shown. */
  lemma MostViewedFiveAreTop(ps: seq<Store.Post>)
    ensures |MostViewedFive(ps)| == if |ps| < SUMMARY_LIMIT then |ps| else SUMMARY_LIMIT
    ensures forall x :: x in MostViewedFive(ps) ==> x in ps
    ensures forall i, j :: 0 <= i < j < |MostViewedFive(ps)| ==> MostViewedFive(ps)[i].views >= MostViewedFive(ps)[j].views
    ensures forall p, x :: p in ps && p !in MostViewedFive(ps) && x in MostViewedFive(ps) ==> x.views >= p.views
  {
    var s := MostViewed(ps);
    var t := MostViewedFive(ps);
    forall x | x in t ensures x in ps {
      assert x in multiset(s);
    }
    forall p, x | p in ps && p !in t && x in t ensures x.views >= p.views {
      assert p in multiset(s);
      var j :| 0 <= j < |s| && s[j] == p;
      var i :| 0 <= i < |t| && t[i] == x;
      assert s[i] == x;
      if j >= |t| {
        assert i < j;
      }
    }
  }

  /** Each category lists at most five posts, all of that category. */
  lemma CategoryPostsBelong(db: Db, c: Category)
    ensures |CategoryPosts(db, c)| <= SUMMARY_LIMIT
    ensures forall p :: p in CategoryPosts(db, c) ==> p in db.posts && p.categoryId == c.id
  {
    var f := Filter(db.posts, (p: Store.Post) => p.categoryId == c.id);
    LatestFiveAreNewest(f);
  }

  // ---------------------------------------------------------------------
  // search

  /** `$validated[$key] ?? null` for a string entry. */
  function OptionalString(validated: Rules.Input, key: string): (r: Option<string>)
    ensures r.Some? <==> key in validated && validated[key].VStr?
  {
    if key in validated && validated[key].VStr? then Some(validated[key].s) else None
  }

  /** The search term and the three filter ids of a validated search. */
  function SearchTermOf(validated: Rules.Input): Option<string> {
    OptionalString(validated, "q")
  }

  /** The where-list `searchTerm(q)->filterByCategory(c)->filterByAuthor(a)
      ->filterByTag(t)` builds, one scope call after the other. */
  function SearchWheres(validated: Rules.Input): seq<Where> {
    var w1 := CallScope([], SearchTermSlice(SearchTermOf(validated)));
    var w2 := CallScope(w1, CategorySlice(Rules.OptionalInt(validated, "category")));
    var w3 := CallScope(w2, AuthorSlice(Rules.OptionalInt(validated, "author")));
    CallScope(w3, TagSlice(Rules.OptionalInt(validated, "tag")))
  }

  /** What the search asks of a post: the term in the title or the content,
      and the given category, author and tag; a missing or falsy filter asks
      nothing. */
  predicate SearchMatches(db: Db, validated: Rules.Input, p: Store.Post) {
    && TermMatches(SearchTermOf(validated), p)
    && CategoryMatches(Rules.OptionalInt(validated, "category"), p)
    && AuthorMatches(Rules.OptionalInt(validated, "author"), p)
    && TagMatches(db, Rules.OptionalInt(validated, "tag"), p)
  }

  /** The four scopes combine as a conjunction. */
  lemma SearchWheresMatch(db: Db, validated: Rules.Input, p: Store.Post)
    ensures Matches(db, SearchWheres(validated), p) == SearchMatches(db, validated, p)
  {
    var w1 := CallScope([], SearchTermSlice(SearchTermOf(validated)));
    var w2 := CallScope(w1, CategorySlice(Rules.OptionalInt(validated, "category")));
    var w3 := CallScope(w2, AuthorSlice(Rules.OptionalInt(validated, "author")));
    SearchTermConjunct(db, [], SearchTermOf(validated), p);
    CategoryConjunct(db, w1, Rules.OptionalInt(validated, "category"), p);
    AuthorConjunct(db, w2, Rules.OptionalInt(validated, "author"), p);
    TagConjunct(db, w3, Rules.OptionalInt(validated, "tag"), p);
  }

  /** The search query built on the query object, scope by scope. */
  method BuildSearchQuery(validated: Rules.Input) returns (q: PostQuery)
    ensures fresh(q)
    ensures q.wheres == SearchWheres(validated) && q.shape == LIST_SHAPE
    ensures forall db, p :: Matches(db, q.wheres, p) == SearchMatches(db, validated, p)
  {
    q := new PostQuery();
    q.WithRelations();
    q.SearchTerm(SearchTermOf(validated));
    q.FilterByCategory(Rules.OptionalInt(validated, "category"));
    q.FilterByAuthor(Rules.OptionalInt(validated, "author"));
    q.FilterByTag(Rules.OptionalInt(validated, "tag"));
    forall db, p ensures Matches(db, q.wheres, p) == SearchMatches(db, validated, p) {
      SearchWheresMatch(db, validated, p);
    }
  }

  /** `search`. */
  function Search(db: Db, input: Rules.Input): (r: Response)
    requires Rules.Normalised(input) && SearchRequest.Passes(input, db)
    ensures PageParams(SearchRequest.ValidatedInput(input))
      && r == PaginateAndRespond(db, Listing(db, SearchWheres(SearchRequest.ValidatedInput(input))), SearchRequest.ValidatedInput(input))
  {
    SearchRequest.ValidatedBounds(input, db);
    var v := SearchRequest.ValidatedInput(input);
    PaginateAndRespond(db, Listing(db, SearchWheres(v)), v)
  }

  /** The search pages through exactly the posts that contain the term and
      satisfy every given filter, newest first. */
  lemma SearchFinds(db: Db, input: Rules.Input)
    ensures var rows := Listing(db, SearchWheres(SearchRequest.ValidatedInput(input)));
      && (forall p :: p in rows <==> p in db.posts && SearchMatches(db, SearchRequest.ValidatedInput(input), p))
      && (forall i, j :: 0 <= i < j < |rows| ==> rows[i].createdAt >= rows[j].createdAt)
  {
    var v := SearchRequest.ValidatedInput(input);
    ListingIs(db, SearchWheres(v));
    forall p ensures Matches(db, SearchWheres(v), p) == SearchMatches(db, v, p) {
      SearchWheresMatch(db, v, p);
    }
  }

  /** A search with only a term also finds posts whose content, not title,
      holds it: the OR stays inside the term's group. */
  lemma SearchTermInContent(db: Db, validated: Rules.Input, p: Store.Post)
    requires TruthyString(SearchTermOf(validated))
    requires !TruthyInt(Rules.OptionalInt(validated, "category")) && !TruthyInt(Rules.OptionalInt(validated, "author"))
    requires !TruthyInt(Rules.OptionalInt(validated, "tag"))
    requires Contains(p.content, SearchTermOf(validated).value)
    ensures Matches(db, SearchWheres(validated), p)
  {
    SearchWheresMatch(db, validated, p);
  }

  // ---------------------------------------------------------------------
  // postsByCategory, postsByTag, postsByUser

  /** `postsByCategory`: 404 for an unknown slug, else that category's posts. */
  function PostsByCategory(db: Db, input: Rules.Input, categorySlug: string): (r: Response)
    requires Rules.Normalised(input) && PostRequest.Passes(input)
    ensures CategoryBySlug(db, categorySlug).None? ==> r == ErrorEnvelope(CATEGORY_NOT_FOUND, HTTP_NOT_FOUND, [])
    ensures PageParams(PostRequest.ValidatedInput(input))
    ensures CategoryBySlug(db, categorySlug).Some? ==>
      r == PaginateAndRespond(db, Listing(db, [Where(IntEq(CategoryId, CategoryBySlug(db, categorySlug).value.id), And)]), PostRequest.ValidatedInput(input))
    ensures r.status == HTTP_NOT_FOUND <==> !(exists c :: c in db.categories && c.slug == categorySlug)
  {
    PostRequest.ValidatedBounds(input);
    match CategoryBySlug(db, categorySlug)
    case None => ErrorEnvelope(CATEGORY_NOT_FOUND, HTTP_NOT_FOUND, [])
    case Some(c) =>
      PaginateAndRespond(db, Listing(db, [Where(IntEq(CategoryId, c.id), And)]), PostRequest.ValidatedInput(input))
  }

  /** `postsByTag`: 404 for an unknown slug, else the posts carrying the tag. */
  function PostsByTag(db: Db, input: Rules.Input, tagSlug: string): (r: Response)
    requires Rules.Normalised(input) && PostRequest.Passes(input)
    ensures TagBySlug(db, tagSlug).None? ==> r == ErrorEnvelope(TAG_NOT_FOUND, HTTP_NOT_FOUND, [])
    ensures PageParams(PostRequest.ValidatedInput(input))
    ensures TagBySlug(db, tagSlug).Some? ==>
      r == PaginateAndRespond(db, Listing(db, [Where(TagIs(TagBySlug(db, tagSlug).value.id), And)]), PostRequest.ValidatedInput(input))
    ensures r.status == HTTP_NOT_FOUND <==> !(exists t :: t in db.tags && t.slug == tagSlug)
  {
    PostRequest.ValidatedBounds(input);
    match TagBySlug(db, tagSlug)
    case None => ErrorEnvelope(TAG_NOT_FOUND, HTTP_NOT_FOUND, [])
    case Some(t) =>
      PaginateAndRespond(db, Listing(db, [Where(TagIs(t.id), And)]), PostRequest.ValidatedInput(input))
  }

  /** `postsByUser`: 404 for an unknown id, else that user's posts. */
  function PostsByUser(db: Db, input: Rules.Input, userId: int): (r: Response)
    requires Rules.Normalised(input) && PostRequest.Passes(input)
    ensures FindUser(db, userId).None? ==> r == ErrorEnvelope(USER_NOT_FOUND, HTTP_NOT_FOUND, [])
    ensures PageParams(PostRequest.ValidatedInput(input))
    ensures FindUser(db, userId).Some? ==>
      r == PaginateAndRespond(db, Listing(db, [Where(IntEq(UserId, userId), And)]), PostRequest.ValidatedInput(input))
    ensures r.status == HTTP_NOT_FOUND <==> !IsUserId(db, userId)
  {
    PostRequest.ValidatedBounds(input);
    match FindUser(db, userId)
    case None => ErrorEnvelope(USER_NOT_FOUND, HTTP_NOT_FOUND, [])
    case Some(u) =>
      PaginateAndRespond(db, Listing(db, [Where(IntEq(UserId, u.id), And)]), PostRequest.ValidatedInput(input))
  }

  /** A single equality clause selects exactly the posts with that column value. */
  lemma SingleClause(db: Db, c: Cond, p: Store.Post)
    ensures Matches(db, [Where(c, And)], p) == Holds(db, c, p)
  {
    MatchesConjunction(db, [Where(c, And)], p);
  }

  /** The category, tag and user listings hold exactly that category's, that
      tag's and that user's posts. */
  lemma FilteredListings(db: Db, categoryId: int, tagId: int, userId: int)
    ensures forall p :: p in Listing(db, [Where(IntEq(CategoryId, categoryId), And)]) <==> p in db.posts && p.categoryId == categoryId
    ensures forall p :: p in Listing(db, [Where(TagIs(tagId), And)]) <==> p in db.posts && HasTag(db, p, tagId)
    ensures forall p :: p in Listing(db, [Where(IntEq(UserId, userId), And)]) <==> p in db.posts && p.userId == userId
  {
    ListingIs(db, [Where(IntEq(CategoryId, categoryId), And)]);
    ListingIs(db, [Where(TagIs(tagId), And)]);
    ListingIs(db, [Where(IntEq(UserId, userId), And)]);
    forall p ensures
      && Matches(db, [Where(IntEq(CategoryId, categoryId), And)], p) == (p.categoryId == categoryId)
      && Matches(db, [Where(TagIs(tagId), And)], p) == HasTag(db, p, tagId)
      && Matches(db, [Where(IntEq(UserId, userId), And)], p) == (p.userId == userId)
    {
      SingleClause(db, IntEq(CategoryId, categoryId), p);
      SingleClause(db, TagIs(tagId), p);
      SingleClause(db, IntEq(UserId, userId), p);
    }
  }

  // ---------------------------------------------------------------------
  // show

  /** `Post::...->where('slug', $slug)->first()`. */
  function PostBySlug(db: Db, slug: string): (r: Option<Store.Post>)
    ensures r.Some? <==> exists p :: p in db.posts && p.slug == slug
    ensures r.Some? ==> r.value in db.posts && r.value.slug == slug
  {
    Find(db.posts, (p: Store.Post) => p.slug == slug)
  }

  /** `show`: the post as a resource, or 404. */
  function Show(db: Db, slug: string): (r: Response)
    ensures PostBySlug(db, slug).None? ==> r == ErrorEnvelope(POST_NOT_FOUND, HTTP_NOT_FOUND, [])
    ensures PostBySlug(db, slug).Some? ==>
      && r.status == HTTP_OK && Succeeded(r) && Message(r) == POST_RETRIEVED
      && Data(r) == ToArray(Hydrate(db, LIST_SHAPE, PostBySlug(db, slug).value)).fields
    ensures r.status == HTTP_NOT_FOUND <==> !(exists p :: p in db.posts && p.slug == slug)
  {
    match PostBySlug(db, slug)
    case None => ErrorEnvelope(POST_NOT_FOUND, HTTP_NOT_FOUND, [])
    case Some(p) => SendData(ToArray(Hydrate(db, LIST_SHAPE, p)).fields, POST_RETRIEVED)
  }

  /** A found post shows its own slug and all three relations. */
  lemma ShowsPost(db: Db, slug: string)
    requires PostBySlug(db, slug).Some?
    ensures ("slug", JStr(slug)) in Data(Show(db, slug))
    ensures "user" in Keys(Data(Show(db, slug))) && "category" in Keys(Data(Show(db, slug)))
    ensures "tags" in Keys(Data(Show(db, slug)))
  {
    var p := PostBySlug(db, slug).value;
    var m := Hydrate(db, LIST_SHAPE, p);
    assert BaseFields(m)[2] == ("slug", JStr(slug));
    assert ToArray(m).fields[..|BASE_KEYS|][2] == ("slug", JStr(slug));
    ResourceKeys(db, LIST_SHAPE, p);
  }
}
