/** `PageController`: the blog front page, the paginated post list and the
    search, all built on one base query that loads the three relations and
    the comment count. As in `PostController`, each action receives input
    that is normalised and passes its form request. */
module PageController {
  import opened Php
  import opened Json
  import opened Seqs
  import opened Store
  import opened Post
  import opened Pagination
  import Rules
  import opened PostResource
  import opened BaseController
  import opened Messages
  import PostController
  import PostsRequest
  import SearchRequest

  /** `basePostQuery()` as written: `updated_at` is not among the selected
      columns, although the resource formats it. */
  const BASE_SHAPE_AS_WRITTEN: Shape := Shape(false, true, true, true, true, true)

  /** `basePostQuery()` with `updated_at` selected as well: the selection the
      resource needs, and the one the rest of this module uses. */
  const BASE_SHAPE: Shape := Shape(true, true, true, true, true, true)

  /** The category posts of the blog page: every column, the comment count,
      `category:id,name` (no slug) and `user:id,name`; tags are not loaded. */
  const CATEGORY_POSTS_SHAPE: Shape := Shape(true, true, true, false, false, true)

  // ---------------------------------------------------------------------
  // The base query

  /** As written, no row of the base query holds `updated_at`, so the
      resource's `updated_at->format(...)` fails on every post it shows: a
      non-empty front page cannot be rendered. */
  lemma AsWrittenLacksUpdatedAt(db: Db, p: Store.Post)
    ensures Hydrate(db, BASE_SHAPE_AS_WRITTEN, p).updatedAt.None?
  {
  }

  /** With any post in the table, the front page as written shows at least
      one post without `updated_at`. */
  lemma AsWrittenBlogFails(db: Db)
    requires db.posts != []
    ensures PostController.LatestFive(db.posts) != []
    ensures Hydrate(db, BASE_SHAPE_AS_WRITTEN, PostController.LatestFive(db.posts)[0]).updatedAt.None?
  {
    PostController.LatestFiveAreNewest(db.posts);
  }

  /** With `updated_at` selected, every resource of the base query is
      defined and shows all three relations and the comment count. */
  lemma BaseShapeResources(db: Db, p: Store.Post)
    ensures Hydrate(db, BASE_SHAPE, p).updatedAt == Some(p.updatedAt)
    ensures "user" in KeysOf(ToArray(Hydrate(db, BASE_SHAPE, p)))
    ensures "category" in KeysOf(ToArray(Hydrate(db, BASE_SHAPE, p)))
    ensures "tags" in KeysOf(ToArray(Hydrate(db, BASE_SHAPE, p)))
    ensures ("comments_count", JInt(CommentsCount(db, p))) in ToArray(Hydrate(db, BASE_SHAPE, p)).fields
  {
    ResourceKeys(db, BASE_SHAPE, p);
    ResourceRelations(db, BASE_SHAPE, p);
  }

  /** The category posts on the front page show their category without its
      slug and no `tags` key. */
  lemma CategoryPostsResources(db: Db, p: Store.Post)
    requires CategoryOf(db, p).Some?
    ensures "tags" !in KeysOf(ToArray(Hydrate(db, CATEGORY_POSTS_SHAPE, p)))
    ensures ("category", CategoryJson(CategoryView(CategoryOf(db, p).value.id, CategoryOf(db, p).value.name, None)))
      in ToArray(Hydrate(db, CATEGORY_POSTS_SHAPE, p)).fields
  {
    ResourceKeys(db, CATEGORY_POSTS_SHAPE, p);
  }

  // ---------------------------------------------------------------------
  // blog

  /** The `data` of the front page. */
  function BlogBody(db: Db): (fs: seq<(string, Json)>)
    ensures Keys(fs) == ["latest_posts", "most_viewed_posts", "posts_by_category"]
    ensures Lookup(fs, "latest_posts") == Some(Resources(db, BASE_SHAPE, PostController.LatestFive(db.posts)))
    ensures Lookup(fs, "most_viewed_posts") == Some(Resources(db, BASE_SHAPE, PostController.MostViewedFive(db.posts)))
    ensures Lookup(fs, "posts_by_category") == Some(PostController.PostsByCategoryJson(db, CATEGORY_POSTS_SHAPE))
  {
    Lookup3("latest_posts", Resources(db, BASE_SHAPE, PostController.LatestFive(db.posts)),
            "most_viewed_posts", Resources(db, BASE_SHAPE, PostController.MostViewedFive(db.posts)),
            "posts_by_category", PostController.PostsByCategoryJson(db, CATEGORY_POSTS_SHAPE));
    [("latest_posts", Resources(db, BASE_SHAPE, PostController.LatestFive(db.posts))),
     ("most_viewed_posts", Resources(db, BASE_SHAPE, PostController.MostViewedFive(db.posts))),
     ("posts_by_category", PostController.PostsByCategoryJson(db, CATEGORY_POSTS_SHAPE))]
  }

  /** `blog`: the same three lists as the post summary, read with the base
      query, so every post shows its comment count. */
  function Blog(db: Db): (r: Response)
    ensures r.status == HTTP_OK && Enveloped(r) && Succeeded(r) && Message(r) == BLOG_RETRIEVED
    ensures Data(r) == BlogBody(db)
  {
    SendData(BlogBody(db), BLOG_RETRIEVED)
  }

  // ---------------------------------------------------------------------
  // The paginated resource response

  /** The `meta` of a paginated resource collection, without the page-link
      list and the path: the current page, the positions of the first and
      last row shown, the last page, the page size and the total. */
  function PageMeta<T>(p: Paginator<T>): (fs: seq<(string, Json)>)
    requires ValidPaginator(p)
    ensures Keys(fs) == ["current_page", "from", "last_page", "per_page", "to", "total"]
    ensures fs[0].1 == JInt(p.currentPage) && fs[1].1 == NullableInt(FirstItem(p))
    ensures fs[2].1 == JInt(PaginatorLastPage(p)) && fs[3].1 == JInt(p.perPage)
    ensures fs[4].1 == NullableInt(LastItem(p)) && fs[5].1 == JInt(p.total)
  {
    [("current_page", JInt(p.currentPage)),
     ("from", NullableInt(FirstItem(p))),
     ("last_page", JInt(PaginatorLastPage(p))),
     ("per_page", JInt(p.perPage)),
     ("to", NullableInt(LastItem(p))),
     ("total", JInt(p.total))]
  }

  /** `from` and `to` are the 1-based positions of the first and the last
      row the page shows (`firstItem()` and `lastItem()`), null on an empty page. */
  lemma PageMetaFromTo<T>(p: Paginator<T>)
    requires ValidPaginator(p)
    ensures Lookup(PageMeta(p), "from") == Some(NullableInt(FirstItem(p)))
    ensures Lookup(PageMeta(p), "to") == Some(NullableInt(LastItem(p)))
  {
    var fs := PageMeta(p);
    LookupAt(fs, 1);
    LookupAt(fs, 4);
  }

  /** The `data` of a paginated response. */
  function PageBody(db: Db, p: Paginator<Store.Post>): (fs: seq<(string, Json)>)
    requires ValidPaginator(p)
    ensures Keys(fs) == ["posts", "meta", "links"]
    ensures Lookup(fs, "posts") == Some(Resources(db, BASE_SHAPE, p.items))
    ensures Lookup(fs, "meta") == Some(JObj(PageMeta(p)))
    ensures Lookup(fs, "links") == Some(JObj(LinksJson(p)))
  {
    Lookup3("posts", Resources(db, BASE_SHAPE, p.items), "meta", JObj(PageMeta(p)), "links", JObj(LinksJson(p)));
    [("posts", Resources(db, BASE_SHAPE, p.items)), ("meta", JObj(PageMeta(p))), ("links", JObj(LinksJson(p)))]
  }

  /** `{posts: data, meta, links}` of one page of `rows`. */
  function PaginatedResponse(db: Db, rows: seq<Store.Post>, validated: Rules.Input): (r: Response)
    requires PostController.PageParams(validated)
    ensures r.status == HTTP_OK && Enveloped(r) && Succeeded(r) && Message(r) == POSTS_RETRIEVED
    ensures Data(r) == PageBody(db, Paginate(rows, PostController.PerPage(validated), PostController.Page(validated)))
  {
    SendData(PageBody(db, Paginate(rows, PostController.PerPage(validated), PostController.Page(validated))), POSTS_RETRIEVED)
  }

  // ---------------------------------------------------------------------
  // posts

  /** `posts`: every post, newest first, paginated with a page size of up to 100. */
  function Posts(db: Db, input: Rules.Input): (r: Response)
    requires Rules.Normalised(input) && PostsRequest.Passes(input)
    ensures PostController.PageParams(PostsRequest.ValidatedInput(input))
    ensures r == PaginatedResponse(db, PostController.Listing(db, []), PostsRequest.ValidatedInput(input))
  {
    PostsRequest.ValidatedBounds(input);
    PaginatedResponse(db, PostController.Listing(db, []), PostsRequest.ValidatedInput(input))
  }

  /** The page size of the list is at most 100 and defaults to 15. */
  lemma PostsPageSize(input: Rules.Input)
    requires Rules.Normalised(input) && PostsRequest.Passes(input)
    ensures 1 <= PostController.PerPage(PostsRequest.ValidatedInput(input)) <= PostsRequest.PER_PAGE_MAX
    ensures "per_page" !in input ==> PostController.PerPage(PostsRequest.ValidatedInput(input)) == DEFAULT_PER_PAGE
  {
    PostsRequest.ValidatedBounds(input);
  }

  // ---------------------------------------------------------------------
  // search

  /** The term's clause: `where(fn => title LIKE %t% OR content LIKE %t%)`,
      one nested group joined by AND. */
  function TermGroup(term: Option<string>): seq<Where> {
    if TruthyString(term) then
      [Where(Nested([Where(Like(Title, term.value), And), Where(Like(Content, term.value), Or)]), And)]
    else []
  }

  /** The id a `when($validated[$key] ?? null, ...)` filter compares with:
      present when the raw validated value is truthy, so "-0" and "+0" add
      a clause, and then the integer that value spells, which is what the
      database compares the column with. */
  function WhenId(validated: Rules.Input, key: string): (r: Option<int>)
    ensures r.Some? <==> key in validated && Rules.Truthy(validated[key]) && Rules.IsInteger(validated[key])
    ensures r.Some? ==> r == Rules.AsInt(validated[key])
  {
    if key in validated && Rules.Truthy(validated[key]) then Rules.AsInt(validated[key]) else None
  }

  function CategoryWhen(validated: Rules.Input): seq<Where> {
    match WhenId(validated, "category")
    case Some(n) => [Where(IntEq(CategoryId, n), And)]
    case None => []
  }

  function AuthorWhen(validated: Rules.Input): seq<Where> {
    match WhenId(validated, "author")
    case Some(n) => [Where(IntEq(UserId, n), And)]
    case None => []
  }

  function TagWhen(validated: Rules.Input): seq<Where> {
    match WhenId(validated, "tag")
    case Some(n) => [Where(TagIs(n), And)]
    case None => []
  }

  /** The where-list the search builds with `when(...)` calls: the term's
      group, then the category, author and tag clauses. */
  function SearchWheres(validated: Rules.Input): seq<Where> {
    TermGroup(PostController.SearchTermOf(validated))
      + CategoryWhen(validated)
      + AuthorWhen(validated)
      + TagWhen(validated)
  }

  /** What this search asks of a post: the term in the title or the content,
      and, for each filter whose raw value is truthy, the id it spells. */
  predicate SearchMatches(db: Db, validated: Rules.Input, p: Store.Post) {
    && TermMatches(PostController.SearchTermOf(validated), p)
    && (WhenId(validated, "category").Some? ==> p.categoryId == WhenId(validated, "category").value)
    && (WhenId(validated, "author").Some? ==> p.userId == WhenId(validated, "author").value)
    && (WhenId(validated, "tag").Some? ==> HasTag(db, p, WhenId(validated, "tag").value))
  }

  /** A scope that adds at most one AND clause to a list without OR leaves
      both flat: nothing is regrouped. */
  lemma FlatCallScope(ws: seq<Where>, added: seq<Where>)
    requires !ContainsOr(ws)
    requires added == [] || (|added| == 1 && added[0].boolean == And)
    ensures CallScope(ws, added) == ws + added
    ensures !ContainsOr(ws + added)
  {
    if added == [] {
      assert ws + added == ws;
    } else {
      assert forall i :: 0 <= i < |ws + added| ==> (ws + added)[i] == (if i < |ws| then ws[i] else added[0]);
    }
  }

  /** Appending at most one AND clause to a list without OR adds one conjunct. */
  lemma AppendClause(db: Db, ws: seq<Where>, added: seq<Where>, p: Store.Post)
    requires !ContainsOr(ws)
    requires added == [] || (|added| == 1 && added[0].boolean == And)
    ensures Matches(db, ws + added, p) == (Matches(db, ws, p) && Matches(db, added, p))
    ensures !ContainsOr(ws + added)
  {
    ScopeConjunct(db, ws, added, p);
    FlatCallScope(ws, added);
  }

  /** The clauses of the search combine as a conjunction. */
  lemma SearchWheresMatch(db: Db, validated: Rules.Input, p: Store.Post)
    ensures Matches(db, SearchWheres(validated), p) == SearchMatches(db, validated, p)
  {
    var term := PostController.SearchTermOf(validated);
    var g := TermGroup(term);
    SearchTermConjunct(db, [], term, p);
    if TruthyString(term) {
      assert SearchTermSlice(term)[1].boolean == Or;
    }
    assert CallScope([], SearchTermSlice(term)) == g;
    var c, a, t := CategoryWhen(validated), AuthorWhen(validated), TagWhen(validated);
    AppendClause(db, g, c, p);
    AppendClause(db, g + c, a, p);
    AppendClause(db, g + c + a, t, p);
  }

  /** The search pages through exactly the posts it matches, newest first. */
  lemma SearchFinds(db: Db, input: Rules.Input)
    ensures var rows := PostController.Listing(db, SearchWheres(SearchRequest.ValidatedInput(input)));
      && (forall p :: p in rows <==> p in db.posts && SearchMatches(db, SearchRequest.ValidatedInput(input), p))
      && (forall i, j :: 0 <= i < j < |rows| ==> rows[i].createdAt >= rows[j].createdAt)
  {
    var v := SearchRequest.ValidatedInput(input);
    PostController.ListingIs(db, SearchWheres(v));
    forall p ensures Matches(db, SearchWheres(v), p) == SearchMatches(db, v, p) {
      SearchWheresMatch(db, v, p);
    }
  }

  /** A filter value "-0" or "+0": a truthy string for `when`, and 0 once
      cast to `?int`. */
  predicate SignedZero(validated: Rules.Input, key: string) {
    key in validated && validated[key].VStr? && (validated[key].s == "-0" || validated[key].s == "+0")
  }

  predicate NoSignedZero(validated: Rules.Input) {
    !SignedZero(validated, "category") && !SignedZero(validated, "author") && !SignedZero(validated, "tag")
  }

  /** Without a signed zero, testing the raw value and testing its `?int`
      cast agree: both add the clause exactly for a non-zero id. */
  lemma WhenIdAgrees(validated: Rules.Input, key: string)
    requires !SignedZero(validated, key)
    ensures WhenId(validated, key) == (if TruthyInt(Rules.OptionalInt(validated, key)) then Rules.OptionalInt(validated, key) else None)
  {
    if key in validated && validated[key].VStr? && Rules.IntString(validated[key].s) {
      Rules.IntStringZero(validated[key].s);
    }
  }

  /** Without a signed-zero filter, the grouping written out by hand here is
      the grouping the scopes of `PostController::search` produce. */
  lemma SameWheresAsPostSearch(validated: Rules.Input)
    requires NoSignedZero(validated)
    ensures SearchWheres(validated) == PostController.SearchWheres(validated)
  {
    var term := PostController.SearchTermOf(validated);
    WhenIdAgrees(validated, "category");
    WhenIdAgrees(validated, "author");
    WhenIdAgrees(validated, "tag");
    var c := CategorySlice(Rules.OptionalInt(validated, "category"));
    var a := AuthorSlice(Rules.OptionalInt(validated, "author"));
    var t := TagSlice(Rules.OptionalInt(validated, "tag"));
    assert CategoryWhen(validated) == c;
    assert AuthorWhen(validated) == a;
    assert TagWhen(validated) == t;
    var w1 := CallScope([], SearchTermSlice(term));
    if TruthyString(term) {
      assert SearchTermSlice(term)[1].boolean == Or;
    }
    assert w1 == TermGroup(term);
    FlatCallScope(w1, c);
    FlatCallScope(w1 + c, a);
    FlatCallScope(w1 + c + a, t);
  }

  /** Without a signed-zero filter, the search selects the posts
      `PostController::search` selects: the term in the title or the
      content, and every given filter. */
  lemma SearchMatchesLikePostSearch(db: Db, validated: Rules.Input, p: Store.Post)
    requires NoSignedZero(validated)
    ensures Matches(db, SearchWheres(validated), p) == PostController.SearchMatches(db, validated, p)
  {
    SameWheresAsPostSearch(validated);
    PostController.SearchWheresMatch(db, validated, p);
  }

  /** With `category=-0` the two searches part: `PostController::search`
      casts the value to 0 and filters nothing, while this one keeps only
      the posts of category 0. */
  lemma SignedZeroSearchesDiffer(db: Db, p: Store.Post)
    ensures var v := map["category" := Rules.VStr("-0")];
      && PostController.SearchMatches(db, v, p)
      && (Matches(db, SearchWheres(v), p) <==> p.categoryId == 0)
  {
    var v := map["category" := Rules.VStr("-0")];
    Rules.IntStringZero("-0");
    assert Rules.OptionalInt(v, "category") == Some(0);
    assert WhenId(v, "category") == Some(0);
    assert PostController.SearchTermOf(v) == None;
    SearchWheresMatch(db, v, p);
  }

  /** `search`. */
  function Search(db: Db, input: Rules.Input): (r: Response)
    requires Rules.Normalised(input) && SearchRequest.Passes(input, db)
    ensures PostController.PageParams(SearchRequest.ValidatedInput(input))
    ensures r == PaginatedResponse(db, PostController.Listing(db, SearchWheres(SearchRequest.ValidatedInput(input))), SearchRequest.ValidatedInput(input))
  {
    SearchRequest.ValidatedBounds(input, db);
    var v := SearchRequest.ValidatedInput(input);
    PaginatedResponse(db, PostController.Listing(db, SearchWheres(v)), v)
  }

  /** Without a signed-zero filter, both search endpoints page through the
      same rows; they differ only in what each post shows and in the `meta`
      they add. */
  lemma SearchSameRows(db: Db, input: Rules.Input)
    requires NoSignedZero(SearchRequest.ValidatedInput(input))
    ensures PostController.Listing(db, SearchWheres(SearchRequest.ValidatedInput(input)))
         == PostController.Listing(db, PostController.SearchWheres(SearchRequest.ValidatedInput(input)))
  {
    SameWheresAsPostSearch(SearchRequest.ValidatedInput(input));
  }
}
