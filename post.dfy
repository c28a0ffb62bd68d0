/** The `Post` model: its relations, the where-clause list a query builds up,
    the five local scopes, and the way Eloquent regroups the clauses a scope
    adds. */
module Post {
  import opened Php
  import opened Seqs
  import opened Store

  // ---------------------------------------------------------------------
  // Relations

  /** `$post->user`. */
  function UserOf(db: Db, p: Post): Option<User> {
    FindUser(db, p.userId)
  }

  /** `$post->category`. */
  function CategoryOf(db: Db, p: Post): Option<Category> {
    FindCategory(db, p.categoryId)
  }

  /** The tag rows the pivot ids name, in pivot order; an id without a row
      is dropped by the join. */
  function TagRows(tags: seq<Tag>, ids: seq<int>): (r: seq<Tag>)
    ensures |r| <= |ids|
    ensures forall t :: t in r ==> t in tags && t.id in ids
    ensures forall i :: i in ids && (exists t :: t in tags && t.id == i) ==> exists t :: t in r && t.id == i
  {
    if ids == [] then []
    else
      var rest := TagRows(tags, ids[1..]);
      assert forall i :: i in ids ==> i == ids[0] || i in ids[1..];
      match Find(tags, (t: Tag) => t.id == ids[0])
      case Some(t) => [t] + rest
      case None => rest
  }

  /** `$post->tags`. */
  function TagsOf(db: Db, p: Post): seq<Tag> {
    TagRows(db.tags, p.tagIds)
  }

  /** The `whereHas('tags', tags.id = t)` test: some attached tag has id `t`. */
  predicate HasTag(db: Db, p: Post, t: int) {
    exists g :: g in TagsOf(db, p) && g.id == t
  }

  /** A post carries tag `t` exactly when the pivot names `t` and the tag exists. */
  lemma HasTagIff(db: Db, p: Post, t: int)
    ensures HasTag(db, p, t) <==> t in p.tagIds && IsTagId(db, t)
  {
  }

  /** The number of comment rows whose `post_id` is the post's id: the count
      a has-many `comments` relation yields. */
  function CommentsCount(db: Db, p: Post): (n: nat)
    ensures n <= |db.comments|
  {
    |Filter(db.comments, (c: Comment) => c.postId == p.id)|
  }

  /** The relation methods the model class declares: `user`, `category` and
      `tags`, and no `comments`. */
  const DECLARED_RELATIONS: set<string> := {"user", "category", "tags"}

  /** The relations with a has-many `comments` on `post_id` added, as the
      comments table and the count queries presuppose. */
  const RELATIONS: set<string> := DECLARED_RELATIONS + {"comments"}

  /** `withCount('comments')` on a model declaring `rels`: the count when the
      relation exists, and nothing (Eloquent throws for an undefined
      relationship) when it does not. */
  function WithCommentsCount(rels: set<string>, db: Db, p: Post): (r: Option<nat>)
    ensures r.Some? <==> "comments" in rels
  {
    if "comments" in rels then Some(CommentsCount(db, p)) else None
  }

  /** As declared, the model has no `comments` relation, so every query that
      counts comments fails before it returns a row. */
  lemma AsWrittenCommentsCountUndefined(db: Db, p: Post)
    ensures WithCommentsCount(DECLARED_RELATIONS, db, p).None?
  {
  }

  /** With the relation added, the count is defined and is zero exactly when
      no comment names the post; the rest of the model counts this way. */
  lemma CommentsCountDefined(db: Db, p: Post)
    ensures WithCommentsCount(RELATIONS, db, p) == Some(CommentsCount(db, p))
    ensures CommentsCount(db, p) == 0 <==> forall c :: c in db.comments ==> c.postId != p.id
  {
    var f := Filter(db.comments, (c: Comment) => c.postId == p.id);
    if |f| != 0 {
      assert f[0] in f;
    }
  }

  // ---------------------------------------------------------------------
  // Where clauses and their SQL meaning

  datatype Boolean = And | Or

  datatype StrColumn = Title | Content | Slug

  datatype IntColumn = CategoryId | UserId

  datatype Cond =
    | Like(scol: StrColumn, term: string)
    | StrEq(scol: StrColumn, s: string)
    | IntEq(icol: IntColumn, n: int)
    | TagIs(tagId: int)
    | Nested(wheres: seq<Where>)

  /** One entry of the builder's `wheres` list; `boolean` joins it to the
      entry before it. */
  datatype Where = Where(cond: Cond, boolean: Boolean)

  function StrField(p: Post, c: StrColumn): string {
    match c
    case Title => p.title
    case Content => p.content
    case Slug => p.slug
  }

  function IntField(p: Post, c: IntColumn): int {
    match c
    case CategoryId => p.categoryId
    case UserId => p.userId
  }

  predicate Holds(db: Db, c: Cond, p: Post)
    decreases c, 2, 0
  {
    match c
    case Like(col, t) => Contains(StrField(p, col), t)
    case StrEq(col, s) => StrField(p, col) == s
    case IntEq(col, n) => IntField(p, col) == n
    case TagIs(t) => HasTag(db, p, t)
    case Nested(ws) => Matches(db, ws, p)
  }

  /** The compiled where-list: the first entry's boolean is dropped and AND
      binds tighter than OR. An empty list restricts nothing. */
  predicate Matches(db: Db, ws: seq<Where>, p: Post)
    decreases Nested(ws), 1, 0
  {
    ws == [] || Run(db, ws, 1, p, false, Holds(db, ws[0].cond, p))
  }

  /** Left-to-right evaluation from entry `i` on: `done` is the disjunction of
      the AND-runs already closed by an OR, `run` the value of the current one. */
  predicate Run(db: Db, ws: seq<Where>, i: nat, p: Post, done: bool, run: bool)
    decreases Nested(ws), 0, |ws| - i
  {
    if i >= |ws| then done || run
    else if ws[i].boolean == And then Run(db, ws, i + 1, p, done, run && Holds(db, ws[i].cond, p))
    else Run(db, ws, i + 1, p, done || run, Holds(db, ws[i].cond, p))
  }

  predicate AllAnd(ws: seq<Where>) {
    forall i :: 0 <= i < |ws| ==> ws[i].boolean == And
  }

  predicate AndAfterFirst(ws: seq<Where>) {
    forall i :: 1 <= i < |ws| ==> ws[i].boolean == And
  }

  predicate HoldFrom(db: Db, ws: seq<Where>, i: nat, p: Post) {
    forall k :: i <= k < |ws| ==> Holds(db, ws[k].cond, p)
  }

  predicate AllHold(db: Db, ws: seq<Where>, p: Post) {
    HoldFrom(db, ws, 0, p)
  }

  lemma {:induction false} RunAllAnd(db: Db, ws: seq<Where>, i: nat, p: Post, done: bool, run: bool)
    requires forall k :: i <= k < |ws| ==> ws[k].boolean == And
    ensures Run(db, ws, i, p, done, run) == (done || (run && HoldFrom(db, ws, i, p)))
    decreases |ws| - i
  {
    if i < |ws| {
      RunAllAnd(db, ws, i + 1, p, done, run && Holds(db, ws[i].cond, p));
    }
  }

  /** A list whose entries after the first are all joined by AND is the
      conjunction of its conditions. */
  lemma MatchesConjunction(db: Db, ws: seq<Where>, p: Post)
    requires AndAfterFirst(ws)
    ensures Matches(db, ws, p) == AllHold(db, ws, p)
  {
    if ws != [] {
      RunAllAnd(db, ws, 1, p, false, Holds(db, ws[0].cond, p));
    }
  }

  // ---------------------------------------------------------------------
  // Scope regrouping (Eloquent's `callNamedScope`)

  predicate ContainsOr(ws: seq<Where>) {
    exists i :: 0 <= i < |ws| && ws[i].boolean == Or
  }

  /** `groupWhereSliceForScope`: a slice that contains an OR becomes one
      nested clause with the slice's first boolean; any other slice stays flat. */
  function GroupSlice(ws: seq<Where>): (r: seq<Where>)
    ensures AndAfterFirst(r)
    ensures ws == [] <==> r == []
    ensures ws != [] ==> r[0].boolean == ws[0].boolean
  {
    if ContainsOr(ws) then [Where(Nested(ws), ws[0].boolean)] else ws
  }

  /** Regrouping a slice does not change what it matches. */
  lemma GroupSliceMatches(db: Db, ws: seq<Where>, p: Post)
    ensures Matches(db, GroupSlice(ws), p) == Matches(db, ws, p)
  {
  }

  /** The where-list after a scope that added `added` to `before`: nothing
      changes when it added nothing; otherwise both the earlier slice and the
      new one are regrouped. */
  function CallScope(before: seq<Where>, added: seq<Where>): seq<Where> {
    if added == [] then before else GroupSlice(before) + GroupSlice(added)
  }

  /** A scope whose clauses start with AND contributes exactly one conjunct,
      whatever ORs either side contains. */
  lemma ScopeConjunct(db: Db, before: seq<Where>, added: seq<Where>, p: Post)
    requires added == [] || added[0].boolean == And
    ensures Matches(db, CallScope(before, added), p) == (Matches(db, before, p) && Matches(db, added, p))
  {
    if added != [] {
      var a, b := GroupSlice(before), GroupSlice(added);
      assert AllAnd(b);
      assert AndAfterFirst(a + b) by {
        forall i | 1 <= i < |a + b| ensures (a + b)[i].boolean == And {
          if i >= |a| {
            assert (a + b)[i] == b[i - |a|];
          }
        }
      }
      MatchesConjunction(db, a + b, p);
      MatchesConjunction(db, a, p);
      MatchesConjunction(db, b, p);
      assert AllHold(db, a + b, p) == (AllHold(db, a, p) && AllHold(db, b, p)) by {
        if AllHold(db, a, p) && AllHold(db, b, p) {
          forall i | 0 <= i < |a + b| ensures Holds(db, (a + b)[i].cond, p) {
            if i >= |a| {
              assert (a + b)[i] == b[i - |a|];
            }
          }
        }
        if AllHold(db, a + b, p) {
          forall i | 0 <= i < |a| ensures Holds(db, a[i].cond, p) {
            assert (a + b)[i] == a[i];
          }
          forall i | 0 <= i < |b| ensures Holds(db, b[i].cond, p) {
            assert (a + b)[i + |a|] == b[i];
          }
        }
      }
      GroupSliceMatches(db, before, p);
      GroupSliceMatches(db, added, p);
    }
  }

  // ---------------------------------------------------------------------
  // The scopes, as the clauses each adds

  /** `searchTerm`: title LIKE %t% OR content LIKE %t%, when `t` is truthy. */
  function SearchTermSlice(term: Option<string>): seq<Where> {
    if TruthyString(term) then [Where(Like(Title, term.value), And), Where(Like(Content, term.value), Or)] else []
  }

  function CategorySlice(categoryId: Option<int>): seq<Where> {
    if TruthyInt(categoryId) then [Where(IntEq(CategoryId, categoryId.value), And)] else []
  }

  function AuthorSlice(authorId: Option<int>): seq<Where> {
    if TruthyInt(authorId) then [Where(IntEq(UserId, authorId.value), And)] else []
  }

  function TagSlice(tagId: Option<int>): seq<Where> {
    if TruthyInt(tagId) then [Where(TagIs(tagId.value), And)] else []
  }

  predicate TermMatches(term: Option<string>, p: Post) {
    TruthyString(term) ==> Contains(p.title, term.value) || Contains(p.content, term.value)
  }

  predicate CategoryMatches(categoryId: Option<int>, p: Post) {
    TruthyInt(categoryId) ==> p.categoryId == categoryId.value
  }

  predicate AuthorMatches(authorId: Option<int>, p: Post) {
    TruthyInt(authorId) ==> p.userId == authorId.value
  }

  predicate TagMatches(db: Db, tagId: Option<int>, p: Post) {
    TruthyInt(tagId) ==> HasTag(db, p, tagId.value)
  }

  /** `searchTerm` adds one conjunct: the term occurs in the title or the content. */
  lemma SearchTermConjunct(db: Db, ws: seq<Where>, term: Option<string>, p: Post)
    ensures Matches(db, CallScope(ws, SearchTermSlice(term)), p) == (Matches(db, ws, p) && TermMatches(term, p))
    ensures !TruthyString(term) ==> CallScope(ws, SearchTermSlice(term)) == ws
  {
    var added := SearchTermSlice(term);
    ScopeConjunct(db, ws, added, p);
    if TruthyString(term) {
      assert Matches(db, added, p) == Run(db, added, 1, p, false, Holds(db, added[0].cond, p));
      assert Run(db, added, 1, p, false, Holds(db, added[0].cond, p))
          == Run(db, added, 2, p, Holds(db, added[0].cond, p), Holds(db, added[1].cond, p));
    }
  }

  lemma CategoryConjunct(db: Db, ws: seq<Where>, categoryId: Option<int>, p: Post)
    ensures Matches(db, CallScope(ws, CategorySlice(categoryId)), p) == (Matches(db, ws, p) && CategoryMatches(categoryId, p))
    ensures !TruthyInt(categoryId) ==> CallScope(ws, CategorySlice(categoryId)) == ws
  {
    ScopeConjunct(db, ws, CategorySlice(categoryId), p);
  }

  lemma AuthorConjunct(db: Db, ws: seq<Where>, authorId: Option<int>, p: Post)
    ensures Matches(db, CallScope(ws, AuthorSlice(authorId)), p) == (Matches(db, ws, p) && AuthorMatches(authorId, p))
    ensures !TruthyInt(authorId) ==> CallScope(ws, AuthorSlice(authorId)) == ws
  {
    ScopeConjunct(db, ws, AuthorSlice(authorId), p);
  }

  lemma TagConjunct(db: Db, ws: seq<Where>, tagId: Option<int>, p: Post)
    ensures Matches(db, CallScope(ws, TagSlice(tagId)), p) == (Matches(db, ws, p) && TagMatches(db, tagId, p))
    ensures !TruthyInt(tagId) ==> CallScope(ws, TagSlice(tagId)) == ws
  {
    ScopeConjunct(db, ws, TagSlice(tagId), p);
  }

  /** The rows a where-list selects, in table order. */
  function Select(db: Db, ws: seq<Where>): seq<Post> {
    Filter(db.posts, (p: Post) => Matches(db, ws, p))
  }

  /** Every scope only narrows the result: what the longer list selects, the
      shorter one selects too. */
  lemma ScopeNarrows(db: Db, ws: seq<Where>, added: seq<Where>)
    requires added == [] || added[0].boolean == And
    ensures forall p :: p in Select(db, CallScope(ws, added)) ==> p in Select(db, ws)
  {
    forall p | p in Select(db, CallScope(ws, added)) ensures p in Select(db, ws) {
      ScopeConjunct(db, ws, added, p);
    }
  }

  // ---------------------------------------------------------------------
  // Eager loading

  /** What a query loads: whether `updated_at` is among the selected columns,
      which relations are eager-loaded (and whether the category keeps its
      slug column), and whether the comment count is computed. */
  datatype Shape = Shape(
    updatedAt: bool,
    user: bool,
    category: bool,
    categorySlug: bool,
    tags: bool,
    commentsCount: bool)

  /** `Post::query()`: every column, nothing loaded. */
  const PlainShape := Shape(true, false, false, false, false, false)

  /** `withRelations`: `user:id,name`, `category:id,name,slug`, `tags:id,name,slug`. */
  function WithRelationsShape(s: Shape): (r: Shape)
    ensures r.user && r.category && r.categorySlug && r.tags
    ensures r.updatedAt == s.updatedAt && r.commentsCount == s.commentsCount
  {
    s.(user := true, category := true, categorySlug := true, tags := true)
  }

  /** A category as a relation holds it: the slug only when that column was selected. */
  datatype CategoryView = CategoryView(id: int, name: string, slug: Option<string>)

  /** A post instance as a resource sees it. A relation is `None` when not
      loaded and `Some(None)` when loaded but without a related row. */
  datatype Instance = Instance(
    post: Post,
    updatedAt: Option<int>,
    user: Option<Option<User>>,
    category: Option<Option<CategoryView>>,
    tags: Option<seq<Tag>>,
    commentsCount: Option<int>)

  function ViewCategory(c: Category, withSlug: bool): CategoryView {
    CategoryView(c.id, c.name, if withSlug then Some(c.slug) else None)
  }

  /** The instance a query with shape `s` yields for row `p`. */
  function Hydrate(db: Db, s: Shape, p: Post): (m: Instance)
    ensures m.post == p
    ensures m.updatedAt.Some? <==> s.updatedAt
    ensures m.user.Some? <==> s.user
    ensures m.category.Some? <==> s.category
    ensures m.tags.Some? <==> s.tags
    ensures m.commentsCount.Some? <==> s.commentsCount
    ensures s.user ==> m.user == Some(UserOf(db, p))
    ensures s.category ==> m.category == Some(if CategoryOf(db, p).Some? then Some(ViewCategory(CategoryOf(db, p).value, s.categorySlug)) else None)
    ensures s.tags ==> m.tags == Some(TagsOf(db, p))
    ensures s.commentsCount ==> m.commentsCount == Some(CommentsCount(db, p))
  {
    Instance(
      p,
      if s.updatedAt then Some(p.updatedAt) else None,
      if s.user then Some(UserOf(db, p)) else None,
      if s.category then Some(match CategoryOf(db, p) case Some(c) => Some(ViewCategory(c, s.categorySlug)) case None => None) else None,
      if s.tags then Some(TagsOf(db, p)) else None,
      if s.commentsCount then Some(CommentsCount(db, p)) else None)
  }

  function HydrateAll(db: Db, s: Shape, ps: seq<Post>): (r: seq<Instance>)
    ensures |r| == |ps|
    ensures forall i :: 0 <= i < |ps| ==> r[i] == Hydrate(db, s, ps[i])
  {
    seq(|ps|, i requires 0 <= i < |ps| => Hydrate(db, s, ps[i]))
  }

  // ---------------------------------------------------------------------
  // Ordering

  /** `latest()`: newest `created_at` first. */
  function Latest(ps: seq<Post>): (r: seq<Post>)
    ensures multiset(r) == multiset(ps)
    ensures forall i, j :: 0 <= i < j < |r| ==> r[i].createdAt >= r[j].createdAt
  {
    var le := (a: Post, b: Post) => a.createdAt >= b.createdAt;
    SortBySorted(ps, le);
    SortBy(ps, le)
  }

  /** `orderByDesc('views')`. */
  function MostViewed(ps: seq<Post>): (r: seq<Post>)
    ensures multiset(r) == multiset(ps)
    ensures forall i, j :: 0 <= i < j < |r| ==> r[i].views >= r[j].views
  {
    var le := (a: Post, b: Post) => a.views >= b.views;
    SortBySorted(ps, le);
    SortBy(ps, le)
  }

  // ---------------------------------------------------------------------
  // The query builder the scopes act on

  class PostQuery {
    var wheres: seq<Where>
    var shape: Shape

    constructor()
      ensures wheres == [] && shape == PlainShape
    {
      wheres := [];
      shape := PlainShape;
    }

    /** The rows the query currently selects. */
    function Rows(db: Db): seq<Post>
      reads this
    {
      Select(db, wheres)
    }

    method Push(w: Where)
      modifies this
      ensures wheres == old(wheres) + [w] && shape == old(shape)
    {
      wheres := wheres + [w];
    }

    /** `groupWhereSliceForScope`. */
    method GroupWhereSliceForScope(slice: seq<Where>)
      modifies this
      ensures wheres == old(wheres) + GroupSlice(slice) && shape == old(shape)
    {
      if exists i :: 0 <= i < |slice| && slice[i].boolean == Or {
        wheres := wheres + [Where(Nested(slice), slice[0].boolean)];
      } else {
        wheres := wheres + slice;
      }
    }

    /** `addNewWheresWithinGroup`: regroup the clauses before and after the
        count the scope started from. */
    method AddNewWheresWithinGroup(originalCount: nat)
      requires originalCount <= |wheres|
      modifies this
      ensures wheres == GroupSlice(old(wheres)[..originalCount]) + GroupSlice(old(wheres)[originalCount..])
      ensures shape == old(shape)
    {
      var all := wheres;
      wheres := [];
      GroupWhereSliceForScope(all[..originalCount]);
      GroupWhereSliceForScope(all[originalCount..]);
    }

    /** Finish a scope call: regroup only when the scope added clauses. */
    method FinishScope(originalCount: nat)
      requires originalCount <= |wheres|
      modifies this
      ensures wheres == CallScope(old(wheres)[..originalCount], old(wheres)[originalCount..])
      ensures shape == old(shape)
    {
      if |wheres| > originalCount {
        AddNewWheresWithinGroup(originalCount);
      } else {
        assert wheres[..originalCount] == wheres;
      }
    }

    method WithRelations()
      modifies this
      ensures wheres == old(wheres) && shape == WithRelationsShape(old(shape))
    {
      shape := WithRelationsShape(shape);
    }

    method SearchTerm(term: Option<string>)
      modifies this
      ensures wheres == CallScope(old(wheres), SearchTermSlice(term)) && shape == old(shape)
      ensures forall db, p :: Matches(db, wheres, p) == (Matches(db, old(wheres), p) && TermMatches(term, p))
    {
      var original := |wheres|;
      if term.Some? && term.value != "" && term.value != "0" {
        Push(Where(Like(Title, term.value), And));
        Push(Where(Like(Content, term.value), Or));
      }
      assert wheres[..original] == old(wheres);
      assert wheres[original..] == SearchTermSlice(term);
      FinishScope(original);
      forall db, p ensures Matches(db, wheres, p) == (Matches(db, old(wheres), p) && TermMatches(term, p)) {
        SearchTermConjunct(db, old(wheres), term, p);
      }
    }

    method FilterByCategory(categoryId: Option<int>)
      modifies this
      ensures wheres == CallScope(old(wheres), CategorySlice(categoryId)) && shape == old(shape)
      ensures forall db, p :: Matches(db, wheres, p) == (Matches(db, old(wheres), p) && CategoryMatches(categoryId, p))
    {
      var original := |wheres|;
      if categoryId.Some? && categoryId.value != 0 {
        Push(Where(IntEq(CategoryId, categoryId.value), And));
      }
      assert wheres[..original] == old(wheres);
      assert wheres[original..] == CategorySlice(categoryId);
      FinishScope(original);
      forall db, p ensures Matches(db, wheres, p) == (Matches(db, old(wheres), p) && CategoryMatches(categoryId, p)) {
        CategoryConjunct(db, old(wheres), categoryId, p);
      }
    }

    method FilterByAuthor(authorId: Option<int>)
      modifies this
      ensures wheres == CallScope(old(wheres), AuthorSlice(authorId)) && shape == old(shape)
      ensures forall db, p :: Matches(db, wheres, p) == (Matches(db, old(wheres), p) && AuthorMatches(authorId, p))
    {
      var original := |wheres|;
      if authorId.Some? && authorId.value != 0 {
        Push(Where(IntEq(UserId, authorId.value), And));
      }
      assert wheres[..original] == old(wheres);
      assert wheres[original..] == AuthorSlice(authorId);
      FinishScope(original);
      forall db, p ensures Matches(db, wheres, p) == (Matches(db, old(wheres), p) && AuthorMatches(authorId, p)) {
        AuthorConjunct(db, old(wheres), authorId, p);
      }
    }

    method FilterByTag(tagId: Option<int>)
      modifies this
      ensures wheres == CallScope(old(wheres), TagSlice(tagId)) && shape == old(shape)
      ensures forall db, p :: Matches(db, wheres, p) == (Matches(db, old(wheres), p) && TagMatches(db, tagId, p))
    {
      var original := |wheres|;
      if tagId.Some? && tagId.value != 0 {
        Push(Where(TagIs(tagId.value), And));
      }
      assert wheres[..original] == old(wheres);
      assert wheres[original..] == TagSlice(tagId);
      FinishScope(original);
      forall db, p ensures Matches(db, wheres, p) == (Matches(db, old(wheres), p) && TagMatches(db, tagId, p)) {
        TagConjunct(db, old(wheres), tagId, p);
      }
    }
  }
}
