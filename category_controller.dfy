/** `CategoryController`: every category ordered by name, and one category
    looked up by slug. */
module CategoryController {
  import opened Php
  import opened Json
  import opened Seqs
  import opened Store
  import opened BaseController
  import opened Messages

  /** `CategoryResource`: `{id, name, slug}`. */
  function CategoryJson(c: Category): (j: Json)
    ensures KeysOf(j) == ["id", "name", "slug"]
    ensures Get(j, "id") == Some(JInt(c.id)) && Get(j, "name") == Some(JStr(c.name)) && Get(j, "slug") == Some(JStr(c.slug))
  {
    Lookup3("id", JInt(c.id), "name", JStr(c.name), "slug", JStr(c.slug));
    JObj([("id", JInt(c.id)), ("name", JStr(c.name)), ("slug", JStr(c.slug))])
  }

  function NameLe(a: Category, b: Category): bool {
    StrLe(a.name, b.name)
  }

  /** Comparing names is a total preorder on categories. */
  lemma NameOrder()
    ensures TotalPreorder(NameLe)
  {
    forall a: Category, b: Category ensures NameLe(a, b) || NameLe(b, a) {
      StrLeTotal(a.name, b.name);
    }
    forall a: Category, b: Category, c: Category | NameLe(a, b) && NameLe(b, c) ensures NameLe(a, c) {
      StrLeTrans(a.name, b.name, c.name);
    }
  }

  /** `Category::orderBy('name')->get()`. */
  function ByName(db: Db): (r: seq<Category>)
    ensures multiset(r) == multiset(db.categories)
    ensures forall i, j :: 0 <= i < j < |r| ==> StrLe(r[i].name, r[j].name)
  {
    NameOrder();
    SortBySorted(db.categories, NameLe);
    SortBy(db.categories, NameLe)
  }

  function CategoriesJson(cs: seq<Category>): (j: Json)
    ensures j.JArr? && |j.items| == |cs|
    ensures forall i :: 0 <= i < |cs| ==> j.items[i] == CategoryJson(cs[i])
  {
    JArr(seq(|cs|, i requires 0 <= i < |cs| => CategoryJson(cs[i])))
  }

  /** `index`: `{categories}`, every category once per row, by name. */
  function Index(db: Db): (r: Response)
    ensures r.status == HTTP_OK && Enveloped(r) && Succeeded(r) && Message(r) == CATEGORIES_RETRIEVED
    ensures Keys(Data(r)) == ["categories"] && Lookup(Data(r), "categories") == Some(CategoriesJson(ByName(db)))
  {
    SendData([("categories", CategoriesJson(ByName(db)))], CATEGORIES_RETRIEVED)
  }

  /** The listing holds every category, and only those, as many as the
      table has. */
  lemma IndexListsAll(db: Db)
    ensures |ByName(db)| == |db.categories|
    ensures forall c :: c in ByName(db) <==> c in db.categories
  {
    var r := ByName(db);
    assert |r| == |multiset(r)| == |multiset(db.categories)| == |db.categories|;
    forall c ensures c in r <==> c in db.categories {
      assert c in r <==> c in multiset(r);
      assert c in db.categories <==> c in multiset(db.categories);
    }
  }

  /** `show($slug)`: the first category with that slug, or 404. */
  function Show(db: Db, slug: string): (r: Response)
    ensures CategoryBySlug(db, slug).None? ==> r == ErrorEnvelope(CATEGORY_NOT_FOUND, HTTP_NOT_FOUND, [])
    ensures CategoryBySlug(db, slug).Some? ==>
      r.status == HTTP_OK && Succeeded(r) && Message(r) == CATEGORY_RETRIEVED
    ensures CategoryBySlug(db, slug).Some? ==>
      Data(r) == [("category", CategoryJson(CategoryBySlug(db, slug).value))]
  {
    match CategoryBySlug(db, slug)
    case None => ErrorEnvelope(CATEGORY_NOT_FOUND, HTTP_NOT_FOUND, [])
    case Some(c) => SendData([("category", CategoryJson(c))], CATEGORY_RETRIEVED)
  }

  /** `show` fails with 404 exactly when no category has the slug; otherwise
      it shows a category that has it. */
  lemma ShowFindsSlug(db: Db, slug: string)
    ensures Show(db, slug).status == HTTP_NOT_FOUND <==> !exists c :: c in db.categories && c.slug == slug
    ensures Failed(Show(db, slug)) <==> !exists c :: c in db.categories && c.slug == slug
    ensures (exists c :: c in db.categories && c.slug == slug) ==>
      exists c :: c in db.categories && c.slug == slug && Lookup(Data(Show(db, slug)), "category") == Some(CategoryJson(c))
  {
    var r := CategoryBySlug(db, slug);
    if r.Some? {
      assert Lookup(Data(Show(db, slug)), "category") == Some(CategoryJson(r.value));
    }
  }
}
