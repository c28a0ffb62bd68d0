/** `TagController`: every tag ordered by name, and one tag looked up by
    slug, each shown by `TagResource` with the `posts_count` accessor of the
    `Tag` model. */
module TagController {
  import opened Php
  import opened Json
  import opened Seqs
  import opened Store
  import opened BaseController
  import opened Messages

  /** How often `id` occurs in `ids`. */
  function Occurrences(ids: seq<int>, id: int): nat {
    multiset(ids)[id]
  }

  /** `$tag->posts()->count()`: the `post_tag` rows naming the tag. */
  function PostsCount(db: Db, t: Tag): nat {
    PivotRows(db.posts, t.id)
  }

  function PivotRows(ps: seq<Store.Post>, id: int): (n: nat)
    ensures n >= |Filter(ps, (p: Store.Post) => id in p.tagIds)|
    decreases |ps|
  {
    if ps == [] then 0 else Occurrences(ps[0].tagIds, id) + PivotRows(ps[1..], id)
  }

  /** A post repeats no tag in the pivot table. */
  predicate NoRepeatedTags(ps: seq<Store.Post>) {
    forall i, j, k :: 0 <= i < |ps| && 0 <= j < k < |ps[i].tagIds| ==> ps[i].tagIds[j] != ps[i].tagIds[k]
  }

  lemma {:induction false} OccursOnce(ids: seq<int>, id: int)
    requires forall j, k :: 0 <= j < k < |ids| ==> ids[j] != ids[k]
    ensures Occurrences(ids, id) == if id in ids then 1 else 0
    decreases |ids|
  {
    if ids != [] {
      assert ids == [ids[0]] + ids[1..];
      assert multiset(ids) == multiset{ids[0]} + multiset(ids[1..]);
      OccursOnce(ids[1..], id);
      if ids[0] == id {
        assert id !in ids[1..];
      }
    }
  }

  /** Without repeated pivot rows, `posts_count` is the number of posts
      that carry the tag. */
  lemma {:induction false} PostsCountIsTaggedPosts(ps: seq<Store.Post>, id: int)
    requires NoRepeatedTags(ps)
    ensures PivotRows(ps, id) == |Filter(ps, (p: Store.Post) => id in p.tagIds)|
    decreases |ps|
  {
    if ps != [] {
      assert NoRepeatedTags(ps[1..]) by {
        forall i, j, k | 0 <= i < |ps[1..]| && 0 <= j < k < |ps[1..][i].tagIds|
          ensures ps[1..][i].tagIds[j] != ps[1..][i].tagIds[k]
        {
          assert ps[1..][i] == ps[i + 1];
        }
      }
      PostsCountIsTaggedPosts(ps[1..], id);
      OccursOnce(ps[0].tagIds, id);
    }
  }

  /** `TagResource`: `{id, name, slug, posts_count}`. The `posts_count`
      accessor always yields a number, so `when(isset(...))` always keeps it. */
  function TagJson(db: Db, t: Tag): (j: Json)
    ensures KeysOf(j) == ["id", "name", "slug", "posts_count"]
    ensures Get(j, "id") == Some(JInt(t.id)) && Get(j, "name") == Some(JStr(t.name)) && Get(j, "slug") == Some(JStr(t.slug))
    ensures Get(j, "posts_count") == Some(JInt(PostsCount(db, t)))
  {
    Lookup4("id", JInt(t.id), "name", JStr(t.name), "slug", JStr(t.slug), "posts_count", JInt(PostsCount(db, t)));
    JObj([("id", JInt(t.id)), ("name", JStr(t.name)), ("slug", JStr(t.slug)), ("posts_count", JInt(PostsCount(db, t)))])
  }

  function NameLe(a: Tag, b: Tag): bool {
    StrLe(a.name, b.name)
  }

  lemma NameOrder()
    ensures TotalPreorder(NameLe)
  {
    forall a: Tag, b: Tag ensures NameLe(a, b) || NameLe(b, a) {
      StrLeTotal(a.name, b.name);
    }
    forall a: Tag, b: Tag, c: Tag | NameLe(a, b) && NameLe(b, c) ensures NameLe(a, c) {
      StrLeTrans(a.name, b.name, c.name);
    }
  }

  /** `Tag::orderBy('name')->get()`. */
  function ByName(db: Db): (r: seq<Tag>)
    ensures multiset(r) == multiset(db.tags)
    ensures forall i, j :: 0 <= i < j < |r| ==> StrLe(r[i].name, r[j].name)
  {
    NameOrder();
    SortBySorted(db.tags, NameLe);
    SortBy(db.tags, NameLe)
  }

  function TagsJson(db: Db, ts: seq<Tag>): (j: Json)
    ensures j.JArr? && |j.items| == |ts|
    ensures forall i :: 0 <= i < |ts| ==> j.items[i] == TagJson(db, ts[i])
  {
    JArr(seq(|ts|, i requires 0 <= i < |ts| => TagJson(db, ts[i])))
  }

  /** `index`: `{tags}`, by name. */
  function Index(db: Db): (r: Response)
    ensures r.status == HTTP_OK && Enveloped(r) && Succeeded(r) && Message(r) == TAGS_RETRIEVED
    ensures Keys(Data(r)) == ["tags"] && Lookup(Data(r), "tags") == Some(TagsJson(db, ByName(db)))
  {
    SendData([("tags", TagsJson(db, ByName(db)))], TAGS_RETRIEVED)
  }

  /** The listing holds every tag, and only those, as many as the table has. */
  lemma IndexListsAll(db: Db)
    ensures |ByName(db)| == |db.tags|
    ensures forall t :: t in ByName(db) <==> t in db.tags
  {
    var r := ByName(db);
    assert |r| == |multiset(r)| == |multiset(db.tags)| == |db.tags|;
    forall t ensures t in r <==> t in db.tags {
      assert t in r <==> t in multiset(r);
      assert t in db.tags <==> t in multiset(db.tags);
    }
  }

  /** `show($slug)`: the first tag with that slug, or 404. */
  function Show(db: Db, slug: string): (r: Response)
    ensures TagBySlug(db, slug).None? ==> r == ErrorEnvelope(TAG_NOT_FOUND, HTTP_NOT_FOUND, [])
    ensures TagBySlug(db, slug).Some? ==>
      r.status == HTTP_OK && Succeeded(r) && Message(r) == TAG_RETRIEVED
    ensures TagBySlug(db, slug).Some? ==>
      Data(r) == [("tag", TagJson(db, TagBySlug(db, slug).value))]
  {
    match TagBySlug(db, slug)
    case None => ErrorEnvelope(TAG_NOT_FOUND, HTTP_NOT_FOUND, [])
    case Some(t) => SendData([("tag", TagJson(db, t))], TAG_RETRIEVED)
  }

  /** `show` fails with 404 exactly when no tag has the slug; otherwise it
      shows a tag that has it. */
  lemma ShowFindsSlug(db: Db, slug: string)
    ensures Show(db, slug).status == HTTP_NOT_FOUND <==> !exists t :: t in db.tags && t.slug == slug
    ensures Failed(Show(db, slug)) <==> !exists t :: t in db.tags && t.slug == slug
    ensures (exists t :: t in db.tags && t.slug == slug) ==>
      exists t :: t in db.tags && t.slug == slug && Lookup(Data(Show(db, slug)), "tag") == Some(TagJson(db, t))
  {
    var r := TagBySlug(db, slug);
    if r.Some? {
      assert Lookup(Data(Show(db, slug)), "tag") == Some(TagJson(db, r.value));
    }
  }
}
