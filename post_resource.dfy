/** `PostResource`: a post instance as the API shows it. The nine column
    attributes are always there; the three relations appear only when the
    query loaded them, and the comment count only when it was computed. */
module PostResource {
  import opened Php
  import opened Json
  import opened Store
  import opened Post

  /** The excerpt is at most this many characters before its ellipsis. */
  const EXCERPT_LIMIT: nat := 100

  /** The attributes every serialised post has, in order. */
  const BASE_KEYS: seq<string> :=
    ["id", "title", "slug", "content", "excerpt", "image_url", "created_at", "updated_at", "views"]

  /** A conditional attribute: a value, or `MissingValue`, which the
      resource drops together with its key. */
  datatype Attr = Value(j: Json) | MissingValue

  /** The fields one conditional attribute contributes. */
  function Field(key: string, a: Attr): seq<(string, Json)> {
    if a.Value? then [(key, a.j)] else []
  }

  function FieldKeys(key: string, a: Attr): seq<string> {
    if a.Value? then [key] else []
  }

  lemma FieldKeysOf(key: string, a: Attr)
    ensures Keys(Field(key, a)) == FieldKeys(key, a)
  {
  }

  /** `whenLoaded($relation, $f)`: missing when the relation was not loaded,
      null when it was loaded and holds no row, `$f` of the row otherwise. */
  function WhenLoaded<X>(rel: Option<Option<X>>, f: X -> Json): (a: Attr)
    ensures rel.None? <==> a.MissingValue?
    ensures rel == Some(None) ==> a == Value(JNull)
    ensures rel.Some? && rel.value.Some? ==> a == Value(f(rel.value.value))
  {
    match rel
    case None => MissingValue
    case Some(None) => Value(JNull)
    case Some(Some(x)) => Value(f(x))
  }

  /** `when($condition, $value)`. */
  function When(condition: bool, j: Json): (a: Attr)
    ensures a.Value? <==> condition
    ensures a.Value? ==> a.j == j
  {
    if condition then Value(j) else MissingValue
  }

  function UserJson(u: User): (j: Json)
    ensures KeysOf(j) == ["id", "name"]
    ensures Get(j, "id") == Some(JInt(u.id)) && Get(j, "name") == Some(JStr(u.name))
  {
    JObj([("id", JInt(u.id)), ("name", JStr(u.name))])
  }

  /** A category; its slug is null when the relation did not select it. */
  function CategoryJson(c: CategoryView): (j: Json)
    ensures KeysOf(j) == ["id", "name", "slug"]
    ensures Get(j, "id") == Some(JInt(c.id)) && Get(j, "name") == Some(JStr(c.name))
    ensures Get(j, "slug") == Some(NullableStr(c.slug))
  {
    JObj([("id", JInt(c.id)), ("name", JStr(c.name)), ("slug", NullableStr(c.slug))])
  }

  function TagJson(t: Tag): (j: Json)
    ensures KeysOf(j) == ["id", "name", "slug"]
    ensures Get(j, "id") == Some(JInt(t.id)) && Get(j, "name") == Some(JStr(t.name))
    ensures Get(j, "slug") == Some(JStr(t.slug))
  {
    JObj([("id", JInt(t.id)), ("name", JStr(t.name)), ("slug", JStr(t.slug))])
  }

  /** `$this->tags->map(...)`: one object per tag, in the relation's order. */
  function TagsJson(ts: seq<Tag>): (j: Json)
    ensures j.JArr? && |j.items| == |ts|
    ensures forall i :: 0 <= i < |ts| ==> j.items[i] == TagJson(ts[i])
  {
    JArr(seq(|ts|, i requires 0 <= i < |ts| => TagJson(ts[i])))
  }

  /** `Str::limit(strip_tags($content), 100)`: the tag-stripped text when it
      fits in 100 characters, otherwise a prefix of it followed by "...";
      text without markup that fits is kept as it is. */
  function Excerpt(content: string): (r: string)
    ensures |StripTags(content)| <= EXCERPT_LIMIT ==> r == StripTags(content)
    ensures |StripTags(content)| > EXCERPT_LIMIT ==>
      && |r| >= 3 && r[|r| - 3..] == "..."
      && IsPrefix(r[..|r| - 3], StripTags(content))
    ensures |r| <= EXCERPT_LIMIT + 3
    ensures |r| <= |content| + 3
    ensures '<' !in content && |content| <= EXCERPT_LIMIT ==> r == content
  {
    StrLimit(StripTags(content), EXCERPT_LIMIT)
  }

  /** The always-present attributes, in order. `updated_at` is formatted, so
      the instance must hold it. */
  function BaseFields(m: Instance): (fs: seq<(string, Json)>)
    requires m.updatedAt.Some?
    ensures Keys(fs) == BASE_KEYS
    ensures fs[0] == ("id", JInt(m.post.id))
    ensures fs[1] == ("title", JStr(m.post.title))
    ensures fs[2] == ("slug", JStr(m.post.slug))
    ensures fs[3] == ("content", JStr(m.post.content))
    ensures fs[4] == ("excerpt", JStr(Excerpt(m.post.content)))
    ensures fs[5] == ("image_url", NullableStr(m.post.imageUrl))
    ensures fs[6] == ("created_at", JTime(m.post.createdAt))
    ensures fs[7] == ("updated_at", JTime(m.updatedAt.value))
    ensures fs[8] == ("views", JInt(m.post.views))
  {
    var fs := [
      ("id", JInt(m.post.id)),
      ("title", JStr(m.post.title)),
      ("slug", JStr(m.post.slug)),
      ("content", JStr(m.post.content)),
      ("excerpt", JStr(Excerpt(m.post.content))),
      ("image_url", NullableStr(m.post.imageUrl)),
      ("created_at", JTime(m.post.createdAt)),
      ("updated_at", JTime(m.updatedAt.value)),
      ("views", JInt(m.post.views))];
    assert Keys(fs) == BASE_KEYS;
    fs
  }

  function UserAttr(m: Instance): (a: Attr)
    ensures a.Value? <==> m.user.Some?
  {
    WhenLoaded(m.user, UserJson)
  }

  function CategoryAttr(m: Instance): (a: Attr)
    ensures a.Value? <==> m.category.Some?
  {
    WhenLoaded(m.category, CategoryJson)
  }

  function TagsAttr(m: Instance): (a: Attr)
    ensures a.Value? <==> m.tags.Some?
  {
    if m.tags.Some? then Value(TagsJson(m.tags.value)) else MissingValue
  }

  function CountAttr(m: Instance): (a: Attr)
    ensures a.Value? <==> m.commentsCount.Some?
  {
    When(m.commentsCount.Some?, if m.commentsCount.Some? then JInt(m.commentsCount.value) else JNull)
  }

  /** The keys of the conditional attributes an instance shows, in order. */
  function OptionalKeys(m: Instance): seq<string> {
    (if m.user.Some? then ["user"] else [])
      + (if m.category.Some? then ["category"] else [])
      + (if m.tags.Some? then ["tags"] else [])
      + (if m.commentsCount.Some? then ["comments_count"] else [])
  }

  /** The conditional attributes, in order: each one present exactly when
      its value is not `MissingValue`. */
  function Optional(m: Instance): (fs: seq<(string, Json)>)
    ensures Keys(fs) == OptionalKeys(m)
    ensures UserAttr(m).Value? ==> ("user", UserAttr(m).j) in fs
    ensures CategoryAttr(m).Value? ==> ("category", CategoryAttr(m).j) in fs
    ensures TagsAttr(m).Value? ==> ("tags", TagsAttr(m).j) in fs
    ensures CountAttr(m).Value? ==> ("comments_count", CountAttr(m).j) in fs
  {
    var u, c, t, n := Field("user", UserAttr(m)), Field("category", CategoryAttr(m)),
      Field("tags", TagsAttr(m)), Field("comments_count", CountAttr(m));
    FieldKeysOf("user", UserAttr(m));
    FieldKeysOf("category", CategoryAttr(m));
    FieldKeysOf("tags", TagsAttr(m));
    FieldKeysOf("comments_count", CountAttr(m));
    KeysAppend(u, c);
    KeysAppend(u + c, t);
    KeysAppend(u + c + t, n);
    u + c + t + n
  }

  /** `toArray()`: the nine column attributes in order, then each loaded
      relation and the computed comment count. */
  function ToArray(m: Instance): (j: Json)
    requires m.updatedAt.Some?
    ensures j.JObj?
    ensures Keys(j.fields) == BASE_KEYS + OptionalKeys(m)
    ensures j.fields[..|BASE_KEYS|] == BaseFields(m)
    ensures m.user.Some? ==> ("user", if m.user.value.Some? then UserJson(m.user.value.value) else JNull) in j.fields
    ensures m.category.Some? ==> ("category", if m.category.value.Some? then CategoryJson(m.category.value.value) else JNull) in j.fields
    ensures m.tags.Some? ==> ("tags", TagsJson(m.tags.value)) in j.fields
    ensures m.commentsCount.Some? ==> ("comments_count", JInt(m.commentsCount.value)) in j.fields
  {
    var base, opt := BaseFields(m), Optional(m);
    KeysAppend(base, opt);
    assert (base + opt)[..|BASE_KEYS|] == base;
    assert forall f :: f in opt ==> f in base + opt;
    JObj(base + opt)
  }

  /** `PostResource::collection($posts)`: one object per instance, in order. */
  function Collection(ms: seq<Instance>): (j: Json)
    requires forall i :: 0 <= i < |ms| ==> ms[i].updatedAt.Some?
    ensures j.JArr? && |j.items| == |ms|
    ensures forall i :: 0 <= i < |ms| ==> j.items[i] == ToArray(ms[i])
  {
    JArr(seq(|ms|, i requires 0 <= i < |ms| => ToArray(ms[i])))
  }

  /** `PostResource::collection` over the posts `ps` read with shape `s`. */
  function Resources(db: Db, s: Shape, ps: seq<Store.Post>): (j: Json)
    requires s.updatedAt
    ensures j.JArr? && |j.items| == |ps|
    ensures forall i :: 0 <= i < |ps| ==> j.items[i] == ToArray(Hydrate(db, s, ps[i]))
  {
    Collection(HydrateAll(db, s, ps))
  }

  /** A post read by a query that selects `updated_at` shows `user`,
      `category`, `tags` and `comments_count` exactly when the query loaded
      or computed them. */
  lemma ResourceKeys(db: Db, s: Shape, p: Store.Post)
    requires s.updatedAt
    ensures "user" in KeysOf(ToArray(Hydrate(db, s, p))) <==> s.user
    ensures "category" in KeysOf(ToArray(Hydrate(db, s, p))) <==> s.category
    ensures "tags" in KeysOf(ToArray(Hydrate(db, s, p))) <==> s.tags
    ensures "comments_count" in KeysOf(ToArray(Hydrate(db, s, p))) <==> s.commentsCount
  {
    var m := Hydrate(db, s, p);
    InstanceKeys(m, KeysOf(ToArray(m)));
  }

  /** Past the nine base keys, a post's keys are its conditional ones. */
  lemma InstanceKeys(m: Instance, ks: seq<string>)
    requires ks == BASE_KEYS + OptionalKeys(m)
    ensures "user" in ks <==> m.user.Some?
    ensures "category" in ks <==> m.category.Some?
    ensures "tags" in ks <==> m.tags.Some?
    ensures "comments_count" in ks <==> m.commentsCount.Some?
  {
    OptionalKeysIn(m);
    forall k | k in ["user", "category", "tags", "comments_count"]
      ensures k in ks <==> k in OptionalKeys(m)
    {
      assert k !in BASE_KEYS;
    }
  }

  lemma OptionalKeysIn(m: Instance)
    ensures "user" in OptionalKeys(m) <==> m.user.Some?
    ensures "category" in OptionalKeys(m) <==> m.category.Some?
    ensures "tags" in OptionalKeys(m) <==> m.tags.Some?
    ensures "comments_count" in OptionalKeys(m) <==> m.commentsCount.Some?
  {
  }

  /** In any field list keyed like a post with its user loaded, `user`
      occurs once. */
  lemma UserKeyOnce(m: Instance, fs: seq<(string, Json)>)
    requires m.user.Some? && Keys(fs) == BASE_KEYS + OptionalKeys(m)
    ensures forall v, w :: ("user", v) in fs && ("user", w) in fs ==> v == w
  {
    var rest := (if m.category.Some? then ["category"] else [])
      + (if m.tags.Some? then ["tags"] else []) + (if m.commentsCount.Some? then ["comments_count"] else []);
    assert OptionalKeys(m) == ["user"] + rest;
    assert Keys(fs) == BASE_KEYS + ["user"] + rest;
    assert "user" !in BASE_KEYS;
    KeyOnce(fs, BASE_KEYS, "user", rest);
  }

  lemma CategoryKeyOnce(m: Instance, fs: seq<(string, Json)>)
    requires m.category.Some? && Keys(fs) == BASE_KEYS + OptionalKeys(m)
    ensures forall v, w :: ("category", v) in fs && ("category", w) in fs ==> v == w
  {
    var u := if m.user.Some? then ["user"] else [];
    var t := (if m.tags.Some? then ["tags"] else []) + (if m.commentsCount.Some? then ["comments_count"] else []);
    assert OptionalKeys(m) == u + ["category"] + t;
    assert Keys(fs) == (BASE_KEYS + u) + ["category"] + t;
    assert "category" !in BASE_KEYS;
    KeyOnce(fs, BASE_KEYS + u, "category", t);
  }

  /** A loaded user is shown as null exactly when the relation holds no row. */
  lemma UserNullIff(m: Instance)
    requires m.updatedAt.Some? && m.user.Some?
    ensures ("user", JNull) in ToArray(m).fields <==> m.user.value.None?
  {
    UserKeyOnce(m, ToArray(m).fields);
  }

  /** A loaded category is shown as null exactly when the relation holds no row. */
  lemma CategoryNullIff(m: Instance)
    requires m.updatedAt.Some? && m.category.Some?
    ensures ("category", JNull) in ToArray(m).fields <==> m.category.value.None?
  {
    CategoryKeyOnce(m, ToArray(m).fields);
  }

  /** With a relation loaded, it is null exactly when the post has no such
      row; the tags are one object per attached tag, and a computed comment
      count is the number of the post's comments. */
  lemma ResourceRelations(db: Db, s: Shape, p: Store.Post)
    requires s.updatedAt
    ensures s.user ==> (("user", JNull) in ToArray(Hydrate(db, s, p)).fields <==> UserOf(db, p).None?)
    ensures s.category ==> (("category", JNull) in ToArray(Hydrate(db, s, p)).fields <==> CategoryOf(db, p).None?)
    ensures s.tags ==> ("tags", TagsJson(TagsOf(db, p))) in ToArray(Hydrate(db, s, p)).fields
    ensures s.commentsCount ==> ("comments_count", JInt(CommentsCount(db, p))) in ToArray(Hydrate(db, s, p)).fields
  {
    var m := Hydrate(db, s, p);
    if s.user {
      UserNullIff(m);
    }
    if s.category {
      CategoryNullIff(m);
    }
  }
}
