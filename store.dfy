/** The database as in-memory tables. Every table is a sequence of rows in
    primary-key order, which is also the order a query without `orderBy`
    returns them in. */
module Store {
  import opened Php
  import opened Seqs

  datatype User = User(id: int, name: string)

  datatype Category = Category(id: int, name: string, slug: string)

  datatype Tag = Tag(id: int, name: string, slug: string)

  /** A post row; `tagIds` is its slice of the `post_tag` pivot table, in
      pivot order. Timestamps are opaque instants. */
  datatype Post = Post(
    id: int,
    title: string,
    slug: string,
    content: string,
    views: int,
    imageUrl: Option<string>,
    categoryId: int,
    userId: int,
    createdAt: int,
    updatedAt: int,
    tagIds: seq<int>)

  datatype Comment = Comment(id: int, postId: int)

  datatype Menu = Menu(id: int)

  /** A `menu_items` row with its columns as stored: `is_external` and
      `is_active` are 0/1 integers. */
  datatype MenuItem = MenuItem(
    id: int,
    menuId: int,
    parentId: Option<int>,
    labelText: string,
    icon: Option<string>,
    route: Option<string>,
    url: Option<string>,
    isExternal: int,
    isActive: int,
    shortcut: Option<string>,
    position: int)

  datatype Db = Db(
    users: seq<User>,
    categories: seq<Category>,
    tags: seq<Tag>,
    posts: seq<Post>,
    comments: seq<Comment>,
    menus: seq<Menu>,
    menuItems: seq<MenuItem>)

  /** `User::find($id)`. */
  function FindUser(db: Db, id: int): (r: Option<User>)
    ensures r.Some? <==> exists u :: u in db.users && u.id == id
    ensures r.Some? ==> r.value in db.users && r.value.id == id
  {
    Find(db.users, (u: User) => u.id == id)
  }

  function FindCategory(db: Db, id: int): (r: Option<Category>)
    ensures r.Some? <==> exists c :: c in db.categories && c.id == id
    ensures r.Some? ==> r.value in db.categories && r.value.id == id
  {
    Find(db.categories, (c: Category) => c.id == id)
  }

  /** `Category::where('slug', $slug)->first()`. */
  function CategoryBySlug(db: Db, slug: string): (r: Option<Category>)
    ensures r.Some? <==> exists c :: c in db.categories && c.slug == slug
    ensures r.Some? ==> r.value in db.categories && r.value.slug == slug
  {
    Find(db.categories, (c: Category) => c.slug == slug)
  }

  /** `Tag::where('slug', $slug)->first()`. */
  function TagBySlug(db: Db, slug: string): (r: Option<Tag>)
    ensures r.Some? <==> exists t :: t in db.tags && t.slug == slug
    ensures r.Some? ==> r.value in db.tags && r.value.slug == slug
  {
    Find(db.tags, (t: Tag) => t.slug == slug)
  }

  predicate IsUserId(db: Db, id: int) {
    exists u :: u in db.users && u.id == id
  }

  predicate IsCategoryId(db: Db, id: int) {
    exists c :: c in db.categories && c.id == id
  }

  predicate IsTagId(db: Db, id: int) {
    exists t :: t in db.tags && t.id == id
  }

  predicate IsMenuId(db: Db, id: int) {
    exists m :: m in db.menus && m.id == id
  }
}
