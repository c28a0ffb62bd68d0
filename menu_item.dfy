/** The `MenuItem` model: its three relations, each an id lookup in the
    store, and the casts applied to its columns when they are read. */
module MenuItem {
  import opened Php
  import opened Seqs
  import opened Store

  /** `parent()`: the item whose id is this item's `parent_id`; none for a
      root item. */
  function Parent(db: Db, x: Store.MenuItem): (r: Option<Store.MenuItem>)
    ensures x.parentId.None? ==> r.None?
    ensures x.parentId.Some? ==> (r.Some? <==> exists y :: y in db.menuItems && y.id == x.parentId.value)
    ensures r.Some? ==> r.value in db.menuItems && Some(r.value.id) == x.parentId
  {
    if x.parentId.None? then None
    else Find(db.menuItems, (y: Store.MenuItem) => y.id == x.parentId.value)
  }

  /** `children()`: the items whose `parent_id` is this item's id, in table order. */
  function Children(db: Db, x: Store.MenuItem): (r: seq<Store.MenuItem>)
    ensures forall c :: c in r <==> c in db.menuItems && c.parentId == Some(x.id)
  {
    Filter(db.menuItems, (c: Store.MenuItem) => c.parentId == Some(x.id))
  }

  /** `menu()`: the menu whose id is this item's `menu_id`. */
  function MenuOf(db: Db, x: Store.MenuItem): (r: Option<Menu>)
    ensures r.Some? <==> IsMenuId(db, x.menuId)
    ensures r.Some? ==> r.value in db.menus && r.value.id == x.menuId
  {
    Find(db.menus, (m: Menu) => m.id == x.menuId)
  }

  /** Menu item ids are the table's primary key. */
  predicate UniqueIds(db: Db) {
    forall i, j :: 0 <= i < |db.menuItems| && 0 <= j < |db.menuItems| && db.menuItems[i].id == db.menuItems[j].id ==> i == j
  }

  /** `parent` and `children` are the two ends of one relation: with unique
      ids, an item is among the children of `x` exactly when `x` is its parent. */
  lemma ParentChildren(db: Db, x: Store.MenuItem, c: Store.MenuItem)
    requires UniqueIds(db) && x in db.menuItems
    ensures c in Children(db, x) <==> c in db.menuItems && Parent(db, c) == Some(x)
  {
    if c in Children(db, x) {
      var p := Parent(db, c);
      assert p.Some?;
      var i :| 0 <= i < |db.menuItems| && db.menuItems[i] == x;
      var j :| 0 <= j < |db.menuItems| && db.menuItems[j] == p.value;
      assert i == j;
    }
  }

  /** An item as the resource sees it: the row, whether `children` was
      eager-loaded, and the loaded children (which may carry their own);
      `children` is empty when `loaded` is false. */
  datatype Node = Node(item: Store.MenuItem, loaded: bool, children: seq<Node>)

  /** An item with nothing loaded. */
  function Bare(x: Store.MenuItem): (n: Node)
    ensures n.item == x && !n.loaded && n.children == []
  {
    Node(x, false, [])
  }

  /** `MenuItem::with('children')` for one item: its children, each with no
      relation of its own loaded. */
  function WithChildren(db: Db, x: Store.MenuItem): (n: Node)
    ensures n.item == x && n.loaded
    ensures |n.children| == |Children(db, x)|
    ensures forall i :: 0 <= i < |n.children| ==> n.children[i] == Bare(Children(db, x)[i])
  {
    var cs := Children(db, x);
    Node(x, true, seq(|cs|, i requires 0 <= i < |cs| => Bare(cs[i])))
  }
}
