/** `MenuController::index`: the items of one menu, ordered by position, each
    with its direct children. */
module MenuController {
  import opened Php
  import opened Json
  import opened Seqs
  import opened Store
  import opened MenuItem
  import opened MenuItemResource
  import opened BaseController
  import opened Messages

  function PositionLe(a: Store.MenuItem, b: Store.MenuItem): bool {
    a.position <= b.position
  }

  /** `where('menu_id', $menuId)->orderBy('position')->get()`. */
  function Items(db: Db, menuId: int): (r: seq<Store.MenuItem>)
    ensures multiset(r) == multiset(Filter(db.menuItems, (x: Store.MenuItem) => x.menuId == menuId))
    ensures SortedBy(r, PositionLe)
  {
    SortBySorted(Filter(db.menuItems, (x: Store.MenuItem) => x.menuId == menuId), PositionLe);
    SortBy(Filter(db.menuItems, (x: Store.MenuItem) => x.menuId == menuId), PositionLe)
  }

  /** The listing holds exactly the items of the menu, roots and nested
      items alike, each as often as in the table, ordered by position. */
  lemma ItemsOfMenu(db: Db, menuId: int)
    ensures forall x :: x in Items(db, menuId) <==> x in db.menuItems && x.menuId == menuId
    ensures |Items(db, menuId)| == |Filter(db.menuItems, (x: Store.MenuItem) => x.menuId == menuId)|
    ensures forall i, j :: 0 <= i < j < |Items(db, menuId)| ==> Items(db, menuId)[i].position <= Items(db, menuId)[j].position
  {
    var f := Filter(db.menuItems, (x: Store.MenuItem) => x.menuId == menuId);
    var r := Items(db, menuId);
    forall x ensures x in r <==> x in db.menuItems && x.menuId == menuId {
      assert x in r <==> x in multiset(r);
      assert x in f <==> x in multiset(f);
    }
    assert |r| == |multiset(r)| == |multiset(f)| == |f|;
  }

  /** `MenuItem::with('children')`: every listed item with its children loaded. */
  function Nodes(db: Db, menuId: int): (ns: seq<Node>)
    ensures |ns| == |Items(db, menuId)|
    ensures forall i :: 0 <= i < |ns| ==> ns[i] == WithChildren(db, Items(db, menuId)[i])
  {
    var xs := Items(db, menuId);
    seq(|xs|, i requires 0 <= i < |xs| => WithChildren(db, xs[i]))
  }

  /** `index`: `{items}` under the `menu.success_list` message, for a menu id
      the request has accepted. */
  function Index(db: Db, menuId: int): (r: Response)
    requires IsMenuId(db, menuId)
    ensures r.status == HTTP_OK && Enveloped(r) && Succeeded(r) && Message(r) == MENU_SUCCESS_LIST
    ensures Keys(Data(r)) == ["items"] && Lookup(Data(r), "items") == Some(Collection(Nodes(db, menuId)))
  {
    SendData([("items", Collection(Nodes(db, menuId)))], MENU_SUCCESS_LIST)
  }

  /** Each listed item nests its direct children under `items`, in table
      order; a child shows no `items` of its own, since grandchildren are
      not loaded. */
  lemma ChildrenOneLevel(db: Db, menuId: int, i: nat, k: nat)
    requires i < |Items(db, menuId)|
    requires k < |Children(db, Items(db, menuId)[i])|
    ensures var n := Nodes(db, menuId)[i];
      && n.loaded && |n.children| == |Children(db, Items(db, menuId)[i])|
      && ToArray(n).fields[8].0 == "items"
      && ToArray(n).fields[8].1.items[k] == ToArray(Bare(Children(db, Items(db, menuId)[i])[k]))
      && Keys(ToArray(n).fields[8].1.items[k].fields) == ITEM_KEYS
  {
    var x := Items(db, menuId)[i];
    var n := Nodes(db, menuId)[i];
    ToArrayShape(n);
    ToArrayShape(Bare(Children(db, x)[k]));
  }
}
