/** `MenuItemResource`: a menu item as JSON, with its loaded children nested
    under `items` by the same rule. */
module MenuItemResource {
  import opened Php
  import opened Json
  import opened Store
  import opened MenuItem

  /** The keys every item shows, in order. */
  const ITEM_KEYS: seq<string> := ["id", "label", "icon", "route", "url", "shortcut", "position", "parent_id"]

  /** The copied columns. */
  function ItemFields(x: Store.MenuItem): (fs: seq<(string, Json)>)
    ensures Keys(fs) == ITEM_KEYS
    ensures fs[0].1 == JInt(x.id) && fs[1].1 == JStr(x.labelText)
    ensures fs[2].1 == NullableStr(x.icon) && fs[3].1 == NullableStr(x.route)
    ensures fs[4].1 == NullableStr(x.url) && fs[5].1 == NullableStr(x.shortcut)
    ensures fs[6].1 == JInt(x.position) && fs[7].1 == NullableInt(x.parentId)
  {
    [("id", JInt(x.id)),
     ("label", JStr(x.labelText)),
     ("icon", NullableStr(x.icon)),
     ("route", NullableStr(x.route)),
     ("url", NullableStr(x.url)),
     ("shortcut", NullableStr(x.shortcut)),
     ("position", JInt(x.position)),
     ("parent_id", NullableInt(x.parentId))]
  }

  /** `toArray`: the copied columns, then `items` when the children were
      loaded, holding `self::collection($this->children)`. */
  function ToArray(n: Node): (j: Json)
    decreases n
  {
    var items := seq(|n.children|, i requires 0 <= i < |n.children| => ToArray(n.children[i]));
    JObj(ItemFields(n.item) + if n.loaded then [("items", JArr(items))] else [])
  }

  /** `MenuItemResource::collection($nodes)`: one object per node, in order. */
  function Collection(ns: seq<Node>): (j: Json)
    ensures j.JArr? && |j.items| == |ns|
    ensures forall i :: 0 <= i < |ns| ==> j.items[i] == ToArray(ns[i])
  {
    JArr(seq(|ns|, i requires 0 <= i < |ns| => ToArray(ns[i])))
  }

  /** The shape of one item: the eight copied keys, then `items` exactly when
      the children were loaded, holding one object per child in order. */
  lemma ToArrayShape(n: Node)
    ensures ToArray(n).JObj?
    ensures Keys(ToArray(n).fields) == ITEM_KEYS + if n.loaded then ["items"] else []
    ensures ToArray(n).fields[..8] == ItemFields(n.item)
    ensures n.loaded ==> ToArray(n).fields[8] == ("items", Collection(n.children))
  {
    var base := ItemFields(n.item);
    var rest := if n.loaded then [("items", Collection(n.children))] else [];
    var items := seq(|n.children|, i requires 0 <= i < |n.children| => ToArray(n.children[i]));
    assert items == Collection(n.children).items;
    assert ToArray(n).fields == base + rest;
    KeysAppend(base, rest);
    assert (base + rest)[..8] == base;
  }

  /** `items` is the only nesting key: no object at any depth has a
      `children` key. */
  lemma {:induction false} NoChildrenKey(n: Node)
    ensures KeyAbsent(ToArray(n), "children")
    decreases n
  {
    ToArrayShape(n);
    var fs := ToArray(n).fields;
    assert "children" !in ITEM_KEYS;
    if n.loaded {
      var cs := n.children;
      forall i | 0 <= i < |cs| ensures KeyAbsent(ToArray(cs[i]), "children") {
        NoChildrenKey(cs[i]);
      }
      assert KeyAbsent(Collection(cs), "children");
    }
    forall i | 0 <= i < |fs| ensures KeyAbsent(fs[i].1, "children") {
      if i < 8 {
        assert fs[i].1 == ItemFields(n.item)[i].1;
      }
    }
  }
}
