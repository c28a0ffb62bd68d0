/** JSON values as the API writes them. A PHP associative array becomes an
    object whose fields keep their insertion order. Two leaves stand for
    what library code formats: `JTime` is a timestamp rendered as
    'Y-m-d H:i', and `JUrl(n)` is the paginator URL of page n. */
module Json {
  import opened Php

  datatype Json =
    | JNull
    | JBool(b: bool)
    | JInt(n: int)
    | JStr(s: string)
    | JTime(t: int)
    | JUrl(page: int)
    | JArr(items: seq<Json>)
    | JObj(fields: seq<(string, Json)>)

  function Keys(fields: seq<(string, Json)>): (ks: seq<string>)
    ensures |ks| == |fields|
    ensures forall i :: 0 <= i < |fields| ==> ks[i] == fields[i].0
  {
    if fields == [] then [] else [fields[0].0] + Keys(fields[1..])
  }

  /** The value stored under `key`: the first field with that name. */
  function Lookup(fields: seq<(string, Json)>, key: string): (r: Option<Json>)
    ensures r.Some? <==> key in Keys(fields)
    ensures r.Some? ==> (key, r.value) in fields
  {
    if fields == [] then None
    else if fields[0].0 == key then Some(fields[0].1)
    else Lookup(fields[1..], key)
  }

  lemma KeysAppend(a: seq<(string, Json)>, b: seq<(string, Json)>)
    ensures Keys(a + b) == Keys(a) + Keys(b)
  {
  }

  /** Looking a key up in two field lists one after the other finds it in the
      first when it is there, and in the second otherwise. */
  lemma {:induction false} LookupAppend(a: seq<(string, Json)>, b: seq<(string, Json)>, key: string)
    ensures Lookup(a + b, key) == if key in Keys(a) then Lookup(a, key) else Lookup(b, key)
    decreases |a|
  {
    if a == [] {
      assert a + b == b;
    } else if a[0].0 == key {
      assert (a + b)[0] == a[0];
    } else {
      assert (a + b)[0] == a[0] && (a + b)[1..] == a[1..] + b;
      assert key in Keys(a) <==> key in Keys(a[1..]);
      LookupAppend(a[1..], b, key);
    }
  }

  /** A field whose name no earlier field has is what a lookup of that name finds. */
  lemma {:induction false} LookupAt(fields: seq<(string, Json)>, i: nat)
    requires i < |fields|
    requires forall j :: 0 <= j < i ==> fields[j].0 != fields[i].0
    ensures Lookup(fields, fields[i].0) == Some(fields[i].1)
    decreases i
  {
    if i > 0 {
      assert fields[0].0 != fields[i].0;
      assert fields[1..][i - 1] == fields[i];
      LookupAt(fields[1..], i - 1);
    }
  }

  /** An object of three fields with distinct names: each name finds its own value. */
  lemma Lookup3(k0: string, v0: Json, k1: string, v1: Json, k2: string, v2: Json)
    requires k0 != k1 && k0 != k2 && k1 != k2
    ensures Keys([(k0, v0), (k1, v1), (k2, v2)]) == [k0, k1, k2]
    ensures Lookup([(k0, v0), (k1, v1), (k2, v2)], k0) == Some(v0)
    ensures Lookup([(k0, v0), (k1, v1), (k2, v2)], k1) == Some(v1)
    ensures Lookup([(k0, v0), (k1, v1), (k2, v2)], k2) == Some(v2)
  {
    var fs := [(k0, v0), (k1, v1), (k2, v2)];
    assert fs[1..] == [(k1, v1), (k2, v2)];
    assert fs[1..][1..] == [(k2, v2)];
  }

  /** An object of four fields with distinct names: each name finds its own value. */
  lemma Lookup4(k0: string, v0: Json, k1: string, v1: Json, k2: string, v2: Json, k3: string, v3: Json)
    requires k0 != k1 && k0 != k2 && k0 != k3 && k1 != k2 && k1 != k3 && k2 != k3
    ensures Keys([(k0, v0), (k1, v1), (k2, v2), (k3, v3)]) == [k0, k1, k2, k3]
    ensures Lookup([(k0, v0), (k1, v1), (k2, v2), (k3, v3)], k0) == Some(v0)
    ensures Lookup([(k0, v0), (k1, v1), (k2, v2), (k3, v3)], k1) == Some(v1)
    ensures Lookup([(k0, v0), (k1, v1), (k2, v2), (k3, v3)], k2) == Some(v2)
    ensures Lookup([(k0, v0), (k1, v1), (k2, v2), (k3, v3)], k3) == Some(v3)
  {
    var a, b := [(k0, v0), (k1, v1), (k2, v2)], [(k3, v3)];
    assert [(k0, v0), (k1, v1), (k2, v2), (k3, v3)] == a + b;
    Lookup3(k0, v0, k1, v1, k2, v2);
    KeysAppend(a, b);
    LookupAppend(a, b, k0);
    LookupAppend(a, b, k1);
    LookupAppend(a, b, k2);
    LookupAppend(a, b, k3);
  }

  /** A key that occurs once, after the keys `pre`, names only the value there. */
  lemma KeyOnce(fields: seq<(string, Json)>, pre: seq<string>, key: string, post: seq<string>)
    requires Keys(fields) == pre + [key] + post
    requires key !in pre && key !in post
    ensures forall v :: (key, v) in fields ==> v == fields[|pre|].1
  {
    var ks := Keys(fields);
    forall v | (key, v) in fields ensures v == fields[|pre|].1 {
      var i :| 0 <= i < |fields| && fields[i] == (key, v);
      assert ks[i] == key;
    }
  }

  /** No object anywhere inside `j` has a field named `key`. */
  predicate KeyAbsent(j: Json, key: string)
    decreases j
  {
    match j
    case JArr(items) => forall i :: 0 <= i < |items| ==> KeyAbsent(items[i], key)
    case JObj(fields) =>
      && key !in Keys(fields)
      && forall i :: 0 <= i < |fields| ==> KeyAbsent(fields[i].1, key)
    case _ => true
  }

  /** `$json[$key]` on an object; nothing on any other value. */
  function Get(j: Json, key: string): Option<Json> {
    if j.JObj? then Lookup(j.fields, key) else None
  }

  /** The table of keys of an object, in order; none for other values. */
  function KeysOf(j: Json): seq<string> {
    if j.JObj? then Keys(j.fields) else []
  }

  /** A nullable string column becomes a string or null. */
  function NullableStr(s: Option<string>): (r: Json)
    ensures s.None? <==> r == JNull
    ensures s.Some? ==> r == JStr(s.value)
  {
    if s.Some? then JStr(s.value) else JNull
  }

  function NullableInt(n: Option<int>): (r: Json)
    ensures n.None? <==> r == JNull
    ensures n.Some? ==> r == JInt(n.value)
  {
    if n.Some? then JInt(n.value) else JNull
  }
}
