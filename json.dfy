/**
 * The JSON-shaped values the converter produces: Python dicts, lists,
 * strings, numbers, booleans and None.  A dict is an association list so
 * that its key order (Python's insertion order) is part of the value.
 */
module Json {
  import opened Runtime

  datatype Json =
    | JNull
    | JBool(b: bool)
    | JInt(i: int)
    | JStr(s: string)
    | JArr(items: seq<Json>)
    | JObj(fields: seq<(string, Json)>)
      /** A Python object that is not JSON (a python-docx wrapper), stored as is. */
    | JForeign(cls: string)

  /** Python truthiness of a value. */
  predicate Truthy(j: Json)
  {
    match j
    case JNull => false
    case JBool(b) => b
    case JInt(i) => i != 0
    case JStr(s) => s != []
    case JArr(items) => items != []
    case JObj(fields) => fields != []
    case JForeign(_) => true
  }

  /** The keys of a dict, in order. */
  function Keys(fields: seq<(string, Json)>): (r: seq<string>)
    ensures |r| == |fields|
    ensures forall i :: 0 <= i < |fields| ==> r[i] == fields[i].0
  {
    if fields == [] then [] else [fields[0].0] + Keys(fields[1..])
  }

  /** `d.get(key)`: the value stored under `key`, if any. */
  function Get(fields: seq<(string, Json)>, key: string): Option<Json>
  {
    if fields == [] then None
    else if fields[0].0 == key then Some(fields[0].1)
    else Get(fields[1..], key)
  }

  /** A lookup finds a value exactly when the key is present, and the value is stored under it. */
  lemma {:induction false} GetSpec(fields: seq<(string, Json)>, key: string)
    ensures Get(fields, key).Some? <==> key in Keys(fields)
    ensures Get(fields, key).Some? ==> (key, Get(fields, key).value) in fields
  {
    if fields != [] {
      GetSpec(fields[1..], key);
      assert Keys(fields) == [fields[0].0] + Keys(fields[1..]);
    }
  }

  /** `d[key]`: the value under `key`, or a KeyError. */
  function Index(fields: seq<(string, Json)>, key: string): Result<Json>
  {
    match Get(fields, key)
    case Some(v) => Ok(v)
    case None => Err(KeyError(key))
  }

  /** `d[key]` succeeds exactly on a present key, with the looked-up value, and raises KeyError otherwise. */
  lemma IndexSpec(fields: seq<(string, Json)>, key: string)
    ensures Index(fields, key).Ok? <==> key in Keys(fields)
    ensures Index(fields, key).Ok? ==> Get(fields, key) == Some(Index(fields, key).value)
    ensures Index(fields, key).Err? ==> Index(fields, key).error == KeyError(key)
  {
    GetSpec(fields, key);
  }

  /**
   * `d[key] = v`: replaces the value in place when the key is present,
   * otherwise appends the pair at the end.
   */
  function Set(fields: seq<(string, Json)>, key: string, v: Json): (r: seq<(string, Json)>)
    ensures key in Keys(fields) ==> Keys(r) == Keys(fields)
    ensures key !in Keys(fields) ==> r == fields + [(key, v)]
  {
    if fields == [] then [(key, v)]
    else if fields[0].0 == key then [(key, v)] + fields[1..]
    else
      var rest := Set(fields[1..], key, v);
      var r := [fields[0]] + rest;
      assert Keys(r) == [fields[0].0] + Keys(rest);
      assert Keys(fields) == [fields[0].0] + Keys(fields[1..]);
      r
  }

  /** After `d[key] = v`, `key` maps to `v` and every other key keeps its value. */
  lemma {:induction false} SetGet(fields: seq<(string, Json)>, key: string, v: Json)
    ensures Get(Set(fields, key, v), key) == Some(v)
    ensures forall k :: k != key ==> Get(Set(fields, key, v), k) == Get(fields, k)
  {
    if fields != [] && fields[0].0 != key {
      SetGet(fields[1..], key, v);
      var r := Set(fields, key, v);
      assert r[0] == fields[0] && r[1..] == Set(fields[1..], key, v);
    }
  }

  /** `del d[key]`: removes the first pair with that key, or raises KeyError. */
  function Del(fields: seq<(string, Json)>, key: string): (r: Result<seq<(string, Json)>>)
    ensures r.Ok? <==> key in Keys(fields)
    ensures r.Err? ==> r.error == KeyError(key)
    ensures r.Ok? ==> |r.value| == |fields| - 1
    ensures r.Ok? ==> forall k :: k != key ==> Get(r.value, k) == Get(fields, k)
  {
    if fields == [] then Err(KeyError(key))
    else if fields[0].0 == key then Ok(fields[1..])
    else
      var rest :- Del(fields[1..], key);
      Ok([fields[0]] + rest)
  }

  /** No key occurs twice: the association list is a faithful picture of a dict. */
  predicate Unique(fields: seq<(string, Json)>)
  {
    forall i, j :: 0 <= i < j < |fields| ==> fields[i].0 != fields[j].0
  }

  /** Assignment keeps keys unique. */
  lemma {:induction false} SetUnique(fields: seq<(string, Json)>, key: string, v: Json)
    requires Unique(fields)
    ensures Unique(Set(fields, key, v))
  {
    var r := Set(fields, key, v);
    if key in Keys(fields) {
      assert Keys(r) == Keys(fields);
      forall i, j | 0 <= i < j < |r| ensures r[i].0 != r[j].0 {
        assert Keys(r)[i] == Keys(fields)[i] && Keys(r)[j] == Keys(fields)[j];
      }
    } else {
      forall i, j | 0 <= i < j < |r| ensures r[i].0 != r[j].0 {
        if j == |fields| {
          assert fields[i].0 == Keys(fields)[i];
        }
      }
    }
  }

  /** The tail of a unique dict is unique and does not hold the first key. */
  lemma UniqueTail(fields: seq<(string, Json)>)
    requires Unique(fields) && fields != []
    ensures Unique(fields[1..])
    ensures fields[0].0 !in Keys(fields[1..])
  {
    forall i, j | 0 <= i < j < |fields[1..]| ensures fields[1..][i].0 != fields[1..][j].0 {
      assert fields[1..][i] == fields[i + 1] && fields[1..][j] == fields[j + 1];
    }
    forall i | 0 <= i < |fields[1..]| ensures Keys(fields[1..])[i] != fields[0].0 {
      assert fields[1..][i] == fields[i + 1];
    }
  }

  /** Putting a key in front of a unique dict that lacks it keeps it unique. */
  lemma UniqueCons(p: (string, Json), rest: seq<(string, Json)>)
    requires Unique(rest) && p.0 !in Keys(rest)
    ensures Unique([p] + rest)
  {
    var r := [p] + rest;
    forall i, j | 0 <= i < j < |r| ensures r[i].0 != r[j].0 {
      assert r[j] == rest[j - 1] && Keys(rest)[j - 1] == r[j].0;
      if i > 0 {
        assert r[i] == rest[i - 1];
      }
    }
  }

  /** A key deleted from a dict was in it; deleting never adds keys. */
  lemma DelKeys(fields: seq<(string, Json)>, key: string, k: string)
    requires Del(fields, key).Ok? && k in Keys(Del(fields, key).value)
    ensures k in Keys(fields)
  {
    if k != key {
      GetSpec(Del(fields, key).value, k);
      GetSpec(fields, k);
    } else {
      assert key in Keys(fields);
    }
  }

  /** On a dict with unique keys, `del d[key]` leaves no entry under `key`. */
  lemma {:induction false} DelUnique(fields: seq<(string, Json)>, key: string)
    requires Unique(fields) && Del(fields, key).Ok?
    ensures Unique(Del(fields, key).value)
    ensures Get(Del(fields, key).value, key) == None
  {
    UniqueTail(fields);
    if fields[0].0 == key {
      GetSpec(fields[1..], key);
    } else {
      DelUnique(fields[1..], key);
      var rest := Del(fields[1..], key).value;
      assert Del(fields, key).value == [fields[0]] + rest;
      if fields[0].0 in Keys(rest) {
        DelKeys(fields[1..], key, fields[0].0);
      }
      UniqueCons(fields[0], rest);
    }
  }

  /** `d.pop(key)`: the value and the dict without it, or a KeyError. */
  function Pop(fields: seq<(string, Json)>, key: string): (r: Result<(Json, seq<(string, Json)>)>)
    ensures r.Ok? <==> key in Keys(fields)
    ensures r.Ok? ==> Get(fields, key) == Some(r.value.0) && Del(fields, key) == Ok(r.value.1)
  {
    match Del(fields, key)
    case Err(e) => Err(e)
    case Ok(rest) =>
      GetSpec(fields, key);
      Ok((Get(fields, key).value, rest))
  }

  /** `j[key]` on any value: a dict lookup, or a TypeError when `j` is not a dict. */
  function Item(j: Json, key: string): Result<Json>
  {
    if j.JObj? then Index(j.fields, key) else Err(TypeError("object is not subscriptable"))
  }

  /** `j[key]` succeeds exactly on a dict holding `key`; any other value raises TypeError. */
  lemma ItemSpec(j: Json, key: string)
    ensures Item(j, key).Ok? <==> j.JObj? && key in Keys(j.fields)
    ensures Item(j, key).Ok? ==> Get(j.fields, key) == Some(Item(j, key).value)
    ensures j.JObj? && Item(j, key).Err? ==> Item(j, key).error == KeyError(key)
    ensures !j.JObj? ==> Item(j, key) == Err(TypeError("object is not subscriptable"))
  {
    if j.JObj? {
      IndexSpec(j.fields, key);
    }
  }

  /** `j[key] = v` on a dict. */
  function SetItem(j: Json, key: string, v: Json): (r: Json)
    requires j.JObj?
    ensures r.JObj? && Get(r.fields, key) == Some(v)
    ensures forall k :: k != key ==> Get(r.fields, k) == Get(j.fields, k)
  {
    SetGet(j.fields, key, v);
    JObj(Set(j.fields, key, v))
  }

  /**
   * `a + b`, restricted to strings and lists: their concatenation.  Every
   * other pair is a TypeError here, including two numbers, which Python
   * would add; the model's only caller (`merge_run_contents`) adds `CT_Text`
   * values, which are always strings.
   */
  function Plus(a: Json, b: Json): (r: Result<Json>)
    ensures r.Ok? <==> (a.JStr? && b.JStr?) || (a.JArr? && b.JArr?)
    ensures a.JStr? && b.JStr? ==> r == Ok(JStr(a.s + b.s))
    ensures a.JArr? && b.JArr? ==> r == Ok(JArr(a.items + b.items))
  {
    if a.JStr? && b.JStr? then Ok(JStr(a.s + b.s))
    else if a.JArr? && b.JArr? then Ok(JArr(a.items + b.items))
    else Err(TypeError("unsupported operand type(s) for +"))
  }

  /** The element's `TYPE` is `name`. */
  predicate TypeIs(j: Json, name: string)
  {
    Item(j, "TYPE") == Ok(JStr(name))
  }

  /** The dict has a truthy `TYPE` (`d.get("TYPE", None)`). */
  predicate HasType(fields: seq<(string, Json)>)
  {
    Get(fields, "TYPE").Some? && Truthy(Get(fields, "TYPE").value)
  }

  // ---------------------------------------------------------------------
  // Sizes, for walks over the output tree

  /** The number of values in a tree, counting list slots once more. */
  function JsonSize(j: Json): nat
    decreases j, 1
  {
    match j
    case JArr(items) => 2 + ListSize(items)
    case JObj(fields) => 1 + FieldsSize(fields)
    case _ => 1
  }

  function ListSize(items: seq<Json>): nat
    decreases items, 0
  {
    if items == [] then 0 else 1 + JsonSize(items[0]) + ListSize(items[1..])
  }

  function EntrySize(p: (string, Json)): nat
    decreases p, 0
  {
    JsonSize(p.1)
  }

  function FieldsSize(fields: seq<(string, Json)>): nat
    decreases fields, 0
  {
    if fields == [] then 0 else EntrySize(fields[0]) + FieldsSize(fields[1..])
  }

  /** A value found in a dict is smaller than the dict. */
  lemma {:induction false} GetSmaller(fields: seq<(string, Json)>, key: string)
    requires Get(fields, key).Some?
    ensures JsonSize(Get(fields, key).value) < JsonSize(JObj(fields))
  {
    assert FieldsSize(fields) == EntrySize(fields[0]) + FieldsSize(fields[1..]);
    if fields[0].0 != key {
      GetSmaller(fields[1..], key);
      assert JsonSize(JObj(fields[1..])) == 1 + FieldsSize(fields[1..]);
    }
  }
}
