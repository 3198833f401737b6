/**
 * `apply_friendly_names`: every visited node's `TYPE` is replaced by its
 * friendly name.  A node is visited, then its `VALUE` when that is a dict
 * with a `TYPE`, or every element of its `VALUE` list when the first one
 * has a `TYPE`.  The Python code overwrites the dicts in place; here the
 * relabelled tree is returned as a new value.
 */
module FriendlyNames {
  import opened Runtime
  import opened Json

  /** `__friendly_names__`. */
  const Table: map<string, string> := map[
    "CT_Tc" := "table-cell",
    "CT_Row" := "table-row",
    "CT_Tbl" := "table",
    "SymbolChar" := "symbol",
    "CT_Ind" := "indentation-data",
    "CT_SimpleField" := "simple-field",
    "CT_Hyperlink" := "hyperlink",
    "CT_P" := "paragraph",
    "numPr" := "numbering-properties",
    "Checkbox" := "check-box",
    "DropDown" := "drop-down",
    "CT_Text" := "text",
    "TextInput" := "text-input",
    "fldChar" := "form-field",
    "CT_FFData" := "form-field-data",
    "CT_FFTextInput" := "text-input-data",
    "CT_FFDDList" := "drop-down-data",
    "CT_Body" := "body",
    "CT_FFCheckBox" := "check-box-data",
    "CT_AltChunk" := "nested-file",
    "CT_Document" := "document",
    "CT_Rel" := "nested-file"
  ]

  /** `__friendly_names__.get(t, t)`; a list or dict cannot be a key. */
  function Friendly(t: Json): Result<Json>
  {
    if t.JArr? || t.JObj? then Err(TypeError("unhashable type"))
    else if t.JStr? && t.s in Table then Ok(JStr(Table[t.s]))
    else Ok(t)
  }

  /** No friendly name is itself a key of the table, so renaming twice is renaming once. */
  lemma FriendlyIdempotent(t: Json)
    requires Friendly(t).Ok?
    ensures Friendly(Friendly(t).value) == Friendly(t)
    ensures Truthy(Friendly(t).value) == Truthy(t)
  {
    if t.JStr? && t.s in Table {
      assert Table[t.s] !in Table;
    }
  }

  /** `_walk(x, _apply_friendly_names)`. */
  function Relabel(x: Json): Result<Json>
    decreases JsonSize(x)
  {
    var t :- Item(x, "TYPE");
    var t' :- Friendly(t);
    var fields := Set(x.fields, "TYPE", t');
    var val := Get(x.fields, "VALUE");
    if val.None? || !Truthy(val.value) then Ok(JObj(fields))
    else
      GetSmaller(x.fields, "VALUE");
      match val.value
      case JObj(vf) =>
        if HasType(vf) then
          var c :- Relabel(val.value);
          Ok(JObj(Set(fields, "VALUE", c)))
        else Ok(JObj(fields))
      case JArr(items) =>
        if !items[0].JObj? then Err(AttributeError("get"))
        else if !HasType(items[0].fields) then Ok(JObj(fields))
        else
          var cs :- RelabelAll(items);
          Ok(JObj(Set(fields, "VALUE", JArr(cs))))
      case _ => Ok(JObj(fields))
  }

  /** `for child in val: _walk(child, fun)`. */
  function RelabelAll(items: seq<Json>): Result<seq<Json>>
    decreases ListSize(items)
  {
    if items == [] then Ok([])
    else
      var c :- Relabel(items[0]);
      var cs :- RelabelAll(items[1..]);
      Ok([c] + cs)
  }

  /** Renaming `TYPE` and then replacing `VALUE` touches no other key. */
  lemma Reassigned(fields: seq<(string, Json)>, t: Json, v: Json)
    requires "TYPE" in Keys(fields) && "VALUE" in Keys(fields)
    ensures var once := Set(fields, "TYPE", t);
      && Keys(once) == Keys(fields) && Get(once, "TYPE") == Some(t)
      && (forall k :: k != "TYPE" ==> Get(once, k) == Get(fields, k))
      && var twice := Set(once, "VALUE", v);
      && Keys(twice) == Keys(fields) && Get(twice, "TYPE") == Some(t)
      && Get(twice, "VALUE") == Some(v)
      && (forall k :: k != "TYPE" && k != "VALUE" ==> Get(twice, k) == Get(fields, k))
  {
    var once := Set(fields, "TYPE", t);
    SetGet(fields, "TYPE", t);
    SetGet(once, "VALUE", v);
  }

  /**
   * The visited node's `TYPE` is renamed and nothing else at its level
   * changes but `VALUE`; a value that is not a dict, or a dict without
   * `TYPE`, is an error.
   */
  lemma RelabelNode(x: Json)
    ensures !x.JObj? ==> Relabel(x) == Err(TypeError("object is not subscriptable"))
    ensures x.JObj? && Get(x.fields, "TYPE").None? ==> Relabel(x) == Err(KeyError("TYPE"))
    ensures Relabel(x).Ok? ==>
      var y := Relabel(x).value;
      && x.JObj? && y.JObj? && Keys(y.fields) == Keys(x.fields)
      && Get(x.fields, "TYPE").Some?
      && Friendly(Get(x.fields, "TYPE").value).Ok?
      && Get(y.fields, "TYPE") == Some(Friendly(Get(x.fields, "TYPE").value).value)
      && forall k :: k != "TYPE" && k != "VALUE" ==> Get(y.fields, k) == Get(x.fields, k)
  {
    ItemSpec(x, "TYPE");
    if Relabel(x).Ok? {
      RelabelShape(x);
      var t' := Friendly(Item(x, "TYPE").value).value;
      var val := Get(x.fields, "VALUE");
      SetGet(x.fields, "TYPE", t');
      if !Plain(val) {
        GetSpec(x.fields, "VALUE");
        if val.value.JObj? {
          Reassigned(x.fields, t', Relabel(val.value).value);
        } else {
          Reassigned(x.fields, t', JArr(RelabelAll(val.value.items).value));
        }
      }
    }
  }

  /** Relabelling a list succeeds exactly when every element relabels, and works element by element. */
  lemma {:induction false} RelabelAllSpec(items: seq<Json>)
    ensures RelabelAll(items).Ok? <==> forall i :: 0 <= i < |items| ==> Relabel(items[i]).Ok?
    ensures RelabelAll(items).Ok? ==>
      |RelabelAll(items).value| == |items|
      && forall i :: 0 <= i < |items| ==> RelabelAll(items).value[i] == Relabel(items[i]).value
    decreases |items|
  {
    if items != [] {
      RelabelAllSpec(items[1..]);
      assert forall i :: 1 <= i < |items| ==> items[i] == items[1..][i - 1];
      if RelabelAll(items).Ok? {
        var r := RelabelAll(items).value;
        assert r[1..] == RelabelAll(items[1..]).value;
      }
    }
  }

  // ---------------------------------------------------------------------
  // Only TYPE fields change

  /** The tree with every `TYPE` value blanked out: what relabelling must leave alone. */
  function Outline(j: Json): Json
    decreases JsonSize(j), 1
  {
    match j
    case JArr(items) => JArr(OutlineAll(items))
    case JObj(fields) => JObj(OutlineFields(fields))
    case _ => j
  }

  function OutlineAll(items: seq<Json>): (r: seq<Json>)
    decreases ListSize(items), 2
  {
    if items == [] then [] else [Outline(items[0])] + OutlineAll(items[1..])
  }

  function OutlineFields(fields: seq<(string, Json)>): seq<(string, Json)>
    decreases FieldsSize(fields), 2
  {
    if fields == [] then []
    else
      var (k, v) := fields[0];
      assert FieldsSize(fields) == JsonSize(v) + FieldsSize(fields[1..]) && JsonSize(v) >= 1;
      [(k, if k == "TYPE" then JNull else Outline(v))] + OutlineFields(fields[1..])
  }

  /** Assigning a key whose new value has the old outline keeps the dict's outline. */
  lemma {:induction false} OutlineSet(fields: seq<(string, Json)>, key: string, v: Json)
    requires Get(fields, key).Some?
    requires key == "TYPE" || Outline(v) == Outline(Get(fields, key).value)
    ensures OutlineFields(Set(fields, key, v)) == OutlineFields(fields)
    decreases |fields|
  {
    if fields[0].0 != key {
      OutlineSet(fields[1..], key, v);
      var r := Set(fields, key, v);
      assert r[0] == fields[0] && r[1..] == Set(fields[1..], key, v);
    }
  }

  /** The three ways a relabelled node is rebuilt: only `TYPE` renamed, or `VALUE` relabelled too. */
  lemma RelabelShape(x: Json)
    requires Relabel(x).Ok?
    ensures x.JObj? && Item(x, "TYPE").Ok? && Friendly(Item(x, "TYPE").value).Ok?
    ensures var f := Set(x.fields, "TYPE", Friendly(Item(x, "TYPE").value).value);
      var val := Get(x.fields, "VALUE");
      && (Plain(val) ==> Relabel(x) == Ok(JObj(f)))
      && (!Plain(val) && val.value.JObj? ==>
            Relabel(val.value).Ok? && Relabel(x) == Ok(JObj(Set(f, "VALUE", Relabel(val.value).value))))
      && (!Plain(val) && val.value.JArr? ==>
            RelabelAll(val.value.items).Ok? && Relabel(x) == Ok(JObj(Set(f, "VALUE", JArr(RelabelAll(val.value.items).value)))))
  {
  }

  /** Relabelling changes `TYPE` values only: the shape, the keys and every other value stay. */
  lemma {:induction false} RelabelOutline(x: Json)
    requires Relabel(x).Ok?
    ensures Outline(Relabel(x).value) == Outline(x)
    decreases JsonSize(x)
  {
    RelabelShape(x);
    var t' := Friendly(Item(x, "TYPE").value).value;
    var fields := Set(x.fields, "TYPE", t');
    TypeKeepsValue(x.fields, t');
    OutlineSet(x.fields, "TYPE", t');
    var val := Get(x.fields, "VALUE");
    if !Plain(val) {
      GetSmaller(x.fields, "VALUE");
      if val.value.JObj? {
        RelabelOutline(val.value);
        OutlineSet(fields, "VALUE", Relabel(val.value).value);
      } else {
        RelabelAllOutline(val.value.items);
        OutlineSet(fields, "VALUE", JArr(RelabelAll(val.value.items).value));
      }
    }
  }

  lemma {:induction false} RelabelAllOutline(items: seq<Json>)
    requires RelabelAll(items).Ok?
    ensures OutlineAll(RelabelAll(items).value) == OutlineAll(items)
    decreases ListSize(items)
  {
    if items != [] {
      RelabelOutline(items[0]);
      RelabelAllOutline(items[1..]);
      var r := RelabelAll(items).value;
      assert r[0] == Relabel(items[0]).value && r[1..] == RelabelAll(items[1..]).value;
    }
  }

  // ---------------------------------------------------------------------
  // Idempotence

  /** Assigning the value a key already holds changes nothing. */
  lemma {:induction false} SetSame(fields: seq<(string, Json)>, key: string, v: Json)
    requires Get(fields, key) == Some(v)
    ensures Set(fields, key, v) == fields
    decreases |fields|
  {
    if fields[0].0 != key {
      SetSame(fields[1..], key, v);
    }
  }

  /** A relabelled node is still a dict with a truthy `TYPE` when the original was. */
  lemma StillTyped(x: Json)
    requires x.JObj? && HasType(x.fields) && Relabel(x).Ok?
    ensures Relabel(x).value.JObj? && HasType(Relabel(x).value.fields)
    ensures Truthy(Relabel(x).value) == Truthy(x)
  {
    RelabelNode(x);
    FriendlyIdempotent(Get(x.fields, "TYPE").value);
    assert |Keys(Relabel(x).value.fields)| == |Keys(x.fields)|;
  }

  /** Applying the friendly names to their own output changes nothing. */
  lemma {:induction false} RelabelTwice(x: Json)
    requires Relabel(x).Ok?
    ensures Relabel(Relabel(x).value) == Relabel(x)
    decreases JsonSize(x)
  {
    RelabelNode(x);
    var val := Get(x.fields, "VALUE");
    if val.Some? && Truthy(val.value) && val.value.JObj? && HasType(val.value.fields) {
      GetSmaller(x.fields, "VALUE");
      RelabelTwice(val.value);
      TwiceInto(x);
    } else if val.Some? && Truthy(val.value) && val.value.JArr? && val.value.items[0].JObj?
      && HasType(val.value.items[0].fields) {
      GetSmaller(x.fields, "VALUE");
      RelabelAllTwice(val.value.items);
      TwiceIntoList(x);
    } else {
      TwiceLeaf(x);
    }
  }

  /** The renamed `TYPE` is already final, so a second pass keeps the node's own entry. */
  lemma TypeFixed(x: Json)
    requires Relabel(x).Ok?
    ensures var y := Relabel(x).value;
      y.JObj? && Item(y, "TYPE").Ok? && Friendly(Item(y, "TYPE").value) == Item(y, "TYPE")
      && Set(y.fields, "TYPE", Item(y, "TYPE").value) == y.fields
  {
    RelabelNode(x);
    var y := Relabel(x).value;
    FriendlyIdempotent(Get(x.fields, "TYPE").value);
    ItemSpec(y, "TYPE");
    SetSame(y.fields, "TYPE", Item(y, "TYPE").value);
  }

  /** Renaming `TYPE` leaves `VALUE` where it was. */
  lemma TypeKeepsValue(fields: seq<(string, Json)>, t: Json)
    ensures Get(Set(fields, "TYPE", t), "VALUE") == Get(fields, "VALUE")
  {
    SetGet(fields, "TYPE", t);
  }

  /** A `VALUE` that relabelling does not descend into. */
  predicate Plain(val: Option<Json>)
  {
    || val.None? || !Truthy(val.value)
    || (val.value.JObj? && !HasType(val.value.fields))
    || (val.value.JArr? && val.value.items[0].JObj? && !HasType(val.value.items[0].fields))
    || (!val.value.JObj? && !val.value.JArr?)
  }

  /** A node whose `VALUE` is not descended into only has its `TYPE` renamed. */
  lemma RelabelPlain(x: Json)
    requires x.JObj? && Item(x, "TYPE").Ok? && Friendly(Item(x, "TYPE").value).Ok?
    requires Plain(Get(x.fields, "VALUE"))
    ensures Relabel(x) == Ok(JObj(Set(x.fields, "TYPE", Friendly(Item(x, "TYPE").value).value)))
    ensures Get(Relabel(x).value.fields, "VALUE") == Get(x.fields, "VALUE")
  {
    TypeKeepsValue(x.fields, Friendly(Item(x, "TYPE").value).value);
  }

  lemma TwiceLeaf(x: Json)
    requires Relabel(x).Ok? && x.JObj?
    requires var val := Get(x.fields, "VALUE");
      !(val.Some? && Truthy(val.value) && val.value.JObj? && HasType(val.value.fields))
      && !(val.Some? && Truthy(val.value) && val.value.JArr? && val.value.items[0].JObj? && HasType(val.value.items[0].fields))
    ensures Relabel(Relabel(x).value) == Relabel(x)
  {
    TypeFixed(x);
    var y := Relabel(x).value;
    var t := Item(y, "TYPE").value;
    assert Plain(Get(x.fields, "VALUE"));
    RelabelPlain(x);
    RelabelPlain(y);
  }

  lemma TwiceInto(x: Json)
    requires Relabel(x).Ok? && x.JObj?
    requires var val := Get(x.fields, "VALUE");
      val.Some? && Truthy(val.value) && val.value.JObj? && HasType(val.value.fields)
      && Relabel(Relabel(val.value).value) == Relabel(val.value)
    ensures Relabel(Relabel(x).value) == Relabel(x)
  {
    TypeFixed(x);
    RelabelNode(x);
    var val := Get(x.fields, "VALUE");
    var fields := Set(x.fields, "TYPE", Item(Relabel(x).value, "TYPE").value);
    SetGet(x.fields, "TYPE", Item(Relabel(x).value, "TYPE").value);
    var c := Relabel(val.value).value;
    StillTyped(val.value);
    SetGet(fields, "VALUE", c);
    SetSame(Relabel(x).value.fields, "VALUE", c);
  }

  lemma TwiceIntoList(x: Json)
    requires Relabel(x).Ok? && x.JObj?
    requires var val := Get(x.fields, "VALUE");
      val.Some? && Truthy(val.value) && val.value.JArr? && val.value.items[0].JObj? && HasType(val.value.items[0].fields)
      && RelabelAll(RelabelAll(val.value.items).value) == RelabelAll(val.value.items)
    ensures Relabel(Relabel(x).value) == Relabel(x)
  {
    TypeFixed(x);
    RelabelNode(x);
    var items := Get(x.fields, "VALUE").value.items;
    var fields := Set(x.fields, "TYPE", Item(Relabel(x).value, "TYPE").value);
    SetGet(x.fields, "TYPE", Item(Relabel(x).value, "TYPE").value);
    var cs := RelabelAll(items).value;
    RelabelAllSpec(items);
    StillTyped(items[0]);
    SetGet(fields, "VALUE", JArr(cs));
    SetSame(Relabel(x).value.fields, "VALUE", JArr(cs));
  }

  lemma {:induction false} RelabelAllTwice(items: seq<Json>)
    requires RelabelAll(items).Ok?
    ensures RelabelAll(RelabelAll(items).value) == RelabelAll(items)
    decreases ListSize(items)
  {
    if items != [] {
      RelabelTwice(items[0]);
      RelabelAllTwice(items[1..]);
      var r := RelabelAll(items).value;
      assert r[0] == Relabel(items[0]).value && r[1..] == RelabelAll(items[1..]).value;
    }
  }
}
