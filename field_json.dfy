/**
 * `fldChar.to_json`: how a completed form field becomes JSON.  The field's
 * own properties come first (as for any element); the value is then
 * resolved by kind (checkbox, dropdown, text input, generic field) and
 * written either as text, in simplified form, or in full with the field
 * data, codes and results.
 *
 * The serialized field codes and results are inputs here: serializing an
 * arbitrary element belongs to the document serializer, which calls this.
 * They are passed as `Result`s and only unwrapped where the field reads
 * them, so an error from them surfaces exactly where it would in the field.
 */
module FieldJson {
  import opened Runtime
  import opened Json
  import opened Xml
  import opened Options
  import opened ElementBase
  import opened Merge
  import opened Form
  import Kinds

  // ---------------------------------------------------------------------
  // Values of wrapper elements

  /** `x.val`: the wrappers have one; any other object raises AttributeError. */
  function Val(p: Prop): Result<Json>
  {
    match p
    case CTString(s) => Ok(JStr(s))
    case CTOnOff(b) => Ok(JBool(b))
    case CTDecimalNumber(i) => Ok(JInt(i))
    case _ => Err(AttributeError("val"))
  }

  /** The values a formatted field value can be. */
  predicate Scalar(j: Json)
  {
    j.JNull? || j.JBool? || j.JInt? || j.JStr?
  }

  /** `.val` succeeds exactly on the three wrappers, and then agrees with `get_val`. */
  lemma ValSpec(p: Prop)
    ensures Val(p).Ok? <==> p.CTString? || p.CTOnOff? || p.CTDecimalNumber?
    ensures Val(p).Ok? ==> GetVal(p) == Val(p) && Scalar(Val(p).value)
    ensures Val(p).Err? ==> Val(p).error == AttributeError("val")
  {
  }

  /** Python's `str(x)` for the scalars an f-string formats here. */
  function PyStr(j: Json): string
    requires Scalar(j)
  {
    match j
    case JNull => "None"
    case JBool(b) => if b then "True" else "False"
    case JInt(i) => IntToString(i)
    case JStr(s) => s
  }

  /** `f"[{kind}:{value}]"`. */
  function AsText(kind: string, value: Json): string
    requires Scalar(value)
  {
    "[" + kind + ":" + PyStr(value) + "]"
  }

  /** `out.update({"TYPE": "CT_Text", "VALUE": text})`. */
  function AsTextOut(out: seq<(string, Json)>, text: string): seq<(string, Json)>
  {
    Set(Set(out, "TYPE", JStr("CT_Text")), "VALUE", JStr(text))
  }

  /** `props.get(name)` on a snapshot: the value, or None when the name is absent. */
  function PropGet(props: Snap, name: string): Prop
  {
    match PropValue(props, name)
    case Ok(p) => p
    case Err(_) => PNone
  }

  // ---------------------------------------------------------------------
  // `_update_from`

  /** `_update_from(x, y, attrs)`: each non-None property of `y` named in `attrs`, converted, is set on `x`. */
  function UpdatedFrom(x: seq<(string, Json)>, y: Snap, attrs: seq<string>): Result<seq<(string, Json)>>
    decreases |attrs|
  {
    if attrs == [] then Ok(x)
    else
      var v := PropGet(y, attrs[0]);
      if v.PNone? then UpdatedFrom(x, y, attrs[1..])
      else
        var j :- GetVal(v);
        UpdatedFrom(Set(x, attrs[0], j), y, attrs[1..])
  }

  /** The loop of `_update_from`, over a dict it updates in place. */
  method UpdateFrom(x: seq<(string, Json)>, y: Snap, attrs: seq<string>) returns (r: Result<seq<(string, Json)>>)
    ensures r == UpdatedFrom(x, y, attrs)
  {
    var out := x;
    var i := 0;
    while i < |attrs|
      invariant 0 <= i <= |attrs|
      invariant UpdatedFrom(x, y, attrs) == UpdatedFrom(out, y, attrs[i..])
    {
      SuffixStep(attrs, i);
      var v := PropGet(y, attrs[i]);
      if !v.PNone? {
        var j := GetVal(v);
        if j.Err? {
          return Err(j.error);
        }
        out := Set(out, attrs[i], j.value);
      }
      i := i + 1;
    }
    assert attrs[i..] == [];
    return Ok(out);
  }

  /** The names in `attrs` are pairwise distinct. */
  predicate Distinct(attrs: seq<string>)
  {
    forall i, j :: 0 <= i < j < |attrs| ==> attrs[i] != attrs[j]
  }

  /**
   * `_update_from` fails exactly when a named non-None property does not
   * convert; otherwise every named non-None property is set to its
   * converted value, a named None property leaves the key as it was, and
   * every other key keeps its value.
   */
  lemma {:induction false} UpdatedFromSpec(x: seq<(string, Json)>, y: Snap, attrs: seq<string>)
    requires Distinct(attrs)
    ensures UpdatedFrom(x, y, attrs).Ok? <==>
      forall i :: 0 <= i < |attrs| && !PropGet(y, attrs[i]).PNone? ==> GetVal(PropGet(y, attrs[i])).Ok?
    ensures UpdatedFrom(x, y, attrs).Ok? ==>
      && (forall k :: k !in attrs ==> Get(UpdatedFrom(x, y, attrs).value, k) == Get(x, k))
      && (forall i :: 0 <= i < |attrs| && PropGet(y, attrs[i]).PNone? ==>
            Get(UpdatedFrom(x, y, attrs).value, attrs[i]) == Get(x, attrs[i]))
      && (forall i :: 0 <= i < |attrs| && !PropGet(y, attrs[i]).PNone? ==>
            Get(UpdatedFrom(x, y, attrs).value, attrs[i]) == Some(GetVal(PropGet(y, attrs[i])).value))
    decreases |attrs|
  {
    if attrs != [] {
      var a := attrs[0];
      var v := PropGet(y, a);
      var rest := attrs[1..];
      assert Distinct(rest) by {
        forall i, j | 0 <= i < j < |rest| ensures rest[i] != rest[j] {
          assert rest[i] == attrs[i + 1] && rest[j] == attrs[j + 1];
        }
      }
      assert a !in rest by {
        forall i | 0 <= i < |rest| ensures rest[i] != a {
          assert rest[i] == attrs[i + 1];
        }
      }
      assert forall i :: 1 <= i < |attrs| ==> attrs[i] == rest[i - 1];
      var x' := if v.PNone? || GetVal(v).Err? then x else Set(x, a, GetVal(v).value);
      if !v.PNone? && GetVal(v).Ok? {
        SetGet(x, a, GetVal(v).value);
      }
      UpdatedFromSpec(x', y, rest);
    }
  }

  // ---------------------------------------------------------------------
  // Resolution by kind

  /** What a kind branch leaves: a finished dict, or the value for the full serialization. */
  datatype Resolved =
    | Finished(out: seq<(string, Json)>)
    | Unsimplified(value: Json, data: Option<FfData>)

  /** The checkbox value: `checked` when set, else `default` when use-checkbox-default, else None. */
  function CheckboxValue(o: Options, cb: Snap): Result<Json>
  {
    var checked :- PropValue(cb, "checked");
    var c :- if checked.PNone? && Flag(o, "use-checkbox-default", true) then PropValue(cb, "default") else Ok(checked);
    if c.PNone? then Ok(JNull) else Val(c)
  }

  lemma CheckboxValueScalar(o: Options, cb: Snap)
    ensures CheckboxValue(o, cb).Ok? ==> Scalar(CheckboxValue(o, cb).value)
  {
    var checked := PropValue(cb, "checked");
    if checked.Ok? {
      ValSpec(checked.value);
      var d := PropValue(cb, "default");
      if d.Ok? {
        ValSpec(d.value);
      }
    }
  }

  /** The Checkbox branch: as text first, then simplified, else on to the full form. */
  function CheckboxBranch(o: Options, out: seq<(string, Json)>, d: FfData, cb: Snap): Result<Resolved>
  {
    var value :- CheckboxValue(o, cb);
    CheckboxValueScalar(o, cb);
    if Flag(o, "checkbox-as-text", false) then
      Ok(Finished(AsTextOut(out, AsText("Checkbox", value))))
    else if Flag(o, "simplify-checkbox", true) then
      var o1 :- Del(out, "fldCharType");
      var o2 :- UpdatedFrom(Set(o1, "VALUE", value), cb, ["default"]);
      Ok(Finished(o2))
    else Ok(Unsimplified(value, Some(d)))
  }

  /** `_value.val = _value.val.strip()` for one entry. */
  function TrimEntry(p: Prop): Result<Prop>
  {
    match p
    case CTString(s) => Ok(CTString(Strip(s)))
    case CTOnOff(_) => Err(AttributeError("strip"))
    case CTDecimalNumber(_) => Err(AttributeError("strip"))
    case _ => Err(AttributeError("val"))
  }

  /** The entries after trimming, stopping at the first that raises. */
  function TrimAll(items: seq<Prop>): Result<seq<Prop>>
  {
    if items == [] then Ok([])
    else
      var t :- TrimEntry(items[0]);
      var ts :- TrimAll(items[1..]);
      Ok([t] + ts)
  }

  /** A trimming outcome with already trimmed entries put in front. */
  function Prepend(p: seq<Prop>, r: Result<seq<Prop>>): Result<seq<Prop>>
  {
    if r.Ok? then Ok(p + r.value) else r
  }

  /** Trimming one entry, then the rest. */
  lemma TrimAllStep(s: seq<Prop>, p: seq<Prop>)
    requires s != [] && TrimEntry(s[0]).Ok?
    ensures Prepend(p, TrimAll(s)) == Prepend(p + [TrimEntry(s[0]).value], TrimAll(s[1..]))
  {
    var t := TrimEntry(s[0]).value;
    var r := TrimAll(s[1..]);
    if r.Ok? {
      assert TrimAll(s) == Ok([t] + r.value);
      AppendAssoc(p, [t], r.value);
    } else {
      assert TrimAll(s) == r;
    }
  }

  /**
   * The dropdown trimming loop, in place: on success every entry is
   * trimmed, and an error is the one trimming the entries in order raises.
   */
  method TrimDropdownOptions(a: array<Prop>) returns (r: Outcome)
    modifies a
    ensures TrimAll(old(a[..])).Ok? ==> r == Pass && a[..] == TrimAll(old(a[..])).value
    ensures TrimAll(old(a[..])).Err? ==> r == Fail(TrimAll(old(a[..])).error)
  {
    var i := 0;
    assert a[0..] == a[..] && a[..0] == [];
    if TrimAll(a[..]).Ok? {
      AppendEmpty(TrimAll(a[..]).value);
    }
    while i < a.Length
      invariant 0 <= i <= a.Length
      invariant a[i..] == old(a[i..])
      invariant TrimAll(old(a[..])) == Prepend(a[..i], TrimAll(a[i..]))
    {
      var rest := a[i..];
      SuffixStep(a[..], i);
      assert rest[0] == a[i] && rest[1..] == a[i + 1..];
      var t := TrimEntry(a[i]);
      if t.Err? {
        return Fail(t.error);
      }
      ghost var prefix := a[..i];
      TrimAllStep(rest, prefix);
      a[i] := t.value;
      assert a[..i + 1] == prefix + [t.value];
      assert a[i + 1..] == old(a[i + 1..]) == rest[1..];
      i := i + 1;
    }
    assert a[..i] == a[..];
    assert a[i..] == [];
    AppendEmpty(a[..]);
    return Pass;
  }

  /**
   * Trimming succeeds exactly when every entry is a string wrapper, and
   * each entry is then its string stripped.
   */
  lemma {:induction false} TrimSpec(items: seq<Prop>)
    ensures TrimAll(items).Ok? <==> forall i :: 0 <= i < |items| ==> items[i].CTString?
    ensures TrimAll(items).Ok? ==>
      |TrimAll(items).value| == |items|
      && forall i :: 0 <= i < |items| ==> TrimAll(items).value[i] == CTString(Strip(items[i].sval))
  {
    if items != [] {
      TrimSpec(items[1..]);
      var e := TrimEntry(items[0]);
      var rest := TrimAll(items[1..]);
      forall i | 1 <= i < |items| ensures items[i] == items[1..][i - 1] {
      }
      if e.Ok? && rest.Ok? {
        var r := [e.value] + rest.value;
        assert TrimAll(items) == Ok(r);
        forall i | 0 <= i < |items| ensures r[i] == CTString(Strip(items[i].sval)) {
          if i > 0 {
            assert r[i] == rest.value[i - 1];
          }
        }
      }
    }
  }

  /** A failed trimming reports the error of the first entry that is not a string wrapper. */
  lemma {:induction false} TrimFails(items: seq<Prop>, k: nat)
    requires k < |items| && !items[k].CTString? && forall i :: 0 <= i < k ==> items[i].CTString?
    ensures TrimAll(items) == Err(TrimEntry(items[k]).error)
  {
    if k > 0 {
      assert items[1..][k - 1] == items[k];
      TrimFails(items[1..], k - 1);
    }
  }

  /** The entry list after the optional trimming; only a list can be iterated. */
  function TrimmedEntries(o: Options, lst: Prop): Result<Prop>
  {
    if !Flag(o, "trim-dropdown-options", true) then Ok(lst)
    else match lst
      case PList(items) =>
        var t :- TrimAll(items);
        Ok(PList(t))
      case _ => Err(TypeError("'" + ClassName(lst) + "' object is not iterable"))
  }

  /** Python truthiness of a property value. */
  predicate PropTruthy(p: Prop)
  {
    match p
    case PNone => false
    case PStr(s) => s != []
    case PBool(b) => b
    case PInt(i) => i != 0
    case PList(items) => items != []
    case _ => true
  }

  /** `x.__index__()` for a list index: integers, and booleans as 0 and 1. */
  function AsIndex(j: Json): Result<int>
  {
    match j
    case JInt(i) => Ok(i)
    case JBool(b) => Ok(if b then 1 else 0)
    case JStr(_) => Err(TypeError("list indices must be integers or slices, not str"))
    case JNull => Err(TypeError("list indices must be integers or slices, not NoneType"))
    case JArr(_) => Err(TypeError("list indices must be integers or slices, not list"))
    case JObj(_) => Err(TypeError("list indices must be integers or slices, not dict"))
    case JForeign(cls) => Err(TypeError("list indices must be integers or slices, not " + cls))
  }

  /** `_values[idx.val].val`, with Python's negative indices and no bounds check. */
  function EntryAt(items: seq<Prop>, idx: Prop): Result<Json>
  {
    var i :- Val(idx);
    var k :- AsIndex(i);
    var e :- PyIndex(items, k);
    Val(e)
  }

  /** The dropdown value: None for no entries, else the entry at `result`, else at `default`, else the first. */
  function DropDownValue(dd: Snap, lst: Prop): Result<Json>
  {
    if !PropTruthy(lst) then Ok(JNull)
    else if !lst.PList? then Err(TypeError("'" + ClassName(lst) + "' object is not subscriptable"))
    else
      var result :- PropValue(dd, "result");
      var default :- PropValue(dd, "default");
      if result.PNone? then
        if default.PNone? then Val(lst.items[0]) else EntryAt(lst.items, default)
      else EntryAt(lst.items, result)
  }

  lemma DropDownValueScalar(dd: Snap, lst: Prop)
    ensures DropDownValue(dd, lst).Ok? ==> Scalar(DropDownValue(dd, lst).value)
  {
    if PropTruthy(lst) && lst.PList? {
      ValSpec(lst.items[0]);
      var r := PropValue(dd, "result");
      var d := PropValue(dd, "default");
      forall idx: Prop | EntryAt(lst.items, idx).Ok? ensures Scalar(EntryAt(lst.items, idx).value) {
        ValSpec(idx);
        var k := AsIndex(Val(idx).value).value;
        ValSpec(PyIndex(lst.items, k).value);
      }
    }
  }

  /** `name`'s value in a snapshot replaced: the entries trimmed in place are seen through it. */
  function SetProp(props: Snap, name: string, v: Prop): Snap
  {
    if props == [] then []
    else if props[0].0 == name then [(name, v)] + props[1..]
    else [props[0]] + SetProp(props[1..], name, v)
  }

  /** The DropDown branch; the list entries are trimmed in place first, so the field data sees them trimmed. */
  function DropDownBranch(o: Options, out: seq<(string, Json)>, d: FfData, dd: Snap): Result<Resolved>
  {
    var lst0 :- PropValue(dd, "listEntry_lst");
    var lst :- TrimmedEntries(o, lst0);
    var dd' := SetProp(dd, "listEntry_lst", lst);
    var value :- DropDownValue(dd', lst);
    DropDownValueScalar(dd', lst);
    if Flag(o, "dropdown-as-text", false) then
      Ok(Finished(AsTextOut(out, AsText("DropDown", value))))
    else if Flag(o, "simplify-dropdown", true) then
      var o1 :- Del(out, "fldCharType");
      var o2 :- UpdatedFrom(Set(o1, "VALUE", value), dd', DdListProps);
      var (opts, o3) :- Pop(o2, "listEntry_lst");
      Ok(Finished(Set(o3, "options", opts)))
    else Ok(Unsimplified(value, Some(d.(ddList := Some(dd')))))
  }

  /** `contents[0]["VALUE"] if contents else ""`. */
  function FirstValue(contents: seq<Json>): Result<Json>
  {
    if contents == [] then Ok(JStr("")) else Item(contents[0], "VALUE")
  }

  /** The TextInput branch: its value comes from the merged field results. */
  function TextInputBranch(o: Options, out: seq<(string, Json)>, d: FfData, ti: Snap,
                           results: Result<seq<Json>>): Result<Resolved>
  {
    var rs :- results;
    var contents :- Merge.Merge(o, rs);
    var value :- if |contents| == 1 then Item(contents[0], "VALUE") else Ok(JArr(contents));
    if Flag(o, "textinput-as-text", false) then
      // `"[%s:%s]" % x` with a single non-tuple argument
      var _ :- FirstValue(contents);
      Err(TypeError("not enough arguments for format string"))
    else if Flag(o, "simplify-textinput", true) then
      var o1 :- Del(out, "fldCharType");
      var v :- FirstValue(contents);
      var o2 :- UpdatedFrom(Set(o1, "VALUE", v), ti, ["default"]);
      Ok(Finished(o2))
    else Ok(Unsimplified(value, Some(d)))
  }

  /** The generic-field branch: the merged results, flattened into the field or kept for the full form. */
  function GenericBranch(o: Options, out: seq<(string, Json)>, data: Option<FfData>,
                         results: Result<seq<Json>>): Result<Resolved>
  {
    var rs :- results;
    var value :- Merge.Merge(o, rs);
    if Flag(o, "flatten-generic-field", true) then
      var o1 :- Del(Set(out, "VALUE", JArr(value)), "fldCharType");
      Ok(Finished(o1))
    else Ok(Unsimplified(JArr(value), data))
  }

  /** One sub-element's JSON added under `key` when it is present. */
  function WithSub(out: seq<(string, Json)>, key: string, typeName: string, sub: Option<Snap>): Result<seq<(string, Json)>>
  {
    match sub
    case None => Ok(out)
    case Some(s) =>
      var j :- ElJson(typeName, s);
      Ok(Set(out, key, JObj(j)))
  }

  /** `ffData.to_json`: its own properties, then checkBox, ddList and textInput when present. */
  function FfDataJson(d: FfData): Result<Json>
  {
    var out :- ElJson("CT_FFData", d.props);
    var o1 :- WithSub(out, "checkBox", "CT_FFCheckBox", d.checkBox);
    var o2 :- WithSub(o1, "ddList", "CT_FFDDList", d.ddList);
    var o3 :- WithSub(o2, "textInput", "CT_FFTextInput", d.textInput);
    Ok(JObj(o3))
  }

  /** The full form: kind, value, field data, codes and merged results. */
  function FullJson(o: Options, out: seq<(string, Json)>, kind: FieldKind, value: Json, data: Option<FfData>,
                    results: Result<seq<Json>>, codes: Result<seq<Json>>): Result<Json>
  {
    var rs :- results;
    var contents :- Merge.Merge(o, rs);
    var cs :- codes;
    var fd :- if data.None? then Err(AttributeError("to_json")) else FfDataJson(data.value);
    Ok(JObj(Set(Set(Set(Set(Set(out, "TYPE", JStr(KindName(kind))), "VALUE", value), "ffData", fd),
                        "fieldCodes", JArr(cs)), "fieldResults", JArr(contents))))
  }

  /** `self.ffData.<name>.props`: an AttributeError when the field data or the sub-element is missing. */
  function Sub(f: Field, name: string): Result<(FfData, Snap)>
  {
    if f.ffData.None? then Err(AttributeError(name))
    else
      var d := f.ffData.value;
      var s := if name == "checkBox" then d.checkBox else if name == "ddList" then d.ddList else d.textInput;
      if s.None? then Err(AttributeError(name)) else Ok((d, s.value))
  }

  /** The branch the field's kind selects. */
  function Resolve(o: Options, f: Field, out: seq<(string, Json)>, results: Result<seq<Json>>): Result<Resolved>
  {
    match f.kind
    case Checkbox =>
      var (d, cb) :- Sub(f, "checkBox");
      CheckboxBranch(o, out, d, cb)
    case DropDown =>
      var (d, dd) :- Sub(f, "ddList");
      DropDownBranch(o, out, d, dd)
    case TextInput =>
      var (d, ti) :- Sub(f, "textInput");
      TextInputBranch(o, out, d, ti, results)
    case GenericField => GenericBranch(o, out, f.ffData, results)
  }

  /** `fldChar.to_json`, given the serialized field results and field codes. */
  function FieldToJson(o: Options, f: Field, results: Result<seq<Json>>, codes: Result<seq<Json>>): Result<Json>
  {
    var out :- ElJson(KindName(f.kind), f.props);
    var res :- Resolve(o, f, out, results);
    match res
    case Finished(r) => Ok(JObj(r))
    case Unsimplified(value, data) => FullJson(o, out, f.kind, value, data, results, codes)
  }

  // ---------------------------------------------------------------------
  // What the serialized field holds

  /**
   * One key after `_update_from`: the converted property when the key is
   * named and the property is set, else the value it had.
   */
  lemma {:induction false} UpdatedFromAt(x: seq<(string, Json)>, y: Snap, attrs: seq<string>, k: string)
    requires UpdatedFrom(x, y, attrs).Ok?
    ensures k in attrs && !PropGet(y, k).PNone? ==> GetVal(PropGet(y, k)).Ok?
    ensures Get(UpdatedFrom(x, y, attrs).value, k) ==
      if k in attrs && !PropGet(y, k).PNone? then Some(GetVal(PropGet(y, k)).value) else Get(x, k)
    decreases |attrs|
  {
    if attrs != [] {
      var a := attrs[0];
      var v := PropGet(y, a);
      assert k in attrs <==> k == a || k in attrs[1..];
      if v.PNone? {
        UpdatedFromAt(x, y, attrs[1..], k);
      } else {
        SetGet(x, a, GetVal(v).value);
        UpdatedFromAt(Set(x, a, GetVal(v).value), y, attrs[1..], k);
      }
    }
  }

  /** `_update_from` keeps the keys unique. */
  lemma {:induction false} UpdatedFromUnique(x: seq<(string, Json)>, y: Snap, attrs: seq<string>)
    requires Unique(x) && UpdatedFrom(x, y, attrs).Ok?
    ensures Unique(UpdatedFrom(x, y, attrs).value)
    decreases |attrs|
  {
    if attrs != [] {
      var v := PropGet(y, attrs[0]);
      if v.PNone? {
        UpdatedFromUnique(x, y, attrs[1..]);
      } else {
        SetUnique(x, attrs[0], GetVal(v).value);
        UpdatedFromUnique(Set(x, attrs[0], GetVal(v).value), y, attrs[1..]);
      }
    }
  }

  /** The keys a field's own dict can hold: `TYPE` and the three field-character properties. */
  const OwnKeys: seq<string> := ["TYPE", "fldCharType", "fldLock", "dirty"]

  /** A field's own dict: unique keys, the kind under `TYPE`, and no key outside `OwnKeys`. */
  predicate OwnShape(out: seq<(string, Json)>, kind: string)
  {
    && Unique(out)
    && Get(out, "TYPE") == Some(JStr(kind))
    && forall k :: k in Keys(out) ==> k in OwnKeys
  }

  /** The field's own dict (`el.to_json` over its snapshot) has that shape. */
  lemma OwnFacts(f: Field)
    requires Built(f) && ElJson(KindName(f.kind), f.props).Ok?
    ensures OwnShape(ElJson(KindName(f.kind), f.props).value, KindName(f.kind))
  {
    ElJsonUnique(KindName(f.kind), f.props);
    EmittedOwnKeys(f);
    var e := Emitted(f.props).value;
    var out := ElJson(KindName(f.kind), f.props).value;
    assert out == [("TYPE", JStr(KindName(f.kind)))] + e;
    forall k | k in Keys(out) ensures k in OwnKeys {
      var i :| 0 <= i < |Keys(out)| && Keys(out)[i] == k;
      if i > 0 {
        assert out[i] == e[i - 1];
        assert Keys(e)[i - 1] == k;
      }
    }
  }

  /** Every key a field emits from its snapshot is one of its own keys. */
  lemma EmittedOwnKeys(f: Field)
    requires Built(f) && Emitted(f.props).Ok?
    ensures forall k :: k in Keys(Emitted(f.props).value) ==> k in OwnKeys
  {
    EmittedKeys(f.props);
    forall k | k in Keys(Emitted(f.props).value) ensures k in OwnKeys {
      var m :| 0 <= m < |f.props| && f.props[m].0 == k;
      assert k in Kinds.PropNames(Kinds.FldChar);
    }
  }

  /** A field simplified to its value: no `fldCharType`, the value under `VALUE`, the kind under `TYPE`. */
  predicate SimplifiedAs(j: Json, kind: string, value: Json)
  {
    && j.JObj?
    && Unique(j.fields)
    && Get(j.fields, "TYPE") == Some(JStr(kind))
    && Get(j.fields, "fldCharType") == None
    && Get(j.fields, "VALUE") == Some(value)
  }

  /** The property `name` of `y` was copied over: converted when set, absent when None. */
  predicate CopiedFrom(fields: seq<(string, Json)>, y: Snap, name: string)
  {
    && (PropGet(y, name).PNone? ==> Get(fields, name) == None)
    && (!PropGet(y, name).PNone? ==>
          GetVal(PropGet(y, name)).Ok? && Get(fields, name) == Some(GetVal(PropGet(y, name)).value))
  }

  /** Dropping `fldCharType` from the own dict and setting `VALUE`: how every simplified form starts. */
  lemma SimplifyStart(out: seq<(string, Json)>, kind: string, value: Json, a: string)
    requires OwnShape(out, kind) && Del(out, "fldCharType").Ok?
    requires a !in OwnKeys && a != "VALUE"
    ensures var o1 := Set(Del(out, "fldCharType").value, "VALUE", value);
      && Unique(o1)
      && Get(o1, "TYPE") == Some(JStr(kind))
      && Get(o1, "fldCharType") == None
      && Get(o1, "VALUE") == Some(value)
      && Get(o1, a) == None
  {
    DelUnique(out, "fldCharType");
    var o0 := Del(out, "fldCharType").value;
    SetUnique(o0, "VALUE", value);
    SetGet(o0, "VALUE", value);
    StartAt(out, value, "TYPE");
    assert a != "fldCharType" by { assert OwnKeys[1] == "fldCharType"; }
    GetSpec(out, a);
    StartAt(out, value, a);
  }

  /** A key other than `VALUE` and `fldCharType` is untouched when a simplified form starts. */
  lemma StartAt(out: seq<(string, Json)>, value: Json, k: string)
    requires Del(out, "fldCharType").Ok? && k != "VALUE" && k != "fldCharType"
    ensures Get(Set(Del(out, "fldCharType").value, "VALUE", value), k) == Get(out, k)
  {
    SetGet(Del(out, "fldCharType").value, "VALUE", value);
  }

  /** `_update_from` with one name: that key copied over, the keys `ks` other than it kept, keys still unique. */
  lemma UpdatedFromOne(x: seq<(string, Json)>, y: Snap, a: string, ks: seq<string>)
    requires Unique(x) && UpdatedFrom(x, y, [a]).Ok?
    requires PropGet(y, a).PNone? ==> Get(x, a) == None
    ensures var r := UpdatedFrom(x, y, [a]).value;
      && Unique(r)
      && CopiedFrom(r, y, a)
      && forall i :: 0 <= i < |ks| && ks[i] != a ==> Get(r, ks[i]) == Get(x, ks[i])
  {
    assert [a][1..] == [];
    var v := PropGet(y, a);
    if !v.PNone? {
      SetUnique(x, a, GetVal(v).value);
      SetGet(x, a, GetVal(v).value);
    }
  }

  /** The simplified form with one property copied from a sub-element. */
  function SimplifiedWith(out: seq<(string, Json)>, value: Json, y: Snap, a: string): Result<seq<(string, Json)>>
  {
    var o1 :- Del(out, "fldCharType");
    UpdatedFrom(Set(o1, "VALUE", value), y, [a])
  }

  /**
   * Dropping `fldCharType` from the own dict, setting `VALUE` and copying
   * one sub-element property leaves a simplified field with that property.
   */
  lemma SimplifiedWithSpec(out: seq<(string, Json)>, kind: string, value: Json, y: Snap, a: string)
    requires OwnShape(out, kind) && a !in OwnKeys && a != "VALUE"
    requires SimplifiedWith(out, value, y, a).Ok?
    ensures SimplifiedAs(JObj(SimplifiedWith(out, value, y, a).value), kind, value)
    ensures CopiedFrom(SimplifiedWith(out, value, y, a).value, y, a)
  {
    SimplifyStart(out, kind, value, a);
    var o1 := Set(Del(out, "fldCharType").value, "VALUE", value);
    var ks := ["TYPE", "fldCharType", "VALUE"];
    UpdatedFromOne(o1, y, a, ks);
    assert ks[0] == "TYPE" && ks[1] == "fldCharType" && ks[2] == "VALUE";
  }

  /** The simplified Checkbox branch is that form, over the checkbox value and `default`. */
  lemma CheckboxBranchSimplified(o: Options, out: seq<(string, Json)>, d: FfData, cb: Snap)
    requires !Flag(o, "checkbox-as-text", false) && Flag(o, "simplify-checkbox", true)
    requires CheckboxBranch(o, out, d, cb).Ok?
    ensures CheckboxValue(o, cb).Ok?
    ensures SimplifiedWith(out, CheckboxValue(o, cb).value, cb, "default").Ok?
    ensures CheckboxBranch(o, out, d, cb) == Ok(Finished(SimplifiedWith(out, CheckboxValue(o, cb).value, cb, "default").value))
  {
  }

  /**
   * A simplified checkbox (as-text off, simplify-checkbox on) drops
   * `fldCharType`, holds the checkbox value under `VALUE`, and copies the
   * checkbox's `default` when it is set.
   */
  lemma CheckboxSimplified(o: Options, f: Field, results: Result<seq<Json>>, codes: Result<seq<Json>>)
    requires Built(f) && f.kind == Checkbox
    requires !Flag(o, "checkbox-as-text", false) && Flag(o, "simplify-checkbox", true)
    requires FieldToJson(o, f, results, codes).Ok?
    ensures var cb := f.ffData.value.checkBox.value;
      && CheckboxValue(o, cb).Ok?
      && SimplifiedAs(FieldToJson(o, f, results, codes).value, "Checkbox", CheckboxValue(o, cb).value)
      && CopiedFrom(FieldToJson(o, f, results, codes).value.fields, cb, "default")
  {
    var d := f.ffData.value;
    var cb := d.checkBox.value;
    assert Sub(f, "checkBox") == Ok((d, cb));
    var out := ElJson(KindName(f.kind), f.props).value;
    OwnFacts(f);
    CheckboxBranchSimplified(o, out, d, cb);
    SimplifiedWithSpec(out, "Checkbox", CheckboxValue(o, cb).value, cb, "default");
  }

  /**
   * The checkbox value read from the element: `checked` when it is set;
   * otherwise `default` when use-checkbox-default is on (as it is when
   * absent) and `default` is set; otherwise None.
   */
  lemma CheckboxValueOf(o: Options, x: Node)
    requires PropsOf(x, CheckBoxProps).Ok?
    ensures "checked" in x.props && "default" in x.props
    ensures var c := x.props["checked"];
      var d := x.props["default"];
      CheckboxValue(o, PropsOf(x, CheckBoxProps).value) ==
        if !c.PNone? then Val(c)
        else if Flag(o, "use-checkbox-default", true) && !d.PNone? then Val(d)
        else Ok(JNull)
  {
    PropValueOf(x, CheckBoxProps, 0);
    PropValueOf(x, CheckBoxProps, 1);
  }

  /** The as-text output: `TYPE` is CT_Text, `VALUE` the text, every other key as it was (`fldCharType` stays). */
  lemma AsTextOutSpec(out: seq<(string, Json)>, text: string)
    ensures Get(AsTextOut(out, text), "TYPE") == Some(JStr("CT_Text"))
    ensures Get(AsTextOut(out, text), "VALUE") == Some(JStr(text))
    ensures forall k :: k != "TYPE" && k != "VALUE" ==> Get(AsTextOut(out, text), k) == Get(out, k)
  {
    SetGet(out, "TYPE", JStr("CT_Text"));
    SetGet(Set(out, "TYPE", JStr("CT_Text")), "VALUE", JStr(text));
  }

  /**
   * A checkbox with checkbox-as-text on becomes CT_Text with the value
   * written as `[Checkbox:<value>]`, whatever simplify-checkbox says.
   */
  lemma CheckboxAsText(o: Options, f: Field, results: Result<seq<Json>>, codes: Result<seq<Json>>, b: bool)
    requires WellFormed(f) && f.kind == Checkbox && Flag(o, "checkbox-as-text", false)
    ensures FieldToJson(o, f, results, codes) == FieldToJson(o["simplify-checkbox" := b], f, results, codes)
    ensures FieldToJson(o, f, results, codes).Ok? ==>
      var v := CheckboxValue(o, f.ffData.value.checkBox.value);
      && v.Ok? && Scalar(v.value)
      && FieldToJson(o, f, results, codes).value.JObj?
      && Get(FieldToJson(o, f, results, codes).value.fields, "TYPE") == Some(JStr("CT_Text"))
      && Get(FieldToJson(o, f, results, codes).value.fields, "VALUE") == Some(JStr(AsText("Checkbox", v.value)))
  {
    var o' := o["simplify-checkbox" := b];
    assert Flag(o', "checkbox-as-text", false) == Flag(o, "checkbox-as-text", false);
    assert Flag(o', "use-checkbox-default", true) == Flag(o, "use-checkbox-default", true);
    var d := f.ffData.value;
    var cb := d.checkBox.value;
    assert Sub(f, "checkBox") == Ok((d, cb));
    assert CheckboxValue(o', cb) == CheckboxValue(o, cb);
    var out := ElJson(KindName(f.kind), f.props);
    if out.Ok? && CheckboxValue(o, cb).Ok? {
      CheckboxValueScalar(o, cb);
      AsTextOutSpec(out.value, AsText("Checkbox", CheckboxValue(o, cb).value));
    }
  }

  /** Replacing a snapshot value: `name` now reads `v` when it was present, every other name reads as before. */
  lemma {:induction false} SetPropSpec(props: Snap, name: string, v: Prop)
    ensures PropValue(SetProp(props, name, v), name) == if PropValue(props, name).Ok? then Ok(v) else PropValue(props, name)
    ensures forall k :: k != name ==> PropValue(SetProp(props, name, v), k) == PropValue(props, k)
  {
    if props != [] && props[0].0 != name {
      SetPropSpec(props[1..], name, v);
      var r := SetProp(props, name, v);
      assert r[0] == props[0] && r[1..] == SetProp(props[1..], name, v);
    }
  }

  /**
   * The dropdown value with a non-empty entry list: the entry at `result`
   * when set, else at `default` when set, else the first; an index counts
   * from the end when negative and raises IndexError outside the list.
   */
  lemma DropDownValueAt(dd: Snap, items: seq<Prop>, k: int)
    requires items != [] && PropValue(dd, "default").Ok? && PropValue(dd, "result").Ok?
    ensures PropValue(dd, "result") == Ok(CTDecimalNumber(k))
            || (PropValue(dd, "result") == Ok(PNone) && PropValue(dd, "default") == Ok(CTDecimalNumber(k))) ==>
      DropDownValue(dd, PList(items)) ==
        if 0 <= k < |items| then Val(items[k])
        else if -|items| <= k < 0 then Val(items[|items| + k])
        else Err(IndexError)
    ensures PropValue(dd, "result") == Ok(PNone) && PropValue(dd, "default") == Ok(PNone) ==>
      DropDownValue(dd, PList(items)) == Val(items[0])
  {
  }

  /** An empty entry list, or none at all, gives the value None. */
  lemma DropDownValueEmpty(dd: Snap)
    ensures DropDownValue(dd, PList([])) == Ok(JNull)
    ensures DropDownValue(dd, PNone) == Ok(JNull)
  {
  }

  /** The simplified DropDown dict: the three ddList names copied over, then the entry list moved to `options`. */
  function DropDownFinish(out: seq<(string, Json)>, value: Json, dd: Snap): Result<seq<(string, Json)>>
  {
    var o1 :- Del(out, "fldCharType");
    var o2 :- UpdatedFrom(Set(o1, "VALUE", value), dd, DdListProps);
    var (opts, o3) :- Pop(o2, "listEntry_lst");
    Ok(Set(o3, "options", opts))
  }

  /** After copying the ddList names: simplified, `default` and `result` copied, the entry list converted. */
  lemma DropDownUpdated(out: seq<(string, Json)>, kind: string, value: Json, dd: Snap)
    requires OwnShape(out, kind) && Del(out, "fldCharType").Ok?
    requires UpdatedFrom(Set(Del(out, "fldCharType").value, "VALUE", value), dd, DdListProps).Ok?
    ensures var o2 := UpdatedFrom(Set(Del(out, "fldCharType").value, "VALUE", value), dd, DdListProps).value;
      && SimplifiedAs(JObj(o2), kind, value)
      && CopiedFrom(o2, dd, "default")
      && CopiedFrom(o2, dd, "result")
      && CopiedFrom(o2, dd, "listEntry_lst")
  {
    SimplifyStart(out, kind, value, "default");
    SimplifyStart(out, kind, value, "result");
    SimplifyStart(out, kind, value, "listEntry_lst");
    DdCopied(Set(Del(out, "fldCharType").value, "VALUE", value), kind, value, dd);
  }

  /** Copying the ddList names onto a simplified dict that lacks them. */
  lemma DdCopied(o1: seq<(string, Json)>, kind: string, value: Json, dd: Snap)
    requires SimplifiedAs(JObj(o1), kind, value)
    requires Get(o1, "default") == None && Get(o1, "result") == None && Get(o1, "listEntry_lst") == None
    requires UpdatedFrom(o1, dd, DdListProps).Ok?
    ensures var o2 := UpdatedFrom(o1, dd, DdListProps).value;
      && SimplifiedAs(JObj(o2), kind, value)
      && CopiedFrom(o2, dd, "default")
      && CopiedFrom(o2, dd, "result")
      && CopiedFrom(o2, dd, "listEntry_lst")
  {
    assert DdListProps == ["default", "result", "listEntry_lst"];
    UpdatedFromAt(o1, dd, DdListProps, "TYPE");
    UpdatedFromAt(o1, dd, DdListProps, "fldCharType");
    UpdatedFromAt(o1, dd, DdListProps, "VALUE");
    UpdatedFromAt(o1, dd, DdListProps, "default");
    UpdatedFromAt(o1, dd, DdListProps, "result");
    UpdatedFromAt(o1, dd, DdListProps, "listEntry_lst");
    UpdatedFromUnique(o1, dd, DdListProps);
  }

  /** A key other than `options` and `listEntry_lst` is untouched by moving the entry list. */
  lemma MovedAt(o2: seq<(string, Json)>, opts: Json, k: string)
    requires Del(o2, "listEntry_lst").Ok? && k != "options" && k != "listEntry_lst"
    ensures Get(Set(Del(o2, "listEntry_lst").value, "options", opts), k) == Get(o2, k)
  {
    SetGet(Del(o2, "listEntry_lst").value, "options", opts);
  }

  /** Moving the entry list from `listEntry_lst` to `options` keeps a simplified dict simplified. */
  lemma OptionsMoved(o2: seq<(string, Json)>, kind: string, value: Json)
    requires SimplifiedAs(JObj(o2), kind, value) && Pop(o2, "listEntry_lst").Ok?
    ensures var (opts, o3) := Pop(o2, "listEntry_lst").value;
      var r := Set(o3, "options", opts);
      && SimplifiedAs(JObj(r), kind, value)
      && Get(r, "listEntry_lst") == None
      && Get(r, "options") == Get(o2, "listEntry_lst")
      && Get(r, "default") == Get(o2, "default")
      && Get(r, "result") == Get(o2, "result")
  {
    var (opts, o3) := Pop(o2, "listEntry_lst").value;
    DelUnique(o2, "listEntry_lst");
    assert Del(o2, "listEntry_lst") == Ok(o3);
    SetUnique(o3, "options", opts);
    SetGet(o3, "options", opts);
    MovedAt(o2, opts, "TYPE");
    MovedAt(o2, opts, "fldCharType");
    MovedAt(o2, opts, "VALUE");
    MovedAt(o2, opts, "default");
    MovedAt(o2, opts, "result");
  }

  /**
   * The simplified DropDown dict: simplified to `value`, `default` and
   * `result` copied, no `listEntry_lst`, and the converted entry list
   * under `options`.
   */
  lemma DropDownFinishSpec(out: seq<(string, Json)>, kind: string, value: Json, dd: Snap)
    requires OwnShape(out, kind) && DropDownFinish(out, value, dd).Ok?
    ensures var r := DropDownFinish(out, value, dd).value;
      && SimplifiedAs(JObj(r), kind, value)
      && CopiedFrom(r, dd, "default")
      && CopiedFrom(r, dd, "result")
      && Get(r, "listEntry_lst") == None
      && !PropGet(dd, "listEntry_lst").PNone?
      && GetVal(PropGet(dd, "listEntry_lst")).Ok?
      && Get(r, "options") == Some(GetVal(PropGet(dd, "listEntry_lst")).value)
  {
    DropDownUpdated(out, kind, value, dd);
    var o2 := UpdatedFrom(Set(Del(out, "fldCharType").value, "VALUE", value), dd, DdListProps).value;
    OptionsMoved(o2, kind, value);
  }

  /** The simplified DropDown branch is that dict, over the trimmed entries and the value they give. */
  lemma DropDownBranchSimplified(o: Options, out: seq<(string, Json)>, d: FfData, dd: Snap)
    requires !Flag(o, "dropdown-as-text", false) && Flag(o, "simplify-dropdown", true)
    requires DropDownBranch(o, out, d, dd).Ok?
    ensures PropValue(dd, "listEntry_lst").Ok? && TrimmedEntries(o, PropValue(dd, "listEntry_lst").value).Ok?
    ensures var lst := TrimmedEntries(o, PropValue(dd, "listEntry_lst").value).value;
      var dd' := SetProp(dd, "listEntry_lst", lst);
      && DropDownValue(dd', lst).Ok?
      && DropDownFinish(out, DropDownValue(dd', lst).value, dd').Ok?
      && DropDownBranch(o, out, d, dd) == Ok(Finished(DropDownFinish(out, DropDownValue(dd', lst).value, dd').value))
  {
  }

  /** Replacing one snapshot value leaves what another name reads unchanged. */
  lemma SetPropGet(props: Snap, name: string, v: Prop, k: string)
    requires k != name
    ensures PropGet(SetProp(props, name, v), k) == PropGet(props, k)
  {
    SetPropSpec(props, name, v);
  }

  /** Replacing a value that is present: the name now reads the new value. */
  lemma SetPropGetSame(props: Snap, name: string, v: Prop)
    requires PropValue(props, name).Ok?
    ensures PropGet(SetProp(props, name, v), name) == v
  {
    SetPropSpec(props, name, v);
  }

  /**
   * A simplified dropdown (as-text off, simplify-dropdown on) drops
   * `fldCharType` and `listEntry_lst`, holds the dropdown value under
   * `VALUE`, copies `default` and `result`, and lists the entries, trimmed
   * when trim-dropdown-options is on, under `options`.
   */
  lemma DropDownSimplified(o: Options, f: Field, results: Result<seq<Json>>, codes: Result<seq<Json>>)
    requires Built(f) && f.kind == DropDown
    requires !Flag(o, "dropdown-as-text", false) && Flag(o, "simplify-dropdown", true)
    requires FieldToJson(o, f, results, codes).Ok?
    ensures var dd := f.ffData.value.ddList.value;
      && PropValue(dd, "listEntry_lst").Ok?
      && TrimmedEntries(o, PropValue(dd, "listEntry_lst").value).Ok?
      && var lst := TrimmedEntries(o, PropValue(dd, "listEntry_lst").value).value;
      && var dd' := SetProp(dd, "listEntry_lst", lst);
      && var j := FieldToJson(o, f, results, codes).value;
      && DropDownValue(dd', lst).Ok?
      && SimplifiedAs(j, "DropDown", DropDownValue(dd', lst).value)
      && CopiedFrom(j.fields, dd, "default")
      && CopiedFrom(j.fields, dd, "result")
      && Get(j.fields, "listEntry_lst") == None
      && GetVal(lst).Ok?
      && Get(j.fields, "options") == Some(GetVal(lst).value)
  {
    var dd := f.ffData.value.ddList.value;
    var out := ElJson(KindName(f.kind), f.props).value;
    DropDownFieldFinished(o, f, results, codes);
    OwnFacts(f);
    var lst := TrimmedEntries(o, PropValue(dd, "listEntry_lst").value).value;
    var dd' := SetProp(dd, "listEntry_lst", lst);
    SetPropGetSame(dd, "listEntry_lst", lst);
    SetPropGet(dd, "listEntry_lst", lst, "default");
    SetPropGet(dd, "listEntry_lst", lst, "result");
    DropDownFinishSpec(out, "DropDown", DropDownValue(dd', lst).value, dd');
  }

  /** A simplified dropdown field is the dict its DropDown branch finishes with. */
  lemma DropDownFieldFinished(o: Options, f: Field, results: Result<seq<Json>>, codes: Result<seq<Json>>)
    requires Built(f) && f.kind == DropDown
    requires !Flag(o, "dropdown-as-text", false) && Flag(o, "simplify-dropdown", true)
    requires FieldToJson(o, f, results, codes).Ok?
    ensures var dd := f.ffData.value.ddList.value;
      && PropValue(dd, "listEntry_lst").Ok?
      && TrimmedEntries(o, PropValue(dd, "listEntry_lst").value).Ok?
      && var lst := TrimmedEntries(o, PropValue(dd, "listEntry_lst").value).value;
      && var dd' := SetProp(dd, "listEntry_lst", lst);
      && var out := ElJson(KindName(f.kind), f.props).value;
      && DropDownValue(dd', lst).Ok?
      && DropDownFinish(out, DropDownValue(dd', lst).value, dd').Ok?
      && FieldToJson(o, f, results, codes) == Ok(JObj(DropDownFinish(out, DropDownValue(dd', lst).value, dd').value))
  {
    var d := f.ffData.value;
    var dd := d.ddList.value;
    assert Sub(f, "ddList") == Ok((d, dd));
    var out := ElJson(KindName(f.kind), f.props).value;
    DropDownBranchSimplified(o, out, d, dd);
  }

  /** The value a dropdown shows, read from its ddList snapshot after the optional trimming. */
  function DropDownShown(o: Options, dd: Snap): Result<Json>
  {
    var lst0 :- PropValue(dd, "listEntry_lst");
    var lst :- TrimmedEntries(o, lst0);
    DropDownValue(SetProp(dd, "listEntry_lst", lst), lst)
  }

  /** A dropdown with dropdown-as-text on becomes CT_Text with `[DropDown:<value>]`, whatever simplify-dropdown says. */
  lemma DropDownAsText(o: Options, f: Field, results: Result<seq<Json>>, codes: Result<seq<Json>>, b: bool)
    requires WellFormed(f) && f.kind == DropDown && Flag(o, "dropdown-as-text", false)
    ensures FieldToJson(o, f, results, codes) == FieldToJson(o["simplify-dropdown" := b], f, results, codes)
    ensures FieldToJson(o, f, results, codes).Ok? ==>
      && FieldToJson(o, f, results, codes).value.JObj?
      && Get(FieldToJson(o, f, results, codes).value.fields, "TYPE") == Some(JStr("CT_Text"))
      && DropDownShown(o, f.ffData.value.ddList.value).Ok?
      && Get(FieldToJson(o, f, results, codes).value.fields, "VALUE") ==
           Some(JStr(AsText("DropDown", DropDownShown(o, f.ffData.value.ddList.value).value)))
  {
    var o' := o["simplify-dropdown" := b];
    assert Flag(o', "dropdown-as-text", false) == Flag(o, "dropdown-as-text", false);
    assert Flag(o', "trim-dropdown-options", true) == Flag(o, "trim-dropdown-options", true);
    var d := f.ffData.value;
    var dd := d.ddList.value;
    assert Sub(f, "ddList") == Ok((d, dd));
    var out := ElJson(KindName(f.kind), f.props);
    var lst0 := PropValue(dd, "listEntry_lst");
    if out.Ok? && lst0.Ok? {
      assert TrimmedEntries(o', lst0.value) == TrimmedEntries(o, lst0.value);
    }
    if FieldToJson(o, f, results, codes).Ok? {
      var lst := TrimmedEntries(o, lst0.value).value;
      var dd' := SetProp(dd, "listEntry_lst", lst);
      var v := DropDownValue(dd', lst).value;
      DropDownValueScalar(dd', lst);
      AsTextOutSpec(out.value, AsText("DropDown", v));
    }
  }

  /**
   * With a non-empty list of string entries, a `result` index outside the
   * list raises IndexError: the source has no bounds check.
   */
  lemma DropDownIndexError(o: Options, f: Field, results: Result<seq<Json>>, codes: Result<seq<Json>>,
                           items: seq<Prop>, k: int)
    requires WellFormed(f) && f.kind == DropDown && ElJson(KindName(f.kind), f.props).Ok?
    requires var dd := f.ffData.value.ddList.value;
      && PropValue(dd, "listEntry_lst") == Ok(PList(items))
      && items != [] && (forall i :: 0 <= i < |items| ==> items[i].CTString?)
      && PropValue(dd, "result") == Ok(CTDecimalNumber(k)) && PropValue(dd, "default").Ok?
    requires k < -|items| || |items| <= k
    ensures FieldToJson(o, f, results, codes) == Err(IndexError)
  {
    var d := f.ffData.value;
    var dd := d.ddList.value;
    assert Sub(f, "ddList") == Ok((d, dd));
    TrimSpec(items);
    var lst := TrimmedEntries(o, PList(items)).value;
    assert lst.PList? && |lst.items| == |items|;
    var dd' := SetProp(dd, "listEntry_lst", lst);
    SetPropSpec(dd, "listEntry_lst", lst);
    DropDownValueAt(dd', lst.items, k);
  }

  /**
   * textinput-as-text always raises: the text is formatted with one
   * argument where two are needed. When the kind's own steps succeed the
   * error is that TypeError.
   */
  lemma TextInputAsTextFails(o: Options, f: Field, results: Result<seq<Json>>, codes: Result<seq<Json>>)
    requires f.kind == TextInput && Flag(o, "textinput-as-text", false)
    ensures FieldToJson(o, f, results, codes).Err?
    ensures ElJson(KindName(f.kind), f.props).Ok? && Sub(f, "textInput").Ok? && results.Ok?
            && Merge.Merge(o, results.value).Ok?
            && (Merge.Merge(o, results.value).value == [] || Item(Merge.Merge(o, results.value).value[0], "VALUE").Ok?) ==>
      FieldToJson(o, f, results, codes) == Err(TypeError("not enough arguments for format string"))
  {
  }

  /** The simplified TextInput branch is the one-property form over the first result's value and `default`. */
  lemma TextInputBranchSimplified(o: Options, out: seq<(string, Json)>, d: FfData, ti: Snap, results: Result<seq<Json>>)
    requires !Flag(o, "textinput-as-text", false) && Flag(o, "simplify-textinput", true)
    requires TextInputBranch(o, out, d, ti, results).Ok?
    ensures results.Ok? && Merge.Merge(o, results.value).Ok? && FirstValue(Merge.Merge(o, results.value).value).Ok?
    ensures var v := FirstValue(Merge.Merge(o, results.value).value).value;
      && SimplifiedWith(out, v, ti, "default").Ok?
      && TextInputBranch(o, out, d, ti, results) == Ok(Finished(SimplifiedWith(out, v, ti, "default").value))
  {
  }

  /**
   * A simplified text input (as-text off, simplify-textinput on) drops
   * `fldCharType`, holds the first merged result's `VALUE` (the empty
   * string when there is none) under `VALUE`, and copies `default`.
   */
  lemma TextInputSimplified(o: Options, f: Field, results: Result<seq<Json>>, codes: Result<seq<Json>>)
    requires Built(f) && f.kind == TextInput
    requires !Flag(o, "textinput-as-text", false) && Flag(o, "simplify-textinput", true)
    requires FieldToJson(o, f, results, codes).Ok?
    ensures results.Ok? && Merge.Merge(o, results.value).Ok?
    ensures var cs := Merge.Merge(o, results.value).value;
      var ti := f.ffData.value.textInput.value;
      && FirstValue(cs).Ok?
      && SimplifiedAs(FieldToJson(o, f, results, codes).value, "TextInput", FirstValue(cs).value)
      && CopiedFrom(FieldToJson(o, f, results, codes).value.fields, ti, "default")
  {
    var d := f.ffData.value;
    var ti := d.textInput.value;
    assert Sub(f, "textInput") == Ok((d, ti));
    var out := ElJson(KindName(f.kind), f.props).value;
    OwnFacts(f);
    TextInputBranchSimplified(o, out, d, ti, results);
    var v := FirstValue(Merge.Merge(o, results.value).value).value;
    SimplifiedWithSpec(out, "TextInput", v, ti, "default");
  }

  /** A key other than `VALUE` and `fldCharType` is untouched when a generic field is flattened. */
  lemma FlattenAt(out: seq<(string, Json)>, v: Json, k: string)
    requires Del(Set(out, "VALUE", v), "fldCharType").Ok? && k != "fldCharType"
    ensures Get(Del(Set(out, "VALUE", v), "fldCharType").value, k) == if k == "VALUE" then Some(v) else Get(out, k)
  {
    SetGet(out, "VALUE", v);
  }

  /** Setting `VALUE` and then dropping `fldCharType` from the own dict gives a simplified field. */
  lemma FlattenSpec(out: seq<(string, Json)>, kind: string, v: Json)
    requires OwnShape(out, kind) && Del(Set(out, "VALUE", v), "fldCharType").Ok?
    ensures SimplifiedAs(JObj(Del(Set(out, "VALUE", v), "fldCharType").value), kind, v)
  {
    SetUnique(out, "VALUE", v);
    DelUnique(Set(out, "VALUE", v), "fldCharType");
    FlattenAt(out, v, "TYPE");
    FlattenAt(out, v, "VALUE");
  }

  /**
   * A generic field with flatten-generic-field on (as it is when absent)
   * drops `fldCharType` and holds its merged results under `VALUE`.
   */
  lemma GenericFlattened(o: Options, f: Field, results: Result<seq<Json>>, codes: Result<seq<Json>>)
    requires Built(f) && f.kind == GenericField && Flag(o, "flatten-generic-field", true)
    requires FieldToJson(o, f, results, codes).Ok?
    ensures results.Ok? && Merge.Merge(o, results.value).Ok?
    ensures SimplifiedAs(FieldToJson(o, f, results, codes).value, "generic-field", JArr(Merge.Merge(o, results.value).value))
  {
    var out := ElJson(KindName(f.kind), f.props).value;
    OwnFacts(f);
    FlattenSpec(out, "generic-field", JArr(Merge.Merge(o, results.value).value));
  }

  /** One key of the full form's five assignments, read back. */
  lemma FullAt(out: seq<(string, Json)>, t: Json, v: Json, fd: Json, c: Json, r: Json, k: string)
    ensures Get(Set(Set(Set(Set(Set(out, "TYPE", t), "VALUE", v), "ffData", fd), "fieldCodes", c), "fieldResults", r), k) ==
      if k == "fieldResults" then Some(r)
      else if k == "fieldCodes" then Some(c)
      else if k == "ffData" then Some(fd)
      else if k == "VALUE" then Some(v)
      else if k == "TYPE" then Some(t)
      else Get(out, k)
  {
    var o1 := Set(out, "TYPE", t);
    var o2 := Set(o1, "VALUE", v);
    var o3 := Set(o2, "ffData", fd);
    var o4 := Set(o3, "fieldCodes", c);
    SetGet(out, "TYPE", t);
    SetGet(o1, "VALUE", v);
    SetGet(o2, "ffData", fd);
    SetGet(o3, "fieldCodes", c);
    SetGet(o4, "fieldResults", r);
  }

  /**
   * The full form succeeds exactly when the results merge, the codes
   * serialize and the field data is present and serializes; without field
   * data it raises AttributeError on `to_json`. It holds the kind, the value,
   * the field data, the codes and the merged results.
   */
  lemma FullJsonSpec(o: Options, out: seq<(string, Json)>, kind: FieldKind, value: Json, data: Option<FfData>,
                     results: Result<seq<Json>>, codes: Result<seq<Json>>)
    ensures FullJson(o, out, kind, value, data, results, codes).Ok? <==>
      results.Ok? && Merge.Merge(o, results.value).Ok? && codes.Ok? && data.Some? && FfDataJson(data.value).Ok?
    ensures results.Ok? && Merge.Merge(o, results.value).Ok? && codes.Ok? && data.None? ==>
      FullJson(o, out, kind, value, data, results, codes) == Err(AttributeError("to_json"))
    ensures FullJson(o, out, kind, value, data, results, codes).Ok? ==>
      var j := FullJson(o, out, kind, value, data, results, codes).value;
      && j.JObj?
      && Get(j.fields, "TYPE") == Some(JStr(KindName(kind)))
      && Get(j.fields, "VALUE") == Some(value)
      && Get(j.fields, "ffData") == Some(FfDataJson(data.value).value)
      && Get(j.fields, "fieldCodes") == Some(JArr(codes.value))
      && Get(j.fields, "fieldResults") == Some(JArr(Merge.Merge(o, results.value).value))
  {
    if FullJson(o, out, kind, value, data, results, codes).Ok? {
      var t := JStr(KindName(kind));
      var fd := FfDataJson(data.value).value;
      var c := JArr(codes.value);
      var r := JArr(Merge.Merge(o, results.value).value);
      FullAt(out, t, value, fd, c, r, "TYPE");
      FullAt(out, t, value, fd, c, r, "VALUE");
      FullAt(out, t, value, fd, c, r, "ffData");
      FullAt(out, t, value, fd, c, r, "fieldCodes");
      FullAt(out, t, value, fd, c, r, "fieldResults");
    }
  }

  /**
   * A checkbox with both checkbox-as-text and simplify-checkbox off keeps
   * the full form: its value, the field data, the codes and the merged results.
   */
  lemma CheckboxFull(o: Options, f: Field, results: Result<seq<Json>>, codes: Result<seq<Json>>)
    requires WellFormed(f) && f.kind == Checkbox
    requires !Flag(o, "checkbox-as-text", false) && !Flag(o, "simplify-checkbox", true)
    requires FieldToJson(o, f, results, codes).Ok?
    ensures var d := f.ffData.value;
      && CheckboxValue(o, d.checkBox.value).Ok? && results.Ok? && Merge.Merge(o, results.value).Ok? && codes.Ok?
      && FfDataJson(d).Ok?
      && var j := FieldToJson(o, f, results, codes).value;
      && j.JObj?
      && Get(j.fields, "TYPE") == Some(JStr("Checkbox"))
      && Get(j.fields, "VALUE") == Some(CheckboxValue(o, d.checkBox.value).value)
      && Get(j.fields, "ffData") == Some(FfDataJson(d).value)
      && Get(j.fields, "fieldCodes") == Some(JArr(codes.value))
      && Get(j.fields, "fieldResults") == Some(JArr(Merge.Merge(o, results.value).value))
  {
    var d := f.ffData.value;
    var cb := d.checkBox.value;
    assert Sub(f, "checkBox") == Ok((d, cb));
    var out := ElJson(KindName(f.kind), f.props).value;
    FullJsonSpec(o, out, f.kind, CheckboxValue(o, cb).value, Some(d), results, codes);
  }

  /**
   * A generic field with flatten-generic-field off keeps the full form,
   * which needs the field data: without it the conversion raises
   * AttributeError on `to_json`.
   */
  lemma GenericFull(o: Options, f: Field, results: Result<seq<Json>>, codes: Result<seq<Json>>)
    requires f.kind == GenericField && !Flag(o, "flatten-generic-field", true)
    ensures f.ffData.None? && ElJson(KindName(f.kind), f.props).Ok? && results.Ok?
            && Merge.Merge(o, results.value).Ok? && codes.Ok? ==>
      FieldToJson(o, f, results, codes) == Err(AttributeError("to_json"))
    ensures FieldToJson(o, f, results, codes).Ok? ==>
      && f.ffData.Some? && FfDataJson(f.ffData.value).Ok?
      && results.Ok? && Merge.Merge(o, results.value).Ok? && codes.Ok?
      && var j := FieldToJson(o, f, results, codes).value;
      && j.JObj?
      && Get(j.fields, "TYPE") == Some(JStr("generic-field"))
      && Get(j.fields, "VALUE") == Some(JArr(Merge.Merge(o, results.value).value))
      && Get(j.fields, "ffData") == Some(FfDataJson(f.ffData.value).value)
      && Get(j.fields, "fieldCodes") == Some(JArr(codes.value))
  {
    var out := ElJson(KindName(f.kind), f.props);
    if out.Ok? && results.Ok? && Merge.Merge(o, results.value).Ok? {
      FullJsonSpec(o, out.value, f.kind, JArr(Merge.Merge(o, results.value).value), f.ffData, results, codes);
    }
  }
}
