/**
 * The element base class: the property snapshot taken on construction,
 * its serialization, and the unwrapping of python-docx property values.
 */
module ElementBase {
  import opened Runtime
  import opened Json
  import opened Xml
  import opened Kinds

  /** The Python class name of a property value, as an error message shows it. */
  function ClassName(p: Prop): string
  {
    match p
    case PNone => "NoneType"
    case PStr(_) => "str"
    case PBool(_) => "bool"
    case PInt(_) => "int"
    case PList(_) => "list"
    case CTString(_) => "CT_String"
    case CTOnOff(_) => "CT_OnOff"
    case CTDecimalNumber(_) => "CT_DecimalNumber"
    case Twips(_) => "Twips"
    case Other(cls) => cls
  }

  function UnexpectedValueType(p: Prop): Error
  {
    RuntimeError("Unexpected value type '" + ClassName(p) + "'")
  }

  /** The values `get_val` accepts: strings, booleans, the wrappers, and lists of these. */
  predicate Convertible(p: Prop)
  {
    match p
    case PStr(_) => true
    case PBool(_) => true
    case PList(items) => forall i :: 0 <= i < |items| ==> Convertible(items[i])
    case CTString(_) => true
    case CTOnOff(_) => true
    case CTDecimalNumber(_) => true
    case Twips(_) => true
    case _ => false
  }

  /**
   * `get_val`: plain strings and booleans pass through, lists are mapped
   * element by element, the wrappers are unwrapped to their `val` (or
   * `twips`), and anything else raises.
   */
  function GetVal(p: Prop): Result<Json>
  {
    match p
    case PStr(s) => Ok(JStr(s))
    case PBool(b) => Ok(JBool(b))
    case PList(items) =>
      var vs :- GetVals(items);
      Ok(JArr(vs))
    case CTString(s) => Ok(JStr(s))
    case CTOnOff(b) => Ok(JBool(b))
    case CTDecimalNumber(i) => Ok(JInt(i))
    case Twips(t) => Ok(JInt(t))
    case _ => Err(UnexpectedValueType(p))
  }

  /** `[get_val(elt) for elt in x]`: the first element that raises ends the comprehension. */
  function GetVals(items: seq<Prop>): Result<seq<Json>>
  {
    if items == [] then Ok([])
    else
      var v :- GetVal(items[0]);
      var vs :- GetVals(items[1..]);
      Ok([v] + vs)
  }

  /** The scalar a wrapper or plain value unwraps to, independently of `GetVal`. */
  function Unwrapped(p: Prop): Json
    requires Convertible(p) && !p.PList?
  {
    match p
    case PStr(s) => JStr(s)
    case PBool(b) => JBool(b)
    case CTString(s) => JStr(s)
    case CTOnOff(b) => JBool(b)
    case CTDecimalNumber(i) => JInt(i)
    case Twips(t) => JInt(t)
  }

  /**
   * `get_val` succeeds exactly on the convertible values; a scalar becomes
   * its unwrapped value, and a list keeps its length and converts each
   * element in place.
   */
  lemma {:induction false} GetValSpec(p: Prop)
    ensures GetVal(p).Ok? <==> Convertible(p)
    ensures Convertible(p) && !p.PList? ==> GetVal(p) == Ok(Unwrapped(p))
    ensures Convertible(p) && p.PList? ==>
      GetVal(p).value.JArr? && |GetVal(p).value.items| == |p.items|
      && forall i :: 0 <= i < |p.items| ==> GetVal(p.items[i]) == Ok(GetVal(p).value.items[i])
    ensures !Convertible(p) && !p.PList? ==> GetVal(p) == Err(UnexpectedValueType(p))
    decreases p, 1
  {
    if p.PList? {
      GetValsSpec(p.items);
    }
  }

  lemma {:induction false} GetValsSpec(items: seq<Prop>)
    ensures GetVals(items).Ok? <==> forall i :: 0 <= i < |items| ==> Convertible(items[i])
    ensures GetVals(items).Ok? ==>
      |GetVals(items).value| == |items|
      && forall i :: 0 <= i < |items| ==> GetVal(items[i]) == Ok(GetVals(items).value[i])
    decreases items, 0
  {
    if items != [] {
      GetValSpec(items[0]);
      GetValsSpec(items[1..]);
      assert forall i :: 1 <= i < |items| ==> items[i] == items[1..][i - 1];
    }
  }

  /** The position of the first name the node has no accessor for. */
  function FirstMissing(n: Node, names: seq<string>): (j: nat)
    requires exists i :: 0 <= i < |names| && names[i] !in n.props
    ensures j < |names| && names[j] !in n.props
    ensures forall i :: 0 <= i < j ==> names[i] in n.props
  {
    if names[0] !in n.props then 0
    else
      assert exists i :: 1 <= i < |names| && names[i] !in n.props;
      assert exists i :: 0 <= i < |names[1..]| && names[1..][i] !in n.props by {
        var i :| 1 <= i < |names| && names[i] !in n.props;
        assert names[1..][i - 1] == names[i];
      }
      1 + FirstMissing(n, names[1..])
  }

  /** The property snapshot as a value: each name with its accessor's result, the first missing accessor raising. */
  function PropsOf(n: Node, names: seq<string>): Result<seq<(string, Prop)>>
  {
    if names == [] then Ok([])
    else
      var p :- GetProp(n, names[0]);
      var rest :- PropsOf(n, names[1..]);
      Ok([(names[0], p)] + rest)
  }

  /**
   * The snapshot succeeds exactly when the node has every accessor; it then
   * pairs each name with its value in declaration order, and otherwise
   * raises AttributeError for the first missing name.
   */
  lemma {:induction false} PropsOfSpec(n: Node, names: seq<string>)
    ensures PropsOf(n, names).Ok? <==> forall i :: 0 <= i < |names| ==> names[i] in n.props
    ensures PropsOf(n, names).Ok? ==>
      |PropsOf(n, names).value| == |names|
      && forall i :: 0 <= i < |names| ==> PropsOf(n, names).value[i] == (names[i], n.props[names[i]])
    ensures PropsOf(n, names).Err? ==>
      exists i :: 0 <= i < |names| && names[i] !in n.props
                  && PropsOf(n, names).error == AttributeError(names[FirstMissing(n, names)])
  {
    if names != [] {
      PropsOfSpec(n, names[1..]);
      assert forall i :: 1 <= i < |names| ==> names[i] == names[1..][i - 1];
      if names[0] in n.props && PropsOf(n, names[1..]).Err? {
        assert FirstMissing(n, names) == 1 + FirstMissing(n, names[1..]);
      }
    }
  }

  /**
   * `el.__init__`: reads every declared property through its accessor, in
   * declaration order; a property the node has no accessor for raises
   * AttributeError at the first such name.
   */
  method Snapshot(n: Node, names: seq<string>) returns (r: Result<seq<(string, Prop)>>)
    ensures r == PropsOf(n, names)
  {
    var props: seq<(string, Prop)> := [];
    var i := 0;
    assert names[0..] == names;
    if PropsOf(n, names).Ok? {
      assert [] + PropsOf(n, names).value == PropsOf(n, names).value;
    }
    while i < |names|
      invariant 0 <= i <= |names|
      invariant PropsOf(n, names) == (var rest := PropsOf(n, names[i..]); if rest.Ok? then Ok(props + rest.value) else rest)
    {
      assert names[i..][0] == names[i] && names[i..][1..] == names[i + 1..];
      var p := GetProp(n, names[i]);
      if p.Err? {
        return Err(p.error);
      }
      var rest := PropsOf(n, names[i + 1..]);
      if rest.Ok? {
        assert props + ([(names[i], p.value)] + rest.value) == (props + [(names[i], p.value)]) + rest.value;
      }
      props := props + [(names[i], p.value)];
      i := i + 1;
    }
    assert names[i..] == [];
    assert props + [] == props;
    return Ok(props);
  }

  /** `props[name]` on a snapshot: the first value under `name`, or a KeyError. */
  function PropValue(props: seq<(string, Prop)>, name: string): Result<Prop>
  {
    if props == [] then Err(KeyError(name))
    else if props[0].0 == name then Ok(props[0].1)
    else PropValue(props[1..], name)
  }

  /** A snapshot taken over `names` answers every one of them with its accessor's value. */
  lemma {:induction false} PropValueOf(n: Node, names: seq<string>, k: nat)
    requires PropsOf(n, names).Ok? && k < |names|
    ensures PropValue(PropsOf(n, names).value, names[k]).Ok?
    ensures names[k] in n.props && PropValue(PropsOf(n, names).value, names[k]) == Ok(n.props[names[k]])
  {
    if k > 0 && names[0] != names[k] {
      assert names[1..][k - 1] == names[k];
      PropValueOf(n, names[1..], k - 1);
    }
  }

  /** The serialized properties: the non-None ones, each through `get_val`, in order. */
  function Emitted(props: seq<(string, Prop)>): Result<seq<(string, Json)>>
  {
    if props == [] then Ok([])
    else if props[0].1.PNone? then Emitted(props[1..])
    else
      var v :- GetVal(props[0].1);
      var rest :- Emitted(props[1..]);
      Ok([(props[0].0, v)] + rest)
  }

  /** The names of a snapshot are distinct and none is `TYPE`. */
  predicate WellNamed(props: seq<(string, Prop)>)
  {
    && (forall i, j :: 0 <= i < j < |props| ==> props[i].0 != props[j].0)
    && (forall i :: 0 <= i < |props| ==> props[i].0 != "TYPE")
  }

  /**
   * Serialization emits exactly the non-None properties, in snapshot order,
   * each converted; it fails exactly when some non-None property does not
   * convert.
   */
  lemma {:induction false} EmittedSpec(props: seq<(string, Prop)>)
    ensures Emitted(props).Ok? <==>
      forall i :: 0 <= i < |props| && !props[i].1.PNone? ==> GetVal(props[i].1).Ok?
    ensures Emitted(props).Ok? ==>
      (forall k :: k in Keys(Emitted(props).value) <==> exists i :: 0 <= i < |props| && props[i].0 == k && !props[i].1.PNone?)
      && (forall i :: 0 <= i < |props| && !props[i].1.PNone? ==> (props[i].0, GetVal(props[i].1).value) in Emitted(props).value)
      && |Emitted(props).value| <= |props|
  {
    if props != [] {
      EmittedSpec(props[1..]);
      assert forall i :: 1 <= i < |props| ==> props[i] == props[1..][i - 1];
    }
    if Emitted(props).Ok? {
      EmittedKeysSpec(props);
    }
  }

  /** The keys of the emitted entries are exactly the names whose value is not None. */
  lemma {:induction false} EmittedKeysSpec(props: seq<(string, Prop)>)
    requires Emitted(props).Ok?
    ensures forall k :: k in Keys(Emitted(props).value) <==> exists i :: 0 <= i < |props| && props[i].0 == k && !props[i].1.PNone?
  {
    if props != [] {
      var tail := props[1..];
      assert forall i :: 1 <= i < |props| ==> props[i] == tail[i - 1];
      EmittedKeysSpec(tail);
      if !props[0].1.PNone? {
        var r := Emitted(props).value;
        assert r == [(props[0].0, GetVal(props[0].1).value)] + Emitted(tail).value;
        assert Keys(r) == [props[0].0] + Keys(Emitted(tail).value);
        forall k ensures k in Keys(r) <==> exists i :: 0 <= i < |props| && props[i].0 == k && !props[i].1.PNone? {
          if k in Keys(Emitted(tail).value) {
            var i :| 0 <= i < |tail| && tail[i].0 == k && !tail[i].1.PNone?;
            assert props[i + 1].0 == k;
          }
        }
      }
    }
  }

  /**
   * `el.to_json`: `{"TYPE": ...}` followed by each non-None property under
   * its name, converted with `get_val`.
   */
  method ElToJson(typeName: string, props: seq<(string, Prop)>) returns (r: Result<seq<(string, Json)>>)
    requires WellNamed(props)
    ensures r == ElJson(typeName, props)
  {
    var out := [("TYPE", JStr(typeName))];
    var i := 0;
    while i < |props|
      invariant 0 <= i <= |props|
      invariant Emitted(props[..i]).Ok?
      invariant out == [("TYPE", JStr(typeName))] + Emitted(props[..i]).value
    {
      var key := props[i].0;
      var prop := props[i].1;
      assert props[..i + 1] == props[..i] + [props[i]];
      EmittedAppend(props[..i], [props[i]]);
      assert [props[i]][1..] == [];
      if !prop.PNone? {
        var v := GetVal(prop);
        if v.Err? {
          assert props == props[..i] + props[i..];
          EmittedAppend(props[..i], props[i..]);
          assert props[i..][0] == props[i];
          return Err(v.error);
        }
        EmittedKeys(props[..i]);
        assert key !in Keys(out);
        out := Set(out, key, v.value);
      }
      i := i + 1;
    }
    assert props[..i] == props;
    return Ok(out);
  }

  /** `el.to_json` as a value: the dict `{"TYPE": typeName}` followed by the emitted properties. */
  function ElJson(typeName: string, props: seq<(string, Prop)>): Result<seq<(string, Json)>>
  {
    var e :- Emitted(props);
    Ok([("TYPE", JStr(typeName))] + e)
  }

  /** Emitted names come from the snapshot. */
  lemma {:induction false} EmittedKeys(props: seq<(string, Prop)>)
    requires Emitted(props).Ok?
    ensures forall k :: k in Keys(Emitted(props).value) ==> exists i :: 0 <= i < |props| && props[i].0 == k
  {
    EmittedSpec(props);
  }

  /** Serializing a concatenation serializes each part, the first error winning. */
  lemma {:induction false} EmittedAppend(a: seq<(string, Prop)>, b: seq<(string, Prop)>)
    ensures Emitted(a).Err? ==> Emitted(a + b) == Emitted(a)
    ensures Emitted(a).Ok? && Emitted(b).Err? ==> Emitted(a + b) == Emitted(b)
    ensures Emitted(a).Ok? && Emitted(b).Ok? ==> Emitted(a + b) == Ok(Emitted(a).value + Emitted(b).value)
  {
    if a == [] {
      assert a + b == b;
      if Emitted(b).Ok? {
        assert Emitted(a).value + Emitted(b).value == Emitted(b).value;
      }
    } else {
      assert (a + b)[0] == a[0] && (a + b)[1..] == a[1..] + b;
      EmittedAppend(a[1..], b);
      if !a[0].1.PNone? && GetVal(a[0].1).Ok? && Emitted(a[1..]).Ok? && Emitted(b).Ok? {
        var x := (a[0].0, GetVal(a[0].1).value);
        assert Emitted(a).value == [x] + Emitted(a[1..]).value;
        assert Emitted(a + b).value == [x] + Emitted(a[1..] + b).value;
        assert [x] + (Emitted(a[1..]).value + Emitted(b).value) == ([x] + Emitted(a[1..]).value) + Emitted(b).value;
      }
    }
  }
  /** With distinct property names, the emitted names are distinct. */
  lemma {:induction false} EmittedUnique(props: seq<(string, Prop)>)
    requires forall i, j :: 0 <= i < j < |props| ==> props[i].0 != props[j].0
    requires Emitted(props).Ok?
    ensures Unique(Emitted(props).value)
  {
    if props != [] {
      assert forall i :: 1 <= i < |props| ==> props[i] == props[1..][i - 1];
      EmittedUnique(props[1..]);
      if !props[0].1.PNone? {
        var rest := Emitted(props[1..]).value;
        var r := Emitted(props).value;
        EmittedKeys(props[1..]);
        assert r == [(props[0].0, GetVal(props[0].1).value)] + rest;
        assert forall k :: 0 <= k < |props[1..]| ==> props[1..][k].0 != props[0].0;
        forall i, j | 0 <= i < j < |r| ensures r[i].0 != r[j].0 {
          assert r[j] == rest[j - 1];
          assert Keys(rest)[j - 1] == r[j].0;
          assert r[j].0 in Keys(rest);
          if i > 0 {
            assert r[i] == rest[i - 1];
          }
        }
      }
    }
  }

  /** `el.to_json` of a well-named snapshot is a dict with unique keys, and `TYPE` is its first key. */
  lemma ElJsonUnique(typeName: string, props: seq<(string, Prop)>)
    requires WellNamed(props) && ElJson(typeName, props).Ok?
    ensures Unique(ElJson(typeName, props).value)
    ensures Get(ElJson(typeName, props).value, "TYPE") == Some(JStr(typeName))
  {
    EmittedUnique(props);
    EmittedKeys(props);
    var e := Emitted(props).value;
    var r := ElJson(typeName, props).value;
    forall i, j | 0 <= i < j < |r| ensures r[i].0 != r[j].0 {
      assert r[j] == e[j - 1];
      assert Keys(e)[j - 1] == r[j].0;
      assert r[j].0 in Keys(e);
      if i > 0 {
        assert r[i] == e[i - 1];
      }
    }
  }
}
