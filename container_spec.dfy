/**
 * What the container serializers promise: a container's `VALUE` is its
 * walked children serialized in walk order without a cursor; the body and
 * table cells filter empty paragraphs; a table adds its caption and
 * description under the two ignore options; a related part is looked up
 * by its relation id.
 */
module ContainerSpec {
  import opened Runtime
  import opened Json
  import opened Xml
  import opened Kinds
  import opened Options
  import opened ElementBase
  import opened Walker
  import opened Serialize
  import FieldJson
  import DriverSpec

  // ---------------------------------------------------------------------
  // Children without a cursor

  /** A list comprehension of serializations: it succeeds exactly when every element does, and keeps the order. */
  lemma {:induction false} ElemsJsonSpec(env: Env, es: seq<Elem>)
    ensures ElemsJson(env, es).Ok? <==> forall i :: 0 <= i < |es| ==> ElemJson(env, es[i], None).Ok?
    ensures ElemsJson(env, es).Ok? ==>
      && |ElemsJson(env, es).value| == |es|
      && forall i :: 0 <= i < |es| ==> ElemsJson(env, es).value[i] == ElemJson(env, es[i], None).value.0
    decreases |es|
  {
    if es != [] {
      ElemsJsonSpec(env, es[1..]);
      assert forall i :: 1 <= i < |es| ==> es[i] == es[1..][i - 1];
    }
  }

  /**
   * `container.to_json`: the dict holds `TYPE`, the kind's name, and
   * `VALUE`, the children of the walk under that name serialized in walk
   * order; every other key is the element's own emitted property; and a
   * walk that raises makes the whole serialization raise.
   */
  lemma ContainerShape(env: Env, e: Elem)
    requires IsContainer(e.kind) && ContainerFields(env, e).Ok?
    ensures var w := Walk(env.built, e.node, TypeName(e.kind));
      var out := ContainerFields(env, e).value;
      && w.error.None? && ElemsJson(env, w.items).Ok?
      && Get(out, "TYPE") == Some(JStr(TypeName(e.kind)))
      && Get(out, "VALUE") == Some(JArr(ElemsJson(env, w.items).value))
      && PropsOf(e.node, PropNames(e.kind)).Ok?
      && ElJson(TypeName(e.kind), PropsOf(e.node, PropNames(e.kind)).value).Ok?
      && forall k :: k != "TYPE" && k != "VALUE" ==>
           Get(out, k) == Get(ElJson(TypeName(e.kind), PropsOf(e.node, PropNames(e.kind)).value).value, k)
  {
    var props := PropsOf(e.node, PropNames(e.kind)).value;
    var base := ElJson(TypeName(e.kind), props).value;
    var w := Walk(env.built, e.node, TypeName(e.kind));
    var vs := ElemsJson(env, w.items).value;
    var typed := Set(base, "TYPE", JStr(TypeName(e.kind)));
    SetGet(base, "TYPE", JStr(TypeName(e.kind)));
    SetGet(typed, "VALUE", JArr(vs));
  }

  /** A container kind with no properties of its own serializes to exactly `TYPE` and `VALUE`. */
  lemma BareContainerKeys(env: Env, e: Elem)
    requires IsContainer(e.kind) && PropNames(e.kind) == [] && ContainerFields(env, e).Ok?
    ensures Keys(ContainerFields(env, e).value) == ["TYPE", "VALUE"]
  {
    var props := PropsOf(e.node, []).value;
    PropsOfSpec(e.node, []);
    assert props == [];
    assert Emitted(props) == Ok([]);
    var base := ElJson(TypeName(e.kind), props).value;
    assert base == [("TYPE", JStr(TypeName(e.kind)))];
    var w := Walk(env.built, e.node, TypeName(e.kind));
    var vs := ElemsJson(env, w.items).value;
    var typed := Set(base, "TYPE", JStr(TypeName(e.kind)));
    assert typed == [("TYPE", JStr(TypeName(e.kind)))];
    assert Keys(typed) == ["TYPE"];
    assert Set(typed, "VALUE", JArr(vs)) == typed + [("VALUE", JArr(vs))];
  }

  /** A row (and the document and a custom XML block) is a plain container and never consumes a sibling. */
  lemma PlainContainer(env: Env, e: Elem, cur: Option<Cursor>)
    requires e.kind == Tr || e.kind == Document || e.kind == CustomXml
    requires cur.Some? ==> Inside(cur.value) && Size(e.node) < Size(cur.value.parent)
    requires Construct(e).None?
    ensures ElemJson(env, e, cur).Ok? <==> ContainerFields(env, e).Ok?
    ensures ElemJson(env, e, cur).Ok? ==> ElemJson(env, e, cur).value == (JObj(ContainerFields(env, e).value), 0)
  {
  }

  // ---------------------------------------------------------------------
  // Without greedy input

  /** With greedy input off, no serializer looks at its cursor. */
  lemma ElemUngreedy(env: Env, e: Elem, c: Cursor)
    requires !Flag(env.o, "greedy-text-input", true)
    requires Inside(c) && Size(e.node) < Size(c.parent)
    ensures ElemJson(env, e, Some(c)) == ElemJson(env, e, None)
  {
    if Construct(e).None? && IsPContent(e.kind) {
      var w := Walk(env.built, e.node, TypeName(e.kind));
      assert w.items + Pending(None) == w.items;
      DriverSpec.DriveUngreedy(env, None, [], w.items, w.error, Some(c));
    }
  }

  // ---------------------------------------------------------------------
  // The empty-paragraph filter of the body and the table cells

  /** An entry the filter drops: a paragraph whose `VALUE` is empty. */
  predicate Blank(j: Json)
  {
    TypeIs(j, "CT_P") && Item(j, "VALUE").Ok? && !Truthy(Item(j, "VALUE").value)
  }

  /**
   * The filter drops an entry exactly when it is a blank paragraph and
   * ignore-empty-paragraphs is on (off when absent); it keeps everything
   * else, a non-paragraph with an empty `VALUE` included; an entry without
   * `TYPE`, or a paragraph without `VALUE` under the option, is an error.
   */
  lemma KeptSpec(o: Options, j: Json)
    ensures Item(j, "TYPE").Err? ==> Kept(o, j) == Err(Item(j, "TYPE").error)
    ensures Kept(o, j).Ok? ==> (Kept(o, j).value == [] <==> Flag(o, "ignore-empty-paragraphs", false) && Blank(j))
    ensures Kept(o, j).Ok? && Kept(o, j).value != [] ==> Kept(o, j).value == [j]
    ensures Item(j, "TYPE").Ok? && !TypeIs(j, "CT_P") ==> Kept(o, j) == Ok([j])
    ensures Item(j, "TYPE").Ok? && !Flag(o, "ignore-empty-paragraphs", false) ==> Kept(o, j) == Ok([j])
  {
    ItemSpec(j, "TYPE");
    ItemSpec(j, "VALUE");
  }

  /** The filter over a whole list, entry by entry, the first error winning. */
  function KeptAll(o: Options, js: seq<Json>): Result<seq<Json>>
  {
    if js == [] then Ok([])
    else
      var kept :- Kept(o, js[0]);
      var rest :- KeptAll(o, js[1..]);
      Ok(kept + rest)
  }

  /** The entries that are not blank paragraphs, in order. */
  function NonBlank(js: seq<Json>): (r: seq<Json>)
    ensures |r| <= |js|
    ensures forall j :: j in r ==> j in js && !Blank(j)
  {
    if js == [] then []
    else if Blank(js[0]) then NonBlank(js[1..])
    else [js[0]] + NonBlank(js[1..])
  }

  /** With the option on, the filter keeps exactly the entries that are not blank paragraphs; with it off, everything. */
  lemma {:induction false} KeptAllSpec(o: Options, js: seq<Json>)
    requires KeptAll(o, js).Ok?
    ensures Flag(o, "ignore-empty-paragraphs", false) ==> KeptAll(o, js).value == NonBlank(js)
    ensures !Flag(o, "ignore-empty-paragraphs", false) ==> KeptAll(o, js).value == js
    decreases |js|
  {
    if js != [] {
      KeptSpec(o, js[0]);
      KeptAllSpec(o, js[1..]);
      assert js == [js[0]] + js[1..];
    }
  }

  /**
   * Without greedy input, the shared-cursor loop of the body and the
   * cells is the filter applied to the children serialized in walk order.
   */
  lemma {:induction false} ShareUngreedy(env: Env, p: Node, items: seq<Elem>, err: Option<Error>)
    requires !Flag(env.o, "greedy-text-input", true) && Below(items, Size(p))
    requires ShareLoop(env, p, items, err).Ok?
    ensures err.None? && ElemsJson(env, items).Ok?
    ensures ShareLoop(env, p, items, err) == KeptAll(env.o, ElemsJson(env, items).value)
    decreases |items|
  {
    if items != [] {
      ShareUngreedyHead(env, p, items, err);
      ShareUngreedy(env, p, items[1..], err);
      ElemsJsonCons(env, items);
      KeptAllCons(env.o, ElemJson(env, items[0], None).value.0, ElemsJson(env, items[1..]).value);
    }
  }

  /** Without greedy input, the first child consumes no sibling and its filtered entries lead the loop's. */
  lemma ShareUngreedyHead(env: Env, p: Node, items: seq<Elem>, err: Option<Error>)
    requires !Flag(env.o, "greedy-text-input", true) && Below(items, Size(p)) && items != []
    requires ShareLoop(env, p, items, err).Ok?
    ensures ElemJson(env, items[0], None).Ok?
    ensures var j := ElemJson(env, items[0], None).value.0;
      && Kept(env.o, j).Ok? && Below(items[1..], Size(p)) && ShareLoop(env, p, items[1..], err).Ok?
      && ShareLoop(env, p, items, err).value == Kept(env.o, j).value + ShareLoop(env, p, items[1..], err).value
  {
    assert items[0] in items;
    assert forall e :: e in items[1..] ==> e in items;
    var c := Cursor(p, items[1..], err);
    ElemUngreedy(env, items[0], c);
    ShareLoopHead(env, p, items, err);
    assert items[1 + 0..] == items[1..];
  }

  /** A loop that succeeds: the first child succeeds, and its filtered entries lead those of the loop over what it left. */
  lemma ShareLoopHead(env: Env, p: Node, items: seq<Elem>, err: Option<Error>)
    requires Below(items, Size(p)) && items != [] && ShareLoop(env, p, items, err).Ok?
    ensures Inside(Cursor(p, items[1..], err)) && Size(items[0].node) < Size(p)
    ensures var r := ElemJson(env, items[0], Some(Cursor(p, items[1..], err)));
      && r.Ok? && Kept(env.o, r.value.0).Ok? && Below(items[1 + r.value.1..], Size(p))
      && ShareLoop(env, p, items[1 + r.value.1..], err).Ok?
      && ShareLoop(env, p, items, err).value == Kept(env.o, r.value.0).value + ShareLoop(env, p, items[1 + r.value.1..], err).value
  {
    assert items[0] in items;
    assert forall e :: e in items[1..] ==> e in items;
    var r := ElemJson(env, items[0], Some(Cursor(p, items[1..], err)));
    assert forall e :: e in items[1 + r.value.1..] ==> e in items;
  }

  lemma KeptAllCons(o: Options, j: Json, js: seq<Json>)
    requires Kept(o, j).Ok? && KeptAll(o, js).Ok?
    ensures KeptAll(o, [j] + js) == Ok(Kept(o, j).value + KeptAll(o, js).value)
  {
    assert ([j] + js)[0] == j && ([j] + js)[1..] == js;
  }

  /** One step of the comprehension: the head's serialization, then the tail's. */
  lemma ElemsJsonCons(env: Env, es: seq<Elem>)
    requires es != []
    ensures ElemsJson(env, es).Ok? <==> ElemJson(env, es[0], None).Ok? && ElemsJson(env, es[1..]).Ok?
    ensures ElemsJson(env, es).Ok? ==> ElemsJson(env, es).value == [ElemJson(env, es[0], None).value.0] + ElemsJson(env, es[1..]).value
  {
  }

  // ---------------------------------------------------------------------
  // Tables

  /** A table without `tblPr` raises once its rows serialized. */
  lemma TableNeedsPr(env: Env, e: Elem)
    requires e.kind == Table && ContainerFields(env, e).Ok? && FirstChild(e.node, W_tblPr).None?
    ensures TableJson(env, e) == Err(TblPrMissing)
  {
  }

  /**
   * `tblCaption` is written exactly when a caption exists and its value is
   * truthy or ignore-empty-table-caption is off (on when absent), and then
   * holds that value; nothing else changes; a caption without a value raises.
   */
  lemma CaptionRule(o: Options, out: seq<(string, Json)>, cap: Option<Node>)
    requires "tblCaption" !in Keys(out)
    ensures cap.Some? && "val" !in cap.value.props ==> Captioned(o, out, cap) == Err(AttributeError("val"))
    ensures Captioned(o, out, cap).Ok? ==>
      var r := Captioned(o, out, cap).value;
      && (Get(r, "tblCaption").Some? <==>
            cap.Some? && (FieldJson.PropTruthy(cap.value.props["val"]) || !Flag(o, "ignore-empty-table-caption", true)))
      && (Get(r, "tblCaption").Some? ==> Get(r, "tblCaption") == Some(RawJson(cap.value.props["val"])))
      && (forall k :: k != "tblCaption" ==> Get(r, k) == Get(out, k))
  {
    GetSpec(out, "tblCaption");
    if cap.Some? && "val" in cap.value.props {
      SetGet(out, "tblCaption", RawJson(cap.value.props["val"]));
    }
  }

  /**
   * `tblDescription` follows the same rule under
   * ignore-empty-table-description, except that a missing value counts as
   * empty: with the option on it is skipped, with it off it raises.
   */
  lemma DescriptionRule(o: Options, out: seq<(string, Json)>, desc: Option<Node>)
    requires "tblDescription" !in Keys(out)
    ensures desc.Some? && "val" !in desc.value.props ==>
      Described(o, out, desc) == if Flag(o, "ignore-empty-table-description", true) then Ok(out) else Err(AttributeError("val"))
    ensures Described(o, out, desc).Ok? ==>
      var r := Described(o, out, desc).value;
      && (Get(r, "tblDescription").Some? <==>
            && desc.Some? && "val" in desc.value.props
            && (FieldJson.PropTruthy(desc.value.props["val"]) || !Flag(o, "ignore-empty-table-description", true)))
      && (Get(r, "tblDescription").Some? ==> Get(r, "tblDescription") == Some(RawJson(desc.value.props["val"])))
      && (forall k :: k != "tblDescription" ==> Get(r, k) == Get(out, k))
  {
    GetSpec(out, "tblDescription");
    if desc.Some? && "val" in desc.value.props {
      SetGet(out, "tblDescription", RawJson(desc.value.props["val"]));
    }
  }

  // ---------------------------------------------------------------------
  // Related parts

  /**
   * A sub-document, content part or alternate chunk serializes exactly when
   * its relation id is a string naming a related part, to `TYPE` (the
   * class name) and `VALUE` (that part's document).
   */
  lemma RelSpec(env: Env, e: Elem)
    requires e.kind == SubDoc || e.kind == ContentPart || e.kind == AltChunk
    ensures RelJson(env, e).Ok? <==> "rId" in e.node.props && e.node.props["rId"].PStr? && e.node.props["rId"].s in env.rels
    ensures RelJson(env, e).Ok? ==>
      RelJson(env, e).value == JObj([("TYPE", JStr(RelName(e.kind))), ("VALUE", env.rels[e.node.props["rId"].s])])
    ensures "rId" !in e.node.props ==> RelJson(env, e) == Err(AttributeError("rId"))
  {
  }
}
