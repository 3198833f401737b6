/**
 * The element serializers (`to_json` of every element class) as one family
 * of mutually recursive functions.
 *
 * A container walks its fragment through the dispatch tables and
 * serializes what the walk yields.  The body and table cells hand each
 * child a shared, peekable cursor over the rest of their walk; a
 * paragraph that ends inside an open field may consume the next paragraph
 * from it (greedy text input), and then reports how many siblings it
 * consumed.
 */
module Serialize {
  import opened Runtime
  import opened Json
  import opened Xml
  import opened Kinds
  import opened Options
  import opened ElementBase
  import opened Registry
  import opened Walker
  import opened RunContents
  import Merge
  import Form
  import FieldJson
  import ParagraphTrim

  /**
   * What every serializer reads besides its element: the options, the
   * resolved dispatch tables, and the JSON of the related parts a
   * sub-document, content part or alternate chunk points at (by relation id).
   * The `to_json` of the run-level classes (`leaf`) and of a field character
   * object (`field`) are carried here too: `DocumentJson` supplies `RunJson`
   * and `FieldJson.FieldToJson`, and the containers stay generic in them.
   */
  datatype Env = Env(
    o: Options, built: map<string, Definition>, rels: map<string, Json>,
    leaf: (Options, Elem) -> Result<Json>,
    field: (Options, Form.Field, Result<seq<Json>>, Result<seq<Json>>) -> Result<Json>)

  /** `to_json` of the text, symbol, special-character and empty elements (any other kind is not a leaf). */
  function RunJson(o: Options, e: Elem): Result<Json>
  {
    match e.kind
    case Text => TextToJson(o, e.node)
    case SymbolChar => Ok(SymbolToJson(o, e.node))
    case SimpleText =>
      var ty :- SpecialType(e.node);
      SpecialToJson(o, ty)
    case Empty => Ok(EmptyToJson(o, e.node))
    case _ => Err(TypeError("not a run-level element"))
  }

  /**
   * A peekable cursor over the rest of a parent's walk: the elements not yet
   * taken, and the error the walk raises after them, if any.
   */
  datatype Cursor = Cursor(parent: Node, rest: seq<Elem>, error: Option<Error>)

  /** An open field: the element's construction-time data and its state. */
  type Open = Option<(Form.Field, Form.FieldState)>

  // ---------------------------------------------------------------------
  // Sizes, for termination

  predicate Below(es: seq<Elem>, bound: nat)
  {
    forall e :: e in es ==> Size(e.node) < bound
  }

  predicate Inside(c: Cursor)
  {
    Below(c.rest, Size(c.parent))
  }

  /** One more than the largest element of `es`. */
  function MaxSize(es: seq<Elem>): (m: nat)
    ensures Below(es, m)
  {
    if es == [] then 0
    else
      var a := Size(es[0].node) + 1;
      var b := MaxSize(es[1..]);
      assert forall e :: e in es ==> e == es[0] || e in es[1..];
      if a < b then b else a
  }

  lemma {:induction false} MaxSizeBelow(es: seq<Elem>, b: nat)
    requires Below(es, b)
    ensures MaxSize(es) <= b
  {
    if es != [] {
      assert es[0] in es;
      assert forall e :: e in es[1..] ==> e in es;
      MaxSizeBelow(es[1..], b);
    }
  }

  /** How many siblings a cursor can still hand out. */
  function Avail(cur: Option<Cursor>): nat
  {
    if cur.Some? then |cur.value.rest| else 0
  }

  /** The elements an open field has collected. */
  function Pending(fld: Open): seq<Elem>
  {
    if fld.None? then [] else fld.value.1.codes + fld.value.1.results
  }

  /** What the driver's elements are smaller than: the cursor's parent, or else the largest of them. */
  function Bound(items: seq<Elem>, fld: Open, cur: Option<Cursor>): nat
  {
    if cur.Some? then Size(cur.value.parent) else MaxSize(items + Pending(fld))
  }

  predicate Ready(items: seq<Elem>, fld: Open, cur: Option<Cursor>)
  {
    cur.Some? ==> Inside(cur.value) && Below(items + Pending(fld), Size(cur.value.parent))
  }

  lemma BoundBelow(items: seq<Elem>, fld: Open, cur: Option<Cursor>)
    requires Ready(items, fld, cur)
    ensures Below(items + Pending(fld), Bound(items, fld, cur))
  {
  }

  /** One step of an open field keeps everything it holds among the elements it was given. */
  lemma UpdateBelow(items: seq<Elem>, fld: Open, st: Form.FieldState, b: nat)
    requires items != [] && fld.Some? && Below(items + Pending(fld), b)
    requires Form.UpdateSpec(fld.value.1, items[0]).Ok? && st == Form.UpdateSpec(fld.value.1, items[0]).value.0
    ensures Below(items[1..] + Pending(Some((fld.value.0, st))), b)
    ensures Below(st.codes, b) && Below(st.results, b)
  {
    var x := items[0];
    assert x in items + Pending(fld);
    forall e | e in items[1..] + Pending(Some((fld.value.0, st)))
      ensures Size(e.node) < b
    {
      if e in items[1..] {
        assert e in items + Pending(fld);
      } else if e != x {
        assert e in Pending(fld);
        assert e in items + Pending(fld);
      }
    }
  }

  /** Dropping the first element, or the pending field, keeps the rest below the bound. */
  lemma DropBelow(items: seq<Elem>, fld: Open, b: nat)
    requires items != [] && Below(items + Pending(fld), b)
    ensures Below(items[1..], b) && Below(items[1..] + [], b) && Size(items[0].node) < b
    ensures Below(items[1..] + Pending(fld), b)
  {
    assert items[0] in items + Pending(fld);
    assert forall e :: e in items[1..] ==> e in items + Pending(fld);
    assert forall e :: e in Pending(fld) ==> e in items + Pending(fld);
  }

  // ---------------------------------------------------------------------
  // Construction

  /**
   * `Class(fragment)`, run by the walker as it yields: the property snapshot,
   * and for a field character its classification, and for a special
   * character its kind name.  The error it raises, if any.
   */
  function Construct(x: Elem): Option<Error>
  {
    match x.kind
    case FldChar => (match Form.MakeField(x.node) case Err(e) => Some(e) case Ok(_) => None)
    case SimpleText => (match SpecialType(x.node) case Err(e) => Some(e) case Ok(_) => None)
    case _ => (match PropsOf(x.node, PropNames(x.kind)) case Err(e) => Some(e) case Ok(_) => None)
  }

  // ---------------------------------------------------------------------
  // Small pieces

  /** `list(v)` for the value a flattened field hands to `extend`. */
  function Iterated(v: Json): Result<seq<Json>>
  {
    match v
    case JArr(vs) => Ok(vs)
    case JStr(s) => Ok(seq(|s|, i requires 0 <= i < |s| => JStr([s[i]])))
    case JObj(fields) => Ok(seq(|fields|, i requires 0 <= i < |fields| => JStr(fields[i].0)))
    case JNull => Err(TypeError("'NoneType' object is not iterable"))
    case JBool(_) => Err(TypeError("'bool' object is not iterable"))
    case JInt(_) => Err(TypeError("'int' object is not iterable"))
    case JForeign(cls) => Err(TypeError("'" + cls + "' object is not iterable"))
  }

  /**
   * A completed field's JSON joins the bare contents: a generic field, when
   * flattening is on, contributes the entries of its `VALUE` (none when it
   * has no `VALUE`); any other field is appended whole.
   */
  function Spliced(o: Options, bare: seq<Json>, fj: Json): Result<seq<Json>>
  {
    if fj.JObj? && Get(fj.fields, "TYPE") == Some(JStr("generic-field")) && Flag(o, "flatten-generic-field", true) then
      match Get(fj.fields, "VALUE")
      case None => Ok(bare)
      case Some(v) =>
        var vs :- Iterated(v);
        Ok(bare + vs)
    else Ok(bare + [fj])
  }

  /** The empty-paragraph filter of the body and cell loops: the entry kept, or dropped. */
  function Kept(o: Options, j: Json): Result<seq<Json>>
  {
    var t :- Item(j, "TYPE");
    if t == JStr("CT_P") && Flag(o, "ignore-empty-paragraphs", false) then
      var v :- Item(j, "VALUE");
      if Truthy(v) then Ok([j]) else Ok([])
    else Ok([j])
  }

  /** A Python object stored into the output as it is. */
  function RawJson(p: Prop): Json
  {
    match p
    case PNone => JNull
    case PStr(s) => JStr(s)
    case PBool(b) => JBool(b)
    case PInt(i) => JInt(i)
    case PList(items) => JArr(seq(|items|, i requires 0 <= i < |items| => RawJson(items[i])))
    case _ => JForeign(ClassName(p))
  }

  /** The `__name__` a related-part element writes as its `TYPE`. */
  function RelName(k: Kind): string
    requires k == SubDoc || k == ContentPart || k == AltChunk
  {
    match k
    case SubDoc => "subDoc"
    case ContentPart => "contentPart"
    case AltChunk => "CT_Rel"
  }

  const TblPrMissing := InvalidXmlError("required ``<w:tblPr>`` child element not present")

  /** `tblCaption`: emitted unless its value is falsy and empty captions are ignored (the default). */
  function Captioned(o: Options, out: seq<(string, Json)>, cap: Option<Node>): Result<seq<(string, Json)>>
  {
    match cap
    case None => Ok(out)
    case Some(c) =>
      var v :- GetProp(c, "val");
      if !FieldJson.PropTruthy(v) && Flag(o, "ignore-empty-table-caption", true) then Ok(out)
      else Ok(Set(out, "tblCaption", RawJson(v)))
  }

  /** `tblDescription`: the same rule, except that a missing value counts as empty (`getattr(_desc, "val", None)`). */
  function Described(o: Options, out: seq<(string, Json)>, desc: Option<Node>): Result<seq<(string, Json)>>
  {
    match desc
    case None => Ok(out)
    case Some(d) =>
      var probe := if "val" in d.props then d.props["val"] else PNone;
      if !FieldJson.PropTruthy(probe) && Flag(o, "ignore-empty-table-description", true) then Ok(out)
      else
        var v :- GetProp(d, "val");
        Ok(Set(out, "tblDescription", RawJson(v)))
  }

  // ---------------------------------------------------------------------
  // The serializers

  /** A result without consumed siblings. */
  function Alone(r: Result<Json>): (p: Result<(Json, nat)>)
    ensures p.Ok? <==> r.Ok?
    ensures p.Ok? ==> p.value == (r.value, 0)
    ensures p.Err? ==> p.error == r.error
  {
    if r.Ok? then Ok((r.value, 0)) else Err(r.error)
  }

  /**
   * `elt.to_json(doc, options, super_iter)` for an element just pulled from
   * a walk: its JSON, and how many siblings it took from the cursor.
   */
  function ElemJson(env: Env, e: Elem, cur: Option<Cursor>): (r: Result<(Json, nat)>)
    requires cur.Some? ==> Inside(cur.value) && Size(e.node) < Size(cur.value.parent)
    ensures r.Ok? ==> r.value.1 <= Avail(cur)
    decreases if cur.Some? then Size(cur.value.parent) else Size(e.node), if cur.Some? then 3 else 6, 0, 0, 0
  {
    if Construct(e).Some? then Err(Construct(e).value)
    else match e.kind
      case Paragraph => PContentJson(env, e, cur)
      case Hyperlink => PContentJson(env, e, cur)
      case FldSimple => PContentJson(env, e, cur)
      case Text => Alone(env.leaf(env.o, e))
      case SymbolChar => Alone(env.leaf(env.o, e))
      case SimpleText => Alone(env.leaf(env.o, e))
      case Empty => Alone(env.leaf(env.o, e))
      case FldChar =>
        var f :- Form.MakeField(e.node);
        Alone(env.field(env.o, f, Ok([]), Ok([])))
      case Body => Alone(ShareJson(env, e))
      case Tc => Alone(ShareJson(env, e))
      case Table => Alone(TableJson(env, e))
      case SubDoc => Alone(RelJson(env, e))
      case ContentPart => Alone(RelJson(env, e))
      case AltChunk => Alone(RelJson(env, e))
      case Document =>
        var out :- ContainerFields(env, e);
        Ok((JObj(out), 0))
      case CustomXml =>
        var out :- ContainerFields(env, e);
        Ok((JObj(out), 0))
      case Tr =>
        var out :- ContainerFields(env, e);
        Ok((JObj(out), 0))
  }

  /** `[elt.to_json(doc, options) for elt in ...]`: no cursor, stopping at the first error. */
  function ElemsJson(env: Env, es: seq<Elem>): Result<seq<Json>>
    decreases MaxSize(es), 0, |es|, 0, 0
  {
    if es == [] then Ok([])
    else
      var pJ :- ElemJson(env, es[0], None);
      var j := pJ.0;
      var js :- ElemsJson(env, es[1..]);
      Ok([j] + js)
  }

  /**
   * `container.to_json`: the element's own properties, then `TYPE` and the
   * children of its walk as `VALUE`; the walk's error comes after them.
   */
  function ContainerFields(env: Env, e: Elem): Result<seq<(string, Json)>>
    requires IsContainer(e.kind)
    decreases Size(e.node), 4, 0, 0, 0
  {
    var props :- PropsOf(e.node, PropNames(e.kind));
    var out :- ElJson(TypeName(e.kind), props);
    var w := Walk(env.built, e.node, TypeName(e.kind));
    MaxSizeBelow(w.items, Size(e.node));
    var vs :- ElemsJson(env, w.items);
    if w.error.Some? then Err(w.error.value)
    else Ok(Set(Set(out, "TYPE", JStr(TypeName(e.kind))), "VALUE", JArr(vs)))
  }

  /** `body.to_json` and `tc.to_json`: the children through a shared cursor, with empty paragraphs filtered. */
  function ShareJson(env: Env, e: Elem): Result<Json>
    requires e.kind == Body || e.kind == Tc
    decreases Size(e.node), 5, 0, 0, 0
  {
    var w := Walk(env.built, e.node, TypeName(e.kind));
    var vs :- ShareLoop(env, e.node, w.items, w.error);
    Ok(JObj([("TYPE", JStr(TypeName(e.kind))), ("VALUE", JArr(vs))]))
  }

  /** The loop over the peekable cursor: each child sees the rest, and what it consumed is skipped. */
  function ShareLoop(env: Env, p: Node, items: seq<Elem>, err: Option<Error>): Result<seq<Json>>
    requires Below(items, Size(p))
    decreases Size(p), 4, |items|, 0, 0
  {
    if items == [] then
      if err.Some? then Err(err.value) else Ok([])
    else
      assert items[0] in items;
      assert forall e :: e in items[1..] ==> e in items;
      var (j, k) :- ElemJson(env, items[0], Some(Cursor(p, items[1..], err)));
      var kept :- Kept(env.o, j);
      assert forall e :: e in items[1 + k..] ==> e in items;
      var rest :- ShareLoop(env, p, items[1 + k..], err);
      Ok(kept + rest)
  }

  /** `table.to_json`: the container's JSON, then the caption and the description from `tblPr`. */
  function TableJson(env: Env, e: Elem): Result<Json>
    requires e.kind == Table
    decreases Size(e.node), 5, 0, 0, 0
  {
    var out :- ContainerFields(env, e);
    match FirstChild(e.node, W_tblPr)
    case None => Err(TblPrMissing)
    case Some(pr) =>
      var out1 :- Captioned(env.o, out, FirstChild(pr, W_tblCaption));
      var out2 :- Described(env.o, out1, FirstChild(pr, W_tblDescription));
      Ok(JObj(out2))
  }

  /** `CT_Rel.to_json`: the related part's document, named by the element's relation id. */
  function RelJson(env: Env, e: Elem): Result<Json>
    requires e.kind == SubDoc || e.kind == ContentPart || e.kind == AltChunk
  {
    var id :- GetProp(e.node, "rId");
    match id
    case PStr(key) =>
      if key in env.rels then Ok(JObj([("TYPE", JStr(RelName(e.kind))), ("VALUE", env.rels[key])]))
      else Err(KeyError(key))
    case _ => Err(KeyError(ClassName(id)))
  }

  /**
   * `EG_PContent.to_json` (and `paragraph.to_json` without its style): the
   * driver's bare contents, merged, and for a paragraph trimmed.
   */
  function PContentJson(env: Env, e: Elem, cur: Option<Cursor>): (r: Result<(Json, nat)>)
    requires IsPContent(e.kind)
    requires cur.Some? ==> Inside(cur.value) && Size(e.node) < Size(cur.value.parent)
    ensures r.Ok? ==> r.value.1 <= Avail(cur)
    decreases if cur.Some? then Size(cur.value.parent) else Size(e.node), 2, 0, 0, 0
  {
    var w := Walk(env.built, e.node, TypeName(e.kind));
    assert w.items + Pending(None) == w.items;
    MaxSizeBelow(w.items, Size(e.node));
    var pBare :- Drive(env, None, [], w.items, w.error, cur);
    Finished(env.o, e.kind, pBare.0, pBare.1)
  }

  /** The driver's bare contents merged, trimmed for a paragraph, and wrapped as `{TYPE, VALUE}`. */
  function Finished(o: Options, kind: Kind, bare: seq<Json>, k: nat): (r: Result<(Json, nat)>)
    requires IsPContent(kind)
    ensures r.Ok? ==> r.value.1 == k
  {
    var contents :- Merge.Merge(o, bare);
    var vs :- if kind == Paragraph then ParagraphTrim.Trimmed(o, contents) else Ok(contents);
    Ok((JObj([("TYPE", JStr(TypeName(kind))), ("VALUE", JArr(vs))]), k))
  }

  /**
   * The driver loop: `items` is what is left of the current run iterator and
   * `ierr` the error it raises after them; `fld` the open field.  The bare
   * contents, and how many siblings greedy bridging consumed.
   */
  function Drive(env: Env, fld: Open, bare: seq<Json>, items: seq<Elem>, ierr: Option<Error>, cur: Option<Cursor>)
    : (r: Result<(seq<Json>, nat)>)
    requires Ready(items, fld, cur)
    ensures r.Ok? ==> r.value.1 <= Avail(cur)
    decreases Bound(items, fld, cur), 1, Avail(cur), |items|, 1
  {
    if items == [] then RunEnded(env, fld, bare, ierr, cur)
    else DriveStep(env, fld, bare, items, ierr, cur)
  }

  /**
   * The run iterator is exhausted: its error, or the end of the contents
   * when no field is open; with a field open, greedy bridging takes the next
   * paragraph from the cursor, and every other way out drops the field.
   */
  function RunEnded(env: Env, fld: Open, bare: seq<Json>, ierr: Option<Error>, cur: Option<Cursor>)
    : (r: Result<(seq<Json>, nat)>)
    requires Ready([], fld, cur)
    ensures r.Ok? ==> r.value.1 <= Avail(cur)
    decreases Bound([], fld, cur), 1, Avail(cur), 0, 0
  {
    if ierr.Some? then Err(ierr.value)
    else if fld.None? || !Flag(env.o, "greedy-text-input", true) then Ok((bare, 0))
    else if cur.None? then Err(AttributeError("peek"))
    else if cur.value.rest == [] then
      if cur.value.error.Some? then Err(cur.value.error.value) else Ok((bare, 0))
    else
      var q := cur.value.rest[0];
      if Construct(q).Some? then Err(Construct(q).value)
      else if q.kind != Paragraph then Ok((bare, 0))
      else
        var w := Walk(env.built, q.node, "CT_P");
        var c := cur.value.(rest := cur.value.rest[1..]);
        assert q in cur.value.rest;
        assert forall e :: e in c.rest ==> e in cur.value.rest;
        assert forall e :: e in w.items + Pending(fld) ==> e in w.items || e in [] + Pending(fld);
        var pB :- Drive(env, fld, bare, w.items, w.error, Some(c));
        var b := pB.0;
        var k := pB.1;
        Ok((b, k + 1))
  }

  /**
   * One element from the run iterator: an open field takes it, and on
   * completion its JSON joins the contents; otherwise a field character
   * opens a field, and anything else is serialized and appended.
   */
  function DriveStep(env: Env, fld: Open, bare: seq<Json>, items: seq<Elem>, ierr: Option<Error>, cur: Option<Cursor>)
    : (r: Result<(seq<Json>, nat)>)
    requires items != [] && Ready(items, fld, cur)
    ensures r.Ok? ==> r.value.1 <= Avail(cur)
    decreases Bound(items, fld, cur), 1, Avail(cur), |items|, 0
  {
    var x := items[0];
    BoundBelow(items, fld, cur);
    var bound := Bound(items, fld, cur);
    DropBelow(items, fld, bound);
    if Construct(x).Some? then Err(Construct(x).value)
    else if fld.Some? then
      var pSt :- Form.UpdateSpec(fld.value.1, x);
      var st := pSt.0;
      var done := pSt.1;
      UpdateBelow(items, fld, st, bound);
      if done then
        MaxSizeBelow(st.results, bound);
        MaxSizeBelow(st.codes, bound);
        MaxSizeBelow(items[1..] + [], bound);
        var fj :- env.field(env.o, fld.value.0, ElemsJson(env, st.results), ElemsJson(env, st.codes));
        var bare' :- Spliced(env.o, bare, fj);
        Drive(env, None, bare', items[1..], ierr, cur)
      else
        MaxSizeBelow(items[1..] + Pending(Some((fld.value.0, st))), bound);
        Drive(env, Some((fld.value.0, st)), bare, items[1..], ierr, cur)
    else if x.kind == FldChar then
      var f :- Form.MakeField(x.node);
      assert items[1..] + Pending(Some((f, Form.Opened))) == items[1..] + [];
      MaxSizeBelow(items[1..] + [], bound);
      Drive(env, Some((f, Form.Opened)), bare, items[1..], ierr, cur)
    else
      var pJ :- ElemJson(env, x, None);
      var j := pJ.0;
      MaxSizeBelow(items[1..] + [], bound);
      Drive(env, None, bare + [j], items[1..], ierr, cur)
  }

  /** The whole document: the root element serialized without a cursor. */
  function DocumentJson(o: Options, built: map<string, Definition>, rels: map<string, Json>, root: Node): Result<Json>
  {
    var env := Env(o, built, rels, RunJson, FieldJson.FieldToJson);
    var pJ :- ElemJson(env, Elem(Document, root), None);
    var j := pJ.0;
    Ok(j)
  }
}
