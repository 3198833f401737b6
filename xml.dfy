/**
 * The XML tree python-docx hands to the converter, reduced to what the
 * converter reads: an element's qualified tag, its attributes, its children
 * in document order, its text, and the typed properties python-docx's
 * element classes expose as Python attributes.
 */
module Xml {
  import opened Runtime

  /**
   * A value read through a python-docx attribute accessor (`getattr(x, name)`):
   * None, a plain Python value, a list, or one of the python-docx wrapper
   * classes (CT_String, CT_OnOff, CT_DecimalNumber, Twips); `Other` stands
   * for any other Python class, named by its class name.
   */
  datatype Prop =
    | PNone
    | PStr(s: string)
    | PBool(b: bool)
    | PInt(i: int)
    | PList(items: seq<Prop>)
    | CTString(sval: string)
    | CTOnOff(bval: bool)
    | CTDecimalNumber(ival: int)
    | Twips(twips: int)
    | Other(cls: string)

  /**
   * An lxml element.  `props` holds the accessors python-docx defines on
   * the element's class; a name missing from it is an AttributeError.
   */
  datatype Node = Node(
    tag: string,
    attrs: map<string, string>,
    children: seq<Node>,
    text: Option<string>,
    props: map<string, Prop>)

  /** The number of elements in the tree rooted at `n`. */
  function Size(n: Node): (r: nat)
    ensures r >= 1
    ensures forall i :: 0 <= i < |n.children| ==> Size(n.children[i]) < r
  {
    1 + SizeOfAll(n.children)
  }

  function SizeOfAll(ns: seq<Node>): (r: nat)
    ensures forall i :: 0 <= i < |ns| ==> Size(ns[i]) <= r
  {
    if ns == [] then 0 else Size(ns[0]) + SizeOfAll(ns[1..])
  }

  /** `x.find(tag)` / a python-docx `ZeroOrOne` child: the first child with that tag. */
  function FirstChild(n: Node, tag: string): (r: Option<Node>)
    ensures r.Some? ==> r.value in n.children && r.value.tag == tag
    ensures r.None? ==> forall i :: 0 <= i < |n.children| ==> n.children[i].tag != tag
  {
    FirstWithTag(n.children, tag)
  }

  function FirstWithTag(ns: seq<Node>, tag: string): (r: Option<Node>)
    ensures r.Some? ==> r.value in ns && r.value.tag == tag
    ensures r.None? ==> forall i :: 0 <= i < |ns| ==> ns[i].tag != tag
  {
    if ns == [] then None
    else if ns[0].tag == tag then Some(ns[0])
    else FirstWithTag(ns[1..], tag)
  }

  /** `getattr(x, name)`: the property, or an AttributeError. */
  function GetProp(n: Node, name: string): (r: Result<Prop>)
    ensures r.Ok? <==> name in n.props
    ensures r.Ok? ==> r.value == n.props[name]
    ensures r.Err? ==> r.error == AttributeError(name)
  {
    if name in n.props then Ok(n.props[name]) else Err(AttributeError(name))
  }

  // Namespace URIs (ECMA-376 Part 1) and the Clark-notation names `qn("w:...")` produces.

  /** `qn`: the Clark-notation name `{uri}local`. */
  function Qn(uri: string, local: string): (r: string)
    ensures |r| == |uri| + |local| + 2 && r[0] == '{' && r[|uri| + 1] == '}'
    ensures r[1..|uri| + 1] == uri && r[|uri| + 2..] == local
  {
    "{" + uri + "}" + local
  }

  /** The WordprocessingML main namespace, written in pieces so facts about its characters come cheap. */
  const W_NS := "http://schemas." + "openxmlformats.org/" + "wordprocessingml/" + "2006/main"
  const M_NS := "http://schemas.openxmlformats.org/officeDocument/2006/math"

  const W_bookmarkStart := Qn(W_NS, "bookmarkStart")
  const W_bookmarkEnd := Qn(W_NS, "bookmarkEnd")
  const W_commentRangeStart := Qn(W_NS, "commentRangeStart")
  const W_commentRangeEnd := Qn(W_NS, "commentRangeEnd")
  const W_moveToRangeStart := Qn(W_NS, "moveToRangeStart")
  const W_moveToRangeEnd := Qn(W_NS, "moveToRangeEnd")
  const W_customXmlInsRangeStart := Qn(W_NS, "customXmlInsRangeStart")
  const W_customXmlInsRangeEnd := Qn(W_NS, "customXmlInsRangeEnd")
  const W_customXmlDelRangeStart := Qn(W_NS, "customXmlDelRangeStart")
  const W_customXmlDelRangeEnd := Qn(W_NS, "customXmlDelRangeEnd")
  const W_customXmlMoveFromRangeStart := Qn(W_NS, "customXmlMoveFromRangeStart")
  const W_customXmlMoveFromRangeEnd := Qn(W_NS, "customXmlMoveFromRangeEnd")
  const W_customXmlMoveToRangeStart := Qn(W_NS, "customXmlMoveToRangeStart")
  const W_customXmlMoveToRangeEnd := Qn(W_NS, "customXmlMoveToRangeEnd")
  const W_moveFromRangeStart := Qn(W_NS, "moveFromRangeStart")
  const W_MoveFromRangeEnd := Qn(W_NS, "MoveFromRangeEnd")
  /** The `w:id` attribute as lxml keys it: namespaced attributes are stored in Clark notation. */
  const W_id := Qn(W_NS, "id")
  const W_ins := Qn(W_NS, "ins")
  const W_moveTo := Qn(W_NS, "moveTo")
  const W_proofErr := Qn(W_NS, "proofErr")
  const W_permStart := Qn(W_NS, "permStart")
  const W_permEnd := Qn(W_NS, "permEnd")
  const W_del := Qn(W_NS, "del")
  const W_moveFrom := Qn(W_NS, "moveFrom")
  const W_p := Qn(W_NS, "p")
  const W_tbl := Qn(W_NS, "tbl")
  const W_sdt := Qn(W_NS, "sdt")
  const W_altChunk := Qn(W_NS, "altChunk")
  const W_customXml := Qn(W_NS, "customXml")
  const W_sectPr := Qn(W_NS, "sectPr")
  const W_tcPr := Qn(W_NS, "tcPr")
  const W_pPr := Qn(W_NS, "pPr")
  const W_t := Qn(W_NS, "t")
  const W_sym := Qn(W_NS, "sym")
  const W_br := Qn(W_NS, "br")
  const W_cr := Qn(W_NS, "cr")
  const W_tab := Qn(W_NS, "tab")
  const W_noBreakHyphen := Qn(W_NS, "noBreakHyphen")
  const W_softHyphen := Qn(W_NS, "softHyphen")
  const W_ptab := Qn(W_NS, "ptab")
  const W_fldChar := Qn(W_NS, "fldChar")
  const W_instrText := Qn(W_NS, "instrText")
  const W_dayShort := Qn(W_NS, "dayShort")
  const W_monthShort := Qn(W_NS, "monthShort")
  const W_yearShort := Qn(W_NS, "yearShort")
  const W_dayLong := Qn(W_NS, "dayLong")
  const W_monthLong := Qn(W_NS, "monthLong")
  const W_yearLong := Qn(W_NS, "yearLong")
  const W_contentPart := Qn(W_NS, "contentPart")
  const W_annotationRef := Qn(W_NS, "annotationRef")
  const W_footnoteRef := Qn(W_NS, "footnoteRef")
  const W_endnoteRef := Qn(W_NS, "endnoteRef")
  const W_footnoteReference := Qn(W_NS, "footnoteReference")
  const W_endnoteReference := Qn(W_NS, "endnoteReference")
  const W_commentReference := Qn(W_NS, "commentReference")
  const W_object := Qn(W_NS, "object")
  const W_drawing := Qn(W_NS, "drawing")
  const W_rPr := Qn(W_NS, "rPr")
  const W_delText := Qn(W_NS, "delText")
  const W_delInstrText := Qn(W_NS, "delInstrText")
  const W_pgNum := Qn(W_NS, "pgNum")
  const W_separator := Qn(W_NS, "separator")
  const W_continuationSeparator := Qn(W_NS, "continuationSeparator")
  const W_ruby := Qn(W_NS, "ruby")
  const W_lastRenderedPageBreak := Qn(W_NS, "lastRenderedPageBreak")
  const W_customXmlPr := Qn(W_NS, "customXmlPr")
  const W_smartTagPr := Qn(W_NS, "smartTagPr")
  const W_tblPr := Qn(W_NS, "tblPr")
  const W_tblGrid := Qn(W_NS, "tblGrid")
  const W_tr := Qn(W_NS, "tr")
  const W_tblPrEx := Qn(W_NS, "tblPrEx")
  const W_trPr := Qn(W_NS, "trPr")
  const W_tc := Qn(W_NS, "tc")
  const W_body := Qn(W_NS, "body")
  const W_docPartPr := Qn(W_NS, "docPartPr")
  const W_subDoc := Qn(W_NS, "subDoc")
  const W_r := Qn(W_NS, "r")
  const W_fldSimple := Qn(W_NS, "fldSimple")
  const W_hyperlink := Qn(W_NS, "hyperlink")
  const W_smartTag := Qn(W_NS, "smartTag")
  const W_dir := Qn(W_NS, "dir")
  const W_bdo := Qn(W_NS, "bdo")
  const W_char := Qn(W_NS, "char")
  const W_font := Qn(W_NS, "font")
  const W_ffData := Qn(W_NS, "ffData")
  const W_checkBox := Qn(W_NS, "checkBox")
  const W_ddList := Qn(W_NS, "ddList")
  const W_textInput := Qn(W_NS, "textInput")
  const W_tblCaption := Qn(W_NS, "tblCaption")
  const W_tblDescription := Qn(W_NS, "tblDescription")
  const M_oMathPara := Qn(M_NS, "oMathPara")
  const M_oMath := Qn(M_NS, "oMath")
}
