/**
 * The element classes a dispatch table can name, and the class-level
 * attributes the serializers read from them: the JSON `TYPE` a class
 * writes, and the python-docx properties it snapshots on construction.
 */
module Kinds {
  import opened Xml

  /** One constructor per element class a registration can yield. */
  datatype Kind =
    | Document      // document (the root)
    | Body          // body
    | Paragraph     // paragraph
    | Hyperlink     // hyperlink
    | FldSimple     // fldSimple
    | CustomXml     // customXml
    | Table         // table
    | Tr            // tr
    | Tc            // tc
    | Text          // text
    | SymbolChar    // SymbolChar
    | SimpleText    // simpleTextElement
    | Empty         // empty
    | FldChar       // fldChar
    | SubDoc        // subDoc
    | ContentPart   // contentPart
    | AltChunk      // altChunk

  /** An element object: the class chosen by the dispatch table, over its XML fragment. */
  datatype Elem = Elem(kind: Kind, node: Node)

  /** Classes whose JSON is built by the paragraph-content driver. */
  predicate IsPContent(k: Kind)
  {
    k == Paragraph || k == Hyperlink || k == FldSimple
  }

  /** Container classes: they iterate their children through the dispatch table. */
  predicate IsContainer(k: Kind)
  {
    k in {Document, Body, Paragraph, Hyperlink, FldSimple, CustomXml, Table, Tr, Tc, SubDoc, ContentPart, AltChunk}
  }

  /** The class attribute `__type__` of a container class: its JSON `TYPE` and its iterator name. */
  function TypeName(k: Kind): string
    requires IsContainer(k)
  {
    match k
    case Document => "CT_Document"
    case Body => "CT_Body"
    case Paragraph => "CT_P"
    case Hyperlink => "CT_Hyperlink"
    case FldSimple => "CT_SimpleField"
    case CustomXml => "CT_CustomXmlRun"
    case Table => "CT_Tbl"
    case Tr => "CT_Row"
    case Tc => "CT_Tc"
    case SubDoc => "CT_Rel"
    case ContentPart => "CT_Rel"
    case AltChunk => "CT_AltChunk"
  }

  /** The class attribute `__props__`: accessors read from the fragment on construction. */
  function PropNames(k: Kind): seq<string>
  {
    match k
    case Hyperlink => ["anchor", "docLocatoin", "history", "id", "tgtFrame", "tooltip"]
    case FldSimple => ["instr", "fldLock", "dirty"]
    case CustomXml => ["element"]
    case FldChar => ["fldCharType", "fldLock", "dirty"]
    case _ => []
  }
}
