/**
 * The option-driven registrations: the two paragraph-content groups whose
 * tables depend on the `flatten-*` options are registered (replacing any
 * earlier registration under the same name), and the registry is rebuilt.
 */
module SetOptions {
  import opened Runtime
  import opened Kinds
  import opened Xml
  import opened Options
  import opened Registry

  const PContentName := "EG_PContent"
  const ContentRunName := "EG_ContentRunContents"
  const TextDirectionMessage := "Ignoring text-direction tags"

  /**
   * The `EG_PContent` tables for the two flags: a flattened simple field or
   * hyperlink is descended into with `EG_PContent` itself, otherwise it is
   * yielded as its own element.
   */
  function PContentTables(flattenSimpleField: bool, flattenHyperlink: bool): Definition
  {
    var y := map[W_subDoc := SubDoc];
    var n := map[W_r := "CT_R"];
    var y1 := if flattenSimpleField then y else y[W_fldSimple := FldSimple];
    var n1 := if flattenSimpleField then n[W_fldSimple := PContentName] else n;
    var y2 := if flattenHyperlink then y1 else y1[W_hyperlink := Hyperlink];
    var n2 := if flattenHyperlink then n1[W_hyperlink := PContentName] else n1;
    Definition(y2, n2, [W_customXmlPr, W_smartTagPr], map[], map[], ["EG_RunLevelElts"])
  }

  /** What the `EG_PContent` tables hold for each setting of the two flags. */
  lemma PContentTablesEntries(flattenSimpleField: bool, flattenHyperlink: bool)
    ensures var r := PContentTables(flattenSimpleField, flattenHyperlink);
      && r.toYield.Keys == {W_subDoc} + (if flattenSimpleField then {} else {W_fldSimple})
           + (if flattenHyperlink then {} else {W_hyperlink})
      && r.toNest.Keys == {W_r} + (if flattenSimpleField then {W_fldSimple} else {})
           + (if flattenHyperlink then {W_hyperlink} else {})
      && r.toYield[W_subDoc] == SubDoc && r.toNest[W_r] == "CT_R"
      && (flattenSimpleField ==> r.toNest[W_fldSimple] == PContentName)
      && (!flattenSimpleField ==> r.toYield[W_fldSimple] == FldSimple)
      && (flattenHyperlink ==> r.toNest[W_hyperlink] == PContentName)
      && (!flattenHyperlink ==> r.toYield[W_hyperlink] == Hyperlink)
      && r.toIgnore == [W_customXmlPr, W_smartTagPr] && r.toWarn == map[] && r.toSkip == map[]
      && r.dependsOn == ["EG_RunLevelElts"]
  {
  }

  /** Each flag puts its tag in exactly one of the two tables. */
  lemma PContentFlagsExclusive(flattenSimpleField: bool, flattenHyperlink: bool)
    ensures var r := PContentTables(flattenSimpleField, flattenHyperlink);
            && (W_fldSimple in r.toNest <==> flattenSimpleField) && (W_fldSimple in r.toYield <==> !flattenSimpleField)
            && (W_hyperlink in r.toNest <==> flattenHyperlink) && (W_hyperlink in r.toYield <==> !flattenHyperlink)
  {
  }

  /**
   * The `EG_ContentRunContents` tables for the two flags: a flattened smart
   * tag or custom XML run is descended into with `EG_PContent`, otherwise it
   * is yielded (a smart tag as an empty element).
   */
  function ContentRunTables(flattenSmartTag: bool, flattenCustomXml: bool): Definition
  {
    var y := map[W_sdt := Empty];
    var n := map[W_r := "CT_R"];
    var y1 := if flattenSmartTag then y else y[W_smartTag := Empty];
    var n1 := if flattenSmartTag then n[W_smartTag := PContentName] else n;
    var y2 := if flattenCustomXml then y1 else y1[W_customXml := CustomXml];
    var n2 := if flattenCustomXml then n1[W_customXml := PContentName] else n1;
    Definition(y2, n2, [], map[W_dir := TextDirectionMessage, W_bdo := TextDirectionMessage], map[], ["EG_RunLevelElts"])
  }

  /** What the `EG_ContentRunContents` tables hold for each setting of the two flags. */
  lemma ContentRunTablesEntries(flattenSmartTag: bool, flattenCustomXml: bool)
    ensures var r := ContentRunTables(flattenSmartTag, flattenCustomXml);
      && r.toYield.Keys == {W_sdt} + (if flattenSmartTag then {} else {W_smartTag})
           + (if flattenCustomXml then {} else {W_customXml})
      && r.toNest.Keys == {W_r} + (if flattenSmartTag then {W_smartTag} else {})
           + (if flattenCustomXml then {W_customXml} else {})
      && r.toYield[W_sdt] == Empty && r.toNest[W_r] == "CT_R"
      && (flattenSmartTag ==> r.toNest[W_smartTag] == PContentName)
      && (!flattenSmartTag ==> r.toYield[W_smartTag] == Empty)
      && (flattenCustomXml ==> r.toNest[W_customXml] == PContentName)
      && (!flattenCustomXml ==> r.toYield[W_customXml] == CustomXml)
      && r.toWarn == map[W_dir := TextDirectionMessage, W_bdo := TextDirectionMessage]
      && r.toIgnore == [] && r.toSkip == map[] && r.dependsOn == ["EG_RunLevelElts"]
  {
  }

  lemma ContentRunFlagsExclusive(flattenSmartTag: bool, flattenCustomXml: bool)
    ensures var r := ContentRunTables(flattenSmartTag, flattenCustomXml);
            && (W_smartTag in r.toNest <==> flattenSmartTag) && (W_smartTag in r.toYield <==> !flattenSmartTag)
            && (W_customXml in r.toNest <==> flattenCustomXml) && (W_customXml in r.toYield <==> !flattenCustomXml)
  {
  }

  /** The first of two option keys that is missing. */
  function MissingKey(o: Options, first: string, second: string): string
  {
    if first !in o then first else second
  }

  /**
   * `__set_EG_PContents__`: reads the two flags by indexing (a missing key
   * raises before anything is registered) and registers the group without
   * the duplicate-name check.
   */
  method SetPContents(reg: Registry, o: Options) returns (r: Outcome)
    requires reg.Valid()
    modifies reg
    ensures reg.Valid() && reg.built == old(reg.built)
    ensures r.Fail? <==> "flatten-simpleField" !in o || "flatten-hyperlink" !in o
    ensures r.Fail? ==> r.error == KeyError(MissingKey(o, "flatten-simpleField", "flatten-hyperlink"))
                        && reg.definitions == old(reg.definitions) && reg.order == old(reg.order)
    ensures r.Pass? ==>
      reg.definitions == old(reg.definitions)[PContentName := PContentTables(o["flatten-simpleField"], o["flatten-hyperlink"])]
      && reg.order == (if PContentName in old(reg.definitions) then old(reg.order) else old(reg.order) + [PContentName])
  {
    var toYield := map[W_subDoc := SubDoc];
    var toNest := map[W_r := "CT_R"];
    var simpleField := Required(o, "flatten-simpleField");
    if simpleField.Err? {
      return Fail(simpleField.error);
    }
    if simpleField.value {
      toNest := toNest[W_fldSimple := PContentName];
    } else {
      toYield := toYield[W_fldSimple := FldSimple];
    }
    var hyperlink := Required(o, "flatten-hyperlink");
    if hyperlink.Err? {
      return Fail(hyperlink.error);
    }
    if hyperlink.value {
      toNest := toNest[W_hyperlink := PContentName];
    } else {
      toYield := toYield[W_hyperlink := Hyperlink];
    }
    r := reg.Register(PContentName, Definition(toYield, toNest, [W_customXmlPr, W_smartTagPr], map[], map[], ["EG_RunLevelElts"]), false);
  }

  /** `__set_EG_ContentRunContents__`, in the same way. */
  method SetContentRunContents(reg: Registry, o: Options) returns (r: Outcome)
    requires reg.Valid()
    modifies reg
    ensures reg.Valid() && reg.built == old(reg.built)
    ensures r.Fail? <==> "flatten-smartTag" !in o || "flatten-customXml" !in o
    ensures r.Fail? ==> r.error == KeyError(MissingKey(o, "flatten-smartTag", "flatten-customXml"))
                        && reg.definitions == old(reg.definitions) && reg.order == old(reg.order)
    ensures r.Pass? ==>
      reg.definitions == old(reg.definitions)[ContentRunName := ContentRunTables(o["flatten-smartTag"], o["flatten-customXml"])]
      && reg.order == (if ContentRunName in old(reg.definitions) then old(reg.order) else old(reg.order) + [ContentRunName])
  {
    var toYield := map[W_sdt := Empty];
    var toNest := map[W_r := "CT_R"];
    var smartTag := Required(o, "flatten-smartTag");
    if smartTag.Err? {
      return Fail(smartTag.error);
    }
    if smartTag.value {
      toNest := toNest[W_smartTag := PContentName];
    } else {
      toYield := toYield[W_smartTag := Empty];
    }
    var customXml := Required(o, "flatten-customXml");
    if customXml.Err? {
      return Fail(customXml.error);
    }
    if customXml.value {
      toNest := toNest[W_customXml := PContentName];
    } else {
      toYield := toYield[W_customXml := CustomXml];
    }
    r := reg.Register(ContentRunName, Definition(toYield, toNest, [],
      map[W_dir := TextDirectionMessage, W_bdo := TextDirectionMessage], map[], ["EG_RunLevelElts"]), false);
  }

  /** A group that extends `EG_RunLevelElts`, whatever its own tables. */
  const RunLevelExtension := NoHandlers.(dependsOn := ["EG_RunLevelElts"])

  /** The registry's `extends` structure once both groups are registered. */
  function WithGroups(defs: map<string, Definition>): map<string, Definition>
  {
    defs[PContentName := RunLevelExtension][ContentRunName := RunLevelExtension]
  }

  /** Two registries with the same names and the same `extends` lists. */
  ghost predicate SameDeps(a: map<string, Definition>, b: map<string, Definition>)
  {
    a.Keys == b.Keys && forall x :: x in a ==> a[x].dependsOn == b[x].dependsOn
  }

  /** Acyclicity only depends on the `extends` lists. */
  lemma RankedSameDeps(a: map<string, Definition>, b: map<string, Definition>, rank: map<string, nat>)
    requires SameDeps(a, b) && Ranked(a, rank)
    ensures Ranked(b, rank)
  {
    forall x, d | x in b && d in b[x].dependsOn && d in b
      ensures d in rank && rank[d] < rank[x]
    {
      assert x in a && a[x].dependsOn == b[x].dependsOn;
    }
  }

  /** Registering both groups, with any flags, keeps a ranked registry ranked. */
  lemma RankedWithTables(defs: map<string, Definition>, rank: map<string, nat>, a: bool, b: bool, c: bool, d: bool)
    requires Ranked(WithGroups(defs), rank)
    ensures Ranked(defs[PContentName := PContentTables(a, b)][ContentRunName := ContentRunTables(c, d)], rank)
  {
    var defs' := defs[PContentName := PContentTables(a, b)][ContentRunName := ContentRunTables(c, d)];
    assert PContentTables(a, b).dependsOn == ["EG_RunLevelElts"];
    assert ContentRunTables(c, d).dependsOn == ["EG_RunLevelElts"];
    assert SameDeps(WithGroups(defs), defs');
    RankedSameDeps(WithGroups(defs), defs', rank);
  }

  /**
   * `set_options`: registers both groups for the options, then builds the
   * registry.  `rank` witnesses that the `extends` relation, with both
   * groups registered, has no cycle.
   */
  method Apply(reg: Registry, o: Options, ghost rank: map<string, nat>) returns (r: Outcome)
    requires reg.Valid() && Ranked(WithGroups(reg.definitions), rank)
    modifies reg
    ensures reg.Valid()
    ensures "flatten-simpleField" !in o || "flatten-hyperlink" !in o ==>
      r == Fail(KeyError(MissingKey(o, "flatten-simpleField", "flatten-hyperlink")))
      && reg.definitions == old(reg.definitions) && reg.built == old(reg.built)
    ensures "flatten-simpleField" in o && "flatten-hyperlink" in o
            && ("flatten-smartTag" !in o || "flatten-customXml" !in o) ==>
      r == Fail(KeyError(MissingKey(o, "flatten-smartTag", "flatten-customXml")))
      && reg.definitions == old(reg.definitions)[PContentName := PContentTables(o["flatten-simpleField"], o["flatten-hyperlink"])]
      && reg.built == old(reg.built)
    ensures "flatten-simpleField" in o && "flatten-hyperlink" in o && "flatten-smartTag" in o && "flatten-customXml" in o ==>
      && reg.definitions == old(reg.definitions)
           [PContentName := PContentTables(o["flatten-simpleField"], o["flatten-hyperlink"])]
           [ContentRunName := ContentRunTables(o["flatten-smartTag"], o["flatten-customXml"])]
      && Ranked(reg.definitions, rank)
      && r == BuildOutcome(reg.definitions, rank, reg.order, 0)
      && (r.Pass? ==> (forall n :: n in reg.definitions ==> Resolve(reg.definitions, rank, n).Ok?)
                      && reg.built == old(reg.built) + AllResolved(reg.definitions, rank))
  {
    r := SetPContents(reg, o);
    if r.Fail? {
      return;
    }
    r := SetContentRunContents(reg, o);
    if r.Fail? {
      return;
    }
    RankedWithTables(old(reg.definitions), rank, o["flatten-simpleField"], o["flatten-hyperlink"],
                     o["flatten-smartTag"], o["flatten-customXml"]);
    r := reg.Build(rank);
  }
}
