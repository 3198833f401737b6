/**
 * The registrations made when the iterator package is imported: one
 * `register_iterator` call per dispatch table, module by module in the
 * package's import order (table, run, paragraph, body, document).
 *
 * The calls are kept as the source spells them, keyword by keyword, and a
 * binder maps keywords to `register_iterator`'s parameters.  The
 * registration modules spell the table keywords in lower case
 * (`tags_to_ignore=`) while the function declares them in upper case
 * (`TAGS_TO_IGNORE`); see `Bind`.
 */
module Iterators {
  import opened Runtime
  import opened Xml
  import opened Kinds
  import opened Registry

  /** A keyword argument's value. */
  datatype Arg =
    | YieldArg(yieldTable: map<string, Kind>)
    | NestArg(nests: map<string, string>)
    | NamesArg(names: seq<string>)
    | WarnArg(warns: map<string, string>)
    | SkipArg(skips: map<string, (string, string)>)

  /** A `register_iterator(name, keyword=value, ...)` call. */
  datatype Call = Call(name: string, kwargs: seq<(string, Arg)>)

  /** `register_iterator`'s keyword parameters, in declaration order. */
  const Params: seq<string> := ["TAGS_TO_YIELD", "TAGS_TO_NEST", "TAGS_TO_IGNORE", "TAGS_TO_WARN", "TAGS_TO_SKIP", "extends"]

  /** The spellings the registration modules use for the same parameters. */
  const LowerParams: seq<string> := ["tags_to_yield", "tags_to_nest", "tags_to_ignore", "tags_to_warn", "tags_to_skip", "extends"]

  /**
   * The parameter a keyword binds to, by position in `Params`.  As the
   * function is declared, only the exact parameter names bind; with
   * `aliases`, the lower-case spellings bind to the same parameters.
   */
  function ParamIndex(k: string, aliases: bool): (r: Option<nat>)
    ensures r.Some? ==> r.value < 6
    ensures k in Params ==> r.Some? && Params[r.value] == k
    ensures r.Some? ==> Params[r.value] == k || (aliases && LowerParams[r.value] == k)
    ensures !aliases ==> ((r.Some? <==> k in Params))
  {
    if k == "TAGS_TO_YIELD" || (aliases && k == "tags_to_yield") then Some(0)
    else if k == "TAGS_TO_NEST" || (aliases && k == "tags_to_nest") then Some(1)
    else if k == "TAGS_TO_IGNORE" || (aliases && k == "tags_to_ignore") then Some(2)
    else if k == "TAGS_TO_WARN" || (aliases && k == "tags_to_warn") then Some(3)
    else if k == "TAGS_TO_SKIP" || (aliases && k == "tags_to_skip") then Some(4)
    else if k == "extends" then Some(5)
    else None
  }

  /** Storing one argument in its parameter's table. */
  function Put(d: Definition, i: nat, v: Arg): Definition
  {
    match v
    case YieldArg(y) => if i == 0 then d.(toYield := y) else d
    case NestArg(n) => if i == 1 then d.(toNest := n) else d
    case NamesArg(l) =>
      if i == 2 then d.(toIgnore := l) else if i == 5 then d.(dependsOn := l) else d
    case WarnArg(w) => if i == 3 then d.(toWarn := w) else d
    case SkipArg(s) => if i == 4 then d.(toSkip := s) else d
  }

  function UnexpectedKeyword(k: string): Error
  {
    TypeError("register_iterator() got an unexpected keyword argument '" + k + "'")
  }

  /**
   * Binding a call's keyword arguments to an `ElementHandlers` tuple, left
   * to right, starting from all tables absent.  The first keyword that
   * names no parameter is a TypeError, raised before anything is
   * registered.
   */
  function Bind(kwargs: seq<(string, Arg)>, aliases: bool): Result<Definition>
  {
    BindFrom(NoHandlers, kwargs, 0, aliases)
  }

  function BindFrom(d: Definition, kwargs: seq<(string, Arg)>, i: nat, aliases: bool): Result<Definition>
    decreases |kwargs| - i
  {
    if i >= |kwargs| then Ok(d)
    else
      var p := ParamIndex(kwargs[i].0, aliases);
      if p.None? then Err(UnexpectedKeyword(kwargs[i].0))
      else BindFrom(Put(d, p.value, kwargs[i].1), kwargs, i + 1, aliases)
  }

  lemma {:induction false} BindFromFails(d: Definition, kwargs: seq<(string, Arg)>, i: nat, aliases: bool)
    ensures BindFrom(d, kwargs, i, aliases).Err? <==> exists j :: i <= j < |kwargs| && ParamIndex(kwargs[j].0, aliases).None?
    decreases |kwargs| - i
  {
    if i < |kwargs| {
      var p := ParamIndex(kwargs[i].0, aliases);
      if p.Some? {
        BindFromFails(Put(d, p.value, kwargs[i].1), kwargs, i + 1, aliases);
        assert BindFrom(d, kwargs, i, aliases) == BindFrom(Put(d, p.value, kwargs[i].1), kwargs, i + 1, aliases);
      } else {
        assert ParamIndex(kwargs[i].0, aliases).None?;
      }
    }
  }

  lemma {:induction false} BindFromFirstError(d: Definition, kwargs: seq<(string, Arg)>, i: nat, aliases: bool)
    requires BindFrom(d, kwargs, i, aliases).Err?
    ensures exists j :: i <= j < |kwargs| && BindFrom(d, kwargs, i, aliases).error == UnexpectedKeyword(kwargs[j].0)
                  && ParamIndex(kwargs[j].0, aliases).None?
                  && forall l :: i <= l < j ==> ParamIndex(kwargs[l].0, aliases).Some?
    decreases |kwargs| - i
  {
    var p := ParamIndex(kwargs[i].0, aliases);
    if p.Some? {
      assert BindFrom(d, kwargs, i, aliases) == BindFrom(Put(d, p.value, kwargs[i].1), kwargs, i + 1, aliases);
      BindFromFirstError(Put(d, p.value, kwargs[i].1), kwargs, i + 1, aliases);
      var j :| i + 1 <= j < |kwargs| && BindFrom(d, kwargs, i, aliases).error == UnexpectedKeyword(kwargs[j].0)
                  && ParamIndex(kwargs[j].0, aliases).None?
                  && forall l :: i + 1 <= l < j ==> ParamIndex(kwargs[l].0, aliases).Some?;
      assert forall l :: i <= l < j ==> ParamIndex(kwargs[l].0, aliases).Some?;
    }
  }

  /**
   * Binding fails exactly when some keyword names no parameter, and then
   * with the TypeError for the first such keyword.
   */
  lemma BindError(kwargs: seq<(string, Arg)>, aliases: bool)
    ensures Bind(kwargs, aliases).Err? <==> exists j :: 0 <= j < |kwargs| && ParamIndex(kwargs[j].0, aliases).None?
    ensures Bind(kwargs, aliases).Err? ==>
      exists j :: 0 <= j < |kwargs| && Bind(kwargs, aliases).error == UnexpectedKeyword(kwargs[j].0)
                  && ParamIndex(kwargs[j].0, aliases).None?
                  && forall l :: 0 <= l < j ==> ParamIndex(kwargs[l].0, aliases).Some?
  {
    BindFromFails(NoHandlers, kwargs, 0, aliases);
    if Bind(kwargs, aliases).Err? {
      BindFromFirstError(NoHandlers, kwargs, 0, aliases);
    }
  }

  /** Accepting the aliases changes nothing for calls that spell the parameters exactly. */
  lemma {:induction false} AliasesConservative(d: Definition, kwargs: seq<(string, Arg)>, i: nat)
    requires forall j :: 0 <= j < |kwargs| ==> kwargs[j].0 in Params
    ensures BindFrom(d, kwargs, i, true) == BindFrom(d, kwargs, i, false)
    decreases |kwargs| - i
  {
    if i < |kwargs| {
      var p := ParamIndex(kwargs[i].0, false).value;
      assert ParamIndex(kwargs[i].0, true) == Some(p);
      AliasesConservative(Put(d, p, kwargs[i].1), kwargs, i + 1);
    }
  }

  // ---------------------------------------------------------------------------
  // The calls, as written in the registration modules.

  /** table.py: CT_Tbl. */
  const TblCall := Call("CT_Tbl", [
    ("tags_to_ignore", NamesArg([W_tblPr, W_tblGrid])),
    ("extends", NamesArg(["EG_ContentRowContent"]))])

  /** table.py: EG_ContentRowContent. */
  const ContentRowContentCall := Call("EG_ContentRowContent", [
    ("tags_to_yield", YieldArg(map[W_tr := Tr, W_sdt := Empty])),
    ("tags_to_nest", NestArg(map[W_customXml := "EG_ContentRowContent"])),
    ("tags_to_ignore", NamesArg([W_customXmlPr])),
    ("extends", NamesArg(["EG_RangeMarkupElements"]))])

  /** table.py: CT_Row. */
  const RowCall := Call("CT_Row", [
    ("tags_to_ignore", NamesArg([W_tblPrEx, W_trPr])),
    ("extends", NamesArg(["EG_ContentCellContent"]))])

  /** table.py: EG_ContentCellContent. */
  const ContentCellContentCall := Call("EG_ContentCellContent", [
    ("tags_to_yield", YieldArg(map[W_tc := Tc, W_sdt := Empty])),
    ("tags_to_nest", NestArg(map[W_customXml := "EG_ContentCellContent"])),
    ("tags_to_ignore", NamesArg([W_customXmlPr])),
    ("extends", NamesArg(["EG_RunLevelElts"]))])

  /** table.py: CT_Tc. */
  const TcCall := Call("CT_Tc", [
    ("tags_to_ignore", NamesArg([W_tcPr])),
    ("extends", NamesArg(["EG_BlockLevelElts"]))])

  /** run.py: CT_R. */
  const RunCall := Call("CT_R", [
    ("tags_to_yield", YieldArg(RunYields)),
    ("tags_to_ignore", NamesArg(RunIgnores))])

  const RunYields: map<string, Kind> := map[
    W_t := Text, W_sym := SymbolChar,
    W_br := SimpleText, W_cr := SimpleText, W_tab := SimpleText,
    W_noBreakHyphen := SimpleText, W_softHyphen := SimpleText, W_ptab := SimpleText,
    W_fldChar := FldChar, W_instrText := Empty,
    W_dayShort := Empty, W_monthShort := Empty, W_yearShort := Empty,
    W_dayLong := Empty, W_monthLong := Empty, W_yearLong := Empty,
    W_contentPart := ContentPart,
    W_annotationRef := Empty, W_footnoteRef := Empty, W_endnoteRef := Empty,
    W_footnoteReference := Empty, W_endnoteReference := Empty, W_commentReference := Empty,
    W_object := Empty, W_drawing := Empty]

  const RunIgnores: seq<string> := [
    W_rPr, W_delText, W_delInstrText, W_pgNum, W_separator, W_continuationSeparator,
    W_ruby, W_lastRenderedPageBreak]

  /** paragraph.py: CT_P. */
  const PCall := Call("CT_P", [
    ("tags_to_ignore", NamesArg([W_pPr])),
    ("extends", NamesArg(["EG_PContent"]))])

  /** paragraph.py: CT_CustomXmlRun. */
  const CustomXmlRunCall := Call("CT_CustomXmlRun", [
    ("tags_to_ignore", NamesArg([W_customXmlPr])),
    ("extends", NamesArg(["EG_PContent"]))])

  /** paragraph.py: CT_Hyperlink. */
  const HyperlinkCall := Call("CT_Hyperlink", [("extends", NamesArg(["EG_PContent"]))])

  /** paragraph.py: CT_SimpleField. */
  const SimpleFieldCall := Call("CT_SimpleField", [("extends", NamesArg(["EG_PContent"]))])

  /** paragraph.py: CT_SmartTagRun. */
  const SmartTagRunCall := Call("CT_SmartTagRun", [
    ("tags_to_ignore", NamesArg([W_smartTagPr])),
    ("extends", NamesArg(["EG_PContent"]))])

  /** body.py: EG_RangeMarkupElements. */
  const RangeMarkupCall := Call("EG_RangeMarkupElements", [
    ("tags_to_ignore", NamesArg(RangeMarkupIgnores)),
    ("tags_to_warn", WarnArg(RangeMarkupWarns)),
    ("tags_to_skip", SkipArg(map[W_moveFromRangeStart := ("id", W_MoveFromRangeEnd)]))])

  const RangeMarkupIgnores: seq<string> := [
    W_bookmarkStart, W_bookmarkEnd, W_commentRangeStart, W_commentRangeEnd,
    W_moveToRangeStart, W_moveToRangeEnd]

  const RevisionTags := "Ignoring Revision Tags"

  const RangeMarkupWarns: map<string, string> := map[
    W_customXmlInsRangeStart := RevisionTags, W_customXmlInsRangeEnd := RevisionTags,
    W_customXmlDelRangeStart := RevisionTags, W_customXmlDelRangeEnd := RevisionTags,
    W_customXmlMoveFromRangeStart := RevisionTags, W_customXmlMoveFromRangeEnd := RevisionTags,
    W_customXmlMoveToRangeStart := RevisionTags, W_customXmlMoveToRangeEnd := RevisionTags]

  /** body.py: EG_RunLevelElts. */
  const RunLevelCall := Call("EG_RunLevelElts", [
    ("tags_to_yield", YieldArg(map[M_oMathPara := Empty, M_oMath := Empty])),
    ("tags_to_nest", NestArg(map[W_ins := "EG_RunLevelElts", W_moveTo := "EG_RunLevelElts"])),
    ("tags_to_ignore", NamesArg(RunLevelIgnores)),
    ("extends", NamesArg(["EG_RangeMarkupElements"]))])

  const RunLevelIgnores: seq<string> := [
    W_proofErr, W_permStart, W_permEnd, W_del, W_moveFrom,
    W_commentRangeStart, W_commentRangeEnd, W_moveToRangeStart, W_moveToRangeEnd]

  /** body.py: EG_BlockLevelElts. */
  const BlockLevelCall := Call("EG_BlockLevelElts", [
    ("tags_to_yield", YieldArg(map[W_p := Paragraph, W_tbl := Table, W_sdt := Empty, W_altChunk := AltChunk])),
    ("tags_to_nest", NestArg(map[W_customXml := "EG_BlockLevelElts"])),
    ("tags_to_ignore", NamesArg([W_sectPr, W_tcPr, W_pPr])),
    ("extends", NamesArg(["EG_RunLevelElts"]))])

  /** body.py: CT_Body. */
  const BodyCall := Call("CT_Body", [
    ("tags_to_ignore", NamesArg([W_sectPr])),
    ("extends", NamesArg(["EG_BlockLevelElts"]))])

  /** document.py: CT_Document. */
  const DocumentCall := Call("CT_Document", [
    ("tags_to_yield", YieldArg(map[W_body := Body])),
    ("tags_to_ignore", NamesArg([W_docPartPr]))])

  // ---------------------------------------------------------------------------
  // The tables those calls are meant to register, written out field by field.

  const TblDef := Definition(map[], map[], [W_tblPr, W_tblGrid], map[], map[], ["EG_ContentRowContent"])
  const ContentRowContentDef := Definition(map[W_tr := Tr, W_sdt := Empty], map[W_customXml := "EG_ContentRowContent"],
                                           [W_customXmlPr], map[], map[], ["EG_RangeMarkupElements"])
  const RowDef := Definition(map[], map[], [W_tblPrEx, W_trPr], map[], map[], ["EG_ContentCellContent"])
  const ContentCellContentDef := Definition(map[W_tc := Tc, W_sdt := Empty], map[W_customXml := "EG_ContentCellContent"],
                                            [W_customXmlPr], map[], map[], ["EG_RunLevelElts"])
  const TcDef := Definition(map[], map[], [W_tcPr], map[], map[], ["EG_BlockLevelElts"])
  const RunDef := Definition(RunYields, map[], RunIgnores, map[], map[], [])
  const PDef := Definition(map[], map[], [W_pPr], map[], map[], ["EG_PContent"])
  const CustomXmlRunDef := Definition(map[], map[], [W_customXmlPr], map[], map[], ["EG_PContent"])
  const HyperlinkDef := Definition(map[], map[], [], map[], map[], ["EG_PContent"])
  const SimpleFieldDef := Definition(map[], map[], [], map[], map[], ["EG_PContent"])
  const SmartTagRunDef := Definition(map[], map[], [W_smartTagPr], map[], map[], ["EG_PContent"])
  const RangeMarkupDef := Definition(map[], map[], RangeMarkupIgnores, RangeMarkupWarns,
                                     map[W_moveFromRangeStart := ("id", W_MoveFromRangeEnd)], [])
  const RunLevelDef := Definition(map[M_oMathPara := Empty, M_oMath := Empty],
                                  map[W_ins := "EG_RunLevelElts", W_moveTo := "EG_RunLevelElts"],
                                  RunLevelIgnores, map[], map[], ["EG_RangeMarkupElements"])
  const BlockLevelDef := Definition(map[W_p := Paragraph, W_tbl := Table, W_sdt := Empty, W_altChunk := AltChunk],
                                    map[W_customXml := "EG_BlockLevelElts"],
                                    [W_sectPr, W_tcPr, W_pPr], map[], map[], ["EG_RunLevelElts"])
  const BodyDef := Definition(map[], map[], [W_sectPr], map[], map[], ["EG_BlockLevelElts"])
  const DocumentDef := Definition(map[W_body := Body], map[], [W_docPartPr], map[], map[], [])


  // ---------------------------------------------------------------------------
  // Running the registrations.

  /** The registry's state after some calls: how they ended, the definitions and their order. */
  datatype Registered = Registered(outcome: Outcome, definitions: map<string, Definition>, order: seq<string>)

  /**
   * One `register_iterator` call: its keywords are bound first (a
   * TypeError leaves the registry untouched), then the table is
   * registered with the duplicate-name check on.
   */
  function CallEffect(defs: map<string, Definition>, order: seq<string>, c: Call, aliases: bool): (r: Registered)
    ensures r.outcome.Pass? <==> Bind(c.kwargs, aliases).Ok? && c.name !in defs
    ensures r.outcome.Pass? ==> r.definitions == defs[c.name := Bind(c.kwargs, aliases).value] && r.order == order + [c.name]
    ensures r.outcome.Fail? ==> r.definitions == defs && r.order == order
    ensures Bind(c.kwargs, aliases).Err? ==> r.outcome == Fail(Bind(c.kwargs, aliases).error)
    ensures Bind(c.kwargs, aliases).Ok? && c.name in defs ==> r.outcome == Fail(AlreadyRegistered(c.name))
  {
    var bound := Bind(c.kwargs, aliases);
    if bound.Err? then Registered(Fail(bound.error), defs, order)
    else if c.name in defs then Registered(Fail(AlreadyRegistered(c.name)), defs, order)
    else Registered(Pass, defs[c.name := bound.value], order + [c.name])
  }

  /** `register_iterator` as called from a registration module, on the registry object. */
  method RegisterCall(reg: Registry, c: Call, aliases: bool) returns (r: Outcome)
    requires reg.Valid()
    modifies reg
    ensures reg.Valid() && reg.built == old(reg.built)
    ensures Registered(r, reg.definitions, reg.order) == CallEffect(old(reg.definitions), old(reg.order), c, aliases)
  {
    var bound := Bind(c.kwargs, aliases);
    if bound.Err? {
      return Fail(bound.error);
    }
    r := reg.Register(c.name, bound.value, true);
  }

  /** The names a run of calls registers, in call order. */
  function Names(calls: seq<Call>): (r: seq<string>)
    ensures |r| == |calls| && forall i :: 0 <= i < |calls| ==> r[i] == calls[i].name
  {
    seq(|calls|, i requires 0 <= i < |calls| => calls[i].name)
  }

  lemma NamesCons(calls: seq<Call>)
    requires calls != []
    ensures Names(calls) == [calls[0].name] + Names(calls[1..])
  {
  }

  /**
   * Running `register_iterator` calls one after another, as a module body
   * does: the first exception ends the run, keeping what the calls before
   * it registered.  Since every call checks its name, nothing already
   * registered is ever replaced.
   */
  function RunCalls(defs: map<string, Definition>, order: seq<string>, calls: seq<Call>, aliases: bool): (r: Registered)
    ensures r.outcome.Pass? ==> r.order == order + Names(calls)
    ensures forall n :: n in defs ==> n in r.definitions && r.definitions[n] == defs[n]
    decreases |calls|
  {
    if calls == [] then Registered(Pass, defs, order)
    else
      var first := CallEffect(defs, order, calls[0], aliases);
      if first.outcome.Fail? then first
      else
        NamesCons(calls);
        RunCalls(first.definitions, first.order, calls[1..], aliases)
  }

  /** One step of a run: the first call's effect, then the rest unless it failed. */
  lemma RunCallsUnfold(defs: map<string, Definition>, order: seq<string>, calls: seq<Call>, aliases: bool)
    requires calls != []
    ensures var first := CallEffect(defs, order, calls[0], aliases);
            RunCalls(defs, order, calls, aliases)
            == if first.outcome.Fail? then first else RunCalls(first.definitions, first.order, calls[1..], aliases)
  {
  }

  /** Running two runs of calls back to back is one run over both, unless the first one fails. */
  lemma {:induction false} RunCallsAppend(defs: map<string, Definition>, order: seq<string>, a: seq<Call>, b: seq<Call>, aliases: bool)
    ensures RunCalls(defs, order, a + b, aliases) ==
      (var ra := RunCalls(defs, order, a, aliases);
       if ra.outcome.Fail? then ra else RunCalls(ra.definitions, ra.order, b, aliases))
    decreases |a|
  {
    if a != [] {
      assert (a + b)[0] == a[0] && (a + b)[1..] == a[1..] + b;
      var first := CallEffect(defs, order, a[0], aliases);
      if first.outcome.Pass? {
        RunCallsAppend(first.definitions, first.order, a[1..], b, aliases);
      }
    } else {
      assert a + b == b;
    }
  }

  /** A call that binds under a new name registers it and the run goes on. */
  lemma RunCallsStep(defs: map<string, Definition>, order: seq<string>, calls: seq<Call>, d: Definition, aliases: bool)
    requires calls != [] && Bind(calls[0].kwargs, aliases) == Ok(d) && calls[0].name !in defs
    ensures RunCalls(defs, order, calls, aliases) == RunCalls(defs[calls[0].name := d], order + [calls[0].name], calls[1..], aliases)
  {
  }

  /** A call that binds under a name already registered ends the run with a ValueError. */
  lemma RunCallsStop(defs: map<string, Definition>, order: seq<string>, calls: seq<Call>, aliases: bool)
    requires calls != [] && Bind(calls[0].kwargs, aliases).Ok? && calls[0].name in defs
    ensures RunCalls(defs, order, calls, aliases)
            == Registered(Fail(AlreadyRegistered(calls[0].name)), defs, order)
  {
  }

  /** Calls that all bind, under names that are distinct and new. */
  predicate FreshCalls(defs: map<string, Definition>, calls: seq<Call>, ds: seq<Definition>, aliases: bool)
  {
    && |ds| == |calls|
    && (forall i :: 0 <= i < |calls| ==> Bind(calls[i].kwargs, aliases) == Ok(ds[i]))
    && (forall i, j :: 0 <= i < j < |calls| ==> calls[i].name != calls[j].name)
    && (forall i :: 0 <= i < |calls| ==> calls[i].name !in defs)
  }

  /** Dropping the first of a run of fresh calls, after registering it. */
  lemma FreshCallsTail(defs: map<string, Definition>, calls: seq<Call>, ds: seq<Definition>, aliases: bool)
    requires calls != [] && FreshCalls(defs, calls, ds, aliases)
    ensures FreshCalls(defs[calls[0].name := ds[0]], calls[1..], ds[1..], aliases)
  {
    var defs' := defs[calls[0].name := ds[0]];
    forall i | 0 <= i < |calls[1..]| ensures calls[1..][i].name !in defs' {
      assert calls[1..][i] == calls[i + 1];
    }
  }

  /** Fresh calls all register, and the keys gained are exactly their names. */
  lemma {:induction false} RunCallsFresh(defs: map<string, Definition>, order: seq<string>, calls: seq<Call>,
                                         ds: seq<Definition>, aliases: bool)
    requires FreshCalls(defs, calls, ds, aliases)
    ensures RunCalls(defs, order, calls, aliases).outcome == Pass
    ensures forall n :: n in RunCalls(defs, order, calls, aliases).definitions <==> n in defs || n in Names(calls)
    decreases |calls|
  {
    if calls != [] {
      var c := calls[0];
      var defs' := defs[c.name := ds[0]];
      RunCallsStep(defs, order, calls, ds[0], aliases);
      FreshCallsTail(defs, calls, ds, aliases);
      RunCallsFresh(defs', order + [c.name], calls[1..], ds[1..], aliases);
      NamesCons(calls);
    }
  }

  /** Each fresh call's name ends up holding its own table. */
  lemma {:induction false} RunCallsFreshTables(defs: map<string, Definition>, order: seq<string>, calls: seq<Call>,
                                               ds: seq<Definition>, aliases: bool)
    requires FreshCalls(defs, calls, ds, aliases)
    ensures forall i :: 0 <= i < |calls| ==>
      calls[i].name in RunCalls(defs, order, calls, aliases).definitions
      && RunCalls(defs, order, calls, aliases).definitions[calls[i].name] == ds[i]
    decreases |calls|
  {
    if calls != [] {
      var c := calls[0];
      var defs' := defs[c.name := ds[0]];
      RunCallsStep(defs, order, calls, ds[0], aliases);
      FreshCallsTail(defs, calls, ds, aliases);
      RunCallsFreshTables(defs', order + [c.name], calls[1..], ds[1..], aliases);
      var r := RunCalls(defs, order, calls, aliases);
      forall i | 0 <= i < |calls| ensures calls[i].name in r.definitions && r.definitions[calls[i].name] == ds[i] {
        if i > 0 {
          assert calls[i] == calls[1..][i - 1];
        }
      }
    }
  }

  /** Fresh calls register their names in call order, each with its own table, and keep what was there. */
  lemma RunCallsFreshNamed(defs: map<string, Definition>, order: seq<string>, calls: seq<Call>,
                           ds: seq<Definition>, names: seq<string>, aliases: bool)
    requires FreshCalls(defs, calls, ds, aliases) && Names(calls) == names
    ensures RunCalls(defs, order, calls, aliases).outcome == Pass
    ensures RunCalls(defs, order, calls, aliases).order == order + names
    ensures forall n :: n in RunCalls(defs, order, calls, aliases).definitions <==> n in defs || n in names
    ensures |ds| == |names| && forall i :: 0 <= i < |names| ==>
      names[i] in RunCalls(defs, order, calls, aliases).definitions
      && RunCalls(defs, order, calls, aliases).definitions[names[i]] == ds[i]
  {
    RunCallsFresh(defs, order, calls, ds, aliases);
    RunCallsFreshTables(defs, order, calls, ds, aliases);
  }

  // ---------------------------------------------------------------------------
  // The registration modules.

  /** table.py, run.py, paragraph.py, body.py and document.py, call by call. */
  const TableModule: seq<Call> := [TblCall, ContentRowContentCall, RowCall, ContentCellContentCall, TcCall]
  const RunModule: seq<Call> := [RunCall]
  const ParagraphModule: seq<Call> := [PCall, CustomXmlRunCall, HyperlinkCall, SimpleFieldCall, SmartTagRunCall]
  const BodyModule: seq<Call> := [RangeMarkupCall, RunLevelCall, BlockLevelCall, BodyCall]
  const DocumentModule: seq<Call> := [DocumentCall]

  /** Every call made at import, in the package's import order. */
  const ImportCalls: seq<Call> := TableModule + (RunModule + (ParagraphModule + (BodyModule + DocumentModule)))

  /** The names the import calls register, module by module. */
  const TableNames: seq<string> := ["CT_Tbl", "EG_ContentRowContent", "CT_Row", "EG_ContentCellContent", "CT_Tc"]
  const RunNames: seq<string> := ["CT_R"]
  const ParagraphNames: seq<string> := ["CT_P", "CT_CustomXmlRun", "CT_Hyperlink", "CT_SimpleField", "CT_SmartTagRun"]
  const BodyNames: seq<string> := ["EG_RangeMarkupElements", "EG_RunLevelElts", "EG_BlockLevelElts", "CT_Body"]
  const DocumentNames: seq<string> := ["CT_Document"]
  const ImportNames: seq<string> := TableNames + (RunNames + (ParagraphNames + (BodyNames + DocumentNames)))

  /** The tables the import calls are meant to register, module by module. */
  const TableDefs: seq<Definition> := [TblDef, ContentRowContentDef, RowDef, ContentCellContentDef, TcDef]
  const RunDefs: seq<Definition> := [RunDef]
  const ParagraphDefs: seq<Definition> := [PDef, CustomXmlRunDef, HyperlinkDef, SimpleFieldDef, SmartTagRunDef]
  const BodyDefs: seq<Definition> := [RangeMarkupDef, RunLevelDef, BlockLevelDef, BodyDef]
  const DocumentDefs: seq<Definition> := [DocumentDef]
  const ImportDefs: seq<Definition> := TableDefs + (RunDefs + (ParagraphDefs + (BodyDefs + DocumentDefs)))

  /** Each call binds to the table at the same position. */
  predicate BindsTo(calls: seq<Call>, ds: seq<Definition>, aliases: bool)
  {
    |ds| == |calls| && forall i :: 0 <= i < |calls| ==> Bind(calls[i].kwargs, aliases) == Ok(ds[i])
  }

  lemma BindsToAppend(a: seq<Call>, da: seq<Definition>, b: seq<Call>, db: seq<Definition>, aliases: bool)
    requires BindsTo(a, da, aliases) && BindsTo(b, db, aliases)
    ensures BindsTo(a + b, da + db, aliases)
  {
    forall i | 0 <= i < |a + b| ensures Bind((a + b)[i].kwargs, aliases) == Ok((da + db)[i]) {
      if i >= |a| {
        assert (a + b)[i] == b[i - |a|] && (da + db)[i] == db[i - |a|];
      }
    }
  }

  lemma NamesAppend(a: seq<Call>, b: seq<Call>)
    ensures Names(a + b) == Names(a) + Names(b)
  {
  }

  /** Binding a call whose keywords all name parameters: each argument stored in turn. */
  lemma {:induction false} BindAllKnown(d: Definition, kwargs: seq<(string, Arg)>, i: nat, aliases: bool)
    requires i <= |kwargs|
    requires forall j :: i <= j < |kwargs| ==> ParamIndex(kwargs[j].0, aliases).Some?
    ensures BindFrom(d, kwargs, i, aliases) == Ok(PutAll(d, kwargs, i, aliases))
    decreases |kwargs| - i
  {
    if i < |kwargs| {
      BindAllKnown(Put(d, ParamIndex(kwargs[i].0, aliases).value, kwargs[i].1), kwargs, i + 1, aliases);
    }
  }

  function PutAll(d: Definition, kwargs: seq<(string, Arg)>, i: nat, aliases: bool): Definition
    requires forall j :: i <= j < |kwargs| ==> ParamIndex(kwargs[j].0, aliases).Some?
    decreases |kwargs| - i
  {
    if i >= |kwargs| then d
    else PutAll(Put(d, ParamIndex(kwargs[i].0, aliases).value, kwargs[i].1), kwargs, i + 1, aliases)
  }

  lemma BindTableCalls()
    ensures Bind(TblCall.kwargs, true) == Ok(TblDef)
    ensures Bind(ContentRowContentCall.kwargs, true) == Ok(ContentRowContentDef)
    ensures Bind(RowCall.kwargs, true) == Ok(RowDef)
    ensures Bind(ContentCellContentCall.kwargs, true) == Ok(ContentCellContentDef)
    ensures Bind(TcCall.kwargs, true) == Ok(TcDef)
  {
    BindRowCalls();
    BindCellCalls();
  }

  lemma BindRowCalls()
    ensures Bind(TblCall.kwargs, true) == Ok(TblDef)
    ensures Bind(ContentRowContentCall.kwargs, true) == Ok(ContentRowContentDef)
    ensures Bind(RowCall.kwargs, true) == Ok(RowDef)
  {
    BindAllKnown(NoHandlers, TblCall.kwargs, 0, true);
    var kwTbl := TblCall.kwargs;
    var tbl1 := Put(NoHandlers, 2, kwTbl[0].1);
    var tbl2 := Put(tbl1, 5, kwTbl[1].1);
    assert PutAll(tbl1, kwTbl, 1, true) == PutAll(tbl2, kwTbl, 2, true);
    assert PutAll(NoHandlers, kwTbl, 0, true) == PutAll(tbl1, kwTbl, 1, true);
    assert tbl2 == TblDef;
    BindAllKnown(NoHandlers, ContentRowContentCall.kwargs, 0, true);
    var kwContentRowContent := ContentRowContentCall.kwargs;
    var contentrowcontent1 := Put(NoHandlers, 0, kwContentRowContent[0].1);
    var contentrowcontent2 := Put(contentrowcontent1, 1, kwContentRowContent[1].1);
    var contentrowcontent3 := Put(contentrowcontent2, 2, kwContentRowContent[2].1);
    var contentrowcontent4 := Put(contentrowcontent3, 5, kwContentRowContent[3].1);
    assert PutAll(contentrowcontent3, kwContentRowContent, 3, true) == PutAll(contentrowcontent4, kwContentRowContent, 4, true);
    assert PutAll(contentrowcontent2, kwContentRowContent, 2, true) == PutAll(contentrowcontent3, kwContentRowContent, 3, true);
    assert PutAll(contentrowcontent1, kwContentRowContent, 1, true) == PutAll(contentrowcontent2, kwContentRowContent, 2, true);
    assert PutAll(NoHandlers, kwContentRowContent, 0, true) == PutAll(contentrowcontent1, kwContentRowContent, 1, true);
    assert contentrowcontent4 == ContentRowContentDef;
    BindAllKnown(NoHandlers, RowCall.kwargs, 0, true);
    var kwRow := RowCall.kwargs;
    var row1 := Put(NoHandlers, 2, kwRow[0].1);
    var row2 := Put(row1, 5, kwRow[1].1);
    assert PutAll(row1, kwRow, 1, true) == PutAll(row2, kwRow, 2, true);
    assert PutAll(NoHandlers, kwRow, 0, true) == PutAll(row1, kwRow, 1, true);
    assert row2 == RowDef;
  }

  lemma BindCellCalls()
    ensures Bind(ContentCellContentCall.kwargs, true) == Ok(ContentCellContentDef)
    ensures Bind(TcCall.kwargs, true) == Ok(TcDef)
  {
    BindAllKnown(NoHandlers, ContentCellContentCall.kwargs, 0, true);
    var kwContentCellContent := ContentCellContentCall.kwargs;
    var contentcellcontent1 := Put(NoHandlers, 0, kwContentCellContent[0].1);
    var contentcellcontent2 := Put(contentcellcontent1, 1, kwContentCellContent[1].1);
    var contentcellcontent3 := Put(contentcellcontent2, 2, kwContentCellContent[2].1);
    var contentcellcontent4 := Put(contentcellcontent3, 5, kwContentCellContent[3].1);
    assert PutAll(contentcellcontent3, kwContentCellContent, 3, true) == PutAll(contentcellcontent4, kwContentCellContent, 4, true);
    assert PutAll(contentcellcontent2, kwContentCellContent, 2, true) == PutAll(contentcellcontent3, kwContentCellContent, 3, true);
    assert PutAll(contentcellcontent1, kwContentCellContent, 1, true) == PutAll(contentcellcontent2, kwContentCellContent, 2, true);
    assert PutAll(NoHandlers, kwContentCellContent, 0, true) == PutAll(contentcellcontent1, kwContentCellContent, 1, true);
    assert contentcellcontent4 == ContentCellContentDef;
    BindAllKnown(NoHandlers, TcCall.kwargs, 0, true);
    var kwTc := TcCall.kwargs;
    var tc1 := Put(NoHandlers, 2, kwTc[0].1);
    var tc2 := Put(tc1, 5, kwTc[1].1);
    assert PutAll(tc1, kwTc, 1, true) == PutAll(tc2, kwTc, 2, true);
    assert PutAll(NoHandlers, kwTc, 0, true) == PutAll(tc1, kwTc, 1, true);
    assert tc2 == TcDef;
  }

  lemma BindParagraphCalls()
    ensures Bind(PCall.kwargs, true) == Ok(PDef)
    ensures Bind(CustomXmlRunCall.kwargs, true) == Ok(CustomXmlRunDef)
    ensures Bind(HyperlinkCall.kwargs, true) == Ok(HyperlinkDef)
    ensures Bind(SimpleFieldCall.kwargs, true) == Ok(SimpleFieldDef)
    ensures Bind(SmartTagRunCall.kwargs, true) == Ok(SmartTagRunDef)
  {
    BindAllKnown(NoHandlers, PCall.kwargs, 0, true);
    var kwP := PCall.kwargs;
    var p1 := Put(NoHandlers, 2, kwP[0].1);
    var p2 := Put(p1, 5, kwP[1].1);
    assert PutAll(p1, kwP, 1, true) == PutAll(p2, kwP, 2, true);
    assert PutAll(NoHandlers, kwP, 0, true) == PutAll(p1, kwP, 1, true);
    assert p2 == PDef;
    BindAllKnown(NoHandlers, CustomXmlRunCall.kwargs, 0, true);
    var kwCustomXmlRun := CustomXmlRunCall.kwargs;
    var customxmlrun1 := Put(NoHandlers, 2, kwCustomXmlRun[0].1);
    var customxmlrun2 := Put(customxmlrun1, 5, kwCustomXmlRun[1].1);
    assert PutAll(customxmlrun1, kwCustomXmlRun, 1, true) == PutAll(customxmlrun2, kwCustomXmlRun, 2, true);
    assert PutAll(NoHandlers, kwCustomXmlRun, 0, true) == PutAll(customxmlrun1, kwCustomXmlRun, 1, true);
    assert customxmlrun2 == CustomXmlRunDef;
    BindAllKnown(NoHandlers, HyperlinkCall.kwargs, 0, true);
    var kwHyperlink := HyperlinkCall.kwargs;
    var hyperlink1 := Put(NoHandlers, 5, kwHyperlink[0].1);
    assert PutAll(NoHandlers, kwHyperlink, 0, true) == PutAll(hyperlink1, kwHyperlink, 1, true);
    assert hyperlink1 == HyperlinkDef;
    BindAllKnown(NoHandlers, SimpleFieldCall.kwargs, 0, true);
    var kwSimpleField := SimpleFieldCall.kwargs;
    var simplefield1 := Put(NoHandlers, 5, kwSimpleField[0].1);
    assert PutAll(NoHandlers, kwSimpleField, 0, true) == PutAll(simplefield1, kwSimpleField, 1, true);
    assert simplefield1 == SimpleFieldDef;
    BindAllKnown(NoHandlers, SmartTagRunCall.kwargs, 0, true);
    var kwSmartTagRun := SmartTagRunCall.kwargs;
    var smarttagrun1 := Put(NoHandlers, 2, kwSmartTagRun[0].1);
    var smarttagrun2 := Put(smarttagrun1, 5, kwSmartTagRun[1].1);
    assert PutAll(smarttagrun1, kwSmartTagRun, 1, true) == PutAll(smarttagrun2, kwSmartTagRun, 2, true);
    assert PutAll(NoHandlers, kwSmartTagRun, 0, true) == PutAll(smarttagrun1, kwSmartTagRun, 1, true);
    assert smarttagrun2 == SmartTagRunDef;
  }

  lemma BindRangeMarkupCall()
    ensures Bind(RangeMarkupCall.kwargs, true) == Ok(RangeMarkupDef)
  {
    BindAllKnown(NoHandlers, RangeMarkupCall.kwargs, 0, true);
    var kwRangeMarkup := RangeMarkupCall.kwargs;
    var rangemarkup1 := Put(NoHandlers, 2, kwRangeMarkup[0].1);
    var rangemarkup2 := Put(rangemarkup1, 3, kwRangeMarkup[1].1);
    var rangemarkup3 := Put(rangemarkup2, 4, kwRangeMarkup[2].1);
    assert PutAll(rangemarkup2, kwRangeMarkup, 2, true) == PutAll(rangemarkup3, kwRangeMarkup, 3, true);
    assert PutAll(rangemarkup1, kwRangeMarkup, 1, true) == PutAll(rangemarkup2, kwRangeMarkup, 2, true);
    assert PutAll(NoHandlers, kwRangeMarkup, 0, true) == PutAll(rangemarkup1, kwRangeMarkup, 1, true);
    assert rangemarkup3 == RangeMarkupDef;
  }

  lemma BindRunLevelCall()
    ensures Bind(RunLevelCall.kwargs, true) == Ok(RunLevelDef)
  {
    BindAllKnown(NoHandlers, RunLevelCall.kwargs, 0, true);
    var kwRunLevel := RunLevelCall.kwargs;
    var runlevel1 := Put(NoHandlers, 0, kwRunLevel[0].1);
    var runlevel2 := Put(runlevel1, 1, kwRunLevel[1].1);
    var runlevel3 := Put(runlevel2, 2, kwRunLevel[2].1);
    var runlevel4 := Put(runlevel3, 5, kwRunLevel[3].1);
    assert PutAll(runlevel3, kwRunLevel, 3, true) == PutAll(runlevel4, kwRunLevel, 4, true);
    assert PutAll(runlevel2, kwRunLevel, 2, true) == PutAll(runlevel3, kwRunLevel, 3, true);
    assert PutAll(runlevel1, kwRunLevel, 1, true) == PutAll(runlevel2, kwRunLevel, 2, true);
    assert PutAll(NoHandlers, kwRunLevel, 0, true) == PutAll(runlevel1, kwRunLevel, 1, true);
    assert runlevel4 == RunLevelDef;
  }

  lemma BindBlockLevelAndBodyCalls()
    ensures Bind(BlockLevelCall.kwargs, true) == Ok(BlockLevelDef)
    ensures Bind(BodyCall.kwargs, true) == Ok(BodyDef)
  {
    BindAllKnown(NoHandlers, BlockLevelCall.kwargs, 0, true);
    var kwBlockLevel := BlockLevelCall.kwargs;
    var blocklevel1 := Put(NoHandlers, 0, kwBlockLevel[0].1);
    var blocklevel2 := Put(blocklevel1, 1, kwBlockLevel[1].1);
    var blocklevel3 := Put(blocklevel2, 2, kwBlockLevel[2].1);
    var blocklevel4 := Put(blocklevel3, 5, kwBlockLevel[3].1);
    assert PutAll(blocklevel3, kwBlockLevel, 3, true) == PutAll(blocklevel4, kwBlockLevel, 4, true);
    assert PutAll(blocklevel2, kwBlockLevel, 2, true) == PutAll(blocklevel3, kwBlockLevel, 3, true);
    assert PutAll(blocklevel1, kwBlockLevel, 1, true) == PutAll(blocklevel2, kwBlockLevel, 2, true);
    assert PutAll(NoHandlers, kwBlockLevel, 0, true) == PutAll(blocklevel1, kwBlockLevel, 1, true);
    assert blocklevel4 == BlockLevelDef;
    BindAllKnown(NoHandlers, BodyCall.kwargs, 0, true);
    var kwBody := BodyCall.kwargs;
    var body1 := Put(NoHandlers, 2, kwBody[0].1);
    var body2 := Put(body1, 5, kwBody[1].1);
    assert PutAll(body1, kwBody, 1, true) == PutAll(body2, kwBody, 2, true);
    assert PutAll(NoHandlers, kwBody, 0, true) == PutAll(body1, kwBody, 1, true);
    assert body2 == BodyDef;
  }

  lemma BindRunAndDocumentCalls()
    ensures Bind(RunCall.kwargs, true) == Ok(RunDef)
    ensures Bind(DocumentCall.kwargs, true) == Ok(DocumentDef)
  {
    BindAllKnown(NoHandlers, RunCall.kwargs, 0, true);
    var kwRun := RunCall.kwargs;
    var run1 := Put(NoHandlers, 0, kwRun[0].1);
    var run2 := Put(run1, 2, kwRun[1].1);
    assert PutAll(run1, kwRun, 1, true) == PutAll(run2, kwRun, 2, true);
    assert PutAll(NoHandlers, kwRun, 0, true) == PutAll(run1, kwRun, 1, true);
    assert run2 == RunDef;
    BindAllKnown(NoHandlers, DocumentCall.kwargs, 0, true);
    var kwDocument := DocumentCall.kwargs;
    var document1 := Put(NoHandlers, 0, kwDocument[0].1);
    var document2 := Put(document1, 2, kwDocument[1].1);
    assert PutAll(document1, kwDocument, 1, true) == PutAll(document2, kwDocument, 2, true);
    assert PutAll(NoHandlers, kwDocument, 0, true) == PutAll(document1, kwDocument, 1, true);
    assert document2 == DocumentDef;
  }

  /** Importing one registration module: its calls in order, stopping at the first exception. */
  method ImportModule(reg: Registry, calls: seq<Call>, aliases: bool) returns (r: Outcome)
    requires reg.Valid()
    modifies reg
    ensures reg.Valid() && reg.built == old(reg.built)
    ensures Registered(r, reg.definitions, reg.order) == RunCalls(old(reg.definitions), old(reg.order), calls, aliases)
  {
    r := Pass;
    var k := 0;
    while k < |calls|
      invariant 0 <= k <= |calls| && reg.Valid() && reg.built == old(reg.built) && r == Pass
      invariant RunCalls(reg.definitions, reg.order, calls[k..], aliases)
                == RunCalls(old(reg.definitions), old(reg.order), calls, aliases)
    {
      assert calls[k..][0] == calls[k] && calls[k..][1..] == calls[k + 1..];
      RunCallsUnfold(reg.definitions, reg.order, calls[k..], aliases);
      r := RegisterCall(reg, calls[k], aliases);
      if r.Fail? {
        return;
      }
      k := k + 1;
    }
  }

  /**
   * Importing the iterator package: the registration modules in import
   * order (`iterators/__init__.py`), an exception in one ending the import.
   */
  method ImportIterators(reg: Registry, aliases: bool) returns (r: Outcome)
    requires reg.Valid()
    modifies reg
    ensures reg.Valid() && reg.built == old(reg.built)
    ensures Registered(r, reg.definitions, reg.order) == RunCalls(old(reg.definitions), old(reg.order), ImportCalls, aliases)
  {
    ghost var rest4 := DocumentModule;
    ghost var rest3 := BodyModule + rest4;
    ghost var rest2 := ParagraphModule + rest3;
    ghost var rest1 := RunModule + rest2;
    ghost var d, o := reg.definitions, reg.order;
    RunCallsAppend(d, o, TableModule, rest1, aliases);
    r := ImportModule(reg, TableModule, aliases);
    if r.Fail? { return; }
    d, o := reg.definitions, reg.order;
    RunCallsAppend(d, o, RunModule, rest2, aliases);
    r := ImportModule(reg, RunModule, aliases);
    if r.Fail? { return; }
    d, o := reg.definitions, reg.order;
    RunCallsAppend(d, o, ParagraphModule, rest3, aliases);
    r := ImportModule(reg, ParagraphModule, aliases);
    if r.Fail? { return; }
    d, o := reg.definitions, reg.order;
    RunCallsAppend(d, o, BodyModule, rest4, aliases);
    r := ImportModule(reg, BodyModule, aliases);
    if r.Fail? { return; }
    r := ImportModule(reg, DocumentModule, aliases);
  }

  /**
   * As written, every registration module raises a TypeError at its first
   * call, so importing the package raises at table.py's first call and
   * registers nothing.
   */
  lemma ImportAsWritten(defs: map<string, Definition>, order: seq<string>)
    ensures RunCalls(defs, order, ImportCalls, false) == Registered(Fail(UnexpectedKeyword("tags_to_ignore")), defs, order)
  {
    assert Bind(TblCall.kwargs, false) == Err(UnexpectedKeyword("tags_to_ignore"));
    RunCallsAppend(defs, order, TableModule, RunModule + (ParagraphModule + (BodyModule + DocumentModule)), false);
  }

  /** A call whose keywords do not bind ends the run with that error and registers nothing. */
  lemma RunCallsBindError(defs: map<string, Definition>, order: seq<string>, calls: seq<Call>, aliases: bool)
    requires calls != [] && Bind(calls[0].kwargs, aliases).Err?
    ensures RunCalls(defs, order, calls, aliases)
            == Registered(Fail(Bind(calls[0].kwargs, aliases).error), defs, order)
  {
  }

  /** Each registration module on its own fails at its first call as written. */
  lemma ModulesAsWritten(defs: map<string, Definition>, order: seq<string>)
    ensures RunCalls(defs, order, TableModule, false).outcome == Fail(UnexpectedKeyword("tags_to_ignore"))
    ensures RunCalls(defs, order, RunModule, false).outcome == Fail(UnexpectedKeyword("tags_to_yield"))
    ensures RunCalls(defs, order, ParagraphModule, false).outcome == Fail(UnexpectedKeyword("tags_to_ignore"))
    ensures RunCalls(defs, order, BodyModule, false).outcome == Fail(UnexpectedKeyword("tags_to_ignore"))
    ensures RunCalls(defs, order, DocumentModule, false).outcome == Fail(UnexpectedKeyword("tags_to_yield"))
  {
    assert Bind(TblCall.kwargs, false) == Err(UnexpectedKeyword("tags_to_ignore"));
    RunCallsBindError(defs, order, TableModule, false);
    assert Bind(RunCall.kwargs, false) == Err(UnexpectedKeyword("tags_to_yield"));
    RunCallsBindError(defs, order, RunModule, false);
    assert Bind(PCall.kwargs, false) == Err(UnexpectedKeyword("tags_to_ignore"));
    RunCallsBindError(defs, order, ParagraphModule, false);
    assert Bind(RangeMarkupCall.kwargs, false) == Err(UnexpectedKeyword("tags_to_ignore"));
    RunCallsBindError(defs, order, BodyModule, false);
    assert Bind(DocumentCall.kwargs, false) == Err(UnexpectedKeyword("tags_to_yield"));
    RunCallsBindError(defs, order, DocumentModule, false);
  }

  /** The import calls register the names of `ImportNames`, in that order. */
  lemma ImportCallNames()
    ensures Names(ImportCalls) == ImportNames
  {
    assert Names(TableModule) == TableNames;
    assert Names(RunModule) == RunNames;
    assert Names(ParagraphModule) == ParagraphNames;
    assert Names(BodyModule) == BodyNames;
    assert Names(DocumentModule) == DocumentNames;
    NamesAppend(BodyModule, DocumentModule);
    NamesAppend(ParagraphModule, BodyModule + DocumentModule);
    NamesAppend(RunModule, ParagraphModule + (BodyModule + DocumentModule));
    NamesAppend(TableModule, RunModule + (ParagraphModule + (BodyModule + DocumentModule)));
  }

  /** The sixteen names registered at import are all different. */
  lemma ImportNamesDistinct()
    ensures forall i, j :: 0 <= i < j < |ImportNames| ==> ImportNames[i] != ImportNames[j]
  {
  }

  lemma TableModuleBinds()
    ensures BindsTo(TableModule, TableDefs, true)
  {
    BindTableCalls();
  }

  lemma ParagraphModuleBinds()
    ensures BindsTo(ParagraphModule, ParagraphDefs, true)
  {
    BindParagraphCalls();
  }

  lemma BodyModuleBinds()
    ensures BindsTo(BodyModule, BodyDefs, true)
  {
    BindRangeMarkupCall();
    BindRunLevelCall();
    BindBlockLevelAndBodyCalls();
  }

  lemma RunAndDocumentModulesBind()
    ensures BindsTo(RunModule, RunDefs, true) && BindsTo(DocumentModule, DocumentDefs, true)
  {
    BindRunAndDocumentCalls();
  }

  /** With the lower-case keywords bound, every import call binds to its intended table. */
  lemma ImportBinds()
    ensures BindsTo(ImportCalls, ImportDefs, true)
  {
    TableModuleBinds();
    ParagraphModuleBinds();
    BodyModuleBinds();
    RunAndDocumentModulesBind();
    BindsToAppend(BodyModule, BodyDefs, DocumentModule, DocumentDefs, true);
    BindsToAppend(ParagraphModule, ParagraphDefs, BodyModule + DocumentModule, BodyDefs + DocumentDefs, true);
    BindsToAppend(RunModule, RunDefs, ParagraphModule + (BodyModule + DocumentModule),
                  ParagraphDefs + (BodyDefs + DocumentDefs), true);
    BindsToAppend(TableModule, TableDefs, RunModule + (ParagraphModule + (BodyModule + DocumentModule)),
                  RunDefs + (ParagraphDefs + (BodyDefs + DocumentDefs)), true);
  }

  /**
   * With the lower-case keywords bound, importing into a registry that
   * holds none of the names registers every table under its name, in
   * import order, and keeps what was there.
   */
  lemma ImportCorrected(defs: map<string, Definition>, order: seq<string>)
    requires forall n :: n in ImportNames ==> n !in defs
    ensures RunCalls(defs, order, ImportCalls, true).outcome == Pass
    ensures RunCalls(defs, order, ImportCalls, true).order == order + ImportNames
    ensures forall n :: n in RunCalls(defs, order, ImportCalls, true).definitions <==> n in defs || n in ImportNames
    ensures forall i :: 0 <= i < |ImportNames| ==>
      ImportNames[i] in RunCalls(defs, order, ImportCalls, true).definitions
      && RunCalls(defs, order, ImportCalls, true).definitions[ImportNames[i]] == ImportDefs[i]
  {
    ImportFresh(defs);
    RunCallsFreshNamed(defs, order, ImportCalls, ImportDefs, ImportNames, true);
  }

  /** With the corrected keywords, the import calls all bind, under distinct new names. */
  lemma ImportFresh(defs: map<string, Definition>)
    requires forall n :: n in ImportNames ==> n !in defs
    ensures FreshCalls(defs, ImportCalls, ImportDefs, true)
    ensures Names(ImportCalls) == ImportNames
  {
    ImportBinds();
    ImportCallNames();
    ImportNamesDistinct();
    var calls := ImportCalls;
    assert forall i :: 0 <= i < |calls| ==> calls[i].name == ImportNames[i];
  }

  /** Importing a second time refuses the first name already registered. */
  lemma ImportTwice(defs: map<string, Definition>, order: seq<string>)
    requires "CT_Tbl" in defs
    ensures RunCalls(defs, order, ImportCalls, true) ==
      Registered(Fail(AlreadyRegistered("CT_Tbl")), defs, order)
  {
    BindTableCalls();
    RunCallsStop(defs, order, TableModule, true);
    RunCallsAppend(defs, order, TableModule, RunModule + (ParagraphModule + (BodyModule + DocumentModule)), true);
  }

  // ---------------------------------------------------------------------------
  // Resolving what the import registers.

  /** The registry the import (keywords corrected) leaves behind when nothing was registered before. */
  function Imported(): map<string, Definition>
  {
    RunCalls(map[], [], ImportCalls, true).definitions
  }

  /** The import's names in registration order, written out flat. */
  const ImportOrder: seq<string> := [
    "CT_Tbl", "EG_ContentRowContent", "CT_Row", "EG_ContentCellContent", "CT_Tc", "CT_R",
    "CT_P", "CT_CustomXmlRun", "CT_Hyperlink", "CT_SimpleField", "CT_SmartTagRun",
    "EG_RangeMarkupElements", "EG_RunLevelElts", "EG_BlockLevelElts", "CT_Body", "CT_Document"]

  /** The `extends` list of each imported table, position by position. */
  const ImportDepends: seq<seq<string>> := [
    ["EG_ContentRowContent"], ["EG_RangeMarkupElements"], ["EG_ContentCellContent"], ["EG_RunLevelElts"],
    ["EG_BlockLevelElts"], [],
    ["EG_PContent"], ["EG_PContent"], ["EG_PContent"], ["EG_PContent"], ["EG_PContent"],
    [], ["EG_RangeMarkupElements"], ["EG_RunLevelElts"], ["EG_BlockLevelElts"], []]

  /** How many levels of `extends` lie below an imported table. */
  function ImportLevel(n: string): nat
  {
    if n == "EG_RunLevelElts" || n == "EG_ContentRowContent" then 1
    else if n == "EG_BlockLevelElts" || n == "CT_Tbl" || n == "EG_ContentCellContent" then 2
    else if n == "CT_Body" || n == "CT_Row" || n == "CT_Tc" then 3
    else 0
  }

  /** A rank for the import: each table above the groups it extends. */
  const ImportRank: map<string, nat> := map n | n in ImportOrder :: ImportLevel(n)

  /** The imported registry holds exactly the sixteen names, each with its intended table. */
  lemma ImportedTables()
    ensures forall n :: n in Imported() <==> n in ImportNames
    ensures forall i :: 0 <= i < |ImportNames| ==> Imported()[ImportNames[i]] == ImportDefs[i]
  {
    ImportCorrected(map[], []);
  }

  /** The import's names, position by position. */
  lemma ImportFlat()
    ensures ImportNames == ImportOrder
  {
  }

  lemma ImportDependsAt(i: nat)
    requires i < |ImportDefs|
    ensures ImportDefs[i].dependsOn == ImportDepends[i]
  {
    if i < 5 {
      assert ImportDefs[i] == TableDefs[i];
    } else {
      TailDependsAt(i - 5);
    }
  }

  lemma TailDependsAt(j: nat)
    requires j < 11
    ensures 5 + j < |ImportDefs| && ImportDefs[5 + j].dependsOn == ImportDepends[5 + j]
  {
    var rest := RunDefs + (ParagraphDefs + (BodyDefs + DocumentDefs));
    assert ImportDefs[5 + j] == rest[j];
    if j > 0 {
      var rest2 := ParagraphDefs + (BodyDefs + DocumentDefs);
      assert rest[j] == rest2[j - 1];
      if j < 6 {
        assert rest2[j - 1] == ParagraphDefs[j - 1];
      } else {
        assert rest2[j - 1] == (BodyDefs + DocumentDefs)[j - 6];
      }
    }
  }

  lemma ImportDefAt(i: nat)
    requires i == 5 || i == 15
    ensures i == 5 ==> ImportDefs[i] == RunDef
    ensures i == 15 ==> ImportDefs[i] == DocumentDef
  {
    var rest := RunDefs + (ParagraphDefs + (BodyDefs + DocumentDefs));
    assert ImportDefs[i] == rest[i - 5];
    if i == 15 {
      var rest2 := ParagraphDefs + (BodyDefs + DocumentDefs);
      assert rest[10] == rest2[9] == (BodyDefs + DocumentDefs)[4] == DocumentDef;
    }
  }

  /** The table at position `i` ranks above every imported group it extends. */
  predicate RankedAt(i: nat)
    requires i < |ImportOrder| && i < |ImportDepends|
  {
    && ImportOrder[i] in ImportRank
    && forall d :: d in ImportDepends[i] && d in ImportOrder ==>
         d in ImportRank && ImportRank[d] < ImportRank[ImportOrder[i]]
  }

  lemma Below(d: string, x: string)
    requires d in ImportOrder && x in ImportOrder && ImportLevel(d) < ImportLevel(x)
    ensures d in ImportRank && x in ImportRank && ImportRank[d] < ImportRank[x]
  {
  }

  lemma RankedAt0()
    ensures RankedAt(0)
  {
    assert ImportOrder[0] == "CT_Tbl" && ImportOrder[1] == "EG_ContentRowContent";
    assert ImportDepends[0] == ["EG_ContentRowContent"];
    Below("EG_ContentRowContent", "CT_Tbl");
  }
  lemma RankedAt1()
    ensures RankedAt(1)
  {
    assert ImportOrder[1] == "EG_ContentRowContent" && ImportOrder[11] == "EG_RangeMarkupElements";
    assert ImportDepends[1] == ["EG_RangeMarkupElements"];
    Below("EG_RangeMarkupElements", "EG_ContentRowContent");
  }
  lemma RankedAt2()
    ensures RankedAt(2)
  {
    assert ImportOrder[2] == "CT_Row" && ImportOrder[3] == "EG_ContentCellContent";
    assert ImportDepends[2] == ["EG_ContentCellContent"];
    Below("EG_ContentCellContent", "CT_Row");
  }
  lemma RankedAt3()
    ensures RankedAt(3)
  {
    assert ImportOrder[3] == "EG_ContentCellContent" && ImportOrder[12] == "EG_RunLevelElts";
    assert ImportDepends[3] == ["EG_RunLevelElts"];
    Below("EG_RunLevelElts", "EG_ContentCellContent");
  }
  lemma RankedAt4()
    ensures RankedAt(4)
  {
    assert ImportOrder[4] == "CT_Tc" && ImportOrder[13] == "EG_BlockLevelElts";
    assert ImportDepends[4] == ["EG_BlockLevelElts"];
    Below("EG_BlockLevelElts", "CT_Tc");
  }
  lemma RankedAt12()
    ensures RankedAt(12)
  {
    assert ImportOrder[12] == "EG_RunLevelElts" && ImportOrder[11] == "EG_RangeMarkupElements";
    assert ImportDepends[12] == ["EG_RangeMarkupElements"];
    Below("EG_RangeMarkupElements", "EG_RunLevelElts");
  }
  lemma RankedAt13()
    ensures RankedAt(13)
  {
    assert ImportOrder[13] == "EG_BlockLevelElts" && ImportOrder[12] == "EG_RunLevelElts";
    assert ImportDepends[13] == ["EG_RunLevelElts"];
    Below("EG_RunLevelElts", "EG_BlockLevelElts");
  }
  lemma RankedAt14()
    ensures RankedAt(14)
  {
    assert ImportOrder[14] == "CT_Body" && ImportOrder[13] == "EG_BlockLevelElts";
    assert ImportDepends[14] == ["EG_BlockLevelElts"];
    Below("EG_BlockLevelElts", "CT_Body");
  }
  lemma RankedAtLeaf(i: nat) requires i < |ImportOrder| && ImportDepends[i] == [] ensures RankedAt(i) { }
  lemma RankedAtParagraph(i: nat)
    requires 6 <= i < 11
    ensures RankedAt(i)
  {
    ParagraphDepends(i - 6);
    PContentNotOrdered();
    assert ImportOrder[i] in ImportOrder;
  }

  lemma RankedEverywhere(i: nat)
    requires i < |ImportOrder|
    ensures RankedAt(i)
  {
    if i == 0 { RankedAt0(); }
    else if i == 1 { RankedAt1(); }
    else if i == 2 { RankedAt2(); }
    else if i == 3 { RankedAt3(); }
    else if i == 4 { RankedAt4(); }
    else if i == 12 { RankedAt12(); }
    else if i == 13 { RankedAt13(); }
    else if i == 14 { RankedAt14(); }
    else if 6 <= i < 11 { RankedAtParagraph(i); }
    else { RankedAtLeaf(i); }
  }

  /** Every imported name has a rank. */
  lemma ImportRankCovers()
    ensures forall x :: x in Imported() ==> x in ImportRank
  {
    ImportedTables();
    ImportFlat();
    forall x | x in Imported()
      ensures x in ImportRank
    {
      var i :| 0 <= i < |ImportOrder| && ImportOrder[i] == x;
      RankedEverywhere(i);
    }
  }

  /** Every imported group a table extends ranks below it. */
  lemma ImportRankDecreases(x: string, d: string)
    requires x in Imported() && d in Imported()[x].dependsOn && d in Imported()
    ensures d in ImportRank && x in ImportRank && ImportRank[d] < ImportRank[x]
  {
    ImportedTables();
    ImportFlat();
    var i :| 0 <= i < |ImportOrder| && ImportOrder[i] == x;
    ImportedAt(i);
    ImportDependsAt(i);
    RankedEverywhere(i);
  }

  /** The `extends` lists of the import have no cycle. */
  lemma ImportRanked()
    ensures Ranked(Imported(), ImportRank)
  {
    ImportRankCovers();
    forall x, d | x in Imported() && d in Imported()[x].dependsOn && d in Imported()
      ensures d in ImportRank && ImportRank[d] < ImportRank[x]
    {
      ImportRankDecreases(x, d);
    }
  }

  lemma ImportedAt(i: nat)
    requires i < |ImportNames|
    ensures ImportNames[i] in Imported() && Imported()[ImportNames[i]] == ImportDefs[i]
  {
    ImportedTables();
  }

  lemma ParagraphAt(k: nat)
    requires k < |ParagraphNames|
    ensures 6 + k < |ImportNames| && ImportNames[6 + k] == ParagraphNames[k]
  {
    var rest := RunNames + (ParagraphNames + (BodyNames + DocumentNames));
    assert ImportNames[6 + k] == rest[1 + k];
    assert rest[1 + k] == (ParagraphNames + (BodyNames + DocumentNames))[k];
  }

  lemma ParagraphDepends(k: nat)
    requires k < 5
    ensures ImportDepends[6 + k] == ["EG_PContent"]
  {
  }

  /** Each paragraph-level table is imported extending EG_PContent alone. */
  lemma ParagraphShape(k: nat)
    requires k < |ParagraphNames|
    ensures ParagraphNames[k] in Imported() && Imported()[ParagraphNames[k]].dependsOn == ["EG_PContent"]
  {
    ParagraphAt(k);
    ImportedAt(6 + k);
    ImportDependsAt(6 + k);
    ParagraphDepends(k);
  }

  /** EG_PContent is not among what the import registers. */
  lemma NoPContent()
    ensures "EG_PContent" !in Imported()
  {
    ImportedTables();
    ImportFlat();
    PContentNotOrdered();
  }

  lemma PContentNotOrdered()
    ensures "EG_PContent" !in ImportOrder
  {
  }

  /** CT_R extends nothing, so right after the import it resolves to its registration as it stands. */
  lemma ImportedRun()
    ensures Ranked(Imported(), ImportRank)
    ensures "CT_R" in Imported() && Resolve(Imported(), ImportRank, "CT_R") == Ok(RunDef)
  {
    ImportedTables();
    ImportRanked();
    ImportFlat();
    assert ImportOrder[5] == "CT_R";
    ImportDefAt(5);
  }

  /** CT_Document extends nothing either and resolves to its registration. */
  lemma ImportedDocument()
    ensures Ranked(Imported(), ImportRank)
    ensures "CT_Document" in Imported() && Resolve(Imported(), ImportRank, "CT_Document") == Ok(DocumentDef)
  {
    ImportedTables();
    ImportRanked();
    ImportFlat();
    assert ImportOrder[15] == "CT_Document";
    ImportDefAt(15);
  }

  /**
   * The five paragraph-level tables extend EG_PContent, which only
   * `set_options` registers, so right after the import each of them
   * fails to resolve with the missing-group error.
   */
  lemma ImportedParagraph(k: nat)
    requires k < |ParagraphNames|
    ensures Ranked(Imported(), ImportRank)
    ensures ParagraphNames[k] in Imported()
    ensures Resolve(Imported(), ImportRank, ParagraphNames[k]) == Err(MissingGroup(ParagraphNames[k], "EG_PContent"))
  {
    ImportRanked();
    var defs := Imported();
    var n := ParagraphNames[k];
    ParagraphShape(k);
    NoPContent();
    MissingDependency(defs, ImportRank, n, Own(defs[n]), 0, 0);
    assert Resolve(defs, ImportRank, n) == ResolveDeps(defs, ImportRank, n, Own(defs[n]), 0);
  }

  /**
   * CT_Hyperlink and CT_SimpleField add nothing of their own, so once a
   * group EG_PContent that extends others is registered beside them they
   * resolve to exactly EG_PContent's tables.
   */
  lemma PassThroughTables(defs: map<string, Definition>, rank: map<string, nat>)
    requires Ranked(defs, rank) && "EG_PContent" in defs && defs["EG_PContent"].dependsOn != []
    requires "CT_Hyperlink" in defs && defs["CT_Hyperlink"] == HyperlinkDef
    requires "CT_SimpleField" in defs && defs["CT_SimpleField"] == SimpleFieldDef
    ensures Resolve(defs, rank, "CT_Hyperlink") == Resolve(defs, rank, "EG_PContent")
    ensures Resolve(defs, rank, "CT_SimpleField") == Resolve(defs, rank, "EG_PContent")
  {
    SoleDependency(defs, rank, "CT_Hyperlink", "EG_PContent");
    SoleDependency(defs, rank, "CT_SimpleField", "EG_PContent");
  }
}
