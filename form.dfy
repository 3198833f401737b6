/**
 * Form fields (`w:fldChar`): the field data read on construction, the
 * state machine that collects a field's codes and results between its
 * begin, separate and end markers, and the field's serialization.
 */
module Form {
  import opened Runtime
  import opened Json
  import opened Xml
  import opened Kinds
  import opened Options
  import opened ElementBase
  import opened Merge

  /** A property snapshot: the declared names with their values, in order. */
  type Snap = seq<(string, Prop)>

  const FfDataProps: seq<string> :=
    ["name", "label", "tabIndex", "enabled", "calcOnExit", "entryMacro", "exitMacro", "helpText", "statusText"]
  const CheckBoxProps: seq<string> := ["default", "checked"]
  const DdListProps: seq<string> := ["default", "result", "listEntry_lst"]
  const TextInputProps: seq<string> := ["default", "type_", "format_"]

  /** An `ffData` element: its own snapshot and the snapshots of the sub-elements present. */
  datatype FfData = FfData(props: Snap, checkBox: Option<Snap>, ddList: Option<Snap>, textInput: Option<Snap>)

  /** A sub-element object, built only when the child element exists. */
  function SubElement(x: Node, tag: string, names: seq<string>): Result<Option<Snap>>
  {
    match FirstChild(x, tag)
    case None => Ok(None)
    case Some(c) =>
      var p :- PropsOf(c, names);
      Ok(Some(p))
  }

  /** `ffData.__init__`. */
  function MakeFfData(x: Node): Result<FfData>
  {
    var own :- PropsOf(x, FfDataProps);
    var cb :- SubElement(x, W_checkBox, CheckBoxProps);
    var dd :- SubElement(x, W_ddList, DdListProps);
    var ti :- SubElement(x, W_textInput, TextInputProps);
    Ok(FfData(own, cb, dd, ti))
  }

  /** The instance `__type__` a field takes on construction. */
  datatype FieldKind = Checkbox | DropDown | TextInput | GenericField

  function KindName(k: FieldKind): string
  {
    match k
    case Checkbox => "Checkbox"
    case DropDown => "DropDown"
    case TextInput => "TextInput"
    case GenericField => "generic-field"
  }

  /** What a field character holds from construction on. */
  datatype Field = Field(props: Snap, kind: FieldKind, ffData: Option<FfData>)

  /** The first sub-element present decides the kind. */
  function Classify(d: FfData): FieldKind
  {
    if d.checkBox.Some? then Checkbox
    else if d.ddList.Some? then DropDown
    else if d.textInput.Some? then TextInput
    else GenericField
  }

  /** `fldChar.__init__`: the snapshot, then the field data and the kind. */
  function MakeField(n: Node): Result<Field>
  {
    var props :- PropsOf(n, PropNames(FldChar));
    match FirstChild(n, W_ffData)
    case None => Ok(Field(props, GenericField, None))
    case Some(x) =>
      var d :- MakeFfData(x);
      Ok(Field(props, Classify(d), Some(d)))
  }

  /** The field data holds the sub-element its kind is named after. */
  predicate WellFormed(f: Field)
  {
    && (f.kind == Checkbox ==> f.ffData.Some? && f.ffData.value.checkBox.Some?)
    && (f.kind == DropDown ==> f.ffData.Some? && f.ffData.value.ddList.Some?)
    && (f.kind == TextInput ==> f.ffData.Some? && f.ffData.value.textInput.Some?)
  }

  /** Whether the element has a child with the tag, seen through the optional `ffData` child. */
  predicate HasField(n: Node, tag: string)
  {
    FirstChild(n, W_ffData).Some? && FirstChild(FirstChild(n, W_ffData).value, tag).Some?
  }

  /** Each sub-element snapshot exists exactly when its child element does. */
  lemma MakeFfDataParts(x: Node)
    requires MakeFfData(x).Ok?
    ensures MakeFfData(x).value.checkBox.Some? <==> FirstChild(x, W_checkBox).Some?
    ensures MakeFfData(x).value.ddList.Some? <==> FirstChild(x, W_ddList).Some?
    ensures MakeFfData(x).value.textInput.Some? <==> FirstChild(x, W_textInput).Some?
  {
  }

  /**
   * The kind is decided in priority order: a checkBox makes a Checkbox, else
   * a ddList a DropDown, else a textInput a TextInput; anything else,
   * including a field without ffData, is a generic field.  The field data
   * then holds the sub-element its kind needs.
   */
  lemma MakeFieldKind(n: Node)
    requires MakeField(n).Ok?
    ensures var f := MakeField(n).value;
      && WellFormed(f)
      && (f.ffData.Some? <==> FirstChild(n, W_ffData).Some?)
      && (f.kind == Checkbox <==> HasField(n, W_checkBox))
      && (f.kind == DropDown <==> !HasField(n, W_checkBox) && HasField(n, W_ddList))
      && (f.kind == TextInput <==> !HasField(n, W_checkBox) && !HasField(n, W_ddList) && HasField(n, W_textInput))
      && (f.kind == GenericField <==> !HasField(n, W_checkBox) && !HasField(n, W_ddList) && !HasField(n, W_textInput))
  {
    if FirstChild(n, W_ffData).Some? {
      MakeFfDataParts(FirstChild(n, W_ffData).value);
    }
  }

  /** The field's snapshot holds its three declared names, once each, none of them `TYPE`. */
  lemma MakeFieldNamed(n: Node)
    requires MakeField(n).Ok?
    ensures WellNamed(MakeField(n).value.props)
    ensures forall i :: 0 <= i < |MakeField(n).value.props| ==> MakeField(n).value.props[i].0 in PropNames(FldChar)
  {
    var names := PropNames(FldChar);
    PropsOfSpec(n, names);
    var props := PropsOf(n, names).value;
    assert names == ["fldCharType", "fldLock", "dirty"];
    assert forall i :: 0 <= i < |props| ==> props[i].0 == names[i];
  }

  /** What construction guarantees of a field: its data fits its kind and its snapshot is well named. */
  predicate Built(f: Field)
  {
    && WellFormed(f)
    && WellNamed(f.props)
    && forall i :: 0 <= i < |f.props| ==> f.props[i].0 in PropNames(FldChar)
  }

  lemma MakeFieldBuilt(n: Node)
    requires MakeField(n).Ok?
    ensures Built(MakeField(n).value)
  {
    MakeFieldKind(n);
    MakeFieldNamed(n);
  }

  // ---------------------------------------------------------------------
  // The update state machine

  /** `status`: which list the next element goes to, or complete. */
  datatype Status = FieldCodes | FieldResults | Complete

  /** What an element is to an open field: one of the three markers, or content. */
  datatype Marker = Begin | Separate | End | Content

  /** `other.props["fldCharType"]` compared against the three marker names. */
  function MarkerOf(e: Elem): Marker
  {
    if e.kind != FldChar || "fldCharType" !in e.node.props then Content
    else match e.node.props["fldCharType"]
      case PStr(s) =>
        if s == "begin" then Begin
        else if s == "separate" then Separate
        else if s == "end" then End
        else Content
      case _ => Content
  }

  /** The state `update` changes: the status and the two collected lists. */
  datatype FieldState = FieldState(status: Status, codes: seq<Elem>, results: seq<Elem>)

  const Opened := FieldState(FieldCodes, [], [])
  const CompletedError := RuntimeError("Logic Error: Updating a completed field data")
  const NestingError := RuntimeError("Unhandled nesting of data fields")

  /** `fldChar.update(other)`: the new state and whether the field is now complete. */
  function UpdateSpec(st: FieldState, other: Elem): Result<(FieldState, bool)>
  {
    if st.status == Complete then Err(CompletedError)
    else match MarkerOf(other)
      case Begin => Err(NestingError)
      case Separate => Ok((st.(status := FieldResults), false))
      case End => Ok((st.(status := Complete), true))
      case Content =>
        if st.status == FieldResults then Ok((st.(results := st.results + [other]), false))
        else Ok((st.(codes := st.codes + [other]), false))
  }

  function Rank(s: Status): nat
  {
    match s
    case FieldCodes => 0
    case FieldResults => 1
    case Complete => 2
  }

  /**
   * One update: a complete field refuses it; a nested begin raises; the
   * status only moves forward, and `update` reports true exactly when it
   * moves to complete; markers change nothing else, and content goes to the
   * results once a separate marker was seen and to the codes before.
   */
  lemma UpdateStep(st: FieldState, other: Elem)
    ensures st.status == Complete ==> UpdateSpec(st, other) == Err(CompletedError)
    ensures st.status != Complete && MarkerOf(other) == Begin ==> UpdateSpec(st, other) == Err(NestingError)
    ensures UpdateSpec(st, other).Ok? <==> st.status != Complete && MarkerOf(other) != Begin
    ensures UpdateSpec(st, other).Ok? ==>
      var (st', done) := UpdateSpec(st, other).value;
      && Rank(st'.status) >= Rank(st.status)
      && (done <==> st'.status == Complete)
      && (MarkerOf(other) != Content ==> st'.codes == st.codes && st'.results == st.results)
      && (MarkerOf(other) == Content ==>
            && st'.status == st.status && !done
            && (st.status == FieldResults ==> st'.results == st.results + [other] && st'.codes == st.codes)
            && (st.status == FieldCodes ==> st'.codes == st.codes + [other] && st'.results == st.results))
  {
  }

  /** Feeding elements one by one until the field completes: the state, and how many were consumed. */
  function Feed(st: FieldState, es: seq<Elem>): Result<(FieldState, nat)>
    decreases es
  {
    if es == [] || st.status == Complete then Ok((st, 0))
    else
      var (st', done) :- UpdateSpec(st, es[0]);
      if done then Ok((st', 1))
      else Shifted(Feed(st', es[1..]), 1)
  }

  /** A feed result with `k` more elements counted as consumed. */
  function Shifted(r: Result<(FieldState, nat)>, k: nat): Result<(FieldState, nat)>
  {
    if r.Ok? then Ok((r.value.0, r.value.1 + k)) else r
  }

  /** No element of `es` is a marker. */
  predicate AllContent(es: seq<Elem>)
  {
    forall i :: 0 <= i < |es| ==> MarkerOf(es[i]) == Content
  }

  /** The state after `es` is appended to the list the status names. */
  function Collect(st: FieldState, es: seq<Elem>): FieldState
  {
    if st.status == FieldResults then st.(results := st.results + es) else st.(codes := st.codes + es)
  }

  /**
   * Between markers, an open field collects every element, in order, into
   * the list its status names, consumes them all, and then goes on with
   * what follows.
   */
  lemma {:induction false} FeedPrefix(st: FieldState, a: seq<Elem>, b: seq<Elem>)
    requires st.status != Complete && AllContent(a)
    ensures Feed(st, a + b) == Shifted(Feed(Collect(st, a), b), |a|)
    decreases a
  {
    if a == [] {
      assert a + b == b;
      assert st.codes + a == st.codes && st.results + a == st.results;
    } else {
      CollectHead(st, a);
      var st1 := Collect(st, [a[0]]);
      FeedContent(st, a[0], a[1..] + b);
      assert (a + b)[0] == a[0] && (a + b)[1..] == a[1..] + b;
      FeedPrefix(st1, a[1..], b);
    }
  }

  /** Feeding past an element that does not complete the field counts it as consumed. */
  lemma FeedContent(st: FieldState, x: Elem, rest: seq<Elem>)
    requires st.status != Complete && UpdateSpec(st, x) == Ok((Collect(st, [x]), false))
    ensures Feed(st, [x] + rest) == Shifted(Feed(Collect(st, [x]), rest), 1)
  {
    assert ([x] + rest)[0] == x && ([x] + rest)[1..] == rest;
  }

  /** Collecting is one element at a time: the first element is an update that does not complete. */
  lemma CollectHead(st: FieldState, es: seq<Elem>)
    requires st.status != Complete && es != [] && AllContent(es)
    ensures UpdateSpec(st, es[0]) == Ok((Collect(st, [es[0]]), false))
    ensures Collect(st, [es[0]]).status == st.status
    ensures AllContent(es[1..])
    ensures Collect(Collect(st, [es[0]]), es[1..]) == Collect(st, es)
  {
    assert MarkerOf(es[0]) == Content;
    assert forall i :: 0 <= i < |es[1..]| ==> es[1..][i] == es[i + 1];
    assert es == [es[0]] + es[1..];
    assert st.codes + [es[0]] + es[1..] == st.codes + es;
    assert st.results + [es[0]] + es[1..] == st.results + es;
  }

  /** Collecting nothing leaves the state as it is. */
  lemma CollectNone(st: FieldState)
    ensures Collect(st, []) == st
  {
    assert st.codes + [] == st.codes && st.results + [] == st.results;
  }

  /** Feeding stops at completion: what follows the completing element is never looked at. */
  lemma {:induction false} FeedStops(st: FieldState, a: seq<Elem>, b: seq<Elem>, st': FieldState)
    requires st.status != Complete && Feed(st, a) == Ok((st', |a|)) && st'.status == Complete
    ensures Feed(st, a + b) == Ok((st', |a|))
    decreases a
  {
    assert a != [];
    assert (a + b)[0] == a[0] && (a + b)[1..] == a[1..] + b;
    UpdateStep(st, a[0]);
    var (s1, done) := UpdateSpec(st, a[0]).value;
    if !done {
      assert Feed(s1, a[1..]) == Ok((st', |a[1..]|));
      FeedStops(s1, a[1..], b, st');
    }
  }

  /** The first element of a feed that completes the field: it completes it alone, or the feed goes on from the new state. */
  lemma FeedHead(st: FieldState, items: seq<Elem>, st': FieldState, k: nat)
    requires st.status != Complete && Feed(st, items) == Ok((st', k)) && st'.status == Complete
    ensures items != [] && 1 <= k && UpdateSpec(st, items[0]).Ok?
    ensures UpdateSpec(st, items[0]).value.1 ==> UpdateSpec(st, items[0]).value.0 == st' && k == 1
    ensures !UpdateSpec(st, items[0]).value.1 ==>
      UpdateSpec(st, items[0]).value.0.status != Complete && Feed(UpdateSpec(st, items[0]).value.0, items[1..]) == Ok((st', k - 1))
  {
    UpdateStep(st, items[0]);
  }

  /** A whole field followed by anything: feeding stops at its end marker. */
  lemma FeedWholeFieldThen(codes: seq<Elem>, sep: Elem, results: seq<Elem>, end: Elem, rest: seq<Elem>)
    requires AllContent(codes) && AllContent(results)
    requires MarkerOf(sep) == Separate && MarkerOf(end) == End
    ensures var whole := codes + [sep] + results + [end];
      Feed(Opened, whole + rest) == Ok((FieldState(Complete, codes, results), |whole|))
  {
    FeedWholeField(codes, sep, results, end);
    FeedStops(Opened, codes + [sep] + results + [end], rest, FieldState(Complete, codes, results));
  }

  /** Results followed by the end marker complete a field that is collecting results. */
  lemma FeedResultsEnd(st: FieldState, results: seq<Elem>, end: Elem)
    requires st.status == FieldResults && AllContent(results) && MarkerOf(end) == End
    ensures Feed(st, results + [end])
            == Ok((FieldState(Complete, st.codes, st.results + results), |results| + 1))
  {
    FeedPrefix(st, results, [end]);
    FeedEnd(Collect(st, results), end);
  }

  /** The end marker alone completes an open field and is consumed. */
  lemma FeedEnd(st: FieldState, end: Elem)
    requires st.status != Complete && MarkerOf(end) == End
    ensures Feed(st, [end]) == Ok((st.(status := Complete), 1))
  {
    assert UpdateSpec(st, end) == Ok((st.(status := Complete), true));
    assert [end][0] == end;
  }

  /**
   * A whole field: begin (the opening element itself), codes, separate,
   * results, end.  Feeding everything after the opening element completes
   * the field with exactly those codes and results, consuming all of it.
   */
  lemma FeedWholeField(codes: seq<Elem>, sep: Elem, results: seq<Elem>, end: Elem)
    requires AllContent(codes) && AllContent(results)
    requires MarkerOf(sep) == Separate && MarkerOf(end) == End
    ensures Feed(Opened, codes + [sep] + results + [end])
            == Ok((FieldState(Complete, codes, results), |codes| + |results| + 2))
  {
    var rest := results + [end];
    var tail := [sep] + rest;
    AppendAssoc(codes + [sep], results, [end]);
    AppendAssoc(codes, [sep], rest);
    FeedPrefix(Opened, codes, tail);
    AppendEmpty(codes);
    AppendEmpty(results);
    var st1 := FieldState(FieldCodes, codes, []);
    assert Collect(Opened, codes) == st1;
    ConcatStep([sep], rest);
    UpdateStep(st1, sep);
    var st2 := FieldState(FieldResults, codes, []);
    assert Feed(st1, tail) == Shifted(Feed(st2, rest), 1);
    FeedResultsEnd(st2, results, end);
  }

  /** A field character: the construction-time data and the state `update` changes in place. */
  class FldChar {
    const field: Field
    var status: Status
    var fieldCodes: seq<Elem>
    var fieldResults: seq<Elem>

    /** `fldChar.__init__`: collecting codes, with both lists empty. */
    constructor(f: Field)
      ensures field == f && State() == Opened
    {
      field := f;
      status := FieldCodes;
      fieldCodes := [];
      fieldResults := [];
    }

    function State(): FieldState
      reads this
    {
      FieldState(status, fieldCodes, fieldResults)
    }

    /** `fldChar.update`: on success the state is the one `UpdateSpec` gives; on an error it is unchanged. */
    method Update(other: Elem) returns (r: Result<bool>)
      modifies this
      ensures UpdateSpec(old(State()), other).Ok? ==>
                r == Ok(UpdateSpec(old(State()), other).value.1) && State() == UpdateSpec(old(State()), other).value.0
      ensures UpdateSpec(old(State()), other).Err? ==>
                r == Err(UpdateSpec(old(State()), other).error) && State() == old(State())
    {
      if status == Complete {
        return Err(CompletedError);
      }
      var m := MarkerOf(other);
      if m == Begin {
        return Err(NestingError);
      }
      if m == Separate {
        status := FieldResults;
        return Ok(false);
      }
      if m == End {
        status := Complete;
        return Ok(true);
      }
      if status == FieldResults {
        fieldResults := fieldResults + [other];
      } else {
        fieldCodes := fieldCodes + [other];
      }
      return Ok(false);
    }
  }
}
