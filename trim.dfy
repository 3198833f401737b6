/**
 * Leading and trailing white-space trimming of a paragraph's merged
 * contents (`paragraph.to_json`): text entries at the edge are stripped,
 * entries left empty are dropped, and the first non-text entry or the
 * first text entry that keeps some content stops the trimming.
 */
module ParagraphTrim {
  import opened Runtime
  import opened Json
  import opened Options

  /** The edge entry is text and only white space: trimming drops it. */
  predicate LeadBlank(j: Json)
  {
    TypeIs(j, "CT_Text") && Item(j, "VALUE").Ok? && Item(j, "VALUE").value.JStr?
    && LStrip(Item(j, "VALUE").value.s) == []
  }

  predicate TrailBlank(j: Json)
  {
    TypeIs(j, "CT_Text") && Item(j, "VALUE").Ok? && Item(j, "VALUE").value.JStr?
    && RStrip(Item(j, "VALUE").value.s) == []
  }

  /**
   * One edge entry trimmed: `Ok(None)` when it is text left empty (and is
   * dropped), `Ok(Some(j'))` when it stays, stripped if it is text.
   */
  function TrimmedEdge(j: Json, leading: bool): Result<Option<Json>>
  {
    var t :- Item(j, "TYPE");
    if t != JStr("CT_Text") then Ok(Some(j))
    else
      var v :- Item(j, "VALUE");
      if !v.JStr? then Err(AttributeError(if leading then "lstrip" else "rstrip"))
      else
        var s := if leading then LStrip(v.s) else RStrip(v.s);
        ItemSpec(j, "VALUE");
        if s == [] then Ok(None) else Ok(Some(SetItem(j, "VALUE", JStr(s))))
  }

  /** The leading loop: pop the first entry, strip it, put it back unless it is empty. */
  function LeadTrimmed(cs: seq<Json>): Result<seq<Json>>
  {
    if cs == [] then Ok([])
    else
      var edge :- TrimmedEdge(cs[0], true);
      match edge
      case Some(j) => Ok([j] + cs[1..])
      case None => LeadTrimmed(cs[1..])
  }

  /** The trailing loop: the same from the last entry backwards. */
  function TrailTrimmed(cs: seq<Json>): Result<seq<Json>>
  {
    if cs == [] then Ok([])
    else
      var edge :- TrimmedEdge(cs[|cs| - 1], false);
      match edge
      case Some(j) => Ok(cs[..|cs| - 1] + [j])
      case None => TrailTrimmed(cs[..|cs| - 1])
  }

  /** Both trimmings, each under its option (on when absent). */
  function Trimmed(o: Options, cs: seq<Json>): Result<seq<Json>>
  {
    var a :- if Flag(o, "remove-leading-white-space", true) then LeadTrimmed(cs) else Ok(cs);
    if Flag(o, "remove-trailing-white-space", true) then TrailTrimmed(a) else Ok(a)
  }

  // ---------------------------------------------------------------------
  // What trimming does

  /** An edge entry is dropped exactly when it is blank text, and is otherwise kept with only `VALUE` stripped. */
  lemma EdgeSpec(j: Json, leading: bool)
    requires TrimmedEdge(j, leading).Ok?
    ensures TrimmedEdge(j, leading).value.None? <==> (if leading then LeadBlank(j) else TrailBlank(j))
    ensures TrimmedEdge(j, leading).value.Some? && !TypeIs(j, "CT_Text") ==> TrimmedEdge(j, leading).value.value == j
    ensures TrimmedEdge(j, leading).value.Some? && TypeIs(j, "CT_Text") ==>
      var v := Item(j, "VALUE").value;
      var s := if leading then LStrip(v.s) else RStrip(v.s);
      && v.JStr? && s != []
      && TrimmedEdge(j, leading).value.value == SetItem(j, "VALUE", JStr(s))
  {
    ItemSpec(j, "TYPE");
    ItemSpec(j, "VALUE");
  }

  /**
   * Leading trimming drops a run of blank text entries, then keeps the rest
   * unchanged except the first entry, which is stripped if it is text.
   */
  lemma {:induction false} LeadTrimmedSpec(cs: seq<Json>)
    requires LeadTrimmed(cs).Ok?
    ensures var r := LeadTrimmed(cs).value;
      && |r| <= |cs|
      && (forall i :: 0 <= i < |cs| - |r| ==> LeadBlank(cs[i]))
      && (r != [] ==>
            var k := |cs| - |r|;
            && r[1..] == cs[k + 1..]
            && TrimmedEdge(cs[k], true) == Ok(Some(r[0]))
            && !LeadBlank(cs[k]))
  {
    if cs != [] {
      var edge := TrimmedEdge(cs[0], true).value;
      EdgeSpec(cs[0], true);
      if edge.None? {
        LeadTrimmedSpec(cs[1..]);
        var r := LeadTrimmed(cs[1..]).value;
        assert LeadTrimmed(cs) == Ok(r);
        forall i | 0 <= i < |cs| - |r|
          ensures LeadBlank(cs[i])
        {
          if i > 0 {
            assert cs[i] == cs[1..][i - 1];
          }
        }
        if r != [] {
          var k := |cs| - |r|;
          assert cs[1..][k - 1] == cs[k];
          assert cs[1..][k..] == cs[k + 1..];
        }
      }
    }
  }

  /** Trailing trimming, symmetrically, from the end. */
  lemma {:induction false} TrailTrimmedSpec(cs: seq<Json>)
    requires TrailTrimmed(cs).Ok?
    ensures var r := TrailTrimmed(cs).value;
      && |r| <= |cs|
      && (forall i :: |r| <= i < |cs| ==> TrailBlank(cs[i]))
      && (r != [] ==>
            var k := |r| - 1;
            && r[..k] == cs[..k]
            && TrimmedEdge(cs[k], false) == Ok(Some(r[k]))
            && !TrailBlank(cs[k]))
  {
    if cs != [] {
      var n := |cs| - 1;
      var edge := TrimmedEdge(cs[n], false).value;
      EdgeSpec(cs[n], false);
      if edge.None? {
        var init := cs[..n];
        TrailTrimmedSpec(init);
        var r := TrailTrimmed(init).value;
        assert TrailTrimmed(cs) == Ok(r);
        forall i | |r| <= i < |cs|
          ensures TrailBlank(cs[i])
        {
          if i < n {
            assert cs[i] == init[i];
          }
        }
        if r != [] {
          var k := |r| - 1;
          assert init[k] == cs[k];
          assert init[..k] == cs[..k];
        }
      }
    }
  }

  /** A list whose first entry is not text is left exactly as it is by leading trimming. */
  lemma LeadNonText(j: Json, rest: seq<Json>)
    requires Item(j, "TYPE").Ok? && !TypeIs(j, "CT_Text")
    ensures LeadTrimmed([j] + rest) == Ok([j] + rest)
  {
    assert ([j] + rest)[0] == j && ([j] + rest)[1..] == rest;
  }

  // ---------------------------------------------------------------------
  // The loops as written

  /** `while children: ... children.pop(0) ... children.insert(0, first)`. */
  method TrimLeading(cs: seq<Json>) returns (r: Result<seq<Json>>)
    ensures r == LeadTrimmed(cs)
  {
    var children := cs;
    while children != []
      invariant LeadTrimmed(children) == LeadTrimmed(cs)
      decreases |children|
    {
      var t := Item(children[0], "TYPE");
      if t.Err? {
        return Err(t.error);
      }
      if t.value != JStr("CT_Text") {
        assert [children[0]] + children[1..] == children;
        return Ok(children);
      }
      var first := children[0];
      children := children[1..];
      var v := Item(first, "VALUE");
      if v.Err? {
        return Err(v.error);
      }
      if !v.value.JStr? {
        return Err(AttributeError("lstrip"));
      }
      ItemSpec(first, "VALUE");
      var stripped := LStrip(v.value.s);
      first := SetItem(first, "VALUE", JStr(stripped));
      if stripped != [] {
        return Ok([first] + children);
      }
    }
    return Ok([]);
  }

  /** `while children: ... children.pop() ... children.append(last)`. */
  method TrimTrailing(cs: seq<Json>) returns (r: Result<seq<Json>>)
    ensures r == TrailTrimmed(cs)
  {
    var children := cs;
    while children != []
      invariant TrailTrimmed(children) == TrailTrimmed(cs)
      decreases |children|
    {
      var n := |children| - 1;
      var t := Item(children[n], "TYPE");
      if t.Err? {
        return Err(t.error);
      }
      if t.value != JStr("CT_Text") {
        assert children[..n] + [children[n]] == children;
        return Ok(children);
      }
      var last := children[n];
      children := children[..n];
      var v := Item(last, "VALUE");
      if v.Err? {
        return Err(v.error);
      }
      if !v.value.JStr? {
        return Err(AttributeError("rstrip"));
      }
      ItemSpec(last, "VALUE");
      var stripped := RStrip(v.value.s);
      last := SetItem(last, "VALUE", JStr(stripped));
      if stripped != [] {
        return Ok(children + [last]);
      }
    }
    return Ok([]);
  }

  /** The two trimming blocks of `paragraph.to_json`, each under its option. */
  method TrimParagraph(o: Options, cs: seq<Json>) returns (r: Result<seq<Json>>)
    ensures r == Trimmed(o, cs)
  {
    var children := cs;
    if Flag(o, "remove-leading-white-space", true) {
      var a := TrimLeading(children);
      if a.Err? {
        return a;
      }
      children := a.value;
    }
    if Flag(o, "remove-trailing-white-space", true) {
      r := TrimTrailing(children);
    } else {
      r := Ok(children);
    }
  }
}
