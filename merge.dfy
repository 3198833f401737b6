/**
 * `merge_run_contents`: the clean-up applied to the serialized contents of
 * a paragraph or a field result.  Empty text entries are dropped, and a
 * text entry that follows a text entry is concatenated onto it.
 */
module Merge {
  import opened Runtime
  import opened Json
  import opened Options

  /** Whether `data` is skipped as an empty text entry. */
  function Dropped(o: Options, data: Json): Result<bool>
  {
    if !Flag(o, "ignore-empty-text", true) then Ok(false)
    else
      var t :- Item(data, "TYPE");
      if t != JStr("CT_Text") then Ok(false)
      else
        var v :- Item(data, "VALUE");
        Ok(!Truthy(v))
  }

  /** Whether `data` is concatenated onto the previous entry `prev`. */
  function Joins(o: Options, prev: Json, data: Json): Result<bool>
  {
    var pt :- Item(prev, "TYPE");
    if pt != JStr("CT_Text") then Ok(false)
    else
      var dt :- Item(data, "TYPE");
      Ok(dt == JStr("CT_Text") && Flag(o, "merge-consecutive-text", true))
  }

  /** One iteration of the loop: `out` so far, then the next entry. */
  function MergeStep(o: Options, out: seq<Json>, data: Json): Result<seq<Json>>
  {
    var drop :- Dropped(o, data);
    if drop then Ok(out)
    else if out == [] || !Truthy(out[|out| - 1]) then Ok(out + [data])
    else
      var prev := out[|out| - 1];
      var join :- Joins(o, prev, data);
      if !join then Ok(out + [data])
      else
        var n :- Concatenated(prev, data);
        Ok(out[..|out| - 1] + [n])
  }

  /** `prev_data["VALUE"] += data["VALUE"]`. */
  function Concatenated(prev: Json, data: Json): Result<Json>
  {
    var pv :- Item(prev, "VALUE");
    var dv :- Item(data, "VALUE");
    var nv :- Plus(pv, dv);
    Ok(SetItem(prev, "VALUE", nv))
  }

  /** Concatenation keeps the entry's TYPE, and a non-empty VALUE stays non-empty. */
  lemma ConcatenatedSpec(prev: Json, data: Json)
    requires Concatenated(prev, data).Ok?
    ensures var n := Concatenated(prev, data).value;
            && Item(n, "TYPE") == Item(prev, "TYPE")
            && Item(n, "VALUE").Ok?
            && (Truthy(Item(prev, "VALUE").value) ==> Truthy(Item(n, "VALUE").value))
  {
  }

  /** The three ways an iteration ends: the entry is dropped, appended, or concatenated. */
  lemma StepCases(o: Options, out: seq<Json>, data: Json)
    requires MergeStep(o, out, data).Ok?
    ensures var r := MergeStep(o, out, data).value;
            || (Dropped(o, data) == Ok(true) && r == out)
            || (Dropped(o, data) == Ok(false) && r == out + [data]
                && (out == [] || !Truthy(out[|out| - 1]) || Joins(o, out[|out| - 1], data) == Ok(false)))
            || (Dropped(o, data) == Ok(false) && out != [] && Truthy(out[|out| - 1])
                && Joins(o, out[|out| - 1], data) == Ok(true)
                && Concatenated(out[|out| - 1], data).Ok?
                && r == out[..|out| - 1] + [Concatenated(out[|out| - 1], data).value])
  {
  }

  function MergeAll(o: Options, acc: seq<Json>, xs: seq<Json>): Result<seq<Json>>
    decreases xs
  {
    if xs == [] then Ok(acc)
    else
      var acc' :- MergeStep(o, acc, xs[0]);
      MergeAll(o, acc', xs[1..])
  }

  /** The merged contents, or the error the loop raises first. */
  function Merge(o: Options, xs: seq<Json>): Result<seq<Json>>
  {
    MergeAll(o, [], xs)
  }

  lemma MergeAllUnfold(o: Options, acc: seq<Json>, xs: seq<Json>, i: nat)
    requires i < |xs|
    ensures MergeStep(o, acc, xs[i]).Err? ==> MergeAll(o, acc, xs[i..]) == Err(MergeStep(o, acc, xs[i]).error)
    ensures MergeStep(o, acc, xs[i]).Ok? ==> MergeAll(o, acc, xs[i..]) == MergeAll(o, MergeStep(o, acc, xs[i]).value, xs[i + 1..])
  {
    SuffixStep(xs, i);
  }

  /**
   * `merge_run_contents` as written: a loop over the entries that keeps the
   * last appended entry and concatenates text onto it.
   */
  method MergeRunContents(o: Options, xs: seq<Json>) returns (r: Result<seq<Json>>)
    ensures r == Merge(o, xs)
  {
    var out: seq<Json> := [];
    var i := 0;
    while i < |xs|
      invariant 0 <= i <= |xs|
      invariant MergeAll(o, out, xs[i..]) == Merge(o, xs)
    {
      MergeAllUnfold(o, out, xs, i);
      var next := MergeEntry(o, out, xs[i]);
      if next.Err? {
        return Err(next.error);
      }
      out := next.value;
      i := i + 1;
    }
    return Ok(out);
  }

  /** The loop body: `data` dropped, appended after `out`, or concatenated onto its last entry. */
  method MergeEntry(o: Options, out: seq<Json>, data: Json) returns (r: Result<seq<Json>>)
    ensures r == MergeStep(o, out, data)
  {
    if Flag(o, "ignore-empty-text", true) {
      var t := Item(data, "TYPE");
      if t.Err? {
        return Err(t.error);
      }
      if t.value == JStr("CT_Text") {
        var v := Item(data, "VALUE");
        if v.Err? {
          return Err(v.error);
        }
        if !Truthy(v.value) {
          return Ok(out);
        }
      }
    }
    if out == [] || !Truthy(out[|out| - 1]) {
      return Ok(out + [data]);
    }
    var prev := out[|out| - 1];
    var pt := Item(prev, "TYPE");
    if pt.Err? {
      return Err(pt.error);
    }
    var join := false;
    if pt.value == JStr("CT_Text") {
      var dt := Item(data, "TYPE");
      if dt.Err? {
        return Err(dt.error);
      }
      join := dt.value == JStr("CT_Text") && Flag(o, "merge-consecutive-text", true);
    }
    if !join {
      return Ok(out + [data]);
    }
    var pv := Item(prev, "VALUE");
    if pv.Err? {
      return Err(pv.error);
    }
    var dv := Item(data, "VALUE");
    if dv.Err? {
      return Err(dv.error);
    }
    var nv := Plus(pv.value, dv.value);
    if nv.Err? {
      return Err(nv.error);
    }
    r := Ok(out[..|out| - 1] + [SetItem(prev, "VALUE", nv.value)]);
  }

  // ---------------------------------------------------------------------
  // Properties of the merge

  /** A dict with a `TYPE` is truthy. */
  lemma TypedIsTruthy(j: Json)
    requires Item(j, "TYPE").Ok?
    ensures Truthy(j)
  {
  }

  /** The merge never lengthens the contents. */
  lemma {:induction false} MergeAllShorter(o: Options, acc: seq<Json>, xs: seq<Json>)
    requires MergeAll(o, acc, xs).Ok?
    ensures |MergeAll(o, acc, xs).value| <= |acc| + |xs|
    decreases xs
  {
    if xs != [] {
      MergeAllShorter(o, MergeStep(o, acc, xs[0]).value, xs[1..]);
    }
  }

  /** No two adjacent entries are both text. */
  predicate NoAdjacentText(out: seq<Json>)
  {
    forall i :: 0 <= i < |out| - 1 ==> !(TypeIs(out[i], "CT_Text") && TypeIs(out[i + 1], "CT_Text"))
  }

  /** Every text entry has a non-empty VALUE. */
  predicate NoEmptyText(out: seq<Json>)
  {
    forall i :: 0 <= i < |out| && TypeIs(out[i], "CT_Text") ==>
      Item(out[i], "VALUE").Ok? && Truthy(Item(out[i], "VALUE").value)
  }

  lemma StepNoAdjacentText(o: Options, out: seq<Json>, data: Json)
    requires Flag(o, "merge-consecutive-text", true)
    requires NoAdjacentText(out) && MergeStep(o, out, data).Ok?
    ensures NoAdjacentText(MergeStep(o, out, data).value)
  {
    var r := MergeStep(o, out, data).value;
    StepCases(o, out, data);
    if Dropped(o, data) == Ok(false) && out != [] {
      var prev := out[|out| - 1];
      if r == out + [data] {
        assert !(TypeIs(prev, "CT_Text") && TypeIs(data, "CT_Text"));
      } else {
        var n := Concatenated(prev, data).value;
        ConcatenatedSpec(prev, data);
        assert TypeIs(n, "CT_Text") <==> TypeIs(prev, "CT_Text");
        forall i | 0 <= i < |r| - 1 ensures !(TypeIs(r[i], "CT_Text") && TypeIs(r[i + 1], "CT_Text")) {
          assert r[i] == out[i];
          if i + 1 < |r| - 1 {
            assert r[i + 1] == out[i + 1];
          }
        }
      }
    }
  }

  lemma StepNoEmptyText(o: Options, out: seq<Json>, data: Json)
    requires Flag(o, "ignore-empty-text", true)
    requires NoEmptyText(out) && MergeStep(o, out, data).Ok?
    ensures NoEmptyText(MergeStep(o, out, data).value)
  {
    var r := MergeStep(o, out, data).value;
    StepCases(o, out, data);
    if Dropped(o, data) == Ok(false) && r != out + [data] {
      var prev := out[|out| - 1];
      ConcatenatedSpec(prev, data);
      forall i | 0 <= i < |r| && TypeIs(r[i], "CT_Text")
        ensures Item(r[i], "VALUE").Ok? && Truthy(Item(r[i], "VALUE").value)
      {
        if i < |r| - 1 {
          assert r[i] == out[i];
        }
      }
    }
  }

  lemma {:induction false} MergeAllKeeps(o: Options, acc: seq<Json>, xs: seq<Json>)
    requires MergeAll(o, acc, xs).Ok?
    ensures Flag(o, "merge-consecutive-text", true) && NoAdjacentText(acc) ==> NoAdjacentText(MergeAll(o, acc, xs).value)
    ensures Flag(o, "ignore-empty-text", true) && NoEmptyText(acc) ==> NoEmptyText(MergeAll(o, acc, xs).value)
    decreases xs
  {
    if xs != [] {
      var a := MergeStep(o, acc, xs[0]).value;
      if Flag(o, "merge-consecutive-text", true) && NoAdjacentText(acc) {
        StepNoAdjacentText(o, acc, xs[0]);
      }
      if Flag(o, "ignore-empty-text", true) && NoEmptyText(acc) {
        StepNoEmptyText(o, acc, xs[0]);
      }
      MergeAllKeeps(o, a, xs[1..]);
    }
  }

  /**
   * The merged contents are no longer than the input; with
   * merge-consecutive-text no two adjacent entries are text, and with
   * ignore-empty-text no text entry is empty.
   */
  lemma MergeShape(o: Options, xs: seq<Json>)
    requires Merge(o, xs).Ok?
    ensures |Merge(o, xs).value| <= |xs|
    ensures Flag(o, "merge-consecutive-text", true) ==> NoAdjacentText(Merge(o, xs).value)
    ensures Flag(o, "ignore-empty-text", true) ==> NoEmptyText(Merge(o, xs).value)
  {
    MergeAllShorter(o, [], xs);
    MergeAllKeeps(o, [], xs);
  }

  /** The entries that are not text, in order. */
  function NonText(xs: seq<Json>): seq<Json>
  {
    if xs == [] then []
    else (if TypeIs(xs[0], "CT_Text") then [] else [xs[0]]) + NonText(xs[1..])
  }

  lemma {:induction false} NonTextAppend(a: seq<Json>, b: seq<Json>)
    ensures NonText(a + b) == NonText(a) + NonText(b)
  {
    if a == [] {
      AppendEmpty(b);
    } else {
      ConcatStep(a, b);
      NonTextAppend(a[1..], b);
    }
  }

  /** The non-text entries of a single entry. */
  lemma NonTextSingle(j: Json)
    ensures NonText([j]) == if TypeIs(j, "CT_Text") then [] else [j]
  {
    assert [j][1..] == [];
  }

  /** Replacing a trailing text entry by another text entry keeps the non-text entries. */
  lemma NonTextReplaceLast(out: seq<Json>, n: Json)
    requires out != [] && TypeIs(out[|out| - 1], "CT_Text") && TypeIs(n, "CT_Text")
    ensures NonText(out[..|out| - 1] + [n]) == NonText(out)
  {
    var init := out[..|out| - 1];
    SplitLast(out);
    NonTextAppend(init, [n]);
    NonTextAppend(init, [out[|out| - 1]]);
    NonTextSingle(n);
    NonTextSingle(out[|out| - 1]);
  }

  lemma StepNonText(o: Options, out: seq<Json>, data: Json)
    requires MergeStep(o, out, data).Ok?
    ensures NonText(MergeStep(o, out, data).value) == NonText(out) + NonText([data])
  {
    var r := MergeStep(o, out, data).value;
    StepCases(o, out, data);
    NonTextSingle(data);
    if r == out + [data] {
      NonTextAppend(out, [data]);
    } else if r != out {
      var prev := out[|out| - 1];
      ConcatenatedSpec(prev, data);
      NonTextReplaceLast(out, Concatenated(prev, data).value);
    }
  }

  lemma {:induction false} MergeAllNonText(o: Options, acc: seq<Json>, xs: seq<Json>)
    requires MergeAll(o, acc, xs).Ok?
    ensures NonText(MergeAll(o, acc, xs).value) == NonText(acc) + NonText(xs)
    decreases xs
  {
    if xs == [] {
      AppendEmpty(NonText(acc));
    } else {
      var a := MergeStep(o, acc, xs[0]).value;
      StepNonText(o, acc, xs[0]);
      MergeAllNonText(o, a, xs[1..]);
      SplitFirst(xs);
      NonTextAppend([xs[0]], xs[1..]);
      AppendAssoc(NonText(acc), NonText([xs[0]]), NonText(xs[1..]));
    }
  }

  /** The merge never reorders: the entries that are not text come out exactly as they went in. */
  lemma MergeKeepsOrder(o: Options, xs: seq<Json>)
    requires Merge(o, xs).Ok?
    ensures NonText(Merge(o, xs).value) == NonText(xs)
  {
    MergeAllNonText(o, [], xs);
  }

  // ---------------------------------------------------------------------
  // Idempotence

  /** Every entry survives the empty-text check, and every entry is appended after its predecessor. */
  predicate Stable(o: Options, out: seq<Json>)
  {
    && (forall i :: 0 <= i < |out| ==> Dropped(o, out[i]) == Ok(false))
    && (forall i :: 0 < i < |out| ==> !Truthy(out[i - 1]) || Joins(o, out[i - 1], out[i]) == Ok(false))
  }

  lemma StepStable(o: Options, out: seq<Json>, data: Json)
    requires Stable(o, out) && MergeStep(o, out, data).Ok?
    ensures Stable(o, MergeStep(o, out, data).value)
  {
    var r := MergeStep(o, out, data).value;
    StepCases(o, out, data);
    if Dropped(o, data) == Ok(false) && r != out + [data] {
      var prev := out[|out| - 1];
      var n := Concatenated(prev, data).value;
      ConcatenatedSpec(prev, data);
      assert Dropped(o, n) == Ok(false) by {
        if Flag(o, "ignore-empty-text", true) {
          assert Dropped(o, prev) == Ok(false);
        }
      }
      forall i | 0 < i < |r| ensures !Truthy(r[i - 1]) || Joins(o, r[i - 1], r[i]) == Ok(false) {
        assert r[i - 1] == out[i - 1];
        if i == |r| - 1 {
          assert Joins(o, r[i - 1], n) == Joins(o, out[i - 1], prev);
        } else {
          assert r[i] == out[i];
        }
      }
      forall i | 0 <= i < |r| ensures Dropped(o, r[i]) == Ok(false) {
        if i < |r| - 1 {
          assert r[i] == out[i];
        }
      }
    }
  }

  lemma {:induction false} MergeAllStable(o: Options, acc: seq<Json>, xs: seq<Json>)
    requires Stable(o, acc) && MergeAll(o, acc, xs).Ok?
    ensures Stable(o, MergeAll(o, acc, xs).value)
    decreases xs
  {
    if xs != [] {
      StepStable(o, acc, xs[0]);
      MergeAllStable(o, MergeStep(o, acc, xs[0]).value, xs[1..]);
    }
  }

  /** Stable contents pass through the merge unchanged. */
  lemma {:induction false} StableFixed(o: Options, out: seq<Json>, k: nat)
    requires Stable(o, out) && k <= |out|
    ensures MergeAll(o, out[..k], out[k..]) == Ok(out)
    decreases |out| - k
  {
    if k == |out| {
      WholeSlices(out);
    } else {
      assert MergeStep(o, out[..k], out[k]) == Ok(out[..k + 1]) by {
        PrefixStep(out, k);
      }
      SuffixStep(out, k);
      StableFixed(o, out, k + 1);
    }
  }

  /** Merging merged contents again with the same options changes nothing. */
  lemma MergeIdempotent(o: Options, xs: seq<Json>)
    requires Merge(o, xs).Ok?
    ensures Merge(o, Merge(o, xs).value) == Merge(o, xs)
  {
    var r := Merge(o, xs).value;
    MergeAllStable(o, [], xs);
    StableFixed(o, r, 0);
    WholeSlices(r);
  }
}
