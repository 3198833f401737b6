/**
 * What the paragraph driver does with fields: a field character opens a
 * field, the field takes the elements that follow until its end marker,
 * and the completed field's JSON joins the contents; at the end of a run
 * an open field is either bridged into the next paragraph or dropped.
 */
module DriverSpec {
  import opened Runtime
  import opened Json
  import opened Xml
  import opened Kinds
  import opened Options
  import opened Serialize
  import Form

  /** Every element of `es` constructs without error. */
  predicate Constructed(es: seq<Elem>)
  {
    forall i :: 0 <= i < |es| ==> Construct(es[i]).None?
  }

  /** A suffix of the driver's elements stays below the bound once the field is gone. */
  lemma SuffixReady(items: seq<Elem>, fld: Open, k: nat, cur: Option<Cursor>)
    requires k <= |items| && Ready(items, fld, cur)
    ensures Ready(items[k..], None, cur)
  {
    if cur.Some? {
      assert forall e :: e in items[k..] + Pending(None) ==> e in items + Pending(fld);
    }
  }

  /**
   * A completed field joins the contents: its JSON is computed from its
   * results and codes (each serialized without a cursor), spliced into the
   * bare contents, and the driver goes on with no field open.
   */
  function Completed(env: Env, f: Form.Field, st: Form.FieldState, bare: seq<Json>, rest: seq<Elem>, ierr: Option<Error>, cur: Option<Cursor>)
    : Result<(seq<Json>, nat)>
    requires Ready(rest, None, cur)
  {
    var fj :- env.field(env.o, f, ElemsJson(env, st.results), ElemsJson(env, st.codes));
    var bare' :- Spliced(env.o, bare, fj);
    Drive(env, None, bare', rest, ierr, cur)
  }

  /** With a field open, an element the field takes without completing leaves the contents as they are. */
  lemma DriveTakes(env: Env, f: Form.Field, st: Form.FieldState, bare: seq<Json>, items: seq<Elem>,
                   ierr: Option<Error>, cur: Option<Cursor>, st1: Form.FieldState)
    requires items != [] && Ready(items, Some((f, st)), cur) && Construct(items[0]).None?
    requires Form.UpdateSpec(st, items[0]) == Ok((st1, false))
    ensures Ready(items[1..], Some((f, st1)), cur)
    ensures Drive(env, Some((f, st)), bare, items, ierr, cur) == Drive(env, Some((f, st1)), bare, items[1..], ierr, cur)
  {
    BoundBelow(items, Some((f, st)), cur);
    UpdateBelow(items, Some((f, st)), st1, Bound(items, Some((f, st)), cur));
  }

  /** With a field open, the element that completes it makes the field's JSON join the contents. */
  lemma DriveCompletes(env: Env, f: Form.Field, st: Form.FieldState, bare: seq<Json>, items: seq<Elem>,
                       ierr: Option<Error>, cur: Option<Cursor>, st1: Form.FieldState)
    requires items != [] && Ready(items, Some((f, st)), cur) && Construct(items[0]).None?
    requires Form.UpdateSpec(st, items[0]) == Ok((st1, true))
    ensures Ready(items[1..], None, cur)
    ensures Drive(env, Some((f, st)), bare, items, ierr, cur) == Completed(env, f, st1, bare, items[1..], ierr, cur)
  {
    SuffixReady(items, Some((f, st)), 1, cur);
  }

  /**
   * With a field open, the driver hands the following elements to the
   * field exactly as `Form.Feed` does: once the field completes after `k`
   * elements, the result is the completed field joining the contents,
   * followed by the driver on what comes after those `k` elements.
   */
  lemma {:induction false} DriveFeeds(env: Env, f: Form.Field, st: Form.FieldState, bare: seq<Json>, items: seq<Elem>,
                                      ierr: Option<Error>, cur: Option<Cursor>, st': Form.FieldState, k: nat)
    requires Ready(items, Some((f, st)), cur) && st.status != Form.Complete
    requires Form.Feed(st, items) == Ok((st', k)) && st'.status == Form.Complete
    requires k <= |items| && Constructed(items[..k])
    ensures Ready(items[k..], None, cur)
    ensures Drive(env, Some((f, st)), bare, items, ierr, cur) == Completed(env, f, st', bare, items[k..], ierr, cur)
    decreases |items|
  {
    SuffixReady(items, Some((f, st)), k, cur);
    Form.FeedHead(st, items, st', k);
    var (st1, done) := Form.UpdateSpec(st, items[0]).value;
    ConstructedShift(items, k);
    if done {
      DriveCompletes(env, f, st, bare, items, ierr, cur, st1);
    } else {
      DriveTakes(env, f, st, bare, items, ierr, cur, st1);
      DriveFeeds(env, f, st1, bare, items[1..], ierr, cur, st', k - 1);
    }
  }

  /** Splitting off the first of `k` constructed elements. */
  lemma ConstructedShift(items: seq<Elem>, k: nat)
    requires 1 <= k <= |items| && Constructed(items[..k])
    ensures Construct(items[0]).None? && Constructed(items[1..][..k - 1]) && items[1..][k - 1..] == items[k..]
  {
    assert items[..k][0] == items[0];
    var head := items[1..][..k - 1];
    forall i | 0 <= i < |head| ensures Construct(head[i]).None? {
      assert head[i] == items[..k][i + 1];
    }
  }

  /** Between markers, an open field takes every element in order into the list its status names. */
  lemma {:induction false} DriveCollects(env: Env, f: Form.Field, st: Form.FieldState, bare: seq<Json>, es: seq<Elem>,
                                         rest: seq<Elem>, ierr: Option<Error>, cur: Option<Cursor>)
    requires st.status != Form.Complete && Form.AllContent(es) && Constructed(es)
    requires Ready(es + rest, Some((f, st)), cur)
    ensures Ready(rest, Some((f, Form.Collect(st, es))), cur)
    ensures Drive(env, Some((f, st)), bare, es + rest, ierr, cur) == Drive(env, Some((f, Form.Collect(st, es))), bare, rest, ierr, cur)
    decreases es
  {
    if es == [] {
      assert es + rest == rest;
      Form.CollectNone(st);
    } else {
      var items := es + rest;
      assert items[0] == es[0] && items[1..] == es[1..] + rest;
      Form.CollectHead(st, es);
      ConstructedTail(es);
      DriveTakes(env, f, st, bare, items, ierr, cur, Form.Collect(st, [es[0]]));
      DriveCollects(env, f, Form.Collect(st, [es[0]]), bare, es[1..], rest, ierr, cur);
    }
  }

  lemma ConstructedTail(es: seq<Elem>)
    requires es != [] && Constructed(es)
    ensures Construct(es[0]).None? && Constructed(es[1..])
  {
    assert forall i :: 0 <= i < |es[1..]| ==> es[1..][i] == es[i + 1];
  }

  /**
   * A whole field in a run (its field character, codes, separate marker,
   * results, end marker) contributes exactly the completed field with
   * those codes and results, and the driver goes on after the end marker.
   */
  lemma DriveWholeField(env: Env, bare: seq<Json>, b: Elem, codes: seq<Elem>, sep: Elem, results: seq<Elem>, end: Elem,
                        rest: seq<Elem>, ierr: Option<Error>, cur: Option<Cursor>)
    requires b.kind == FldChar && Form.MarkerOf(sep) == Form.Separate && Form.MarkerOf(end) == Form.End
    requires Form.AllContent(codes) && Form.AllContent(results)
    requires Constructed([b] + codes + [sep] + results + [end])
    requires Ready([b] + codes + [sep] + results + [end] + rest, None, cur)
    ensures Form.MakeField(b.node).Ok? && Ready(rest, None, cur)
    ensures Drive(env, None, bare, [b] + codes + [sep] + results + [end] + rest, ierr, cur)
            == Completed(env, Form.MakeField(b.node).value, Form.FieldState(Form.Complete, codes, results), bare, rest, ierr, cur)
  {
    var whole := codes + [sep] + results + [end];
    var tail := whole + rest;
    WholeParts(b, codes, sep, results, end, rest);
    DriveOpensAt(env, bare, b, tail, ierr, cur);
    var f := Form.MakeField(b.node).value;
    var st' := Form.FieldState(Form.Complete, codes, results);
    Form.FeedWholeFieldThen(codes, sep, results, end, rest);
    DriveFeeds(env, f, Form.Opened, bare, tail, ierr, cur, st', |whole|);
  }

  /** `DriveOpens` for a run written as its field character followed by the rest. */
  lemma DriveOpensAt(env: Env, bare: seq<Json>, b: Elem, tail: seq<Elem>, ierr: Option<Error>, cur: Option<Cursor>)
    requires Ready([b] + tail, None, cur) && b.kind == FldChar && Construct(b).None?
    ensures Form.MakeField(b.node).Ok?
    ensures Ready(tail, Some((Form.MakeField(b.node).value, Form.Opened)), cur)
    ensures Drive(env, None, bare, [b] + tail, ierr, cur)
            == Drive(env, Some((Form.MakeField(b.node).value, Form.Opened)), bare, tail, ierr, cur)
  {
    assert ([b] + tail)[1..] == tail;
    DriveOpens(env, bare, [b] + tail, ierr, cur);
  }

  /** How a run holding a whole field splits: the field character, then the rest of the field, then what follows. */
  lemma WholeParts(b: Elem, codes: seq<Elem>, sep: Elem, results: seq<Elem>, end: Elem, rest: seq<Elem>)
    requires Constructed([b] + codes + [sep] + results + [end])
    ensures var whole := codes + [sep] + results + [end];
      var items := [b] + codes + [sep] + results + [end] + rest;
      && items == [b] + (whole + rest)
      && Construct(b).None? && Constructed(whole)
      && |whole| == |codes| + |results| + 2
      && (whole + rest)[..|whole|] == whole && (whole + rest)[|whole|..] == rest
  {
    var field := [b] + codes + [sep] + results + [end];
    var whole := codes + [sep] + results + [end];
    assert field == [b] + whole;
    assert field + rest == [b] + (whole + rest);
    assert [b] + codes + [sep] + results + [end] + rest == field + rest;
    ConstructedTail(field);
    assert field[1..] == whole;
  }

  // ---------------------------------------------------------------------
  // Elements with no field open

  /** Any field character opens a field when none is open, whatever its marker: begin, separate, end or none. */
  lemma DriveOpens(env: Env, bare: seq<Json>, items: seq<Elem>, ierr: Option<Error>, cur: Option<Cursor>)
    requires items != [] && Ready(items, None, cur) && items[0].kind == FldChar && Construct(items[0]).None?
    ensures Form.MakeField(items[0].node).Ok?
    ensures Ready(items[1..], Some((Form.MakeField(items[0].node).value, Form.Opened)), cur)
    ensures Drive(env, None, bare, items, ierr, cur)
            == Drive(env, Some((Form.MakeField(items[0].node).value, Form.Opened)), bare, items[1..], ierr, cur)
  {
    SuffixReady(items, None, 1, cur);
    assert items[1..] + Pending(Some((Form.MakeField(items[0].node).value, Form.Opened))) == items[1..] + [];
  }

  /** Any other element, with no field open, is serialized without a cursor and appended. */
  lemma DriveAppends(env: Env, bare: seq<Json>, items: seq<Elem>, ierr: Option<Error>, cur: Option<Cursor>)
    requires items != [] && Ready(items, None, cur) && items[0].kind != FldChar
    ensures Ready(items[1..], None, cur)
    ensures ElemJson(env, items[0], None).Err? ==> Drive(env, None, bare, items, ierr, cur) == Err(ElemJson(env, items[0], None).error)
    ensures ElemJson(env, items[0], None).Ok? ==>
      Drive(env, None, bare, items, ierr, cur) == Drive(env, None, bare + [ElemJson(env, items[0], None).value.0], items[1..], ierr, cur)
  {
    SuffixReady(items, None, 1, cur);
  }

  // ---------------------------------------------------------------------
  // The end of a run

  /**
   * When the run iterator is exhausted: its error comes first; with no
   * field open the contents end there; with a field open and greedy input
   * off, or no sibling left, or a sibling that is not a paragraph, the
   * contents also end there and the open field's elements are dropped; a
   * cursor-less driver cannot peek.
   */
  lemma RunEnds(env: Env, fld: Open, bare: seq<Json>, ierr: Option<Error>, cur: Option<Cursor>)
    requires Ready([], fld, cur)
    ensures ierr.Some? ==> Drive(env, fld, bare, [], ierr, cur) == Err(ierr.value)
    ensures ierr.None? && fld.None? ==> Drive(env, fld, bare, [], ierr, cur) == Ok((bare, 0))
    ensures ierr.None? && !Flag(env.o, "greedy-text-input", true) ==> Drive(env, fld, bare, [], ierr, cur) == Ok((bare, 0))
    ensures ierr.None? && fld.Some? && Flag(env.o, "greedy-text-input", true) ==>
      && (cur.None? ==> Drive(env, fld, bare, [], ierr, cur) == Err(AttributeError("peek")))
      && (cur.Some? && cur.value.rest == [] && cur.value.error.None? ==> Drive(env, fld, bare, [], ierr, cur) == Ok((bare, 0)))
      && ((cur.Some? && cur.value.rest != [] && Construct(cur.value.rest[0]).None? && cur.value.rest[0].kind != Paragraph)
            ==> Drive(env, fld, bare, [], ierr, cur) == Ok((bare, 0)))
  {
  }

  /**
   * A stop at the end of a run never lets an open field's elements into
   * the contents: whenever the driver ends without taking a sibling, the
   * contents are exactly what was there.
   */
  lemma RunEndDrops(env: Env, fld: Open, bare: seq<Json>, ierr: Option<Error>, cur: Option<Cursor>)
    requires Ready([], fld, cur)
    requires Drive(env, fld, bare, [], ierr, cur).Ok? && Drive(env, fld, bare, [], ierr, cur).value.1 == 0
    ensures Drive(env, fld, bare, [], ierr, cur).value.0 == bare
  {
  }

  // ---------------------------------------------------------------------
  // Without greedy input

  /** With greedy input off the driver never peeks: the cursor makes no difference, and no sibling is consumed. */
  lemma {:induction false} DriveUngreedy(env: Env, fld: Open, bare: seq<Json>, items: seq<Elem>, ierr: Option<Error>, cur: Option<Cursor>)
    requires !Flag(env.o, "greedy-text-input", true) && Ready(items, fld, cur)
    ensures Drive(env, fld, bare, items, ierr, cur) == Drive(env, fld, bare, items, ierr, None)
    ensures Drive(env, fld, bare, items, ierr, cur).Ok? ==> Drive(env, fld, bare, items, ierr, cur).value.1 == 0
    decreases |items|
  {
    if items != [] {
      var x := items[0];
      if Construct(x).None? {
        if fld.Some? {
          Form.UpdateStep(fld.value.1, x);
          if Form.UpdateSpec(fld.value.1, x).Ok? {
            var (st, done) := Form.UpdateSpec(fld.value.1, x).value;
            if done {
              DriveCompletes(env, fld.value.0, fld.value.1, bare, items, ierr, cur, st);
              DriveCompletes(env, fld.value.0, fld.value.1, bare, items, ierr, None, st);
              var fj := env.field(env.o, fld.value.0, ElemsJson(env, st.results), ElemsJson(env, st.codes));
              if fj.Ok? && Spliced(env.o, bare, fj.value).Ok? {
                DriveUngreedy(env, None, Spliced(env.o, bare, fj.value).value, items[1..], ierr, cur);
              }
            } else {
              DriveTakes(env, fld.value.0, fld.value.1, bare, items, ierr, cur, st);
              DriveTakes(env, fld.value.0, fld.value.1, bare, items, ierr, None, st);
              DriveUngreedy(env, Some((fld.value.0, st)), bare, items[1..], ierr, cur);
            }
          }
        } else if x.kind == FldChar {
          DriveOpens(env, bare, items, ierr, cur);
          DriveOpens(env, bare, items, ierr, None);
          DriveUngreedy(env, Some((Form.MakeField(x.node).value, Form.Opened)), bare, items[1..], ierr, cur);
        } else {
          DriveAppends(env, bare, items, ierr, cur);
          DriveAppends(env, bare, items, ierr, None);
          if ElemJson(env, x, None).Ok? {
            DriveUngreedy(env, None, bare + [ElemJson(env, x, None).value.0], items[1..], ierr, cur);
          }
        }
      }
    }
  }
}
