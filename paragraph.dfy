/**
 * The paragraph-content driver (`EG_PContent.to_json`) as the loop it is:
 * a field character object collects what follows it until it completes,
 * and when the run iterator runs out inside an open field, the next
 * paragraph of the parent's cursor becomes the run iterator.
 */
module Paragraph {
  import opened Runtime
  import opened Json
  import opened Xml
  import opened Kinds
  import opened Options
  import opened Walker
  import opened Serialize
  import Merge
  import Form
  import FieldJson
  import ParagraphTrim
  import Registry

  /** The open field a `fld_char` variable holds, as a value. */
  function Held(fld: Form.FldChar?): Open
    reads fld
  {
    if fld == null then None else Some((fld.field, fld.State()))
  }

  /** A driver result with `k` more siblings counted as consumed. */
  function Shift(r: Result<(seq<Json>, nat)>, k: nat): Result<(seq<Json>, nat)>
  {
    if r.Ok? then Ok((r.value.0, r.value.1 + k)) else r
  }

  /** The parent's cursor after `used` siblings were taken from it. */
  predicate Advanced(c: Option<Cursor>, cur: Option<Cursor>, used: nat)
  {
    && (c.Some? <==> cur.Some?)
    && (cur.None? ==> used == 0)
    && (cur.Some? ==>
          && used <= |cur.value.rest|
          && c.value == cur.value.(rest := cur.value.rest[used..]))
  }

  /** What the driver does when the run iterator is exhausted. */
  datatype Ending = Stop | Raise(error: Error) | Bridge(items: seq<Elem>, ierr: Option<Error>)

  /**
   * The end of a run: raise the run's error, stop (dropping an open field),
   * or, greedily, take the next paragraph from the cursor and walk it.
   */
  method EndOfRun(env: Env, fld: Open, bare: seq<Json>, ierr: Option<Error>, c: Option<Cursor>) returns (r: Ending)
    requires Ready([], fld, c)
    ensures r.Stop? ==> Drive(env, fld, bare, [], ierr, c) == Ok((bare, 0))
    ensures r.Raise? ==> Drive(env, fld, bare, [], ierr, c) == Err(r.error)
    ensures r.Bridge? ==>
      && c.Some? && c.value.rest != []
      && Ready(r.items, fld, Some(c.value.(rest := c.value.rest[1..])))
      && Drive(env, fld, bare, [], ierr, c) == Shift(Drive(env, fld, bare, r.items, r.ierr, Some(c.value.(rest := c.value.rest[1..]))), 1)
  {
    if ierr.Some? {
      return Raise(ierr.value);
    }
    if fld.None? || !Flag(env.o, "greedy-text-input", true) {
      return Stop;
    }
    if c.None? {
      return Raise(AttributeError("peek"));
    }
    if c.value.rest == [] {
      if c.value.error.Some? {
        return Raise(c.value.error.value);
      }
      return Stop;
    }
    var q := c.value.rest[0];
    if Construct(q).Some? {
      return Raise(Construct(q).value);
    }
    if q.kind != Paragraph {
      return Stop;
    }
    var qw := XmlIter(env.built, q.node, "CT_P");
    BridgeStep(env, fld, bare, ierr, c);
    return Bridge(qw.items, qw.error);
  }

  /**
   * One element of the run: an open field object takes it (in place), and
   * on completion the field's JSON joins the contents; otherwise a field
   * character opens a new field object, and anything else is serialized.
   */
  method TakeOne(env: Env, fld: Form.FldChar?, bare: seq<Json>, items: seq<Elem>, ierr: Option<Error>, c: Option<Cursor>)
      returns (fld': Form.FldChar?, bare': seq<Json>, err: Option<Error>)
    requires items != [] && Ready(items, Held(fld), c)
    modifies fld
    ensures fld' != null ==> fld' == fld || fresh(fld')
    ensures err.Some? ==> old(Drive(env, Held(fld), bare, items, ierr, c)) == Err(err.value)
    ensures err.None? ==>
      && Ready(items[1..], Held(fld'), c)
      && old(Drive(env, Held(fld), bare, items, ierr, c)) == Drive(env, Held(fld'), bare', items[1..], ierr, c)
  {
    if Construct(items[0]).Some? {
      return fld, bare, Construct(items[0]);
    }
    if fld != null {
      fld', bare', err := TakeIntoField(env, fld, bare, items, ierr, c);
    } else {
      fld', bare', err := TakeFree(env, bare, items, ierr, c);
    }
  }

  /** An open field object takes the element; on completion the field's JSON joins the contents. */
  method TakeIntoField(env: Env, fld: Form.FldChar, bare: seq<Json>, items: seq<Elem>, ierr: Option<Error>, c: Option<Cursor>)
      returns (fld': Form.FldChar?, bare': seq<Json>, err: Option<Error>)
    requires items != [] && Ready(items, Held(fld), c) && Construct(items[0]).None?
    modifies fld
    ensures fld' == fld || fld' == null
    ensures err.Some? ==> old(Drive(env, Held(fld), bare, items, ierr, c)) == Err(err.value)
    ensures err.None? ==>
      && Ready(items[1..], Held(fld'), c)
      && old(Drive(env, Held(fld), bare, items, ierr, c)) == Drive(env, Held(fld'), bare', items[1..], ierr, c)
  {
    var x := items[0];
    fld', bare' := fld, bare;
    BoundBelow(items, Held(fld), c);
    DropBelow(items, Held(fld), Bound(items, Held(fld), c));
    ghost var before := Held(fld);
    var done := fld.Update(x);
    if done.Err? {
      return fld', bare', Some(done.error);
    }
    UpdateBelow(items, before, fld.State(), Bound(items, before, c));
    if done.value {
      var results := ElemsJson(env, fld.fieldResults);
      var codes := ElemsJson(env, fld.fieldCodes);
      var fj := env.field(env.o, fld.field, results, codes);
      if fj.Err? {
        return fld', bare', Some(fj.error);
      }
      var joined := Spliced(env.o, bare, fj.value);
      if joined.Err? {
        return fld', bare', Some(joined.error);
      }
      bare' := joined.value;
      fld' := null;
    }
    return fld', bare', None;
  }

  /** With no field open: a field character opens a new field object, anything else is serialized and appended. */
  method TakeFree(env: Env, bare: seq<Json>, items: seq<Elem>, ierr: Option<Error>, c: Option<Cursor>)
      returns (fld': Form.FldChar?, bare': seq<Json>, err: Option<Error>)
    requires items != [] && Ready(items, None, c) && Construct(items[0]).None?
    ensures fld' != null ==> fresh(fld')
    ensures err.Some? ==> Drive(env, None, bare, items, ierr, c) == Err(err.value)
    ensures err.None? ==>
      && Ready(items[1..], Held(fld'), c)
      && Drive(env, None, bare, items, ierr, c) == Drive(env, Held(fld'), bare', items[1..], ierr, c)
  {
    var x := items[0];
    fld', bare' := null, bare;
    BoundBelow(items, None, c);
    DropBelow(items, None, Bound(items, None, c));
    if x.kind == FldChar {
      var f := Form.MakeField(x.node);
      fld' := new Form.FldChar(f.value);
      assert items[1..] + Pending(Held(fld')) == items[1..] + [];
    } else {
      var j := ElemJson(env, x, None);
      if j.Err? {
        return fld', bare', Some(j.error);
      }
      bare' := bare + [j.value.0];
    }
    return fld', bare', None;
  }

  /**
   * `EG_PContent.to_json` followed by the trimming of `paragraph.to_json`:
   * the loop over the run iterator, then the merge and the trimming.
   */
  method ContentToJson(env: Env, e: Elem, cur: Option<Cursor>) returns (r: Result<(Json, nat)>)
    requires IsPContent(e.kind)
    requires cur.Some? ==> Inside(cur.value) && Size(e.node) < Size(cur.value.parent)
    ensures r == PContentJson(env, e, cur)
  {
    var w := XmlIter(env.built, e.node, TypeName(e.kind));
    assert w.items + Pending(None) == w.items;
    MaxSizeBelow(w.items, Size(e.node));
    var d := DriveLoop(env, w.items, w.error, cur);
    if d.Err? {
      return Err(d.error);
    }
    r := Finish(env.o, e.kind, d.value.0, d.value.1);
  }

  /** The loop's variables besides the field object: contents, run iterator, cursor, and siblings taken. */
  datatype Progress = Progress(bare: seq<Json>, items: seq<Elem>, ierr: Option<Error>, c: Option<Cursor>, used: nat)

  /** The loop invariant: from this state the driver reaches the same outcome as from the start. */
  predicate Tracks(env: Env, goal: Result<(seq<Json>, nat)>, cur: Option<Cursor>, fld: Open, s: Progress)
  {
    && Advanced(s.c, cur, s.used)
    && Ready(s.items, fld, s.c)
    && goal == Shift(Drive(env, fld, s.bare, s.items, s.ierr, s.c), s.used)
  }

  /**
   * The `while True` loop of `EG_PContent.to_json`: elements are pulled from
   * the run iterator, and, greedily, from the paragraphs that follow.
   */
  method DriveLoop(env: Env, items0: seq<Elem>, ierr0: Option<Error>, cur: Option<Cursor>) returns (r: Result<(seq<Json>, nat)>)
    requires Ready(items0, None, cur)
    ensures r == Drive(env, None, [], items0, ierr0, cur)
  {
    ghost var goal := Drive(env, None, [], items0, ierr0, cur);
    var fld: Form.FldChar? := null;
    var s := Progress([], items0, ierr0, cur, 0);
    while true
      invariant fld != null ==> fresh(fld)
      invariant Tracks(env, goal, cur, Held(fld), s)
      decreases Avail(s.c), |s.items|
    {
      var done;
      if s.items == [] {
        s, done := EndStep(env, Held(fld), s, goal, cur);
      } else {
        fld, s, done := TakeStep(env, fld, s, goal, cur);
      }
      if done.Some? {
        return done.value;
      }
    }
  }

  /** A turn of the loop at the end of a run: stop, raise, or bridge to the next paragraph. */
  method EndStep(env: Env, fld: Open, s: Progress, ghost goal: Result<(seq<Json>, nat)>, ghost cur: Option<Cursor>)
      returns (s': Progress, done: Option<Result<(seq<Json>, nat)>>)
    requires s.items == [] && Tracks(env, goal, cur, fld, s)
    ensures done.Some? ==> done.value == goal
    ensures done.None? ==> Tracks(env, goal, cur, fld, s') && Avail(s'.c) < Avail(s.c)
  {
    s', done := s, None;
    var ending := EndOfRun(env, fld, s.bare, s.ierr, s.c);
    match ending
    case Stop =>
      done := Some(Ok((s.bare, s.used)));
    case Raise(err) =>
      done := Some(Err(err));
    case Bridge(next, nerr) =>
      BridgeTracks(env, goal, cur, fld, s, next, nerr);
      s' := Progress(s.bare, next, nerr, Some(s.c.value.(rest := s.c.value.rest[1..])), s.used + 1);
  }

  /** Bridging to the next paragraph keeps the invariant, with one more sibling taken from the cursor. */
  lemma BridgeTracks(env: Env, goal: Result<(seq<Json>, nat)>, cur: Option<Cursor>, fld: Open, s: Progress,
                     next: seq<Elem>, nerr: Option<Error>)
    requires s.items == [] && Tracks(env, goal, cur, fld, s)
    requires s.c.Some? && s.c.value.rest != []
    requires Ready(next, fld, Some(s.c.value.(rest := s.c.value.rest[1..])))
    requires Drive(env, fld, s.bare, [], s.ierr, s.c)
      == Shift(Drive(env, fld, s.bare, next, nerr, Some(s.c.value.(rest := s.c.value.rest[1..]))), 1)
    ensures Tracks(env, goal, cur, fld, Progress(s.bare, next, nerr, Some(s.c.value.(rest := s.c.value.rest[1..])), s.used + 1))
  {
    var c' := Some(s.c.value.(rest := s.c.value.rest[1..]));
    AdvancedNext(s.c, cur, s.used);
    ShiftAfter(goal, Drive(env, fld, s.bare, [], s.ierr, s.c), Drive(env, fld, s.bare, next, nerr, c'), s.used);
  }

  /** Taking one more sibling from the cursor. */
  lemma AdvancedNext(c: Option<Cursor>, cur: Option<Cursor>, used: nat)
    requires Advanced(c, cur, used) && c.Some? && c.value.rest != []
    ensures Advanced(Some(c.value.(rest := c.value.rest[1..])), cur, used + 1)
  {
    assert cur.value.rest[used..][1..] == cur.value.rest[used + 1..];
  }

  /** A result counted `used` further on top of one sibling taken. */
  lemma ShiftAfter(goal: Result<(seq<Json>, nat)>, a: Result<(seq<Json>, nat)>, b: Result<(seq<Json>, nat)>, used: nat)
    requires goal == Shift(a, used) && a == Shift(b, 1)
    ensures goal == Shift(b, used + 1)
  {
  }

  /** A turn of the loop that takes one element from the run iterator. */
  method TakeStep(env: Env, fld: Form.FldChar?, s: Progress, ghost goal: Result<(seq<Json>, nat)>, ghost cur: Option<Cursor>)
      returns (fld': Form.FldChar?, s': Progress, done: Option<Result<(seq<Json>, nat)>>)
    requires s.items != [] && Tracks(env, goal, cur, Held(fld), s)
    modifies fld
    ensures fld' != null ==> fld' == fld || fresh(fld')
    ensures done.Some? ==> done.value == goal
    ensures done.None? ==> Tracks(env, goal, cur, Held(fld'), s') && s'.c == s.c && |s'.items| < |s.items|
  {
    s', done := s, None;
    var bare, err;
    fld', bare, err := TakeOne(env, fld, s.bare, s.items, s.ierr, s.c);
    if err.Some? {
      done := Some(Err(err.value));
    } else {
      s' := s.(bare := bare, items := s.items[1..]);
    }
  }

  /** The merge and the trimming that follow the loop. */
  method Finish(o: Options, kind: Kind, bare: seq<Json>, k: nat) returns (r: Result<(Json, nat)>)
    requires IsPContent(kind)
    ensures r == Finished(o, kind, bare, k)
  {
    var contents := Merge.MergeRunContents(o, bare);
    if contents.Err? {
      return Err(contents.error);
    }
    var vs := contents.value;
    if kind == Paragraph {
      var t := ParagraphTrim.TrimParagraph(o, vs);
      if t.Err? {
        return Err(t.error);
      }
      vs := t.value;
    }
    r := Ok((JObj([("TYPE", JStr(TypeName(kind))), ("VALUE", JArr(vs))]), k));
  }

  /** Greedy bridging, one unfolding: the next paragraph's runs continue the contents. */
  lemma BridgeStep(env: Env, fld: Open, bare: seq<Json>, ierr: Option<Error>, c: Option<Cursor>)
    requires Ready([], fld, c) && ierr.None? && fld.Some? && Flag(env.o, "greedy-text-input", true)
    requires c.Some? && c.value.rest != [] && Construct(c.value.rest[0]).None? && c.value.rest[0].kind == Paragraph
    ensures var q := c.value.rest[0];
      var w := Walk(env.built, q.node, "CT_P");
      var c' := c.value.(rest := c.value.rest[1..]);
      && Ready(w.items, fld, Some(c'))
      && Drive(env, fld, bare, [], ierr, c) == Shift(Drive(env, fld, bare, w.items, w.error, Some(c')), 1)
  {
    BridgeReady(env.built, fld, c);
  }

  /** The next paragraph's walk, with the cursor past that paragraph, is still below the parent. */
  lemma BridgeReady(built: map<string, Registry.Definition>, fld: Open, c: Option<Cursor>)
    requires Ready([], fld, c) && c.Some? && c.value.rest != []
    ensures Ready(Walk(built, c.value.rest[0].node, "CT_P").items, fld, Some(c.value.(rest := c.value.rest[1..])))
  {
    var q := c.value.rest[0];
    var w := Walk(built, q.node, "CT_P");
    assert q in c.value.rest;
    assert forall e :: e in c.value.rest[1..] ==> e in c.value.rest;
    assert forall e :: e in w.items + Pending(fld) ==> e in w.items || e in [] + Pending(fld);
  }
}
