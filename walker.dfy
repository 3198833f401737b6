/**
 * The generic XML walker: given a resolved dispatch table, visits the
 * children of a node in document order and produces element objects,
 * descending into nested containers and skipping moved ranges.
 *
 * The walker is a lazy generator.  Here a walk is the finished list of
 * the elements it yields, the warnings it issues, and the exception (if
 * any) that ends it; a consumer sees every item before the exception.
 */
module Walker {
  import opened Runtime
  import opened Xml
  import opened Kinds
  import opened Registry
  import Tag

  datatype Walked = Walked(items: seq<Elem>, warnings: seq<string>, error: Option<Error>)

  const Done := Walked([], [], None)

  /** Running one walk after another: the second starts only if the first did not raise. */
  function Then(a: Walked, b: Walked): (r: Walked)
    ensures a.error.Some? ==> r == a
    ensures a.error.None? ==> r.items == a.items + b.items && r.error == b.error
  {
    if a.error.Some? then a else Walked(a.items + b.items, a.warnings + b.warnings, b.error)
  }

  lemma ThenDone(a: Walked)
    ensures Then(Done, a) == a && Then(a, Done) == a
  {
    assert [] + a.items == a.items && [] + a.warnings == a.warnings;
    assert a.items + [] == a.items && a.warnings + [] == a.warnings;
  }

  lemma ThenAssociative(a: Walked, b: Walked, c: Walked)
    ensures Then(Then(a, b), c) == Then(a, Then(b, c))
  {
    if a.error.None? && b.error.None? {
      assert (a.items + b.items) + c.items == a.items + (b.items + c.items);
      assert (a.warnings + b.warnings) + c.warnings == a.warnings + (b.warnings + c.warnings);
    }
  }

  /** What the walker does with a child, by the first table that holds its tag. */
  datatype Treatment =
    | YieldOnly(kind: Kind)
    | YieldAndNest(kind: Kind, group: string)
    | NestOnly(group: string)
    | WarnAbout(message: string)
    | IgnoreIt
    | SkipRange(idAttr: string, waitfor: string)
    | Unexpected

  /**
   * The precedence of the tables: yield (with nesting when the tag is also
   * nested), then nest, warn, ignore, skip; a tag in none of them is
   * unexpected.
   */
  function Classify(h: Definition, tag: string): (r: Treatment)
    ensures (r.YieldOnly? || r.YieldAndNest?) <==> tag in h.toYield
    ensures r.YieldOnly? ==> r.kind == h.toYield[tag] && tag !in h.toNest
    ensures r.YieldAndNest? ==> r.kind == h.toYield[tag] && tag in h.toNest && r.group == h.toNest[tag]
    ensures r.NestOnly? <==> tag !in h.toYield && tag in h.toNest
    ensures r.NestOnly? ==> r.group == h.toNest[tag]
    ensures r.WarnAbout? <==> tag !in h.toYield && tag !in h.toNest && tag in h.toWarn
    ensures r.WarnAbout? ==> r.message == h.toWarn[tag]
    ensures r.IgnoreIt? <==> tag !in h.toYield && tag !in h.toNest && tag !in h.toWarn && tag in h.toIgnore
    ensures r.SkipRange? <==>
      tag !in h.toYield && tag !in h.toNest && tag !in h.toWarn && tag !in h.toIgnore && tag in h.toSkip
    ensures r.SkipRange? ==> (r.idAttr, r.waitfor) == h.toSkip[tag]
    ensures r.Unexpected? <==>
      tag !in h.toYield && tag !in h.toNest && tag !in h.toWarn && tag !in h.toIgnore && tag !in h.toSkip
  {
    if tag in h.toYield then
      if tag in h.toNest then YieldAndNest(h.toYield[tag], h.toNest[tag]) else YieldOnly(h.toYield[tag])
    else if tag in h.toNest then NestOnly(h.toNest[tag])
    else if tag in h.toWarn then WarnAbout(h.toWarn[tag])
    else if tag in h.toIgnore then IgnoreIt
    else if tag in h.toSkip then SkipRange(h.toSkip[tag].0, h.toSkip[tag].1)
    else Unexpected
  }

  /**
   * Scanning the siblings from index `j` for the end of a range: the first
   * sibling whose local name is `waitfor` and whose `idAttr` attribute is
   * `id`.  A sibling with the right local name but no such attribute
   * raises KeyError.
   */
  function RangeEnd(sibs: seq<Node>, j: nat, idAttr: string, waitfor: string, id: string): (r: Result<Option<nat>>)
    ensures r.Ok? && r.value.Some? ==> j <= r.value.value < |sibs|
    decreases |sibs| - j
  {
    if j >= |sibs| then Ok(None)
    else if Tag.LocalName(sibs[j].tag) == waitfor then
      if idAttr !in sibs[j].attrs then Err(KeyError(idAttr))
      else if sibs[j].attrs[idAttr] == id then Ok(Some(j))
      else RangeEnd(sibs, j + 1, idAttr, waitfor, id)
    else RangeEnd(sibs, j + 1, idAttr, waitfor, id)
  }

  /** `skip_range`: the start's own `idAttr` (KeyError if absent), then the scan of its later siblings. */
  function SkipTo(sibs: seq<Node>, i: nat, idAttr: string, waitfor: string): (r: Result<Option<nat>>)
    requires i < |sibs|
    ensures r.Ok? && r.value.Some? ==> i < r.value.value < |sibs|
  {
    if idAttr !in sibs[i].attrs then Err(KeyError(idAttr))
    else RangeEnd(sibs, i + 1, idAttr, waitfor, sibs[i].attrs[idAttr])
  }

  /** A sibling closes the range opened with `id`. */
  predicate ClosesRange(n: Node, idAttr: string, waitfor: string, id: string)
  {
    Tag.LocalName(n.tag) == waitfor && idAttr in n.attrs && n.attrs[idAttr] == id
  }

  /** The scan stops at the first sibling that closes the range. */
  lemma {:induction false} RangeEndFindsFirst(sibs: seq<Node>, j: nat, idAttr: string, waitfor: string, id: string)
    requires RangeEnd(sibs, j, idAttr, waitfor, id).Ok?
    ensures var r := RangeEnd(sibs, j, idAttr, waitfor, id).value;
      r.Some? ==> ClosesRange(sibs[r.value], idAttr, waitfor, id)
    ensures var r := RangeEnd(sibs, j, idAttr, waitfor, id).value;
      forall l :: j <= l < |sibs| && (r.None? || l < r.value) ==> !ClosesRange(sibs[l], idAttr, waitfor, id)
    decreases |sibs| - j
  {
    if j < |sibs| {
      var name := Tag.LocalName(sibs[j].tag);
      if name == waitfor && idAttr in sibs[j].attrs && sibs[j].attrs[idAttr] == id {
        assert RangeEnd(sibs, j, idAttr, waitfor, id) == Ok(Some(j));
      } else {
        assert !ClosesRange(sibs[j], idAttr, waitfor, id);
        assert RangeEnd(sibs, j, idAttr, waitfor, id) == RangeEnd(sibs, j + 1, idAttr, waitfor, id);
        RangeEndFindsFirst(sibs, j + 1, idAttr, waitfor, id);
        var r := RangeEnd(sibs, j, idAttr, waitfor, id).value;
        forall l | j <= l < |sibs| && (r.None? || l < r.value)
          ensures !ClosesRange(sibs[l], idAttr, waitfor, id)
        {
          if l > j {
            assert j + 1 <= l;
          }
        }
      }
    }
  }

  /**
   * The scan raises KeyError only when a sibling with the awaited name
   * lacks the attribute, and no sibling before it closes the range.
   */
  lemma {:induction false} RangeEndRaises(sibs: seq<Node>, j: nat, idAttr: string, waitfor: string, id: string)
    requires RangeEnd(sibs, j, idAttr, waitfor, id).Err?
    ensures RangeEnd(sibs, j, idAttr, waitfor, id).error == KeyError(idAttr)
    ensures exists l :: j <= l < |sibs| && Tag.LocalName(sibs[l].tag) == waitfor && idAttr !in sibs[l].attrs
    decreases |sibs| - j
  {
    if Tag.LocalName(sibs[j].tag) == waitfor && idAttr !in sibs[j].attrs {
    } else {
      RangeEndRaises(sibs, j + 1, idAttr, waitfor, id);
    }
  }

  /**
   * `skip_range` as the loop it is: walks `current` along the siblings
   * until it finds the end of the range or runs out.
   */
  method SkipRangeLoop(sibs: seq<Node>, i: nat, idAttr: string, waitfor: string) returns (r: Result<Option<nat>>)
    requires i < |sibs|
    ensures r == SkipTo(sibs, i, idAttr, waitfor)
  {
    if idAttr !in sibs[i].attrs {
      return Err(KeyError(idAttr));
    }
    var id := sibs[i].attrs[idAttr];
    var current := i + 1;
    while true
      invariant i + 1 <= current <= |sibs|
      invariant RangeEnd(sibs, current, idAttr, waitfor, id) == SkipTo(sibs, i, idAttr, waitfor)
      decreases |sibs| - current
    {
      if current == |sibs| {
        return Ok(None);
      }
      if Tag.LocalName(sibs[current].tag) == waitfor {
        if idAttr !in sibs[current].attrs {
          return Err(KeyError(idAttr));
        }
        if sibs[current].attrs[idAttr] == id {
          return Ok(Some(current));
        }
      }
      current := current + 1;
    }
  }

  function WarnText(message: string, tag: string): string
  {
    "Skipping " + message + " tag: " + tag
  }

  function UnexpectedText(tag: string): string
  {
    "Skipping unexpected tag: " + tag
  }

  /**
   * `xml_iter(p, name)`: the walk of `p`'s children under the resolved
   * table `name`.  An unknown name raises KeyError before anything is
   * yielded.  Every element yielded lies strictly inside `p`.
   */
  function Walk(built: map<string, Definition>, p: Node, name: string): (r: Walked)
    ensures name !in built ==> r == Walked([], [], Some(KeyError(name)))
    ensures forall e :: e in r.items ==> Size(e.node) < Size(p)
    decreases p, 1
  {
    if name !in built then Walked([], [], Some(KeyError(name)))
    else WalkFrom(built, p, built[name], 0)
  }

  /** The walk from the `i`-th child on. */
  function WalkFrom(built: map<string, Definition>, p: Node, h: Definition, i: nat): (r: Walked)
    requires i <= |p.children|
    ensures forall e :: e in r.items ==> Size(e.node) < Size(p)
    decreases p, 0, |p.children| - i
  {
    if i == |p.children| then Done
    else
      var c := p.children[i];
      match Classify(h, c.tag)
      case YieldOnly(k) =>
        Then(Walked([Elem(k, c)], [], None), WalkFrom(built, p, h, i + 1))
      case YieldAndNest(k, group) =>
        var inner := Walk(built, c, group);
        assert forall e :: e in inner.items ==> Size(e.node) < Size(p);
        Then(Walked([Elem(k, c)], [], None), Then(inner, WalkFrom(built, p, h, i + 1)))
      case NestOnly(group) =>
        var inner := Walk(built, c, group);
        assert forall e :: e in inner.items ==> Size(e.node) < Size(p);
        Then(inner, WalkFrom(built, p, h, i + 1))
      case WarnAbout(message) =>
        Then(Walked([], [WarnText(message, c.tag)], None), WalkFrom(built, p, h, i + 1))
      case IgnoreIt =>
        WalkFrom(built, p, h, i + 1)
      case SkipRange(idAttr, waitfor) =>
        (match SkipTo(p.children, i, idAttr, waitfor)
         case Err(e) => Walked([], [], Some(e))
         case Ok(None) => Done
         case Ok(Some(j)) => WalkFrom(built, p, h, j + 1))
      case Unexpected =>
        Then(Walked([], [UnexpectedText(c.tag)], None), WalkFrom(built, p, h, i + 1))
  }

  /** At the start of a skipped range, the walk goes on after the sibling that closes it. */
  lemma WalkFromSkip(built: map<string, Definition>, p: Node, h: Definition, i: nat, idAttr: string, waitfor: string)
    requires i < |p.children| && Classify(h, p.children[i].tag) == SkipRange(idAttr, waitfor)
    ensures WalkFrom(built, p, h, i) ==
      match SkipTo(p.children, i, idAttr, waitfor)
      case Err(e) => Walked([], [], Some(e))
      case Ok(None) => Done
      case Ok(Some(j)) => WalkFrom(built, p, h, j + 1)
  {
  }

  /** The walker's loop: `current` moves along the children of `p`, descending by recursion. */
  method XmlIter(built: map<string, Definition>, p: Node, name: string) returns (w: Walked)
    ensures w == Walk(built, p, name)
    decreases p, 1
  {
    if name !in built {
      return Walked([], [], Some(KeyError(name)));
    }
    var h := built[name];
    w := Done;
    var current := 0;
    while current < |p.children|
      invariant 0 <= current <= |p.children|
      invariant w.error.None?
      invariant Then(w, WalkFrom(built, p, h, current)) == WalkFrom(built, p, h, 0)
      decreases |p.children| - current
    {
      var step, next, stop := VisitChild(built, p, h, current);
      if stop {
        return Then(w, step);
      }
      ThenAssociative(w, step, WalkFrom(built, p, h, next));
      w := Then(w, step);
      if w.error.Some? {
        return w;
      }
      current := next;
    }
    ThenDone(w);
  }

  /**
   * One turn of the walker's loop, at the `current`-th child: what it
   * yields or warns about, and where the loop goes on (`stop` when a
   * skipped range never closes and the walk ends there).
   */
  method VisitChild(built: map<string, Definition>, p: Node, h: Definition, current: nat)
      returns (step: Walked, next: nat, stop: bool)
    requires current < |p.children|
    ensures stop ==> WalkFrom(built, p, h, current) == step
    ensures !stop ==> current < next <= |p.children|
                      && WalkFrom(built, p, h, current) == Then(step, WalkFrom(built, p, h, next))
    decreases p, 0
  {
    var c := p.children[current];
    next, stop := current + 1, false;
    match Classify(h, c.tag) {
      case YieldOnly(k) =>
        step := Walked([Elem(k, c)], [], None);
      case YieldAndNest(k, group) =>
        var inner := XmlIter(built, c, group);
        step := Then(Walked([Elem(k, c)], [], None), inner);
        ThenAssociative(Walked([Elem(k, c)], [], None), inner, WalkFrom(built, p, h, next));
      case NestOnly(group) =>
        step := XmlIter(built, c, group);
      case WarnAbout(message) =>
        step := Walked([], [WarnText(message, c.tag)], None);
      case IgnoreIt =>
        step := Done;
        ThenDone(WalkFrom(built, p, h, next));
      case SkipRange(idAttr, waitfor) =>
        var end := SkipRangeLoop(p.children, current, idAttr, waitfor);
        WalkFromSkip(built, p, h, current, idAttr, waitfor);
        match end {
          case Err(e) =>
            step := Walked([], [], Some(e));
          case Ok(None) =>
            step, stop := Done, true;
          case Ok(Some(j)) =>
            step, next := Done, j + 1;
            ThenDone(WalkFrom(built, p, h, next));
        }
      case Unexpected =>
        step := Walked([], [UnexpectedText(c.tag)], None);
    }
  }

  /**
   * With no nesting and no skipping, a walk yields exactly the children
   * whose tags the table yields, in document order, each with its class.
   */
  function YieldedChildren(h: Definition, cs: seq<Node>): seq<Elem>
  {
    if cs == [] then []
    else (if cs[0].tag in h.toYield then [Elem(h.toYield[cs[0].tag], cs[0])] else [])
         + YieldedChildren(h, cs[1..])
  }

  lemma {:induction false} FlatWalk(built: map<string, Definition>, p: Node, h: Definition, i: nat)
    requires i <= |p.children| && h.toNest == map[] && h.toSkip == map[]
    ensures WalkFrom(built, p, h, i).error.None?
    ensures WalkFrom(built, p, h, i).items == YieldedChildren(h, p.children[i..])
    decreases |p.children| - i
  {
    if i < |p.children| {
      FlatWalk(built, p, h, i + 1);
      assert p.children[i..][1..] == p.children[i + 1..];
    }
  }

  /**
   * A range whose end is never found ends the walk at its start: none of
   * the later siblings is visited.
   */
  lemma UnclosedRangeEndsWalk(built: map<string, Definition>, p: Node, h: Definition, i: nat)
    requires i < |p.children|
    requires Classify(h, p.children[i].tag).SkipRange?
    requires var t := Classify(h, p.children[i].tag);
      var a := t.idAttr;
      a in p.children[i].attrs
      && (forall l :: i < l < |p.children| ==> !ClosesRange(p.children[l], a, t.waitfor, p.children[i].attrs[a]))
      && (forall l :: i < l < |p.children| && Tag.LocalName(p.children[l].tag) == t.waitfor ==> a in p.children[l].attrs)
    ensures WalkFrom(built, p, h, i) == Done
  {
    var t := Classify(h, p.children[i].tag);
    var id := p.children[i].attrs[t.idAttr];
    var r := RangeEnd(p.children, i + 1, t.idAttr, t.waitfor, id);
    if r.Err? {
      RangeEndRaises(p.children, i + 1, t.idAttr, t.waitfor, id);
    } else {
      RangeEndFindsFirst(p.children, i + 1, t.idAttr, t.waitfor, id);
    }
  }

  /** The lxml example: a skipped range and everything in it is passed over, the rest is yielded. */
  lemma SkippedRangeExample(k: Kind)
    ensures var start := Node("skipStart", map["id" := "1"], [], None, map[]);
            var mid := Node("mid", map["id" := "1"], [], None, map[]);
            var end := Node("skipEnd", map["id" := "1"], [], None, map[]);
            var keep := Node("keep", map[], [], None, map[]);
            var root := Node("root", map[], [start, mid, end, keep], None, map[]);
            var h := Definition(map["keep" := k], map[], [], map[], map["skipStart" := ("id", "skipEnd")], []);
            Walk(map["skip_iter" := h], root, "skip_iter") == Walked([Elem(k, keep)], [], None)
  {
    var start := Node("skipStart", map["id" := "1"], [], None, map[]);
    var mid := Node("mid", map["id" := "1"], [], None, map[]);
    var end := Node("skipEnd", map["id" := "1"], [], None, map[]);
    var keep := Node("keep", map[], [], None, map[]);
    var root := Node("root", map[], [start, mid, end, keep], None, map[]);
    var h := Definition(map["keep" := k], map[], [], map[], map["skipStart" := ("id", "skipEnd")], []);
    var built := map["skip_iter" := h];
    Tag.MatchPlainWord("mid");
    Tag.MatchPlainWord("skipEnd");
    assert Tag.LocalName("mid") == "mid";
    assert Tag.LocalName("skipEnd") == "skipEnd";
    assert WalkFrom(built, root, h, 4) == Done;
    assert Classify(h, "keep") == YieldOnly(k);
    assert WalkFrom(built, root, h, 3) == Walked([Elem(k, keep)], [], None);
    assert RangeEnd(root.children, 2, "id", "skipEnd", "1") == Ok(Some(2));
    assert RangeEnd(root.children, 1, "id", "skipEnd", "1") == Ok(Some(2));
    assert SkipTo(root.children, 0, "id", "skipEnd") == Ok(Some(2));
    assert Classify(h, "skipStart") == SkipRange("id", "skipEnd");
  }

  /** The sibling-traversal example: with no nesting, children come out in document order. */
  lemma SiblingOrderExample(k: Kind)
    ensures var a := Node("a", map[], [], None, map[]);
            var b := Node("b", map[], [], None, map[]);
            var root := Node("root", map[], [a, b], None, map[]);
            var h := Definition(map["a" := k, "b" := k], map[], [], map[], map[], []);
            Walk(map["order_iter" := h], root, "order_iter").items == [Elem(k, a), Elem(k, b)]
  {
    var a := Node("a", map[], [], None, map[]);
    var b := Node("b", map[], [], None, map[]);
    var root := Node("root", map[], [a, b], None, map[]);
    var h := Definition(map["a" := k, "b" := k], map[], [], map[], map[], []);
    FlatWalk(map["order_iter" := h], root, h, 0);
    assert root.children[0..] == [a, b];
    assert [a, b][1..] == [b];
    assert YieldedChildren(h, [b]) == [Elem(k, b)];
    assert YieldedChildren(h, [a, b]) == [Elem(k, a), Elem(k, b)];
  }

  /**
   * A warned, ignored or unexpected child yields nothing and is not
   * descended into: the walk goes on with its next sibling, and only the
   * warnings grow.
   */
  lemma SilentChild(built: map<string, Definition>, p: Node, h: Definition, i: nat)
    requires i < |p.children|
    requires var t := Classify(h, p.children[i].tag); t.WarnAbout? || t.IgnoreIt? || t.Unexpected?
    ensures WalkFrom(built, p, h, i).items == WalkFrom(built, p, h, i + 1).items
    ensures WalkFrom(built, p, h, i).error == WalkFrom(built, p, h, i + 1).error
    ensures var t := Classify(h, p.children[i].tag);
      WalkFrom(built, p, h, i).warnings ==
        (if t.WarnAbout? then [WarnText(t.message, p.children[i].tag)]
         else if t.Unexpected? then [UnexpectedText(p.children[i].tag)]
         else []) + WalkFrom(built, p, h, i + 1).warnings
  {
    assert [] + WalkFrom(built, p, h, i + 1).items == WalkFrom(built, p, h, i + 1).items;
    assert [] + WalkFrom(built, p, h, i + 1).warnings == WalkFrom(built, p, h, i + 1).warnings;
  }

  /**
   * A child whose tag is both yielded and nested comes out first, then
   * what the nested walk yields from inside it, then the later siblings
   * unless the nested walk raised.
   */
  lemma YieldThenNest(built: map<string, Definition>, p: Node, h: Definition, i: nat)
    requires i < |p.children| && Classify(h, p.children[i].tag).YieldAndNest?
    ensures var c := p.children[i];
      var t := Classify(h, c.tag);
      var inner := Walk(built, c, t.group);
      && (inner.error.None? ==>
            WalkFrom(built, p, h, i).items == [Elem(t.kind, c)] + inner.items + WalkFrom(built, p, h, i + 1).items
            && WalkFrom(built, p, h, i).error == WalkFrom(built, p, h, i + 1).error)
      && (inner.error.Some? ==>
            WalkFrom(built, p, h, i).items == [Elem(t.kind, c)] + inner.items
            && WalkFrom(built, p, h, i).error == inner.error)
  {
    var c := p.children[i];
    var t := Classify(h, c.tag);
    var inner := Walk(built, c, t.group);
    var rest := WalkFrom(built, p, h, i + 1);
    assert WalkFrom(built, p, h, i) == Then(Walked([Elem(t.kind, c)], [], None), Then(inner, rest));
    assert [Elem(t.kind, c)] + (inner.items + rest.items) == [Elem(t.kind, c)] + inner.items + rest.items;
  }

  // The moveFrom range as registered: its end is named in Clark form.

  lemma MoveFromEndParts()
    ensures |W_NS| > 0 && Tag.NoCloseBracket(W_NS)
    ensures Tag.AllWord("MoveFromRangeEnd")
    ensures W_MoveFromRangeEnd == "{" + W_NS + "}" + "MoveFromRangeEnd"
  {
  }

  /** The end tag as registered is itself a well-formed Clark name. */
  lemma MoveFromEndMatches()
    ensures Tag.MatchTag(W_MoveFromRangeEnd) == Some((Some(W_NS), "MoveFromRangeEnd"))
  {
    MoveFromEndParts();
    Tag.MatchClark(W_NS, "MoveFromRangeEnd");
  }

  /** No sibling's local name is ever the Clark-form name `{w}MoveFromRangeEnd`. */
  lemma LocalNameNeverClark(t: string)
    ensures Tag.LocalName(t) != W_MoveFromRangeEnd
  {
    assert W_MoveFromRangeEnd[0] == '{' && !Tag.IsWordChar('{');
    if Tag.MatchTag(t).None? {
      MoveFromEndMatches();
    }
  }

  /** The scan for the end of a moveFrom range never finds one and never raises. */
  lemma {:induction false} MoveFromNeverCloses(sibs: seq<Node>, j: nat, id: string)
    ensures RangeEnd(sibs, j, "id", W_MoveFromRangeEnd, id) == Ok(None)
    decreases |sibs| - j
  {
    if j < |sibs| {
      LocalNameNeverClark(sibs[j].tag);
      MoveFromNeverCloses(sibs, j + 1, id);
    }
  }

  /**
   * A `w:moveFromRangeStart` carrying its `id` ends the walk of its parent:
   * neither the moved content nor anything after the range end is visited.
   * Without the `id` the walk raises KeyError.
   */
  lemma MoveFromDropsRest(built: map<string, Definition>, p: Node, h: Definition, i: nat)
    requires i < |p.children| && Classify(h, p.children[i].tag) == SkipRange("id", W_MoveFromRangeEnd)
    ensures "id" in p.children[i].attrs ==> WalkFrom(built, p, h, i) == Done
    ensures "id" !in p.children[i].attrs ==> WalkFrom(built, p, h, i) == Walked([], [], Some(KeyError("id")))
  {
    WalkFromSkip(built, p, h, i, "id", W_MoveFromRangeEnd);
    if "id" in p.children[i].attrs {
      MoveFromNeverCloses(p.children, i + 1, p.children[i].attrs["id"]);
    }
  }

  /**
   * The scan with the end named by its local name, as `get_tag(...).tag`
   * yields it: it stops at the first later sibling of that name, which
   * must carry the id attribute (KeyError otherwise) and closes the range
   * when its id agrees.
   */
  lemma {:induction false} RangeEndByLocalName(sibs: seq<Node>, k: nat, j: nat, idAttr: string, waitfor: string, id: string)
    requires k <= j < |sibs| && ClosesRange(sibs[j], idAttr, waitfor, id)
    requires forall l :: k <= l < j ==> Tag.LocalName(sibs[l].tag) != waitfor
    ensures RangeEnd(sibs, k, idAttr, waitfor, id) == Ok(Some(j))
    decreases j - k
  {
    if k < j {
      RangeEndByLocalName(sibs, k + 1, j, idAttr, waitfor, id);
    }
  }

  /** A range closed by a later sibling is passed over, and the walk resumes right after that sibling. */
  lemma SkipResumes(built: map<string, Definition>, p: Node, h: Definition, i: nat, j: nat, idAttr: string, waitfor: string)
    requires i < j < |p.children| && Classify(h, p.children[i].tag) == SkipRange(idAttr, waitfor)
    requires idAttr in p.children[i].attrs
    requires ClosesRange(p.children[j], idAttr, waitfor, p.children[i].attrs[idAttr])
    requires forall l :: i < l < j ==> Tag.LocalName(p.children[l].tag) != waitfor
    ensures WalkFrom(built, p, h, i) == WalkFrom(built, p, h, j + 1)
  {
    RangeEndByLocalName(p.children, i + 1, j, idAttr, waitfor, p.children[i].attrs[idAttr]);
    WalkFromSkipped(built, p, h, i, idAttr, waitfor, j);
  }

  lemma WalkFromSkipped(built: map<string, Definition>, p: Node, h: Definition, i: nat,
                        idAttr: string, waitfor: string, j: nat)
    requires i < |p.children| && Classify(h, p.children[i].tag) == SkipRange(idAttr, waitfor)
    requires SkipTo(p.children, i, idAttr, waitfor) == Ok(Some(j))
    ensures WalkFrom(built, p, h, i) == WalkFrom(built, p, h, j + 1)
  {
    WalkFromSkip(built, p, h, i, idAttr, waitfor);
  }

  /**
   * In a real document every attribute of `w:moveFromRangeStart` is
   * namespaced (its id is `w:id`), so lxml keys it in Clark notation and
   * the bare key "id" is absent: as registered, the walk raises
   * KeyError("id") at the range start, before any end tag is compared.
   */
  lemma MoveFromQualifiedId(built: map<string, Definition>, p: Node, h: Definition, i: nat)
    requires i < |p.children| && Classify(h, p.children[i].tag) == SkipRange("id", W_MoveFromRangeEnd)
    requires forall k :: k in p.children[i].attrs ==> |k| > 0 && k[0] == '{'
    ensures WalkFrom(built, p, h, i) == Walked([], [], Some(KeyError("id")))
  {
    assert "id"[0] != '{';
    MoveFromDropsRest(built, p, h, i);
  }

  /**
   * With the range keyed by the qualified `w:id` attribute and its end
   * named `moveFromRangeEnd` (the local name of `w:moveFromRangeEnd`), a
   * moved range is passed over and the walk resumes right after its end tag.
   */
  lemma MoveFromResumes(built: map<string, Definition>, p: Node, h: Definition, i: nat, j: nat)
    requires i < j < |p.children| && Classify(h, p.children[i].tag) == SkipRange(W_id, "moveFromRangeEnd")
    requires W_id in p.children[i].attrs
    requires ClosesRange(p.children[j], W_id, "moveFromRangeEnd", p.children[i].attrs[W_id])
    requires forall l :: i < l < j ==> Tag.LocalName(p.children[l].tag) != "moveFromRangeEnd"
    ensures WalkFrom(built, p, h, i) == WalkFrom(built, p, h, j + 1)
  {
    SkipResumes(built, p, h, i, j, W_id, "moveFromRangeEnd");
  }
}
