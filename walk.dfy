/**
 * `walk`: a pre-order search over a simplified document that applies a
 * visitor to the nodes of one `TYPE` and stops at the first result that is
 * not None.  The Python function keeps an explicit stack of pending nodes
 * and of (list, next index) pairs; `Visit` is the same search written as a
 * recursion, and `WalkTree` is the stack loop proved equal to it.
 */
module TreeWalk {
  import opened Runtime
  import opened Json

  /** The visitor, by arity: a one-parameter `fun` gets the node only, any other gets its context too. */
  datatype Visitor =
    | Single(f: Json -> Json)
      /** `fun(node, parent_list, index)`, or `fun(node, None, None)` when nothing encloses the node. */
    | Multi(g: (Json, Option<(seq<Json>, int)>) -> Json)

  /** The walk's parameters once the keywords are settled; `JNull` as `nodeType` applies the visitor everywhere. */
  datatype Config = Config(nodeType: Json, noIter: Option<seq<Json>>, fun: Visitor)

  /** What a visited dict leads to. */
  datatype Next = Leaf | Into(child: Json) | IntoList(items: seq<Json>)

  /** The visitor's result on a node; `JNull` is Python's None. */
  function Call(v: Visitor, node: Json, ctx: Option<(seq<Json>, int)>): Json
  {
    match v
    case Single(f) => f(node)
    case Multi(g) => g(node, ctx)
  }

  /** `node_type is None or current.get("TYPE", None) == node_type`. */
  function Applies(c: Config, node: Json): Result<bool>
  {
    if c.nodeType == JNull then Ok(true)
    else if !node.JObj? then Err(AttributeError("get"))
    else Ok(Get(node.fields, "TYPE") == Some(c.nodeType))
  }

  /**
   * Where the walk goes from a dict: into a dict `VALUE` when the node has
   * a truthy `TYPE`, into a non-empty list `VALUE` whose first element has
   * a truthy `TYPE` unless the node's `TYPE` is in `noIter`, else nowhere.
   */
  function Children(c: Config, fields: seq<(string, Json)>): (r: Result<Next>)
    ensures r.Ok? && r.value.Into? ==> JsonSize(r.value.child) < JsonSize(JObj(fields))
    ensures r.Ok? && r.value.IntoList? ==> JsonSize(JArr(r.value.items)) < JsonSize(JObj(fields))
  {
    var val := Get(fields, "VALUE");
    if val.None? then Ok(Leaf)
    else
      GetSmaller(fields, "VALUE");
      if val.value.JObj? && HasType(fields) then Ok(Into(val.value))
      else if val.value.JArr? && val.value.items != [] then
        var first := val.value.items[0];
        if !first.JObj? then Err(AttributeError("get"))
        else if !HasType(first.fields) then Ok(Leaf)
        else if c.noIter.None? then Ok(IntoList(val.value.items))
        else
          var t :- Index(fields, "TYPE");
          if t in c.noIter.value then Ok(Leaf) else Ok(IntoList(val.value.items))
      else Ok(Leaf)
  }

  /** The search from one node: the visitor first, then what the node leads to. */
  function Visit(c: Config, node: Json, ctx: Option<(seq<Json>, int)>): Result<Json>
    decreases JsonSize(node)
  {
    var applies :- Applies(c, node);
    var out := if applies then Call(c.fun, node, ctx) else JNull;
    if out != JNull then Ok(out)
    else if !node.JObj? then Err(AttributeError("get"))
    else
      var next :- Children(c, node.fields);
      match next
      case Leaf => Ok(JNull)
      case Into(child) => Visit(c, child, ctx)
      case IntoList(items) =>
        assert items[0..] == items;
        VisitFrom(c, items, 0)
  }

  /** The search over a list's elements from index `i`, each knowing its list and index. */
  function VisitFrom(c: Config, items: seq<Json>, i: nat): Result<Json>
    requires i <= |items|
    decreases ListSize(items[i..])
  {
    if i == |items| then Ok(JNull)
    else
      assert items[i..][0] == items[i] && items[i..][1..] == items[i + 1..];
      var r :- Visit(c, items[i], Some((items, i)));
      if r != JNull then Ok(r) else VisitFrom(c, items, i + 1)
  }

  /** `walk(document, fun, node_type, no_iter, **kwargs)`: a `TYPE` keyword overrides `node_type`; any other keyword is an error. */
  function Walk(document: Json, fun: Visitor, nodeType: Json, noIter: Option<seq<Json>>, kwargs: map<string, Json>): Result<Json>
  {
    var nt := if "TYPE" in kwargs then kwargs["TYPE"] else nodeType;
    if kwargs.Keys - {"TYPE"} != {} then Err(TypeError("Unexpected keyword arguments"))
    else Visit(Config(nt, noIter, fun), document, None)
  }

  // ---------------------------------------------------------------------
  // The visiting order

  /** A node the walk reaches, with the context its visitor is given. */
  type Arrival = (Json, Option<(seq<Json>, int)>)

  /** The nodes the walk reaches from `node`, in pre-order with children left to right, were the visitor never to answer. */
  function Reached(c: Config, node: Json, ctx: Option<(seq<Json>, int)>): seq<Arrival>
    decreases JsonSize(node)
  {
    [(node, ctx)]
    + if !node.JObj? || Children(c, node.fields).Err? then []
      else match Children(c, node.fields).value
        case Leaf => []
        case Into(child) => Reached(c, child, ctx)
        case IntoList(items) =>
          assert items[0..] == items;
          ReachedFrom(c, items, 0)
  }

  function ReachedFrom(c: Config, items: seq<Json>, i: nat): seq<Arrival>
    requires i <= |items|
    decreases ListSize(items[i..])
  {
    if i == |items| then []
    else
      assert items[i..][0] == items[i] && items[i..][1..] == items[i + 1..];
      Reached(c, items[i], Some((items, i))) + ReachedFrom(c, items, i + 1)
  }

  /** The visitor applies to the reached node and answers something other than None. */
  predicate Hit(c: Config, v: Arrival)
  {
    Applies(c, v.0) == Ok(true) && Call(c.fun, v.0, v.1) != JNull
  }

  /** The first answer along a visiting order, or None. */
  function FirstHit(c: Config, vs: seq<Arrival>): Json
  {
    if vs == [] then JNull
    else if Hit(c, vs[0]) then Call(c.fun, vs[0].0, vs[0].1)
    else FirstHit(c, vs[1..])
  }

  /** `FirstHit` is None exactly when nothing along the order answers, and otherwise the earliest answer. */
  lemma {:induction false} FirstHitSpec(c: Config, vs: seq<Arrival>)
    ensures FirstHit(c, vs) == JNull <==> forall k :: 0 <= k < |vs| ==> !Hit(c, vs[k])
    ensures FirstHit(c, vs) != JNull ==>
      exists k :: 0 <= k < |vs| && Hit(c, vs[k]) && FirstHit(c, vs) == Call(c.fun, vs[k].0, vs[k].1)
        && forall j :: 0 <= j < k ==> !Hit(c, vs[j])
  {
    if vs != [] {
      FirstHitSpec(c, vs[1..]);
      assert forall k :: 1 <= k < |vs| ==> vs[k] == vs[1..][k - 1];
      if !Hit(c, vs[0]) && FirstHit(c, vs) != JNull {
        var k :| 0 <= k < |vs[1..]| && Hit(c, vs[1..][k]) && FirstHit(c, vs[1..]) == Call(c.fun, vs[1..][k].0, vs[1..][k].1)
          && forall j :: 0 <= j < k ==> !Hit(c, vs[1..][j]);
        assert Hit(c, vs[k + 1]) && forall j :: 0 <= j < k + 1 ==> !Hit(c, vs[j]);
      }
    }
  }

  lemma {:induction false} FirstHitAppend(c: Config, a: seq<Arrival>, b: seq<Arrival>)
    ensures FirstHit(c, a + b) == Then(Ok(FirstHit(c, a)), Ok(FirstHit(c, b))).value
    decreases |a|
  {
    if a != [] {
      FirstHitAppend(c, a[1..], b);
      assert (a + b)[0] == a[0] && (a + b)[1..] == a[1..] + b;
    } else {
      assert a + b == b;
    }
  }

  /** The walk answers with the first non-None visitor result in pre-order, or None after reaching every node. */
  lemma {:induction false} VisitFirstHit(c: Config, node: Json, ctx: Option<(seq<Json>, int)>)
    requires Visit(c, node, ctx).Ok?
    ensures Visit(c, node, ctx).value == FirstHit(c, Reached(c, node, ctx))
    decreases JsonSize(node)
  {
    var rest := Reached(c, node, ctx)[1..];
    assert Reached(c, node, ctx) == [(node, ctx)] + rest;
    FirstHitAppend(c, [(node, ctx)], rest);
    if !Hit(c, (node, ctx)) {
      match Children(c, node.fields).value {
        case Leaf =>
        case Into(child) =>
          VisitFirstHit(c, child, ctx);
        case IntoList(items) =>
          assert items[0..] == items;
          VisitFromFirstHit(c, items, 0);
      }
    }
  }

  lemma {:induction false} VisitFromFirstHit(c: Config, items: seq<Json>, i: nat)
    requires i <= |items| && VisitFrom(c, items, i).Ok?
    ensures VisitFrom(c, items, i).value == FirstHit(c, ReachedFrom(c, items, i))
    decreases ListSize(items[i..])
  {
    if i < |items| {
      assert items[i..][0] == items[i] && items[i..][1..] == items[i + 1..];
      VisitFirstHit(c, items[i], Some((items, i)));
      FirstHitAppend(c, Reached(c, items[i], Some((items, i))), ReachedFrom(c, items, i + 1));
      if Visit(c, items[i], Some((items, i))).value == JNull {
        VisitFromFirstHit(c, items, i + 1);
      }
    }
  }

  /** A node whose `TYPE` is in `noIter` is reached, but its `VALUE` list is not. */
  lemma NotDescended(c: Config, node: Json, ctx: Option<(seq<Json>, int)>)
    requires c.noIter.Some? && node.JObj?
    requires Get(node.fields, "TYPE").Some? && Get(node.fields, "TYPE").value in c.noIter.value
    requires Get(node.fields, "VALUE").Some? && Get(node.fields, "VALUE").value.JArr?
    ensures Reached(c, node, ctx) == [(node, ctx)]
  {
    IndexSpec(node.fields, "TYPE");
  }

  // ---------------------------------------------------------------------
  // The stack loop

  /** A stack entry: a node still to visit (`(node, None)`), or a list and the index of its next element. */
  datatype Frame = NodeAt(node: Json) | ListAt(items: seq<Json>, index: nat)

  /** Only the top can be a node, and every list index is within its list. */
  predicate Shaped(stack: seq<Frame>)
  {
    && (forall k :: 0 <= k < |stack| - 1 ==> stack[k].ListAt?)
    && (forall k :: 0 <= k < |stack| ==> stack[k].ListAt? ==> stack[k].index <= |stack[k].items|)
  }

  /** Every frame is a list entry with its index within the list: the stack below a popped frame. */
  predicate Settled(stack: seq<Frame>)
  {
    forall k :: 0 <= k < |stack| ==> stack[k].ListAt? && stack[k].index <= |stack[k].items|
  }

  /** Any well-formed frame may go on top of list entries, and a list entry keeps them settled. */
  lemma Extend(below: seq<Frame>, f: Frame)
    requires Settled(below) && (f.ListAt? ==> f.index <= |f.items|)
    ensures Shaped(below + [f])
    ensures f.ListAt? ==> Settled(below + [f])
  {
    assert forall k :: 0 <= k < |below| ==> (below + [f])[k] == below[k];
  }

  /** What the visitor of the top node is told: the list and index below it, or nothing at the bottom. */
  function Context(below: seq<Frame>): Option<(seq<Json>, int)>
  {
    if below == [] then None
    else match below[|below| - 1]
      case ListAt(items, i) => Some((items, i - 1))
      case NodeAt(_) => None
  }

  /** The first search, unless it fails or finds something; then the second. */
  function Then(a: Result<Json>, b: Result<Json>): Result<Json>
  {
    if a.Err? || a.value != JNull then a else b
  }

  lemma ThenAssoc(a: Result<Json>, b: Result<Json>, c: Result<Json>)
    ensures Then(Then(a, b), c) == Then(a, Then(b, c))
  {
  }

  /** The search one frame stands for. */
  function Run(c: Config, f: Frame, ctx: Option<(seq<Json>, int)>): Result<Json>
    requires f.ListAt? ==> f.index <= |f.items|
  {
    match f
    case NodeAt(n) => Visit(c, n, ctx)
    case ListAt(items, i) => VisitFrom(c, items, i)
  }

  /** The search the stack still stands for: its frames from the top down, until one finds something. */
  function Pending(c: Config, stack: seq<Frame>): Result<Json>
    requires Shaped(stack)
    decreases |stack|
  {
    if stack == [] then Ok(JNull)
    else
      var below := stack[..|stack| - 1];
      Then(Run(c, stack[|stack| - 1], Context(below)), Pending(c, below))
  }

  function FrameWeight(f: Frame): nat
  {
    match f
    case NodeAt(n) => JsonSize(n)
    case ListAt(items, i) => if i <= |items| then 1 + ListSize(items[i..]) else 1
  }

  /** A bound on the loop's remaining turns. */
  function Weight(stack: seq<Frame>): nat
  {
    if stack == [] then 0 else Weight(stack[..|stack| - 1]) + FrameWeight(stack[|stack| - 1])
  }

  /** `walk`, as the Python code runs it: pop, visit, push what the node leads to. */
  method WalkTree(document: Json, fun: Visitor, nodeType: Json, noIter: Option<seq<Json>>, kwargs: map<string, Json>)
    returns (r: Result<Json>)
    ensures r == Walk(document, fun, nodeType, noIter, kwargs)
    ensures kwargs.Keys - {"TYPE"} != {} ==> r == Err(TypeError("Unexpected keyword arguments"))
    ensures kwargs.Keys <= {"TYPE"} ==>
              r == Visit(Config(if "TYPE" in kwargs then kwargs["TYPE"] else nodeType, noIter, fun), document, None)
  {
    var nt := nodeType;
    if "TYPE" in kwargs {
      nt := kwargs["TYPE"];
    }
    if kwargs.Keys - {"TYPE"} != {} {
      return Err(TypeError("Unexpected keyword arguments"));
    }
    var c := Config(nt, noIter, fun);
    assert Walk(document, fun, nodeType, noIter, kwargs) == Visit(c, document, None);
    r := Search(c, document);
  }

  /** The stack loop: pop a frame, visit, push what the node leads to, until a visitor returns something. */
  method Search(c: Config, document: Json) returns (r: Result<Json>)
    ensures r == Visit(c, document, None)
  {
    ghost var goal := Visit(c, document, None);
    var stack := [NodeAt(document)];
    StartPending(c, document);
    while stack != []
      invariant Shaped(stack) && goal == Pending(c, stack)
      decreases Weight(stack)
    {
      var done;
      stack, done := Step(c, stack, goal);
      if done.Some? {
        return done.value;
      }
    }
    r := Ok(JNull);
  }

  /** The stack the walk starts with stands for the visit of the whole document. */
  lemma StartPending(c: Config, document: Json)
    ensures Shaped([NodeAt(document)]) && Pending(c, [NodeAt(document)]) == Visit(c, document, None)
  {
    assert [NodeAt(document)][..0] == [];
  }

  /** Pushing a frame puts its search in front of the rest. */
  lemma Pushed(c: Config, below: seq<Frame>, f: Frame)
    requires Shaped(below + [f]) && (f.ListAt? ==> f.index <= |f.items|)
    ensures Shaped(below) && Settled(below)
    ensures Pending(c, below + [f]) == Then(Run(c, f, Context(below)), Pending(c, below))
    ensures Weight(below + [f]) == Weight(below) + FrameWeight(f)
  {
    assert (below + [f])[..|below|] == below;
    assert forall k :: 0 <= k < |below| ==> (below + [f])[k] == below[k];
  }

  /** One turn of the loop: the top frame is popped and handled. */
  method Step(c: Config, stack: seq<Frame>, ghost goal: Result<Json>) returns (stack': seq<Frame>, done: Option<Result<Json>>)
    requires stack != [] && Shaped(stack) && goal == Pending(c, stack)
    ensures done.Some? ==> done.value == goal
    ensures done.None? ==> Shaped(stack') && goal == Pending(c, stack') && Weight(stack') < Weight(stack)
  {
    var below := stack[..|stack| - 1];
    assert stack == below + [stack[|stack| - 1]];
    Pushed(c, below, stack[|stack| - 1]);
    match stack[|stack| - 1]
    case NodeAt(node) =>
      stack', done := StepNode(c, below, node, goal);
    case ListAt(items, i) =>
      stack', done := StepList(c, below, items, i, goal);
  }

  /** A popped node: the visitor, then the node's `VALUE`. */
  method StepNode(c: Config, below: seq<Frame>, node: Json, ghost goal: Result<Json>)
    returns (stack': seq<Frame>, done: Option<Result<Json>>)
    requires Settled(below) && Shaped(below)
    requires goal == Then(Visit(c, node, Context(below)), Pending(c, below))
    ensures done.Some? ==> done.value == goal
    ensures done.None? ==> Shaped(stack') && goal == Pending(c, stack') && Weight(stack') < Weight(below) + JsonSize(node)
  {
    done := None;
    stack' := below;
    var applies := Applies(c, node);
    if applies.Err? {
      return below, Some(Err(applies.error));
    }
    var out := JNull;
    if applies.value {
      out := CallVisitor(c.fun, below, node);
    }
    assert out == if applies.value then Call(c.fun, node, Context(below)) else JNull;
    if out != JNull {
      return below, Some(Ok(out));
    }
    if !node.JObj? {
      return below, Some(Err(AttributeError("get")));
    }
    var next := Children(c, node.fields);
    if next.Err? {
      return below, Some(Err(next.error));
    }
    match next.value {
      case Leaf =>
      case Into(child) =>
        stack' := below + [NodeAt(child)];
        Extend(below, NodeAt(child));
        Pushed(c, below, NodeAt(child));
      case IntoList(items) =>
        stack' := below + [ListAt(items, 0)];
        assert items[0..] == items;
        Extend(below, ListAt(items, 0));
        Pushed(c, below, ListAt(items, 0));
    }
  }

  /** `fun(current)`, or `fun(current, parent, parent_index - 1)` with the list entry below, or `fun(current, None, None)`. */
  method CallVisitor(v: Visitor, below: seq<Frame>, node: Json) returns (out: Json)
    requires Settled(below)
    ensures out == Call(v, node, Context(below))
  {
    match v {
      case Single(f) =>
        out := f(node);
      case Multi(g) =>
        if below == [] {
          out := g(node, None);
        } else {
          var parent := below[|below| - 1];
          out := g(node, Some((parent.items, parent.index - 1)));
        }
    }
  }

  /** A popped list entry: its next element goes on top of the list's advanced entry. */
  method StepList(c: Config, below: seq<Frame>, items: seq<Json>, i: nat, ghost goal: Result<Json>)
    returns (stack': seq<Frame>, done: Option<Result<Json>>)
    requires Settled(below) && Shaped(below) && i <= |items|
    requires goal == Then(VisitFrom(c, items, i), Pending(c, below))
    ensures done.None?
    ensures Shaped(stack') && goal == Pending(c, stack') && Weight(stack') < Weight(below) + 1 + ListSize(items[i..])
  {
    done := None;
    stack' := below;
    if i < |items| {
      var middle := below + [ListAt(items, i + 1)];
      stack' := middle + [NodeAt(items[i])];
      Extend(below, ListAt(items, i + 1));
      Extend(middle, NodeAt(items[i]));
      Pushed(c, below, ListAt(items, i + 1));
      Pushed(c, middle, NodeAt(items[i]));
      assert items[i..][0] == items[i] && items[i..][1..] == items[i + 1..];
      ThenAssoc(Visit(c, items[i], Some((items, i))), VisitFrom(c, items, i + 1), Pending(c, below));
    }
  }
}
