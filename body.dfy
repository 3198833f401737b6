/**
 * `body.to_json` and `tc.to_json` (the same loop in both classes): a
 * peekable cursor over the element's walk is handed to every child, a
 * child that consumes siblings from it advances the loop past them, and
 * empty paragraphs are filtered out.
 */
module Bodies {
  import opened Runtime
  import opened Json
  import opened Xml
  import opened Kinds
  import opened Walker
  import opened Serialize

  /** The loop's result from here on, after the entries already collected. */
  function After(contents: seq<Json>, rest: Result<seq<Json>>): Result<seq<Json>>
  {
    if rest.Ok? then Ok(contents + rest.value) else rest
  }

  /** One turn of the loop: the first child's JSON after filtering, and how many siblings it consumed. */
  function Turn(env: Env, p: Node, rest: seq<Elem>, err: Option<Error>): (r: Result<(seq<Json>, nat)>)
    requires Below(rest, Size(p)) && rest != []
    ensures r.Ok? ==> 1 + r.value.1 <= |rest|
  {
    assert rest[0] in rest;
    assert forall x :: x in rest[1..] ==> x in rest;
    var (j, k) :- ElemJson(env, rest[0], Some(Cursor(p, rest[1..], err)));
    var kept :- Kept(env.o, j);
    Ok((kept, k))
  }

  /** A first turn that fails is the loop's error. */
  lemma ShareHeadErr(env: Env, p: Node, rest: seq<Elem>, err: Option<Error>)
    requires Below(rest, Size(p)) && rest != [] && Turn(env, p, rest, err).Err?
    ensures ShareLoop(env, p, rest, err) == Err(Turn(env, p, rest, err).error)
  {
    assert forall x :: x in rest[1..] ==> x in rest;
  }

  /** Otherwise the loop is the first turn's entries followed by the loop over what that turn left. */
  lemma ShareHead(env: Env, p: Node, rest: seq<Elem>, err: Option<Error>)
    requires Below(rest, Size(p)) && rest != [] && Turn(env, p, rest, err).Ok?
    ensures Below(rest[1 + Turn(env, p, rest, err).value.1..], Size(p))
    ensures ShareLoop(env, p, rest, err)
      == After(Turn(env, p, rest, err).value.0, ShareLoop(env, p, rest[1 + Turn(env, p, rest, err).value.1..], err))
  {
    assert forall x :: x in rest[1..] ==> x in rest;
    SliceBelow(rest, 1 + Turn(env, p, rest, err).value.1, Size(p));
  }

  lemma SliceBelow(es: seq<Elem>, k: nat, b: nat)
    requires Below(es, b) && k <= |es|
    ensures Below(es[k..], b)
  {
    assert forall x :: x in es[k..] ==> x in es;
  }

  lemma AfterNil(x: Result<seq<Json>>)
    ensures After([], x) == x
  {
    if x.Ok? {
      assert [] + x.value == x.value;
    }
  }

  lemma AfterAfter(a: seq<Json>, b: seq<Json>, x: Result<seq<Json>>)
    ensures After(a, After(b, x)) == After(a + b, x)
  {
    if x.Ok? {
      assert a + (b + x.value) == a + b + x.value;
    }
  }

  /** Entries collected, then one turn's, then the loop over what is left. */
  lemma AfterThen(goal: Result<seq<Json>>, contents: seq<Json>, kept: seq<Json>, whole: Result<seq<Json>>, rest: Result<seq<Json>>)
    requires goal == After(contents, whole) && whole == After(kept, rest)
    ensures goal == After(contents + kept, rest)
  {
    AfterAfter(contents, kept, rest);
  }

  method ShareToJson(env: Env, e: Elem) returns (r: Result<Json>)
    requires e.kind == Body || e.kind == Tc
    ensures r == ShareJson(env, e)
  {
    var w := XmlIter(env.built, e.node, TypeName(e.kind));
    var vs := Share(env, e.node, w.items, w.error);
    if vs.Err? {
      return Err(vs.error);
    }
    r := Ok(JObj([("TYPE", JStr(TypeName(e.kind))), ("VALUE", JArr(vs.value))]));
  }

  /** What the loop still has to produce from the children not yet taken, after the entries collected. */
  ghost predicate Owes(env: Env, p: Node, rest: seq<Elem>, err: Option<Error>, contents: seq<Json>, goal: Result<seq<Json>>)
  {
    Below(rest, Size(p)) && goal == After(contents, ShareLoop(env, p, rest, err))
  }

  /** The loop over the peekable cursor, collecting the children's JSON. */
  method Share(env: Env, p: Node, items: seq<Elem>, err: Option<Error>) returns (r: Result<seq<Json>>)
    requires Below(items, Size(p))
    ensures r == ShareLoop(env, p, items, err)
  {
    ghost var goal := ShareLoop(env, p, items, err);
    var contents: seq<Json> := [];
    AfterNil(goal);
    var rest := items;
    while rest != []
      invariant Owes(env, p, rest, err, contents, goal)
      decreases |rest|
    {
      var done;
      rest, contents, done := ShareTurn(env, p, rest, err, contents, goal);
      if done.Some? {
        return done.value;
      }
    }
    if err.Some? {
      return Err(err.value);
    }
    assert contents + [] == contents;
    r := Ok(contents);
  }

  /** One pass of the loop body: a child's JSON is appended, or its error ends the loop. */
  method ShareTurn(env: Env, p: Node, rest: seq<Elem>, err: Option<Error>, contents: seq<Json>, ghost goal: Result<seq<Json>>)
    returns (rest': seq<Elem>, contents': seq<Json>, done: Option<Result<seq<Json>>>)
    requires rest != [] && Owes(env, p, rest, err, contents, goal)
    ensures done.Some? ==> done.value == goal
    ensures done.None? ==> |rest'| < |rest| && Owes(env, p, rest', err, contents', goal)
  {
    var turn := Turn(env, p, rest, err);
    if turn.Err? {
      ShareHeadErr(env, p, rest, err);
      return rest, contents, Some(Err(turn.error));
    }
    ShareHead(env, p, rest, err);
    var (kept, k) := turn.value;
    AfterThen(goal, contents, kept, ShareLoop(env, p, rest, err), ShareLoop(env, p, rest[1 + k..], err));
    rest', contents', done := rest[1 + k..], contents + kept, None;
  }
}
