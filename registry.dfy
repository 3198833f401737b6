/**
 * The iterator registry: named dispatch tables that say, for each child tag
 * of an XML node, whether to yield an element object for it, descend into
 * it with another table, warn about it, ignore it, or skip a moved range.
 * A table may extend other tables; building resolves every registered
 * table into a flat one.
 */
module Registry {
  import opened Runtime
  import opened Kinds

  /**
   * An `ElementHandlers` tuple.  An absent (None) table and an empty one
   * behave identically everywhere, so both are the empty map or list here.
   */
  datatype Definition = Definition(
    toYield: map<string, Kind>,
    toNest: map<string, string>,
    toIgnore: seq<string>,
    toWarn: map<string, string>,
    toSkip: map<string, (string, string)>,
    dependsOn: seq<string>)

  const NoHandlers := Definition(map[], map[], [], map[], map[], [])

  /** The flat tables of a definition, without its `extends` list. */
  function Own(d: Definition): (r: Definition)
    ensures r.dependsOn == []
    ensures r.toYield == d.toYield && r.toNest == d.toNest && r.toIgnore == d.toIgnore
    ensures r.toWarn == d.toWarn && r.toSkip == d.toSkip
  {
    d.(dependsOn := [])
  }

  /**
   * Folding a resolved dependency into the tables built so far: its
   * entries are written over the existing ones (dict `update`), and its
   * ignore list is appended.
   */
  function MergeDefs(acc: Definition, dep: Definition): Definition
  {
    Definition(acc.toYield + dep.toYield, acc.toNest + dep.toNest, acc.toIgnore + dep.toIgnore,
               acc.toWarn + dep.toWarn, acc.toSkip + dep.toSkip, acc.dependsOn)
  }

  /**
   * `rank` witnesses that the `dependsOn` relation among registered tables
   * has no cycle: every registered dependency ranks below its dependent.
   * (The code has no cycle check; a cycle recurses without end.)
   */
  ghost predicate Ranked(defs: map<string, Definition>, rank: map<string, nat>)
  {
    && (forall x :: x in defs ==> x in rank)
    && (forall x, d :: x in defs && d in defs[x].dependsOn && d in defs ==> d in rank && rank[d] < rank[x])
  }

  /** The ValueError for registering a name twice with the check on. */
  function AlreadyRegistered(name: string): Error
  {
    ValueError("iterator named '" + name + "' already registered")
  }

  function MissingGroup(x: string, dep: string): Error
  {
    RuntimeError("Iterator for '" + x + "' depends on undefined group '" + dep + "'")
  }

  /**
   * The resolved table for a registered name: a table without `dependsOn`
   * is kept as registered; otherwise its own tables are folded with each
   * dependency's resolved tables in list order.
   */
  ghost function Resolve(defs: map<string, Definition>, rank: map<string, nat>, x: string): (r: Result<Definition>)
    requires x in defs && Ranked(defs, rank)
    ensures defs[x].dependsOn == [] ==> r == Ok(defs[x])
    ensures r.Ok? && defs[x].dependsOn != [] ==> r.value.dependsOn == []
    ensures r.Err? ==> r.error.RuntimeError?
    decreases rank[x], 1
  {
    if defs[x].dependsOn == [] then Ok(defs[x])
    else ResolveDeps(defs, rank, x, Own(defs[x]), 0)
  }

  ghost function ResolveDeps(defs: map<string, Definition>, rank: map<string, nat>, x: string,
                             acc: Definition, i: nat): (r: Result<Definition>)
    requires x in defs && Ranked(defs, rank) && i <= |defs[x].dependsOn|
    ensures r.Ok? ==> r.value.dependsOn == acc.dependsOn
    ensures r.Err? ==> r.error.RuntimeError?
    decreases rank[x], 0, |defs[x].dependsOn| - i
  {
    var deps := defs[x].dependsOn;
    if i == |deps| then Ok(acc)
    else if deps[i] !in defs then Err(MissingGroup(x, deps[i]))
    else
      match Resolve(defs, rank, deps[i])
      case Err(e) => Err(e)
      case Ok(d) => ResolveDeps(defs, rank, x, MergeDefs(acc, d), i + 1)
  }

  /** The first name, in registration order, whose resolution fails. */
  ghost function BuildOutcome(defs: map<string, Definition>, rank: map<string, nat>, order: seq<string>, k: nat): (r: Outcome)
    requires Ranked(defs, rank) && (forall n :: n in order ==> n in defs) && k <= |order|
    decreases |order| - k
  {
    if k == |order| then Pass
    else match Resolve(defs, rank, order[k])
      case Err(e) => Fail(e)
      case Ok(_) => BuildOutcome(defs, rank, order, k + 1)
  }

  /** Every registered name with its resolved table. */
  ghost function AllResolved(defs: map<string, Definition>, rank: map<string, nat>): (r: map<string, Definition>)
    requires Ranked(defs, rank) && (forall n :: n in defs ==> Resolve(defs, rank, n).Ok?)
    ensures r.Keys == defs.Keys
  {
    map n | n in defs :: Resolve(defs, rank, n).value
  }

  /** The module-level registry: `__definitions__` (with its insertion order) and `__built__`. */
  class Registry {
    var definitions: map<string, Definition>
    var order: seq<string>
    var built: map<string, Definition>

    ghost predicate Valid()
      reads this
    {
      && (forall n :: n in definitions <==> n in order)
      && (forall i, j :: 0 <= i < j < |order| ==> order[i] != order[j])
    }

    constructor()
      ensures Valid() && definitions == map[] && order == [] && built == map[]
    {
      definitions := map[];
      order := [];
      built := map[];
    }

    /**
     * `register_iterator`: stores a definition under `name`.  With
     * `checkName`, a name that is already registered is refused; without
     * it, the new definition replaces the old one in its original place.
     */
    method Register(name: string, def: Definition, checkName: bool) returns (r: Outcome)
      requires Valid()
      modifies this
      ensures Valid() && built == old(built)
      ensures checkName && name in old(definitions) ==>
        r == Fail(AlreadyRegistered(name))
        && definitions == old(definitions) && order == old(order)
      ensures !(checkName && name in old(definitions)) ==>
        r == Pass && definitions == old(definitions)[name := def]
        && order == (if name in old(definitions) then old(order) else old(order) + [name])
    {
      if checkName && name in definitions {
        return Fail(AlreadyRegistered(name));
      }
      if name !in definitions {
        order := order + [name];
      }
      definitions := definitions[name := def];
      return Pass;
    }

    /** The names already resolved, each with its resolved table in `built`. */
    ghost predicate Memo(rank: map<string, nat>, resolved: seq<string>)
      reads this
      requires Ranked(definitions, rank)
    {
      forall y :: y in resolved ==>
        y in definitions && Resolve(definitions, rank, y).Ok? && y in built
        && built[y] == Resolve(definitions, rank, y).value
    }

    /**
     * `_resolve`: resolves `x` depth first, storing every table it
     * resolves in `built` and recording it in `resolved`.  An unregistered
     * `x` is a KeyError, which the dependent turns into a RuntimeError
     * naming both groups.
     */
    method ResolveName(x: string, resolved: seq<string>, ghost rank: map<string, nat>)
        returns (r: Outcome, resolved': seq<string>)
      requires Ranked(definitions, rank) && Memo(rank, resolved)
      modifies this
      ensures definitions == old(definitions) && order == old(order)
      ensures Memo(rank, resolved')
      ensures x !in definitions ==> r == Fail(KeyError(x))
      ensures x in definitions ==>
        (r.Pass? <==> Resolve(definitions, rank, x).Ok?)
        && (r.Fail? ==> r == Fail(Resolve(definitions, rank, x).error))
      ensures r.Pass? ==> x in resolved'
      ensures forall y :: y in resolved ==> y in resolved'
      ensures forall y :: y in built <==> y in old(built) || y in resolved'
      ensures forall y :: y in built && y !in resolved' ==> built[y] == old(built)[y]
      decreases if x in definitions then rank[x] + 1 else 0, 2
    {
      if x in resolved {
        return Pass, resolved;
      }
      if x !in definitions {
        return Fail(KeyError(x)), resolved;
      }
      var xdef := definitions[x];
      if xdef.dependsOn == [] {
        built := built[x := xdef];
        return Pass, resolved + [x];
      }
      var acc;
      r, acc, resolved' := FoldDeps(x, resolved, rank);
      if r.Pass? {
        built := built[x := acc];
        resolved' := resolved' + [x];
      }
    }

    /**
     * `_resolve`'s loop over the `extends` list of `x`: the own tables
     * of `x` with every dependency's resolved tables folded in.
     */
    method FoldDeps(x: string, resolved: seq<string>, ghost rank: map<string, nat>)
        returns (r: Outcome, acc: Definition, resolved': seq<string>)
      requires Ranked(definitions, rank) && Memo(rank, resolved)
      requires x in definitions && definitions[x].dependsOn != []
      modifies this
      ensures definitions == old(definitions) && order == old(order)
      ensures Memo(rank, resolved')
      ensures r.Pass? ==> Resolve(definitions, rank, x) == Ok(acc)
      ensures r.Fail? ==> Resolve(definitions, rank, x).Err? && r == Fail(Resolve(definitions, rank, x).error)
      ensures forall y :: y in resolved ==> y in resolved'
      ensures forall y :: y in built <==> y in old(built) || y in resolved'
      ensures forall y :: y in built && y !in resolved' ==> built[y] == old(built)[y]
      decreases rank[x] + 1, 1
    {
      var deps := definitions[x].dependsOn;
      acc := Own(definitions[x]);
      resolved' := resolved;
      var i := 0;
      while i < |deps|
        invariant definitions == old(definitions) && order == old(order)
        invariant 0 <= i <= |deps| && deps == definitions[x].dependsOn
        invariant Memo(rank, resolved')
        invariant ResolveDeps(definitions, rank, x, acc, i) == Resolve(definitions, rank, x)
        invariant forall y :: y in resolved ==> y in resolved'
        invariant forall y :: y in built <==> y in old(built) || y in resolved'
        invariant forall y :: y in built && y !in resolved' ==> built[y] == old(built)[y]
      {
        ghost var built1, resolved1, acc1 := built, resolved', acc;
        var o;
        o, acc, resolved' := ResolveDep(x, acc, i, resolved', rank);
        forall y | y in built
          ensures y in old(built) || y in resolved'
        {
          if y !in built1 {
            assert y in resolved';
          } else if y !in old(built) {
            assert y in resolved1;
          }
        }
        if o.Fail? {
          assert ResolveDeps(definitions, rank, x, acc1, i) == Resolve(definitions, rank, x);
          return o, acc, resolved';
        }
        i := i + 1;
      }
      return Pass, acc, resolved';
    }

    /**
     * One turn of `_resolve`'s loop over the `extends` list of `x`:
     * resolves dependency `i` and folds its table into `acc`.
     */
    method ResolveDep(x: string, acc: Definition, i: nat, resolved: seq<string>, ghost rank: map<string, nat>)
        returns (r: Outcome, acc': Definition, resolved': seq<string>)
      requires Ranked(definitions, rank) && Memo(rank, resolved)
      requires x in definitions && i < |definitions[x].dependsOn|
      modifies this
      ensures definitions == old(definitions) && order == old(order)
      ensures Memo(rank, resolved')
      ensures r.Pass? ==> ResolveDeps(definitions, rank, x, acc', i + 1) == ResolveDeps(definitions, rank, x, acc, i)
      ensures r.Fail? ==> ResolveDeps(definitions, rank, x, acc, i).Err? && r == Fail(ResolveDeps(definitions, rank, x, acc, i).error)
      ensures forall y :: y in resolved ==> y in resolved'
      ensures forall y :: y in built <==> y in old(built) || y in resolved'
      ensures forall y :: y in built && y !in resolved' ==> built[y] == old(built)[y]
      decreases rank[x] + 1, 0
    {
      var dep := definitions[x].dependsOn[i];
      var o;
      o, resolved' := ResolveName(dep, resolved, rank);
      acc' := acc;
      if o.Fail? {
        if o.error.KeyError? {
          return Fail(MissingGroup(x, dep)), acc', resolved';
        }
        return o, acc', resolved';
      }
      acc' := MergeDefs(acc, built[dep]);
      return Pass, acc', resolved';
    }

    /** The first `k` registered names, all memoised, all resolve. */
    lemma PrefixResolves(k: nat, resolved: seq<string>, rank: map<string, nat>)
      requires Valid() && Ranked(definitions, rank) && Memo(rank, resolved) && k <= |order|
      requires forall j :: 0 <= j < k ==> order[j] in resolved
      ensures forall n :: n in order ==> n in definitions
      ensures forall j :: 0 <= j < k ==> Resolve(definitions, rank, order[j]).Ok?
    {
    }

    /** A failure at the `k`-th registered name is the outcome of the whole build. */
    lemma BuildStops(k: nat, resolved: seq<string>, rank: map<string, nat>)
      requires Valid() && Ranked(definitions, rank) && Memo(rank, resolved) && k < |order|
      requires forall j :: 0 <= j < k ==> order[j] in resolved
      requires order[k] in definitions && Resolve(definitions, rank, order[k]).Err?
      ensures BuildOutcome(definitions, rank, order, 0) == Fail(Resolve(definitions, rank, order[k]).error)
    {
      PrefixResolves(k, resolved, rank);
      FirstFailure(definitions, rank, order, 0, k);
    }

    /** Once every registered name is memoised, the build passes and `built` holds every resolved table. */
    lemma BuildCompletes(resolved: seq<string>, rank: map<string, nat>, before: map<string, Definition>)
      requires Valid() && Ranked(definitions, rank) && Memo(rank, resolved)
      requires forall j :: 0 <= j < |order| ==> order[j] in resolved
      requires forall y :: y in built <==> y in before || y in resolved
      requires forall y :: y in built && y !in resolved ==> built[y] == before[y]
      ensures (forall n :: n in order ==> n in definitions) && BuildOutcome(definitions, rank, order, 0) == Pass
      ensures forall n :: n in definitions ==> Resolve(definitions, rank, n).Ok?
      ensures built == before + AllResolved(definitions, rank)
    {
      PrefixResolves(|order|, resolved, rank);
      AllResolvePass(definitions, rank, order, 0);
      BuiltAfterBuild(definitions, rank, order, resolved, before, built);
    }

    /**
     * `build_iterators`: resolves every registered name in registration
     * order.  It fails with the first failure; when it succeeds, `built`
     * holds the resolved table of every registered name.
     */
    method Build(ghost rank: map<string, nat>) returns (r: Outcome)
      requires Valid() && Ranked(definitions, rank)
      modifies this
      ensures Valid() && definitions == old(definitions) && order == old(order)
      ensures r == BuildOutcome(definitions, rank, order, 0)
      ensures r.Pass? ==> (forall n :: n in definitions ==> Resolve(definitions, rank, n).Ok?) && built == old(built) + AllResolved(definitions, rank)
      // Whether or not the build fails, what it stored stays in `built`.
      ensures KeptOrResolved(rank, old(built)) && PrefixBuilt(rank)
    {
      var resolved: seq<string> := [];
      var k := 0;
      while k < |order|
        invariant 0 <= k <= |order|
        invariant definitions == old(definitions) && order == old(order)
        invariant Memo(rank, resolved)
        invariant forall j :: 0 <= j < k ==> order[j] in resolved
        invariant forall y :: y in built <==> y in old(built) || y in resolved
        invariant forall y :: y in built && y !in resolved ==> built[y] == old(built)[y]
      {
        var name := order[k];
        assert name in order;
        var o;
        o, resolved := ResolveName(name, resolved, rank);
        if o.Fail? {
          BuildStops(k, resolved, rank);
          KeptFromMemo(rank, resolved, old(built));
          PrefixFromMemo(rank, resolved, k);
          return o;
        }
        k := k + 1;
      }
      BuildCompletes(resolved, rank, old(built));
      KeptFromMemo(rank, resolved, old(built));
      PrefixFromMemo(rank, resolved, k);
      return Pass;
    }

    /** Every entry `before` had is still there, and each entry of `built` is either one of those, unchanged, or a resolved table. */
    ghost predicate KeptOrResolved(rank: map<string, nat>, before: map<string, Definition>)
      reads this
      requires Ranked(definitions, rank)
    {
      && (forall y :: y in before ==> y in built)
      && (forall y :: y in built ==>
            (y in before && built[y] == before[y])
            || (y in definitions && Resolve(definitions, rank, y).Ok? && built[y] == Resolve(definitions, rank, y).value))
    }

    /** Every name of the longest prefix of `order` that resolves is built, with its resolved table. */
    ghost predicate PrefixBuilt(rank: map<string, nat>)
      reads this
      requires Valid() && Ranked(definitions, rank)
    {
      forall j :: 0 <= j < |order| && (forall i :: 0 <= i <= j ==> Resolve(definitions, rank, order[i]).Ok?) ==>
        order[j] in built && built[order[j]] == Resolve(definitions, rank, order[j]).value
    }

    lemma KeptFromMemo(rank: map<string, nat>, resolved: seq<string>, before: map<string, Definition>)
      requires Ranked(definitions, rank) && Memo(rank, resolved)
      requires forall y :: y in built <==> y in before || y in resolved
      requires forall y :: y in built && y !in resolved ==> built[y] == before[y]
      ensures KeptOrResolved(rank, before)
    {
    }

    lemma PrefixFromMemo(rank: map<string, nat>, resolved: seq<string>, k: nat)
      requires Valid() && Ranked(definitions, rank) && Memo(rank, resolved) && k <= |order|
      requires forall j :: 0 <= j < k ==> order[j] in resolved
      requires k < |order| ==> Resolve(definitions, rank, order[k]).Err?
      ensures PrefixBuilt(rank)
    {
    }
  }

  /** Building passes once every name resolves. */
  lemma {:induction false} AllResolvePass(defs: map<string, Definition>, rank: map<string, nat>, order: seq<string>, i: nat)
    requires Ranked(defs, rank) && (forall n :: n in order ==> n in defs) && i <= |order|
    requires forall j :: i <= j < |order| ==> Resolve(defs, rank, order[j]).Ok?
    ensures BuildOutcome(defs, rank, order, i) == Pass
    decreases |order| - i
  {
    if i < |order| {
      assert Resolve(defs, rank, order[i]).Ok?;
      assert BuildOutcome(defs, rank, order, i) == BuildOutcome(defs, rank, order, i + 1);
      AllResolvePass(defs, rank, order, i + 1);
    }
  }

  /** Building stops at the first name, in registration order, that does not resolve. */
  lemma {:induction false} FirstFailure(defs: map<string, Definition>, rank: map<string, nat>, order: seq<string>, i: nat, k: nat)
    requires Ranked(defs, rank) && (forall n :: n in order ==> n in defs) && i <= k < |order|
    requires forall j :: i <= j < k ==> Resolve(defs, rank, order[j]).Ok?
    requires Resolve(defs, rank, order[k]).Err?
    ensures BuildOutcome(defs, rank, order, i) == Fail(Resolve(defs, rank, order[k]).error)
    decreases k - i
  {
    if i < k {
      assert Resolve(defs, rank, order[i]).Ok?;
      assert BuildOutcome(defs, rank, order, i) == BuildOutcome(defs, rank, order, i + 1);
      FirstFailure(defs, rank, order, i + 1, k);
    }
  }

  /** Once every registered name is resolved, `built` is the old table updated with all of them. */
  lemma BuiltAfterBuild(defs: map<string, Definition>, rank: map<string, nat>, order: seq<string>,
                        resolved: seq<string>, before: map<string, Definition>, after: map<string, Definition>)
    requires Ranked(defs, rank)
    requires forall n :: n in defs <==> n in order
    requires forall n :: n in order ==> n in resolved
    requires forall y :: y in resolved ==>
      y in defs && Resolve(defs, rank, y).Ok? && y in after && after[y] == Resolve(defs, rank, y).value
    requires forall y :: y in after <==> y in before || y in resolved
    requires forall y :: y in after && y !in resolved ==> after[y] == before[y]
    ensures forall n :: n in defs ==> Resolve(defs, rank, n).Ok?
    ensures after == before + AllResolved(defs, rank)
  {
    var want := before + AllResolved(defs, rank);
    assert after.Keys == want.Keys;
    forall y | y in after ensures after[y] == want[y] {
      if y in defs {
        assert y in resolved;
      }
    }
  }

  /** Folding a sequence of resolved dependencies into `acc`, first to last. */
  function FoldMerge(acc: Definition, ds: seq<Definition>): (r: Definition)
    ensures r.dependsOn == acc.dependsOn
    decreases |ds|
  {
    if ds == [] then acc else FoldMerge(MergeDefs(acc, ds[0]), ds[1..])
  }

  /** Successive dict updates of `m` by the tables of `ms`, first to last. */
  function FoldMaps<V>(m: map<string, V>, ms: seq<map<string, V>>): map<string, V>
    decreases |ms|
  {
    if ms == [] then m else FoldMaps(m + ms[0], ms[1..])
  }

  function Concat(ls: seq<seq<string>>): seq<string>
    decreases |ls|
  {
    if ls == [] then [] else ls[0] + Concat(ls[1..])
  }

  function YieldTables(ds: seq<Definition>): (r: seq<map<string, Kind>>)
    ensures |r| == |ds| && forall j :: 0 <= j < |ds| ==> r[j] == ds[j].toYield
  {
    seq(|ds|, j requires 0 <= j < |ds| => ds[j].toYield)
  }

  function NestTables(ds: seq<Definition>): (r: seq<map<string, string>>)
    ensures |r| == |ds| && forall j :: 0 <= j < |ds| ==> r[j] == ds[j].toNest
  {
    seq(|ds|, j requires 0 <= j < |ds| => ds[j].toNest)
  }

  function WarnTables(ds: seq<Definition>): (r: seq<map<string, string>>)
    ensures |r| == |ds| && forall j :: 0 <= j < |ds| ==> r[j] == ds[j].toWarn
  {
    seq(|ds|, j requires 0 <= j < |ds| => ds[j].toWarn)
  }

  function SkipTables(ds: seq<Definition>): (r: seq<map<string, (string, string)>>)
    ensures |r| == |ds| && forall j :: 0 <= j < |ds| ==> r[j] == ds[j].toSkip
  {
    seq(|ds|, j requires 0 <= j < |ds| => ds[j].toSkip)
  }

  function IgnoreLists(ds: seq<Definition>): (r: seq<seq<string>>)
    ensures |r| == |ds| && forall j :: 0 <= j < |ds| ==> r[j] == ds[j].toIgnore
  {
    seq(|ds|, j requires 0 <= j < |ds| => ds[j].toIgnore)
  }

  /** Each table of a fold is the fold of that table; ignore lists concatenate. */
  lemma {:induction false} FoldMergeParts(acc: Definition, ds: seq<Definition>)
    ensures FoldMerge(acc, ds).toYield == FoldMaps(acc.toYield, YieldTables(ds))
    ensures FoldMerge(acc, ds).toNest == FoldMaps(acc.toNest, NestTables(ds))
    ensures FoldMerge(acc, ds).toWarn == FoldMaps(acc.toWarn, WarnTables(ds))
    ensures FoldMerge(acc, ds).toSkip == FoldMaps(acc.toSkip, SkipTables(ds))
    ensures FoldMerge(acc, ds).toIgnore == acc.toIgnore + Concat(IgnoreLists(ds))
    decreases |ds|
  {
    if ds != [] {
      FoldMergeParts(MergeDefs(acc, ds[0]), ds[1..]);
      assert YieldTables(ds)[1..] == YieldTables(ds[1..]);
      assert NestTables(ds)[1..] == NestTables(ds[1..]);
      assert WarnTables(ds)[1..] == WarnTables(ds[1..]);
      assert SkipTables(ds)[1..] == SkipTables(ds[1..]);
      assert IgnoreLists(ds)[1..] == IgnoreLists(ds[1..]);
    }
  }

  /**
   * A key of a folded table comes from the last table that holds it, and
   * from the starting table only when no later table holds it.
   */
  lemma {:induction false} FoldMapsLookup<V>(m: map<string, V>, ms: seq<map<string, V>>, k: string)
    ensures k in FoldMaps(m, ms) <==> k in m || exists j :: 0 <= j < |ms| && k in ms[j]
    ensures forall j ::
              0 <= j < |ms| && k in ms[j] && (forall j' :: j < j' < |ms| ==> k !in ms[j'])
              ==> FoldMaps(m, ms)[k] == ms[j][k]
    ensures k in m && (forall j :: 0 <= j < |ms| ==> k !in ms[j]) ==> FoldMaps(m, ms)[k] == m[k]
    decreases |ms|
  {
    if ms != [] {
      FoldMapsLookup(m + ms[0], ms[1..], k);
      assert forall j :: 1 <= j < |ms| ==> ms[j] == ms[1..][j - 1];
      if k in FoldMaps(m, ms) && !(k in m) && k !in ms[0] {
        var j :| 0 <= j < |ms[1..]| && k in ms[1..][j];
        assert k in ms[j + 1];
      }
    }
  }

  /** The resolved tables of every dependency of `x`, in `extends` order. */
  ghost function DepsResolved(defs: map<string, Definition>, rank: map<string, nat>, x: string, i: nat): (r: seq<Definition>)
    requires x in defs && Ranked(defs, rank) && i <= |defs[x].dependsOn|
    requires forall j :: i <= j < |defs[x].dependsOn| ==>
      defs[x].dependsOn[j] in defs && Resolve(defs, rank, defs[x].dependsOn[j]).Ok?
    ensures |r| == |defs[x].dependsOn| - i
    ensures forall j :: 0 <= j < |r| ==> r[j] == Resolve(defs, rank, defs[x].dependsOn[i + j]).value
    decreases |defs[x].dependsOn| - i
  {
    if i == |defs[x].dependsOn| then []
    else [Resolve(defs, rank, defs[x].dependsOn[i]).value] + DepsResolved(defs, rank, x, i + 1)
  }

  lemma {:induction false} ResolveDepsFold(defs: map<string, Definition>, rank: map<string, nat>, x: string,
                                           acc: Definition, i: nat)
    requires x in defs && Ranked(defs, rank) && i <= |defs[x].dependsOn|
    requires ResolveDeps(defs, rank, x, acc, i).Ok?
    ensures forall j :: i <= j < |defs[x].dependsOn| ==>
      defs[x].dependsOn[j] in defs && Resolve(defs, rank, defs[x].dependsOn[j]).Ok?
    ensures ResolveDeps(defs, rank, x, acc, i).value == FoldMerge(acc, DepsResolved(defs, rank, x, i))
    decreases |defs[x].dependsOn| - i
  {
    var deps := defs[x].dependsOn;
    if i < |deps| {
      assert deps[i] in defs && Resolve(defs, rank, deps[i]).Ok?;
      var d := Resolve(defs, rank, deps[i]).value;
      assert ResolveDeps(defs, rank, x, acc, i) == ResolveDeps(defs, rank, x, MergeDefs(acc, d), i + 1);
      ResolveDepsFold(defs, rank, x, MergeDefs(acc, d), i + 1);
      assert forall j :: i <= j < |deps| ==> deps[j] in defs && Resolve(defs, rank, deps[j]).Ok? by {
        forall j | i <= j < |deps| ensures deps[j] in defs && Resolve(defs, rank, deps[j]).Ok? {
          if j > i {
            assert i + 1 <= j;
          }
        }
      }
      var ds := DepsResolved(defs, rank, x, i);
      assert ds == [d] + DepsResolved(defs, rank, x, i + 1);
    }
  }

  /**
   * What resolution produces for a table that extends others: every
   * dependency is registered and resolves, and each resolved table is the
   * table's own one updated by its dependencies' resolved tables in
   * `extends` order (a dependency's entry replaces the table's own entry
   * for the same tag, and a later dependency's replaces an earlier one's);
   * the ignore list is the own list followed by each dependency's list.
   */
  lemma ResolvedShape(defs: map<string, Definition>, rank: map<string, nat>, x: string)
    requires x in defs && Ranked(defs, rank) && defs[x].dependsOn != []
    requires Resolve(defs, rank, x).Ok?
    ensures forall j :: 0 <= j < |defs[x].dependsOn| ==>
      defs[x].dependsOn[j] in defs && Resolve(defs, rank, defs[x].dependsOn[j]).Ok?
    ensures var r := Resolve(defs, rank, x).value;
            var ds := DepsResolved(defs, rank, x, 0);
            && r.toYield == FoldMaps(defs[x].toYield, YieldTables(ds))
            && r.toNest == FoldMaps(defs[x].toNest, NestTables(ds))
            && r.toWarn == FoldMaps(defs[x].toWarn, WarnTables(ds))
            && r.toSkip == FoldMaps(defs[x].toSkip, SkipTables(ds))
            && r.toIgnore == defs[x].toIgnore + Concat(IgnoreLists(ds))
            && r.dependsOn == []
  {
    ResolveDepsFold(defs, rank, x, Own(defs[x]), 0);
    FoldMergeParts(Own(defs[x]), DepsResolved(defs, rank, x, 0));
  }

  /**
   * The first unregistered dependency (after registered ones that resolve)
   * fails the resolution with a RuntimeError naming both groups.
   */
  lemma {:induction false} MissingDependency(defs: map<string, Definition>, rank: map<string, nat>, x: string,
                                             acc: Definition, i: nat, j: nat)
    requires x in defs && Ranked(defs, rank) && i <= j < |defs[x].dependsOn|
    requires defs[x].dependsOn[j] !in defs
    requires forall l :: i <= l < j ==>
      defs[x].dependsOn[l] in defs && Resolve(defs, rank, defs[x].dependsOn[l]).Ok?
    ensures ResolveDeps(defs, rank, x, acc, i) == Err(MissingGroup(x, defs[x].dependsOn[j]))
    decreases j - i
  {
    if i < j {
      var dep := defs[x].dependsOn[i];
      assert dep in defs && Resolve(defs, rank, dep).Ok?;
      var d := Resolve(defs, rank, dep).value;
      assert ResolveDeps(defs, rank, x, acc, i) == ResolveDeps(defs, rank, x, MergeDefs(acc, d), i + 1);
      MissingDependency(defs, rank, x, MergeDefs(acc, d), i + 1, j);
    }
  }

  /**
   * A table with no tables of its own and a single group in `extends`
   * resolves to exactly what that group resolves to.
   */
  lemma SoleDependency(defs: map<string, Definition>, rank: map<string, nat>, x: string, y: string)
    requires x in defs && Ranked(defs, rank) && Own(defs[x]) == NoHandlers && defs[x].dependsOn == [y]
    requires y in defs && defs[y].dependsOn != []
    ensures Resolve(defs, rank, x) == Resolve(defs, rank, y)
  {
    assert Resolve(defs, rank, x) == ResolveDeps(defs, rank, x, NoHandlers, 0);
    match Resolve(defs, rank, y)
    case Err(e) =>
    case Ok(d) =>
      var m := MergeDefs(NoHandlers, d);
      assert ResolveDeps(defs, rank, x, NoHandlers, 0) == ResolveDeps(defs, rank, x, m, 1) == Ok(m);
      assert m.toYield == d.toYield && m.toNest == d.toNest && m.toWarn == d.toWarn && m.toSkip == d.toSkip;
      assert m.toIgnore == d.toIgnore;
  }
}
