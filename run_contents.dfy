/**
 * Run-level leaf elements: the text normalisation pipeline, the empty
 * marker, the symbol character, and the special characters (breaks, tabs,
 * hyphens) with their two lookup tables.
 */
module RunContents {
  import opened Runtime
  import opened Json
  import opened Xml
  import opened Options

  // ---------------------------------------------------------------------
  // String replacement

  /** `s.replace(c, rep)` for a one-character `c`. */
  function Replace(s: string, c: char, rep: string): string
  {
    if s == [] then []
    else (if s[0] == c then rep else [s[0]]) + Replace(s[1..], c, rep)
  }

  /** `s.replace(cs[0], rep).replace(cs[1], rep)...`: a chain of replacements with one target. */
  function ReplaceEach(s: string, cs: seq<char>, rep: string): string
    decreases cs
  {
    if cs == [] then s else ReplaceEach(Replace(s, cs[0], rep), cs[1..], rep)
  }

  /** Replacement works character by character, so it distributes over concatenation. */
  lemma {:induction false} ReplaceAppend(a: string, b: string, c: char, rep: string)
    ensures Replace(a + b, c, rep) == Replace(a, c, rep) + Replace(b, c, rep)
  {
    if a == [] {
      assert a + b == b;
    } else {
      assert (a + b)[0] == a[0] && (a + b)[1..] == a[1..] + b;
      ReplaceAppend(a[1..], b, c, rep);
    }
  }

  lemma {:induction false} ReplaceEachAppend(a: string, b: string, cs: seq<char>, rep: string)
    ensures ReplaceEach(a + b, cs, rep) == ReplaceEach(a, cs, rep) + ReplaceEach(b, cs, rep)
    decreases cs
  {
    if cs != [] {
      ReplaceAppend(a, b, cs[0], rep);
      ReplaceEachAppend(Replace(a, cs[0], rep), Replace(b, cs[0], rep), cs[1..], rep);
    }
  }

  /** A string without any target is left as it is. */
  lemma {:induction false} ReplaceEachNone(s: string, cs: seq<char>, rep: string)
    requires forall i :: 0 <= i < |s| ==> s[i] !in cs
    ensures ReplaceEach(s, cs, rep) == s
  {
    if cs != [] {
      ReplaceAbsent(s, cs[0], rep);
      ReplaceEachNone(s, cs[1..], rep);
    }
  }

  lemma {:induction false} ReplaceAbsent(s: string, c: char, rep: string)
    requires c !in s
    ensures Replace(s, c, rep) == s
  {
    if s != [] {
      assert s == [s[0]] + s[1..];
      ReplaceAbsent(s[1..], c, rep);
    }
  }

  /**
   * When the replacement contains no target, a chain of replacements maps
   * a single character to the replacement if it is a target, and leaves it
   * alone otherwise; the order of the chain does not matter.
   */
  lemma {:induction false} ReplaceEachChar(c: char, cs: seq<char>, rep: string)
    requires forall i :: 0 <= i < |rep| ==> rep[i] !in cs
    ensures ReplaceEach([c], cs, rep) == if c in cs then rep else [c]
  {
    if cs != [] {
      assert Replace([c], cs[0], rep) == if c == cs[0] then rep else [c] by {
        assert [c][1..] == [];
      }
      if c == cs[0] {
        ReplaceEachNone(rep, cs[1..], rep);
      } else {
        ReplaceEachChar(c, cs[1..], rep);
      }
    }
  }

  // ---------------------------------------------------------------------
  // The text pipeline

  const SingleQuotes: seq<char> := ['\U{2018}', '\U{2019}', '\U{201a}', '\U{201b}']
  const DoubleQuotes: seq<char> := ['\U{201c}', '\U{201d}']
  const WideSpaces: seq<char> :=
    ['\U{2000}', '\U{2001}', '\U{2002}', '\U{2003}', '\U{2004}', '\U{2005}',
     '\U{2006}', '\U{2007}', '\U{2008}', '\U{2009}', '\U{200a}', '\U{201b}']
  const Dashes: seq<char> :=
    ['\U{2010}', '\U{2011}', '\U{2012}', '\U{2013}', '\U{2014}', '\U{2015}', '\U{a0}']
  const Joiners: seq<char> := ['\U{200c}', '\U{200d}']
  const LeftToRightMark: char := '\U{200e}'
  const RightToLeftMark: char := '\U{200f}'

  /** The error `RE_SPACES(" ", _value)` raises: a compiled pattern is not callable. */
  const PatternNotCallable := TypeError("'re.Pattern' object is not callable")

  /** The options the text pipeline reads, with the defaults written at each call site. */
  datatype TextFlags = TextFlags(
    quotes: bool, spaces: bool, hyphens: bool, joiners: bool,
    flatten: bool, ltr: bool, rtl: bool)

  function TextFlagsOf(o: Options): TextFlags
  {
    TextFlags(
      Flag(o, "dumb-quotes", true), Flag(o, "dumb-spaces", true),
      Flag(o, "dumb-hyphens", true), Flag(o, "ignore-joiners", true),
      Flag(o, "flatten-inner-spaces", true),
      Flag(o, "ignore-left-to-right-mark", false), Flag(o, "ignore-right-to-left-mark", false))
  }

  /** One option-gated step: the characters it replaces and their common replacement. */
  datatype Rule = Rule(on: bool, targets: seq<char>, rep: string)

  /** A step applied to a whole string: the chained `.replace` calls, when its option is on. */
  function Step(r: Rule, v: string): string
  {
    if r.on then ReplaceEach(v, r.targets, r.rep) else v
  }

  /** Steps applied one after the other, each to the whole string. */
  function Apply(v: string, rules: seq<Rule>): string
    decreases rules
  {
    if rules == [] then v else Apply(Step(rules[0], v), rules[1..])
  }

  /** The dumb-quotes, dumb-spaces, dumb-hyphens and ignore-joiners steps, in that order. */
  function DumbRules(f: TextFlags): seq<Rule>
  {
    [Rule(f.quotes, SingleQuotes, "'"), Rule(f.quotes, DoubleQuotes, "\""),
     Rule(f.spaces, WideSpaces, " "), Rule(f.hyphens, Dashes, "-"), Rule(f.joiners, Joiners, "")]
  }

  /** The ignore-left-to-right-mark and ignore-right-to-left-mark steps. */
  function MarkRules(f: TextFlags): seq<Rule>
  {
    [Rule(f.ltr, [LeftToRightMark], ""), Rule(f.rtl, [RightToLeftMark], "")]
  }

  /**
   * The normalised value of a text element: the dumbing steps, then the
   * inner-space flattening (which raises, as written), then the mark
   * removal.
   */
  function TextValue(o: Options, v: string): Result<string>
  {
    var f := TextFlagsOf(o);
    var v1 := Apply(v, DumbRules(f));
    if f.flatten then Err(PatternNotCallable)
    else Ok(Apply(v1, MarkRules(f)))
  }

  /** The value a text element holds: the node's text, or "" when it has none. */
  function TextOf(n: Node): string
  {
    match n.text
    case Some(t) => t
    case None => ""
  }

  /** `text.to_json`: always a CT_Text carrying the normalised value. */
  function TextToJson(o: Options, n: Node): Result<Json>
  {
    var v :- TextValue(o, TextOf(n));
    Ok(JObj([("TYPE", JStr("CT_Text")), ("VALUE", JStr(v))]))
  }

  /** What a step does to a string of at most one character. */
  function CharStep(r: Rule, s: string): string
  {
    if s != [] && r.on && s[0] in r.targets then r.rep else s
  }

  /** One character carried through the steps, each looking at what the previous left. */
  function CharThrough(s: string, rules: seq<Rule>): string
    decreases rules
  {
    if rules == [] then s else CharThrough(CharStep(rules[0], s), rules[1..])
  }

  /** The character-by-character reference normalisation. */
  function PerChar(v: string, rules: seq<Rule>): string
  {
    if v == [] then [] else CharThrough([v[0]], rules) + PerChar(v[1..], rules)
  }

  /** Every replacement is at most one character and is not one of its own step's targets. */
  predicate Short(rules: seq<Rule>)
  {
    forall i :: 0 <= i < |rules| ==>
      |rules[i].rep| <= 1 && forall k :: 0 <= k < |rules[i].rep| ==> rules[i].rep[k] !in rules[i].targets
  }

  lemma {:induction false} ApplyAppend(a: string, b: string, rules: seq<Rule>)
    ensures Apply(a + b, rules) == Apply(a, rules) + Apply(b, rules)
    decreases rules
  {
    if rules != [] {
      var r := rules[0];
      if r.on {
        ReplaceEachAppend(a, b, r.targets, r.rep);
      }
      ApplyAppend(Step(r, a), Step(r, b), rules[1..]);
    }
  }

  lemma {:induction false} ApplyConcat(v: string, r1: seq<Rule>, r2: seq<Rule>)
    ensures Apply(v, r1 + r2) == Apply(Apply(v, r1), r2)
    decreases r1
  {
    if r1 == [] {
      assert r1 + r2 == r2;
    } else {
      assert (r1 + r2)[0] == r1[0] && (r1 + r2)[1..] == r1[1..] + r2;
      ApplyConcat(Step(r1[0], v), r1[1..], r2);
    }
  }

  /** On a string of at most one character, whole-string steps and per-character steps agree. */
  lemma {:induction false} ApplyShort(s: string, rules: seq<Rule>)
    requires |s| <= 1 && Short(rules)
    ensures Apply(s, rules) == CharThrough(s, rules)
    decreases rules
  {
    if rules != [] {
      var r := rules[0];
      assert Step(r, s) == CharStep(r, s) by {
        if r.on {
          if s == [] {
            ReplaceEachNone(s, r.targets, r.rep);
          } else {
            assert s == [s[0]];
            ReplaceEachChar(s[0], r.targets, r.rep);
          }
        }
      }
      assert Short(rules[1..]) by {
        forall i | 0 <= i < |rules[1..]| ensures rules[1..][i] == rules[i + 1] { }
      }
      ApplyShort(CharStep(r, s), rules[1..]);
    }
  }

  /** The whole-string steps equal the per-character reference. */
  lemma {:induction false} ApplyPerChar(v: string, rules: seq<Rule>)
    requires Short(rules)
    ensures Apply(v, rules) == PerChar(v, rules)
  {
    if v == [] {
      ApplyShort(v, rules);
      CharThroughEmpty(rules);
    } else {
      assert v == [v[0]] + v[1..];
      ApplyAppend([v[0]], v[1..], rules);
      ApplyShort([v[0]], rules);
      ApplyPerChar(v[1..], rules);
    }
  }

  lemma {:induction false} CharThroughEmpty(rules: seq<Rule>)
    ensures CharThrough([], rules) == []
  {
    if rules != [] {
      CharThroughEmpty(rules[1..]);
    }
  }

  lemma ShortRules(f: TextFlags)
    ensures Short(DumbRules(f) + MarkRules(f))
  {
    var rs := DumbRules(f) + MarkRules(f);
    assert '\'' !in SingleQuotes && '"' !in DoubleQuotes && ' ' !in WideSpaces && '-' !in Dashes;
    forall i | 0 <= i < |rs|
      ensures |rs[i].rep| <= 1 && forall k :: 0 <= k < |rs[i].rep| ==> rs[i].rep[k] !in rs[i].targets
    {
    }
  }

  /**
   * The chained whole-string replacements equal the per-character
   * reference: the pipeline fails exactly when inner-space flattening is on
   * (which it is unless the option says otherwise), and otherwise maps each
   * character independently of its neighbours.
   */
  lemma TextValueSpec(o: Options, v: string)
    ensures TextValue(o, v).Err? <==> Flag(o, "flatten-inner-spaces", true)
    ensures TextValue(o, v).Err? ==> TextValue(o, v).error == PatternNotCallable
    ensures TextValue(o, v).Ok? ==>
      TextValue(o, v).value == PerChar(v, DumbRules(TextFlagsOf(o)) + MarkRules(TextFlagsOf(o)))
  {
    var f := TextFlagsOf(o);
    ApplyConcat(v, DumbRules(f), MarkRules(f));
    ShortRules(f);
    ApplyPerChar(v, DumbRules(f) + MarkRules(f));
  }

  /** `c` is a target of some enabled step. */
  predicate Targeted(rules: seq<Rule>, c: char)
  {
    exists i :: 0 <= i < |rules| && rules[i].on && c in rules[i].targets
  }

  /** No enabled step's targets include a replacement made by that step or a later one. */
  predicate Ordered(rules: seq<Rule>)
  {
    forall i, j :: 0 <= i <= j < |rules| && rules[i].on ==>
      forall k :: 0 <= k < |rules[j].rep| ==> rules[j].rep[k] !in rules[i].targets
  }

  lemma {:induction false} CharThroughClean(s: string, pre: seq<Rule>, rules: seq<Rule>)
    requires |s| <= 1 && Short(rules) && Ordered(pre + rules)
    requires forall k :: 0 <= k < |s| ==> !Targeted(pre, s[k])
    ensures |CharThrough(s, rules)| <= 1
    ensures forall k :: 0 <= k < |CharThrough(s, rules)| ==> !Targeted(pre + rules, CharThrough(s, rules)[k])
    ensures (forall k :: 0 <= k < |s| ==> !Targeted(rules, s[k])) ==> CharThrough(s, rules) == s
    decreases rules
  {
    if rules == [] {
      assert pre + rules == pre;
    } else {
      var r := rules[0];
      var s1 := CharStep(r, s);
      var pre1 := pre + [r];
      assert pre1 + rules[1..] == pre + rules;
      assert Short(rules[1..]) by {
        forall i | 0 <= i < |rules[1..]| ensures rules[1..][i] == rules[i + 1] { }
      }
      forall k | 0 <= k < |s1| ensures !Targeted(pre1, s1[k]) {
        forall i | 0 <= i < |pre1| && pre1[i].on ensures s1[k] !in pre1[i].targets {
          if s != [] && r.on && s[0] in r.targets {
            assert pre1[i] == (pre + rules)[i];
            assert r == (pre + rules)[|pre|];
          } else if i < |pre| {
            assert pre1[i] == pre[i];
          }
        }
      }
      CharThroughClean(s1, pre1, rules[1..]);
      if forall k :: 0 <= k < |s| ==> !Targeted(rules, s[k]) {
        assert s1 == s by {
          assert rules[0] == r;
        }
        forall k | 0 <= k < |s| ensures !Targeted(rules[1..], s[k]) {
          forall i | 0 <= i < |rules[1..]| && rules[1..][i].on ensures s[k] !in rules[1..][i].targets {
            assert rules[1..][i] == rules[i + 1];
          }
        }
      }
    }
  }

  /**
   * A normalised value contains no character an enabled step targets, is no
   * longer than the original, and a value without such characters is left
   * exactly as it is.
   */
  lemma PerCharNormal(v: string, rules: seq<Rule>)
    requires Short(rules) && Ordered(rules)
    ensures forall i :: 0 <= i < |PerChar(v, rules)| ==> !Targeted(rules, PerChar(v, rules)[i])
    ensures (forall i :: 0 <= i < |v| ==> !Targeted(rules, v[i])) ==> PerChar(v, rules) == v
    ensures |PerChar(v, rules)| <= |v|
  {
    PerCharClean(v, rules);
    PerCharKeeps(v, rules);
    PerCharShorter(v, rules);
  }

  /** No enabled step's target survives normalisation. */
  lemma {:induction false} PerCharClean(v: string, rules: seq<Rule>)
    requires Short(rules) && Ordered(rules)
    ensures forall i :: 0 <= i < |PerChar(v, rules)| ==> !Targeted(rules, PerChar(v, rules)[i])
  {
    if v != [] {
      PerCharClean(v[1..], rules);
      AppendEmpty(rules);
      CharThroughClean([v[0]], [], rules);
      CleanConcat(CharThrough([v[0]], rules), PerChar(v[1..], rules), rules);
    }
  }

  /** A value without targeted characters is left as it is. */
  lemma {:induction false} PerCharKeeps(v: string, rules: seq<Rule>)
    ensures (forall i :: 0 <= i < |v| ==> !Targeted(rules, v[i])) ==> PerChar(v, rules) == v
  {
    if v != [] && forall i :: 0 <= i < |v| ==> !Targeted(rules, v[i]) {
      CleanTail(v, rules);
      PerCharKeeps(v[1..], rules);
      assert !Targeted(rules, v[0]);
      CharThroughKeeps(v[0], rules);
      SplitFirst(v);
    }
  }

  /** A character no enabled step targets passes through the steps unchanged. */
  lemma {:induction false} CharThroughKeeps(c: char, rules: seq<Rule>)
    requires !Targeted(rules, c)
    ensures CharThrough([c], rules) == [c]
    decreases rules
  {
    if rules != [] {
      assert !(rules[0].on && c in rules[0].targets);
      forall i | 0 <= i < |rules[1..]| && rules[1..][i].on ensures c !in rules[1..][i].targets {
        assert rules[1..][i] == rules[i + 1];
      }
      CharThroughKeeps(c, rules[1..]);
    }
  }

  /** Normalisation never lengthens a value: each character becomes at most one. */
  lemma {:induction false} PerCharShorter(v: string, rules: seq<Rule>)
    requires Short(rules) && Ordered(rules)
    ensures |PerChar(v, rules)| <= |v|
  {
    if v != [] {
      PerCharShorter(v[1..], rules);
      AppendEmpty(rules);
      CharThroughClean([v[0]], [], rules);
    }
  }

  /** Two clean values concatenate to a clean value. */
  lemma CleanConcat(h: string, t: string, rules: seq<Rule>)
    requires forall i :: 0 <= i < |h| ==> !Targeted(rules, h[i])
    requires forall i :: 0 <= i < |t| ==> !Targeted(rules, t[i])
    ensures forall i :: 0 <= i < |h + t| ==> !Targeted(rules, (h + t)[i])
  {
    forall i | 0 <= i < |h + t| ensures !Targeted(rules, (h + t)[i]) {
      if i >= |h| {
        assert (h + t)[i] == t[i - |h|];
      }
    }
  }

  /** The tail of a clean value is clean. */
  lemma CleanTail(v: string, rules: seq<Rule>)
    requires v != [] && forall i :: 0 <= i < |v| ==> !Targeted(rules, v[i])
    ensures forall i :: 0 <= i < |v[1..]| ==> !Targeted(rules, v[1..][i])
  {
    forall i | 0 <= i < |v[1..]| ensures !Targeted(rules, v[1..][i]) {
      assert v[1..][i] == v[i + 1];
    }
  }

  lemma OrderedRules(f: TextFlags)
    ensures Ordered(DumbRules(f) + MarkRules(f))
  {
    var rs := DumbRules(f) + MarkRules(f);
    assert '\'' !in SingleQuotes;
    assert '"' !in SingleQuotes && '"' !in DoubleQuotes;
    assert ' ' !in SingleQuotes && ' ' !in DoubleQuotes && ' ' !in WideSpaces;
    assert '-' !in SingleQuotes && '-' !in DoubleQuotes && '-' !in WideSpaces && '-' !in Dashes;
    forall i, j | 0 <= i <= j < |rs| && rs[i].on
      ensures forall k :: 0 <= k < |rs[j].rep| ==> rs[j].rep[k] !in rs[i].targets
    {
    }
  }

  /**
   * After normalisation no character that an enabled step targets is left
   * (no curly quote, wide space, dash or joiner under the defaults), the
   * value never grows, and plain text passes through unchanged.
   */
  lemma TextNormal(o: Options, v: string)
    requires TextValue(o, v).Ok?
    ensures var rules := DumbRules(TextFlagsOf(o)) + MarkRules(TextFlagsOf(o));
            var r := TextValue(o, v).value;
            && (forall i :: 0 <= i < |r| ==> !Targeted(rules, r[i]))
            && |r| <= |v|
            && ((forall i :: 0 <= i < |v| ==> !Targeted(rules, v[i])) ==> r == v)
  {
    var f := TextFlagsOf(o);
    TextValueSpec(o, v);
    ShortRules(f);
    OrderedRules(f);
    PerCharNormal(v, DumbRules(f) + MarkRules(f));
  }

  /**
   * U+201B is both a quote and a space target: it becomes an apostrophe
   * when dumb-quotes is on (the quote step runs first), and a space only
   * when dumb-quotes is off and dumb-spaces on.
   */
  lemma ReversedQuoteOrder(o: Options)
    requires !Flag(o, "flatten-inner-spaces", true)
    ensures Flag(o, "dumb-quotes", true) ==> TextValue(o, "\U{201b}") == Ok("'")
    ensures !Flag(o, "dumb-quotes", true) && Flag(o, "dumb-spaces", true) ==> TextValue(o, "\U{201b}") == Ok(" ")
  {
    TextValueSpec(o, "\U{201b}");
    ReversedQuoteChar(TextFlagsOf(o));
  }

  lemma ReversedQuoteChar(f: TextFlags)
    ensures var rs := DumbRules(f) + MarkRules(f);
            && (f.quotes ==> PerChar("\U{201b}", rs) == "'")
            && (!f.quotes && f.spaces ==> PerChar("\U{201b}", rs) == " ")
  {
    var rs := DumbRules(f) + MarkRules(f);
    assert PerChar("\U{201b}", rs) == CharThrough("\U{201b}", rs) by {
      assert "\U{201b}"[1..] == [];
    }
    if f.quotes {
      QuoteWins(f);
    } else if f.spaces {
      SpaceOtherwise(f);
    }
  }

  lemma QuoteWins(f: TextFlags)
    requires f.quotes
    ensures CharThrough("\U{201b}", DumbRules(f) + MarkRules(f)) == "'"
  {
    var rs := DumbRules(f) + MarkRules(f);
    var c := '\U{201b}';
    assert c in SingleQuotes;
    assert rs[..1] + rs[1..] == rs;
    CharThroughSplit([c], rs[..1], rs[1..]);
    assert CharThrough([c], rs[..1]) == "'";
    ApostropheKept(f);
  }

  /** No step after the single-quote one touches an apostrophe. */
  lemma ApostropheKept(f: TextFlags)
    ensures CharThrough("'", (DumbRules(f) + MarkRules(f))[1..]) == "'"
  {
    var rs := (DumbRules(f) + MarkRules(f))[1..];
    assert '\'' !in DoubleQuotes && '\'' !in WideSpaces && '\'' !in Dashes && '\'' !in Joiners;
    forall i | 0 <= i < |rs| ensures !(rs[i].on && '\'' in rs[i].targets) {
    }
    CharThroughKeeps('\'', rs);
  }

  lemma SpaceOtherwise(f: TextFlags)
    requires !f.quotes && f.spaces
    ensures CharThrough("\U{201b}", DumbRules(f) + MarkRules(f)) == " "
  {
    var rs := DumbRules(f) + MarkRules(f);
    var c := '\U{201b}';
    ShortRules(f);
    OrderedRules(f);
    assert c in WideSpaces;
    assert rs[..3] + rs[3..] == rs;
    CharThroughSplit([c], rs[..3], rs[3..]);
    var t := rs[..3];
    assert t[1..][1..][1..] == [];
    assert CharStep(t[0], [c]) == [c] && CharStep(t[1..][0], [c]) == [c];
    assert CharStep(t[1..][1..][0], [c]) == " ";
    calc {
      CharThrough([c], t);
      CharThrough([c], t[1..]);
      CharThrough([c], t[1..][1..]);
      CharThrough(" ", t[1..][1..][1..]);
    }
    assert ' ' !in SingleQuotes && ' ' !in DoubleQuotes && ' ' !in WideSpaces && ' ' !in Dashes && ' ' !in Joiners;
    forall i | 0 <= i < |rs[3..]| ensures !(rs[3..][i].on && ' ' in rs[3..][i].targets) {
      assert rs[3..][i] == rs[i + 3];
    }
    CharThroughClean(" ", rs[..3], rs[3..]);
  }

  lemma {:induction false} CharThroughSplit(s: string, r1: seq<Rule>, r2: seq<Rule>)
    ensures CharThrough(s, r1 + r2) == CharThrough(CharThrough(s, r1), r2)
    decreases r1
  {
    if r1 == [] {
      assert r1 + r2 == r2;
    } else {
      assert (r1 + r2)[0] == r1[0] && (r1 + r2)[1..] == r1[1..] + r2;
      CharThroughSplit(CharStep(r1[0], s), r1[1..], r2);
    }
  }

  /** With the default option table the pipeline never reaches the failing step. */
  lemma DefaultTextSucceeds(v: string)
    ensures TextValue(WithDefaults(map[]), v).Ok?
  {
    TextValueSpec(WithDefaults(map[]), v);
  }

  // ---------------------------------------------------------------------
  // Empty markers

  /** `tag.split("}")[-1]`: what follows the last closing brace, or the whole tag. */
  function AfterLastBrace(tag: string): string
  {
    if tag == [] then []
    else if tag[|tag| - 1] == '}' then []
    else AfterLastBrace(tag[..|tag| - 1]) + [tag[|tag| - 1]]
  }

  /**
   * The split gives a suffix without braces, preceded by a brace unless it
   * is the whole tag; on a Clark-notation name it recovers the local part.
   */
  lemma {:induction false} AfterLastBraceSpec(tag: string)
    ensures var r := AfterLastBrace(tag);
            && |r| <= |tag| && r == tag[|tag| - |r|..] && '}' !in r
            && (|r| < |tag| ==> tag[|tag| - |r| - 1] == '}')
  {
    if tag != [] && tag[|tag| - 1] != '}' {
      AfterLastBraceSpec(tag[..|tag| - 1]);
    }
  }

  lemma {:induction false} AfterLastBraceQn(uri: string, local: string)
    requires '}' !in local
    ensures AfterLastBrace(Qn(uri, local)) == local
  {
    AfterBraceSuffix(Qn(uri, local), |uri| + 1);
  }

  lemma {:induction false} AfterBraceSuffix(tag: string, k: nat)
    requires k < |tag| && tag[k] == '}' && '}' !in tag[k + 1..]
    ensures AfterLastBrace(tag) == tag[k + 1..]
    decreases |tag|
  {
    if k + 1 < |tag| {
      var t := tag[..|tag| - 1];
      assert t[k + 1..] == tag[k + 1..|tag| - 1];
      AfterBraceSuffix(t, k);
      assert tag[k + 1..] == t[k + 1..] + [tag[|tag| - 1]];
    }
  }

  /** `empty.to_json`: a marker naming the element's local tag. */
  function EmptyToJson(o: Options, n: Node): Json
  {
    var ty := if Flag(o, "empty-as-text", false) then "CT_Text" else "CT_Empty";
    JObj([("TYPE", JStr(ty)), ("VALUE", JStr("[w:" + AfterLastBrace(n.tag) + "]"))])
  }

  /**
   * The marker for a `w:`-qualified element carries its local name between
   * "[w:" and "]", and is text exactly when empty-as-text is on.
   */
  lemma EmptyMarker(o: Options, n: Node, local: string)
    requires n.tag == Qn(W_NS, local) && '}' !in local
    ensures var j := EmptyToJson(o, n);
            && Get(j.fields, "VALUE") == Some(JStr("[w:" + local + "]"))
            && (Get(j.fields, "TYPE") == Some(JStr("CT_Text")) <==> Flag(o, "empty-as-text", false))
  {
    AfterLastBraceQn(W_NS, local);
  }

  // ---------------------------------------------------------------------
  // Symbols

  /** `x.get(name)`: an attribute value, or None. */
  function AttrOrNull(n: Node, name: string): Json
  {
    if name in n.attrs then JStr(n.attrs[name]) else JNull
  }

  /** `SymbolChar.to_json`: the character as text, or the character and its font. */
  function SymbolToJson(o: Options, n: Node): Json
  {
    var ch := AttrOrNull(n, W_char);
    if Flag(o, "symbol-as-text", true) then JObj([("TYPE", JStr("CT_Text")), ("VALUE", ch)])
    else JObj([("TYPE", JStr("SymbolChar")),
               ("VALUE", JObj([("char", ch), ("font", AttrOrNull(n, W_font))]))])
  }

  /**
   * As text, a symbol's VALUE is its `w:char` attribute (null when the
   * attribute is absent); otherwise it keeps both the character and the font.
   */
  lemma SymbolSpec(o: Options, n: Node)
    ensures var j := SymbolToJson(o, n);
            && j.JObj? && Keys(j.fields) == ["TYPE", "VALUE"]
            && (Flag(o, "symbol-as-text", true) ==>
                  Get(j.fields, "TYPE") == Some(JStr("CT_Text"))
                  && (W_char in n.attrs ==> Get(j.fields, "VALUE") == Some(JStr(n.attrs[W_char])))
                  && (W_char !in n.attrs ==> Get(j.fields, "VALUE") == Some(JNull)))
            && (!Flag(o, "symbol-as-text", true) ==>
                  Get(j.fields, "TYPE") == Some(JStr("SymbolChar"))
                  && Get(j.fields, "VALUE") == Some(JObj([("char", AttrOrNull(n, W_char)), ("font", AttrOrNull(n, W_font))])))
  {
  }

  // ---------------------------------------------------------------------
  // Special characters

  /** `simpleTextElementText`: the text a special character stands for. */
  const SpecialCharText: map<string, string> := map[
    "CarriageReturn" := "\r",
    "Break" := "\r",
    "TabChar" := "\t",
    "PositionalTab" := "\t",
    "NoBreakHyphen" := "-",
    "SoftHyphen" := "-"
  ]

  /** `tagToTypeMap`: the kind name of each special-character tag. */
  const TagToType: map<string, string> := map[
    W_br := "Break",
    W_cr := "CarriageReturn",
    W_tab := "TabChar",
    W_noBreakHyphen := "NoBreakHyphen",
    W_softHyphen := "SoftHyphen",
    W_ptab := "PositionalTab"
  ]

  /** `simpleTextElement.__init__`: an unknown tag raises KeyError on construction. */
  function SpecialType(n: Node): Result<string>
  {
    if n.tag in TagToType then Ok(TagToType[n.tag]) else Err(KeyError(n.tag))
  }

  /** `simpleTextElement.to_json`, given the kind name chosen on construction. */
  function SpecialToJson(o: Options, ty: string): Result<Json>
  {
    if Flag(o, "special-characters-as-text", true) then
      if ty in SpecialCharText then Ok(JObj([("TYPE", JStr("CT_Text")), ("VALUE", JStr(SpecialCharText[ty]))]))
      else Err(KeyError(ty))
    else Ok(JObj([("TYPE", JStr(ty))]))
  }

  /** Every kind name the tag table produces has an entry in the text table. */
  lemma TablesAgree()
    ensures forall t :: t in TagToType ==> TagToType[t] in SpecialCharText
  {
  }

  /**
   * A special character serialises without error; as text, breaks and
   * carriage returns become "\r", tabs "\t" and hyphens "-"; otherwise only
   * the kind name is emitted.
   */
  lemma SpecialSpec(o: Options, n: Node)
    requires n.tag in TagToType
    ensures SpecialType(n).Ok?
    ensures var r := SpecialToJson(o, SpecialType(n).value);
            && r.Ok?
            && (Flag(o, "special-characters-as-text", true) ==>
                  r.value == JObj([("TYPE", JStr("CT_Text")), ("VALUE", JStr(
                    if n.tag == W_br || n.tag == W_cr then "\r"
                    else if n.tag == W_tab || n.tag == W_ptab then "\t"
                    else "-"))]))
            && (!Flag(o, "special-characters-as-text", true) ==>
                  r.value == JObj([("TYPE", JStr(TagToType[n.tag]))]))
  {
  }

  /** Any other tag fails on construction with a KeyError naming it. */
  lemma SpecialUnknown(n: Node)
    requires n.tag !in TagToType
    ensures SpecialType(n) == Err(KeyError(n.tag))
  {
  }
}
