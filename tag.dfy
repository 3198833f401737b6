/**
 * Tag and attribute utilities: splitting a Clark-notation tag
 * `{namespace-uri}local` into its parts and a prefixed name, and picking
 * named attributes off an element.
 */
module Tag {
  import opened Runtime
  import opened Xml

  /** The four parts `get_tag` returns. */
  datatype TagParts = TagParts(namespace: Option<string>, ns: Option<string>, tag: string, nstag: string)

  /**
   * `get_attrs`: the requested attributes the element carries, each with its
   * value; requested names the element lacks are left out.
   */
  method GetAttrs(n: Node, names: seq<string>) returns (out: map<string, string>)
    ensures out.Keys == set a | a in names && a in n.attrs
    ensures forall a :: a in out ==> out[a] == n.attrs[a]
  {
    out := map[];
    var i := 0;
    while i < |names|
      invariant 0 <= i <= |names|
      invariant out.Keys == set a | a in names[..i] && a in n.attrs
      invariant forall a :: a in out ==> out[a] == n.attrs[a]
    {
      var a := names[i];
      if a in n.attrs {
        out := out[a := n.attrs[a]];
      }
      assert names[..i + 1] == names[..i] + [a];
      i := i + 1;
    }
    assert names[..i] == names;
  }

  /** Python's `\w` in a str pattern, restricted to ASCII (see README). */
  predicate IsWordChar(c: char)
  {
    ('a' <= c <= 'z') || ('A' <= c <= 'Z') || ('0' <= c <= '9') || c == '_'
  }

  predicate AllWord(s: string)
  {
    forall i :: 0 <= i < |s| ==> IsWordChar(s[i])
  }

  predicate NoCloseBracket(s: string)
  {
    ']' !in s
  }

  /** The index of the last occurrence of `c` in `s`. */
  function LastIndexOf(s: string, c: char): (r: Option<nat>)
    ensures r.Some? ==> r.value < |s| && s[r.value] == c
    ensures r.Some? ==> forall j :: r.value < j < |s| ==> s[j] != c
    ensures r.None? ==> forall j :: 0 <= j < |s| ==> s[j] != c
  {
    if s == [] then None
    else if s[|s| - 1] == c then Some(|s| - 1)
    else LastIndexOf(s[..|s| - 1], c)
  }

  /**
   * The pattern `^(?:\{([^]]+)\})?(\w+)$` applied with `re.match`: the
   * optional namespace group and the local-name group.  `$` also matches
   * just before a final newline, which is then not part of either group.
   */
  function MatchTag(t: string): (r: Option<(Option<string>, string)>)
    ensures r.Some? ==> |r.value.1| > 0 && AllWord(r.value.1)
    ensures r.Some? && r.value.0.Some? ==> |r.value.0.value| > 0 && NoCloseBracket(r.value.0.value)
  {
    var core := if |t| > 0 && t[|t| - 1] == '\n' then t[..|t| - 1] else t;
    if |core| > 0 && core[0] == '{' then
      match LastIndexOf(core, '}')
      case None => None
      case Some(k) =>
        if 2 <= k && NoCloseBracket(core[1..k]) && k + 1 < |core| && AllWord(core[k + 1..]) then
          assert core == "{" + core[1..k] + "}" + core[k + 1..];
          Some((Some(core[1..k]), core[k + 1..]))
        else None
    else if |core| > 0 && AllWord(core) then Some((None, core))
    else None
  }

  /** What a match covers: the whole tag, or the tag less a final newline. */
  lemma MatchTagShape(t: string)
    requires MatchTag(t).Some?
    ensures var r := MatchTag(t).value;
      var body := if r.0.Some? then "{" + r.0.value + "}" + r.1 else r.1;
      t == body || t == body + "\n"
  {
    var core := if |t| > 0 && t[|t| - 1] == '\n' then t[..|t| - 1] else t;
    assert t == core || t == core + "\n";
  }

  /** A plain word matches with no namespace group. */
  lemma MatchPlainWord(t: string)
    requires |t| > 0 && AllWord(t)
    ensures MatchTag(t) == Some((None, t))
  {
  }

  /** Every Clark-notation name with a word local part matches, giving back its parts. */
  lemma MatchClark(uri: string, local: string)
    requires |uri| > 0 && NoCloseBracket(uri)
    requires |local| > 0 && AllWord(local)
    ensures MatchTag("{" + uri + "}" + local) == Some((Some(uri), local))
  {
    var t := "{" + uri + "}" + local;
    var k := |uri| + 1;
    assert t[|t| - 1] == local[|local| - 1] && IsWordChar(t[|t| - 1]);
    assert t[0] == '{' && t[k] == '}';
    assert t[1..k] == uri;
    assert t[k + 1..] == local;
    assert forall j :: k < j < |t| ==> t[j] != '}' by {
      forall j | k < j < |t| ensures t[j] != '}' {
        assert t[j] == local[j - k - 1];
      }
    }
    LastIndexOfIs(t, '}', k);
  }

  /** The last occurrence is the one after which the character does not occur. */
  lemma LastIndexOfIs(s: string, c: char, k: nat)
    requires k < |s| && s[k] == c
    requires forall j :: k < j < |s| ==> s[j] != c
    ensures LastIndexOf(s, c) == Some(k)
  {
  }

  /**
   * `dict(zip(d.values(), d.keys()))`: from an insertion-ordered dict of
   * prefix to URI, the map of URI to prefix; when two prefixes share a URI
   * the later one wins.
   */
  function Invert(pairs: seq<(string, string)>): map<string, string>
  {
    if pairs == [] then map[]
    else Invert(pairs[..|pairs| - 1])[pairs[|pairs| - 1].1 := pairs[|pairs| - 1].0]
  }

  /** Every URI of the list is a key of the inverted map. */
  lemma {:induction false} InvertKeys(pairs: seq<(string, string)>)
    ensures forall i :: 0 <= i < |pairs| ==> pairs[i].1 in Invert(pairs)
  {
    if pairs != [] {
      var init := pairs[..|pairs| - 1];
      InvertKeys(init);
      assert forall i :: 0 <= i < |init| ==> init[i] == pairs[i];
    }
  }

  /** Every entry of the inverted map comes from a pair of the list. */
  lemma {:induction false} InvertEntries(pairs: seq<(string, string)>)
    ensures forall u :: u in Invert(pairs) ==> exists i :: 0 <= i < |pairs| && pairs[i] == (Invert(pairs)[u], u)
  {
    if pairs != [] {
      var init := pairs[..|pairs| - 1];
      var last := pairs[|pairs| - 1];
      InvertEntries(init);
      var r := Invert(pairs);
      assert r == Invert(init)[last.1 := last.0];
      forall u | u in r ensures exists i :: 0 <= i < |pairs| && pairs[i] == (r[u], u) {
        if u != last.1 {
          assert u in Invert(init) && r[u] == Invert(init)[u];
          var i :| 0 <= i < |init| && init[i] == (r[u], u);
          assert pairs[i] == (r[u], u);
        } else {
          assert pairs[|pairs| - 1] == (r[u], u);
        }
      }
    }
  }

  /** A URI that no later pair repeats maps to its own prefix: the last pair for a URI wins. */
  lemma {:induction false} InvertLast(pairs: seq<(string, string)>, i: nat)
    requires i < |pairs| && forall j :: i < j < |pairs| ==> pairs[j].1 != pairs[i].1
    ensures pairs[i].1 in Invert(pairs) && Invert(pairs)[pairs[i].1] == pairs[i].0
  {
    if i < |pairs| - 1 {
      var init := pairs[..|pairs| - 1];
      assert pairs[|pairs| - 1].1 != pairs[i].1;
      assert forall j :: i < j < |init| ==> init[j] == pairs[j];
      InvertLast(init, i);
    }
  }

  /** The prefixes the converter knows, in declaration order (`NS_SCHEMA`). */
  const NsSchema: seq<(string, string)> := [
    ("w15", "http://schemas.microsoft.com/office/word/2012/wordml"),
    ("w14", "http://schemas.microsoft.com/office/word/2010/wordml"),
    ("w10", "urn:schemas-microsoft-com:office:word"),
    ("cx", "http://schemas.microsoft.com/office/drawing/2014/chartex"),
    ("wp14", "http://schemas.microsoft.com/office/word/2010/wordprocessingDrawing"),
    ("wne", "http://schemas.microsoft.com/office/word/2006/wordml"),
    ("aink", "http://schemas.microsoft.com/office/drawing/2016/ink"),
    ("cx1", "http://schemas.microsoft.com/office/drawing/2015/9/8/chartex"),
    ("cx2", "http://schemas.microsoft.com/office/drawing/2015/10/21/chartex"),
    ("cx3", "http://schemas.microsoft.com/office/drawing/2016/5/9/chartex"),
    ("cx4", "http://schemas.microsoft.com/office/drawing/2016/5/10/chartex"),
    ("cx5", "http://schemas.microsoft.com/office/drawing/2016/5/11/chartex"),
    ("cx6", "http://schemas.microsoft.com/office/drawing/2016/5/12/chartex"),
    ("cx7", "http://schemas.microsoft.com/office/drawing/2016/5/13/chartex"),
    ("cx8", "http://schemas.microsoft.com/office/drawing/2016/5/14/chartex"),
    ("wps", "http://schemas.microsoft.com/office/word/2010/wordprocessingShape"),
    ("wpi", "http://schemas.microsoft.com/office/word/2010/wordprocessingInk"),
    ("wp", "http://schemas.openxmlformats.org/drawingml/2006/wordprocessingDrawing"),
    ("wpg", "http://schemas.microsoft.com/office/word/2010/wordprocessingGroup"),
    ("wpc", "http://schemas.microsoft.com/office/word/2010/wordprocessingCanvas"),
    ("mc", "http://schemas.openxmlformats.org/markup-compatibility/2006"),
    ("w16se", "http://schemas.microsoft.com/office/word/2015/wordml/symex"),
    ("am3d", "http://schemas.microsoft.com/office/drawing/2017/model3d"),
    ("m", "http://schemas.openxmlformats.org/officeDocument/2006/math"),
    ("o", "urn:schemas-microsoft-com:office:office"),
    ("r", "http://schemas.openxmlformats.org/officeDocument/2006/relationships"),
    ("w", "http://schemas.openxmlformats.org/wordprocessingml/2006/main"),
    ("v", "urn:schemas-microsoft-com:vml"),
    ("w16cid", "http://schemas.microsoft.com/office/word/2016/wordml/cid")
  ]

  /** The local-name part of a tag: the tag whole when the pattern rejects it. */
  function LocalName(t: string): string
  {
    match MatchTag(t)
    case None => t
    case Some((_, local)) => local
  }

  /** A local name the pattern found is a word; otherwise it is the tag itself. */
  lemma LocalNameSpec(t: string)
    ensures MatchTag(t).Some? ==> LocalName(t) == MatchTag(t).value.1 && AllWord(LocalName(t))
    ensures MatchTag(t).None? ==> LocalName(t) == t
  {
  }

  /**
   * `get_tag`: splits a tag into namespace URI, prefix, local name and the
   * `prefix:local` name.  `nsdict`, when given, replaces the built-in prefix
   * table.  A tag the pattern rejects comes back whole in both name parts;
   * a namespace with no known prefix keeps the tag as given.
   */
  function GetTag(t: string, nsdict: Option<seq<(string, string)>>): (r: TagParts)
    ensures MatchTag(t).None? ==> r == TagParts(None, None, t, t)
    ensures MatchTag(t).Some? ==> r.namespace == MatchTag(t).value.0 && r.tag == MatchTag(t).value.1
    ensures r.ns.Some? <==>
      MatchTag(t).Some? && MatchTag(t).value.0.Some?
      && MatchTag(t).value.0.value in Invert(if nsdict.Some? then nsdict.value else NsSchema)
    ensures r.ns.Some? ==> r.nstag == r.ns.value + ":" + r.tag
    ensures r.ns.None? ==> r.nstag == t
    ensures r.tag == LocalName(t)
  {
    var names := Invert(if nsdict.Some? then nsdict.value else NsSchema);
    match MatchTag(t)
    case None => TagParts(None, None, t, t)
    case Some((namespace, local)) =>
      if namespace.Some? && namespace.value in names then
        var prefix := names[namespace.value];
        TagParts(namespace, Some(prefix), local, prefix + ":" + local)
      else
        TagParts(namespace, None, local, t)
  }
}
