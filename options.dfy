/**
 * The options dictionary.  Every option the converter reads is a flag; the
 * serializers read them with `options.get(key, default)`, where the default
 * written at the call site need not agree with the default table.
 */
module Options {
  import opened Runtime

  type Options = map<string, bool>

  /** `options.get(key, default)`. */
  function Flag(o: Options, key: string, default: bool): (r: bool)
    ensures key in o ==> r == o[key]
    ensures key !in o ==> r == default
  {
    if key in o then o[key] else default
  }

  /** `options[key]`: a KeyError when the key is missing. */
  function Required(o: Options, key: string): (r: Result<bool>)
    ensures r.Ok? <==> key in o
    ensures r.Ok? ==> r.value == o[key]
    ensures r.Err? ==> r.error == KeyError(key)
  {
    if key in o then Ok(o[key]) else Err(KeyError(key))
  }

  /** The default option table (`__default_options__`). */
  const Defaults: Options := map[
    "friendly-names" := true,
    "flatten-hyperlink" := true,
    "flatten-smartTag" := true,
    "flatten-customXml" := true,
    "flatten-simpleField" := true,
    "merge-consecutive-text" := true,
    "flatten-inner-spaces" := false,
    "include-paragraph-indent" := true,
    "include-paragraph-numbering" := true,
    "ignore-joiners" := true,
    "ignore-left-to-right-mark" := false,
    "ignore-right-to-left-mark" := false,
    "ignore-empty-table-description" := true,
    "ignore-empty-table-caption" := true,
    "ignore-empty-paragraphs" := true,
    "ignore-empty-text" := true,
    "remove-trailing-white-space" := true,
    "remove-leading-white-space" := true,
    "use-checkbox-default" := true,
    "greedy-text-input" := true,
    "checkbox-as-text" := false,
    "dropdown-as-text" := false,
    "simplify-dropdown" := true,
    "simplify-textinput" := true,
    "simplify-checkbox" := true,
    "flatten-generic-field" := true,
    "trim-dropdown-options" := true,
    "empty-as-text" := false,
    "symbol-as-text" := true,
    "special-characters-as-text" := true,
    "dumb-quotes" := true,
    "dumb-hyphens" := true,
    "dumb-spaces" := true
  ]

  /** `dict(defaults, **options)`: the caller's options override the defaults. */
  function WithDefaults(o: Options): (r: Options)
    ensures r.Keys == Defaults.Keys + o.Keys
    ensures forall k :: k in o ==> r[k] == o[k]
    ensures forall k :: k in Defaults && k !in o ==> r[k] == Defaults[k]
  {
    Defaults + o
  }

  /**
   * Where a call-site default disagrees with the table: with an empty
   * options dict, inner-space flattening is on and empty paragraphs are
   * kept, while the table says the opposite.
   */
  lemma CallSiteDefaultsDisagree()
    ensures Flag(map[], "flatten-inner-spaces", true) != Defaults["flatten-inner-spaces"]
    ensures Flag(map[], "ignore-empty-paragraphs", false) != Defaults["ignore-empty-paragraphs"]
    ensures Flag(WithDefaults(map[]), "flatten-inner-spaces", true) == false
  {
  }
}
