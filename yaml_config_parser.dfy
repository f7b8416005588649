/**
 * The page-preference manifest builder (`YamlConfigParser.buildPagePrefsManifest`).
 *
 * A page declares an ordered list of preferences. Each names an options
 * source, either the id of an option set in the loaded library or a
 * template such as `<FINISH>_<COLOR>_paint_options` whose placeholders
 * name preferences declared earlier on the page. The builder expands every
 * template over all combinations of the referenced preferences' option ids,
 * looks each resulting id up in the library, and records the default option
 * of every set it finds. Problems are collected in `errors`, never thrown.
 */
module YamlConfigParser {
  import opened Common
  import opened Placeholders

  // ---------------------------------------------------------------------
  // Data model
  // ---------------------------------------------------------------------

  /** One option of an option set; `isDefault` stands for `default: true`. */
  datatype PrefOption = PrefOption(id: string, displayName: string, isDefault: bool)

  type OptionSet = seq<PrefOption>

  /** The loaded library: options-set id to option set. */
  type PrefOptionsConfig = map<string, OptionSet>

  /** One entry of the frontmatter's `page_preferences`. */
  datatype PrefDefinition = PrefDefinition(id: string, displayName: string, optionsSource: string)

  /**
   * What the manifest records for one preference. `initialValue` is None
   * when the combination of the referenced preferences' initial values
   * names no option set of the library.
   */
  datatype PrefManifestEntry = PrefManifestEntry(
    config: PrefDefinition,
    initialValue: Option<string>,
    defaultValuesByOptionsSetId: map<string, string>)

  datatype PagePrefsManifest = PagePrefsManifest(
    prefsById: map<string, PrefManifestEntry>,
    optionSetsById: map<string, OptionSet>,
    errors: seq<string>)

  /**
   * A preference that later placeholders may refer to: the option ids it
   * can take (over all of its option sets) and its initial value.
   */
  datatype ResolvedPref = ResolvedPref(id: string, optionIds: seq<string>, initialValue: string)

  /** The builder's running state: the manifest so far and the table of resolved preferences. */
  datatype BuildState = BuildState(manifest: PagePrefsManifest, resolved: seq<ResolvedPref>)

  const PlaceholderErrorPrefix: string := "Invalid placeholder: "
  const OptionsSourceErrorPrefix: string := "Invalid options source: "

  function InvalidPlaceholderError(token: string): string
  {
    PlaceholderErrorPrefix + token
  }

  function InvalidOptionsSourceError(optionsSetId: string): string
  {
    OptionsSourceErrorPrefix + optionsSetId
  }

  // ---------------------------------------------------------------------
  // Option sets and their defaults
  // ---------------------------------------------------------------------

  /** The loader guarantees that every option set has exactly one default option. */
  predicate ExactlyOneDefault(os: OptionSet)
  {
    && (exists i :: 0 <= i < |os| && os[i].isDefault)
    && (forall i, j :: 0 <= i < |os| && 0 <= j < |os| && os[i].isDefault && os[j].isDefault ==> i == j)
  }

  predicate ValidLibrary(lib: PrefOptionsConfig)
  {
    forall k :: k in lib ==> ExactlyOneDefault(lib[k])
  }

  /** The ids of an option set's options, in order. */
  function OptionIds(os: OptionSet): (ids: seq<string>)
    ensures |ids| == |os|
    ensures forall i :: 0 <= i < |os| ==> ids[i] == os[i].id
  {
    seq(|os|, i requires 0 <= i < |os| => os[i].id)
  }

  /** The id of the option marked default, if there is one (`options.find(o => o.default).id`). */
  function DefaultOf(os: OptionSet): (r: Option<string>)
    ensures r.Some? ==> exists i :: 0 <= i < |os| && os[i].isDefault && os[i].id == r.value
    ensures r.None? <==> forall i :: 0 <= i < |os| ==> !os[i].isDefault
  {
    if os == [] then None
    else if os[0].isDefault then Some(os[0].id)
    else
      var r := DefaultOf(os[1..]);
      assert r.Some? ==> os[1..][0..] == os[1..];
      r
  }

  /** In a set with exactly one default, DefaultOf yields that option's id. */
  lemma {:induction false} DefaultOfUnique(os: OptionSet, i: nat)
    requires ExactlyOneDefault(os)
    requires i < |os| && os[i].isDefault
    ensures DefaultOf(os) == Some(os[i].id)
  {
    var r := DefaultOf(os);
    assert r.Some?;
    var j :| 0 <= j < |os| && os[j].isDefault && os[j].id == r.value;
    assert i == j;
  }

  /** The default of a set is one of its option ids. */
  lemma DefaultIsAnOption(os: OptionSet)
    requires DefaultOf(os).Some?
    ensures DefaultOf(os).value in OptionIds(os)
  {
    var i :| 0 <= i < |os| && os[i].isDefault && os[i].id == DefaultOf(os).value;
    assert OptionIds(os)[i] == os[i].id;
  }

  // ---------------------------------------------------------------------
  // Looking substituted ids up in the library
  // ---------------------------------------------------------------------

  /** How many of `keys` the library knows. */
  function CountFound(keys: seq<string>, lib: PrefOptionsConfig): (n: nat)
    ensures n <= |keys|
    ensures n == |keys| <==> forall k :: k in keys ==> k in lib
  {
    if keys == [] then 0
    else (if keys[0] in lib then 1 else 0) + CountFound(keys[1..], lib)
  }

  /** The outcome of looking a list of options-set ids up in the library. */
  datatype Resolution = Resolution(
    defaults: map<string, string>,
    sets: map<string, OptionSet>,
    errors: seq<string>)

  /** Looking one more id `k` up, in front of the resolution `r` of the ids after it. */
  function ResolveOne(k: string, lib: PrefOptionsConfig, r: Resolution): Resolution
  {
    if k !in lib then
      Resolution(r.defaults, r.sets, [InvalidOptionsSourceError(k)] + r.errors)
    else
      match DefaultOf(lib[k])
      case Some(d) => Resolution(r.defaults[k := d], r.sets[k := lib[k]], r.errors)
      case None => Resolution(r.defaults, r.sets[k := lib[k]], r.errors)
  }

  /** `ResolveOne` keeps the sets and defaults of a resolution those of the library, for one more id. */
  lemma ResolveOneSets(keys: seq<string>, lib: PrefOptionsConfig, r: Resolution)
    requires keys != []
    requires forall k :: k in r.sets <==> k in keys[1..] && k in lib
    requires forall k :: k in r.sets ==> r.sets[k] == lib[k]
    requires forall k :: k in r.defaults <==> k in r.sets && DefaultOf(lib[k]).Some?
    requires forall k :: k in r.defaults ==> Some(r.defaults[k]) == DefaultOf(lib[k])
    ensures var r' := ResolveOne(keys[0], lib, r);
      && (forall k :: k in r'.sets <==> k in keys && k in lib)
      && (forall k :: k in r'.sets ==> r'.sets[k] == lib[k])
      && (forall k :: k in r'.defaults <==> k in r'.sets && DefaultOf(lib[k]).Some?)
      && (forall k :: k in r'.defaults ==> Some(r'.defaults[k]) == DefaultOf(lib[k]))
  {
    assert keys == [keys[0]] + keys[1..];
  }

  /** `ResolveOne` adds an error for the new id exactly when the library lacks it. */
  lemma ResolveOneErrors(keys: seq<string>, lib: PrefOptionsConfig, r: Resolution)
    requires keys != []
    requires forall k :: k in keys[1..] && k !in lib ==> InvalidOptionsSourceError(k) in r.errors
    requires forall e :: e in r.errors ==>
               exists k :: k in keys[1..] && k !in lib && e == InvalidOptionsSourceError(k)
    requires |r.errors| + CountFound(keys[1..], lib) == |keys| - 1
    ensures var r' := ResolveOne(keys[0], lib, r);
      && (forall k :: k in keys && k !in lib ==> InvalidOptionsSourceError(k) in r'.errors)
      && (forall e :: e in r'.errors ==>
            exists k :: k in keys && k !in lib && e == InvalidOptionsSourceError(k))
      && |r'.errors| + CountFound(keys, lib) == |keys|
  {
    assert keys == [keys[0]] + keys[1..];
    var r' := ResolveOne(keys[0], lib, r);
    forall e | e in r'.errors
      ensures exists k :: k in keys && k !in lib && e == InvalidOptionsSourceError(k)
    {
      if e in r.errors {
        var k :| k in keys[1..] && k !in lib && e == InvalidOptionsSourceError(k);
        assert k in keys;
      } else {
        assert keys[0] in keys;
      }
    }
  }

  /**
   * Looks every id of `keys` up, left to right: a known id contributes its
   * option set and its default, an unknown one an "Invalid options source"
   * error.
   */
  function Resolve(keys: seq<string>, lib: PrefOptionsConfig): (r: Resolution)
    ensures forall k :: k in r.sets <==> k in keys && k in lib
    ensures forall k :: k in r.sets ==> r.sets[k] == lib[k]
    ensures forall k :: k in r.defaults <==> k in r.sets && DefaultOf(lib[k]).Some?
    ensures forall k :: k in r.defaults ==> Some(r.defaults[k]) == DefaultOf(lib[k])
    ensures forall k :: k in keys && k !in lib ==> InvalidOptionsSourceError(k) in r.errors
    ensures forall e :: e in r.errors ==>
              exists k :: k in keys && k !in lib && e == InvalidOptionsSourceError(k)
    ensures |r.errors| + CountFound(keys, lib) == |keys|
    decreases |keys|
  {
    if keys == [] then Resolution(map[], map[], [])
    else
      var r := Resolve(keys[1..], lib);
      ResolveOneSets(keys, lib, r);
      ResolveOneErrors(keys, lib, r);
      ResolveOne(keys[0], lib, r)
  }

  /** One "Invalid options source" error per id of `keys` the library lacks, in the order of `keys`. */
  function MissingIdErrors(keys: seq<string>, lib: PrefOptionsConfig): seq<string>
  {
    if keys == [] then []
    else
      (if keys[0] in lib then [] else [InvalidOptionsSourceError(keys[0])]) + MissingIdErrors(keys[1..], lib)
  }

  /** The errors of a resolution are exactly the missing-id errors, in order. */
  lemma {:induction false} ResolveErrorsInOrder(keys: seq<string>, lib: PrefOptionsConfig)
    ensures Resolve(keys, lib).errors == MissingIdErrors(keys, lib)
    decreases |keys|
  {
    if keys != [] {
      ResolveErrorsInOrder(keys[1..], lib);
    }
  }

  /** Each missing-id error names an id of `keys`, at some position, that the library lacks. */
  lemma {:induction false} MissingIdErrorAt(keys: seq<string>, lib: PrefOptionsConfig, e: string) returns (i: nat)
    requires e in MissingIdErrors(keys, lib)
    ensures i < |keys| && keys[i] !in lib && e == InvalidOptionsSourceError(keys[i])
    decreases |keys|
  {
    if keys[0] !in lib && e == InvalidOptionsSourceError(keys[0]) {
      i := 0;
    } else {
      var j := MissingIdErrorAt(keys[1..], lib, e);
      i := j + 1;
    }
  }

  /** Every option id of every set in `sets` named by `keys`, without repeats. */
  function OptionIdsOf(keys: seq<string>, sets: map<string, OptionSet>): (ids: seq<string>)
    ensures NoDuplicates(ids)
    ensures forall x :: x in ids <==> exists k :: k in keys && k in sets && x in OptionIds(sets[k])
  {
    Dedup(AllOptionIds(keys, sets))
  }

  function AllOptionIds(keys: seq<string>, sets: map<string, OptionSet>): (ids: seq<string>)
    ensures forall x :: x in ids <==> exists k :: k in keys && k in sets && x in OptionIds(sets[k])
  {
    if keys == [] then []
    else
      var rest := AllOptionIds(keys[1..], sets);
      assert forall k :: k in keys <==> k == keys[0] || k in keys[1..];
      (if keys[0] in sets then OptionIds(sets[keys[0]]) else []) + rest
  }

  // ---------------------------------------------------------------------
  // Resolving placeholders against earlier preferences
  // ---------------------------------------------------------------------

  /** The latest resolved preference whose upper-cased id is `token`. */
  function FindResolved(rs: seq<ResolvedPref>, token: string): (r: Option<ResolvedPref>)
    ensures r.Some? ==> r.value in rs && Upper(r.value.id) == token
    ensures r.None? <==> forall i :: 0 <= i < |rs| ==> Upper(rs[i].id) != token
  {
    if rs == [] then None
    else if Upper(rs[|rs| - 1].id) == token then Some(rs[|rs| - 1])
    else
      var r := FindResolved(rs[..|rs| - 1], token);
      assert forall i :: 0 <= i < |rs| - 1 ==> rs[..|rs| - 1][i] == rs[i];
      r
  }

  /** When several resolved preferences match, the last one recorded is found. */
  lemma {:induction false} FindResolvedLatest(rs: seq<ResolvedPref>, token: string) returns (i: nat)
    requires FindResolved(rs, token).Some?
    ensures i < |rs| && rs[i] == FindResolved(rs, token).value
    ensures forall j :: i < j < |rs| ==> Upper(rs[j].id) != token
    decreases |rs|
  {
    if Upper(rs[|rs| - 1].id) == token {
      i := |rs| - 1;
    } else {
      var init := rs[..|rs| - 1];
      i := FindResolvedLatest(init, token);
      assert rs[i] == init[i];
      assert forall j :: i < j < |rs| - 1 ==> rs[j] == init[j];
    }
  }

  /** The tokens that match no resolved preference, in their order. */
  function UnresolvedTokens(tokens: seq<string>, rs: seq<ResolvedPref>): (bad: seq<string>)
    ensures forall t :: t in bad <==> t in tokens && FindResolved(rs, t).None?
    ensures IsSubsequence(bad, tokens)
  {
    if tokens == [] then []
    else if FindResolved(rs, tokens[0]).None? then
      var rest := UnresolvedTokens(tokens[1..], rs);
      assert ([tokens[0]] + rest)[1..] == rest;
      [tokens[0]] + rest
    else
      UnresolvedTokens(tokens[1..], rs)
  }

  function PlaceholderErrors(bad: seq<string>): (es: seq<string>)
    ensures |es| == |bad|
    ensures forall i :: 0 <= i < |bad| ==> es[i] == InvalidPlaceholderError(bad[i])
  {
    seq(|bad|, i requires 0 <= i < |bad| => InvalidPlaceholderError(bad[i]))
  }

  /** The resolved preference each token refers to. */
  function ReferencedPrefs(tokens: seq<string>, rs: seq<ResolvedPref>): (refs: seq<ResolvedPref>)
    requires forall t :: t in tokens ==> FindResolved(rs, t).Some?
    ensures |refs| == |tokens|
    ensures forall i :: 0 <= i < |tokens| ==> refs[i] in rs && Upper(refs[i].id) == tokens[i]
  {
    seq(|tokens|, i requires 0 <= i < |tokens| => FindResolved(rs, tokens[i]).value)
  }

  /** The candidate values of each referenced preference: all of its option ids. */
  function CandidateLists(refs: seq<ResolvedPref>): (lists: seq<seq<string>>)
    ensures |lists| == |refs|
    ensures forall i :: 0 <= i < |refs| ==> lists[i] == refs[i].optionIds
  {
    seq(|refs|, i requires 0 <= i < |refs| => refs[i].optionIds)
  }

  function InitialValues(refs: seq<ResolvedPref>): (vs: seq<string>)
    ensures |vs| == |refs|
    ensures forall i :: 0 <= i < |refs| ==> vs[i] == refs[i].initialValue
  {
    seq(|refs|, i requires 0 <= i < |refs| => refs[i].initialValue)
  }

  /** The options-set id one combination of values yields. */
  function OptionsSetIdFor(source: string, tokens: seq<string>, values: seq<string>): string
    requires |values| == |tokens|
  {
    Substitute(source, Bind(tokens, values))
  }

  /** The options-set ids of all combinations, in combination order. */
  function ExpandedIds(source: string, tokens: seq<string>, combos: seq<seq<string>>): (keys: seq<string>)
    requires forall c :: c in combos ==> |c| == |tokens|
    ensures |keys| == |combos|
    ensures forall i :: 0 <= i < |combos| ==> keys[i] == OptionsSetIdFor(source, tokens, combos[i])
  {
    seq(|combos|, i requires 0 <= i < |combos| => OptionsSetIdFor(source, tokens, combos[i]))
  }

  // ---------------------------------------------------------------------
  // One preference, and the whole page
  // ---------------------------------------------------------------------

  /** `p`'s placeholders that match no earlier resolved preference. */
  function BadTokens(st: BuildState, p: PrefDefinition): seq<string>
  {
    UnresolvedTokens(ExtractTokens(p.optionsSource), st.resolved)
  }

  /** The options-set ids `p` expands to (`p` has no bad placeholder). */
  function PrefOptionsSetIds(st: BuildState, p: PrefDefinition): seq<string>
    requires BadTokens(st, p) == []
  {
    var tokens := ExtractTokens(p.optionsSource);
    var refs := ReferencedPrefs(tokens, st.resolved);
    ExpandedIds(p.optionsSource, tokens, CrossProduct(CandidateLists(refs)))
  }

  /** The options-set id of the all-initial-values context. */
  function InitialOptionsSetId(st: BuildState, p: PrefDefinition): string
    requires BadTokens(st, p) == []
  {
    var tokens := ExtractTokens(p.optionsSource);
    OptionsSetIdFor(p.optionsSource, tokens, InitialValues(ReferencedPrefs(tokens, st.resolved)))
  }

  /** What expanding a preference without bad placeholders yields. */
  datatype Expansion = Expansion(
    keys: seq<string>,
    resolution: Resolution,
    initialKey: string,
    initialValue: Option<string>)

  function Expand(st: BuildState, p: PrefDefinition, lib: PrefOptionsConfig): Expansion
    requires BadTokens(st, p) == []
  {
    var keys := PrefOptionsSetIds(st, p);
    var res := Resolve(keys, lib);
    var initialKey := InitialOptionsSetId(st, p);
    Expansion(keys, res, initialKey, if initialKey in res.defaults then Some(res.defaults[initialKey]) else None)
  }

  /** Records an expanded preference in the manifest and in the table of resolved preferences. */
  function Apply(st: BuildState, p: PrefDefinition, x: Expansion): BuildState
  {
    var entry := PrefManifestEntry(p, x.initialValue, x.resolution.defaults);
    var manifest := PagePrefsManifest(
      st.manifest.prefsById[p.id := entry],
      st.manifest.optionSetsById + x.resolution.sets,
      st.manifest.errors + x.resolution.errors);
    var resolved :=
      if x.initialValue.Some? then st.resolved + [ResolvedPref(p.id, OptionIdsOf(x.keys, x.resolution.sets), x.initialValue.value)]
      else st.resolved;
    BuildState(manifest, resolved)
  }

  /** Skips a preference with bad placeholders: it gets no entry and cannot be referenced. */
  function Skip(st: BuildState, bad: seq<string>): BuildState
  {
    BuildState(st.manifest.(errors := st.manifest.errors + PlaceholderErrors(bad)), st.resolved)
  }

  /** Processes one preference declaration. */
  function Step(st: BuildState, p: PrefDefinition, lib: PrefOptionsConfig): BuildState
  {
    var bad := BadTokens(st, p);
    if bad != [] then Skip(st, bad) else Apply(st, p, Expand(st, p, lib))
  }

  const EmptyState: BuildState := BuildState(PagePrefsManifest(map[], map[], []), [])

  /** The left-to-right pass over the declarations. */
  function Run(prefs: seq<PrefDefinition>, lib: PrefOptionsConfig): BuildState
    decreases |prefs|
  {
    if prefs == [] then EmptyState
    else Step(Run(prefs[..|prefs| - 1], lib), prefs[|prefs| - 1], lib)
  }

  function BuildPagePrefsManifest(prefs: seq<PrefDefinition>, lib: PrefOptionsConfig): PagePrefsManifest
  {
    Run(prefs, lib).manifest
  }

  // ---------------------------------------------------------------------
  // Properties of one step
  // ---------------------------------------------------------------------

  /**
   * A preference with a placeholder that names no earlier resolved
   * preference gets one "Invalid placeholder" error per such placeholder;
   * nothing else of the manifest changes, and it cannot be referenced.
   */
  lemma StepInvalidPlaceholder(st: BuildState, p: PrefDefinition, lib: PrefOptionsConfig)
    requires BadTokens(st, p) != []
    ensures var st' := Step(st, p, lib); var bad := BadTokens(st, p);
      && st'.manifest.prefsById == st.manifest.prefsById
      && st'.manifest.optionSetsById == st.manifest.optionSetsById
      && st'.resolved == st.resolved
      && |st'.manifest.errors| == |st.manifest.errors| + |bad|
      && st'.manifest.errors[..|st.manifest.errors|] == st.manifest.errors
      && forall i :: 0 <= i < |bad| ==>
           && st'.manifest.errors[|st.manifest.errors| + i] == InvalidPlaceholderError(bad[i])
           && bad[i] in Occurrences(p.optionsSource)
           && forall r :: r in st.resolved ==> Upper(r.id) != bad[i]
  {
    var bad := BadTokens(st, p);
    forall i | 0 <= i < |bad|
      ensures forall r :: r in st.resolved ==> Upper(r.id) != bad[i]
    {
      assert bad[i] in bad;
    }
  }

  /**
   * A preference whose options source has no placeholder: one options-set
   * id, the source itself. If the library has it, the entry maps it to the
   * set's default and that default is the initial value; otherwise there is
   * exactly one "Invalid options source" error and no default.
   */
  lemma StepLiteralSource(st: BuildState, p: PrefDefinition, lib: PrefOptionsConfig)
    requires Occurrences(p.optionsSource) == []
    ensures BadTokens(st, p) == []
    ensures PrefOptionsSetIds(st, p) == [p.optionsSource]
    ensures var m := Step(st, p, lib).manifest; var src := p.optionsSource;
      && p.id in m.prefsById
      && m.prefsById[p.id].config == p
      && (src in lib && DefaultOf(lib[src]).Some? ==>
            && m.prefsById[p.id].defaultValuesByOptionsSetId == map[src := DefaultOf(lib[src]).value]
            && m.prefsById[p.id].initialValue == DefaultOf(lib[src])
            && m.optionSetsById == st.manifest.optionSetsById[src := lib[src]]
            && m.errors == st.manifest.errors
            && Step(st, p, lib).resolved ==
                 st.resolved + [ResolvedPref(p.id, Dedup(OptionIds(lib[src])), DefaultOf(lib[src]).value)])
      && (src !in lib ==>
            && m.prefsById[p.id].defaultValuesByOptionsSetId == map[]
            && m.prefsById[p.id].initialValue == None
            && m.optionSetsById == st.manifest.optionSetsById
            && m.errors == st.manifest.errors + [InvalidOptionsSourceError(src)]
            && Step(st, p, lib).resolved == st.resolved)
  {
    LiteralSourceKeys(st, p);
    var x := Expand(st, p, lib);
    assert Step(st, p, lib) == Apply(st, p, x);
    ResolveSingle(x.keys, lib);
    var src := p.optionsSource;
    if src in lib && DefaultOf(lib[src]).Some? {
      SingleOptionIds(x.keys, x.resolution.sets);
    }
  }

  /** Looking a single id up: its set and default when the library has it, else one error. */
  lemma ResolveSingle(keys: seq<string>, lib: PrefOptionsConfig)
    requires |keys| == 1
    ensures var k := keys[0]; k in lib && DefaultOf(lib[k]).Some? ==>
      Resolve(keys, lib) == Resolution(map[k := DefaultOf(lib[k]).value], map[k := lib[k]], [])
    ensures var k := keys[0]; k !in lib ==>
      Resolve(keys, lib) == Resolution(map[], map[], [InvalidOptionsSourceError(k)])
  {
    assert keys[1..] == [];
  }

  /** The option ids of one set named by one id are that set's. */
  lemma SingleOptionIds(keys: seq<string>, sets: map<string, OptionSet>)
    requires |keys| == 1 && keys[0] in sets
    ensures AllOptionIds(keys, sets) == OptionIds(sets[keys[0]])
  {
    assert keys[1..] == [];
    assert AllOptionIds(keys, sets) == OptionIds(sets[keys[0]]) + AllOptionIds([], sets);
  }

  /** A source without placeholder expands to itself alone, which is also its initial id. */
  lemma LiteralSourceKeys(st: BuildState, p: PrefDefinition)
    requires Occurrences(p.optionsSource) == []
    ensures BadTokens(st, p) == []
    ensures PrefOptionsSetIds(st, p) == [p.optionsSource]
    ensures InitialOptionsSetId(st, p) == p.optionsSource
  {
    var src := p.optionsSource;
    var tokens := ExtractTokens(src);
    assert tokens == [];
    var refs := ReferencedPrefs(tokens, st.resolved);
    assert CandidateLists(refs) == [];
    assert CrossProduct([]) == [[]];
    SubstituteNoBindings(src);
    assert OptionsSetIdFor(src, [], []) == src;
  }

  /**
   * A preference whose placeholders all name earlier resolved preferences:
   * the template is expanded over every combination of the referenced
   * preferences' option ids. The number of combinations is the product of
   * the candidate counts; each combination whose substituted id is in the
   * library gets that set's default, each other one an "Invalid options
   * source" error; the entry holds nothing else.
   */
  lemma StepTemplated(st: BuildState, p: PrefDefinition, lib: PrefOptionsConfig)
    requires BadTokens(st, p) == []
    ensures var tokens := ExtractTokens(p.optionsSource);
      var lists := CandidateLists(ReferencedPrefs(tokens, st.resolved));
      var m := Step(st, p, lib).manifest;
      var keys := PrefOptionsSetIds(st, p);
      && p.id in m.prefsById
      && m.prefsById[p.id].config == p
      && |lists| == |tokens|
      && |keys| == Product(lists)
      && (forall c :: IsChoice(c, lists) ==>
            var k := OptionsSetIdFor(p.optionsSource, tokens, c);
            && (k in lib && DefaultOf(lib[k]).Some? ==>
                  && k in m.prefsById[p.id].defaultValuesByOptionsSetId
                  && m.prefsById[p.id].defaultValuesByOptionsSetId[k] == DefaultOf(lib[k]).value
                  && k in m.optionSetsById && m.optionSetsById[k] == lib[k])
            && (k !in lib ==> InvalidOptionsSourceError(k) in m.errors[|st.manifest.errors|..]))
      && (forall k :: k in m.prefsById[p.id].defaultValuesByOptionsSetId ==>
            k in lib && exists c :: IsChoice(c, lists) && k == OptionsSetIdFor(p.optionsSource, tokens, c))
      && m.errors == st.manifest.errors + MissingIdErrors(keys, lib)
      && |m.errors| == |st.manifest.errors| + |keys| - CountFound(keys, lib)
      && (forall e :: e in m.errors[|st.manifest.errors|..] <==>
            exists c :: (IsChoice(c, lists) && OptionsSetIdFor(p.optionsSource, tokens, c) !in lib
              && e == InvalidOptionsSourceError(OptionsSetIdFor(p.optionsSource, tokens, c))))
      && m.optionSetsById == st.manifest.optionSetsById + Resolve(keys, lib).sets
      && (forall k :: k in m.optionSetsById <==> k in st.manifest.optionSetsById || (k in keys && k in lib))
      && (forall k :: k in st.manifest.optionSetsById && k !in lib ==> m.optionSetsById[k] == st.manifest.optionSetsById[k])
      && m.prefsById.Keys == st.manifest.prefsById.Keys + {p.id}
      && (forall q :: q in st.manifest.prefsById && q != p.id ==> m.prefsById[q] == st.manifest.prefsById[q])
      && TemplatedResolved(st, p, lib, Step(st, p, lib).resolved)
  {
    StepTemplatedResolved(st, p, lib);
    var tokens := ExtractTokens(p.optionsSource);
    var refs := ReferencedPrefs(tokens, st.resolved);
    var lists := CandidateLists(refs);
    var combos := CrossProduct(lists);
    var keys := PrefOptionsSetIds(st, p);
    var m := Step(st, p, lib).manifest;
    var res := Resolve(keys, lib);
    assert m.prefsById[p.id].defaultValuesByOptionsSetId == res.defaults;
    forall c | IsChoice(c, lists)
      ensures OptionsSetIdFor(p.optionsSource, tokens, c) in keys
    {
      var i :| 0 <= i < |combos| && combos[i] == c;
      assert keys[i] == OptionsSetIdFor(p.optionsSource, tokens, c);
    }
    forall k | k in res.defaults
      ensures exists c :: IsChoice(c, lists) && k == OptionsSetIdFor(p.optionsSource, tokens, c)
    {
      var i :| 0 <= i < |keys| && keys[i] == k;
      assert combos[i] in combos;
    }
    StepTemplatedFrame(st, p, lib);
    ExpandedIdErrors(p.optionsSource, tokens, lists, lib);
  }

  /**
   * The table of resolved preferences after a step without bad placeholders:
   * when the initial options-set id is expanded (always so once every
   * resolved preference can take its own initial value, see
   * `InitialContextEnumerated`) and is in the library with a default, the
   * preference is appended with the option ids of all its sets found and
   * that default as initial value; otherwise the table is unchanged, so later
   * templates cannot refer to it.
   */
  predicate TemplatedResolved(st: BuildState, p: PrefDefinition, lib: PrefOptionsConfig, resolved: seq<ResolvedPref>)
    requires BadTokens(st, p) == []
  {
    var keys := PrefOptionsSetIds(st, p);
    var k := InitialOptionsSetId(st, p);
    if k in keys && k in lib && DefaultOf(lib[k]).Some? then
      resolved == st.resolved + [ResolvedPref(p.id, OptionIdsOf(keys, Resolve(keys, lib).sets), DefaultOf(lib[k]).value)]
    else
      resolved == st.resolved
  }

  /** A templated step leaves the table of resolved preferences as `TemplatedResolved` says. */
  lemma StepTemplatedResolved(st: BuildState, p: PrefDefinition, lib: PrefOptionsConfig)
    requires BadTokens(st, p) == []
    ensures TemplatedResolved(st, p, lib, Step(st, p, lib).resolved)
  {
  }

  /** The rest of the manifest after a templated step: what is new and what is kept. */
  lemma StepTemplatedFrame(st: BuildState, p: PrefDefinition, lib: PrefOptionsConfig)
    requires BadTokens(st, p) == []
    ensures var m := Step(st, p, lib).manifest;
      var keys := PrefOptionsSetIds(st, p);
      && m.errors == st.manifest.errors + MissingIdErrors(keys, lib)
      && m.optionSetsById == st.manifest.optionSetsById + Resolve(keys, lib).sets
      && (forall k :: k in m.optionSetsById <==> k in st.manifest.optionSetsById || (k in keys && k in lib))
      && (forall k :: k in st.manifest.optionSetsById && k !in lib ==> m.optionSetsById[k] == st.manifest.optionSetsById[k])
      && m.prefsById.Keys == st.manifest.prefsById.Keys + {p.id}
      && (forall q :: q in st.manifest.prefsById && q != p.id ==> m.prefsById[q] == st.manifest.prefsById[q])
  {
    ResolveErrorsInOrder(PrefOptionsSetIds(st, p), lib);
  }

  /** The missing-id errors of an expansion are those of the combinations the library lacks. */
  lemma ExpandedIdErrors(src: string, tokens: seq<string>, lists: seq<seq<string>>, lib: PrefOptionsConfig)
    requires |lists| == |tokens|
    ensures forall e :: e in MissingIdErrors(ExpandedIds(src, tokens, CrossProduct(lists)), lib) <==>
      exists c :: (IsChoice(c, lists) && OptionsSetIdFor(src, tokens, c) !in lib
        && e == InvalidOptionsSourceError(OptionsSetIdFor(src, tokens, c)))
  {
    ExpandedIdErrorsFromChoices(src, tokens, lists, lib);
    ChoiceErrorsExpanded(src, tokens, lists, lib);
  }

  lemma ExpandedIdErrorsFromChoices(src: string, tokens: seq<string>, lists: seq<seq<string>>, lib: PrefOptionsConfig)
    requires |lists| == |tokens|
    ensures forall e :: e in MissingIdErrors(ExpandedIds(src, tokens, CrossProduct(lists)), lib) ==>
      exists c :: (IsChoice(c, lists) && OptionsSetIdFor(src, tokens, c) !in lib
        && e == InvalidOptionsSourceError(OptionsSetIdFor(src, tokens, c)))
  {
    var combos := CrossProduct(lists);
    var keys := ExpandedIds(src, tokens, combos);
    forall e | e in MissingIdErrors(keys, lib)
      ensures exists c :: (IsChoice(c, lists) && OptionsSetIdFor(src, tokens, c) !in lib
        && e == InvalidOptionsSourceError(OptionsSetIdFor(src, tokens, c)))
    {
      var i := MissingIdErrorAt(keys, lib, e);
      assert combos[i] in combos;
    }
  }

  lemma ChoiceErrorsExpanded(src: string, tokens: seq<string>, lists: seq<seq<string>>, lib: PrefOptionsConfig)
    requires |lists| == |tokens|
    ensures forall c :: IsChoice(c, lists) && OptionsSetIdFor(src, tokens, c) !in lib ==>
      InvalidOptionsSourceError(OptionsSetIdFor(src, tokens, c)) in MissingIdErrors(ExpandedIds(src, tokens, CrossProduct(lists)), lib)
  {
    var combos := CrossProduct(lists);
    var keys := ExpandedIds(src, tokens, combos);
    ResolveErrorsInOrder(keys, lib);
    forall c | IsChoice(c, lists) && OptionsSetIdFor(src, tokens, c) !in lib
      ensures InvalidOptionsSourceError(OptionsSetIdFor(src, tokens, c)) in MissingIdErrors(keys, lib)
    {
      var i :| 0 <= i < |combos| && combos[i] == c;
      assert keys[i] == OptionsSetIdFor(src, tokens, c);
    }
  }


  /** Each resolved preference can take its own initial value. */
  predicate ResolvedTableValid(rs: seq<ResolvedPref>)
  {
    forall r :: r in rs ==> r.initialValue in r.optionIds
  }

  /**
   * The initial value of a templated preference is the default of the
   * option set obtained by substituting each referenced preference's own
   * initial value; that all-initial-values context is one of the
   * combinations enumerated; when the library has that set, the initial
   * value is the set's default, so with a valid library it is defined
   * exactly when the library has the set.
   */
  lemma StepInitialValue(st: BuildState, p: PrefDefinition, lib: PrefOptionsConfig)
    requires BadTokens(st, p) == []
    requires ResolvedTableValid(st.resolved)
    ensures var tokens := ExtractTokens(p.optionsSource);
      var refs := ReferencedPrefs(tokens, st.resolved);
      var entry := Step(st, p, lib).manifest.prefsById[p.id];
      var k := InitialOptionsSetId(st, p);
      && IsChoice(InitialValues(refs), CandidateLists(refs))
      && InitialValues(refs) in CrossProduct(CandidateLists(refs))
      && k in PrefOptionsSetIds(st, p)
      && (forall v :: entry.initialValue == Some(v) <==>
            k in entry.defaultValuesByOptionsSetId && entry.defaultValuesByOptionsSetId[k] == v)
      && (k in lib ==> entry.initialValue == DefaultOf(lib[k]))
      && (entry.initialValue.Some? <==> k in lib && DefaultOf(lib[k]).Some?)
      && (ValidLibrary(lib) ==> (entry.initialValue.Some? <==> k in lib))
  {
    InitialContextEnumerated(st, p);
    var x := Expand(st, p, lib);
    var k := InitialOptionsSetId(st, p);
    assert Step(st, p, lib) == Apply(st, p, x);
    assert Step(st, p, lib).manifest.prefsById[p.id] == PrefManifestEntry(p, x.initialValue, x.resolution.defaults);
    if ValidLibrary(lib) && k in lib {
      assert ExactlyOneDefault(lib[k]);
      var i :| 0 <= i < |lib[k]| && lib[k][i].isDefault;
      DefaultOfUnique(lib[k], i);
    }
  }

  /** The all-initial-values context is one of the enumerated combinations. */
  lemma InitialContextEnumerated(st: BuildState, p: PrefDefinition)
    requires BadTokens(st, p) == []
    requires ResolvedTableValid(st.resolved)
    ensures var refs := ReferencedPrefs(ExtractTokens(p.optionsSource), st.resolved);
      && IsChoice(InitialValues(refs), CandidateLists(refs))
      && InitialValues(refs) in CrossProduct(CandidateLists(refs))
      && InitialOptionsSetId(st, p) in PrefOptionsSetIds(st, p)
  {
    var tokens := ExtractTokens(p.optionsSource);
    var refs := ReferencedPrefs(tokens, st.resolved);
    var lists := CandidateLists(refs);
    var init := InitialValues(refs);
    forall i | 0 <= i < |init| ensures init[i] in lists[i] {
      assert refs[i] in st.resolved;
    }
    assert IsChoice(init, lists);
    var combos := CrossProduct(lists);
    assert init in combos;
    var j :| 0 <= j < |combos| && combos[j] == init;
    var keys := PrefOptionsSetIds(st, p);
    assert keys == ExpandedIds(p.optionsSource, tokens, combos);
    assert keys[j] == InitialOptionsSetId(st, p);
  }

  // ---------------------------------------------------------------------
  // Properties of the whole pass
  // ---------------------------------------------------------------------

  /** The invariant the pass keeps over the declarations processed so far. */
  predicate ManifestInvariant(st: BuildState, prefs: seq<PrefDefinition>, lib: PrefOptionsConfig)
  {
    var m := st.manifest;
    // every option set copied into the manifest is the library's, unchanged
    && (forall k :: k in m.optionSetsById ==> k in lib && m.optionSetsById[k] == lib[k])
    // every entry is keyed by its own id and holds a declaration of the page
    && (forall id :: id in m.prefsById ==> m.prefsById[id].config.id == id && m.prefsById[id].config in prefs)
    // every recorded default is the default of a copied option set
    && (forall id, k :: id in m.prefsById && k in m.prefsById[id].defaultValuesByOptionsSetId ==>
          k in m.optionSetsById && Some(m.prefsById[id].defaultValuesByOptionsSetId[k]) == DefaultOf(lib[k]))
    // an initial value, when defined, is one of the preference's defaults
    && (forall id :: id in m.prefsById && m.prefsById[id].initialValue.Some? ==>
          m.prefsById[id].initialValue.value in m.prefsById[id].defaultValuesByOptionsSetId.Values)
    && ResolvedTableValid(st.resolved)
    // every error is one of the two soft errors
    && (forall e :: e in m.errors ==>
          StartsWith(e, PlaceholderErrorPrefix) || StartsWith(e, OptionsSourceErrorPrefix))
  }


  lemma StepKeepsInvariant(st: BuildState, prefs: seq<PrefDefinition>, p: PrefDefinition, lib: PrefOptionsConfig)
    requires ManifestInvariant(st, prefs, lib)
    ensures ManifestInvariant(Step(st, p, lib), prefs + [p], lib)
  {
    var bad := BadTokens(st, p);
    if bad != [] {
      SkipKeepsInvariant(st, prefs, p, bad, lib);
    } else {
      ExpandValid(st, p, lib);
      ApplyKeepsInvariant(st, prefs, p, Expand(st, p, lib), lib);
    }
  }

  lemma SkipKeepsInvariant(st: BuildState, prefs: seq<PrefDefinition>, p: PrefDefinition, bad: seq<string>, lib: PrefOptionsConfig)
    requires ManifestInvariant(st, prefs, lib)
    ensures ManifestInvariant(Skip(st, bad), prefs + [p], lib)
  {
    var m' := Skip(st, bad).manifest;
    var es := PlaceholderErrors(bad);
    forall e | e in m'.errors
      ensures StartsWith(e, PlaceholderErrorPrefix) || StartsWith(e, OptionsSourceErrorPrefix)
    {
      if e !in st.manifest.errors {
        assert e in es;
        var i :| 0 <= i < |es| && es[i] == e;
        assert (PlaceholderErrorPrefix + bad[i])[..|PlaceholderErrorPrefix|] == PlaceholderErrorPrefix;
      }
    }
  }

  /** What the invariant needs of an expansion. */
  predicate ExpansionValid(x: Expansion, lib: PrefOptionsConfig)
  {
    var res := x.resolution;
    && (forall k :: k in res.sets ==> k in x.keys && k in lib && res.sets[k] == lib[k])
    && (forall k :: k in res.defaults ==> k in res.sets && Some(res.defaults[k]) == DefaultOf(lib[k]))
    && (x.initialValue.Some? ==> x.initialKey in res.defaults && res.defaults[x.initialKey] == x.initialValue.value)
    && (forall e :: e in res.errors ==> StartsWith(e, OptionsSourceErrorPrefix))
  }

  lemma ExpandValid(st: BuildState, p: PrefDefinition, lib: PrefOptionsConfig)
    requires BadTokens(st, p) == []
    ensures ExpansionValid(Expand(st, p, lib), lib)
  {
    var x := Expand(st, p, lib);
    forall e | e in x.resolution.errors ensures StartsWith(e, OptionsSourceErrorPrefix) {
      var k :| e == InvalidOptionsSourceError(k);
      assert (OptionsSourceErrorPrefix + k)[..|OptionsSourceErrorPrefix|] == OptionsSourceErrorPrefix;
    }
  }

  lemma ApplyKeepsInvariant(st: BuildState, prefs: seq<PrefDefinition>, p: PrefDefinition, x: Expansion, lib: PrefOptionsConfig)
    requires ManifestInvariant(st, prefs, lib)
    requires ExpansionValid(x, lib)
    ensures ManifestInvariant(Apply(st, p, x), prefs + [p], lib)
  {
    ApplyKeepsDefaults(st, prefs, p, x, lib);
    ApplyKeepsInitialValues(st, prefs, p, x, lib);
    ApplyKeepsResolvedTable(st, p, x, lib);
  }

  /** After `Apply`, every recorded default is still the default of a copied option set. */
  lemma ApplyKeepsDefaults(st: BuildState, prefs: seq<PrefDefinition>, p: PrefDefinition, x: Expansion, lib: PrefOptionsConfig)
    requires ManifestInvariant(st, prefs, lib)
    requires ExpansionValid(x, lib)
    ensures var m' := Apply(st, p, x).manifest;
      forall id, k :: id in m'.prefsById && k in m'.prefsById[id].defaultValuesByOptionsSetId ==>
        k in m'.optionSetsById && Some(m'.prefsById[id].defaultValuesByOptionsSetId[k]) == DefaultOf(lib[k])
  {
    var m, m' := st.manifest, Apply(st, p, x).manifest;
    forall id, k | id in m'.prefsById && k in m'.prefsById[id].defaultValuesByOptionsSetId
      ensures k in m'.optionSetsById
      ensures Some(m'.prefsById[id].defaultValuesByOptionsSetId[k]) == DefaultOf(lib[k])
    {
      if id != p.id {
        assert k in m.optionSetsById;
      }
    }
  }

  /** After `Apply`, every defined initial value is still one of its preference's defaults. */
  lemma ApplyKeepsInitialValues(st: BuildState, prefs: seq<PrefDefinition>, p: PrefDefinition, x: Expansion, lib: PrefOptionsConfig)
    requires ManifestInvariant(st, prefs, lib)
    requires ExpansionValid(x, lib)
    ensures var m' := Apply(st, p, x).manifest;
      forall id :: id in m'.prefsById && m'.prefsById[id].initialValue.Some? ==>
        m'.prefsById[id].initialValue.value in m'.prefsById[id].defaultValuesByOptionsSetId.Values
  {
    var res := x.resolution;
    var m' := Apply(st, p, x).manifest;
    forall id | id in m'.prefsById && m'.prefsById[id].initialValue.Some?
      ensures m'.prefsById[id].initialValue.value in m'.prefsById[id].defaultValuesByOptionsSetId.Values
    {
      if id == p.id {
        assert res.defaults[x.initialKey] in res.defaults.Values;
      }
    }
  }

  /** After `Apply`, every resolved preference can still take its own initial value. */
  lemma ApplyKeepsResolvedTable(st: BuildState, p: PrefDefinition, x: Expansion, lib: PrefOptionsConfig)
    requires ResolvedTableValid(st.resolved)
    requires ExpansionValid(x, lib)
    ensures ResolvedTableValid(Apply(st, p, x).resolved)
  {
    if x.initialValue.Some? {
      InitialValueIsAnOption(x, lib);
      var added := ResolvedPref(p.id, OptionIdsOf(x.keys, x.resolution.sets), x.initialValue.value);
      assert Apply(st, p, x).resolved == st.resolved + [added];
      forall r | r in st.resolved + [added] ensures r.initialValue in r.optionIds {
        if r != added {
          assert r in st.resolved;
        }
      }
    }
  }

  /** A defined initial value of a valid expansion is one of the option ids of its sets. */
  lemma InitialValueIsAnOption(x: Expansion, lib: PrefOptionsConfig)
    requires ExpansionValid(x, lib) && x.initialValue.Some?
    ensures x.initialValue.value in OptionIdsOf(x.keys, x.resolution.sets)
  {
    var res := x.resolution;
    var k := x.initialKey;
    assert k in res.sets && k in x.keys && res.sets[k] == lib[k];
    DefaultIsAnOption(lib[k]);
    assert x.initialValue.value in OptionIds(res.sets[k]);
  }

  /** The invariant holds after any number of declarations. */
  lemma {:induction false} RunKeepsInvariant(prefs: seq<PrefDefinition>, lib: PrefOptionsConfig)
    ensures ManifestInvariant(Run(prefs, lib), prefs, lib)
    decreases |prefs|
  {
    if prefs != [] {
      var init := prefs[..|prefs| - 1];
      RunKeepsInvariant(init, lib);
      StepKeepsInvariant(Run(init, lib), init, prefs[|prefs| - 1], lib);
      assert init + [prefs[|prefs| - 1]] == prefs;
    }
  }

  /** A declaration contributes no error: its placeholders resolve and every id it expands to exists. */
  predicate StepClean(st: BuildState, p: PrefDefinition, lib: PrefOptionsConfig)
  {
    BadTokens(st, p) == [] && forall k :: k in PrefOptionsSetIds(st, p) ==> k in lib
  }

  lemma StepErrorsGrow(st: BuildState, p: PrefDefinition, lib: PrefOptionsConfig)
    ensures var e := st.manifest.errors; var e' := Step(st, p, lib).manifest.errors;
      |e| <= |e'| && e'[..|e|] == e && (e' == e <==> StepClean(st, p, lib))
  {
    if BadTokens(st, p) == [] {
      StepTemplated(st, p, lib);
    }
  }

  /** Every declaration, in its turn, contributes no error. */
  predicate AllStepsClean(prefs: seq<PrefDefinition>, lib: PrefOptionsConfig)
    decreases |prefs|
  {
    prefs == [] ||
    (AllStepsClean(prefs[..|prefs| - 1], lib) && StepClean(Run(prefs[..|prefs| - 1], lib), prefs[|prefs| - 1], lib))
  }

  /**
   * The manifest has no error exactly when every declaration, in its turn,
   * had all of its placeholders resolved and all of its expanded ids found.
   */
  lemma {:induction false} NoErrorsIff(prefs: seq<PrefDefinition>, lib: PrefOptionsConfig)
    ensures BuildPagePrefsManifest(prefs, lib).errors == [] <==> AllStepsClean(prefs, lib)
    decreases |prefs|
  {
    if prefs != [] {
      var n := |prefs| - 1;
      var init := prefs[..n];
      NoErrorsIff(init, lib);
      StepErrorsGrow(Run(init, lib), prefs[n], lib);
    }
  }

  /** A step adds the declaration's id to the entries exactly when its placeholders resolve. */
  lemma StepEntryKeys(st: BuildState, p: PrefDefinition, lib: PrefOptionsConfig)
    ensures Step(st, p, lib).manifest.prefsById.Keys ==
              st.manifest.prefsById.Keys + (if BadTokens(st, p) == [] then {p.id} else {})
  {
  }

  /** Without errors, every declared preference has an entry keyed by its id. */
  lemma {:induction false} NoErrorsEveryPrefHasEntry(prefs: seq<PrefDefinition>, lib: PrefOptionsConfig)
    requires BuildPagePrefsManifest(prefs, lib).errors == []
    ensures forall p :: p in prefs ==> p.id in BuildPagePrefsManifest(prefs, lib).prefsById
    decreases |prefs|
  {
    if prefs != [] {
      var n := |prefs| - 1;
      var init := prefs[..n];
      var st := Run(init, lib);
      LastStepClean(prefs, lib);
      NoErrorsEveryPrefHasEntry(init, lib);
      StepEntryKeys(st, prefs[n], lib);
      EntriesOfLastStep(prefs, lib);
    }
  }

  /** Without errors, the earlier declarations had none either, and the last one was clean. */
  lemma LastStepClean(prefs: seq<PrefDefinition>, lib: PrefOptionsConfig)
    requires prefs != [] && BuildPagePrefsManifest(prefs, lib).errors == []
    ensures BuildPagePrefsManifest(prefs[..|prefs| - 1], lib).errors == []
    ensures StepClean(Run(prefs[..|prefs| - 1], lib), prefs[|prefs| - 1], lib)
  {
    var st := Run(prefs[..|prefs| - 1], lib);
    StepErrorsGrow(st, prefs[|prefs| - 1], lib);
  }

  /** The ids with an entry after the last step: those before it, and the last declaration's. */
  lemma EntriesOfLastStep(prefs: seq<PrefDefinition>, lib: PrefOptionsConfig)
    requires prefs != []
    requires var init := prefs[..|prefs| - 1];
      forall p :: p in init ==> p.id in BuildPagePrefsManifest(init, lib).prefsById
    requires var init := prefs[..|prefs| - 1];
      prefs[|prefs| - 1].id in BuildPagePrefsManifest(prefs, lib).prefsById
    requires BuildPagePrefsManifest(prefs[..|prefs| - 1], lib).prefsById.Keys <= BuildPagePrefsManifest(prefs, lib).prefsById.Keys
    ensures forall p :: p in prefs ==> p.id in BuildPagePrefsManifest(prefs, lib).prefsById
  {
    var n := |prefs| - 1;
    var init := prefs[..n];
    forall q | q in prefs ensures q.id in BuildPagePrefsManifest(prefs, lib).prefsById {
      var i :| 0 <= i < |prefs| && prefs[i] == q;
      if i < n {
        assert init[i] == q;
        assert q.id in BuildPagePrefsManifest(init, lib).prefsById.Keys;
      }
    }
  }
}
