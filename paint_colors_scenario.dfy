/**
 * The paint-colors page: preferences `color`, `finish` and `paint`, where
 * `paint` takes its options from `<FINISH>_<COLOR>_paint_options`. The
 * lemmas below derive the builder's output on this page from the general
 * properties of the builder: the full manifest for the complete library,
 * a single "Invalid options source" error when one paint set is missing,
 * and a single "Invalid placeholder" error when the template misspells
 * `COLOR`.
 *
 * Many of the smaller lemmas (`FirstLiteralPref`, `RunTwo`, `ResolveSix`,
 * `SixMapLookups`, `PrependEachOne`, ...) only split those derivations into
 * pieces the verifier handles cheaply; they state no test of their own.
 */
module PaintColorsScenario {
  import opened Common
  import opened Placeholders
  import opened YamlConfigParser

  const Color := PrefDefinition("color", "Color", "color_options")
  const Finish := PrefDefinition("finish", "Finish", "finish_options")
  /** `<FINISH>_<COLOR>_paint_options`, written as its two placeholders and the text around them. */
  const PaintTemplate: string := "<" + "FINISH" + ">" + ("_" + ("<" + "COLOR" + ">" + "_paint_options"))
  const Paint := PrefDefinition("paint", "Paint color", PaintTemplate)
  /** The invalid-placeholder test's template `<FINISH>_<COLOUR>_paint_options`. */
  const TypoTemplate: string := "<" + "FINISH" + ">" + ("_" + ("<" + "COLOUR" + ">" + "_paint_options"))
  const PaintTypo := PrefDefinition("paint", "Paint color", TypoTemplate)

  /** The paint set a finish and a color name: `<finish>_<color>_paint_options`. */
  function PaintSetId(f: string, c: string): string
  {
    f + "_" + c + "_paint_options"
  }

  const ColorOptions: OptionSet := [PrefOption("blue", "Blue", true), PrefOption("red", "Red", false)]
  const FinishOptions: OptionSet :=
    [PrefOption("matte", "Matte", false), PrefOption("eggshell", "Eggshell", true), PrefOption("gloss", "Gloss", false)]
  const MatteBlue: OptionSet := [PrefOption("powder_blue", "Powder Blue", true)]
  const MatteRed: OptionSet := [PrefOption("brick", "Brick", true), PrefOption("scarlet", "Scarlet", false)]
  const EggshellBlue: OptionSet :=
    [PrefOption("elegant_royal", "Elegant Royal", true), PrefOption("robins_egg", "Robin's Egg", false)]
  const EggshellRed: OptionSet := [PrefOption("rose", "Rose", true), PrefOption("ruby", "Ruby", false)]
  const GlossBlue: OptionSet := [PrefOption("sky_blue", "Sky Blue", true), PrefOption("navy", "Navy", false)]
  const GlossRed: OptionSet := [PrefOption("fire_engine", "Fire Engine", true), PrefOption("crimson", "Crimson", false)]

  const TwoSets: PrefOptionsConfig := map["color_options" := ColorOptions, "finish_options" := FinishOptions]

  /** The map sending the i-th of six ids to the i-th of six values. */
  function SixMap<V>(ks: seq<string>, vs: seq<V>): map<string, V>
    requires |ks| == 6 && |vs| == 6
  {
    map[ks[0] := vs[0], ks[1] := vs[1], ks[2] := vs[2], ks[3] := vs[3], ks[4] := vs[4], ks[5] := vs[5]]
  }

  /** The ids `paint` expands to, finish varying slowest. */
  const PaintIds: seq<string> := [
    PaintSetId("matte", "blue"), PaintSetId("matte", "red"),
    PaintSetId("eggshell", "blue"), PaintSetId("eggshell", "red"),
    PaintSetId("gloss", "blue"), PaintSetId("gloss", "red")]

  /** The six paint sets, in the order of `PaintIds`. */
  const PaintSetList: seq<OptionSet> := [MatteBlue, MatteRed, EggshellBlue, EggshellRed, GlossBlue, GlossRed]
  /** Their defaults, in the same order. */
  const PaintDefaultList: seq<string> := ["powder_blue", "brick", "elegant_royal", "rose", "sky_blue", "fire_engine"]

  /** The six paint sets, keyed `matte_blue_paint_options` to `gloss_red_paint_options`. */
  const PaintSets: PrefOptionsConfig := SixMap(PaintIds, PaintSetList)
  /** The paint sets of the nonexistent-options-source test: `matte_blue_paint_options` is left out. */
  const MissingSets: PrefOptionsConfig := PaintSets - {PaintSetId("matte", "blue")}

  const PaintLibrary: PrefOptionsConfig := TwoSets + PaintSets
  const LibraryMissingMatteBlue: PrefOptionsConfig := TwoSets + MissingSets

  const PaintDefaults: map<string, string> := SixMap(PaintIds, PaintDefaultList)
  const MissingMatteBlueDefaults: map<string, string> := PaintDefaults - {PaintSetId("matte", "blue")}

  /** The entries of `color` and `finish`; each maps its one set to its default. */
  const TwoEntries: map<string, PrefManifestEntry> := map[
    "color" := PrefManifestEntry(Color, Some("blue"), map["color_options" := "blue"]),
    "finish" := PrefManifestEntry(Finish, Some("eggshell"), map["finish_options" := "eggshell"])
  ]

  /** The manifest the test expects for the complete library. */
  const ExpectedManifest: PagePrefsManifest := PagePrefsManifest(
    TwoEntries["paint" := PrefManifestEntry(Paint, Some("elegant_royal"), PaintDefaults)],
    PaintLibrary,
    [])

  const ColorResolved := ResolvedPref("color", ["blue", "red"], "blue")
  const FinishResolved := ResolvedPref("finish", ["matte", "eggshell", "gloss"], "eggshell")

  /** The state after `color` and `finish` under any library holding their two sets (see `TwoPrefs`). */
  const TwoPrefsState: BuildState :=
    BuildState(PagePrefsManifest(TwoEntries, TwoSets, []), [ColorResolved, FinishResolved])

  /**
   * A declaration without placeholder whose source the library has: its
   * entry maps the source to the set's default, which is also its initial
   * value, and it becomes referable with the set's option ids.
   */
  lemma LiteralPrefStep(st: BuildState, p: PrefDefinition, lib: PrefOptionsConfig, d: string, ids: seq<string>)
    requires '<' !in p.optionsSource
    requires p.optionsSource in lib && DefaultOf(lib[p.optionsSource]) == Some(d)
    requires OptionIds(lib[p.optionsSource]) == ids && NoDuplicates(ids)
    ensures Step(st, p, lib) == BuildState(
      PagePrefsManifest(
        st.manifest.prefsById[p.id := PrefManifestEntry(p, Some(d), map[p.optionsSource := d])],
        st.manifest.optionSetsById[p.optionsSource := lib[p.optionsSource]],
        st.manifest.errors),
      st.resolved + [ResolvedPref(p.id, ids, d)])
  {
    OccurrencesNoAngle(p.optionsSource);
    StepLiteralSource(st, p, lib);
    DedupOfDistinct(ids);
  }

  /** Two declarations without placeholder, both found in the library. */
  lemma TwoLiteralPrefs(prefs: seq<PrefDefinition>, p1: PrefDefinition, d1: string, ids1: seq<string>,
                        p2: PrefDefinition, d2: string, ids2: seq<string>, lib: PrefOptionsConfig)
    requires prefs == [p1, p2]
    requires '<' !in p1.optionsSource && p1.optionsSource in lib
    requires DefaultOf(lib[p1.optionsSource]) == Some(d1) && OptionIds(lib[p1.optionsSource]) == ids1 && NoDuplicates(ids1)
    requires '<' !in p2.optionsSource && p2.optionsSource in lib
    requires DefaultOf(lib[p2.optionsSource]) == Some(d2) && OptionIds(lib[p2.optionsSource]) == ids2 && NoDuplicates(ids2)
    ensures Run(prefs, lib) == BuildState(
      PagePrefsManifest(
        map[p1.id := PrefManifestEntry(p1, Some(d1), map[p1.optionsSource := d1])]
           [p2.id := PrefManifestEntry(p2, Some(d2), map[p2.optionsSource := d2])],
        map[p1.optionsSource := lib[p1.optionsSource]][p2.optionsSource := lib[p2.optionsSource]],
        []),
      [ResolvedPref(p1.id, ids1, d1), ResolvedPref(p2.id, ids2, d2)])
  {
    var x1 := BuildState(
      PagePrefsManifest(
        map[p1.id := PrefManifestEntry(p1, Some(d1), map[p1.optionsSource := d1])],
        map[p1.optionsSource := lib[p1.optionsSource]],
        []),
      [ResolvedPref(p1.id, ids1, d1)]);
    FirstLiteralPref(p1, lib, d1, ids1, x1);
    SecondLiteralPref(x1, p1, d1, ids1, p2, d2, ids2, lib);
    RunTwo(prefs, p1, p2, lib, x1);
  }

  /** The first declaration, from the empty state. */
  lemma FirstLiteralPref(p: PrefDefinition, lib: PrefOptionsConfig, d: string, ids: seq<string>, x: BuildState)
    requires '<' !in p.optionsSource
    requires p.optionsSource in lib && DefaultOf(lib[p.optionsSource]) == Some(d)
    requires OptionIds(lib[p.optionsSource]) == ids && NoDuplicates(ids)
    requires x == BuildState(
      PagePrefsManifest(
        map[p.id := PrefManifestEntry(p, Some(d), map[p.optionsSource := d])],
        map[p.optionsSource := lib[p.optionsSource]],
        []),
      [ResolvedPref(p.id, ids, d)])
    ensures Step(EmptyState, p, lib) == x
  {
    LiteralPrefStep(EmptyState, p, lib, d, ids);
    assert EmptyState.resolved + [ResolvedPref(p.id, ids, d)] == [ResolvedPref(p.id, ids, d)];
  }

  /** The second declaration, after the first. */
  lemma SecondLiteralPref(x1: BuildState, p1: PrefDefinition, d1: string, ids1: seq<string>,
                          p2: PrefDefinition, d2: string, ids2: seq<string>, lib: PrefOptionsConfig)
    requires p1.optionsSource in lib
    requires x1 == BuildState(
      PagePrefsManifest(
        map[p1.id := PrefManifestEntry(p1, Some(d1), map[p1.optionsSource := d1])],
        map[p1.optionsSource := lib[p1.optionsSource]],
        []),
      [ResolvedPref(p1.id, ids1, d1)])
    requires '<' !in p2.optionsSource && p2.optionsSource in lib
    requires DefaultOf(lib[p2.optionsSource]) == Some(d2) && OptionIds(lib[p2.optionsSource]) == ids2 && NoDuplicates(ids2)
    ensures Step(x1, p2, lib) == BuildState(
      PagePrefsManifest(
        map[p1.id := PrefManifestEntry(p1, Some(d1), map[p1.optionsSource := d1])]
           [p2.id := PrefManifestEntry(p2, Some(d2), map[p2.optionsSource := d2])],
        map[p1.optionsSource := lib[p1.optionsSource]][p2.optionsSource := lib[p2.optionsSource]],
        []),
      [ResolvedPref(p1.id, ids1, d1), ResolvedPref(p2.id, ids2, d2)])
  {
    LiteralPrefStep(x1, p2, lib, d2, ids2);
    var r1, r2 := ResolvedPref(p1.id, ids1, d1), ResolvedPref(p2.id, ids2, d2);
    assert [r1] + [r2] == [r1, r2];
  }

  /** Two declarations are two steps from the empty state, the first of which yields `x1`. */
  lemma RunTwo(prefs: seq<PrefDefinition>, p1: PrefDefinition, p2: PrefDefinition, lib: PrefOptionsConfig, x1: BuildState)
    requires prefs == [p1, p2] && Step(EmptyState, p1, lib) == x1
    ensures Run(prefs, lib) == Step(x1, p2, lib)
  {
    var first := prefs[..1];
    assert first == [p1];
    assert first[..0] == [];
    assert Run(first, lib) == x1;
  }

  /** The defaults and option ids of the color and finish sets. */
  lemma ColorAndFinishSets(cs: OptionSet, fs: OptionSet)
    requires cs == ColorOptions && fs == FinishOptions
    ensures DefaultOf(cs) == Some("blue") && OptionIds(cs) == ColorResolved.optionIds
    ensures NoDuplicates(ColorResolved.optionIds)
    ensures DefaultOf(fs) == Some("eggshell") && OptionIds(fs) == FinishResolved.optionIds
    ensures NoDuplicates(FinishResolved.optionIds)
  {
    assert OptionIds(cs) == ["blue", "red"];
    assert OptionIds(fs) == ["matte", "eggshell", "gloss"];
  }

  /** After `color` and `finish`: both entries, both sets, no error, and both referable. */
  lemma TwoPrefs(prefs: seq<PrefDefinition>, lib: PrefOptionsConfig)
    requires prefs == [Color, Finish]
    requires "color_options" in lib && lib["color_options"] == ColorOptions
    requires "finish_options" in lib && lib["finish_options"] == FinishOptions
    ensures Run(prefs, lib) == TwoPrefsState
  {
    ColorAndFinishSets(ColorOptions, FinishOptions);
    TwoLiteralPrefs(prefs, Color, "blue", ColorResolved.optionIds, Finish, "eggshell", FinishResolved.optionIds, lib);
  }

  /** The paint template has the two placeholders FINISH and COLOR, in that order. */
  lemma PaintTemplateTokens(s: string)
    requires s == PaintTemplate
    ensures ExtractTokens(s) == ["FINISH", "COLOR"]
  {
    TwoPlaceholderTemplate(s, "FINISH", '_', "COLOR", "_paint_options");
  }

  /** Substituting two values into a two-placeholder template `<A><sep><B><tail>`. */
  lemma TemplateKey(s: string, tokens: seq<string>, a: string, sep: char, b: string, tail: string,
                    f: string, c: string)
    requires IsTokenName(a) && IsTokenName(b) && a != b && sep != '<' && '<' !in tail
    requires s == "<" + a + ">" + ([sep] + ("<" + b + ">" + tail)) && tokens == [a, b]
    ensures OptionsSetIdFor(s, tokens, [f, c]) == f + [sep] + c + tail
  {
    var bs := Bind(tokens, [f, c]);
    assert bs[tokens[0]] == f && bs[tokens[1]] == c;
    TwoPlaceholderSubstitute(s, a, sep, b, tail, bs);
  }

  /** Expanding such a template over a three-by-two product, first list slowest. */
  lemma TemplateKeys(s: string, tokens: seq<string>, a: string, sep: char, b: string, tail: string,
                     x0: string, x1: string, x2: string, y0: string, y1: string)
    requires IsTokenName(a) && IsTokenName(b) && a != b && sep != '<' && '<' !in tail
    requires s == "<" + a + ">" + ([sep] + ("<" + b + ">" + tail)) && tokens == [a, b]
    ensures ExpandedIds(s, tokens, [[x0, y0], [x0, y1], [x1, y0], [x1, y1], [x2, y0], [x2, y1]]) ==
      [x0 + [sep] + y0 + tail, x0 + [sep] + y1 + tail, x1 + [sep] + y0 + tail,
       x1 + [sep] + y1 + tail, x2 + [sep] + y0 + tail, x2 + [sep] + y1 + tail]
  {
    TemplateKey(s, tokens, a, sep, b, tail, x0, y0);
    TemplateKey(s, tokens, a, sep, b, tail, x0, y1);
    TemplateKey(s, tokens, a, sep, b, tail, x1, y0);
    TemplateKey(s, tokens, a, sep, b, tail, x1, y1);
    TemplateKey(s, tokens, a, sep, b, tail, x2, y0);
    TemplateKey(s, tokens, a, sep, b, tail, x2, y1);
  }

  lemma PrependEachOne(x: string, d: seq<string>)
    ensures PrependEach(x, [d]) == [[x] + d]
  {
    var r := PrependEach(x, [d]);
    assert |r| == 1 && r[0] == [x] + d;
  }

  lemma PrependEachTwo(x: string, d0: seq<string>, d1: seq<string>)
    ensures PrependEach(x, [d0, d1]) == [[x] + d0, [x] + d1]
  {
    var r := PrependEach(x, [d0, d1]);
    assert |r| == 2 && r[0] == [x] + d0 && r[1] == [x] + d1;
  }

  /** The product of a three-candidate and a two-candidate list, first list slowest. */
  lemma CrossProductOfTwo(x0: string, x1: string, x2: string, y0: string, y1: string)
    ensures CrossProduct([[x0, x1, x2], [y0, y1]]) ==
      [[x0, y0], [x0, y1], [x1, y0], [x1, y1], [x2, y0], [x2, y1]]
  {
    var lists := [[x0, x1, x2], [y0, y1]];
    assert lists[1..] == [[y0, y1]];
    assert [[y0, y1]][1..] == [];
    var e: seq<string> := [];
    var none: seq<seq<string>> := [];
    assert CrossProduct(none) == [e];
    PrependEachOne(y0, e);
    PrependEachOne(y1, e);
    assert [y0] + e == [y0] && [y1] + e == [y1];
    var yl := [y0, y1];
    assert yl[0] == y0 && yl[1..] == [y1];
    assert [y1][0] == y1 && [y1][1..] == [];
    assert PrependAll([], [e]) == [];
    assert PrependAll([y1], [e]) == [[y1]];
    assert PrependAll(yl, [e]) == [[y0]] + [[y1]];
    var ys := CrossProduct([yl]);
    assert [yl][1..] == none;
    assert ys == PrependAll(yl, [e]);
    assert ys == [[y0], [y1]];
    PrependEachTwo(x0, [y0], [y1]);
    PrependEachTwo(x1, [y0], [y1]);
    PrependEachTwo(x2, [y0], [y1]);
    assert [x0] + [y0] == [x0, y0] && [x0] + [y1] == [x0, y1];
    assert [x1] + [y0] == [x1, y0] && [x1] + [y1] == [x1, y1];
    assert [x2] + [y0] == [x2, y0] && [x2] + [y1] == [x2, y1];
    var xl := [x0, x1, x2];
    assert xl[0] == x0 && xl[1..] == [x1, x2];
    assert [x1, x2][0] == x1 && [x1, x2][1..] == [x2];
    assert [x2][0] == x2 && [x2][1..] == [];
    assert PrependAll([], ys) == [];
    assert PrependAll([x2], ys) == [[x2, y0], [x2, y1]];
    assert PrependAll([x1, x2], ys) == [[x1, y0], [x1, y1]] + [[x2, y0], [x2, y1]];
    assert PrependAll(xl, ys) == [[x0, y0], [x0, y1]] + [[x1, y0], [x1, y1], [x2, y0], [x2, y1]];
    assert lists == [xl, yl] && lists[1..] == [yl];
  }

  /** Upper-casing the two earlier ids gives the template's placeholders. */
  lemma UpperIds()
    ensures Upper("color") == "COLOR" && Upper("finish") == "FINISH"
  {
  }

  /** Both placeholders of the paint template name an earlier preference: FINISH first, then COLOR. */
  lemma PaintReferences(rs: seq<ResolvedPref>, tokens: seq<string>)
    requires rs == [ColorResolved, FinishResolved] && tokens == ["FINISH", "COLOR"]
    ensures forall t :: t in tokens ==> FindResolved(rs, t).Some?
    ensures UnresolvedTokens(tokens, rs) == []
    ensures ReferencedPrefs(tokens, rs) == [FinishResolved, ColorResolved]
    ensures CandidateLists(ReferencedPrefs(tokens, rs)) == [FinishResolved.optionIds, ColorResolved.optionIds]
    ensures InitialValues(ReferencedPrefs(tokens, rs)) == [FinishResolved.initialValue, ColorResolved.initialValue]
  {
    UpperIds();
    assert rs[..1] == [ColorResolved];
    assert FindResolved(rs, "FINISH") == Some(FinishResolved);
    assert FindResolved(rs, "COLOR") == Some(ColorResolved);
    assert tokens[1..] == ["COLOR"] && tokens[1..][1..] == [];
  }

  /** After `color` and `finish`, `paint` resolves both placeholders and expands to the six ids. */
  lemma PaintExpansion(st: BuildState, p: PrefDefinition)
    requires st.resolved == [ColorResolved, FinishResolved] && p.optionsSource == PaintTemplate
    ensures BadTokens(st, p) == []
    ensures PrefOptionsSetIds(st, p) == PaintIds
    ensures InitialOptionsSetId(st, p) == PaintSetId("eggshell", "blue")
  {
    var tokens := ExtractTokens(p.optionsSource);
    PaintTemplateTokens(p.optionsSource);
    PaintReferences(st.resolved, tokens);
    var refs := ReferencedPrefs(tokens, st.resolved);
    var lists := CandidateLists(refs);
    var f0, f1, f2, c0, c1 := "matte", "eggshell", "gloss", "blue", "red";
    assert lists == [[f0, f1, f2], [c0, c1]];
    CrossProductOfTwo(f0, f1, f2, c0, c1);
    var sep, tail := '_', "_paint_options";
    assert [sep] == "_";
    TemplateKeys(p.optionsSource, tokens, "FINISH", sep, "COLOR", tail, f0, f1, f2, c0, c1);
    assert InitialValues(refs) == [f1, c0];
    TemplateKey(p.optionsSource, tokens, "FINISH", sep, "COLOR", tail, f1, c0);
  }

  // ---------------------------------------------------------------------
  // Looking the six ids up
  // ---------------------------------------------------------------------

  /** The defaults a list of ids resolves to, given the defaults of the ids the library has. */
  lemma ResolveDefaults(keys: seq<string>, lib: PrefOptionsConfig, defaults: map<string, string>)
    requires forall k :: k in defaults <==> k in keys && k in lib
    requires forall k :: k in defaults ==> DefaultOf(lib[k]) == Some(defaults[k])
    ensures Resolve(keys, lib).defaults == defaults
  {
    var r := Resolve(keys, lib);
    forall k | k in defaults ensures k in r.defaults && r.defaults[k] == defaults[k] {
      assert k in r.sets;
    }
    forall k | k in r.defaults ensures k in defaults {
      assert k in r.sets;
    }
  }

  /** The sets a list of ids resolves to. */
  lemma ResolveSets(keys: seq<string>, lib: PrefOptionsConfig, sets: map<string, OptionSet>)
    requires forall k :: k in sets <==> k in keys && k in lib
    requires forall k :: k in sets ==> sets[k] == lib[k]
    ensures Resolve(keys, lib).sets == sets
  {
  }

  /** A list whose every id the library has resolves without error. */
  lemma ResolveNoErrors(keys: seq<string>, lib: PrefOptionsConfig)
    requires forall k :: k in keys ==> k in lib
    ensures Resolve(keys, lib).errors == []
  {
    assert CountFound(keys, lib) == |keys|;
  }

  /** A list of distinct ids of which the library lacks exactly one finds all the others. */
  lemma {:induction false} CountFoundOneMissing(keys: seq<string>, lib: PrefOptionsConfig, missing: string)
    requires NoDuplicates(keys) && missing in keys && missing !in lib
    requires forall k :: k in keys && k != missing ==> k in lib
    ensures CountFound(keys, lib) == |keys| - 1
    decreases |keys|
  {
    var rest := keys[1..];
    assert NoDuplicates(rest);
    if keys[0] == missing {
      forall k | k in rest ensures k in lib {
        var i :| 0 <= i < |rest| && rest[i] == k;
        assert keys[i + 1] == k;
      }
    } else {
      CountFoundOneMissing(rest, lib, missing);
    }
  }

  /** A list of distinct ids of which the library lacks exactly one gets exactly that one error. */
  lemma ResolveOneMissing(keys: seq<string>, lib: PrefOptionsConfig, missing: string)
    requires NoDuplicates(keys) && missing in keys && missing !in lib
    requires forall k :: k in keys && k != missing ==> k in lib
    ensures Resolve(keys, lib).errors == [InvalidOptionsSourceError(missing)]
  {
    CountFoundOneMissing(keys, lib, missing);
    var es := Resolve(keys, lib).errors;
    assert |es| == 1;
    assert es[0] in es;
  }

  /** The six ids are distinct. */
  lemma PaintIdsDistinct(keys: seq<string>)
    requires keys == PaintIds
    ensures NoDuplicates(keys)
  {
    PaintSetIdChars("matte", "blue");
    PaintSetIdChars("matte", "red");
    PaintSetIdChars("eggshell", "blue");
    PaintSetIdChars("eggshell", "red");
    PaintSetIdChars("gloss", "blue");
    PaintSetIdChars("gloss", "red");
  }

  /** The first character of a paint set id is the finish's, the one after the `_` the color's. */
  lemma PaintSetIdChars(f: string, c: string)
    requires f != [] && c != []
    ensures |PaintSetId(f, c)| == |f| + |c| + 15
    ensures PaintSetId(f, c)[0] == f[0] && PaintSetId(f, c)[|f| + 1] == c[0]
  {
  }

  /** With distinct ids, `SixMap` has exactly those ids and sends each to its own value. */
  lemma SixMapLookups<V>(ks: seq<string>, vs: seq<V>)
    requires |ks| == 6 && |vs| == 6 && NoDuplicates(ks)
    ensures forall k :: k in SixMap(ks, vs) <==> k in ks
    ensures forall i :: 0 <= i < 6 ==> SixMap(ks, vs)[ks[i]] == vs[i]
  {
    var m := SixMap(ks, vs);
    forall k ensures k in m <==> k in ks {
      if k in ks {
        var i :| 0 <= i < 6 && ks[i] == k;
        assert k in m;
      }
    }
  }

  /**
   * Six distinct ids, all in the library with sets whose defaults are
   * `ds`, resolve to those sets and defaults without error.
   */
  lemma ResolveSix(ks: seq<string>, sets: seq<OptionSet>, ds: seq<string>, base: PrefOptionsConfig)
    requires |ks| == 6 && |sets| == 6 && |ds| == 6 && NoDuplicates(ks)
    requires forall i :: 0 <= i < 6 ==> DefaultOf(sets[i]) == Some(ds[i])
    ensures Resolve(ks, base + SixMap(ks, sets)) == Resolution(SixMap(ks, ds), SixMap(ks, sets), [])
  {
    var lib := base + SixMap(ks, sets);
    SixMapLookups(ks, sets);
    SixMapLookups(ks, ds);
    forall k | k in SixMap(ks, ds) ensures DefaultOf(lib[k]) == Some(SixMap(ks, ds)[k]) {
      var i :| 0 <= i < 6 && ks[i] == k;
    }
    ResolveDefaults(ks, lib, SixMap(ks, ds));
    ResolveSets(ks, lib, SixMap(ks, sets));
    ResolveNoErrors(ks, lib);
  }

  /** Removing the first id's set leaves the library with exactly the other five ids of `ks`. */
  lemma SixButFirstMembers<V>(ks: seq<string>, sets: seq<OptionSet>, ds: seq<V>, base: PrefOptionsConfig)
    requires |ks| == 6 && |sets| == 6 && |ds| == 6 && NoDuplicates(ks) && ks[0] !in base
    ensures forall k :: k in SixMap(ks, ds) - {ks[0]} <==> k in ks && k in base + (SixMap(ks, sets) - {ks[0]})
    ensures forall k :: k in ks && k != ks[0] ==> k in base + (SixMap(ks, sets) - {ks[0]})
  {
    SixMapLookups(ks, sets);
    SixMapLookups(ks, ds);
  }

  /** After the removal each of the other five ids still names its set, with its default. */
  lemma SixButFirstDefaults(ks: seq<string>, sets: seq<OptionSet>, ds: seq<string>, base: PrefOptionsConfig)
    requires |ks| == 6 && |sets| == 6 && |ds| == 6 && NoDuplicates(ks)
    requires forall i :: 0 <= i < 6 ==> DefaultOf(sets[i]) == Some(ds[i])
    ensures forall k :: k in SixMap(ks, sets) - {ks[0]} ==>
              (base + (SixMap(ks, sets) - {ks[0]}))[k] == SixMap(ks, sets)[k]
    ensures forall k :: k in SixMap(ks, ds) - {ks[0]} ==>
              DefaultOf((base + (SixMap(ks, sets) - {ks[0]}))[k]) == Some((SixMap(ks, ds) - {ks[0]})[k])
  {
    SixMapLookups(ks, sets);
    SixMapLookups(ks, ds);
    forall k | k in SixMap(ks, ds) - {ks[0]}
      ensures DefaultOf((base + (SixMap(ks, sets) - {ks[0]}))[k]) == Some((SixMap(ks, ds) - {ks[0]})[k])
    {
      var i :| 0 <= i < 6 && ks[i] == k;
    }
  }

  /**
   * The same ids with the first one's set removed from the library: the
   * other five resolve as before and the first gives the one error.
   */
  lemma ResolveSixButFirst(ks: seq<string>, sets: seq<OptionSet>, ds: seq<string>, base: PrefOptionsConfig)
    requires |ks| == 6 && |sets| == 6 && |ds| == 6 && NoDuplicates(ks) && ks[0] !in base
    requires forall i :: 0 <= i < 6 ==> DefaultOf(sets[i]) == Some(ds[i])
    ensures Resolve(ks, base + (SixMap(ks, sets) - {ks[0]}))
            == Resolution(SixMap(ks, ds) - {ks[0]}, SixMap(ks, sets) - {ks[0]}, [InvalidOptionsSourceError(ks[0])])
  {
    var lib := base + (SixMap(ks, sets) - {ks[0]});
    var dm := SixMap(ks, ds) - {ks[0]};
    var sm := SixMap(ks, sets) - {ks[0]};
    SixButFirstMembers(ks, sets, ds, base);
    SixButFirstMembers(ks, sets, sets, base);
    SixButFirstDefaults(ks, sets, ds, base);
    ResolveDefaults(ks, lib, dm);
    ResolveSets(ks, lib, sm);
    ResolveOneMissing(ks, lib, ks[0]);
  }

  /** The default of each paint set, in the order of `PaintIds`. */
  lemma PaintSetsDefaults(sets: seq<OptionSet>, ds: seq<string>)
    requires sets == PaintSetList && ds == PaintDefaultList
    ensures |sets| == 6 && |ds| == 6
    ensures forall i :: 0 <= i < 6 ==> DefaultOf(sets[i]) == Some(ds[i])
  {
    assert DefaultOf(MatteBlue) == Some("powder_blue") && DefaultOf(MatteRed) == Some("brick");
    assert DefaultOf(EggshellBlue) == Some("elegant_royal") && DefaultOf(EggshellRed) == Some("rose");
    assert DefaultOf(GlossBlue) == Some("sky_blue") && DefaultOf(GlossRed) == Some("fire_engine");
  }

  /** The six ids against the complete library. */
  lemma PaintResolution(keys: seq<string>, lib: PrefOptionsConfig)
    requires keys == PaintIds && lib == PaintLibrary
    ensures Resolve(keys, lib) == Resolution(PaintDefaults, PaintSets, [])
  {
    PaintIdsDistinct(keys);
    PaintSetsDefaults(PaintSetList, PaintDefaultList);
    ResolveSix(keys, PaintSetList, PaintDefaultList, TwoSets);
  }

  /** The six ids against the library without `matte_blue_paint_options`. */
  lemma MissingResolution(keys: seq<string>, lib: PrefOptionsConfig)
    requires keys == PaintIds && lib == LibraryMissingMatteBlue
    ensures Resolve(keys, lib)
            == Resolution(MissingMatteBlueDefaults, MissingSets, [InvalidOptionsSourceError(PaintSetId("matte", "blue"))])
  {
    PaintIdsDistinct(keys);
    PaintSetsDefaults(PaintSetList, PaintDefaultList);
    PaintSetIdChars("matte", "blue");
    assert keys[0] !in TwoSets;
    ResolveSixButFirst(keys, PaintSetList, PaintDefaultList, TwoSets);
  }

  // ---------------------------------------------------------------------
  // The three tests
  // ---------------------------------------------------------------------

  /** Every paint set id is longer than twenty characters. */
  lemma PaintIdLengths(keys: seq<string>)
    requires keys == PaintIds
    ensures |keys| == 6 && forall i :: 0 <= i < 6 ==> |keys[i]| > 20
  {
    PaintSetIdChars("matte", "blue");
    PaintSetIdChars("matte", "red");
    PaintSetIdChars("eggshell", "blue");
    PaintSetIdChars("eggshell", "red");
    PaintSetIdChars("gloss", "blue");
    PaintSetIdChars("gloss", "red");
  }

  /** An id shorter than all six keys of a `SixMap` is not one of them. */
  lemma ShortKeyNotInSixMap<V>(k: string, ks: seq<string>, vs: seq<V>)
    requires |ks| == 6 && |vs| == 6 && forall i :: 0 <= i < 6 ==> |k| < |ks[i]|
    ensures k !in SixMap(ks, vs)
  {
  }

  /** `color_options` and `finish_options` are no paint set id, so both libraries keep them from `TwoSets`. */
  lemma TwoSetsKept(lib: PrefOptionsConfig, sets: PrefOptionsConfig)
    requires sets == PaintSets || sets == MissingSets
    requires lib == TwoSets + sets
    ensures "color_options" in lib && lib["color_options"] == ColorOptions
    ensures "finish_options" in lib && lib["finish_options"] == FinishOptions
  {
    PaintIdLengths(PaintIds);
    ShortKeyNotInSixMap("color_options", PaintIds, PaintSetList);
    ShortKeyNotInSixMap("finish_options", PaintIds, PaintSetList);
  }

  /**
   * A templated step whose ids resolve to `res` and whose all-initial-values
   * id has default `d`: the entry holds the resolved defaults with `d` as
   * initial value; the resolved sets are added and the errors appended.
   */
  lemma TemplatedStepManifest(st: BuildState, p: PrefDefinition, lib: PrefOptionsConfig,
                              keys: seq<string>, k0: string, res: Resolution, d: string)
    requires BadTokens(st, p) == [] && PrefOptionsSetIds(st, p) == keys && InitialOptionsSetId(st, p) == k0
    requires Resolve(keys, lib) == res && k0 in res.defaults && res.defaults[k0] == d
    ensures Step(st, p, lib).manifest == PagePrefsManifest(
      st.manifest.prefsById[p.id := PrefManifestEntry(p, Some(d), res.defaults)],
      st.manifest.optionSetsById + res.sets,
      st.manifest.errors + res.errors)
  {
    assert Step(st, p, lib) == Apply(st, p, Expand(st, p, lib));
  }

  /** `paint` after `color` and `finish`, on a library where its six ids resolve to `res`. */
  lemma PaintStep(st: BuildState, p: PrefDefinition, lib: PrefOptionsConfig, res: Resolution, d: string)
    requires st.resolved == [ColorResolved, FinishResolved] && p.optionsSource == PaintTemplate
    requires Resolve(PaintIds, lib) == res
    requires PaintSetId("eggshell", "blue") in res.defaults && res.defaults[PaintSetId("eggshell", "blue")] == d
    ensures Step(st, p, lib).manifest == PagePrefsManifest(
      st.manifest.prefsById[p.id := PrefManifestEntry(p, Some(d), res.defaults)],
      st.manifest.optionSetsById + res.sets,
      st.manifest.errors + res.errors)
  {
    PaintExpansion(st, p);
    TemplatedStepManifest(st, p, lib, PaintIds, PaintSetId("eggshell", "blue"), res, d);
  }

  /** The three declarations run as `color`, `finish`, then `paint` on the two-preference state. */
  lemma ThreePrefs(prefs: seq<PrefDefinition>, p: PrefDefinition, lib: PrefOptionsConfig)
    requires prefs == [Color, Finish, p]
    requires "color_options" in lib && lib["color_options"] == ColorOptions
    requires "finish_options" in lib && lib["finish_options"] == FinishOptions
    ensures BuildPagePrefsManifest(prefs, lib) == Step(TwoPrefsState, p, lib).manifest
  {
    assert prefs[..2] == [Color, Finish];
    TwoPrefs(prefs[..2], lib);
  }

  /** `paint` on the two-preference state. */
  lemma PaintAfterTwo(st: BuildState, p: PrefDefinition, lib: PrefOptionsConfig, res: Resolution, d: string)
    requires "color_options" in lib && lib["color_options"] == ColorOptions
    requires "finish_options" in lib && lib["finish_options"] == FinishOptions
    requires st == TwoPrefsState && p.optionsSource == PaintTemplate
    requires Resolve(PaintIds, lib) == res
    requires PaintSetId("eggshell", "blue") in res.defaults && res.defaults[PaintSetId("eggshell", "blue")] == d
    ensures Step(st, p, lib).manifest == PagePrefsManifest(
      TwoPrefsState.manifest.prefsById[p.id := PrefManifestEntry(p, Some(d), res.defaults)],
      TwoSets + res.sets,
      res.errors)
  {
    PaintStep(st, p, lib, res, d);
  }

  /**
   * The paint page on any library that has the color and finish sets and
   * in which `eggshell_blue_paint_options` is found with a default `d`:
   * the `paint` entry has initial value `d` and holds what the six ids
   * resolve to, and the manifest has the two sets, the resolved ones and
   * only the resolution's errors.
   */
  lemma PaintPage(prefs: seq<PrefDefinition>, p: PrefDefinition, lib: PrefOptionsConfig, res: Resolution, d: string)
    requires prefs == [Color, Finish, p] && p.optionsSource == PaintTemplate
    requires "color_options" in lib && lib["color_options"] == ColorOptions
    requires "finish_options" in lib && lib["finish_options"] == FinishOptions
    requires Resolve(PaintIds, lib) == res
    requires PaintSetId("eggshell", "blue") in res.defaults && res.defaults[PaintSetId("eggshell", "blue")] == d
    ensures BuildPagePrefsManifest(prefs, lib) == PagePrefsManifest(
      TwoPrefsState.manifest.prefsById[p.id := PrefManifestEntry(p, Some(d), res.defaults)],
      TwoSets + res.sets,
      res.errors)
  {
    ThreePrefs(prefs, p, lib);
    PaintAfterTwo(TwoPrefsState, p, lib, res, d);
  }

  /** The first test: the complete library gives exactly the manifest the test expects. */
  lemma PaintColorsManifest(prefs: seq<PrefDefinition>, lib: PrefOptionsConfig)
    requires prefs == [Color, Finish, Paint] && lib == PaintLibrary
    ensures BuildPagePrefsManifest(prefs, lib) == ExpectedManifest
  {
    CompleteLibraryFacts(lib);
    PaintPage(prefs, Paint, lib, Resolution(PaintDefaults, PaintSets, []), "elegant_royal");
  }

  /** What the paint page needs of the complete library. */
  lemma CompleteLibraryFacts(lib: PrefOptionsConfig)
    requires lib == PaintLibrary
    ensures "color_options" in lib && lib["color_options"] == ColorOptions
    ensures "finish_options" in lib && lib["finish_options"] == FinishOptions
    ensures Resolve(PaintIds, lib) == Resolution(PaintDefaults, PaintSets, [])
    ensures PaintSetId("eggshell", "blue") in PaintDefaults && PaintDefaults[PaintSetId("eggshell", "blue")] == "elegant_royal"
  {
    TwoSetsKept(lib, PaintSets);
    PaintResolution(PaintIds, lib);
    PaintIdsDistinct(PaintIds);
    SixMapLookups(PaintIds, PaintDefaultList);
  }

  /** Every "Invalid options source" error starts with the text the tests look for. */
  lemma OptionsSourceErrorText(k: string)
    ensures StartsWith(InvalidOptionsSourceError(k), "Invalid options source:")
  {
    var e := InvalidOptionsSourceError(k);
    assert e[..|"Invalid options source:"|] == "Invalid options source:";
  }

  /** The initial value of `paint` survives the removal of `matte_blue_paint_options`. */
  lemma MissingKeepsInitial(keys: seq<string>)
    requires keys == PaintIds
    ensures keys[2] in MissingMatteBlueDefaults && MissingMatteBlueDefaults[keys[2]] == "elegant_royal"
  {
    PaintIdsDistinct(keys);
    SixMapLookups(keys, PaintDefaultList);
    assert keys[2] != keys[0];
  }

  /**
   * The nonexistent-options-source test: exactly one error, the "Invalid
   * options source" error of `matte_blue_paint_options`; `paint` keeps the
   * other five defaults and its initial value.
   */
  lemma MissingOptionsSource(prefs: seq<PrefDefinition>, lib: PrefOptionsConfig)
    requires prefs == [Color, Finish, Paint] && lib == LibraryMissingMatteBlue
    ensures BuildPagePrefsManifest(prefs, lib) == PagePrefsManifest(
      TwoEntries["paint" := PrefManifestEntry(Paint, Some("elegant_royal"), MissingMatteBlueDefaults)],
      LibraryMissingMatteBlue,
      [InvalidOptionsSourceError(PaintSetId("matte", "blue"))])
  {
    MissingLibraryFacts(lib);
    var e := InvalidOptionsSourceError(PaintSetId("matte", "blue"));
    PaintPage(prefs, Paint, lib, Resolution(MissingMatteBlueDefaults, MissingSets, [e]), "elegant_royal");
  }

  /** What the paint page needs of the library without `matte_blue_paint_options`. */
  lemma MissingLibraryFacts(lib: PrefOptionsConfig)
    requires lib == LibraryMissingMatteBlue
    ensures "color_options" in lib && lib["color_options"] == ColorOptions
    ensures "finish_options" in lib && lib["finish_options"] == FinishOptions
    ensures Resolve(PaintIds, lib)
            == Resolution(MissingMatteBlueDefaults, MissingSets, [InvalidOptionsSourceError(PaintSetId("matte", "blue"))])
    ensures PaintSetId("eggshell", "blue") in MissingMatteBlueDefaults
    ensures MissingMatteBlueDefaults[PaintSetId("eggshell", "blue")] == "elegant_royal"
  {
    TwoSetsKept(lib, MissingSets);
    MissingResolution(PaintIds, lib);
    MissingKeepsInitial(PaintIds);
  }

  /** What the test checks: one error, and it is an "Invalid options source" error. */
  lemma MissingOptionsSourceErrors(prefs: seq<PrefDefinition>, lib: PrefOptionsConfig)
    requires prefs == [Color, Finish, Paint] && lib == LibraryMissingMatteBlue
    ensures |BuildPagePrefsManifest(prefs, lib).errors| == 1
    ensures StartsWith(BuildPagePrefsManifest(prefs, lib).errors[0], "Invalid options source:")
  {
    MissingOptionsSource(prefs, lib);
    OptionsSourceErrorText(PaintSetId("matte", "blue"));
  }

  /** The misspelt template has the two placeholders FINISH and COLOUR, in that order. */
  lemma TypoTemplateTokens(s: string)
    requires s == TypoTemplate
    ensures ExtractTokens(s) == ["FINISH", "COLOUR"]
  {
    TwoPlaceholderTemplate(s, "FINISH", '_', "COLOUR", "_paint_options");
  }

  /** Of FINISH and COLOUR only COLOUR names no earlier preference. */
  lemma TypoReferences(rs: seq<ResolvedPref>, tokens: seq<string>)
    requires rs == [ColorResolved, FinishResolved] && tokens == ["FINISH", "COLOUR"]
    ensures UnresolvedTokens(tokens, rs) == ["COLOUR"]
  {
    UpperIds();
    assert rs[..1] == [ColorResolved] && rs[..1][..0] == [];
    assert FindResolved(rs, "FINISH") == Some(FinishResolved);
    assert FindResolved(rs, "COLOUR") == None;
    assert tokens[1..] == ["COLOUR"] && tokens[1..][1..] == [];
  }

  /** After `color` and `finish`, the misspelt `paint` has the one bad placeholder COLOUR. */
  lemma TypoTokens(st: BuildState, p: PrefDefinition)
    requires st.resolved == [ColorResolved, FinishResolved] && p.optionsSource == TypoTemplate
    ensures BadTokens(st, p) == ["COLOUR"]
  {
    TypoTemplateTokens(p.optionsSource);
    TypoReferences(st.resolved, ExtractTokens(p.optionsSource));
  }

  /**
   * The invalid-placeholder test: `paint` gets no entry, no set is added
   * for it, and the manifest has exactly the "Invalid placeholder" error of
   * `COLOUR`.
   */
  lemma InvalidPlaceholder(prefs: seq<PrefDefinition>, lib: PrefOptionsConfig)
    requires prefs == [Color, Finish, PaintTypo] && lib == PaintLibrary
    ensures BuildPagePrefsManifest(prefs, lib) == PagePrefsManifest(TwoEntries, TwoSets, [InvalidPlaceholderError("COLOUR")])
  {
    TwoSetsKept(lib, PaintSets);
    ThreePrefs(prefs, PaintTypo, lib);
    var st := TwoPrefsState;
    TypoTokens(st, PaintTypo);
    assert Step(st, PaintTypo, lib) == Skip(st, ["COLOUR"]);
    assert PlaceholderErrors(["COLOUR"]) == [InvalidPlaceholderError("COLOUR")];
  }

  /** Every "Invalid placeholder" error starts with the text the test looks for. */
  lemma PlaceholderErrorText(t: string)
    ensures StartsWith(InvalidPlaceholderError(t), "Invalid placeholder:")
  {
    var e := InvalidPlaceholderError(t);
    assert e[..|"Invalid placeholder:"|] == "Invalid placeholder:";
  }

  /** What the test checks: one error, an "Invalid placeholder" error; and `paint` has no entry. */
  lemma InvalidPlaceholderErrors(prefs: seq<PrefDefinition>, lib: PrefOptionsConfig)
    requires prefs == [Color, Finish, PaintTypo] && lib == PaintLibrary
    ensures |BuildPagePrefsManifest(prefs, lib).errors| == 1
    ensures StartsWith(BuildPagePrefsManifest(prefs, lib).errors[0], "Invalid placeholder:")
    ensures "paint" !in BuildPagePrefsManifest(prefs, lib).prefsById
  {
    InvalidPlaceholder(prefs, lib);
    PlaceholderErrorText("COLOUR");
  }
}
