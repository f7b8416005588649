# Markdoc/Hugo integration: page-preference manifest and compilation pass

This project models two pieces of the Markdoc/Hugo integration, which
compiles Markdoc pages with reader-selectable preferences into HTML for a
Hugo site.

**The page-preference manifest builder**, `YamlConfigParser.buildPagePrefsManifest`.
A page declares an ordered list of preferences. Each preference names an
options source. The source is either the id of an option set in the loaded
library (`color_options`) or a template whose placeholders name earlier
preferences by their upper-cased ids (`<FINISH>_<COLOR>_paint_options`).

The builder expands each template over every combination of the
referenced preferences' option ids. It looks every resulting id up in the
library and records, for the preference:
- the default option of every set it finds;
- its initial value, which is the default of the set named by the
  all-initial-values combination.

Unknown placeholders and missing option sets become entries of `errors`;
nothing is thrown. The builder's own source file is not part of this
model. It is modelled from its test file, and the named scenarios of that
file are proved as lemmas about the model.

**The compilation pass**, `MarkdocHugoIntegration.compile()` and
`hasErrors()`. The pass visits every `.mdoc` file found in the content
directory. Provided none of the library calls made for a file throws
outside the validation `try` (see "Left out"), each file ends in exactly
one of four places, and the first check it fails decides which:
- its parse error reports are recorded by file path;
- the value thrown by placeholder validation is recorded as its validation
  error;
- the variable ids its tree references that are no page preference id are
  recorded in a validation error;
- or it is written to the same path with `.mdoc` replaced by `.html`.

The library calls made for one file (parsing, placeholder validation,
default values, transformation, variable collection) are given to the
model as that file's `FileOutcome`.

Modules:
- `Common` (`common.dfy`): Option, string predicates, duplicate removal,
  and the comma join JavaScript applies to an array in a template literal.
- `Placeholders` (`placeholders.dfy`): placeholder scanning, substitution,
  and the Cartesian product of candidate lists.
- `YamlConfigParser` (`yaml_config_parser.dfy`): the manifest builder and
  its general properties.
- `PaintColorsScenario` (`paint_colors_scenario.dfy`): the three tests of
  the builder, each proved as an equality or a property of the builder's
  result.
- `Integration` (`markdoc_hugo_integration.dfy`): the per-file routing, the
  `MarkdocHugoIntegration` class with its `Compile` loop, and the
  properties of a whole pass.

## Model

| member | source | states |
|---|---|---|
| `Common.JoinWithCommas` | markdoc/markdoc-hugo-integration/src/MarkdocHugoIntegration.ts:97 | An array in a template literal: empty gives the empty string, and one element gives that element |
| `Common.JoinWithCommasSnoc` | markdoc/markdoc-hugo-integration/src/MarkdocHugoIntegration.ts:97 | Joining one more element appends a comma and that element |
| `Common.SplitJoin` | markdoc/markdoc-hugo-integration/src/MarkdocHugoIntegration.ts:97 | The join is invertible: splitting it at commas gives back a non-empty list of comma-free elements |
| `Placeholders.LeadingToken` | markdoc/markdoc-hugo-integration/test/helperModules/YamlConfigParser/buildPagePrefsManifest.test.ts:36 | A placeholder found at the start of a string is a valid name, and the string starts with `<`, that name and `>` |
| `Placeholders.LeadingTokenFinds` | markdoc/markdoc-hugo-integration/test/helperModules/YamlConfigParser/buildPagePrefsManifest.test.ts:36 | Conversely, a string that starts with `<name>` yields that name |
| `Placeholders.UpperHasNoLowerCase` | markdoc/markdoc-hugo-integration/test/helperModules/YamlConfigParser/buildPagePrefsManifest.test.ts:36 | An upper-cased preference id has no letter in `a`–`z` left |
| `Placeholders.UpperIdempotent` | markdoc/markdoc-hugo-integration/test/helperModules/YamlConfigParser/buildPagePrefsManifest.test.ts:36 | Upper-casing twice is upper-casing once |
| `Placeholders.Occurrences` | markdoc/markdoc-hugo-integration/test/helperModules/YamlConfigParser/buildPagePrefsManifest.test.ts:36 | Every placeholder occurrence found by the scan of a template is a valid placeholder name |
| `Placeholders.ExtractTokens` | markdoc/markdoc-hugo-integration/test/helperModules/YamlConfigParser/buildPagePrefsManifest.test.ts:36 | The names the scan finds, without repeats, each a valid name |
| `Placeholders.OccurrencesInText` | markdoc/markdoc-hugo-integration/test/helperModules/YamlConfigParser/buildPagePrefsManifest.test.ts:36 | Each name the scan finds is a valid name that occurs in the template as `<`, the name and `>` |
| `Placeholders.TextInOccurrences` | markdoc/markdoc-hugo-integration/test/helperModules/YamlConfigParser/buildPagePrefsManifest.test.ts:36 | Each valid name that occurs in the template as `<name>` is found by the scan |
| `Placeholders.ExtractTokensOfText` | markdoc/markdoc-hugo-integration/test/helperModules/YamlConfigParser/buildPagePrefsManifest.test.ts:36 | A name is a placeholder of the template exactly when it is a valid name and `<name>` occurs somewhere in the template text |
| `Placeholders.OccurrencesNoAngle` | markdoc/markdoc-hugo-integration/test/helperModules/YamlConfigParser/buildPagePrefsManifest.test.ts:19 | A literal options source such as `color_options` holds no placeholder |
| `Placeholders.SubstituteUnbound` | markdoc/markdoc-hugo-integration/test/helperModules/YamlConfigParser/buildPagePrefsManifest.test.ts:19 | A template none of whose placeholders is bound comes back unchanged |
| `Placeholders.Substitute` | markdoc/markdoc-hugo-integration/test/helperModules/YamlConfigParser/buildPagePrefsManifest.test.ts:36-46 | Replaces each bound placeholder by its value and keeps all other text; its meaning is given by `SubstituteUnbound`, `SubstituteNoAngle`, `SubstituteLeading` and `TwoPlaceholderSubstitute` |
| `Placeholders.SubstituteNoAngle` | markdoc/markdoc-hugo-integration/test/helperModules/YamlConfigParser/buildPagePrefsManifest.test.ts:27 | Substitution leaves a literal options source unchanged |
| `Placeholders.SubstituteLeading` | markdoc/markdoc-hugo-integration/test/helperModules/YamlConfigParser/buildPagePrefsManifest.test.ts:36-40 | A bound placeholder at the start of a template is replaced by its value and substitution continues on the rest |
| `Placeholders.OccurrencesLeading` | markdoc/markdoc-hugo-integration/test/helperModules/YamlConfigParser/buildPagePrefsManifest.test.ts:36 | A placeholder at the start of a template is its first occurrence |
| `Placeholders.TwoPlaceholderTemplate` | markdoc/markdoc-hugo-integration/test/helperModules/YamlConfigParser/buildPagePrefsManifest.test.ts:36 | A template of two distinct placeholders around a separator, then literal text, has exactly those two placeholders, in order |
| `Placeholders.TwoPlaceholderSubstitute` | markdoc/markdoc-hugo-integration/test/helperModules/YamlConfigParser/buildPagePrefsManifest.test.ts:36-46 | Substituting into such a template yields the first value, the separator, the second value and the literal tail |
| `Placeholders.Bind` | markdoc/markdoc-hugo-integration/test/helperModules/YamlConfigParser/buildPagePrefsManifest.test.ts:38-46 | The bindings of one combination: exactly the template's placeholders, each bound to the value at its position |
| `Placeholders.PrependAll` | markdoc/markdoc-hugo-integration/test/helperModules/YamlConfigParser/buildPagePrefsManifest.test.ts:39-46 | Every candidate of the first list in front of every combination of the rest: the product of the counts, and exactly those combinations |
| `Placeholders.CrossProduct` | markdoc/markdoc-hugo-integration/test/helperModules/YamlConfigParser/buildPagePrefsManifest.test.ts:39-46 | The combinations number the product of the list lengths; each picks one candidate per list, and every such pick is enumerated |
| `YamlConfigParser.DefaultOf` | markdoc/markdoc-hugo-integration/test/helperModules/YamlConfigParser/buildPagePrefsManifest.test.ts:50-58 | The option marked `default: true`: the id of such an option when there is one, none exactly when no option is marked |
| `YamlConfigParser.DefaultOfUnique` | markdoc/markdoc-hugo-integration/test/helperModules/YamlConfigParser/buildPagePrefsManifest.test.ts:20-21 | In a set with exactly one default option, that option's id is the set's default |
| `YamlConfigParser.DefaultIsAnOption` | markdoc/markdoc-hugo-integration/test/helperModules/YamlConfigParser/buildPagePrefsManifest.test.ts:20-21 | A set's default is one of its option ids |
| `YamlConfigParser.ResolveOneSets` | markdoc/markdoc-hugo-integration/test/helperModules/YamlConfigParser/buildPagePrefsManifest.test.ts:39-81 | Looking one more id up keeps the sets copied from the library unchanged and keeps each recorded default that set's default |
| `YamlConfigParser.ResolveOneErrors` | markdoc/markdoc-hugo-integration/test/helperModules/YamlConfigParser/buildPagePrefsManifest.test.ts:134-167 | Looking one more id up adds one "Invalid options source" error exactly when the library lacks that id |
| `YamlConfigParser.Resolve` | markdoc/markdoc-hugo-integration/test/helperModules/YamlConfigParser/buildPagePrefsManifest.test.ts:39-81 | Each expanded id the library has contributes its set unchanged and its default; each other id contributes one "Invalid options source" error naming it, and nothing else contributes an error |
| `YamlConfigParser.ResolveErrorsInOrder` | markdoc/markdoc-hugo-integration/test/helperModules/YamlConfigParser/buildPagePrefsManifest.test.ts:134-167 | The errors of a resolution are one "Invalid options source" error per id the library lacks, in the order of the ids |
| `YamlConfigParser.OptionIdsOf` | markdoc/markdoc-hugo-integration/test/helperModules/YamlConfigParser/buildPagePrefsManifest.test.ts:50-58 | The option ids a resolved preference can take: those of all its sets, without repeats |
| `YamlConfigParser.FindResolved` | markdoc/markdoc-hugo-integration/test/helperModules/YamlConfigParser/buildPagePrefsManifest.test.ts:36 | A placeholder refers to an earlier resolved preference whose upper-cased id equals it; none exactly when no such preference exists |
| `YamlConfigParser.FindResolvedLatest` | markdoc/markdoc-hugo-integration/test/helperModules/YamlConfigParser/buildPagePrefsManifest.test.ts:36 | When several earlier preferences match a placeholder, the one declared last is taken |
| `YamlConfigParser.UnresolvedTokens` | markdoc/markdoc-hugo-integration/test/helperModules/YamlConfigParser/buildPagePrefsManifest.test.ts:107 | The placeholders naming no earlier preference, exactly those, in their order |
| `YamlConfigParser.ReferencedPrefs` | markdoc/markdoc-hugo-integration/test/helperModules/YamlConfigParser/buildPagePrefsManifest.test.ts:36 | Each placeholder's preference, position by position, is one whose upper-cased id is the placeholder |
| `YamlConfigParser.StepInvalidPlaceholder` | markdoc/markdoc-hugo-integration/test/helperModules/YamlConfigParser/buildPagePrefsManifest.test.ts:89-121 | A preference with placeholders naming no earlier preference gets one "Invalid placeholder" error per such placeholder, appended; no entry, no set and no later reference is added, and nothing is thrown |
| `YamlConfigParser.StepLiteralSource` | markdoc/markdoc-hugo-integration/test/helperModules/YamlConfigParser/buildPagePrefsManifest.test.ts:18-31 | A source without placeholder gets one entry whose defaults map holds only the source, mapped to the set's default, which is also the initial value; the set is copied; if the library lacks it there is one "Invalid options source" error and no default |
| `YamlConfigParser.ResolveSingle` | markdoc/markdoc-hugo-integration/test/helperModules/YamlConfigParser/buildPagePrefsManifest.test.ts:19-21 | A single id resolves to its set and default when the library has it, otherwise to exactly one error |
| `YamlConfigParser.LiteralSourceKeys` | markdoc/markdoc-hugo-integration/test/helperModules/YamlConfigParser/buildPagePrefsManifest.test.ts:19-21 | A source without placeholder expands to itself alone, which is also its initial options-set id |
| `YamlConfigParser.StepTemplated` | markdoc/markdoc-hugo-integration/test/helperModules/YamlConfigParser/buildPagePrefsManifest.test.ts:32-47 | A template is expanded over the product of its references' option ids. Each substituted id in the library is mapped to that set's default and its set copied. Each other one gives an error, among the appended ones. The entry holds nothing else. The appended errors are exactly the "Invalid options source" errors of the combinations not found, in combination order. `optionSetsById` gains exactly the sets found, and no other entry of `prefsById` changes. The table of resolved preferences gains the preference, with the option ids of all its found sets and its initial value, exactly when its initial options set is expanded, found and has a default; otherwise it is unchanged |
| `YamlConfigParser.StepTemplatedFrame` | markdoc/markdoc-hugo-integration/test/helperModules/YamlConfigParser/buildPagePrefsManifest.test.ts:32-84 | After a templated step: the errors are the old ones followed by the missing-id errors of the expanded ids; the sets are the old ones plus the found ones; only the preference's own entry is added or replaced |
| `YamlConfigParser.StepTemplatedResolved` | markdoc/markdoc-hugo-integration/test/helperModules/YamlConfigParser/buildPagePrefsManifest.test.ts:32-48 | After a step without bad placeholders, a later template can refer to the preference exactly when its initial options set was expanded, found and has a default; it then offers the option ids of all the preference's found sets |
| `YamlConfigParser.ExpandedIdErrors` | markdoc/markdoc-hugo-integration/test/helperModules/YamlConfigParser/buildPagePrefsManifest.test.ts:134-167 | An error of an expansion is the "Invalid options source" error of some combination whose id the library lacks, and every such combination gives one |
| `YamlConfigParser.StepInitialValue` | markdoc/markdoc-hugo-integration/test/helperModules/YamlConfigParser/buildPagePrefsManifest.test.ts:38-42 | A templated preference's initial value is the default recorded for the id its references' initial values give, and that combination is among those enumerated. When the library has that set, the initial value is its default. The initial value is defined exactly when the library has the set and the set has a default |
| `YamlConfigParser.InitialContextEnumerated` | markdoc/markdoc-hugo-integration/test/helperModules/YamlConfigParser/buildPagePrefsManifest.test.ts:38-42 | The all-initial-values combination is a choice among the candidates and its id is one of the expanded ids |
| `YamlConfigParser.StepKeepsInvariant` | markdoc/markdoc-hugo-integration/test/helperModules/YamlConfigParser/buildPagePrefsManifest.test.ts:16-84 | One declaration keeps the manifest invariant (below) |
| `YamlConfigParser.ApplyKeepsInvariant` | markdoc/markdoc-hugo-integration/test/helperModules/YamlConfigParser/buildPagePrefsManifest.test.ts:16-84 | Recording an expanded preference keeps the manifest invariant |
| `YamlConfigParser.RunKeepsInvariant` | markdoc/markdoc-hugo-integration/test/helperModules/YamlConfigParser/buildPagePrefsManifest.test.ts:16-84 | After any declarations: every copied set is the library's, unchanged; every entry is keyed by its own id and holds a declaration of the page; every default is its set's default; every initial value is one of the entry's defaults; every error is an "Invalid placeholder" or an "Invalid options source" error |
| `YamlConfigParser.StepErrorsGrow` | markdoc/markdoc-hugo-integration/test/helperModules/YamlConfigParser/buildPagePrefsManifest.test.ts:83-86 | Errors are only appended, and a declaration adds none exactly when its placeholders resolve and all its expanded ids are found |
| `YamlConfigParser.NoErrorsIff` | markdoc/markdoc-hugo-integration/test/helperModules/YamlConfigParser/buildPagePrefsManifest.test.ts:83-86 | `errors` is empty exactly when every declaration, in its turn, resolves all its placeholders and finds all its expanded ids |
| `YamlConfigParser.StepEntryKeys` | markdoc/markdoc-hugo-integration/test/helperModules/YamlConfigParser/buildPagePrefsManifest.test.ts:17-48 | A declaration adds its own id to `prefsById` exactly when its placeholders resolve, and no other id |
| `YamlConfigParser.NoErrorsEveryPrefHasEntry` | markdoc/markdoc-hugo-integration/test/helperModules/YamlConfigParser/buildPagePrefsManifest.test.ts:16-48 | Without errors, every declared preference has an entry keyed by its id |
| `YamlConfigParser.Step` | markdoc/markdoc-hugo-integration/test/helperModules/YamlConfigParser/buildPagePrefsManifest.test.ts:16-48 | One declaration: skipped with one "Invalid placeholder" error per unresolved placeholder, or expanded, looked up and recorded. Its effect is stated by `StepInvalidPlaceholder`, `StepLiteralSource`, `StepTemplated`, `StepInitialValue` and `StepEntryKeys` |
| `YamlConfigParser.Run` | markdoc/markdoc-hugo-integration/test/helperModules/YamlConfigParser/buildPagePrefsManifest.test.ts:16-48 | The declarations in order, each on the state the earlier ones leave. `RunKeepsInvariant`, `NoErrorsIff` and `NoErrorsEveryPrefHasEntry` state what it keeps |
| `YamlConfigParser.BuildPagePrefsManifest` | markdoc/markdoc-hugo-integration/test/helperModules/YamlConfigParser/buildPagePrefsManifest.test.ts:11-15 | The manifest the pass over a page's declarations leaves; the three tests are proved of it in `PaintColorsScenario` |
| `PaintColorsScenario.LiteralPrefStep` | markdoc/markdoc-hugo-integration/test/helperModules/YamlConfigParser/buildPagePrefsManifest.test.ts:18-22 | For a source without `<` that the library has, whose set has a default `d` and distinct option ids: the whole next state is its entry with initial value `d`, its set, no new error, and a new reference offering those option ids with initial value `d` |
| `PaintColorsScenario.ColorAndFinishSets` | markdoc/markdoc-hugo-integration/test/helperModules/YamlConfigParser/buildPagePrefsManifest.test.ts:50-58 | `color_options` defaults to `blue`, `finish_options` to `eggshell`, and their option ids are distinct |
| `PaintColorsScenario.TwoPrefs` | markdoc/markdoc-hugo-integration/test/helperModules/YamlConfigParser/buildPagePrefsManifest.test.ts:17-31 | `color` then `finish`: both entries with initial values `blue` and `eggshell`, both sets, no error |
| `PaintColorsScenario.PaintTemplateTokens` | markdoc/markdoc-hugo-integration/test/helperModules/YamlConfigParser/buildPagePrefsManifest.test.ts:36 | The paint template's placeholders are `FINISH` then `COLOR` |
| `PaintColorsScenario.CrossProductOfTwo` | markdoc/markdoc-hugo-integration/test/helperModules/YamlConfigParser/buildPagePrefsManifest.test.ts:39-46 | Three finishes by two colors give the six combinations, finish varying slowest |
| `PaintColorsScenario.PaintReferences` | markdoc/markdoc-hugo-integration/test/helperModules/YamlConfigParser/buildPagePrefsManifest.test.ts:36-38 | Both placeholders resolve, to `finish` and to `color`, with their option ids as candidates and their initial values as initial combination |
| `PaintColorsScenario.PaintExpansion` | markdoc/markdoc-hugo-integration/test/helperModules/YamlConfigParser/buildPagePrefsManifest.test.ts:36-46 | After `color` and `finish`, `paint` expands to the six paint set ids, and its initial id is `eggshell_blue_paint_options` |
| `PaintColorsScenario.ResolveOneMissing` | markdoc/markdoc-hugo-integration/test/helperModules/YamlConfigParser/buildPagePrefsManifest.test.ts:134-138 | Distinct ids of which the library lacks exactly one give exactly that one error |
| `PaintColorsScenario.PaintResolution` | markdoc/markdoc-hugo-integration/test/helperModules/YamlConfigParser/buildPagePrefsManifest.test.ts:39-81 | The six ids against the complete library give the six defaults of lines 40-45, the six sets and no error |
| `PaintColorsScenario.MissingResolution` | markdoc/markdoc-hugo-integration/test/helperModules/YamlConfigParser/buildPagePrefsManifest.test.ts:134-138 | Without `matte_blue_paint_options`: the other five defaults and sets, and the one error naming the missing id |
| `PaintColorsScenario.PaintPage` | markdoc/markdoc-hugo-integration/test/helperModules/YamlConfigParser/buildPagePrefsManifest.test.ts:32-84 | For any library with the color and finish sets in which `eggshell_blue_paint_options` is found with a default `d`: the page's manifest holds the two entries, `paint` with initial value `d` and the defaults its six ids resolve to, the two sets plus the resolved ones, and only the resolution's errors |
| `PaintColorsScenario.PaintColorsManifest` | markdoc/markdoc-hugo-integration/test/helperModules/YamlConfigParser/buildPagePrefsManifest.test.ts:10-87 | With the complete library the builder returns exactly the expected manifest: three entries, eight sets, no error |
| `PaintColorsScenario.MissingOptionsSource` | markdoc/markdoc-hugo-integration/test/helperModules/YamlConfigParser/buildPagePrefsManifest.test.ts:123-168 | With `matte_blue_paint_options` omitted, the manifest is the expected one less that set and its default, with the single error naming it; `paint` keeps its initial value |
| `PaintColorsScenario.MissingOptionsSourceErrors` | markdoc/markdoc-hugo-integration/test/helperModules/YamlConfigParser/buildPagePrefsManifest.test.ts:166-167 | Exactly one error, and it starts with `Invalid options source:` |
| `PaintColorsScenario.TypoTokens` | markdoc/markdoc-hugo-integration/test/helperModules/YamlConfigParser/buildPagePrefsManifest.test.ts:106-107 | After `color` and `finish`, `COLOUR` is the one placeholder that names no preference |
| `PaintColorsScenario.InvalidPlaceholder` | markdoc/markdoc-hugo-integration/test/helperModules/YamlConfigParser/buildPagePrefsManifest.test.ts:89-121 | With the misspelt template the manifest holds only `color` and `finish`, their two sets, and the single "Invalid placeholder" error of `COLOUR`; no options-source error |
| `PaintColorsScenario.InvalidPlaceholderErrors` | markdoc/markdoc-hugo-integration/test/helperModules/YamlConfigParser/buildPagePrefsManifest.test.ts:119-120 | Exactly one error, it starts with `Invalid placeholder:`, and `paint` has no entry |
| `Integration.InvalidVarIds` | markdoc/markdoc-hugo-integration/src/MarkdocHugoIntegration.ts:90-92 | An id is in the result exactly when it is referenced and is no page preference id |
| `Integration.InvalidVarIdsInOrder` | markdoc/markdoc-hugo-integration/src/MarkdocHugoIntegration.ts:92 | The filter keeps the referenced ids' order |
| `Integration.InvalidVarIdsCount` | markdoc/markdoc-hugo-integration/src/MarkdocHugoIntegration.ts:92 | A page preference id occurs zero times in the result; any other id as often as it is referenced |
| `Integration.NoInvalidVarIds` | markdoc/markdoc-hugo-integration/src/MarkdocHugoIntegration.ts:92-94 | The filter is empty exactly when every referenced id is a page preference id |
| `Integration.InvalidVarIdsMessage` | markdoc/markdoc-hugo-integration/src/MarkdocHugoIntegration.ts:95-97 | The validation error of a file referencing invalid ids; stated by `InvalidVarIdsMessageParts` and `InvalidVarIdsReadBack` |
| `Integration.InvalidVarIdsMessageParts` | markdoc/markdoc-hugo-integration/src/MarkdocHugoIntegration.ts:95-97 | The message starts with `Invalid variable IDs found in Markdoc file `, then the file path, then `: ` and the ids joined by commas |
| `Integration.InvalidVarIdsReadBack` | markdoc/markdoc-hugo-integration/src/MarkdocHugoIntegration.ts:95-97 | When no id holds a comma, splitting the tail of the message at commas gives back exactly the invalid ids |
| `Integration.HtmlPathRewrite` | markdoc/markdoc-hugo-integration/src/MarkdocHugoIntegration.ts:105 | The output path has the input's length; a `.mdoc` path ends with `.html` and keeps everything before the suffix; any other path is unchanged |
| `Integration.MdocPathOfHtmlPath` | markdoc/markdoc-hugo-integration/src/MarkdocHugoIntegration.ts:105 | Replacing `.html` back by `.mdoc` recovers the Markdoc path |
| `Integration.HtmlPathInjective` | markdoc/markdoc-hugo-integration/src/MarkdocHugoIntegration.ts:105 | Two Markdoc files share an output path only when they are the same file |
| `Integration.HtmlPath` | markdoc/markdoc-hugo-integration/src/MarkdocHugoIntegration.ts:105 | The output path of a file; stated by `HtmlPathRewrite`, `MdocPathOfHtmlPath` and `HtmlPathInjective` |
| `Integration.ThrownMessage` | markdoc/markdoc-hugo-integration/src/MarkdocHugoIntegration.ts:66-73 | The message of a thrown value: an Error's message, a thrown string itself, or the serialisation of any other value; stated by `ThrownRecorded` |
| `Integration.RouteOf` | markdoc/markdoc-hugo-integration/src/MarkdocHugoIntegration.ts:50-107 | The first check a file fails decides where it goes: parse errors, then a thrown validation error, then invalid variable ids, otherwise the write |
| `Integration.ProcessFile` | markdoc/markdoc-hugo-integration/src/MarkdocHugoIntegration.ts:50-107 | Records one file's route; each branch is stated by `ParseErrorsRecorded`, `ThrownRecorded`, `InvalidVarIdsRecorded` and `CleanFileWritten` |
| `Integration.Pass` | markdoc/markdoc-hugo-integration/src/MarkdocHugoIntegration.ts:49-108 | The files in order, each recorded on the state the earlier ones leave; stated by the `*Traced` lemmas, `EveryFileRecorded` and `WrittenIffNoErrorEntry` |
| `Integration.ParseErrorsRecorded` | markdoc/markdoc-hugo-integration/src/MarkdocHugoIntegration.ts:57-60 | A file with parse error reports has them recorded under its path; the validation record and the written files are unchanged |
| `Integration.ThrownRecorded` | markdoc/markdoc-hugo-integration/src/MarkdocHugoIntegration.ts:64-75 | A file whose validation throws gets one validation error: the Error's message, the thrown string, or the serialisation of another value; nothing else changes |
| `Integration.InvalidVarIdsRecorded` | markdoc/markdoc-hugo-integration/src/MarkdocHugoIntegration.ts:94-99 | A file referencing an id that is no page preference gets the invalid-ids message as its validation error; nothing else changes and nothing is written |
| `Integration.CleanFileWritten` | markdoc/markdoc-hugo-integration/src/MarkdocHugoIntegration.ts:102-107 | A file passing every check is written to its `.html` path, and no error is recorded for it |
| `Integration.ParseEntriesTraced` | markdoc/markdoc-hugo-integration/src/MarkdocHugoIntegration.ts:49-60 | After a pass, each parse-error entry belongs to a visited file and holds that file's reports |
| `Integration.ValidationEntriesTraced` | markdoc/markdoc-hugo-integration/src/MarkdocHugoIntegration.ts:49-99 | After a pass, each validation-error entry belongs to a visited file and holds that file's validation error |
| `Integration.WrittenPathsTraced` | markdoc/markdoc-hugo-integration/src/MarkdocHugoIntegration.ts:102-108 | Each written path is the output of a visited file that passed every check |
| `Integration.EveryFileRecorded` | markdoc/markdoc-hugo-integration/src/MarkdocHugoIntegration.ts:49-108 | After a pass from any state, every visited file's outcome is recorded |
| `Integration.AtMostOneErrorEntry` | markdoc/markdoc-hugo-integration/src/MarkdocHugoIntegration.ts:49-108 | After a pass, no file has both a parse-error and a validation-error entry |
| `Integration.WrittenHasNoErrorEntry` | markdoc/markdoc-hugo-integration/src/MarkdocHugoIntegration.ts:49-108 | After a pass over Markdoc files, a written file has no error entry |
| `Integration.NoErrorEntryWritten` | markdoc/markdoc-hugo-integration/src/MarkdocHugoIntegration.ts:49-108 | After a pass, a visited file with no error entry is written to its `.html` path |
| `Integration.WrittenIffNoErrorEntry` | markdoc/markdoc-hugo-integration/src/MarkdocHugoIntegration.ts:49-108 | After a pass over Markdoc files, a file is written exactly when it has no error entry |
| `Integration.HasErrorsIffSomeFileNotWritten` | markdoc/markdoc-hugo-integration/src/MarkdocHugoIntegration.ts:110-122 | After a pass, the error records are non-empty exactly when some file was not written |
| `Integration.MdocFiles` | markdoc/markdoc-hugo-integration/src/MarkdocHugoIntegration.ts:41 | The Markdoc files of a listing: exactly the entries ending with `.mdoc`, in their order |
| `Integration.MarkdocHugoIntegration.constructor` | markdoc/markdoc-hugo-integration/src/MarkdocHugoIntegration.ts:19-43 | The files to compile are the `.mdoc` entries of the content listing; both error records start empty and nothing is written |
| `Integration.MarkdocHugoIntegration.HasErrors` | markdoc/markdoc-hugo-integration/src/MarkdocHugoIntegration.ts:117-122 | True exactly when either error record is non-empty |
| `Integration.MarkdocHugoIntegration.Compile` | markdoc/markdoc-hugo-integration/src/MarkdocHugoIntegration.ts:48-115 | The fields end as the pass over the files leaves them; the result is `hasErrors` with both records; from no errors, `hasErrors` holds exactly when some file was not written, no file has two error entries, and a file is written exactly when it has none |

## Left out

- `YamlConfigParser.ts`, the builder's own source, is not part of this model. The builder is modelled from its test file and its described behaviour. The choices this forces are listed below.
- Placeholder syntax: a placeholder is `<`, one or more of `A`–`Z`, `0`–`9` and `_`, then `>`, found by a left-to-right scan. The exact pattern of the builder is not visible.
- Error texts: `Invalid placeholder: <name>` and `Invalid options source: <id>`. The tests only check that these prefixes are contained, so the text after the prefix is a modelling choice.
- Order of keys and of combinations: the manifest's maps are Dafny maps, and the tests compare with a deep equality that ignores key order. Combinations are enumerated first list slowest, which the tests do not constrain. The integration's two error records (`parsingErrorReportsByFilePath`, `validationErrorsByFilePath`) are Dafny maps too, so the insertion order of their keys, in which `logErrorsToConsole` would list them, is not modelled.
- An unknown placeholder skips its preference entirely: it gets no entry and later templates cannot refer to it. The tests show one error and no options-source error, but no entry contents.
- `YamlConfigParser.StepInitialValue`: its conjunct "the initial value is defined exactly when the library has the set" holds only when every option set has exactly one default (`ValidLibrary`). A found set with no default gives no initial value. Every option set shown in the tests (buildPagePrefsManifest.test.ts lines 50-81 and 124-159) has exactly one `default: true`. The conjuncts that the initial value is the found set's default, and `InitialValueIsAnOption` and `RunKeepsInvariant`, hold for any library.
- Each distinct unresolved placeholder gives one "Invalid placeholder" error. A placeholder that occurs twice gives one error, because the names are taken without repeats.
- A templated preference that a later template refers to offers, as candidates, the option ids of all its sets that were found: their union, without repeats.
- When several earlier preferences upper-case to the same placeholder, the one declared last is taken (`FindResolvedLatest`).
- Upper-casing is ASCII only: `a`–`z` become `A`–`Z` and every other character is kept. JavaScript's `toUpperCase` also maps other letters, for example `ß` to `SS`. So a preference id such as `straße`, which JavaScript would match to `<STRASSE>`, matches no placeholder here.
- A preference whose initial options set is missing, or has no default, still gets an entry, with no initial value. It is not recorded as resolved, so a later placeholder naming it is an "Invalid placeholder" error.
- The YAML and directory loaders (`loadPrefOptionsFromDir`, `loadSitewidePrefsConfigFromFile`, `findInDir`) are file-system reads. `findInDir` is modelled as the `.mdoc` filter of a given listing (`Integration.MdocFiles`); how the listing is produced is left out. The loaded preference options and site-wide preference names are not used by the modelled routing and are not fields of the class.
- Markdoc parsing, placeholder validation, default-value derivation, transformation and variable collection are foreign library calls. Their results per file are the `outcome` parameter of `Compile`.
- Throws outside the validation `try` are assumed not to happen. These calls are `parseMarkdocFile`, `getDefaultValuesByPrefId`, `transform`, `collectVarIdsFromTree`, `renderers.html`, `prettier.format` and `fs.writeFileSync` (MarkdocHugoIntegration.ts lines 50, 78, 83, 90 and 102-107). In the source such a throw aborts `compile()`. That file and every later one are left unrecorded and nothing is returned. `FileOutcome` has no case for it.
- HTML rendering, the style prefix, `prettier.format` and `fs.writeFileSync`: the model records only the path written, in the field `written`, not the file contents.
- The `JSON.stringify` text of a thrown value that is neither an Error nor a string is carried as given in `OtherThrown`, since its format belongs to the runtime library.
- `logErrorsToConsole` is console output only.
- `Common.JoinWithCommas` itself states only the empty and single-element cases. The joined text is stated by `JoinWithCommasSnoc`, and that it can be split back by `SplitJoin`.
