/**
 * The compilation pass of the Markdoc/Hugo integration: every Markdoc file
 * found in the content directory is routed to exactly one outcome, a
 * parse-error record, a validation-error record, or an HTML file written
 * next to it. The library calls made for one file (parsing, placeholder
 * validation, default values, transformation) are given as that file's
 * `FileOutcome`; what remains is the routing, the filter of invalid
 * variable ids and the `.mdoc` to `.html` path rewrite.
 */
module Integration {
  import opened Common

  /** A syntax error found while parsing a Markdoc file, with the lines it concerns. */
  datatype ParsingErrorReport = ParsingErrorReport(message: string, lines: seq<int>)

  /**
   * What placeholder validation can throw: an `Error`, a string, or any
   * other value, which is recorded as its JSON serialisation.
   */
  datatype Thrown = ErrorThrown(message: string) | StringThrown(value: string) | OtherThrown(json: string)

  /**
   * What the library calls yield for one file: the parser's error reports,
   * the value placeholder validation throws (None when it returns), the
   * page preference ids that get a default value, and the variable ids
   * referenced by the transformed tree.
   */
  datatype FileOutcome = FileOutcome(
    errorReports: seq<ParsingErrorReport>,
    validation: Option<Thrown>,
    pagePrefIds: seq<string>,
    referencedVarIds: seq<string>)

  /** The two error records and the paths of the HTML files written so far. */
  datatype CompileState = CompileState(
    parsingErrorReportsByFilePath: map<string, seq<ParsingErrorReport>>,
    validationErrorsByFilePath: map<string, string>,
    written: seq<string>)

  const NoErrors: CompileState := CompileState(map[], map[], [])

  const MdocSuffix: string := ".mdoc"
  const HtmlSuffix: string := ".html"
  const InvalidVarIdsPrefix: string := "Invalid variable IDs found in Markdoc file "

  // ---------------------------------------------------------------------
  // The pieces of one file's routing
  // ---------------------------------------------------------------------

  /** The message recorded for a thrown value. */
  function ThrownMessage(t: Thrown): string
  {
    match t
    case ErrorThrown(m) => m
    case StringThrown(s) => s
    case OtherThrown(j) => j
  }

  /** The referenced variable ids that are not page preference ids, in their order, repeats kept. */
  function InvalidVarIds(referenced: seq<string>, pagePrefIds: seq<string>): (r: seq<string>)
    ensures forall id :: id in r <==> id in referenced && id !in pagePrefIds
  {
    if referenced == [] then []
    else
      var rest := InvalidVarIds(referenced[1..], pagePrefIds);
      if referenced[0] in pagePrefIds then rest else [referenced[0]] + rest
  }

  /** The filter keeps the order of the referenced ids. */
  lemma {:induction false} InvalidVarIdsInOrder(referenced: seq<string>, pagePrefIds: seq<string>)
    ensures IsSubsequence(InvalidVarIds(referenced, pagePrefIds), referenced)
    decreases |referenced|
  {
    if referenced != [] {
      var rest := InvalidVarIds(referenced[1..], pagePrefIds);
      InvalidVarIdsInOrder(referenced[1..], pagePrefIds);
      if referenced[0] !in pagePrefIds {
        assert ([referenced[0]] + rest)[1..] == rest;
      }
    }
  }

  /** Each id that is kept occurs as often as it is referenced. */
  lemma {:induction false} InvalidVarIdsCount(referenced: seq<string>, pagePrefIds: seq<string>, id: string)
    ensures multiset(InvalidVarIds(referenced, pagePrefIds))[id] ==
      if id in pagePrefIds then 0 else multiset(referenced)[id]
    decreases |referenced|
  {
    if referenced != [] {
      InvalidVarIdsCount(referenced[1..], pagePrefIds, id);
      assert referenced == [referenced[0]] + referenced[1..];
      assert multiset(referenced) == multiset([referenced[0]]) + multiset(referenced[1..]);
    }
  }

  /** The list is empty exactly when every referenced id is a page preference id. */
  lemma NoInvalidVarIds(referenced: seq<string>, pagePrefIds: seq<string>)
    ensures InvalidVarIds(referenced, pagePrefIds) == [] <==> forall id :: id in referenced ==> id in pagePrefIds
  {
    var r := InvalidVarIds(referenced, pagePrefIds);
    if r != [] {
      assert r[0] in r;
    }
  }

  /** The validation error of a file whose tree references invalid variable ids. */
  function InvalidVarIdsMessage(path: string, ids: seq<string>): string
  {
    InvalidVarIdsPrefix + path + ": " + JoinWithCommas(ids)
  }

  /** The message starts with the fixed prefix, names the file next, and then lists the ids. */
  lemma InvalidVarIdsMessageParts(path: string, ids: seq<string>)
    ensures var msg := InvalidVarIdsMessage(path, ids);
      && StartsWith(msg, InvalidVarIdsPrefix)
      && |msg| >= |InvalidVarIdsPrefix| + |path| + 2 + |ids| - 1
      && msg[|InvalidVarIdsPrefix|..|InvalidVarIdsPrefix| + |path|] == path
      && msg[|InvalidVarIdsPrefix| + |path|..] == ": " + JoinWithCommas(ids)
  {
  }

  /** When no id holds a comma, the ids can be read back from the message. */
  lemma InvalidVarIdsReadBack(path: string, ids: seq<string>)
    requires ids != []
    requires forall k :: 0 <= k < |ids| ==> ',' !in ids[k]
    ensures var msg := InvalidVarIdsMessage(path, ids);
      |msg| >= |InvalidVarIdsPrefix| + |path| + 2
      && SplitOnCommas(msg[|InvalidVarIdsPrefix| + |path| + 2..]) == ids
  {
    var msg := InvalidVarIdsMessage(path, ids);
    InvalidVarIdsMessageParts(path, ids);
    assert msg[|InvalidVarIdsPrefix| + |path| + 2..] == JoinWithCommas(ids);
    SplitJoin(ids);
  }

  /** The output path: a trailing `.mdoc` replaced by `.html`. */
  function HtmlPath(path: string): string
  {
    if EndsWith(path, MdocSuffix) then path[..|path| - |MdocSuffix|] + HtmlSuffix else path
  }

  /** Only the suffix changes: the length and everything before a `.mdoc` suffix are kept. */
  lemma HtmlPathRewrite(path: string)
    ensures var out := HtmlPath(path);
      && |out| == |path|
      && (EndsWith(path, MdocSuffix) ==> EndsWith(out, HtmlSuffix) && out[..|out| - 5] == path[..|path| - 5])
      && (!EndsWith(path, MdocSuffix) ==> out == path)
  {
  }

  /** The reverse rewrite, `.html` back to `.mdoc`. */
  function MdocPath(path: string): string
  {
    if EndsWith(path, HtmlSuffix) then path[..|path| - |HtmlSuffix|] + MdocSuffix else path
  }

  /** Rewriting a Markdoc path and back gives the Markdoc path. */
  lemma MdocPathOfHtmlPath(path: string)
    requires EndsWith(path, MdocSuffix)
    ensures MdocPath(HtmlPath(path)) == path
  {
    HtmlPathRewrite(path);
    var out := HtmlPath(path);
    var stem := path[..|path| - 5];
    assert out == stem + HtmlSuffix;
    assert out[..|out| - 5] == stem;
    assert path == stem + MdocSuffix;
  }

  /** Two Markdoc files never share an output path. */
  lemma HtmlPathInjective(p: string, q: string)
    requires EndsWith(p, MdocSuffix) && EndsWith(q, MdocSuffix)
    ensures HtmlPath(p) == HtmlPath(q) <==> p == q
  {
    MdocPathOfHtmlPath(p);
    MdocPathOfHtmlPath(q);
  }

  // ---------------------------------------------------------------------
  // One file, and the whole pass
  // ---------------------------------------------------------------------

  /** Where one file goes. */
  datatype Route = ParseErrors(reports: seq<ParsingErrorReport>) | ValidationError(message: string) | Written(path: string)

  /** The first check a file fails decides its route; a file that fails none is written. */
  function RouteOf(path: string, o: FileOutcome): Route
  {
    if |o.errorReports| > 0 then ParseErrors(o.errorReports)
    else if o.validation.Some? then ValidationError(ThrownMessage(o.validation.value))
    else
      var invalid := InvalidVarIds(o.referencedVarIds, o.pagePrefIds);
      if |invalid| > 0 then ValidationError(InvalidVarIdsMessage(path, invalid))
      else Written(HtmlPath(path))
  }

  /** Records one file's route. */
  function ProcessFile(s: CompileState, path: string, o: FileOutcome): CompileState
  {
    match RouteOf(path, o)
    case ParseErrors(r) => s.(parsingErrorReportsByFilePath := s.parsingErrorReportsByFilePath[path := r])
    case ValidationError(m) => s.(validationErrorsByFilePath := s.validationErrorsByFilePath[path := m])
    case Written(p) => s.(written := s.written + [p])
  }

  /** The files in order, each recorded on the state left by the ones before it. */
  function Pass(s: CompileState, files: seq<string>, outcome: string -> FileOutcome): CompileState
    decreases |files|
  {
    if files == [] then s
    else
      var last := files[|files| - 1];
      ProcessFile(Pass(s, files[..|files| - 1], outcome), last, outcome(last))
  }

  /** A file with parse error reports: they are recorded, and it gets nothing else. */
  lemma ParseErrorsRecorded(s: CompileState, path: string, o: FileOutcome)
    requires |o.errorReports| > 0
    ensures ProcessFile(s, path, o) == CompileState(
      s.parsingErrorReportsByFilePath[path := o.errorReports], s.validationErrorsByFilePath, s.written)
  {
  }

  /**
   * A file that parses but fails placeholder validation: the thrown
   * Error's message, or the thrown string, or the serialisation of any
   * other value is its validation error, and nothing is written.
   */
  lemma ThrownRecorded(s: CompileState, path: string, o: FileOutcome)
    requires |o.errorReports| == 0 && o.validation.Some?
    ensures var m := ProcessFile(s, path, o).validationErrorsByFilePath[path];
      && ProcessFile(s, path, o) == s.(validationErrorsByFilePath := s.validationErrorsByFilePath[path := m])
      && (o.validation.value.ErrorThrown? ==> m == o.validation.value.message)
      && (o.validation.value.StringThrown? ==> m == o.validation.value.value)
      && (o.validation.value.OtherThrown? ==> m == o.validation.value.json)
  {
  }

  /**
   * A file that validates but references a variable that is no page
   * preference: the invalid ids are listed in its validation error, and
   * nothing is written.
   */
  lemma InvalidVarIdsRecorded(s: CompileState, path: string, o: FileOutcome)
    requires |o.errorReports| == 0 && o.validation.None?
    requires exists id :: id in o.referencedVarIds && id !in o.pagePrefIds
    ensures ProcessFile(s, path, o) == s.(validationErrorsByFilePath := s.validationErrorsByFilePath[
      path := InvalidVarIdsPrefix + path + ": " + JoinWithCommas(InvalidVarIds(o.referencedVarIds, o.pagePrefIds))])
  {
    NoInvalidVarIds(o.referencedVarIds, o.pagePrefIds);
  }

  /** A file that passes every check is written to its `.html` path, and no error is recorded for it. */
  lemma CleanFileWritten(s: CompileState, path: string, o: FileOutcome)
    requires |o.errorReports| == 0 && o.validation.None?
    requires forall id :: id in o.referencedVarIds ==> id in o.pagePrefIds
    ensures ProcessFile(s, path, o) == s.(written := s.written + [HtmlPath(path)])
  {
    NoInvalidVarIds(o.referencedVarIds, o.pagePrefIds);
  }

  /** The state holds the route of `path`. */
  predicate Recorded(s: CompileState, path: string, r: Route)
  {
    match r
    case ParseErrors(reports) =>
      path in s.parsingErrorReportsByFilePath && s.parsingErrorReportsByFilePath[path] == reports
    case ValidationError(m) =>
      path in s.validationErrorsByFilePath && s.validationErrorsByFilePath[path] == m
    case Written(p) => p in s.written
  }

  /** After a pass from no errors, each parse-error entry is the route of one of the files. */
  lemma {:induction false} ParseEntriesTraced(files: seq<string>, outcome: string -> FileOutcome)
    ensures var m := Pass(NoErrors, files, outcome).parsingErrorReportsByFilePath;
      forall f :: f in m ==> f in files && RouteOf(f, outcome(f)) == ParseErrors(m[f])
    decreases |files|
  {
    if files != [] {
      var init := files[..|files| - 1];
      ParseEntriesTraced(init, outcome);
      assert files == init + [files[|files| - 1]];
    }
  }

  /** After a pass from no errors, each validation-error entry is the route of one of the files. */
  lemma {:induction false} ValidationEntriesTraced(files: seq<string>, outcome: string -> FileOutcome)
    ensures var m := Pass(NoErrors, files, outcome).validationErrorsByFilePath;
      forall f :: f in m ==> f in files && RouteOf(f, outcome(f)) == ValidationError(m[f])
    decreases |files|
  {
    if files != [] {
      var init := files[..|files| - 1];
      ValidationEntriesTraced(init, outcome);
      assert files == init + [files[|files| - 1]];
    }
  }

  /** After a pass from no errors, each written path is the route of one of the files. */
  lemma {:induction false} WrittenPathsTraced(files: seq<string>, outcome: string -> FileOutcome)
    ensures forall p :: p in Pass(NoErrors, files, outcome).written ==>
      exists f :: f in files && RouteOf(f, outcome(f)) == Written(p)
    decreases |files|
  {
    if files != [] {
      var init := files[..|files| - 1];
      var last := files[|files| - 1];
      WrittenPathsTraced(init, outcome);
      assert files == init + [last];
      var s0 := Pass(NoErrors, init, outcome);
      forall p | p in Pass(NoErrors, files, outcome).written
        ensures exists f :: f in files && RouteOf(f, outcome(f)) == Written(p)
      {
        if p !in s0.written {
          assert RouteOf(last, outcome(last)) == Written(p);
        }
      }
    }
  }

  /** A pass, from any state, records the route of every file it visits. */
  lemma {:induction false} EveryFileRecorded(s: CompileState, files: seq<string>, outcome: string -> FileOutcome)
    ensures forall f :: f in files ==> Recorded(Pass(s, files, outcome), f, RouteOf(f, outcome(f)))
    decreases |files|
  {
    if files != [] {
      var init := files[..|files| - 1];
      var last := files[|files| - 1];
      EveryFileRecorded(s, init, outcome);
      assert files == init + [last];
      var s0 := Pass(s, init, outcome);
      forall f | f in files ensures Recorded(Pass(s, files, outcome), f, RouteOf(f, outcome(f))) {
        RecordKept(s0, last, outcome(last), f, RouteOf(f, outcome(f)));
      }
    }
  }

  /** Recording one file keeps what is recorded for another, or for the same file with the same route. */
  lemma RecordKept(s: CompileState, path: string, o: FileOutcome, f: string, r: Route)
    requires Recorded(s, f, r) || f == path
    requires f == path ==> r == RouteOf(path, o)
    ensures Recorded(ProcessFile(s, path, o), f, r)
  {
  }

  /** After a pass from no errors, no file is in both error records. */
  lemma AtMostOneErrorEntry(files: seq<string>, outcome: string -> FileOutcome, f: string)
    ensures var s := Pass(NoErrors, files, outcome);
      !(f in s.parsingErrorReportsByFilePath && f in s.validationErrorsByFilePath)
  {
    ParseEntriesTraced(files, outcome);
    ValidationEntriesTraced(files, outcome);
  }

  /** After a pass from no errors over Markdoc files, a written file has no error entry. */
  lemma WrittenHasNoErrorEntry(files: seq<string>, outcome: string -> FileOutcome, f: string)
    requires forall g :: g in files ==> EndsWith(g, MdocSuffix)
    requires f in files
    requires HtmlPath(f) in Pass(NoErrors, files, outcome).written
    ensures var s := Pass(NoErrors, files, outcome);
      f !in s.parsingErrorReportsByFilePath && f !in s.validationErrorsByFilePath
  {
    WrittenPathsTraced(files, outcome);
    var g :| g in files && RouteOf(g, outcome(g)) == Written(HtmlPath(f));
    HtmlPathInjective(f, g);
    ParseEntriesTraced(files, outcome);
    ValidationEntriesTraced(files, outcome);
  }

  /** After a pass from no errors, a file without an error entry is written to its `.html` path. */
  lemma NoErrorEntryWritten(files: seq<string>, outcome: string -> FileOutcome, f: string)
    requires f in files
    requires var s := Pass(NoErrors, files, outcome);
      f !in s.parsingErrorReportsByFilePath && f !in s.validationErrorsByFilePath
    ensures HtmlPath(f) in Pass(NoErrors, files, outcome).written
  {
    EveryFileRecorded(NoErrors, files, outcome);
    assert Recorded(Pass(NoErrors, files, outcome), f, RouteOf(f, outcome(f)));
  }

  /** After a pass from no errors over Markdoc files, a file is written exactly when it has no error entry. */
  lemma WrittenIffNoErrorEntry(files: seq<string>, outcome: string -> FileOutcome, f: string)
    requires forall g :: g in files ==> EndsWith(g, MdocSuffix)
    requires f in files
    ensures var s := Pass(NoErrors, files, outcome);
      HtmlPath(f) in s.written <==>
        f !in s.parsingErrorReportsByFilePath && f !in s.validationErrorsByFilePath
  {
    var s := Pass(NoErrors, files, outcome);
    if HtmlPath(f) in s.written {
      WrittenHasNoErrorEntry(files, outcome, f);
    }
    if f !in s.parsingErrorReportsByFilePath && f !in s.validationErrorsByFilePath {
      NoErrorEntryWritten(files, outcome, f);
    }
  }

  /** Either error record of `s` has an entry. */
  predicate HasErrorsIn(s: CompileState)
  {
    |s.parsingErrorReportsByFilePath| > 0 || |s.validationErrorsByFilePath| > 0
  }

  /** After a pass from no errors, there are errors exactly when some file's route is not the write. */
  lemma HasErrorsIffSomeFileNotWritten(files: seq<string>, outcome: string -> FileOutcome)
    ensures HasErrorsIn(Pass(NoErrors, files, outcome)) <==> exists f :: f in files && !RouteOf(f, outcome(f)).Written?
  {
    var s := Pass(NoErrors, files, outcome);
    if HasErrorsIn(s) {
      if |s.parsingErrorReportsByFilePath| > 0 {
        ParseEntriesTraced(files, outcome);
        var f :| f in s.parsingErrorReportsByFilePath;
        assert f in files;
      } else {
        ValidationEntriesTraced(files, outcome);
        var f :| f in s.validationErrorsByFilePath;
        assert f in files;
      }
    }
    if f :| f in files && !RouteOf(f, outcome(f)).Written? {
      EveryFileRecorded(NoErrors, files, outcome);
      assert Recorded(s, f, RouteOf(f, outcome(f)));
    }
  }

  /** The Markdoc files of a directory listing: those whose name ends with `.mdoc`, in order. */
  function MdocFiles(listing: seq<string>): (files: seq<string>)
    ensures forall f :: f in files <==> f in listing && EndsWith(f, MdocSuffix)
    ensures IsSubsequence(files, listing)
  {
    if listing == [] then []
    else
      var rest := MdocFiles(listing[1..]);
      assert listing == [listing[0]] + listing[1..];
      if EndsWith(listing[0], MdocSuffix) then
        assert ([listing[0]] + rest)[1..] == rest;
        [listing[0]] + rest
      else rest
  }

  /** What `compile()` returns. */
  datatype CompileResult = CompileResult(
    hasErrors: bool,
    parsingErrorReportsByFilePath: map<string, seq<ParsingErrorReport>>,
    validationErrorsByFilePath: map<string, string>)

  class MarkdocHugoIntegration {
    var markdocFiles: seq<string>
    var parsingErrorReportsByFilePath: map<string, seq<ParsingErrorReport>>
    var validationErrorsByFilePath: map<string, string>
    /** The paths written to, in order. */
    var written: seq<string>

    function State(): CompileState
      reads this
    {
      CompileState(parsingErrorReportsByFilePath, validationErrorsByFilePath, written)
    }

    /** Every file the pass visits is a Markdoc file. */
    predicate Valid()
      reads this
    {
      forall f :: f in markdocFiles ==> EndsWith(f, MdocSuffix)
    }

    /** Starts with the Markdoc files of the content directory's listing and no errors. */
    constructor(contentDirListing: seq<string>)
      ensures Valid()
      ensures markdocFiles == MdocFiles(contentDirListing)
      ensures State() == NoErrors
    {
      markdocFiles := MdocFiles(contentDirListing);
      parsingErrorReportsByFilePath := map[];
      validationErrorsByFilePath := map[];
      written := [];
    }

    /** True when either error record has an entry. */
    function HasErrors(): (b: bool)
      reads this
      ensures b <==> parsingErrorReportsByFilePath != map[] || validationErrorsByFilePath != map[]
    {
      HasErrorsIn(State())
    }

    /**
     * Routes every Markdoc file in turn; returns whether there were errors
     * and both error records.
     */
    method Compile(outcome: string -> FileOutcome) returns (r: CompileResult)
      requires Valid()
      modifies this
      ensures markdocFiles == old(markdocFiles) && Valid()
      ensures State() == Pass(old(State()), markdocFiles, outcome)
      ensures r == CompileResult(HasErrors(), parsingErrorReportsByFilePath, validationErrorsByFilePath)
      ensures old(State()) == NoErrors ==>
        (r.hasErrors <==> exists f :: f in markdocFiles && !RouteOf(f, outcome(f)).Written?)
      ensures old(State()) == NoErrors ==> forall f :: f in markdocFiles ==>
        && !(f in parsingErrorReportsByFilePath && f in validationErrorsByFilePath)
        && (HtmlPath(f) in written <==> f !in parsingErrorReportsByFilePath && f !in validationErrorsByFilePath)
    {
      var files := markdocFiles;
      for i := 0 to |files|
        invariant markdocFiles == files
        invariant State() == Pass(old(State()), files[..i], outcome)
      {
        var markdocFile := files[i];
        assert files[..i + 1][..i] == files[..i];
        var o := outcome(markdocFile);

        if |o.errorReports| > 0 {
          parsingErrorReportsByFilePath := parsingErrorReportsByFilePath[markdocFile := o.errorReports];
          continue;
        }

        if o.validation.Some? {
          validationErrorsByFilePath := validationErrorsByFilePath[markdocFile := ThrownMessage(o.validation.value)];
          continue;
        }

        var invalidVarIds := InvalidVarIds(o.referencedVarIds, o.pagePrefIds);
        if |invalidVarIds| > 0 {
          validationErrorsByFilePath := validationErrorsByFilePath[markdocFile := InvalidVarIdsMessage(markdocFile, invalidVarIds)];
          continue;
        }

        written := written + [HtmlPath(markdocFile)];
      }
      assert files[..|files|] == files;
      r := CompileResult(HasErrors(), parsingErrorReportsByFilePath, validationErrorsByFilePath);
      if old(State()) == NoErrors {
        HasErrorsIffSomeFileNotWritten(files, outcome);
        forall f | f in files
          ensures !(f in parsingErrorReportsByFilePath && f in validationErrorsByFilePath)
          ensures HtmlPath(f) in written <==> f !in parsingErrorReportsByFilePath && f !in validationErrorsByFilePath
        {
          AtMostOneErrorEntry(files, outcome, f);
          WrittenIffNoErrorEntry(files, outcome, f);
        }
      }
    }
  }
}
