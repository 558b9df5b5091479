/** Job planning: which kind of input was given, the jobs a manifest
    describes, and per job the output directory, the sheets to convert, the
    output prefix and the output paths. */
module Planning {
  import opened Values
  import opened Config

  /** Python's truth value of an optional string: None and "" are false. */
  predicate Truthy(o: Option<string>) {
    o.Some? && o.value != ""
  }

  /** One conversion job: one workbook with its per-job overrides. */
  datatype Job = Job(inputPath: string, outputDir: Option<string>, prefix: Option<string>, sheet: Option<string>)

  // ---- input kind ----

  function LowerChar(c: char): char {
    if 'A' <= c <= 'Z' then (c as int + 32) as char else c
  }

  /** Lower-casing, over the ASCII letters. */
  function Lower(s: string): (r: string)
    ensures |r| == |s|
  {
    seq(|s|, i requires 0 <= i < |s| => LowerChar(s[i]))
  }

  lemma LowerIdempotent(s: string)
    ensures Lower(Lower(s)) == Lower(s)
  {
    assert forall i :: 0 <= i < |s| ==> Lower(Lower(s))[i] == Lower(s)[i];
  }

  const ValidInputExts: set<string> := {".xlsx", ".xlsm", ".xltx", ".xltm", ".txt"}

  /** A workbook to convert directly, or a tab-separated manifest of jobs. */
  datatype InputKind = WorkbookInput | ManifestInput

  /** The input extension, compared without regard to case, decides the mode;
      any other extension is refused. */
  function InputKindOf(ext: string): (r: Result<InputKind>)
    ensures r.Success? <==> Lower(ext) in ValidInputExts
    ensures r.Failure? ==> r.error == InvalidExtension(ext)
    ensures r == Success(ManifestInput) <==> Lower(ext) == ".txt"
  {
    if Lower(ext) !in ValidInputExts then Failure(InvalidExtension(ext))
    else if Lower(ext) == ".txt" then Success(ManifestInput)
    else Success(WorkbookInput)
  }

  /** Changing the case of the extension never changes the mode chosen. */
  lemma InputKindIgnoresCase(ext: string)
    ensures InputKindOf(Lower(ext)).Success? == InputKindOf(ext).Success?
    ensures InputKindOf(ext).Success? ==> InputKindOf(Lower(ext)) == InputKindOf(ext)
  {
    LowerIdempotent(ext);
  }

  lemma InputKindExamples()
    ensures InputKindOf(".XLSX") == Success(WorkbookInput)
    ensures InputKindOf(".Txt") == Success(ManifestInput)
    ensures InputKindOf(".csv") == Failure(InvalidExtension(".csv"))
  {
    assert Lower(".XLSX") == ".xlsx";
    assert Lower(".Txt") == ".txt";
    assert Lower(".csv") == ".csv";
  }

  // ---- manifest ----

  /** The first position of name in hs. */
  function IndexOf(hs: seq<string>, name: string): (r: Option<nat>)
    ensures r.None? <==> name !in hs
    ensures r.Some? ==> r.value < |hs| && hs[r.value] == name
    ensures r.Some? ==> forall j :: 0 <= j < r.value ==> hs[j] != name
    decreases |hs|
  {
    if |hs| == 0 then None
    else if hs[0] == name then Some(0)
    else match IndexOf(hs[1..], name)
      case None => None
      case Some(i) => Some(i + 1)
  }

  function LowerAll(hs: seq<string>): (r: seq<string>)
    ensures |r| == |hs|
  {
    seq(|hs|, i requires 0 <= i < |hs| => Lower(hs[i]))
  }

  /** Column positions of the manifest fields; only "input" is mandatory. */
  datatype Columns = Columns(input: nat, outputDir: Option<nat>, prefix: Option<nat>, sheet: Option<nat>)

  /** Locates the manifest columns by lower-cased header name, each at its
      first occurrence. */
  function ParseHeader(headers: seq<string>): (r: Result<Columns>)
    ensures r.Failure? <==> "input" !in LowerAll(headers)
    ensures r.Failure? ==> r.error == MissingInputHeader
    ensures r.Success? ==>
              var lower := LowerAll(headers);
              && IndexOf(lower, "input") == Some(r.value.input)
              && r.value.outputDir == IndexOf(lower, "outputdir")
              && r.value.prefix == IndexOf(lower, "prefix")
              && r.value.sheet == IndexOf(lower, "sheet")
  {
    var lower := LowerAll(headers);
    match IndexOf(lower, "input")
    case None => Failure(MissingInputHeader)
    case Some(i) => Success(Columns(i, IndexOf(lower, "outputdir"), IndexOf(lower, "prefix"), IndexOf(lower, "sheet")))
  }

  /** Whether a manifest row has every column the header names. */
  predicate RowFits(row: seq<string>, cols: Columns) {
    && cols.input < |row|
    && (cols.outputDir.Some? ==> cols.outputDir.value < |row|)
    && (cols.prefix.Some? ==> cols.prefix.value < |row|)
    && (cols.sheet.Some? ==> cols.sheet.value < |row|)
  }

  /** The job of one manifest row: an absent outputdir or sheet column gives
      None, an absent prefix column gives the command line's --prefix. */
  function JobOfRow(row: seq<string>, cols: Columns, cliPrefix: Option<string>): Job
    requires RowFits(row, cols)
  {
    Job(
      row[cols.input],
      if cols.outputDir.Some? then Some(row[cols.outputDir.value]) else None,
      if cols.prefix.Some? then Some(row[cols.prefix.value]) else cliPrefix,
      if cols.sheet.Some? then Some(row[cols.sheet.value]) else None)
  }

  /** The first manifest row, from position `from` on, missing a column. */
  function FirstUnfitRow(rows: seq<seq<string>>, cols: Columns, from: nat): (r: Option<nat>)
    requires from <= |rows|
    ensures r.Some? ==> from <= r.value < |rows| && !RowFits(rows[r.value], cols)
    ensures r.Some? ==> forall j :: from <= j < r.value ==> RowFits(rows[j], cols)
    ensures r.None? ==> forall j :: from <= j < |rows| ==> RowFits(rows[j], cols)
    decreases |rows| - from
  {
    if from == |rows| then None
    else if !RowFits(rows[from], cols) then Some(from)
    else FirstUnfitRow(rows, cols, from + 1)
  }

  /** The jobs of manifest rows 1 .. m-1 (row 0 being the header). */
  function JobsUpTo(rows: seq<seq<string>>, cols: Columns, cliPrefix: Option<string>, m: nat): seq<Job>
    requires 1 <= m <= |rows|
    requires forall j :: 1 <= j < m ==> RowFits(rows[j], cols)
    decreases m
  {
    if m == 1 then [] else JobsUpTo(rows, cols, cliPrefix, m - 1) + [JobOfRow(rows[m - 1], cols, cliPrefix)]
  }

  lemma {:induction false} JobsUpToAt(rows: seq<seq<string>>, cols: Columns, cliPrefix: Option<string>, m: nat)
    requires 1 <= m <= |rows|
    requires forall j :: 1 <= j < m ==> RowFits(rows[j], cols)
    ensures |JobsUpTo(rows, cols, cliPrefix, m)| == m - 1
    ensures forall k :: 0 <= k < m - 1 ==> JobsUpTo(rows, cols, cliPrefix, m)[k] == JobOfRow(rows[k + 1], cols, cliPrefix)
    decreases m
  {
    if m > 1 {
      JobsUpToAt(rows, cols, cliPrefix, m - 1);
    }
  }

  function HeaderRow(rows: seq<seq<string>>): seq<string> {
    if |rows| == 0 then [] else rows[0]
  }

  /** The jobs a manifest describes: rows are the manifest's lines split at
      tabs, the first being the header (an empty manifest has an empty header).
      A data row lacking a column the header names is fatal; its position is
      reported 1-based, counting the header as row 1. */
  function ManifestJobs(rows: seq<seq<string>>, cliPrefix: Option<string>): Result<seq<Job>> {
    match ParseHeader(HeaderRow(rows))
    case Failure(e) => Failure(e)
    case Success(cols) =>
      match FirstUnfitRow(rows, cols, 1)
      case None => Success(JobsUpTo(rows, cols, cliPrefix, |rows|))
      case Some(i) => Failure(ManifestRowTooShort(i + 1))
  }

  /** Reads the manifest rows after the header, appending one job per row. */
  method PlanManifest(rows: seq<seq<string>>, cliPrefix: Option<string>) returns (r: Result<seq<Job>>)
    ensures r == ManifestJobs(rows, cliPrefix)
  {
    var header := ParseHeader(HeaderRow(rows));
    if header.Failure? {
      return Failure(header.error);
    }
    var cols := header.value;
    var inputList: seq<Job> := [];
    var i := 1;
    while i < |rows|
      invariant 1 <= i <= |rows|
      invariant forall j :: 1 <= j < i ==> RowFits(rows[j], cols)
      invariant inputList == JobsUpTo(rows, cols, cliPrefix, i)
    {
      if !RowFits(rows[i], cols) {
        // indexing past the end of the row raises IndexError
        ManifestFailsAt(rows, cliPrefix, i);
        return Failure(ManifestRowTooShort(i + 1));
      }
      inputList := inputList + [JobOfRow(rows[i], cols, cliPrefix)];
      i := i + 1;
    }
    ManifestSucceeds(rows, cliPrefix);
    return Success(inputList);
  }

  lemma ManifestFailsAt(rows: seq<seq<string>>, cliPrefix: Option<string>, i: nat)
    requires ParseHeader(HeaderRow(rows)).Success?
    requires 1 <= i < |rows|
    requires !RowFits(rows[i], ParseHeader(HeaderRow(rows)).value)
    requires forall j :: 1 <= j < i ==> RowFits(rows[j], ParseHeader(HeaderRow(rows)).value)
    ensures ManifestJobs(rows, cliPrefix) == Failure(ManifestRowTooShort(i + 1))
  {
    assert FirstUnfitRow(rows, ParseHeader(HeaderRow(rows)).value, 1) == Some(i);
  }

  lemma ManifestSucceeds(rows: seq<seq<string>>, cliPrefix: Option<string>)
    requires ParseHeader(HeaderRow(rows)).Success?
    requires |rows| >= 1
    requires forall j :: 1 <= j < |rows| ==> RowFits(rows[j], ParseHeader(HeaderRow(rows)).value)
    ensures ManifestJobs(rows, cliPrefix) == Success(JobsUpTo(rows, ParseHeader(HeaderRow(rows)).value, cliPrefix, |rows|))
  {
    assert FirstUnfitRow(rows, ParseHeader(HeaderRow(rows)).value, 1).None?;
  }

  /** A manifest without an "input" header (in any letter case) is refused;
      otherwise it gives one job per data row, in file order, as long as every
      row has every column. Each field comes from the first column of that name;
      a missing outputdir or sheet column gives None and a missing prefix column
      the command line's --prefix. */
  lemma ManifestJobsShape(rows: seq<seq<string>>, cliPrefix: Option<string>)
    ensures ManifestJobs(rows, cliPrefix) == Failure(MissingInputHeader) <==> "input" !in LowerAll(HeaderRow(rows))
    ensures ParseHeader(HeaderRow(rows)).Success? ==>
              var cols := ParseHeader(HeaderRow(rows)).value;
              ManifestJobs(rows, cliPrefix).Success? <==> forall j :: 1 <= j < |rows| ==> RowFits(rows[j], cols)
    ensures ManifestJobs(rows, cliPrefix).Success? ==>
              var cols := ParseHeader(HeaderRow(rows)).value;
              var jobs := ManifestJobs(rows, cliPrefix).value;
              && |jobs| == |rows| - 1
              && forall k :: 0 <= k < |jobs| ==>
                   && RowFits(rows[k + 1], cols)
                   && jobs[k].inputPath == rows[k + 1][cols.input]
                   && jobs[k].outputDir == (if cols.outputDir.Some? then Some(rows[k + 1][cols.outputDir.value]) else None)
                   && jobs[k].prefix == (if cols.prefix.Some? then Some(rows[k + 1][cols.prefix.value]) else cliPrefix)
                   && jobs[k].sheet == (if cols.sheet.Some? then Some(rows[k + 1][cols.sheet.value]) else None)
  {
    match ParseHeader(HeaderRow(rows))
    case Failure(_) =>
    case Success(cols) =>
      if FirstUnfitRow(rows, cols, 1).None? {
        JobsUpToAt(rows, cols, cliPrefix, |rows|);
      }
  }

  /** The header "input, outputDir, prefix" with one data row gives one job
      with that output directory and prefix. */
  lemma ManifestExample()
    ensures ManifestJobs([["input", "outputDir", "prefix"], ["a.xlsx", "/tmp", "foo"]], None)
         == Success([Job("a.xlsx", Some("/tmp"), Some("foo"), None)])
  {
    var headers := ["input", "outputDir", "prefix"];
    assert Lower("input") == "input";
    assert Lower("outputDir") == "outputdir";
    assert Lower("prefix") == "prefix";
    var lower := LowerAll(headers);
    assert lower == ["input", "outputdir", "prefix"];
    assert IndexOf(lower, "input") == Some(0);
    assert IndexOf(lower, "outputdir") == Some(1);
    assert IndexOf(lower, "prefix") == Some(2);
    assert "sheet" !in lower;
    var cols := Columns(0, Some(1), Some(2), None);
    assert ParseHeader(headers) == Success(cols);
    var rows := [headers, ["a.xlsx", "/tmp", "foo"]];
    assert HeaderRow(rows) == headers;
    assert RowFits(rows[1], cols);
    assert FirstUnfitRow(rows, cols, 1) == None;
    assert JobOfRow(rows[1], cols, None) == Job("a.xlsx", Some("/tmp"), Some("foo"), None);
    assert JobsUpTo(rows, cols, None, 2) == [] + [JobOfRow(rows[1], cols, None)];
    assert JobsUpTo(rows, cols, None, 2) == [Job("a.xlsx", Some("/tmp"), Some("foo"), None)];
    assert ManifestJobs(rows, None) == Success(JobsUpTo(rows, cols, None, 2));
  }

  // ---- per-job resolution ----

  /** The output directory of a job: the input's own directory when none is
      given (or the given one is empty); a given directory must exist. */
  function ResolveOutputDir(outputDir: Option<string>, inputDir: string, isDir: string -> bool): (r: Result<string>)
    ensures !Truthy(outputDir) ==> r == Success(inputDir)
    ensures Truthy(outputDir) ==> (r.Success? <==> isDir(outputDir.value))
    ensures Truthy(outputDir) && r.Success? ==> r.value == outputDir.value
    ensures r.Failure? ==> r.error == NoSuchDirectory(outputDir.value)
  {
    if !Truthy(outputDir) then Success(inputDir)
    else if !isDir(outputDir.value) then Failure(NoSuchDirectory(outputDir.value))
    else Success(outputDir.value)
  }

  /** The sheets to convert: all of the workbook's, in workbook order, unless a
      (non-empty) sheet name is requested, which must be one of them. */
  function SelectSheets(names: seq<string>, sheet: Option<string>): (r: Result<seq<string>>)
    ensures !Truthy(sheet) ==> r == Success(names)
    ensures Truthy(sheet) ==> (r.Success? <==> sheet.value in names)
    ensures Truthy(sheet) && r.Success? ==> r.value == [sheet.value]
    ensures r.Failure? ==> r.error == SheetNotFound(sheet.value)
    ensures r.Success? ==> forall n :: n in r.value ==> n in names
  {
    if Truthy(sheet) then
      if sheet.value in names then Success([sheet.value]) else Failure(SheetNotFound(sheet.value))
    else Success(names)
  }

  /** The prefix of the output file names: the workbook's base name and a dot
      by default; a non-empty custom prefix and a dot instead; nothing at all
      with --noprefix, which wins over a custom prefix. */
  function OutputPrefix(baseFn: string, prefix: Option<string>, noPrefix: bool): (p: string)
    ensures noPrefix ==> p == ""
    ensures !noPrefix && Truthy(prefix) ==> p == prefix.value + "."
    ensures !noPrefix && !Truthy(prefix) ==> p == baseFn + "."
    ensures p == "" || p[|p| - 1] == '.'
  {
    var outputPrefix := baseFn + ".";
    var outputPrefix := if Truthy(prefix) then prefix.value + "." else outputPrefix;
    if noPrefix then "" else outputPrefix
  }

  /** The output file of one sheet. */
  function OutputPath(outputDir: string, sep: string, prefix: string, sheetName: string, extension: string): string {
    outputDir + sep + prefix + sheetName + "." + extension
  }

  /** Within one job, different sheets never share an output file. */
  lemma OutputPathInjective(outputDir: string, sep: string, prefix: string, a: string, b: string, extension: string)
    requires OutputPath(outputDir, sep, prefix, a, extension) == OutputPath(outputDir, sep, prefix, b, extension)
    ensures a == b
  {
    var x := outputDir + sep + prefix;
    var y := "." + extension;
    var pa := OutputPath(outputDir, sep, prefix, a, extension);
    assert pa == x + a + y;
    assert OutputPath(outputDir, sep, prefix, b, extension) == x + b + y;
    assert |a| == |b|;
    assert a == (x + a + y)[|x|..|x| + |a|];
    assert b == (x + b + y)[|x|..|x| + |b|];
  }

  /** The manifest example's files: a job with output directory "/tmp" and
      prefix "foo" writes sheet S of workbook a.xlsx to /tmp/foo.S.csv (the
      chosen prefix is followed by a dot). */
  lemma OutputPathExample()
    ensures OutputPath("/tmp", "/", OutputPrefix("a", Some("foo"), false), "Sheet1", "csv") == "/tmp/foo.Sheet1.csv"
  {
  }
}
