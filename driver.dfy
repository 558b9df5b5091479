/** The top level: turning the command line into jobs, and running every job
    in order, each sheet in workbook order, until the first fatal condition. */
module Driver {
  import opened Values
  import opened Config
  import opened Sheet
  import opened Planning

  /** A worksheet as the workbook reader presents it. */
  datatype Worksheet = Worksheet(title: string, rows: seq<Row>)

  /** The workbook's sheet names, in workbook order. */
  function SheetNames(sheets: seq<Worksheet>): (names: seq<string>)
    ensures |names| == |sheets|
    ensures forall i :: 0 <= i < |sheets| ==> names[i] == sheets[i].title
    decreases |sheets|
  {
    if |sheets| == 0 then [] else [sheets[0].title] + SheetNames(sheets[1..])
  }

  /** The rows of the first sheet with the given title. Both callers look up
      only names the workbook has; any other name finds no rows. */
  function SheetByName(sheets: seq<Worksheet>, name: string): (rows: seq<Row>)
    ensures forall i ::
              (0 <= i < |sheets| && sheets[i].title == name && forall j :: 0 <= j < i ==> sheets[j].title != name)
              ==> rows == sheets[i].rows
    decreases |sheets|
  {
    if |sheets| == 0 then []
    else if sheets[0].title == name then sheets[0].rows
    else SheetByName(sheets[1..], name)
  }

  /** Everything the converter asks of its surroundings, as given functions:
      the path separator, path splitting, path resolution, existence checks,
      the manifest reader (lines split at tabs) and the workbook reader
      (None when the workbook cannot be loaded). */
  datatype Env = Env(
    sep: string,
    splitext: string -> (string, string),
    split: string -> (string, string),
    realpath: string -> string,
    isFile: string -> bool,
    isDir: string -> bool,
    readManifest: string -> seq<seq<string>>,
    load: string -> Option<seq<Worksheet>>)

  /** One output file as left on disk: its path, the settings of the writer
      built for it (None when the writer refused them and the file was left
      empty) and the records written to it. */
  datatype OutputFile = OutputFile(path: string, dialect: Option<Dialect>, records: seq<Record>)

  /** What an invocation did: the files it wrote, in order, the lines it
      listed with --sheetnames, and the fatal condition that stopped it, if
      any. Files written before a fatal condition stay. */
  datatype Trace = Trace(files: seq<OutputFile>, listing: seq<seq<string>>, error: Option<Error>)

  function Fail(e: Error): Trace {
    Trace([], [], Some(e))
  }

  /** a, which ended normally, followed by b. */
  function Then(a: Trace, b: Trace): Trace
    requires a.error.None?
  {
    Trace(a.files + b.files, a.listing + b.listing, b.error)
  }

  // ---- one workbook ----

  /** Converting the named sheets one after the other; the first failed sheet
      ends it. An empty sheet leaves no file. */
  function SheetsSpec(sheets: seq<Worksheet>, names: seq<string>, outputDir: string, sep: string,
                      prefix: string, args: Args): Trace
    decreases |names|
  {
    if |names| == 0 then Trace([], [], None)
    else
      var path := OutputPath(outputDir, sep, prefix, names[0], args.extension);
      match ConvertSpec(SheetByName(sheets, names[0]), args)
      case Skipped => SheetsSpec(sheets, names[1..], outputDir, sep, prefix, args)
      case Refused => Trace([OutputFile(path, None, [])], [], Some(SheetConversionFailed(path)))
      case Converted(recs) =>
        Then(Trace([OutputFile(path, WriterDialect(args), recs)], [], None),
             SheetsSpec(sheets, names[1..], outputDir, sep, prefix, args))
      case Failed(w, _) => Trace([OutputFile(path, WriterDialect(args), w)], [], Some(SheetConversionFailed(path)))
  }

  function WorkbookSpec(job: Job, baseFn: string, outputDir: string, args: Args, env: Env): Trace
  {
    match env.load(job.inputPath)
    case None => Fail(LoadFailed(job.inputPath))
    case Some(sheets) =>
      match SelectSheets(SheetNames(sheets), job.sheet)
      case Failure(e) => Fail(e)
      case Success(names) =>
        SheetsSpec(sheets, names, outputDir, env.sep, OutputPrefix(baseFn, job.prefix, args.noPrefix), args)
  }

  /** Converts the selected sheets of one workbook. */
  method ConvertWorkbook(job: Job, baseFn: string, outputDir: string, args: Args, env: Env) returns (t: Trace)
    ensures t == WorkbookSpec(job, baseFn, outputDir, args, env)
  {
    var wb := env.load(job.inputPath);
    if wb.None? {
      return Fail(LoadFailed(job.inputPath));
    }
    var sheets := wb.value;
    var wsNames := SheetNames(sheets);
    if Truthy(job.sheet) {
      if job.sheet.value in wsNames {
        wsNames := [job.sheet.value];
      } else {
        return Fail(SheetNotFound(job.sheet.value));
      }
    }
    assert SelectSheets(SheetNames(sheets), job.sheet) == Success(wsNames);
    var outputPrefix := baseFn + ".";
    if Truthy(job.prefix) {
      outputPrefix := job.prefix.value + "."; // a custom prefix replaces the base name
    }
    if args.noPrefix {
      outputPrefix := ""; // --noprefix wins over a custom prefix
    }
    assert outputPrefix == OutputPrefix(baseFn, job.prefix, args.noPrefix);
    t := ConvertSheets(sheets, wsNames, outputDir, env.sep, outputPrefix, args);
  }

  /** The loop over the selected sheets of one workbook. */
  method ConvertSheets(sheets: seq<Worksheet>, wsNames: seq<string>, outputDir: string, sep: string,
                       outputPrefix: string, args: Args) returns (t: Trace)
    ensures t == SheetsSpec(sheets, wsNames, outputDir, sep, outputPrefix, args)
  {
    var files: seq<OutputFile> := [];
    var i := 0;
    while i < |wsNames|
      invariant 0 <= i <= |wsNames|
      invariant SheetsSpec(sheets, wsNames, outputDir, sep, outputPrefix, args)
             == Then(Trace(files, [], None), SheetsSpec(sheets, wsNames[i..], outputDir, sep, outputPrefix, args))
    {
      var wsName := wsNames[i];
      var outputPath := outputDir + sep + outputPrefix + wsName + "." + args.extension;
      assert wsNames[i..][1..] == wsNames[i + 1..];
      var outcome := ConvertSheet(SheetByName(sheets, wsName), args);
      match outcome {
        case Skipped =>
        case Refused =>
          return Trace(files + [OutputFile(outputPath, None, [])], [], Some(SheetConversionFailed(outputPath)));
        case Converted(recs) =>
          var f := OutputFile(outputPath, WriterDialect(args), recs);
          ThenJob(files, [], Trace([f], [], None), SheetsSpec(sheets, wsNames[i + 1..], outputDir, sep, outputPrefix, args));
          files := files + [f];
        case Failed(w, _) =>
          return Trace(files + [OutputFile(outputPath, WriterDialect(args), w)], [], Some(SheetConversionFailed(outputPath)));
      }
      i := i + 1;
    }
    assert wsNames[i..] == [];
    return Trace(files, [], None);
  }

  // ---- listing sheet names ----

  /** The --sheetnames lines of one workbook: each sheet name with the path
      the workbook was given by. */
  function ListingOf(names: seq<string>, path: string): seq<seq<string>>
    decreases |names|
  {
    if |names| == 0 then [] else ListingOf(names[..|names| - 1], path) + [[names[|names| - 1], path]]
  }

  lemma {:induction false} ListingOfAt(names: seq<string>, path: string)
    ensures |ListingOf(names, path)| == |names|
    ensures forall i :: 0 <= i < |names| ==> ListingOf(names, path)[i] == [names[i], path]
    decreases |names|
  {
    if |names| > 0 {
      ListingOfAt(names[..|names| - 1], path);
    }
  }

  function ListSpec(job: Job, env: Env): Trace {
    match env.load(job.inputPath)
    case None => Fail(LoadFailed(job.inputPath))
    case Some(sheets) => Trace([], ListingOf(SheetNames(sheets), job.inputPath), None)
  }

  /** Lists the sheet names of one workbook instead of converting it. */
  method ListSheetnames(job: Job, env: Env) returns (t: Trace)
    ensures t == ListSpec(job, env)
  {
    var wb := env.load(job.inputPath);
    if wb.None? {
      return Fail(LoadFailed(job.inputPath));
    }
    var wsNames := SheetNames(wb.value);
    var lines: seq<seq<string>> := [];
    var i := 0;
    while i < |wsNames|
      invariant 0 <= i <= |wsNames|
      invariant lines == ListingOf(wsNames[..i], job.inputPath)
    {
      assert wsNames[..i + 1][..i] == wsNames[..i];
      lines := lines + [[wsNames[i], job.inputPath]];
      i := i + 1;
    }
    assert wsNames[..i] == wsNames;
    return Trace([], lines, None);
  }

  // ---- the invocation ----

  /** One job: the input must name an existing file; then either its sheet
      names are listed, or its output directory is resolved and the workbook
      converted. */
  function JobSpec(job: Job, args: Args, env: Env): Trace
  {
    var realInputPath := env.realpath(job.inputPath);
    if !env.isFile(realInputPath) then Fail(NoSuchFile(realInputPath))
    else
      var (inputDir, inputFile) := env.split(realInputPath);
      var (inputBaseFn, _) := env.splitext(inputFile);
      if args.sheetnames then ListSpec(job, env)
      else
        match ResolveOutputDir(job.outputDir, inputDir, env.isDir)
        case Failure(e) => Fail(e)
        case Success(outputDir) => WorkbookSpec(job, inputBaseFn, outputDir, args, env)
  }

  /** Steps run one after the other: the first step that ends with a fatal
      condition is the last one run. */
  function Sequence(ts: seq<Trace>): Trace
    decreases |ts|
  {
    if |ts| == 0 then Trace([], [], None)
    else if ts[0].error.Some? then ts[0]
    else Then(ts[0], Sequence(ts[1..]))
  }

  /** What each job would do on its own. */
  function JobTraces(jobs: seq<Job>, args: Args, env: Env): (ts: seq<Trace>)
    ensures |ts| == |jobs|
    ensures forall i :: 0 <= i < |jobs| ==> ts[i] == JobSpec(jobs[i], args, env)
  {
    seq(|jobs|, i requires 0 <= i < |jobs| => JobSpec(jobs[i], args, env))
  }

  /** The jobs in order; the first fatal condition ends the invocation. */
  function JobsSpec(jobs: seq<Job>, args: Args, env: Env): Trace
  {
    Sequence(JobTraces(jobs, args, env))
  }

  lemma JobsSpecUnfold(jobs: seq<Job>, args: Args, env: Env)
    requires |jobs| > 0
    ensures JobSpec(jobs[0], args, env).error.Some? ==> JobsSpec(jobs, args, env) == JobSpec(jobs[0], args, env)
    ensures JobSpec(jobs[0], args, env).error.None? ==>
              JobsSpec(jobs, args, env) == Then(JobSpec(jobs[0], args, env), JobsSpec(jobs[1..], args, env))
  {
    assert JobTraces(jobs, args, env)[1..] == JobTraces(jobs[1..], args, env);
  }

  /** The jobs of an invocation: one for a workbook given directly, one per
      manifest row for a manifest (which must exist). */
  function PlanSpec(args: Args, env: Env): Result<seq<Job>> {
    var (_, inputExt) := env.splitext(args.input);
    match InputKindOf(inputExt)
    case Failure(e) => Failure(e)
    case Success(kind) =>
      if kind == ManifestInput then
        if !env.isFile(args.input) then Failure(NoSuchFile(args.input))
        else ManifestJobs(env.readManifest(args.input), args.prefix)
      else Success([Job(args.input, args.outputDir, args.prefix, args.sheet)])
  }

  const SheetnamesHeader: seq<string> := ["Sheet", "Input"]

  function RunSpec(args: Args, env: Env): Trace
  {
    match PlanSpec(args, env)
    case Failure(e) => Fail(e)
    case Success(jobs) =>
      Then(Trace([], if args.sheetnames then [SheetnamesHeader] else [], None), JobsSpec(jobs, args, env))
  }

  /** Plans the jobs of the invocation. */
  method PlanJobs(args: Args, env: Env) returns (r: Result<seq<Job>>)
    ensures r == PlanSpec(args, env)
  {
    var (_, inputExt) := env.splitext(args.input);
    var kind := InputKindOf(inputExt);
    if kind.Failure? {
      return Failure(kind.error);
    }
    if kind.value == ManifestInput {
      if !env.isFile(args.input) {
        return Failure(NoSuchFile(args.input));
      }
      r := PlanManifest(env.readManifest(args.input), args.prefix);
      return;
    }
    return Success([Job(args.input, args.outputDir, args.prefix, args.sheet)]);
  }

  lemma ThenJob(files: seq<OutputFile>, listing: seq<seq<string>>, t: Trace, rest: Trace)
    requires t.error.None?
    ensures Then(Trace(files, listing, None), Then(t, rest))
         == Then(Trace(files + t.files, listing + t.listing, None), rest)
  {
    assert files + (t.files + rest.files) == (files + t.files) + rest.files;
    assert listing + (t.listing + rest.listing) == (listing + t.listing) + rest.listing;
  }

  /** Runs the whole invocation. */
  method Run(args: Args, env: Env) returns (t: Trace)
    ensures t == RunSpec(args, env)
  {
    var planned := PlanJobs(args, env);
    if planned.Failure? {
      return Fail(planned.error);
    }
    var inputList := planned.value;
    var listing: seq<seq<string>> := if args.sheetnames then [SheetnamesHeader] else [];
    var files: seq<OutputFile> := [];
    var k := 0;
    while k < |inputList|
      invariant 0 <= k <= |inputList|
      invariant RunSpec(args, env) == Then(Trace(files, listing, None), JobsSpec(inputList[k..], args, env))
    {
      var d := inputList[k];
      assert inputList[k..][1..] == inputList[k + 1..];
      var jt := RunJob(d, args, env);
      JobsSpecUnfold(inputList[k..], args, env);
      if jt.error.Some? {
        return Trace(files + jt.files, listing + jt.listing, jt.error);
      }
      ThenJob(files, listing, jt, JobsSpec(inputList[k + 1..], args, env));
      files := files + jt.files;
      listing := listing + jt.listing;
      k := k + 1;
    }
    assert inputList[k..] == [];
    return Trace(files, listing, None);
  }

  /** The body of the main loop for one job. */
  method RunJob(d: Job, args: Args, env: Env) returns (t: Trace)
    ensures t == JobSpec(d, args, env)
  {
    var realInputPath := env.realpath(d.inputPath);
    if !env.isFile(realInputPath) {
      return Fail(NoSuchFile(realInputPath));
    }
    var (inputDir, inputFile) := env.split(realInputPath);
    var (inputBaseFn, _) := env.splitext(inputFile);
    if args.sheetnames {
      t := ListSheetnames(d, env);
      return;
    }
    var outputDir := inputDir;
    if Truthy(d.outputDir) {
      if !env.isDir(d.outputDir.value) {
        return Fail(NoSuchDirectory(d.outputDir.value)); // an output directory is never created
      }
      outputDir := d.outputDir.value;
    }
    assert ResolveOutputDir(d.outputDir, inputDir, env.isDir) == Success(outputDir);
    t := ConvertWorkbook(d, inputBaseFn, outputDir, args, env);
  }

  // ---- properties of the invocation ----

  lemma {:induction false} SequenceStops(ts: seq<Trace>, i: nat)
    requires i < |ts|
    requires forall j :: 0 <= j < i ==> ts[j].error.None?
    requires ts[i].error.Some?
    ensures Sequence(ts[..i]).error.None?
    ensures Sequence(ts) == Then(Sequence(ts[..i]), ts[i])
    decreases i
  {
    if i == 0 {
      assert ts[..0] == [];
      assert Then(Trace([], [], None), ts[0]) == ts[0];
    } else {
      SequenceStops(ts[1..], i - 1);
      assert ts[..i][1..] == ts[1..][..i - 1];
      var mid := Sequence(ts[1..][..i - 1]);
      assert ts[0].files + (mid.files + ts[i].files) == (ts[0].files + mid.files) + ts[i].files;
      assert ts[0].listing + (mid.listing + ts[i].listing) == (ts[0].listing + mid.listing) + ts[i].listing;
    }
  }

  /** A fatal condition in job i ends the invocation there: the jobs before it
      ran to completion, nothing of the jobs after it is attempted, and the
      invocation reports that job's error. */
  lemma JobsStopAtFirstError(jobs: seq<Job>, args: Args, env: Env, i: nat)
    requires i < |jobs|
    requires forall j :: 0 <= j < i ==> JobSpec(jobs[j], args, env).error.None?
    requires JobSpec(jobs[i], args, env).error.Some?
    ensures JobsSpec(jobs[..i], args, env).error.None?
    ensures JobsSpec(jobs, args, env) == Then(JobsSpec(jobs[..i], args, env), JobSpec(jobs[i], args, env))
    ensures JobsSpec(jobs, args, env).error == JobSpec(jobs[i], args, env).error
  {
    var ts := JobTraces(jobs, args, env);
    SequenceStops(ts, i);
    assert ts[..i] == JobTraces(jobs[..i], args, env);
  }

  lemma {:induction false} SequenceWritesNothing(ts: seq<Trace>)
    requires forall i :: 0 <= i < |ts| ==> ts[i].files == []
    ensures Sequence(ts).files == []
    decreases |ts|
  {
    if |ts| > 0 {
      SequenceWritesNothing(ts[1..]);
    }
  }

  /** With --sheetnames nothing is converted: no output file is written. */
  lemma SheetnamesWritesNothing(args: Args, env: Env)
    requires args.sheetnames
    ensures RunSpec(args, env).files == []
  {
    if PlanSpec(args, env).Success? {
      SequenceWritesNothing(JobTraces(PlanSpec(args, env).value, args, env));
    }
  }

  /** --sheetnames on one existing workbook lists the header line, then each
      sheet name with the input path, in workbook order. */
  lemma SheetnamesListing(args: Args, env: Env, sheets: seq<Worksheet>)
    requires args.sheetnames
    requires InputKindOf(env.splitext(args.input).1) == Success(WorkbookInput)
    requires env.isFile(env.realpath(args.input))
    requires env.load(args.input) == Some(sheets)
    ensures RunSpec(args, env).error.None?
    ensures |RunSpec(args, env).listing| == 1 + |sheets|
    ensures RunSpec(args, env).listing[0] == ["Sheet", "Input"]
    ensures forall i :: 0 <= i < |sheets| ==> RunSpec(args, env).listing[i + 1] == [sheets[i].title, args.input]
  {
    var job := Job(args.input, args.outputDir, args.prefix, args.sheet);
    assert PlanSpec(args, env) == Success([job]);
    var lines := ListingOf(SheetNames(sheets), args.input);
    assert JobSpec(job, args, env) == Trace([], lines, None);
    JobsSpecUnfold([job], args, env);
    assert [job][1..] == [];
    assert JobTraces([], args, env) == [];
    assert JobsSpec([job], args, env) == Then(Trace([], lines, None), Trace([], [], None));
    ListingOfAt(SheetNames(sheets), args.input);
  }

  /** With --delimiter tab, a workbook whose first selected sheet has rows
      stops there: its output file is created and left empty, and the run
      fails naming it. */
  lemma TabDelimiterStopsWorkbook(sheets: seq<Worksheet>, names: seq<string>, outputDir: string, sep: string,
                                  prefix: string, args: Args)
    requires ValidChoices(args) && args.delimiter == "tab"
    requires |names| > 0 && |SheetByName(sheets, names[0])| > 0
    ensures
      var path := OutputPath(outputDir, sep, prefix, names[0], args.extension);
      SheetsSpec(sheets, names, outputDir, sep, prefix, args)
        == Trace([OutputFile(path, None, [])], [], Some(SheetConversionFailed(path)))
  {
    TabDelimiterRefused(args);
  }

  /** Every file written for a workbook is named after one of the sheets
      converted, in the job's output directory with the job's prefix. */
  lemma {:induction false} SheetFilesNamed(sheets: seq<Worksheet>, names: seq<string>, outputDir: string, sep: string,
                                           prefix: string, args: Args, k: nat)
    requires k < |SheetsSpec(sheets, names, outputDir, sep, prefix, args).files|
    ensures exists i :: 0 <= i < |names| &&
              SheetsSpec(sheets, names, outputDir, sep, prefix, args).files[k].path
                == OutputPath(outputDir, sep, prefix, names[i], args.extension)
    decreases |names|
  {
    var t := SheetsSpec(sheets, names, outputDir, sep, prefix, args);
    var path := OutputPath(outputDir, sep, prefix, names[0], args.extension);
    var rest := SheetsSpec(sheets, names[1..], outputDir, sep, prefix, args);
    match ConvertSpec(SheetByName(sheets, names[0]), args)
    case Skipped =>
      SheetFilesNamed(sheets, names[1..], outputDir, sep, prefix, args, k);
      var i :| 0 <= i < |names[1..]| && rest.files[k].path == OutputPath(outputDir, sep, prefix, names[1..][i], args.extension);
      assert names[1..][i] == names[i + 1];
    case Converted(recs) =>
      if k == 0 {
        assert t.files[0].path == path;
      } else {
        assert t.files[k] == rest.files[k - 1];
        SheetFilesNamed(sheets, names[1..], outputDir, sep, prefix, args, k - 1);
        var i :| 0 <= i < |names[1..]| && rest.files[k - 1].path == OutputPath(outputDir, sep, prefix, names[1..][i], args.extension);
        assert names[1..][i] == names[i + 1];
      }
    case Refused =>
      assert t.files[0].path == path;
    case Failed(_, _) =>
      assert t.files[0].path == path;
  }
}
