# xlsx-conv, modelled in Dafny

`xlsx-conv.py` converts the worksheets of OOXML Excel workbooks (xlsx, xlsm,
xltx, xltm) into delimited text files, one output file per sheet. It takes
either a single workbook or a tab-separated manifest (a `.txt` file) that
names one workbook per line. For each job it resolves the output directory,
selects the sheets, builds the output prefix and path, then converts each
sheet record by record. With `--sheetnames` it lists the sheet names instead
of converting. Every fatal condition ends the run with exit status 1. Files
already written stay on disk, including the partial file of a sheet that
failed.

The model has six modules:

- `Values`: cell values as the workbook reader delivers them, and the
  decimal rendering of numbers used for row numbers and column labels.
- `Linebreaks`: the CRLF/LF/CR replacement on one text cell, modelled
  as Python's left-to-right, non-overlapping `str.replace` applied three
  times. For a replacement that holds no CR or LF it is proved equal to a
  one-pass reference definition.
- `Config`: the parsed command line, the fatal conditions, the quoting-mode
  map, and the construction of the csv writer as written: `--delimiter`
  and `--quotechar` are passed on unchanged and must be one character
  each. The intended delimiter (`tab` as the tab character) is defined
  beside it as `CorrectedArgs`. The conversion pipeline follows the code as
  written; the corrected variant is proved to remove the refusal.
- `Sheet`: `convertSheet`. It is an imperative method that builds the
  header and each data record by appending, and it is proved against a
  specification function `ConvertSpec` of the worksheet rows and the options.
- `Planning`: the input-extension check, the manifest header lookup and
  per-line job loop (a method proved against `ManifestJobs`), sheet
  selection, output-prefix precedence, the output path, and output-directory
  resolution.
- `Driver`: `convertWorkbook`, `listSheetnames`, the construction of the job
  list and the main loop, each a method proved against a specification
  function. Everything the script asks of the filesystem and of the
  workbook reader is a given function in an `Env` value: `os.sep`,
  `os.path.splitext`, `os.path.split`, `os.path.realpath`, `isfile`,
  `isdir`, the tab-separated manifest reader and `load_workbook`. An
  invocation's effect is a `Trace`: the files written, in order, each with
  its path, writer settings and records; the lines listed for
  `--sheetnames`; and the fatal condition that stopped the run, if any.

## Model

| member | source | states |
|---|---|---|
| Values.NatToString | xlsx-conv.py:188 | `str(i)` of a natural number is a non-empty string of decimal digits with no leading zero, a single digit exactly below ten |
| Values.ParseNatToString | xlsx-conv.py:188 | the decimal rendering reads back to the number it renders |
| Values.NatToStringInjective | xlsx-conv.py:188 | distinct numbers give distinct renderings, so distinct column labels |
| Linebreaks.ReplaceCharConcat | xlsx-conv.py:201 | a one-character `replace` distributes over concatenation |
| Linebreaks.ReplaceCharAbsent | xlsx-conv.py:201 | `replace` of a character the text does not contain leaves the text unchanged |
| Linebreaks.CharPassesConcat | xlsx-conv.py:201 | the LF-then-CR passes distribute over concatenation |
| Linebreaks.CharPassesKeepRep | xlsx-conv.py:201 | the LF-then-CR passes leave a replacement without CR or LF unchanged |
| Linebreaks.CharPassesSingle | xlsx-conv.py:201 | the LF-then-CR passes turn a lone LF or CR into the replacement and keep every other character |
| Linebreaks.ReplaceLinebreaksIsOnePass | xlsx-conv.py:201 | when the replacement has no CR or LF, the three chained `replace` calls equal one left-to-right pass that replaces each CRLF pair, each lone LF and each lone CR by the replacement |
| Linebreaks.OnePassNoLinebreak | xlsx-conv.py:201 | the one-pass result holds no CR or LF when the replacement holds none |
| Linebreaks.ReplaceLinebreaksRemovesAll | xlsx-conv.py:200-201 | after replacement with a replacement free of CR and LF, the cell text holds no CR or LF |
| Linebreaks.ReplaceLinebreaksExample | xlsx-conv.py:201 | `"a\r\nb\nc\rd"` with replacement `" "` becomes `"a b c d"`: a CRLF pair gives one replacement |
| Linebreaks.OnePassExample | xlsx-conv.py:201 | the reference pass gives `"a b c d"` on the same input |
| Linebreaks.OnePassExampleTail | xlsx-conv.py:201 | the reference pass on the tail `"c\rd"` gives `"c d"` |
| Linebreaks.ReplacementWithLinebreakIsRewritten | xlsx-conv.py:201 | a replacement that itself holds line breaks is rewritten by the later passes (`"\r\n"` with replacement `"\r\n"` gives `"\r\n\r\n\n"`), so the chain differs from the one-pass reading there |
| Linebreaks.TransformCell | xlsx-conv.py:199-202 | a cell changes only when a replacement is configured (even an empty one) and the value is text; text stays text; with a replacement free of CR and LF the result is the one-pass replacement and holds no line break |
| Config.QuoteStyleOf | xlsx-conv.py:147-154 | `ALL`, `NONE` and `NONNUMERIC` select their modes, each exactly for that name; every other value gives minimal quoting |
| Config.QuotingName | xlsx-conv.py:147-154 | every mode is selected by exactly one of the four `--quoting` choices |
| Config.WriterDialect | xlsx-conv.py:156-172 | the writer is built exactly when the `--delimiter` and `--quotechar` values, passed on unchanged, are one character each; it then carries them, the selected quoting mode and the encoding |
| Config.TabDelimiterRefused | xlsx-conv.py:157-172 | of the four delimiter choices, `tab` is the one the writer refuses; the other three are accepted with a one-character quote character |
| Config.DelimiterChar | xlsx-conv.py:157 | corrected delimiter: `tab` stands for the tab character and each other choice for its own single character |
| Config.CorrectedArgs | xlsx-conv.py:157-172 | corrected command line: only the delimiter changes, to the character its choice stands for, and the writer then accepts every delimiter choice |
| Sheet.NumCols | xlsx-conv.py:175-178 | the column count is the first row's width, capped by `max_cols` exactly when `max_cols` is at least 0 (the default -1 means no cap) |
| Sheet.LabelsAt | xlsx-conv.py:187-189 | the synthetic labels are exactly `c1` … `c<numcols>`, in order |
| Sheet.HeaderShape | xlsx-conv.py:182-190 | the header has `numcols` labels, preceded by `c0` exactly when the row index is on |
| Sheet.HeaderLabelsDistinct | xlsx-conv.py:182-190 | no two header labels are equal |
| Sheet.FieldsAt | xlsx-conv.py:197-202 | a record's fields are the first `numcols` cells of the row, in order, each passed through line-break replacement; later cells are dropped |
| Sheet.DataRecordShape | xlsx-conv.py:194-203 | a data record is the 1-based row number (when the row index is on) followed by exactly `numcols` transformed cells |
| Sheet.FirstShortRow | xlsx-conv.py:197-198 | finds the first row narrower than the column count, the one whose `row[colnum]` raises; every earlier row is wide enough |
| Sheet.DataRecordsAt | xlsx-conv.py:193-203 | the data records are one per source row, in source order, record k built from row k with number k+1 |
| Sheet.SynthesizeHeader | xlsx-conv.py:184-189 | the loop that appends `c0` and `c1` … `c<numcols>` builds exactly the header |
| Sheet.BuildRow | xlsx-conv.py:194-202 | the loop over the columns fails exactly when the row is narrower than the column count; otherwise it yields that row's data record |
| Sheet.ConvertSheet | xlsx-conv.py:145-203 | the conversion of one sheet does what `ConvertSpec` says: skip an empty sheet; otherwise create the file and fail with it empty when the writer refuses its settings; otherwise write the header (if asked for) and the data records, and stop at the first narrow row |
| Sheet.ConvertSpecFails | xlsx-conv.py:193-203 | once the writer is built, a narrow row i, with every earlier row wide enough, makes the conversion fail at row i (kept 1-based in the outcome), with the header and the records of rows before it written |
| Sheet.ConvertSpecSucceeds | xlsx-conv.py:171-203 | a non-empty sheet whose writer is built and which has no narrow row converts to the header followed by all data records |
| Sheet.RefusedIff | xlsx-conv.py:164-172 | the writer refuses its settings, leaving the created file empty, exactly for a non-empty sheet whose delimiter or quote character is not one character |
| Sheet.SkippedIffEmpty | xlsx-conv.py:164-169 | a sheet is skipped (no file, no error) exactly when it has no rows |
| Sheet.ConvertedIff | xlsx-conv.py:164-203 | a sheet converts completely exactly when it is non-empty, the writer accepts its settings and no row is narrower than the column count |
| Sheet.ConvertedShape | xlsx-conv.py:182-203 | a complete conversion writes the header first (when `col_index` is set), then exactly one record per source row, in order, the first row included |
| Sheet.FailedShape | xlsx-conv.py:193-203 | a conversion that fails on a row stops at the first narrow row (its 1-based number kept in the outcome), after the writer was built, leaving the header and the records of every earlier row in the file |
| Sheet.RowNumbersAndWidth | xlsx-conv.py:195-197 | with the row index on, data record k (1-based) starts with the integer k; every data record has the row-number column plus exactly `numcols` cells |
| Sheet.MaxColsExample | xlsx-conv.py:176-178 | with `max_cols` 2 and a first row of width 5, every record written has two data fields |
| Sheet.CorrectedTabConverts | xlsx-conv.py:157-203 | with `--delimiter tab` every non-empty sheet is refused; with the corrected command line the refusal is gone and the sheet converts exactly when no row is narrower than the column count |
| Planning.Lower | xlsx-conv.py:81 | lower-casing keeps the length |
| Planning.LowerIdempotent | xlsx-conv.py:81 | lower-casing twice is lower-casing once |
| Planning.InputKindOf | xlsx-conv.py:79-87 | an extension is accepted exactly when its lower-cased form is one of the five; it is a manifest exactly when that form is `.txt`; otherwise the check fails |
| Planning.InputKindIgnoresCase | xlsx-conv.py:81 | the check gives the same answer for an extension and its lower-cased form |
| Planning.InputKindExamples | xlsx-conv.py:79-87 | `.XLSX` is a workbook, `.Txt` a manifest, `.csv` a refused input |
| Planning.IndexOf | xlsx-conv.py:99-108 | `list.index`: the first position holding the name, or none exactly when the name is absent |
| Planning.LowerAll | xlsx-conv.py:94 | the lower-cased header list has one entry per header |
| Planning.ParseHeader | xlsx-conv.py:93-108 | a header without `input` (in any letter case) is refused; otherwise each column is located at its first lower-cased occurrence, and `outputdir`, `prefix` and `sheet` are optional |
| Planning.FirstUnfitRow | xlsx-conv.py:109-126 | finds the first manifest line lacking a column that the header names; every earlier line has them all |
| Planning.JobsUpToAt | xlsx-conv.py:109-127 | the jobs planned before a given line are one per earlier data line, in file order |
| Planning.PlanManifest | xlsx-conv.py:93-127 | the manifest loop appends exactly the jobs that `ManifestJobs` specifies and fails on the first line too short for the header |
| Planning.ManifestFailsAt | xlsx-conv.py:109-126 | a data line too short for the header, with every earlier line complete, ends planning with an error (the index error the script does not catch) |
| Planning.ManifestSucceeds | xlsx-conv.py:109-127 | when every data line is complete, the plan is one job per data line |
| Planning.ManifestJobsShape | xlsx-conv.py:93-127 | a missing `input` header is refused; otherwise planning succeeds exactly when every line is complete, giving one job per line in file order; a missing `outputdir` or `sheet` column gives None and a missing `prefix` column gives `--prefix` |
| Planning.ManifestExample | xlsx-conv.py:93-127 | the header `input outputDir prefix` with one line gives one job with that directory and prefix and no sheet |
| Planning.ResolveOutputDir | xlsx-conv.py:287-292 | an empty or absent output directory means the input's directory; otherwise it must be an existing directory, and a missing one is an error naming it |
| Planning.SelectSheets | xlsx-conv.py:218-225 | without a (non-empty) requested sheet, all sheet names in workbook order; with one, exactly that sheet, and an error when the workbook lacks it |
| Planning.OutputPrefix | xlsx-conv.py:226-230 | `--noprefix` gives `""` and takes precedence; a non-empty custom prefix gives `prefix + "."`; otherwise `basefn + "."`; a prefix is empty or ends with `.` |
| Planning.OutputPathInjective | xlsx-conv.py:233 | within one directory and prefix, distinct sheet names give distinct output paths |
| Planning.OutputPathExample | xlsx-conv.py:226-233 | directory `/tmp`, prefix `foo` and sheet `Sheet1` give `/tmp/foo.Sheet1.csv` |
| Driver.SheetNames | xlsx-conv.py:218 | the workbook's sheet names are the sheet titles, in workbook order |
| Driver.SheetByName | xlsx-conv.py:232 | `wb[name]` is the first sheet with that title |
| Driver.ConvertWorkbook | xlsx-conv.py:208-239 | loading, sheet selection and prefix resolution do what `WorkbookSpec` says: a load failure or a missing requested sheet is fatal |
| Driver.ConvertSheets | xlsx-conv.py:231-239 | the sheets are converted in order, each to its own path; an empty sheet leaves no file; a sheet whose writer refuses its settings leaves an empty file and a sheet with a narrow row its partial file, and either ends the run with a conversion failure |
| Driver.ListingOfAt | xlsx-conv.py:255-261 | the listing has one line per sheet, in order, each the sheet name and the path the workbook was given by |
| Driver.ListSheetnames | xlsx-conv.py:244-261 | listing a workbook either fails to load it or produces exactly `ListingOf` its sheet names |
| Driver.PlanJobs | xlsx-conv.py:76-135 | planning checks the extension, requires an existing manifest file, and gives one job per manifest line or a single job carrying `-o`, `--prefix` and `--sheet` |
| Driver.Run | xlsx-conv.py:267-309 | the invocation does what `RunSpec` says: the planned jobs, after the `Sheet,Input` header line when listing, run in order until the first fatal condition, and a planning failure ends the run before any job |
| Driver.RunJob | xlsx-conv.py:272-309 | one job: a missing input file is an error naming its real path; then either the sheet names are listed, or the output directory is resolved and the workbook converted |
| Driver.SequenceStops | xlsx-conv.py:270-309 | when step i is the first to fail, the run is the steps before it, all complete, followed by step i |
| Driver.JobsStopAtFirstError | xlsx-conv.py:270-309 | a fatal condition in job i ends the invocation: earlier jobs ran completely, no later job is attempted, and the run reports job i's error |
| Driver.SequenceWritesNothing | xlsx-conv.py:270-309 | steps that write no file make a run that writes no file |
| Driver.SheetnamesWritesNothing | xlsx-conv.py:282-284 | with `--sheetnames` no output file is written, whatever the jobs |
| Driver.SheetnamesListing | xlsx-conv.py:244-268 | `--sheetnames` on one existing workbook lists `Sheet,Input`, then each sheet name with the input path, in workbook order, and ends without error |
| Driver.TabDelimiterStopsWorkbook | xlsx-conv.py:157-172 | with `--delimiter tab`, a workbook whose first selected sheet has rows leaves exactly one file, empty and with no writer built, and the run fails there |
| Driver.SheetFilesNamed | xlsx-conv.py:231-233 | every file written for a workbook is at the output path of one of the selected sheets, in the job's directory with the job's prefix |

## Left out

- Argument parsing (`argparse`) is not modelled. The parsed options are an `Args` value, and `ValidChoices` records what the choice lists guarantee.
- How the csv writer quotes and escapes fields, and its line terminator, are not modelled. An output file is its sequence of records plus the writer settings (`Dialect`): delimiter, quote character, quoting mode and encoding. The settings are None when the writer refused them.
- The error values carry model bookkeeping that the script does not print. The message at line 82 is fixed and does not name the extension. Lines 237-238 print neither a row nor a path. So the extension in `InvalidExtension`, the line in `ManifestRowTooShort`, the path in `SheetConversionFailed` and the row in a `Failed` sheet outcome identify the failing item for the proofs only.
- A manifest line too short for its header ends the run with an index error that the script does not catch. It gives a traceback and exit status 1, and is modelled as `ManifestRowTooShort`.
- Only the writer's one-character rules for delimiter and quote character are modelled. Checks that only some Python versions make when building the writer are not modelled, such as refusing a delimiter equal to the quote character or a line-break delimiter.
- The csv writer's rule that `QUOTE_NONE` needs an escape character for fields containing the delimiter or quote character is not modelled. A value that the writer would refuse that way is not a modelled failure.
- The text encoding of output files is not modelled. The encoding is kept in `Dialect`, and a codec error on a value that the encoding cannot represent is not a modelled failure.
- Workbook decoding (`load_workbook`) is the given function `Env.load`. The rows it yields are taken as given, already decoded with cached formula values.
- The manifest reader (`csv.reader` with a tab delimiter) is the given function `Env.readManifest`, which yields the lines as lists of fields. Quoted fields in the manifest are therefore not modelled.
- Filesystem calls (`realpath`, `isfile`, `isdir`, `split`, `splitext`, `os.sep`) are given functions of `Env`. Opening an output file is assumed to succeed, because a refused `open` is an operating-system condition outside the model.
- Timestamped progress messages and error messages on standard output are not modelled. `sys.exit(1)` is the `error` of the `Trace`.
- The `--sheetnames` listing is kept as field pairs, not as the text the csv writer prints.
- Planning.Lower: lower-cases only ASCII letters, while Python's `str.lower` covers all of Unicode. This matters only for extensions or header names containing non-ASCII letters.
- Driver.ConvertWorkbook: line 233 reads the module-level `outputDir` assigned at lines 287-294, not the job's entry. Both hold the same value when `convertWorkbook` runs, so the model passes the resolved directory.
- Where the script's own description disagrees with the code, the model follows the code. The output file name has a `.` after the prefix (`<prefix>.<sheet>.<ext>`). Also, in manifest mode a missing `outputdir` or `sheet` column gives None rather than the command-line value.

## Findings

| source | as written | input that shows it | evidently intended | confidence | as-written member | corrected member |
|---|---|---|---|---|---|---|
| xlsx-conv.py:157 | the `--delimiter` choice is handed to `csv.writer` unchanged, and the writer accepts only a one-character delimiter | `--delimiter tab` on a workbook with a non-empty sheet: the output file is created, building the writer raises, the file stays empty, and the run exits with status 1 | `tab` stands for the tab character | not executed | Config.TabDelimiterRefused | Sheet.CorrectedTabConverts |
