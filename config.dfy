/** The invocation's parsed command-line values, the fatal conditions, and the
    writer settings derived from the command line. */
module Config {
  import opened Values

  /** The parsed command line: argparse has already applied its defaults
      (delimiter ",", encoding "utf-8", extension "csv", max_cols -1,
      quotechar "\"", quoting "MINIMAL"); an option without a default that was
      not given is None. */
  datatype Args = Args(
    input: string,
    outputDir: Option<string>,
    colIndex: bool,
    delimiter: string,
    encoding: string,
    extension: string,
    linebreakReplacement: Option<string>,
    maxCols: int,
    noPrefix: bool,
    prefix: Option<string>,
    rowIndex: bool,
    quotechar: string,
    quoting: string,
    sheet: Option<string>,
    sheetnames: bool)

  const DelimiterChoices: set<string> := {",", ";", "|", "tab"}
  const EncodingChoices: set<string> := {"ascii", "latin-1", "utf-8", "utf-16"}
  const QuotingChoices: set<string> := {"ALL", "MINIMAL", "NONE", "NONNUMERIC"}

  /** What argparse guarantees about the options that have a list of choices. */
  predicate ValidChoices(args: Args) {
    && args.delimiter in DelimiterChoices
    && args.encoding in EncodingChoices
    && args.quoting in QuotingChoices
  }

  /** Every condition that ends the invocation with exit status 1. */
  datatype Error =
    | InvalidExtension(ext: string)
    | NoSuchFile(path: string)
    | MissingInputHeader
    | ManifestRowTooShort(line: nat)
    | NoSuchDirectory(dir: string)
    | LoadFailed(path: string)
    | SheetNotFound(sheet: string)
    | SheetConversionFailed(path: string)

  datatype Result<+T> = Success(value: T) | Failure(error: Error)

  /** The four quoting modes of the delimited-text writer. */
  datatype QuoteStyle = QuoteAll | QuoteMinimal | QuoteNone | QuoteNonNumeric

  /** The --quoting value selects a mode; any value other than the three
      named ones leaves the default, minimal quoting. */
  function QuoteStyleOf(quoting: string): (q: QuoteStyle)
    ensures q == QuoteAll <==> quoting == "ALL"
    ensures q == QuoteNone <==> quoting == "NONE"
    ensures q == QuoteNonNumeric <==> quoting == "NONNUMERIC"
    ensures q == QuoteMinimal <==> quoting !in {"ALL", "NONE", "NONNUMERIC"}
  {
    if quoting == "ALL" then QuoteAll
    else if quoting == "NONE" then QuoteNone
    else if quoting == "NONNUMERIC" then QuoteNonNumeric
    else QuoteMinimal
  }

  /** The command-line name of each mode: the selection is onto, and each mode
      has exactly one name among the choices. */
  function QuotingName(q: QuoteStyle): (s: string)
    ensures s in QuotingChoices && QuoteStyleOf(s) == q
    ensures forall t :: t in QuotingChoices && QuoteStyleOf(t) == q ==> t == s
  {
    match q
    case QuoteAll => "ALL"
    case QuoteMinimal => "MINIMAL"
    case QuoteNone => "NONE"
    case QuoteNonNumeric => "NONNUMERIC"
  }

  /** The writer settings of one output file. The line terminator is always a
      single line feed. */
  datatype Dialect = Dialect(delimiter: char, quotechar: char, quoting: QuoteStyle, encoding: string)

  /** Building the csv writer, as the code is written: the --delimiter and
      --quotechar values are passed on unchanged, and the writer accepts only
      a one-character string for each; None when it refuses them. */
  function WriterDialect(args: Args): (d: Option<Dialect>)
    ensures d.Some? <==> |args.delimiter| == 1 && |args.quotechar| == 1
    ensures d.Some? ==> [d.value.delimiter] == args.delimiter && [d.value.quotechar] == args.quotechar
    ensures d.Some? ==> d.value.quoting == QuoteStyleOf(args.quoting) && d.value.encoding == args.encoding
  {
    if |args.delimiter| == 1 && |args.quotechar| == 1 then
      Some(Dialect(args.delimiter[0], args.quotechar[0], QuoteStyleOf(args.quoting), args.encoding))
    else None
  }

  /** Of the four delimiter choices, "tab" is the one the writer refuses, so
      every non-empty sheet fails to convert when it is selected; the other
      three are accepted with a one-character quote character. */
  lemma TabDelimiterRefused(args: Args)
    requires ValidChoices(args)
    ensures args.delimiter == "tab" ==> WriterDialect(args).None?
    ensures args.delimiter != "tab" && |args.quotechar| == 1 ==> WriterDialect(args).Some?
  {
    assert |"tab"| == 3;
  }

  /** The delimiter character each choice stands for, "tab" being the
      horizontal tab: every choice yields a usable one-character delimiter. */
  function DelimiterChar(arg: string): (c: char)
    requires arg in DelimiterChoices
    ensures arg == "tab" ==> c == '\t'
    ensures arg != "tab" ==> [c] == arg
    ensures c in {',', ';', '|', '\t'}
  {
    if arg == "tab" then '\t' else arg[0]
  }

  /** The command line as evidently intended: the delimiter choice replaced
      by the character it stands for, every other option unchanged. The
      writer then accepts every delimiter choice. */
  function CorrectedArgs(args: Args): (c: Args)
    requires ValidChoices(args)
    ensures c.(delimiter := args.delimiter) == args
    ensures c.delimiter == [DelimiterChar(args.delimiter)]
    ensures WriterDialect(c).Some? <==> |args.quotechar| == 1
    ensures WriterDialect(c).Some? ==> WriterDialect(c).value.delimiter == DelimiterChar(args.delimiter)
  {
    args.(delimiter := [DelimiterChar(args.delimiter)])
  }
}
