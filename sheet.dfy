/** Conversion of one worksheet into the records written to its output file:
    the emptiness check, the column count fixed by the first row, the
    optional synthetic header, and one record per source row. */
module Sheet {
  import opened Values
  import opened Config
  import opened Linebreaks

  /** The column count of a sheet: the width of its first row, capped at
      max_cols when max_cols is 0 or more; a negative max_cols (the default -1)
      means no cap. */
  function NumCols(width: nat, maxCols: int): (n: nat)
    ensures n <= width
    ensures maxCols >= 0 ==> n <= maxCols
    ensures n == width || n == maxCols
    ensures maxCols < 0 ==> n == width
  {
    var numcols := width;
    if maxCols > -1 && numcols > maxCols then maxCols else numcols
  }

  /** Number of leading fields taken by the row index (or its "c0" label). */
  function Offset(rowIndex: bool): nat {
    if rowIndex then 1 else 0
  }

  /** The synthetic label of column i (1-based). */
  function Label(i: nat): string {
    "c" + NatToString(i)
  }

  /** The labels "c1" .. "cn", in order. */
  function Labels(n: nat): Record
    decreases n
  {
    if n == 0 then [] else Labels(n - 1) + [Text(Label(n))]
  }

  /** The synthetic header record: "c0" when the row index is written, then
      one label per column. */
  function Header(n: nat, rowIndex: bool): Record {
    (if rowIndex then [Text("c0")] else []) + Labels(n)
  }

  lemma {:induction false} LabelsAt(n: nat)
    ensures |Labels(n)| == n
    ensures forall j :: 0 <= j < n ==> Labels(n)[j] == Text(Label(j + 1))
    decreases n
  {
    if n > 0 {
      LabelsAt(n - 1);
    }
  }

  /** The header has the row-index label first when asked for, then exactly
      the labels c1 .. cn in column order. */
  lemma HeaderShape(n: nat, rowIndex: bool)
    ensures |Header(n, rowIndex)| == Offset(rowIndex) + n
    ensures rowIndex ==> Header(n, rowIndex)[0] == Text("c0")
    ensures forall j :: Offset(rowIndex) <= j < |Header(n, rowIndex)| ==>
              Header(n, rowIndex)[j] == Text(Label(j - Offset(rowIndex) + 1))
  {
    LabelsAt(n);
  }

  /** No two fields of the header carry the same label. */
  lemma HeaderLabelsDistinct(n: nat, rowIndex: bool, i: nat, j: nat)
    requires i < j < |Header(n, rowIndex)|
    ensures Header(n, rowIndex)[i] != Header(n, rowIndex)[j]
  {
    HeaderShape(n, rowIndex);
    var off := Offset(rowIndex);
    assert j >= off;
    assert Header(n, rowIndex)[j] == Text(Label(j - off + 1));
    var lj := Label(j - off + 1);
    assert lj[1..] == NatToString(j - off + 1);
    if i >= off {
      var li := Label(i - off + 1);
      assert li[1..] == NatToString(i - off + 1);
      if li == lj {
        NatToStringInjective(i - off + 1, j - off + 1);
      }
    }
  }

  /** The first n cells of a row, each through the field transformation. */
  function Fields(row: Row, n: nat, replacement: Option<string>): Record
    requires n <= |row|
    decreases n
  {
    if n == 0 then [] else Fields(row, n - 1, replacement) + [TransformCell(row[n - 1], replacement)]
  }

  /** The record written for the source row with 1-based number k. */
  function DataRecord(row: Row, k: nat, n: nat, args: Args): Record
    requires n <= |row|
  {
    (if args.rowIndex then [Integer(k)] else []) + Fields(row, n, args.linebreakReplacement)
  }

  lemma {:induction false} FieldsAt(row: Row, n: nat, replacement: Option<string>)
    requires n <= |row|
    ensures |Fields(row, n, replacement)| == n
    ensures forall j :: 0 <= j < n ==> Fields(row, n, replacement)[j] == TransformCell(row[j], replacement)
    decreases n
  {
    if n > 0 {
      FieldsAt(row, n - 1, replacement);
    }
  }

  /** A data record is the row number when asked for, then exactly n fields:
      the row's first n cells, transformed, in column order. */
  lemma DataRecordShape(row: Row, k: nat, n: nat, args: Args)
    requires n <= |row|
    ensures |DataRecord(row, k, n, args)| == Offset(args.rowIndex) + n
    ensures args.rowIndex ==> DataRecord(row, k, n, args)[0] == Integer(k)
    ensures forall j :: Offset(args.rowIndex) <= j < |DataRecord(row, k, n, args)| ==>
              DataRecord(row, k, n, args)[j] == TransformCell(row[j - Offset(args.rowIndex)], args.linebreakReplacement)
  {
    FieldsAt(row, n, args.linebreakReplacement);
  }

  /** The first row (from index `from` on) narrower than n, if any. */
  function FirstShortRow(ws: seq<Row>, n: nat, from: nat): (r: Option<nat>)
    requires from <= |ws|
    ensures r.Some? ==> from <= r.value < |ws| && |ws[r.value]| < n
    ensures r.Some? ==> forall j :: from <= j < r.value ==> |ws[j]| >= n
    ensures r.None? ==> forall j :: from <= j < |ws| ==> |ws[j]| >= n
    decreases |ws| - from
  {
    if from == |ws| then None
    else if |ws[from]| < n then Some(from)
    else FirstShortRow(ws, n, from + 1)
  }

  /** The records of the first m rows, row k being numbered k (1-based). */
  function DataRecords(ws: seq<Row>, n: nat, args: Args, m: nat): seq<Record>
    requires m <= |ws|
    requires forall j :: 0 <= j < m ==> |ws[j]| >= n
    decreases m
  {
    if m == 0 then [] else DataRecords(ws, n, args, m - 1) + [DataRecord(ws[m - 1], m, n, args)]
  }

  lemma {:induction false} DataRecordsAt(ws: seq<Row>, n: nat, args: Args, m: nat)
    requires m <= |ws|
    requires forall j :: 0 <= j < m ==> |ws[j]| >= n
    ensures |DataRecords(ws, n, args, m)| == m
    ensures forall j :: 0 <= j < m ==> DataRecords(ws, n, args, m)[j] == DataRecord(ws[j], j + 1, n, args)
    decreases m
  {
    if m > 0 {
      DataRecordsAt(ws, n, args, m - 1);
    }
  }

  function HeaderRecords(n: nat, args: Args): seq<Record> {
    if args.colIndex then [Header(n, args.rowIndex)] else []
  }

  /** What converting one sheet does: an empty sheet is skipped (no output
      file); otherwise the output file is created. When the writer refuses its
      settings the file stays empty and the conversion fails. Otherwise the
      file receives the records, and a row narrower than the column count
      (its 1-based number is kept) ends the conversion with the records
      written before it left in the file. */
  datatype SheetOutcome =
    | Skipped
    | Refused
    | Converted(records: seq<Record>)
    | Failed(written: seq<Record>, row: nat)

  function ConvertSpec(ws: seq<Row>, args: Args): SheetOutcome {
    if |ws| == 0 then Skipped
    else if WriterDialect(args).None? then Refused
    else
      var n := NumCols(|ws[0]|, args.maxCols);
      match FirstShortRow(ws, n, 0)
      case None => Converted(HeaderRecords(n, args) + DataRecords(ws, n, args, |ws|))
      case Some(i) => Failed(HeaderRecords(n, args) + DataRecords(ws, n, args, i), i + 1)
  }

  /** Builds the synthetic header record, label by label. */
  method SynthesizeHeader(numcols: nat, rowIndex: bool) returns (colIndex: Record)
    ensures colIndex == Header(numcols, rowIndex)
  {
    colIndex := [];
    if rowIndex {
      colIndex := colIndex + [Text("c0")]; // the row-index column gets a label too
    }
    var i := 0;
    while i < numcols
      invariant 0 <= i <= numcols
      invariant colIndex == (if rowIndex then [Text("c0")] else []) + Labels(i)
    {
      colIndex := colIndex + [Text("c" + NatToString(i + 1))];
      i := i + 1;
    }
  }

  /** Builds the record of the source row at 0-based position index, cell by
      cell; None when the row has fewer than numcols cells (the source's
      IndexError). */
  method BuildRow(row: Row, index: nat, numcols: nat, args: Args) returns (values: Option<Record>)
    ensures values.None? <==> |row| < numcols
    ensures values.Some? ==> values.value == DataRecord(row, index + 1, numcols, args)
  {
    var vals: Record := [];
    if args.rowIndex {
      vals := vals + [Integer(index + 1)];
    }
    var colnum := 0;
    while colnum < numcols
      invariant 0 <= colnum <= numcols && colnum <= |row|
      invariant vals == (if args.rowIndex then [Integer(index + 1)] else []) + Fields(row, colnum, args.linebreakReplacement)
    {
      if colnum >= |row| {
        return None;
      }
      vals := vals + [TransformCell(row[colnum], args.linebreakReplacement)];
      colnum := colnum + 1;
    }
    return Some(vals);
  }

  /** Converts one sheet, pushing each record to the writer as it is built. */
  method ConvertSheet(ws: seq<Row>, args: Args) returns (out: SheetOutcome)
    ensures out == ConvertSpec(ws, args)
  {
    if |ws| == 0 {
      return Skipped; // no output file is opened for an empty sheet
    }
    var dialect := WriterDialect(args); // the file is created before the writer is built
    if dialect.None? {
      return Refused;
    }
    var written: seq<Record> := [];
    var numcols := |ws[0]|;
    if args.maxCols > -1 {
      if numcols > args.maxCols {
        numcols := args.maxCols;
      }
    }
    assert numcols == NumCols(|ws[0]|, args.maxCols);

    if args.colIndex {
      var colIndex := SynthesizeHeader(numcols, args.rowIndex);
      written := written + [colIndex];
    }

    var index := 0;
    while index < |ws|
      invariant 0 <= index <= |ws|
      invariant forall j :: 0 <= j < index ==> |ws[j]| >= numcols
      invariant written == HeaderRecords(numcols, args) + DataRecords(ws, numcols, args, index)
    {
      var values := BuildRow(ws[index], index, numcols, args);
      if values.None? {
        ConvertSpecFails(ws, args, index);
        return Failed(written, index + 1);
      }
      written := written + [values.value];
      index := index + 1;
    }
    ConvertSpecSucceeds(ws, args);
    return Converted(written);
  }

  lemma ConvertSpecFails(ws: seq<Row>, args: Args, i: nat)
    requires WriterDialect(args).Some?
    requires i < |ws|
    requires |ws[i]| < NumCols(|ws[0]|, args.maxCols)
    requires forall j :: 0 <= j < i ==> |ws[j]| >= NumCols(|ws[0]|, args.maxCols)
    ensures
      var n := NumCols(|ws[0]|, args.maxCols);
      ConvertSpec(ws, args) == Failed(HeaderRecords(n, args) + DataRecords(ws, n, args, i), i + 1)
  {
    var n := NumCols(|ws[0]|, args.maxCols);
    var r := FirstShortRow(ws, n, 0);
    assert r == Some(i);
  }

  lemma ConvertSpecSucceeds(ws: seq<Row>, args: Args)
    requires WriterDialect(args).Some?
    requires |ws| > 0
    requires forall j :: 0 <= j < |ws| ==> |ws[j]| >= NumCols(|ws[0]|, args.maxCols)
    ensures
      var n := NumCols(|ws[0]|, args.maxCols);
      ConvertSpec(ws, args) == Converted(HeaderRecords(n, args) + DataRecords(ws, n, args, |ws|))
  {
    var n := NumCols(|ws[0]|, args.maxCols);
    assert FirstShortRow(ws, n, 0).None?;
  }

  /** An empty sheet, and only an empty sheet, is skipped. */
  lemma SkippedIffEmpty(ws: seq<Row>, args: Args)
    ensures ConvertSpec(ws, args).Skipped? <==> |ws| == 0
  {
  }

  /** The writer refuses its settings exactly for a non-empty sheet whose
      delimiter or quote character is not a single character. */
  lemma RefusedIff(ws: seq<Row>, args: Args)
    ensures ConvertSpec(ws, args).Refused? <==>
              |ws| > 0 && (|args.delimiter| != 1 || |args.quotechar| != 1)
  {
  }

  /** A sheet converts completely exactly when it is non-empty, the writer
      accepts its settings and no row is narrower than the column count. */
  lemma ConvertedIff(ws: seq<Row>, args: Args)
    ensures ConvertSpec(ws, args).Converted? <==>
              && |ws| > 0
              && WriterDialect(args).Some?
              && forall j :: 0 <= j < |ws| ==> |ws[j]| >= NumCols(|ws[0]|, args.maxCols)
  {
    if |ws| > 0 {
      var n := NumCols(|ws[0]|, args.maxCols);
      var first := FirstShortRow(ws, n, 0);
      if first.Some? {
        assert |ws[first.value]| < n;
      }
    }
  }

  /** A complete conversion writes the header first (when asked for), then
      one record per source row, in source order, the first row included. */
  lemma ConvertedShape(ws: seq<Row>, args: Args)
    requires ConvertSpec(ws, args).Converted?
    ensures |ws| > 0
    ensures
      var n := NumCols(|ws[0]|, args.maxCols);
      var recs := ConvertSpec(ws, args).records;
      var h := if args.colIndex then 1 else 0;
      && |recs| == h + |ws|
      && (args.colIndex ==> recs[0] == Header(n, args.rowIndex))
      && forall k :: 0 <= k < |ws| ==> recs[h + k] == DataRecord(ws[k], k + 1, n, args)
  {
    ConvertedIff(ws, args);
    var n := NumCols(|ws[0]|, args.maxCols);
    ConvertSpecSucceeds(ws, args);
    DataRecordsAt(ws, n, args, |ws|);
  }

  /** A conversion that fails on a row stops at the first narrow row
      (1-based); the file then holds the header (if asked for) and the records
      of every earlier row. */
  lemma FailedShape(ws: seq<Row>, args: Args)
    requires ConvertSpec(ws, args).Failed?
    ensures |ws| > 0 && WriterDialect(args).Some?
    ensures
      var n := NumCols(|ws[0]|, args.maxCols);
      var r := ConvertSpec(ws, args).row;
      var w := ConvertSpec(ws, args).written;
      var h := if args.colIndex then 1 else 0;
      && 1 <= r <= |ws|
      && |ws[r - 1]| < n
      && (forall j :: 0 <= j < r - 1 ==> |ws[j]| >= n)
      && |w| == h + r - 1
      && (args.colIndex ==> w[0] == Header(n, args.rowIndex))
      && forall k :: 0 <= k < r - 1 ==> w[h + k] == DataRecord(ws[k], k + 1, n, args)
  {
    var n := NumCols(|ws[0]|, args.maxCols);
    var i := FirstShortRow(ws, n, 0).value;
    var hs := HeaderRecords(n, args);
    var ds := DataRecords(ws, n, args, i);
    assert ConvertSpec(ws, args) == Failed(hs + ds, i + 1);
    DataRecordsAt(ws, n, args, i);
    assert forall k :: 0 <= k < i ==> (hs + ds)[|hs| + k] == ds[k];
  }

  /** With the row index on, data record k (1-based) starts with k; every data
      record carries exactly the capped column count of cells after it. */
  lemma RowNumbersAndWidth(ws: seq<Row>, args: Args, k: nat)
    requires ConvertSpec(ws, args).Converted?
    requires (if args.colIndex then 1 else 0) + k < |ConvertSpec(ws, args).records|
    ensures
      var n := NumCols(|ws[0]|, args.maxCols);
      var rec := ConvertSpec(ws, args).records[(if args.colIndex then 1 else 0) + k];
      && |rec| == Offset(args.rowIndex) + n
      && (args.rowIndex ==> rec[0] == Integer(k + 1))
  {
    ConvertedShape(ws, args);
    var n := NumCols(|ws[0]|, args.maxCols);
    DataRecordShape(ws[k], k + 1, n, args);
  }

  /** A cap of 2 columns on a first row of width 5: every record is cut to two
      data fields. */
  lemma MaxColsExample(ws: seq<Row>, args: Args, k: nat)
    requires |ws| > 0 && |ws[0]| == 5 && args.maxCols == 2
    requires ConvertSpec(ws, args).Converted? && k < |ConvertSpec(ws, args).records|
    ensures |ConvertSpec(ws, args).records[k]| == Offset(args.rowIndex) + 2
  {
    ConvertedShape(ws, args);
    HeaderShape(2, args.rowIndex);
    if args.colIndex && k == 0 {
    } else {
      var h := if args.colIndex then 1 else 0;
      RowNumbersAndWidth(ws, args, k - h);
    }
  }

  /** With --delimiter tab every non-empty sheet is refused; with the
      delimiter replaced by the tab character the refusal is gone, and the
      sheet converts exactly when no row is narrower than the column count. */
  lemma CorrectedTabConverts(ws: seq<Row>, args: Args)
    requires ValidChoices(args) && args.delimiter == "tab" && |args.quotechar| == 1
    requires |ws| > 0
    ensures ConvertSpec(ws, args) == Refused
    ensures !ConvertSpec(ws, CorrectedArgs(args)).Refused?
    ensures ConvertSpec(ws, CorrectedArgs(args)).Converted? <==>
              forall j :: 0 <= j < |ws| ==> |ws[j]| >= NumCols(|ws[0]|, args.maxCols)
  {
    TabDelimiterRefused(args);
    ConvertedIff(ws, CorrectedArgs(args));
  }
}
