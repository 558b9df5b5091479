/** Cell values and output records of the converter, and the decimal rendering
    of integers used for row numbers and synthetic column labels. */
module Values {

  datatype Option<+T> = None | Some(value: T)

  /** The value a worksheet cell holds once the workbook reader has decoded it
      (the reader runs with cached formula results). Numbers keep the reader's
      distinction between integers and other numbers; a date/time is kept as
      the text it is rendered to. An empty cell has no value (None in the source). */
  datatype Cell =
    | Text(text: string)
    | Integer(integer: int)
    | Decimal(number: real)
    | Boolean(truth: bool)
    | DateTime(stamp: string)
    | Empty

  /** One worksheet row, as the reader yields it. */
  type Row = seq<Cell>

  /** One record handed to the delimited-text writer: one output line. */
  type Record = seq<Cell>

  predicate IsDigit(c: char) {
    '0' <= c <= '9'
  }

  function DigitChar(d: nat): (c: char)
    requires d < 10
    ensures IsDigit(c)
    ensures c == '0' <==> d == 0
  {
    ('0' as int + d) as char
  }

  function DigitValue(c: char): (d: nat)
    requires IsDigit(c)
    ensures d < 10
  {
    (c as int - '0' as int) as nat
  }

  /** Decimal rendering of a natural number, as Python's str() writes it:
      digits only, a single digit exactly below ten, and no leading zero. */
  function NatToString(n: nat): (s: string)
    ensures |s| > 0
    ensures forall i :: 0 <= i < |s| ==> IsDigit(s[i])
    ensures n < 10 <==> |s| == 1
    ensures n > 0 ==> s[0] != '0'
    decreases n
  {
    if n < 10 then [DigitChar(n)] else NatToString(n / 10) + [DigitChar(n % 10)]
  }

  /** Reads a string of decimal digits back as a number. */
  function ParseDecimal(s: string): nat
    requires forall i :: 0 <= i < |s| ==> IsDigit(s[i])
    decreases |s|
  {
    if |s| == 0 then 0 else ParseDecimal(s[..|s| - 1]) * 10 + DigitValue(s[|s| - 1])
  }

  /** The decimal rendering can be read back: it loses nothing. */
  lemma {:induction false} ParseNatToString(n: nat)
    ensures ParseDecimal(NatToString(n)) == n
    decreases n
  {
    var s := NatToString(n);
    if n < 10 {
      assert s[..|s| - 1] == [];
    } else {
      assert s[..|s| - 1] == NatToString(n / 10);
      ParseNatToString(n / 10);
    }
  }

  /** Distinct numbers have distinct renderings. */
  lemma NatToStringInjective(m: nat, n: nat)
    requires NatToString(m) == NatToString(n)
    ensures m == n
  {
    ParseNatToString(m);
    ParseNatToString(n);
  }
}
