/** Spreadsheet cell addresses as the validation report uses them: a column in
    bijective base 26 (A..Z, AA, AB, ...) followed by the 1-based sheet row, where
    sheet row 1 is the header so data row `i` is sheet row `i + 2`. */
module CellAddress {
  import opened GoStrconv

  predicate IsLetter(ch: char) {
    'A' <= ch <= 'Z'
  }

  predicate AllLetters(s: string) {
    forall k :: 0 <= k < |s| ==> IsLetter(s[k])
  }

  function Letter(d: nat): (ch: char)
    requires d < 26
    ensures IsLetter(ch)
  {
    ('A' as int + d) as char
  }

  function LetterValue(ch: char): nat
    requires IsLetter(ch)
  {
    ch as int - 'A' as int
  }

  /** `numberToExcelColumn`: the loop emits the letter for `n % 26`, then continues
      with `n / 26 - 1` until that is negative, prepending each new letter. */
  function NumberToExcelColumn(n: nat): (r: string)
    ensures |r| > 0 && AllLetters(r)
  {
    if n < 26 then [Letter(n)]
    else NumberToExcelColumn(n / 26 - 1) + [Letter(n % 26)]
  }

  /** Reading a column name as a bijective base-26 numeral (A = 1 ... Z = 26). */
  function BijectiveValue(s: string): nat
    requires AllLetters(s)
  {
    if |s| == 0 then 0
    else BijectiveValue(s[..|s| - 1]) * 26 + LetterValue(s[|s| - 1]) + 1
  }

  /** The zero-based column index a column name denotes; the inverse of
      `NumberToExcelColumn`. */
  function ExcelColumnToNumber(s: string): (n: nat)
    requires |s| > 0 && AllLetters(s)
  {
    assert BijectiveValue(s) >= 1;
    BijectiveValue(s) - 1
  }

  /** The report key of data cell (`colIndex`, `rowIndex`). */
  function Address(colIndex: nat, rowIndex: nat): string
  {
    NumberToExcelColumn(colIndex) + Itoa(rowIndex + 2)
  }

  // ---------------------------------------------------------------------------
  // Lemmas

  /** Single letters for the first 26 columns; the 27th is "AA". */
  lemma FirstColumns(n: nat)
    requires n < 26
    ensures NumberToExcelColumn(n) == [('A' as int + n) as char]
    ensures NumberToExcelColumn(25) == "Z" && NumberToExcelColumn(26) == "AA"
  {
  }

  /** Decoding the name of column `n` gives back `n`. */
  lemma {:induction false} ColumnRoundTrip(n: nat)
    ensures ExcelColumnToNumber(NumberToExcelColumn(n)) == n
    decreases n
  {
    var r := NumberToExcelColumn(n);
    if n >= 26 {
      var q := n / 26 - 1;
      ColumnRoundTrip(q);
      var p := NumberToExcelColumn(q);
      assert r[..|r| - 1] == p;
      assert BijectiveValue(r) == BijectiveValue(p) * 26 + n % 26 + 1;
      assert BijectiveValue(p) == q + 1;
    }
  }

  /** Every non-empty A..Z string is the name of exactly the column it decodes to. */
  lemma {:induction false} ColumnRoundTripBack(s: string)
    requires |s| > 0 && AllLetters(s)
    ensures NumberToExcelColumn(ExcelColumnToNumber(s)) == s
    decreases |s|
  {
    if |s| > 1 {
      var p := s[..|s| - 1];
      var d := LetterValue(s[|s| - 1]);
      ColumnRoundTripBack(p);
      var n := ExcelColumnToNumber(s);
      var b := BijectiveValue(p);
      assert b >= 1;
      assert n == b * 26 + d;
      assert n / 26 == b && n % 26 == d;
      assert n / 26 - 1 == ExcelColumnToNumber(p);
      assert s == p + [s[|s| - 1]];
    }
  }

  /** Distinct column indexes get distinct names. */
  lemma ColumnInjective(a: nat, b: nat)
    requires NumberToExcelColumn(a) == NumberToExcelColumn(b)
    ensures a == b
  {
    ColumnRoundTrip(a);
    ColumnRoundTrip(b);
  }

  /** Length of the run of letters a string starts with. */
  function LetterRun(s: string): nat
  {
    if |s| > 0 && IsLetter(s[0]) then 1 + LetterRun(s[1..]) else 0
  }

  lemma {:induction false} LetterRunOf(l: string, d: string)
    requires AllLetters(l) && |d| > 0 && IsDigit(d[0])
    ensures LetterRun(l + d) == |l|
    decreases |l|
  {
    if |l| > 0 {
      assert (l + d)[1..] == l[1..] + d;
      LetterRunOf(l[1..], d);
    } else {
      assert l + d == d;
    }
  }

  /** A string of letters followed by a decimal rendering splits uniquely. */
  lemma LettersDigitsSplit(l1: string, d1: string, l2: string, d2: string)
    requires AllLetters(l1) && AllLetters(l2)
    requires |d1| > 0 && |d2| > 0 && AllDigits(d1) && AllDigits(d2)
    requires l1 + d1 == l2 + d2
    ensures l1 == l2 && d1 == d2
  {
    LetterRunOf(l1, d1);
    LetterRunOf(l2, d2);
    assert l1 == (l1 + d1)[..|l1|];
    assert l2 == (l2 + d2)[..|l2|];
    assert d1 == (l1 + d1)[|l1|..];
    assert d2 == (l2 + d2)[|l2|..];
  }

  /** Distinct data cells have distinct addresses. */
  lemma AddressInjective(c1: nat, r1: nat, c2: nat, r2: nat)
    requires Address(c1, r1) == Address(c2, r2)
    ensures c1 == c2 && r1 == r2
  {
    LettersDigitsSplit(NumberToExcelColumn(c1), Itoa(r1 + 2), NumberToExcelColumn(c2), Itoa(r2 + 2));
    ColumnInjective(c1, c2);
    ItoaInjective(r1 + 2, r2 + 2);
  }

  /** Every data-cell address ends in a digit, so the header-level key "A" is
      never the address of a data cell. */
  lemma HeaderKeyIsNoAddress(colIndex: nat, rowIndex: nat)
    ensures Address(colIndex, rowIndex) != "A"
  {
    var a := Address(colIndex, rowIndex);
    assert |a| >= 2;
  }

  /** The first data row of the first, fourth and twenty-seventh columns. */
  lemma AddressExamples()
    ensures Address(0, 0) == "A2" && Address(3, 0) == "D2" && Address(26, 0) == "AA2"
  {
    assert Itoa(2) == "2";
  }
}
