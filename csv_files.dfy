/**
 * What the CSV batcher and the CSV joiner share: a CSV row is the list of
 * strings that Python's csv module reads or writes, a file is a name and its
 * rows, and numbered files are named with `str(n).rjust(4, "0")`.
 */
module CsvFiles {

  /** One CSV record, as `csv.reader` yields it. */
  type CsvRow = seq<string>

  /** A CSV file written by one of the utilities: its name and its rows in order. */
  datatype CsvFile = CsvFile(name: string, rows: seq<CsvRow>)

  /** The concatenation of a list of row lists, in order. */
  function Flatten(parts: seq<seq<CsvRow>>): (rows: seq<CsvRow>)
    ensures |parts| == 1 ==> rows == parts[0]
  {
    if parts == [] then [] else parts[0] + Flatten(parts[1..])
  }

  /** The directory a sequence of writes leaves behind: a later write of the same name replaces an earlier one. */
  function Directory(writes: seq<CsvFile>): (dir: map<string, seq<CsvRow>>)
    ensures dir.Keys == set f | f in writes :: f.name
  {
    if writes == [] then map[]
    else
      var last := writes[|writes| - 1];
      Directory(writes[..|writes| - 1])[last.name := last.rows]
  }

  /** When no two writes share a name, every file written can be read back unchanged. */
  lemma {:induction false} DirectoryHoldsEveryWrite(writes: seq<CsvFile>, i: nat)
    requires forall j, k :: 0 <= j < k < |writes| ==> writes[j].name != writes[k].name
    requires i < |writes|
    ensures writes[i].name in Directory(writes) && Directory(writes)[writes[i].name] == writes[i].rows
  {
    if i < |writes| - 1 {
      DirectoryHoldsEveryWrite(writes[..|writes| - 1], i);
    }
  }

  // ---------------------------------------------------------------------------
  // Decimal numbers, `str(n)`, and their zero-padded form `str(n).rjust(4, "0")`.

  function DigitChar(d: nat): (c: char)
    requires d < 10
    ensures '0' <= c <= '9' && c as int - '0' as int == d
  {
    "0123456789"[d]
  }

  /** The digit a character stands for (non-digits count as zero). */
  function DigitOf(c: char): nat
  {
    if '0' <= c <= '9' then c as int - '0' as int else 0
  }

  /** Python's `str(n)` for a non-negative integer: decimal digits, no leading zero. */
  function Decimal(n: nat): (s: string)
    ensures 1 <= |s|
    ensures forall i :: 0 <= i < |s| ==> '0' <= s[i] <= '9'
    ensures n > 0 ==> s[0] != '0'
  {
    if n < 10 then [DigitChar(n)] else Decimal(n / 10) + [DigitChar(n % 10)]
  }

  /** The number a string of decimal digits denotes, most significant digit first. */
  function Value(s: string): nat
  {
    if s == [] then 0 else Value(s[..|s| - 1]) * 10 + DigitOf(s[|s| - 1])
  }

  /** `s.rjust(4, "0")`: left-padded with '0' to at least 4 characters, never truncated. */
  function ZeroPad(s: string): string
  {
    if |s| < 4 then Zeros(4 - |s|) + s else s
  }

  function Zeros(n: nat): (z: string)
    ensures |z| == n && forall i :: 0 <= i < n ==> z[i] == '0'
  {
    if n == 0 then "" else "0" + Zeros(n - 1)
  }

  /** Padding only adds '0's on the left, up to 4 characters; a longer string is kept whole. */
  lemma ZeroPadShape(s: string)
    ensures |ZeroPad(s)| == if |s| < 4 then 4 else |s|
    ensures ZeroPad(s) == Zeros(|ZeroPad(s)| - |s|) + s
  {
    if |s| >= 4 {
      assert Zeros(0) + s == s;
    }
  }

  /** `str(n).rjust(4, "0")`, the number part of every numbered file name. */
  function Padded(n: nat): string
  {
    ZeroPad(Decimal(n))
  }

  lemma {:induction false} DecimalValue(n: nat)
    ensures Value(Decimal(n)) == n
  {
    if n >= 10 {
      DecimalValue(n / 10);
      var s := Decimal(n);
      assert s[..|s| - 1] == Decimal(n / 10);
    }
  }

  lemma {:induction false} ZerosValue(z: string)
    requires forall i :: 0 <= i < |z| ==> z[i] == '0'
    ensures Value(z) == 0
  {
    if z != [] {
      ZerosValue(z[..|z| - 1]);
    }
  }

  lemma {:induction false} LeadingZerosValue(z: string, s: string)
    requires forall i :: 0 <= i < |z| ==> z[i] == '0'
    ensures Value(z + s) == Value(s)
  {
    if s == [] {
      assert z + s == z;
      ZerosValue(z);
    } else {
      LeadingZerosValue(z, s[..|s| - 1]);
      assert (z + s)[..|z + s| - 1] == z + s[..|s| - 1];
    }
  }

  /** Padding keeps the number: reading the padded name back gives `n`. */
  lemma PaddedValue(n: nat)
    ensures Value(Padded(n)) == n
  {
    var s := Decimal(n);
    ZeroPadShape(s);
    LeadingZerosValue(Zeros(|ZeroPad(s)| - |s|), s);
    DecimalValue(n);
  }

  /** Distinct numbers get distinct padded forms (1 is "0001", 12345 is "12345"). */
  lemma PaddedInjective(a: nat, b: nat)
    ensures Padded(a) == Padded(b) <==> a == b
  {
    if Padded(a) == Padded(b) {
      PaddedValue(a);
      PaddedValue(b);
    }
  }

  /** A name built as `prefix + Padded(n) + suffix` determines `n`. */
  lemma NumberedNameInjective(prefix: string, suffix: string, a: nat, b: nat)
    ensures prefix + Padded(a) + suffix == prefix + Padded(b) + suffix <==> a == b
  {
    var pa, pb := Padded(a), Padded(b);
    if prefix + pa + suffix == prefix + pb + suffix {
      assert |pa| == |pb|;
      assert pa == (prefix + pa + suffix)[|prefix|..|prefix| + |pa|];
      assert pb == (prefix + pb + suffix)[|prefix|..|prefix| + |pb|];
      PaddedInjective(a, b);
    }
  }
}
