/**
 * subjectify/csv_joiner.py: the inverse of the batcher. It reads the numbered
 * files `inf-0001.csv` .. `inf-<num>.csv` in order, writes the header of the
 * first file once and then the data rows of every file. The directory it reads
 * from is a map from file name to rows; the output file is the list of rows
 * written to it, which stays on disk when reading stops at a missing file or
 * at a file with no header row.
 */
module CsvJoiner {
  import opened Wrappers
  import opened CsvFiles
  import CsvBatcher

  /** `"%s-%s.csv" % (inf, str(x).rjust(4, "0"))`: only the number is padded. */
  function JoinName(inf: string, x: nat): string
  {
    inf + "-" + Padded(x) + ".csv"
  }

  /** Why the join stopped early: `open` raised, or `r.next()` found no header row. */
  datatype JoinError = MissingFile(name: string) | NoHeader(name: string)

  /** The rows written to the output file and, when the join stopped early, why. */
  datatype Joined = Joined(out: seq<CsvRow>, failure: Option<JoinError>)

  /** File number x can be read and has a header row. */
  predicate Readable(inf: string, dir: map<string, seq<CsvRow>>, x: nat)
  {
    JoinName(inf, x) in dir && dir[JoinName(inf, x)] != []
  }

  /**
   * The output after reading files 1..k: the first file's header once (file 1 is
   * the first one read, so `head` is still False there), then each file's data
   * rows; the first unreadable file stops the join.
   */
  function JoinUpTo(inf: string, dir: map<string, seq<CsvRow>>, k: nat): (j: Joined)
    ensures k == 0 ==> j == Joined([], None)
  {
    if k == 0 then Joined([], None)
    else
      var before := JoinUpTo(inf, dir, k - 1);
      var name := JoinName(inf, k);
      if before.failure.Some? then before
      else if name !in dir then Joined(before.out, Some(MissingFile(name)))
      else if dir[name] == [] then Joined(before.out, Some(NoHeader(name)))
      else
        var rows := dir[name];
        Joined(before.out + (if k == 1 then [rows[0]] else []) + rows[1..], None)
  }

  /** The data rows of files 1..k, header dropped. */
  function DataOf(inf: string, dir: map<string, seq<CsvRow>>, k: nat): (parts: seq<seq<CsvRow>>)
    requires forall x :: 1 <= x <= k ==> Readable(inf, dir, x)
    ensures |parts| == k
  {
    seq(k, i requires 0 <= i < k => assert Readable(inf, dir, i + 1); dir[JoinName(inf, i + 1)][1..])
  }

  /** The join completes exactly when every file 1..k exists and has a header row. */
  lemma {:induction false} JoinCompletes(inf: string, dir: map<string, seq<CsvRow>>, k: nat)
    ensures JoinUpTo(inf, dir, k).failure == None <==> forall x :: 1 <= x <= k ==> Readable(inf, dir, x)
  {
    if k > 0 {
      JoinCompletes(inf, dir, k - 1);
      if JoinUpTo(inf, dir, k).failure == None {
        assert JoinUpTo(inf, dir, k - 1).failure == None;
        assert Readable(inf, dir, k);
      } else if JoinUpTo(inf, dir, k - 1).failure == None {
        assert !Readable(inf, dir, k);
      }
    }
  }

  /** Once reading has stopped, later file numbers change nothing. */
  lemma {:induction false} JoinStopped(inf: string, dir: map<string, seq<CsvRow>>, k: nat, m: nat)
    requires k <= m && JoinUpTo(inf, dir, k).failure.Some?
    ensures JoinUpTo(inf, dir, m) == JoinUpTo(inf, dir, k)
    decreases m
  {
    if k < m {
      JoinStopped(inf, dir, k, m - 1);
    }
  }

  /** Without an error, the first file's header comes first and once, followed by every file's data rows in order. */
  lemma {:induction false} JoinHeaderOnce(inf: string, dir: map<string, seq<CsvRow>>, k: nat)
    requires 1 <= k
    requires forall x :: 1 <= x <= k ==> Readable(inf, dir, x)
    ensures Readable(inf, dir, 1)
    ensures JoinUpTo(inf, dir, k) == Joined([dir[JoinName(inf, 1)][0]] + Flatten(DataOf(inf, dir, k)), None)
  {
    assert Readable(inf, dir, 1) && Readable(inf, dir, k);
    var first := dir[JoinName(inf, 1)];
    if k == 1 {
      assert DataOf(inf, dir, 1) == [first[1..]];
    } else {
      JoinHeaderOnce(inf, dir, k - 1);
      FlattenSnoc(DataOf(inf, dir, k - 1), dir[JoinName(inf, k)][1..]);
      assert DataOf(inf, dir, k) == DataOf(inf, dir, k - 1) + [dir[JoinName(inf, k)][1..]];
    }
  }

  lemma {:induction false} FlattenSnoc(parts: seq<seq<CsvRow>>, last: seq<CsvRow>)
    ensures Flatten(parts + [last]) == Flatten(parts) + last
  {
    if parts != [] {
      FlattenSnoc(parts[1..], last);
      assert (parts + [last])[1..] == parts[1..] + [last];
    }
  }

  /**
   * The join loop, with its write-header-once flag. `num` comes from the command
   * line; a value below 1 reads nothing and writes nothing, not even a header.
   */
  method Join(inf: string, num: int, dir: map<string, seq<CsvRow>>) returns (out: seq<CsvRow>, failure: Option<JoinError>)
    ensures Joined(out, failure) == JoinUpTo(inf, dir, if num < 0 then 0 else num)
  {
    var head := false;
    out := [];
    failure := None;
    var x := 1;
    while x <= num
      invariant 1 <= x <= if num < 0 then 1 else num + 1
      invariant head == (x > 1)
      invariant failure == None && Joined(out, failure) == JoinUpTo(inf, dir, x - 1)
    {
      var name := JoinName(inf, x);
      if name !in dir {
        failure := Some(MissingFile(name));
        JoinStopped(inf, dir, x, num);
        return;
      }
      var rows := dir[name];
      if rows == [] {
        failure := Some(NoHeader(name));
        JoinStopped(inf, dir, x, num);
        return;
      }
      if !head {
        out := out + [rows[0]];
        head := true;
      }
      out := out + rows[1..];
      x := x + 1;
    }
  }

  /**
   * The joiner reads the batcher's file names exactly: with `inf` the input
   * stem plus "-batched", file x of the join is batch x, and no other batch.
   */
  lemma JoinNameOfBatch(infile: string, x: nat, n: nat)
    ensures JoinName(CsvBatcher.Stem(infile) + "-batched", x) == CsvBatcher.BatchName(infile, n) <==> x == n
  {
    var inf := CsvBatcher.Stem(infile) + "-batched";
    assert JoinName(inf, x) == CsvBatcher.Stem(infile) + "-batched-" + Padded(x) + ".csv";
    NumberedNameInjective(CsvBatcher.Stem(infile) + "-batched-", ".csv", x, n);
  }

  /**
   * Round trip: joining what the batcher wrote, with `inf` the input stem plus
   * "-batched" and `num` the number of files, gives back the input file: its
   * header once, then all its data rows. The directory may hold other files too.
   */
  lemma BatchThenJoin(infile: string, lines: seq<CsvRow>, dir: map<string, seq<CsvRow>>)
    requires lines != []
    requires forall f :: f in CsvBatcher.Batches(infile, lines[0], lines[1..]) ==> f.name in dir && dir[f.name] == f.rows
    ensures JoinUpTo(CsvBatcher.Stem(infile) + "-batched", dir, |CsvBatcher.Batches(infile, lines[0], lines[1..])|)
         == Joined(lines, None)
  {
    var header, data := lines[0], lines[1..];
    var files := CsvBatcher.Batches(infile, header, data);
    var inf := CsvBatcher.Stem(infile) + "-batched";
    var n := |files|;
    forall x | 1 <= x <= n ensures Readable(inf, dir, x) && dir[JoinName(inf, x)] == files[x - 1].rows {
      JoinNameOfBatch(infile, x, x);
      assert files[x - 1] in files;
    }
    JoinHeaderOnce(inf, dir, n);
    assert DataOf(inf, dir, n) == CsvBatcher.DataRows(files);
    CsvBatcher.BatchesConcat(infile, header, data);
  }

  /** The files the batcher writes never overwrite one another, so its own output directory satisfies the round trip. */
  lemma BatchDirectoryRoundTrip(infile: string, lines: seq<CsvRow>)
    requires lines != []
    ensures var files := CsvBatcher.Batches(infile, lines[0], lines[1..]);
      JoinUpTo(CsvBatcher.Stem(infile) + "-batched", Directory(files), |files|) == Joined(lines, None)
  {
    var files := CsvBatcher.Batches(infile, lines[0], lines[1..]);
    CsvBatcher.BatchNamesDistinct(infile, lines[0], lines[1..]);
    forall f | f in files ensures f.name in Directory(files) && Directory(files)[f.name] == f.rows {
      var i :| 0 <= i < |files| && files[i] == f;
      DirectoryHoldsEveryWrite(files, i);
    }
    BatchThenJoin(infile, lines, Directory(files));
  }
}
