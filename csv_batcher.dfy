/**
 * subjectify/csv_batcher.py: splits a CSV file into numbered files of at most
 * 5000 data rows each, every one starting with the original header row.
 * File I/O is abstracted: the input is the list of rows the reader yields and
 * the output is the list of files written, in the order they are written.
 */
module CsvBatcher {
  import opened Wrappers
  import opened CsvFiles

  /** Data rows per full output file. */
  const BatchSize: nat := 5000

  /** `infile[:-4]`: the input name without its last four characters ("" when shorter). */
  function Stem(infile: string): (stem: string)
    ensures |infile| >= 4 ==> infile == stem + infile[|infile| - 4..]
    ensures |infile| < 4 ==> stem == ""
  {
    if |infile| >= 4 then infile[..|infile| - 4] else ""
  }

  /** `"%s-batched-%s.csv" % (infile[:-4], str(n).rjust(4, "0"))`. */
  function BatchName(infile: string, n: nat): string
  {
    Stem(infile) + "-batched-" + Padded(n) + ".csv"
  }

  /** The data rows cut into full batches of BatchSize followed by one remainder batch. */
  function Chunks(data: seq<CsvRow>): (chunks: seq<seq<CsvRow>>)
    ensures |chunks| == |data| / BatchSize + 1
    ensures |chunks[|chunks| - 1]| < BatchSize
    decreases |data|
  {
    if |data| < BatchSize then [data]
    else [data[..BatchSize]] + Chunks(data[BatchSize..])
  }

  /** The i-th full batch is the i-th run of BatchSize consecutive data rows. */
  lemma {:induction false} ChunkAt(data: seq<CsvRow>, i: nat)
    requires i < |data| / BatchSize
    ensures Chunks(data)[i] == data[BatchSize * i .. BatchSize * i + BatchSize]
    decreases |data|
  {
    if i > 0 {
      var rest := data[BatchSize..];
      ChunkAt(rest, i - 1);
      assert rest[BatchSize * (i - 1) .. BatchSize * (i - 1) + BatchSize]
          == data[BatchSize * i .. BatchSize * i + BatchSize];
    }
  }

  /** The remainder batch holds the rows after the last full batch. */
  lemma {:induction false} ChunkLast(data: seq<CsvRow>)
    ensures Chunks(data)[|data| / BatchSize] == data[BatchSize * (|data| / BatchSize)..]
    decreases |data|
  {
    if |data| >= BatchSize {
      var rest := data[BatchSize..];
      ChunkLast(rest);
      assert rest[BatchSize * (|rest| / BatchSize)..] == data[BatchSize * (|data| / BatchSize)..];
    }
  }

  /** Concatenating the batches in order gives back the data rows. */
  lemma {:induction false} ChunksConcat(data: seq<CsvRow>)
    ensures Flatten(Chunks(data)) == data
    decreases |data|
  {
    if |data| >= BatchSize {
      ChunksConcat(data[BatchSize..]);
      var cs := Chunks(data);
      assert cs[1..] == Chunks(data[BatchSize..]);
      assert data == data[..BatchSize] + data[BatchSize..];
    }
  }

  /** The files the batcher writes for a header and its data rows, in write order. */
  function Batches(infile: string, header: CsvRow, data: seq<CsvRow>): (files: seq<CsvFile>)
    ensures |files| == |data| / BatchSize + 1
    ensures forall i :: 0 <= i < |files| ==> files[i].name == BatchName(infile, i + 1)
    ensures forall i :: 0 <= i < |files| ==> |files[i].rows| >= 1 && files[i].rows[0] == header
  {
    var chunks := Chunks(data);
    seq(|chunks|, i requires 0 <= i < |chunks| => CsvFile(BatchName(infile, i + 1), [header] + chunks[i]))
  }

  /** The data rows of each file, header dropped. */
  function DataRows(files: seq<CsvFile>): (parts: seq<seq<CsvRow>>)
    requires forall i :: 0 <= i < |files| ==> |files[i].rows| >= 1
    ensures |parts| == |files|
  {
    seq(|files|, i requires 0 <= i < |files| => files[i].rows[1..])
  }

  /** Concatenating the data rows of all output files, in file-number order, gives the input's data rows. */
  lemma BatchesConcat(infile: string, header: CsvRow, data: seq<CsvRow>)
    ensures Flatten(DataRows(Batches(infile, header, data))) == data
  {
    assert DataRows(Batches(infile, header, data)) == Chunks(data);
    ChunksConcat(data);
  }

  /**
   * Every file but the last holds exactly BatchSize data rows; the last holds
   * the remainder: fewer than BatchSize rows, possibly none.
   */
  lemma BatchSizes(infile: string, header: CsvRow, data: seq<CsvRow>, i: nat)
    requires i < |Batches(infile, header, data)|
    ensures i < |data| / BatchSize ==> |Batches(infile, header, data)[i].rows| == BatchSize + 1
    ensures i == |data| / BatchSize ==> |Batches(infile, header, data)[i].rows| == |data| % BatchSize + 1
  {
    if i < |data| / BatchSize {
      ChunkAt(data, i);
    } else {
      ChunkLast(data);
    }
  }

  /** No two output files share a name, so no write overwrites another. */
  lemma BatchNamesDistinct(infile: string, header: CsvRow, data: seq<CsvRow>)
    ensures forall j, k :: 0 <= j < k < |Batches(infile, header, data)| ==>
      Batches(infile, header, data)[j].name != Batches(infile, header, data)[k].name
  {
    var files := Batches(infile, header, data);
    forall j, k | 0 <= j < k < |files| ensures files[j].name != files[k].name {
      NumberedNameInjective(Stem(infile) + "-batched-", ".csv", j + 1, k + 1);
    }
  }

  /** The first |files| full batches have been written, numbered from 1. */
  ghost predicate FullBatchesWritten(infile: string, header: CsvRow, data: seq<CsvRow>, files: seq<CsvFile>)
  {
    forall i :: 0 <= i < |files| ==>
      BatchSize * i + BatchSize <= |data| &&
      files[i] == CsvFile(BatchName(infile, i + 1), [header] + data[BatchSize * i .. BatchSize * i + BatchSize])
  }

  /** Writing the next full batch keeps the files numbered and in order. */
  lemma AppendFullBatch(infile: string, header: CsvRow, data: seq<CsvRow>, files: seq<CsvFile>, batch: seq<CsvRow>)
    requires FullBatchesWritten(infile, header, data, files)
    requires BatchSize * |files| + BatchSize <= |data|
    requires batch == data[BatchSize * |files| .. BatchSize * |files| + BatchSize]
    ensures FullBatchesWritten(infile, header, data, files + [CsvFile(BatchName(infile, |files| + 1), [header] + batch)])
  {
  }

  /** Writing the remainder after the full batches completes exactly the batcher's output. */
  lemma FinalWriteCompletes(infile: string, header: CsvRow, data: seq<CsvRow>, files: seq<CsvFile>, rest: seq<CsvRow>)
    requires FullBatchesWritten(infile, header, data, files)
    requires BatchSize * |files| <= |data| && rest == data[BatchSize * |files|..] && |rest| < BatchSize
    ensures files + [CsvFile(BatchName(infile, |files| + 1), [header] + rest)] == Batches(infile, header, data)
  {
    var all := files + [CsvFile(BatchName(infile, |files| + 1), [header] + rest)];
    var expected := Batches(infile, header, data);
    assert |data| / BatchSize == |files|;
    forall i | 0 <= i < |all| ensures all[i] == expected[i] {
      if i < |files| {
        ChunkAt(data, i);
      } else {
        ChunkLast(data);
      }
    }
  }

  /**
   * The batching loop. An empty input has no header: `reader.next()` raises and
   * nothing is written (None). Otherwise the result is every file written, in order.
   */
  method Batch(infile: string, lines: seq<CsvRow>) returns (written: Option<seq<CsvFile>>)
    ensures lines == [] <==> written == None
    ensures lines != [] ==> written == Some(Batches(infile, lines[0], lines[1..]))
  {
    if lines == [] {
      return None;
    }
    var header := lines[0];
    var data := lines[1..];
    var count := 0;
    var outnum := 1;
    var batch: seq<CsvRow> := [];
    var files: seq<CsvFile> := [];
    var k := 0;
    while k < |data|
      invariant 0 <= k <= |data|
      invariant count == |batch| < BatchSize && count <= k
      invariant batch == data[k - count .. k]
      invariant 1 <= outnum && |files| == outnum - 1
      invariant k - count == BatchSize * (outnum - 1)
      invariant FullBatchesWritten(infile, header, data, files)
    {
      batch := batch + [data[k]];
      count := count + 1;
      k := k + 1;
      if count == BatchSize {
        AppendFullBatch(infile, header, data, files, batch);
        files := files + [CsvFile(BatchName(infile, outnum), [header] + batch)];
        batch := [];
        count := 0;
        outnum := outnum + 1;
      }
    }
    FinalWriteCompletes(infile, header, data, files, batch);
    files := files + [CsvFile(BatchName(infile, outnum), [header] + batch)];
    written := Some(files);
  }
}
