# librarytools: subjectify and its CSV utilities, modelled in Dafny

This project models the record-resolution core of `subjectify.py`, plus three small utilities that come with it.

`subjectify.py` works row by row through a CSV of library items. For each row it picks a search key: the ISBN, else the ISSN, else author and title together. It queries the OCLC Classify service with that key and reads the response code. For a single-work answer (code 0 or 2) it adds the Dewey (`ddc`) and Library of Congress (`lcc`) classifiers to the row in place. For a multi-work answer (code 4) it is meant to make a second query by the first listed work's identifier (`wi`). As written, the path `classify:work[0]` does not select the first work (see "## Left out"). The model follows the intent. The driver loop keeps every row, in input order.

The utilities are:
- `subjectify/csv_batcher.py` splits a large CSV into numbered files of 5000 data rows, each starting with the header.
- `subjectify/csv_joiner.py` joins numbered files back into one file, writing the header once.
- `datecounter/datecounter.py` counts directory entries per modification date and prints the counts in date order.

Files:
- `wrappers.dfy`: `Option`.
- `csv_files.dfy` (module `CsvFiles`): CSV rows and files, the directory a sequence of writes leaves behind, and `str(n).rjust(4, "0")` with its injectivity.
- `csv_batcher.dfy` (module `CsvBatcher`): the batching loop, proved against the specification function `Batches`.
- `csv_joiner.dfy` (module `CsvJoiner`): the join loop, proved against `JoinUpTo`, and the batch-then-join round trip.
- `datecounter.dfy` (module `DateCounter`): the counting loop, proved against `Histogram`, and the sorted emission.
- `subjectify.dfy` (module `Subjectify`): query forming, response interpretation, the lookup service, `process_row` and the driver loop.

Model decisions:
- The HTTP service is a `LookupService` object. It has a fixed answer per request URL (`reply`) and a log of the URLs requested (`requested`). An answer is either `Failed` (an exception or a status other than 200) or the body.
- A response body is abstracted to the nodes the code reads (`Tree`):
  - the `code` of `classify:response`, absent when the node is missing;
  - the `nsfa` of the ddc and lcc `mostPopular` nodes, each absent when the node is missing;
  - the `wi` of each listed work.
- Text that does not parse is `XmlText(None)`.
- Python exceptions that a well-formed row can trigger are explicit values (`Py.Raise`). A missing `mostPopular` node or an empty works list gives `AttributeError`. Unpacking `None` gives `TypeError`. This follows the code, which calls `.attrib` on the result of `find`.
- The key selection is modelled twice. `SelectSearch` is the code's last-write-wins cascade: bib, then issn, then isbn. `SearchKey` is the equivalent explicit priority order. `SelectSearch`'s contract proves the two agree.
- The utilities are written for Python 2 (`reader.next()`, `xrange`, the `print` statement). `subjectify.py` is assumed to run under Python 2 as well. There the response body is a `str`, which `get_tree` parses. This is an assumption: the syntax of `subjectify.py` also runs under Python 3.
- The joiner pads only the number: the name is `inf + "-" + str(x).rjust(4, "0") + ".csv"`. Together with the batcher's `infile[:-4] + "-batched-" + ...`, this makes `inf = stem + "-batched"` read exactly the batcher's files.
- A date in the date counter is a day number (`int`). The caller supplies the entries' dates in listing order.

## Model

| member | source | states |
|---|---|---|
| `CsvFiles.DirectoryHoldsEveryWrite` | subjectify/csv_batcher.py:16-19 | when no two writes share a name, every file written can be read back from the resulting directory unchanged |
| `CsvFiles.Decimal` | subjectify/csv_batcher.py:15 | `str(n)` is a non-empty string of decimal digits with no leading zero for n > 0 |
| `CsvFiles.DecimalValue` | subjectify/csv_batcher.py:15 | `str(n)` read back as a decimal number is n |
| `CsvFiles.ZeroPadShape` | subjectify/csv_batcher.py:15 | `ZeroPad`, the model of `rjust(4, "0")`, left-pads with '0' to length 4 and leaves longer strings whole (never truncates) |
| `CsvFiles.PaddedValue` | subjectify/csv_batcher.py:24 | `Padded`, the model of `str(n).rjust(4, "0")`, reads back as n |
| `CsvFiles.PaddedInjective` | subjectify/csv_joiner.py:11 | two numbers get the same padded form exactly when they are equal |
| `CsvFiles.NumberedNameInjective` | subjectify/csv_batcher.py:15 | a name `prefix + padded(n) + suffix` determines n |
| `CsvBatcher.Stem` | subjectify/csv_batcher.py:15 | `infile[:-4]` is the name without its last four characters, and "" for shorter names |
| `CsvBatcher.Chunks` | subjectify/csv_batcher.py:11-22 | the data rows are cut into `len // 5000 + 1` batches whose last one holds fewer than 5000 rows |
| `CsvBatcher.ChunkAt` | subjectify/csv_batcher.py:14-19 | the i-th full batch is rows `5000*i .. 5000*i+5000` |
| `CsvBatcher.ChunkLast` | subjectify/csv_batcher.py:24-28 | the final batch is the rows after the last full batch |
| `CsvBatcher.ChunksConcat` | subjectify/csv_batcher.py:10-28 | concatenating the batches in order gives back the data rows |
| `CsvBatcher.Batches` | subjectify/csv_batcher.py:8-28 | there are `len // 5000 + 1` files, numbered consecutively from 1 with the batched name, each starting with the header |
| `CsvBatcher.BatchesConcat` | subjectify/csv_batcher.py:10-28 | the data rows of all files, in file-number order, are exactly the input's data rows |
| `CsvBatcher.BatchSizes` | subjectify/csv_batcher.py:14-28 | every file written inside the loop holds exactly 5000 data rows; the final file holds the remainder (`len % 5000`, possibly none) |
| `CsvBatcher.BatchNamesDistinct` | subjectify/csv_batcher.py:15-24 | `BatchName` (`infile[:-4] + "-batched-" + padded n + ".csv"`) gives distinct names to distinct files, so no write overwrites another |
| `CsvBatcher.FinalWriteCompletes` | subjectify/csv_batcher.py:24-28 | writing the remainder after the full batches completes exactly the batcher's output |
| `CsvBatcher.Batch` | subjectify/csv_batcher.py:5-28 | the batching loop (buffer appended to and reset, with `count == len(batch) < 5000` at each step) writes exactly `Batches`; an input without a header row writes nothing |
| `CsvJoiner.JoinUpTo` | subjectify/csv_joiner.py:7-20 | reading no files writes nothing, not even a header |
| `CsvJoiner.JoinCompletes` | subjectify/csv_joiner.py:10-13 | the join completes exactly when every file 1..num exists and has a header row |
| `CsvJoiner.JoinStopped` | subjectify/csv_joiner.py:10-13 | once a file is missing or empty, reading stops and the output stays as it was |
| `CsvJoiner.JoinHeaderOnce` | subjectify/csv_joiner.py:15-20 | the output is the first file's header once, then every file's data rows in file order; later headers are dropped |
| `CsvJoiner.Join` | subjectify/csv_joiner.py:7-20 | the join loop with its `head` flag writes exactly `JoinUpTo`, reading files `inf-0001.csv` .. in order; num <= 0 writes nothing |
| `CsvJoiner.JoinNameOfBatch` | subjectify/csv_joiner.py:11 | `JoinName` (`inf + "-" + padded x + ".csv"`) with `inf` the stem plus "-batched" is the batcher's name of file x, and of no other file |
| `CsvJoiner.BatchThenJoin` | subjectify/csv_joiner.py:10-20 | joining the batcher's files with `inf = stem + "-batched"` and `num` = file count gives back the original header and data rows |
| `CsvJoiner.BatchDirectoryRoundTrip` | subjectify/csv_batcher.py:15-28 | the directory the batcher leaves behind satisfies that round trip |
| `DateCounter.OccursIffCounted` | datecounter/datecounter.py:22-25 | a date is counted at least once exactly when some entry has it |
| `DateCounter.HistogramKeys` | datecounter/datecounter.py:19-25 | only dates that occur are keys, each mapped to its exact number of entries, which is at least 1 |
| `DateCounter.HistogramStep` | datecounter/datecounter.py:22-25 | one more entry adds one to its date's count, or creates the key with 1 |
| `DateCounter.CountDates` | datecounter/datecounter.py:19-25 | after the loop `results` is the histogram of all entry dates (after k entries, that of the first k) |
| `DateCounter.SortedItems` | datecounter/datecounter.py:27 | the emission has one pair per key, each with that key's count |
| `DateCounter.SortedItemsAscending` | datecounter/datecounter.py:27 | dates are emitted in strictly ascending order, so each at most once |
| `DateCounter.SortedItemsCover` | datecounter/datecounter.py:27-28 | every counted date is emitted |
| `DateCounter.EmittedCounts` | datecounter/datecounter.py:27-28 | every emitted pair is a date that occurs with its exact count (at least 1) |
| `DateCounter.EmittedTotal` | datecounter/datecounter.py:19-28 | the emitted counts sum to the number of directory entries processed |
| `Subjectify.QueryString` | subjectify.py:96-109 | a query is formed exactly for isbn/issn/wi with string data and for bib with a 2-tuple; any other shape or type gives False |
| `Subjectify.IdentifierQueryRoundTrip` | subjectify.py:96-99 | an isbn/issn/wi query reads back as its search type and its data, verbatim |
| `Subjectify.BibQueryRoundTrip` | subjectify.py:100-106 | a bib query quotes author and title literally; both read back when the author holds no double quote |
| `Subjectify.RequestUrl` | subjectify.py:111 | the URL is the endpoint, `?summary=true&maxRecs=1`, `&`, then the query |
| `Subjectify.RequestUrlInjective` | subjectify.py:111 | distinct queries give distinct URLs |
| `Subjectify.GetTree` | subjectify.py:64-74 | an Element is returned as is and text gives its parsed tree; a tree exists only for those, and False, None and unparsable text give None |
| `Subjectify.ExtractResponse` | subjectify.py:136-145 | a tree gives the code of its `classify:response` node, None when that node is absent; anything without a tree gives None |
| `Subjectify.ExtractIds` | subjectify.py:152-165 | a code 0 or 2 answer with both mostPopular nodes gives exactly that (ddc, lcc) pair; a missing node raises; other codes give None |
| `Subjectify.ResolveMultiple` | subjectify.py:171-182 | a work id only for code 4, the first listed work's; no works raises; other codes give None |
| `Subjectify.LookupService.Get` | subjectify.py:113-120 | one request is logged and answered with the service's fixed answer for that URL |
| `Subjectify.SearchValue` | subjectify.py:95-120 | oclc_search returns False exactly for a bad search; for a valid one, None exactly when the request failed, else the answer's text; never an Element |
| `Subjectify.SearchRequests` | subjectify.py:111-114 | oclc_search requests exactly the URL of its query, once, and makes no request for a bad search |
| `Subjectify.OclcSearch` | subjectify.py:95-120 | returns False without a request for a bad search, else requests the URL once and returns None or the answer's text |
| `Subjectify.SelectSearch` | subjectify.py:190-201 | the last-write-wins cascade (bib, then issn, then isbn) chooses the same key as the priority order isbn > issn > author+title |
| `Subjectify.KeyPriority` | subjectify.py:190-204 | a non-empty isbn is always the key; else a non-empty issn; bib only when both author and title are non-empty and neither identifier is; otherwise no key |
| `Subjectify.KeyFormsQuery` | subjectify.py:190-206 | the chosen key always forms a valid query |
| `Subjectify.NoKeyNoLookup` | subjectify.py:203-204 | without a key the row is unresolved and no request is made |
| `Subjectify.UnresolvedStatus` | subjectify.py:206-211 | an absent, unparsable or >= 100 primary status leaves the row unresolved after one request |
| `Subjectify.SingleWorkStatus` | subjectify.py:212-215 | a 0/2 primary status classifies the row with the primary answer's ddc and lcc, after one request |
| `Subjectify.OtherStatus` | subjectify.py:209-228 | codes below 100 other than 0, 2, 4 (such as 1 or 3) leave the row unresolved |
| `Subjectify.MultiWorkStatus` | subjectify.py:217-228 | status 4 leads to a second request `wi=<first work>`; the row is classified only if that secondary status is 0/2, and then from the secondary answer; no work raises; an empty id gives no second request |
| `Subjectify.ClassifiersFromLastAnswer` | subjectify.py:206-228 | whenever a row is classified, ddc and lcc come from the answer to the last request, which is a single-work answer |
| `Subjectify.OnlyClassifierColumnsChange` | subjectify.py:214-225 | resolution changes no column other than ddc and lcc |
| `Subjectify.Unpack` | subjectify.py:214-225 | the tuple assignment stores a pair exactly when extract_ids returned one, and then that pair; an exception passes through, and unpacking None raises TypeError |
| `Subjectify.Resolve` | subjectify.py:185-228 | process_row as a function: no request exactly when there is no key, and at most two requests; each path is stated by NoKeyNoLookup, UnresolvedStatus, SingleWorkStatus, OtherStatus and MultiWorkStatus |
| `Subjectify.ProcessRow` | subjectify.py:185-228 | returns the same row augmented in place when classified, else None (or the exception) with the row untouched; logs exactly the resolution's requests |
| `Subjectify.ProcessAll` | subjectify.py:276-280 | the output is the input rows, same objects in the same order, whatever process_row returned; each is resolved in place; a run without error saw no exception, and an error stops the run at the first row whose resolution raised, leaving it and later rows untouched |

## Left out

- HTTP transport (`requests.get`, the status-200 check, exception swallowing): the `LookupService` answers each URL with a fixed `Reply`. Retries, timeouts and changing answers are not modelled.
- XML parsing with ElementTree: replaced by `Tree`. A non-numeric or missing `code` attribute is not modelled: the code is an integer field. Such an attribute raises in `int(...)` or on the dictionary lookup. Also not modelled: a `mostPopular` node without an `nsfa` attribute (subjectify.py:163-164) and a `work` without a `wi` attribute (subjectify.py:181). Each raises `KeyError`. `Tree` holds these attributes only as present values.
- `classify:work[0]` (subjectify.py:181) falls outside ElementPath's 1-based positions. Under Python 2, ElementTree 1.3 turns it into index -1, which selects the last listed work. Python 3's ElementPath rejects it with `SyntaxError`, but under Python 3 the code never reaches that line (see below). Every query carries `maxRecs=1`, so a multi-work answer normally lists one work, and first and last coincide. The model follows the intent: the first listed work.
- Under Python 3, `response.content` is `bytes`, so the `str` test in `get_tree` (subjectify.py:66) fails. Every answer then gives None and no row is ever classified. The model assumes Python 2, where the body is text.
- `Subjectify.ProcessRow`: requires the row to have the `isbn`, `issn`, `author` and `title` columns. The default field list has these columns. The `KeyError` that a missing column raises is not modelled, and neither are `None` cell values.
- `Subjectify.ProcessAll`: does not state the service's request log across rows. Each row's requests are stated by `ProcessRow`.
- `CsvJoiner.Join`: assumes that the output file `outf` is not one of the files read (`inf-0001.csv` .. `inf-<num>.csv`). The source opens `outf` with `"wb"` (csv_joiner.py:8) before reading, which truncates such an input. The model reads a fixed directory and returns the output separately. `BatchThenJoin` and `BatchDirectoryRoundTrip` likewise hold for a fresh output file.
- `Subjectify.ProcessAll`: `print("Processing record %s" % row["id"])` is left out. So are the loading and writing of the CSV (`load_data`, `write_data`), argparse, `vprint`/`verbose` and the rest of the main block. As written, that block refers to `args.f`/`args.c`, passes two arguments to the three-parameter `write_data`, and reads `row["id"]`.
- Row dictionaries are maps: the position at which `ddc` and `lcc` are added is not modelled.
- CSV parsing and quoting, `open`, and `print` in the batcher and joiner are left out. Files are lists of rows of strings, and the batcher's output is the list of files it writes. The joiner's output file is created even when `num` is 0: that empty file is modelled as an empty row list.
- Date counter: `os.listdir`, `os.path.getmtime`, `datetime.fromtimestamp` (which depends on the time zone), `strftime` formatting, `print` and the `sys.exit` directory check are left out. Dates are day numbers supplied by the caller.
