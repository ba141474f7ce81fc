# durduff, modelled in Dafny

durduff compares two directory trees and prints, for every relative path, whether it was
deleted (`-`), added (`+`) or modified (`~`), or why it could not be compared (`!`, followed
by a `^` line describing the error). This project models the core of the program:

- `RecDirIter` walks each tree breadth-first and yields relative paths in `cmp_paths` order
  (fewer components first, then component-wise lexicographic). It latches the first
  directory-listing error and yields it once, as the last item.
- `OkIter` passes on the `Ok` items of that walk and stores the first error in a slot.
- `SumIter` merge-joins two sorted walks and tags each path `Left`, `Right` or `Both`.
- The `Verdictor` gives each tagged path a verdict. It compares metadata, then reads symlink
  targets, or reads file contents block by block through `ReadIntMitigator`, which retries
  interrupted reads.
- `print_diff` turns verdicts into output records: status indicator, color codes, a raw or
  percent-encoded path, and a NUL or newline terminator. It sends them through either the
  plain or the progressive record printer. Both printers buffer standard output in a
  `ManualBufWriter`. The progressive printer also keeps a `ProgressStatus` and draws a
  "Files processed: p/t (c%)" line with VT100 cursor codes.

The filesystem is a value, `FileSystem.Fs`: a map from absolute paths (sequences of byte
names) to entries. A missing key means the path does not exist. Directories carry their
`read_dir` listing, and any single entry of a listing may fail. Regular files carry their
bytes, whether opening them fails, and a finite script of how their reads behave (failures,
interruptions, short reads). Symlinks carry their target. An absolute path such as `/srv/a`
is spelled with an empty first component, `["", "srv", "a"]`. `PathBytes` joins components
with '/', so that empty component gives the leading '/'. This is how the tree roots appear
in printed error paths: `prefix.join(path)` in src/verdictor.rs:39 and `top.join(d)` in
src/iter/rec_dir_iter.rs:78. The trees are taken not to change while the program runs,
since `Fs` is one fixed value. As `read_dir` guarantees, names are taken to be non-empty and to contain neither '/' (0x2F) nor NUL; `FileSystem.WellFormed` does not state this, and no proved property depends on it, but with a '/' inside a name two different paths could print alike. Standard output and standard error
are one shared `Terminal.Terminal` object holding a log of the chunks flushed to each
stream, so the order of flushes across the two streams can be observed.

The code and the prose description of the program disagree in two places; the model follows
the code:

- Paths of equal length are ordered by `Path::cmp`. That comparison goes component by
  component, not byte by byte over the joined string.
- After a listing error is latched, the very next `next` yields the error and discards
  everything still queued. Queued items are not yielded first.

## Model

| member | source | states |
|---|---|---|
| Paths.CmpPaths | src/iter/rec_dir_iter.rs:19-24 | a path with fewer components is smaller; paths with equally many components compare component-wise |
| Paths.CmpPathsTotal | src/iter/rec_dir_iter.rs:16-24 | `cmp_paths` is a total order: `Equal` exactly on equal paths, reversing when its arguments are swapped, and transitive |
| Paths.SiblingsOrder | src/iter/rec_dir_iter.rs:53-54 | two children of one directory compare as their file names do, which is why sorting by file name is enough |
| Paths.CousinsOrder | src/iter/rec_dir_iter.rs:26-28 | every child of a directory precedes every child of a later directory of the same depth |
| FileSystem.SymlinkMetadata | src/verdictor.rs:116-131 | a missing path gives `NotFound`; an entry whose metadata fails gives its error; otherwise the file type is exactly the node's kind and the length is a regular file's size |
| FileSystem.ReadDir | src/iter/rec_dir_iter.rs:49-51 | `read_dir` succeeds exactly on a directory whose listing succeeds, and then gives that listing |
| FileSystem.ReadLink | src/verdictor.rs:75-76 | `read_link` succeeds exactly on a symlink whose target can be read, and then gives that target |
| FileSystem.OpenError | src/verdictor.rs:87-88 | `File::open` succeeds exactly on a regular file that can be opened |
| FileSystem.Open | src/verdictor.rs:87-88 | a successful open gives a fresh reader at offset 0 over the file's bytes and read script; a failed one gives the error `OpenError` names |
| FileSystem.FileReader.Read | src/io/read_int_mitigator.rs:49-65 | one read hands over at most the room in the buffer, the bytes left and the script step's cap, copies exactly the next file bytes into the buffer and leaves the rest of it alone; a failing step hands over nothing |
| ReadIntMitigator.Read | src/io/read_int_mitigator.rs:9-29 | retries `Interrupted`; on success it has read min(buffer size, bytes left), the buffer holds exactly the next bytes of the file, and the rest of the buffer is unchanged; an error is never `Interrupted` and comes from the script; a script without hard failures always succeeds |
| ReadIntMitigator.InterruptingReaderFillsBuffer | src/io/read_int_mitigator.rs:70-189 | with any number of interruptions and any per-read cap, the 128-byte buffer is filled with exactly the bytes 0..127 |
| OkIter.OkPrefix | src/iter/ok_iter.rs:23-38 | the `Ok` values before the first error, in order; it stops exactly at the first `Err` |
| OkIter.FirstErr | src/iter/ok_iter.rs:30-37 | no error exactly when every item is `Ok`; otherwise the value of the first `Err` |
| OkIter.OkPrefixUnique | src/iter/ok_iter.rs:23-38 | the `Ok` prefix is the only sequence of values that matches the input up to an `Err` |
| OkIter.OkIter.Next | src/iter/ok_iter.rs:23-38 | once the slot holds an error, nothing more is yielded and nothing changes; otherwise one inner item is consumed: `Ok(v)` yields `v`, while `Err(e)` fills the slot with `e` and yields nothing; each yield removes the head of what remains |
| OkIter.OkIter.SizeHint | src/iter/ok_iter.rs:40-46 | a sound bound on what remains, with an upper bound exactly when an error is stored |
| OkIter.OkIter.Collect | src/iter/ok_iter.rs:63-72 | collecting yields the `Ok` prefix and stores the first error, unless one was stored already |
| OkIter.Rudimentary | src/iter/ok_iter.rs:63-72 | the unit test: `[4, 27, 1]` is collected and the error 5 is stored |
| SumIter.Classify | src/iter/sum_iter.rs:21-31 | which of the two peeked heads exist, and their order when both do |
| SumIter.MergeMembers | src/iter/sum_iter.rs:78-96 | the merge holds exactly the items of either input |
| SumIter.MergeSorted | src/iter/sum_iter.rs:78-96 | merging two strictly sorted inputs gives strictly sorted output |
| SumIter.MergeTagged | src/iter/sum_iter.rs:78-96 | on sorted inputs, `Left` marks an item only in the left input, `Right` one only in the right, and `Both` one in both |
| SumIter.MergeLengthBounds | src/iter/sum_iter.rs:78-96 | the merge is at least as long as the longer input and at most as long as both together |
| SumIter.MergeLength | src/iter/sum_iter.rs:78-96 | on sorted inputs, the merge length is the sum of the lengths minus the number of common items |
| SumIter.CombineSizeHintsSound | src/iter/sum_iter.rs:98-110 | the combined hint (max of the lower bounds, sum of the upper bounds) bounds the merge whenever the input hints bound the inputs |
| SumIter.RudimentaryExample | src/iter/sum_iter.rs:117-134 | the unit test's merge of `[2, 5, 9]` and `[1, 7, 8, 9]` |
| SumIter.SumIter.SkipRhsTakeLhs | src/iter/sum_iter.rs:69-72 | advances both inputs and returns the left head |
| SumIter.SumIter.Next | src/iter/sum_iter.rs:78-96 | ends exactly when both inputs are empty; otherwise yields the head of the merge and consumes the left head, the right head, or both, as the tag says |
| SumIter.SumIter.SizeHint | src/iter/sum_iter.rs:98-110 | sound for what remains whenever the inputs' hints are sound |
| SumIter.SumIter.Collect | src/iter/sum_iter.rs:117-134 | collects exactly the merge and exhausts both inputs |
| SumIter.Rudimentary | src/iter/sum_iter.rs:117-134 | the unit test's tagged output |
| RecDirIter.SortByFileName | src/iter/rec_dir_iter.rs:53-54 | a permutation of its input |
| RecDirIter.SortSorted | src/iter/rec_dir_iter.rs:53-54 | the result is strictly sorted by file name when file names are distinct |
| RecDirIter.Children | src/iter/rec_dir_iter.rs:49-51 | every listed name becomes the directory's path plus that name, in listing order |
| RecDirIter.FirstEntryErrorAt | src/iter/rec_dir_iter.rs:49-51 | the error returned is that of the first failing entry |
| RecDirIter.ExpandChildren | src/iter/rec_dir_iter.rs:40-59 | a successful expansion of a directory gives exactly its listed names as strictly sorted children one level deeper; a non-directory gives nothing |
| RecDirIter.TryAppendDirElems | src/iter/rec_dir_iter.rs:40-59 | succeeds exactly when the expansion does, and then appends it to the queue; on failure it leaves the queue as it was and returns the metadata, listing or first entry error |
| RecDirIter.AnnotateError | src/iter/rec_dir_iter.rs:64-69 | keeps the error kind; the description is "reading directory " followed by the percent-encoded path |
| RecDirIter.ExpandKeepsOrder | src/iter/rec_dir_iter.rs:131-143 | popping the front and appending its sorted children keeps the queue strictly sorted and spanning at most two adjacent levels |
| RecDirIter.Step | src/iter/rec_dir_iter.rs:131-143 | one successful step keeps the queue invariant and strictly decreases the number of unvisited paths, so the walk ends |
| RecDirIter.ErrorOnlyLast | src/iter/rec_dir_iter.rs:131-143 | only the last item of a walk can be an error |
| RecDirIter.YieldsListed | src/iter/rec_dir_iter.rs:26-28 | every path yielded is a non-root path listed by its parent directory |
| RecDirIter.YieldsFromFront | src/iter/rec_dir_iter.rs:131-143 | no path yielded precedes the queue's front |
| RecDirIter.YieldsSorted | src/iter/rec_dir_iter.rs:26-28 | the paths yielded are strictly increasing in `cmp_paths` order |
| RecDirIter.YieldsQueue | src/iter/rec_dir_iter.rs:131-143 | without an error, every queued path is yielded |
| RecDirIter.YieldsClosed | src/iter/rec_dir_iter.rs:131-143 | without an error, every child of every yielded directory is yielded too: the walk is complete |
| RecDirIter.SizeHintCorrectedSound | src/iter/rec_dir_iter.rs:145-151 | the corrected hint bounds what remains |
| RecDirIter.SizeHintAsWrittenMissesError | src/iter/rec_dir_iter.rs:145-151 | with a latched error, the hint as written promises nothing more, yet the error is still to come |
| RecDirIter.SizeHintAsWrittenOvershoots | src/iter/rec_dir_iter.rs:145-151 | with three queued directories where the first fails to list, the hint as written promises three items and two come |
| RecDirIter.RecDirIter.AppendDirElems | src/iter/rec_dir_iter.rs:76-81 | appends the expansion, or latches its error annotated with the full directory path |
| RecDirIter.RecDirIter.TryFrom | src/iter/rec_dir_iter.rs:90-125 | fails exactly when the root exists and is not a directory; a root metadata error is latched unannotated; otherwise the queue is the root's sorted children, or the annotated listing error is latched |
| RecDirIter.RecDirIter.Next | src/iter/rec_dir_iter.rs:131-143 | a latched error is yielded once, with the queue emptied; an empty queue yields nothing; otherwise the front is yielded and expanded; each yield removes the head of what remains |
| RecDirIter.RecDirIter.SizeHint | src/iter/rec_dir_iter.rs:145-151 | the corrected hint: it bounds what remains, with an upper bound exactly while an error is latched |
| RecDirIter.RecDirIter.Collect | src/iter/rec_dir_iter.rs:160-190 | collects exactly what remains and leaves the iterator exhausted |
| RecDirIter.RootDirDoesNotExist | src/iter/rec_dir_iter.rs:194-212 | a missing root gives one `NotFound` error, then nothing |
| RecDirIter.RootDirIsARegularFile | src/iter/rec_dir_iter.rs:216-222 | a root that is a regular file is refused |
| Verdictor.PrivResultToVerPath | src/verdictor.rs:36-41 | a verdict keeps the relative path; an error becomes `Error(kind)` on the side's prefix joined with the path |
| Verdictor.Annotate | src/verdictor.rs:50-55 | keeps a success; turns an I/O error into its kind and the given prefix |
| Verdictor.New | src/verdictor.rs:60-71 | the block size is the override, or 512 KiB by default |
| Verdictor.Verdictor.CmpSymlinks | src/verdictor.rs:74-83 | a left read failure wins, then a right one; otherwise `Same` exactly when the targets are equal, else `Modified` |
| Verdictor.Verdictor.CmpContents | src/verdictor.rs:86-108 | open errors, left first; otherwise `Same` exactly when the contents are equal, else `Modified`; it cannot fail when neither read script has a hard failure, and any error is a hard failure of the side it names |
| Verdictor.Verdictor.CmpFiles | src/verdictor.rs:112-148 | metadata errors, left first; different file types give `Modified`; symlinks are compared by target; regular files of different sizes give `Modified`, otherwise by contents; directories give `Same`; two special files give `InvalidData` on the left; `Same` exactly when the nodes are equivalent |
| Verdictor.Verdictor.GetVerdict | src/verdictor.rs:152-158 | `Left` gives `Deleted`, `Right` gives `Added`; for `Both`, a non-error verdict is `Same` exactly when the two nodes are equivalent, an error carries the side's prefixed path, and two healthy nodes of one kind never give an error |
| LineStatus.LineStatus.Indicator | src/io/line_status.rs:16-24 | each status has its own printable ASCII indicator, which maps back to the status |
| LineStatus.LineStatus.IndicatorByte | src/io/line_status.rs:16-24 | the indicator as one byte loses nothing |
| LineStatus.IndicatorInjective | src/io/line_status.rs:1-13 | distinct statuses have distinct indicators |
| ColorCodes.Sgr | src/io/color_codes.rs:4-11 | each color code is ESC '[' '3' followed by the color digit and 'm' |
| LineStatusColorCodes.LineStatusColorCodes.Get | src/io/line_status_color_codes.rs:38-46 | the code of the status's own field; `Error` and `ErrorDescription` share the error code |
| LineStatusColorCodes.NoColor | src/io/line_status_color_codes.rs:18-26 | every code, and the reset, is empty |
| LineStatusColorCodes.Color | src/io/line_status_color_codes.rs:28-36 | yellow, green, blue and red for deleted, added, modified and errors, with the reset code |
| LineStatusColorCodes.ColorsDistinct | src/io/line_status_color_codes.rs:28-36 | the colors of the four kinds of line differ from each other and from the reset code |
| OutputRecord.Empty | src/io/output_record.rs:23-28 | the empty record has nothing on either stream |
| PercentEncode.EncodePrintable | src/io/print_diff.rs:31-34 | every byte of a percent-encoded path is printable ASCII |
| PercentEncode.EncodeIdentity | src/io/print_diff.rs:31-34 | bytes needing no encoding are printed as they are |
| PercentEncode.DecodeEncode | src/io/print_diff.rs:31-34 | a path without '%' can be read back from its encoding |
| PercentEncode.EncodeCollision | src/io/print_diff.rs:31-34 | the encoding is not injective: byte 0x01 and the text "%01" print alike |
| PrintDiff.FmtErrorKind | src/io/print_diff.rs:20-28 | an ASCII text that is "unexpected error" exactly for the kinds other than the four named ones |
| PrintDiff.WrapBlobInRecord | src/io/print_diff.rs:53-65 | color code, indicator byte, space, blob, reset code and terminator, in that order |
| PrintDiff.StatusOfVerdict | src/io/print_diff.rs:86-101 | a verdict's status is never `ErrorDescription` |
| PrintDiff.VerdictAndBlobToOutputRecord | src/io/print_diff.rs:81-102 | for any color codes: the indicator byte right after the color code (`!` exactly for an error), then a space and the blob, ending with the terminator; a standard error line exactly for an error, showing `^` and the text of its kind |
| PrintDiff.Setup | src/io/print_diff.rs:155 | the terminator is NUL when NUL-terminated output is asked for, otherwise newline |
| PrintDiff.RecordsOf | src/io/print_diff.rs:162-168 | one record per verdict, in order |
| PrintDiff.ParseWrap | src/io/print_diff.rs:53-65 | without colors, an output line reads back as its status and blob |
| PrintDiff.RecordPairing | src/io/output_record.rs:9-12 | a record is empty exactly for `Same` and has a standard error line exactly for an error; without colors, its lines read back as status and printed path (raw bytes with NUL, percent-encoded with newline) and as `^` with the error text |
| PrintDiff.PercentRecordIsOneLine | src/io/print_diff.rs:106-116 | a newline-terminated record takes exactly one line, with or without colors |
| PrintDiff.PrintAllRecords | src/io/print_diff.rs:133-143 | every record's standard output reaches the terminal in order, and exactly that; every error description is flushed to standard error in a chunk of its own, in record order, behind the codes erasing a progress line if one was shown; the plain printer delivers exactly the standard error parts, the progressive one all it wrote, counts every record and leaves no progress line on screen |
| PrintDiff.PrintDiff | src/io/print_diff.rs:146-173 | standard output receives exactly the concatenated records of the verdicts; every error description reaches standard error in order; no progress line is left on screen |
| Terminal.ReceivedAppend | src/io/manual_buf_writer.rs:40-44 | a flushed chunk adds its bytes to its own stream only |
| ManualBufWriter.ManualBufWriter.constructor | src/io/manual_buf_writer.rs:18-23 | starts with an empty buffer |
| ManualBufWriter.ManualBufWriter.Len | src/io/manual_buf_writer.rs:25-27 | the number of buffered bytes |
| ManualBufWriter.ManualBufWriter.WriteAll | src/io/manual_buf_writer.rs:46-48 | appends to the buffer and leaves the terminal untouched |
| ManualBufWriter.ManualBufWriter.Write | src/io/manual_buf_writer.rs:35-38 | appends everything and reports the whole length written |
| ManualBufWriter.ManualBufWriter.Flush | src/io/manual_buf_writer.rs:40-44 | passes the whole buffer to its stream as one chunk, leaving the other stream alone, and empties the buffer |
| ManualBufWriter.Rudimentary | src/io/manual_buf_writer.rs:59-72 | the unit test: nothing arrives before the flush, "hello, friend" after it |
| ProgressStatus.EstimatedTotal | src/io/progress_status.rs:10-16 | the new total is the old one or processed plus more, whichever is larger |
| ProgressStatus.TotalAfterProcessed | src/io/progress_status.rs:19-25 | the total only grows, by one when processing catches up with it, so it stays above the processed count |
| ProgressStatus.Percent | src/io/record_printer.rs:85 | at most 100 while processed ≤ total, and exactly 100 when they are equal |
| ProgressStatus.PercentAtMost100 | src/io/record_printer.rs:85 | the same bound on `processed * 100 / total` |
| ProgressStatus.StatusStaysOrdered | src/io/record_printer.rs:82-85 | after `processed` then `estimate_more`, 1 ≤ processed ≤ total |
| ProgressStatus.ProgressStatus.Default | src/io/progress_status.rs:28-35 | starts at 0/0 |
| ProgressStatus.ProgressStatus.EstimateMore | src/io/progress_status.rs:10-16 | keeps the processed count and updates the total as `EstimatedTotal` says |
| ProgressStatus.ProgressStatus.Processed | src/io/progress_status.rs:19-25 | counts one more file and updates the total as `TotalAfterProcessed` says |
| ProgressStatus.EstimateMoreTest | src/io/progress_status.rs:42-73 | the unit test's totals 11, 11, 12, 13, 14 |
| ProgressStatus.IncrementTotalTest | src/io/progress_status.rs:76-101 | the unit test's states 10/11, 11/11, 12/12, 13/13 |
| RecordPrinter.Decimal | src/io/record_printer.rs:99-103 | decimal digits without a leading zero |
| RecordPrinter.DecimalRoundTrip | src/io/record_printer.rs:99-103 | the digits read back as the number |
| RecordPrinter.ProgressLine | src/io/record_printer.rs:99-103 | the progress line begins with "Files processed: " |
| RecordPrinter.PlainRecordPrinter.constructor | src/io/record_printer.rs:137-142 | both buffers start empty |
| RecordPrinter.PlainRecordPrinter.Print | src/io/record_printer.rs:150-158 | buffers the record; flushes standard output then standard error exactly when 512 KiB of standard output are buffered or the record has a standard error part, which is then its own chunk on standard error; nothing is left buffered on standard error |
| RecordPrinter.PlainRecordPrinter.Finish | src/io/record_printer.rs:160-163 | flushes standard output then standard error, after which each stream has received exactly what was printed to it, in order |
| RecordPrinter.ProgressiveRecordPrinter.constructor | src/io/record_printer.rs:58-70 | empty buffers, status 0 of the total hint, last percentage 0, no progress line on screen |
| RecordPrinter.ProgressiveRecordPrinter.Print | src/io/record_printer.rs:78-113 | counts the record processed, then adds the hint; it stays quiet exactly when the buffer is under 512 KiB, the percentage is unchanged and there is no standard error part; otherwise it flushes standard error (the erasing codes if a line was shown, then the record's part), then standard output, then writes the saved-cursor progress line, and leaves restore-cursor and clear-below buffered with the line marked as shown |
| RecordPrinter.ProgressiveRecordPrinter.ShowProgress | src/io/record_printer.rs:91-112 | the three flushes in order, the cursor codes left buffered, and standard error's account extended by the description, the line and the codes |
| RecordPrinter.ProgressiveRecordPrinter.Finish | src/io/record_printer.rs:115-118 | flushes standard output, then standard error, which erases a progress line on screen; each stream has then received exactly what was handed to it |
| RecordPrinter.Printer.Print | src/io/record_printer.rs:32 | either printer's print: the record's standard output part is owed to standard output, and a standard error part is flushed at once as a chunk of its own, behind the codes erasing a progress line if one was shown |
| RecordPrinter.Printer.Finish | src/io/record_printer.rs:36 | either printer's finish: standard output has received everything owed to it, standard error everything written to it, and a progress line that was on screen is erased by the last chunk |

## Left out

- src/main.rs orchestration is not part of this model: argument handling, locking the standard streams, `isatty`, `calc_total`, the exit codes, and how the walks' errors are reported after printing. `PrintDiff` takes the verdicts and the per-record hints as parameters.
- src/cli.rs and build.rs are not part of this model: argument parsing and build plumbing. The block size is a `Cap` (≥ 1), because the argument parser refuses 0.
- The real operating system is not modelled: `symlink_metadata`, `read_dir`, `read_link`, `File::open` and `Read::read` act on the `Fs` value, and file types beyond directory, regular file and symlink are lumped together as `Special`.
- `to_string_lossy` is not modelled: file names are treated as valid UTF-8, so percent-encoding works on their bytes directly. Percent-encoding and decimal formatting are spelled out concretely rather than taken from the crates that provide them.
- `io::Error` is modelled as its kind plus a description as bytes; the messages the OS would attach are left out.
- Integer widths are left out: `usize` counters and `processed_no * 100` are unbounded `nat`s, so overflow is not modelled.
- Write failures on standard output and standard error are left out: the source unwraps them, so they panic.
- `ManualBufWriter::capacity` and `Vec::with_capacity` only reserve memory, so they are left out.
- `write_fmt` and `write!` are modelled as `WriteAll` of the formatted bytes.
- The size hints `print_all_records` passes to `print` come from the iterator chain in src/main.rs, so the model takes them as a parameter.
- The DIR_ELEMS_MAX constant (src/iter/rec_dir_iter.rs:38) is only an allocation hint, so it is left out.
- The rudimentary traversal test (src/iter/rec_dir_iter.rs:160-190) creates a real temporary tree, which is not modelled; the general lemmas about `Remaining` cover the order and completeness it checks.
- The `InterruptingReader` test helper (src/io/read_int_mitigator.rs:39-66) is not modelled as a class of its own; `FileSystem.FileReader` with a read script plays its part.
- The source's integration tests in src/main.rs run the binary, so they are left out.
- RecDirIter.RecDirIter.SizeHint: gives the corrected hint and not the one in the code, because the code's hint breaks the bound `Iterator::size_hint` promises (see Findings); `SizeHintAsWritten` is the code's hint.

## Findings

| source | as written | input that shows it | evidently intended | confidence | as-written member | corrected member |
|---|---|---|---|---|---|---|
| src/iter/rec_dir_iter.rs:145-151 | `size_hint` gives `(to_traverse.len(), None)` without an error and `(0, Some(0))` with one | a latched error (for example a missing root) still yields one item against an upper bound of 0; a queue of three directories whose first fails to list yields two items against a lower bound of 3 | a lower bound of 1 for a non-empty queue and exactly 1 while an error is latched, which `Iterator::size_hint` then keeps | not executed | RecDirIter.SizeHintAsWrittenMissesError | RecDirIter.SizeHintCorrectedSound |
