/** Turning verdicts into report records and printing them: one line per differing path,
    opened by the status indicator, in the status color, and for an error a second line on
    standard error describing it. */
module PrintDiff {
  import opened Base
  import opened Paths
  import opened Verdict
  import opened LineStatus
  import opened ColorCodes
  import opened LineStatusColorCodes
  import opened OutputRecord
  import opened PercentEncode
  import opened Terminal
  import opened RecordPrinter

  const SPACE: byte := 0x20
  const NEWLINE: byte := 0x0A
  const NUL: byte := 0x00

  /** `fmt_error_kind`: a fixed description for the four kinds the report tells apart */
  function FmtErrorKind(ek: ErrorKind): (r: string)
    ensures |r| > 0
    ensures r == "unexpected error" <==> !(ek in {NotFound, PermissionDenied, Interrupted, InvalidData})
  {
    match ek
    case NotFound => "file not found"
    case PermissionDenied => "permission denied"
    case Interrupted => "file reading was interrupted"
    case InvalidData => "invalid data"
    case _ => "unexpected error"
  }

  /** `OutputSetup`: the color codes and what ends each line */
  datatype OutputSetup = OutputSetup(colorCodes: LineStatusColorCodes, lineTerminator: Bytes)

  /** `wrap_blob_in_record`: the status's color code, the indicator and a space, the blob,
      the reset code and the line terminator, in this order */
  function WrapBlobInRecord(setup: OutputSetup, status: LineStatus, blob: Bytes): (r: Bytes)
    ensures var code, n := setup.colorCodes.Get(status), |setup.colorCodes.Get(status)|;
      && |r| == n + 2 + |blob| + |setup.colorCodes.reset| + |setup.lineTerminator|
      && r[..n] == code && r[n] == status.IndicatorByte() && r[n + 1] == SPACE
      && r[n + 2..n + 2 + |blob|] == blob
      && r[n + 2 + |blob|..|r| - |setup.lineTerminator|] == setup.colorCodes.reset
      && r[|r| - |setup.lineTerminator|..] == setup.lineTerminator
  {
    var prefix := [status.IndicatorByte(), SPACE];
    var parts := [setup.colorCodes.Get(status), prefix, blob, setup.colorCodes.reset, setup.lineTerminator];
    ConcatFive(parts);
    Concat(parts)
  }

  lemma ConcatFive(parts: seq<Bytes>)
    requires |parts| == 5
    ensures Concat(parts) == parts[0] + parts[1] + parts[2] + parts[3] + parts[4]
  {
    assert parts[..1] == [parts[0]];
    assert parts[..2] == parts[..1] + [parts[1]];
    assert parts[..3] == parts[..2] + [parts[2]];
    assert parts[..4] == parts[..3] + [parts[3]];
    assert parts == parts[..4] + [parts[4]];
    ConcatAppend(parts[..1], parts[1]);
    ConcatAppend(parts[..2], parts[2]);
    ConcatAppend(parts[..3], parts[3]);
    ConcatAppend(parts[..4], parts[4]);
  }

  /** Every description is ASCII text. */
  lemma FmtErrorKindAscii(ek: ErrorKind)
    ensures IsAscii(FmtErrorKind(ek))
  {
    match ek
    case NotFound => assert IsAscii("file not found");
    case PermissionDenied => assert IsAscii("permission denied");
    case Interrupted => assert IsAscii("file reading was interrupted");
    case InvalidData => assert IsAscii("invalid data");
    case _ => assert IsAscii("unexpected error");
  }

  /** The bytes of the description, as `write!` puts them on standard error */
  function ErrorKindBytes(ek: ErrorKind): (r: Bytes)
    ensures |r| == |FmtErrorKind(ek)|
  {
    FmtErrorKindAscii(ek);
    Ascii(FmtErrorKind(ek))
  }

  /** `error_kind_to_stderr_record`: a '^' line describing the kind */
  function ErrorKindToStderrRecord(setup: OutputSetup, ek: ErrorKind): Bytes {
    WrapBlobInRecord(setup, ErrorDescription, ErrorKindBytes(ek))
  }

  /** The line status a verdict is reported with; `Same` is never reported. */
  function StatusOfVerdict(v: Verdict): (s: LineStatus)
    requires !v.Same?
    ensures s != ErrorDescription
  {
    match v
    case Deleted => LineStatus.Deleted
    case Added => LineStatus.Added
    case Modified => LineStatus.Modified
    case Error(_) => LineStatus.Error
  }

  /** `verdict_and_blob_to_output_record`. `Same` is never reported: the program
      treats it as unreachable. Whatever the colors: the standard output line shows the verdict's indicator (`!` for
      an error) right after the color code, then a space and the blob, and ends with the
      line terminator; there is a standard error line exactly for an error, and it shows
      `^` and the description of the error kind. */
  function VerdictAndBlobToOutputRecord(setup: OutputSetup, v: Verdict, blob: Bytes): (r: OutputRecord)
    requires !v.Same?
    ensures var n := |setup.colorCodes.Get(StatusOfVerdict(v))|;
      && |r.stdout| >= n + 2 + |blob| + |setup.lineTerminator|
      && r.stdout[n] == StatusOfVerdict(v).IndicatorByte() && r.stdout[n + 1] == SPACE
      && r.stdout[n + 2..n + 2 + |blob|] == blob
      && r.stdout[|r.stdout| - |setup.lineTerminator|..] == setup.lineTerminator
      && (v.Error? <==> r.stdout[n] == '!' as byte)
    ensures r.stderr != [] <==> v.Error?
    ensures v.Error? ==>
      var m, text := |setup.colorCodes.Get(ErrorDescription)|, ErrorKindBytes(v.kind);
      && |r.stderr| >= m + 2 + |text| && r.stderr[m] == '^' as byte && r.stderr[m + 1] == SPACE
      && r.stderr[m + 2..m + 2 + |text|] == text
  {
    var stderr := if v.Error? then ErrorKindToStderrRecord(setup, v.kind) else [];
    OutputRecord(WrapBlobInRecord(setup, StatusOfVerdict(v), blob), stderr)
  }

  /** `verdict_and_path_to_percent_output_record`: the empty record for `Same`, otherwise
      the record of the percent-encoded path */
  function PercentOutputRecord(setup: OutputSetup, vp: (Verdict, Path)): OutputRecord {
    if vp.0 == Same then Empty() else VerdictAndBlobToOutputRecord(setup, vp.0, EncodePath(vp.1))
  }

  /** `verdict_and_path_to_raw_output_record`: the same with the path's raw bytes */
  function RawOutputRecord(setup: OutputSetup, vp: (Verdict, Path)): OutputRecord {
    if vp.0 == Same then Empty() else VerdictAndBlobToOutputRecord(setup, vp.0, PathBytes(vp.1))
  }

  /** The setup `print_diff` makes: NUL-terminated lines with `--null`, newlines otherwise */
  function Setup(colorCodes: LineStatusColorCodes, nulTerminated: bool): (s: OutputSetup)
    ensures s.lineTerminator == [if nulTerminated then NUL else NEWLINE]
  {
    OutputSetup(colorCodes, if nulTerminated then [NUL] else [NEWLINE])
  }

  /** The record `print_diff` makes of one verdict: raw path bytes with `--null`, the
      percent-encoded path otherwise */
  function RecordOf(colorCodes: LineStatusColorCodes, nulTerminated: bool, vp: (Verdict, Path)): OutputRecord {
    var setup := Setup(colorCodes, nulTerminated);
    if nulTerminated then RawOutputRecord(setup, vp) else PercentOutputRecord(setup, vp)
  }

  function RecordsOf(colorCodes: LineStatusColorCodes, nulTerminated: bool, vps: seq<(Verdict, Path)>): (r: seq<OutputRecord>)
    ensures |r| == |vps| && forall i :: 0 <= i < |vps| ==> r[i] == RecordOf(colorCodes, nulTerminated, vps[i])
  {
    seq(|vps|, i requires 0 <= i < |vps| => RecordOf(colorCodes, nulTerminated, vps[i]))
  }

  // ---------------------------------------------------------------------------------
  // Reading an uncolored line back

  /** The status and the blob of an uncolored line ending in `terminator` */
  function ParseLine(line: Bytes, terminator: byte): Option<(LineStatus, Bytes)> {
    if |line| >= 3 && line[1] == SPACE && line[|line| - 1] == terminator && StatusOfByte(line[0]).Some?
    then Some((StatusOfByte(line[0]).value, line[2..|line| - 1]))
    else None
  }

  /** An uncolored line gives back the status and the blob it was made of. */
  lemma ParseWrap(status: LineStatus, blob: Bytes, terminator: byte)
    ensures ParseLine(WrapBlobInRecord(OutputSetup(NoColor(), [terminator]), status, blob), terminator) == Some((status, blob))
  {
    var r := WrapBlobInRecord(OutputSetup(NoColor(), [terminator]), status, blob);
    assert r[2..|r| - 1] == r[2..2 + |blob|];
  }

  /** A record reports a pair of files exactly when they are not the same, and has an
      error description exactly when it reports an error. Without colors, its standard
      output line reads back as the status and the path as printed, and the description
      as '^' and the text of the error kind. */
  lemma RecordPairing(nulTerminated: bool, v: Verdict, p: Path)
    ensures var r := RecordOf(NoColor(), nulTerminated, (v, p));
      && (r.stdout == [] <==> v == Same)
      && (r.stderr != [] <==> v.Error?)
      && var t := if nulTerminated then NUL else NEWLINE;
         var printed := if nulTerminated then PathBytes(p) else EncodePath(p);
         && (v != Same ==> ParseLine(r.stdout, t) == Some((StatusOfVerdict(v), printed)))
         && (v.Error? ==> ParseLine(r.stderr, t) == Some((ErrorDescription, ErrorKindBytes(v.kind))))
  {
    var t := if nulTerminated then NUL else NEWLINE;
    var printed := if nulTerminated then PathBytes(p) else EncodePath(p);
    if v != Same {
      ParseWrap(StatusOfVerdict(v), printed, t);
      if v.Error? {
        ParseWrap(ErrorDescription, ErrorKindBytes(v.kind), t);
      }
    }
  }

  /** A percent-encoded record occupies exactly one line: with or without colors, its only
      newline is the one that ends it, since no color code and no encoded path byte is a
      newline. */
  lemma PercentRecordIsOneLine(colorCodes: LineStatusColorCodes, v: Verdict, p: Path)
    requires colorCodes == NoColor() || colorCodes == Color()
    requires v != Same
    ensures var line := RecordOf(colorCodes, false, (v, p)).stdout;
      |line| >= 1 && line[|line| - 1] == NEWLINE && forall i :: 0 <= i < |line| - 1 ==> line[i] != NEWLINE
  {
    var setup := Setup(colorCodes, false);
    var status := StatusOfVerdict(v);
    var blob := EncodePath(p);
    var line := WrapBlobInRecord(setup, status, blob);
    assert line == RecordOf(colorCodes, false, (v, p)).stdout;
    var code, reset := colorCodes.Get(status), colorCodes.reset;
    var prefix := [status.IndicatorByte(), SPACE];
    ConcatFive([code, prefix, blob, reset, setup.lineTerminator]);
    CodesHaveNoNewline(colorCodes, status);
    EncodedHasNoNewline(p);
    OneLine(line, code, prefix, blob, reset);
  }

  lemma CodesHaveNoNewline(colorCodes: LineStatusColorCodes, status: LineStatus)
    requires colorCodes == NoColor() || colorCodes == Color()
    ensures NEWLINE !in colorCodes.Get(status) && NEWLINE !in colorCodes.reset
    ensures NEWLINE !in [status.IndicatorByte(), SPACE]
  {
  }

  lemma EncodedHasNoNewline(p: Path)
    ensures NEWLINE !in EncodePath(p)
  {
    EncodePrintable(PathBytes(p));
    var blob := EncodePath(p);
    assert forall i :: 0 <= i < |blob| ==> blob[i] != NEWLINE;
  }

  /** A line made of parts without a newline, and a newline, has only that newline. */
  lemma OneLine(line: Bytes, code: Bytes, prefix: Bytes, blob: Bytes, reset: Bytes)
    requires line == code + prefix + blob + reset + [NEWLINE]
    requires NEWLINE !in code && NEWLINE !in prefix && NEWLINE !in blob && NEWLINE !in reset
    ensures |line| >= 1 && line[|line| - 1] == NEWLINE && forall i :: 0 <= i < |line| - 1 ==> line[i] != NEWLINE
  {
    var body := code + prefix + blob + reset;
    assert line == body + [NEWLINE];
    assert NEWLINE !in body;
    forall i | 0 <= i < |line| - 1 ensures line[i] != NEWLINE {
      assert line[i] == body[i];
    }
  }

  // ---------------------------------------------------------------------------------
  // Printing

  /** The standard output parts of the records, concatenated */
  function AllStdout(records: seq<OutputRecord>): Bytes {
    if records == [] then [] else AllStdout(records[..|records| - 1]) + records[|records| - 1].stdout
  }

  /** The standard error parts of the records, concatenated */
  function AllStderr(records: seq<OutputRecord>): Bytes {
    if records == [] then [] else AllStderr(records[..|records| - 1]) + records[|records| - 1].stderr
  }

  /** One more record, after what the streams were sent before the first */
  lemma AllPartsStep(records: seq<OutputRecord>, i: nat, out0: Bytes, err0: Bytes)
    requires i < |records|
    ensures out0 + AllStdout(records[..i + 1]) == (out0 + AllStdout(records[..i])) + records[i].stdout
    ensures err0 + AllStderr(records[..i + 1]) == (err0 + AllStderr(records[..i])) + records[i].stderr
    ensures records[..i] + [records[i]] == records[..i + 1]
  {
    assert records[..i + 1][..i] == records[..i];
  }

  /** Every record's error description was flushed to standard error, after position
      `from` of the terminal's log, as a chunk of its own (`at[i]` for record `i`), in
      the order of the records. */
  ghost predicate ReportsAt(from: nat, log: seq<Chunk>, records: seq<OutputRecord>, at: seq<nat>) {
    && |at| == |records|
    && (forall i :: 0 <= i < |records| && records[i].stderr != [] ==>
          from <= at[i] < |log| && IsReport(log[at[i]], records[i].stderr))
    && (forall i, j :: 0 <= i < j < |records| && records[i].stderr != [] && records[j].stderr != [] ==>
          at[i] < at[j])
  }

  /** A longer log keeps the reports of a shorter one, and one more report behind them
      extends the list. */
  lemma ReportsAtStep(from: nat, log: seq<Chunk>, log': seq<Chunk>, records: seq<OutputRecord>,
                      at: seq<nat>, r: OutputRecord, k: nat)
    requires ReportsAt(from, log, records, at) && log <= log' && from <= |log| <= k
    requires r.stderr != [] ==> k < |log'| && IsReport(log'[k], r.stderr)
    ensures ReportsAt(from, log', records + [r], at + [k])
  {
    var rs, at' := records + [r], at + [k];
    forall i | 0 <= i < |rs| && rs[i].stderr != []
      ensures from <= at'[i] < |log'| && IsReport(log'[at'[i]], rs[i].stderr)
    {
      if i < |records| {
        assert rs[i] == records[i] && at'[i] == at[i] && log'[at[i]] == log[at[i]];
      }
    }
  }

  /** The loop of `print_all_records`: `print` once per record in order, with the lower
      bound that the iterator reports after yielding it (`hints`). */
  method PrintEach(records: seq<OutputRecord>, hints: seq<nat>, printer: Printer) returns (ghost at: seq<nat>)
    requires |hints| == |records| && printer.Valid()
    modifies printer.Footprint()
    ensures printer.Valid()
    ensures printer.OutSent() == old(printer.OutSent()) + AllStdout(records)
    ensures ReportsAt(|old(printer.Term().log)|, printer.Term().log, records, at)
    ensures printer.Plain? ==> printer.plain.errSent == old(printer.plain.errSent) + AllStderr(records)
    ensures printer.Progressive? ==>
      printer.progressive.status.processedNo == old(printer.progressive.status.processedNo) + |records|
  {
    ghost var out0 := printer.OutSent();
    ghost var err0 := if printer.Plain? then printer.plain.errSent else [];
    ghost var done0 := if printer.Progressive? then printer.progressive.status.processedNo else 0;
    ghost var log0 := printer.Term().log;
    at := [];
    var i := 0;
    while i < |records|
      invariant 0 <= i <= |records| && printer.Valid()
      invariant printer.OutSent() == out0 + AllStdout(records[..i])
      invariant |log0| <= |printer.Term().log|
      invariant ReportsAt(|log0|, printer.Term().log, records[..i], at)
      invariant printer.Plain? ==> printer.plain.errSent == err0 + AllStderr(records[..i])
      invariant printer.Progressive? ==> printer.progressive.status.processedNo == done0 + i
    {
      AllPartsStep(records, i, out0, err0);
      ghost var log := printer.Term().log;
      ghost var k := printer.Print(records[i], hints[i]);
      ReportsAtStep(|log0|, log, printer.Term().log, records[..i], at, records[i], k);
      at := at + [k];
      i := i + 1;
    }
    assert records[..i] == records;
  }

  /** `print_all_records`: every record printed, then `finish`. Standard output receives
      exactly the records' standard output parts. Every error description is flushed to
      standard error in a chunk of its own, in order (`at`); with the plain printer,
      standard error receives exactly the records' standard error parts. The progressive
      printer counts every record as processed and leaves no progress line on screen. */
  method PrintAllRecords(records: seq<OutputRecord>, hints: seq<nat>, printer: Printer) returns (ghost at: seq<nat>)
    requires |hints| == |records| && printer.Valid()
    modifies printer.Footprint()
    ensures printer.Valid()
    ensures printer.OutSent() == old(printer.OutSent()) + AllStdout(records)
    ensures Received(printer.Term().log, Stdout) == printer.OutOwed()
    ensures ReportsAt(|old(printer.Term().log)|, printer.Term().log, records, at)
    ensures printer.Plain? ==>
      && printer.plain.errSent == old(printer.plain.errSent) + AllStderr(records)
      && Received(printer.Term().log, Stderr) == printer.plain.errBase + printer.plain.errSent
    ensures printer.Progressive? ==>
      && printer.progressive.status.processedNo == old(printer.progressive.status.processedNo) + |records|
      && !printer.progressive.showing
      && Received(printer.Term().log, Stderr) == printer.progressive.errBase + printer.progressive.errWritten
  {
    ghost var log0 := printer.Term().log;
    at := PrintEach(records, hints, printer);
    ghost var log1 := printer.Term().log;
    printer.Finish();
    ReportsAtExtend(|log0|, log1, printer.Term().log, records, at);
  }

  lemma ReportsAtExtend(from: nat, log: seq<Chunk>, log': seq<Chunk>, records: seq<OutputRecord>, at: seq<nat>)
    requires ReportsAt(from, log, records, at) && log <= log'
    ensures ReportsAt(from, log', records, at)
  {
    forall i | 0 <= i < |records| && records[i].stderr != []
      ensures from <= at[i] < |log'| && IsReport(log'[at[i]], records[i].stderr)
    {
      assert log'[at[i]] == log[at[i]];
    }
  }

  /** `print_diff`: the records of the verdicts, printed */
  method PrintDiff(verdicts: seq<(Verdict, Path)>, hints: seq<nat>, printer: Printer,
                   colorCodes: LineStatusColorCodes, nulTerminated: bool)
    requires |hints| == |verdicts| && printer.Valid()
    modifies printer.Footprint()
    ensures printer.Valid()
    ensures printer.OutSent() == old(printer.OutSent()) + AllStdout(RecordsOf(colorCodes, nulTerminated, verdicts))
    ensures Received(printer.Term().log, Stdout) == printer.OutOwed()
    ensures exists at :: ReportsAt(|old(printer.Term().log)|, printer.Term().log, RecordsOf(colorCodes, nulTerminated, verdicts), at)
    ensures printer.Plain? ==>
      printer.plain.errSent == old(printer.plain.errSent) + AllStderr(RecordsOf(colorCodes, nulTerminated, verdicts))
    ensures printer.Progressive? ==> !printer.progressive.showing
  {
    var records := RecordsOf(colorCodes, nulTerminated, verdicts);
    ghost var at := PrintAllRecords(records, hints, printer);
  }
}
