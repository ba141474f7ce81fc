/** The record printers: output buffered in memory and flushed in large blocks, and, for
    the progressive one, a progress report kept on the last line of standard error. */
module RecordPrinter {
  import opened Base
  import opened Terminal
  import opened ManualBufWriter
  import opened ProgressStatus
  import opened OutputRecord
  import opened ColorCodes

  /** How many bytes of standard output may wait before they are flushed (512 KiB) */
  const BYTES_PER_FLUSH: nat := 512 * 1024

  /** Save the cursor position and attributes */
  const SAVE_CURSOR: Bytes := [ESC, 0x37]

  /** Restore the cursor position and attributes */
  const RESTORE_CURSOR: Bytes := [ESC, 0x38]

  /** Clear the screen from the cursor down */
  const CLEAR_BELOW: Bytes := [ESC, 0x5B, 0x4A]

  // ---------------------------------------------------------------------------------
  // The progress line

  predicate IsDigit(b: byte) {
    0x30 <= b <= 0x39
  }

  /** The decimal digits of `n` (`Display` for `usize` and `u32`): no leading zero */
  function Decimal(n: nat): (r: Bytes)
    ensures |r| >= 1 && forall i :: 0 <= i < |r| ==> IsDigit(r[i])
    ensures |r| > 1 ==> r[0] != 0x30
    decreases n
  {
    if n < 10 then [(0x30 + n) as byte] else Decimal(n / 10) + [(0x30 + n % 10) as byte]
  }

  /** The number a string of decimal digits denotes */
  function DecimalValue(s: Bytes): nat
    requires forall i :: 0 <= i < |s| ==> IsDigit(s[i])
  {
    if s == [] then 0
    else
      var last := s[|s| - 1];
      assert IsDigit(last);
      DecimalValue(s[..|s| - 1]) * 10 + (last as int - 0x30)
  }

  /** The number printed can be read back. */
  lemma {:induction false} DecimalRoundTrip(n: nat)
    ensures DecimalValue(Decimal(n)) == n
    decreases n
  {
    if n >= 10 {
      DecimalRoundTrip(n / 10);
      var r := Decimal(n);
      assert r[..|r| - 1] == Decimal(n / 10);
    }
  }

  /** "Files processed: p/t (c%)" */
  function ProgressLine(processed: nat, total: nat, percent: nat): (r: Bytes)
    ensures |r| >= 17 && r[..17] == Ascii("Files processed: ")
  {
    Ascii("Files processed: ") + Decimal(processed) + Ascii("/") + Decimal(total)
      + Ascii(" (") + Decimal(percent) + Ascii("%)")
  }

  /** Appending to the buffer and to what was sent keeps them in step. */
  lemma Regroup(received: Bytes, buf: Bytes, data: Bytes, base: Bytes, sent: Bytes)
    requires received + buf == base + sent
    ensures received + (buf + data) == base + (sent + data)
  {
    calc {
      received + (buf + data);
      (received + buf) + data;
      (base + sent) + data;
      base + (sent + data);
    }
  }

  /** What standard error keeps buffered while a progress line is on screen: the codes
      that erase it */
  function Erase(showing: bool): Bytes {
    if showing then RESTORE_CURSOR + CLEAR_BELOW else []
  }

  /** `c` is a flush of standard error that carries the error description `e`, behind the
      codes that erase a progress line if one was on screen */
  predicate IsReport(c: Chunk, e: Bytes) {
    c.stream == Stderr && (c.bytes == e || c.bytes == RESTORE_CURSOR + CLEAR_BELOW + e)
  }

  /** Standard error after a shown progress line keeps in step with what was handed to it. */
  lemma ProgressRegroup(received: Bytes, buf: Bytes, e: Bytes, shown: Bytes, base: Bytes, written: Bytes)
    requires received + buf == base + written
    ensures (received + (buf + e) + shown) + (RESTORE_CURSOR + CLEAR_BELOW)
         == base + (written + e + shown + (RESTORE_CURSOR + CLEAR_BELOW))
  {
    calc {
      (received + (buf + e) + shown) + (RESTORE_CURSOR + CLEAR_BELOW);
      (received + buf) + e + shown + RESTORE_CURSOR + CLEAR_BELOW;
      (base + written) + e + shown + RESTORE_CURSOR + CLEAR_BELOW;
      base + (written + e + shown + (RESTORE_CURSOR + CLEAR_BELOW));
    }
  }

  // ---------------------------------------------------------------------------------
  // `PlainRecordPrinter`

  class PlainRecordPrinter {
    const term: Terminal
    const stdout: ManualBufWriter
    const stderr: ManualBufWriter
    /** What the streams had received before the printer was made */
    ghost const outBase: Bytes
    ghost const errBase: Bytes
    /** Every record part handed to `print` so far */
    ghost var outSent: Bytes
    ghost var errSent: Bytes

    /** Each stream has received what was sent to it, except what is still buffered;
        standard output never holds a full block unflushed, and standard error never holds
        anything, since a record with an error description is flushed at once. */
    ghost predicate Valid()
      reads this, stdout, stderr, term
    {
      && stdout.inner == term && stderr.inner == term && stdout != stderr
      && stdout.stream == Stdout && stderr.stream == Stderr
      && |stdout.buf| < BYTES_PER_FLUSH && stderr.buf == []
      && Received(term.log, Stdout) + stdout.buf == outBase + outSent
      && Received(term.log, Stderr) + stderr.buf == errBase + errSent
    }

    /** `PlainRecordPrinter::new`: both buffers empty */
    constructor (term: Terminal)
      ensures Valid() && this.term == term && fresh(stdout) && fresh(stderr)
      ensures stdout.buf == [] && stderr.buf == [] && outSent == [] && errSent == []
      ensures outBase == Received(term.log, Stdout) && errBase == Received(term.log, Stderr)
    {
      this.term := term;
      stdout := new ManualBufWriter(term, Stdout, 2 * BYTES_PER_FLUSH);
      stderr := new ManualBufWriter(term, Stderr, BYTES_PER_FLUSH);
      outBase, errBase := Received(term.log, Stdout), Received(term.log, Stderr);
      outSent, errSent := [], [];
    }

    /** `print`: buffers both parts of the record, and flushes standard output, then
        standard error, when a block of output is buffered or the record reports an error. */
    method Print(record: OutputRecord, more: nat)
      requires Valid()
      modifies this, stdout, stderr, term
      ensures Valid()
      ensures outSent == old(outSent) + record.stdout && errSent == old(errSent) + record.stderr
      ensures old(term.log) <= term.log
      ensures record.stderr != [] ==>
        |term.log| == |old(term.log)| + 2 && IsReport(term.log[|old(term.log)| + 1], record.stderr)
      ensures var flush := BYTES_PER_FLUSH <= |old(stdout.buf)| + |record.stdout| || record.stderr != [];
        && (flush ==>
              && term.log == old(term.log) + [Chunk(Stdout, old(stdout.buf) + record.stdout),
                                              Chunk(Stderr, old(stderr.buf) + record.stderr)]
              && stdout.buf == [] && stderr.buf == [])
        && (!flush ==>
              && term.log == old(term.log)
              && stdout.buf == old(stdout.buf) + record.stdout && stderr.buf == old(stderr.buf) + record.stderr)
    {
      stdout.WriteAll(record.stdout);
      stderr.WriteAll(record.stderr);
      outSent, errSent := outSent + record.stdout, errSent + record.stderr;
      Regroup(Received(term.log, Stdout), old(stdout.buf), record.stdout, outBase, old(outSent));
      Regroup(Received(term.log, Stderr), old(stderr.buf), record.stderr, errBase, old(errSent));
      if BYTES_PER_FLUSH <= stdout.Len() || record.stderr != [] {
        stdout.Flush();
        stderr.Flush();
      }
    }

    /** `finish`: flushes standard output, then standard error, so each stream has received
        exactly what was sent to it, in order. */
    method Finish()
      requires Valid()
      modifies stdout, stderr, term
      ensures Valid()
      ensures term.log == old(term.log) + [Chunk(Stdout, old(stdout.buf)), Chunk(Stderr, old(stderr.buf))]
      ensures stdout.buf == [] && stderr.buf == []
      ensures Received(term.log, Stdout) == outBase + outSent && Received(term.log, Stderr) == errBase + errSent
    {
      stdout.Flush();
      stderr.Flush();
    }
  }

  // ---------------------------------------------------------------------------------
  // `ProgressiveRecordPrinter`

  class ProgressiveRecordPrinter {
    const term: Terminal
    const stdout: ManualBufWriter
    const stderr: ManualBufWriter
    const status: ProgressStatus
    var lastPercent: nat
    ghost const outBase: Bytes
    ghost var outSent: Bytes
    /** What standard error had received before the printer was made */
    ghost const errBase: Bytes
    /** Everything handed to the standard error buffer: error descriptions, progress lines
        and the codes that erase them */
    ghost var errWritten: Bytes
    /** A progress line is on screen, to be erased by the buffered cursor codes */
    ghost var showing: bool

    /** Each stream has received what was handed to it, except what is buffered; standard
        output never holds a full block unflushed; standard error holds nothing buffered but
        the codes that erase the progress line, exactly while one is on screen, and then the
        last flush of all was that progress line; the percentage shown is at most 100. */
    ghost predicate Valid()
      reads this, stdout, stderr, term, status
    {
      && stdout.inner == term && stderr.inner == term && stdout != stderr
      && stdout.stream == Stdout && stderr.stream == Stderr
      && status.processedNo <= status.totalNo && lastPercent <= 100
      && |stdout.buf| < BYTES_PER_FLUSH
      && Received(term.log, Stdout) + stdout.buf == outBase + outSent
      && Received(term.log, Stderr) + stderr.buf == errBase + errWritten
      && stderr.buf == Erase(showing)
      && (showing ==>
            |term.log| > 0 && term.log[|term.log| - 1].stream == Stderr
            && SAVE_CURSOR <= term.log[|term.log| - 1].bytes)
    }

    /** `ProgressiveRecordPrinter::new`: nothing processed out of `totalHint`, 0% shown */
    constructor (term: Terminal, totalHint: nat)
      ensures Valid() && this.term == term && fresh(stdout) && fresh(stderr) && fresh(status)
      ensures stdout.buf == [] && stderr.buf == [] && outSent == [] && errWritten == [] && !showing
      ensures status.totalNo == totalHint && status.processedNo == 0 && lastPercent == 0
      ensures outBase == Received(term.log, Stdout) && errBase == Received(term.log, Stderr)
    {
      this.term := term;
      stdout := new ManualBufWriter(term, Stdout, 2 * BYTES_PER_FLUSH);
      stderr := new ManualBufWriter(term, Stderr, BYTES_PER_FLUSH);
      status := new ProgressStatus(totalHint, 0);
      lastPercent := 0;
      outBase, outSent := Received(term.log, Stdout), [];
      errBase, errWritten, showing := Received(term.log, Stderr), [], false;
    }

    /** `print`: buffers the record and counts it as processed with `more` to follow. It
        stays quiet while less than a block of output is buffered, the percentage is
        unchanged and the record reports no error. Otherwise it flushes standard error
        (erasing the old progress line) before standard output, then prints the new
        progress line behind a saved cursor and leaves the codes that erase it buffered. */
    method Print(record: OutputRecord, more: nat)
      requires Valid()
      modifies this, stdout, stderr, term, status
      ensures Valid()
      ensures outSent == old(outSent) + record.stdout
      ensures old(term.log) <= term.log
      ensures record.stderr != [] ==>
        |term.log| == |old(term.log)| + 3 && IsReport(term.log[|old(term.log)|], record.stderr)
      ensures status.processedNo == old(status.processedNo) + 1
      ensures status.totalNo ==
        EstimatedTotal(TotalAfterProcessed(old(status.totalNo), old(status.processedNo)), status.processedNo, more)
      ensures var cur := Percent(status.processedNo, status.totalNo);
        var quiet := |old(stdout.buf)| + |record.stdout| < BYTES_PER_FLUSH && old(lastPercent) == cur && record.stderr == [];
        var line := ProgressLine(status.processedNo, status.totalNo, cur);
        && (quiet ==>
              && term.log == old(term.log) && lastPercent == old(lastPercent)
              && stdout.buf == old(stdout.buf) + record.stdout && stderr.buf == old(stderr.buf)
              && errWritten == old(errWritten) && showing == old(showing))
        && (!quiet ==>
              && lastPercent == cur
              && term.log == old(term.log) + [
                   Chunk(Stderr, Erase(old(showing)) + record.stderr),
                   Chunk(Stdout, old(stdout.buf) + record.stdout),
                   Chunk(Stderr, SAVE_CURSOR + line)]
              && errWritten == old(errWritten) + record.stderr + (SAVE_CURSOR + line) + (RESTORE_CURSOR + CLEAR_BELOW)
              && stdout.buf == [] && stderr.buf == RESTORE_CURSOR + CLEAR_BELOW && showing)
    {
      stdout.WriteAll(record.stdout);
      stderr.WriteAll(record.stderr);
      outSent := outSent + record.stdout;
      Regroup(Received(term.log, Stdout), old(stdout.buf), record.stdout, outBase, old(outSent));
      status.Processed();
      status.EstimateMore(more);
      var curPercent := Percent(status.processedNo, status.totalNo);
      if stdout.Len() < BYTES_PER_FLUSH && lastPercent == curPercent && record.stderr == [] {
        assert stderr.buf == old(stderr.buf);
        return;
      }
      lastPercent := curPercent;
      ShowProgress(ProgressLine(status.processedNo, status.totalNo, curPercent), record.stderr);
    }

    /** Both streams wired to one terminal */
    predicate Wired() {
      stdout.inner == term && stderr.inner == term && stdout != stderr
      && stdout.stream == Stdout && stderr.stream == Stderr
    }

    /** The second half of `print`, once the record's error description `e` is buffered
        behind the codes that erase the old progress line: flushes standard error, then
        standard output, prints the progress line and leaves the codes that erase it
        buffered. */
    method ShowProgress(line: Bytes, ghost e: Bytes)
      requires Wired()
      requires stderr.buf == Erase(showing) + e
      requires Received(term.log, Stderr) + Erase(showing) == errBase + errWritten
      modifies this`errWritten, this`showing, stdout, stderr, term
      ensures term.log == old(term.log) + [
        Chunk(Stderr, old(stderr.buf)), Chunk(Stdout, old(stdout.buf)), Chunk(Stderr, SAVE_CURSOR + line)]
      ensures stdout.buf == [] && stderr.buf == RESTORE_CURSOR + CLEAR_BELOW && showing
      ensures errWritten == old(errWritten) + e + (SAVE_CURSOR + line) + (RESTORE_CURSOR + CLEAR_BELOW)
      ensures Received(term.log, Stdout) == old(Received(term.log, Stdout)) + old(stdout.buf)
      ensures Received(term.log, Stderr) + stderr.buf == errBase + errWritten
      ensures SAVE_CURSOR <= term.log[|term.log| - 1].bytes
    {
      ghost var err0, erase, written := Received(term.log, Stderr), Erase(showing), errWritten;
      ghost var shown := SAVE_CURSOR + line;
      ProgressRegroup(err0, erase, e, shown, errBase, written);
      Redraw(line);
      assert Received(term.log, Stderr) == err0 + (erase + e) + shown;
      errWritten := written + e + shown + (RESTORE_CURSOR + CLEAR_BELOW);
      showing := true;
      assert term.log[|term.log| - 1].bytes == shown && shown[..|SAVE_CURSOR|] == SAVE_CURSOR;
    }

    /** The writes of `ShowProgress` */
    method Redraw(line: Bytes)
      requires Wired()
      modifies stdout, stderr, term
      ensures term.log == old(term.log) + [
        Chunk(Stderr, old(stderr.buf)), Chunk(Stdout, old(stdout.buf)), Chunk(Stderr, SAVE_CURSOR + line)]
      ensures stdout.buf == [] && stderr.buf == RESTORE_CURSOR + CLEAR_BELOW
      ensures Received(term.log, Stdout) == old(Received(term.log, Stdout)) + old(stdout.buf)
      ensures Received(term.log, Stderr) == old(Received(term.log, Stderr)) + old(stderr.buf) + (SAVE_CURSOR + line)
    {
      ghost var out0, err0 := Received(term.log, Stdout), Received(term.log, Stderr);
      stderr.Flush();
      assert Received(term.log, Stdout) == out0;
      ghost var err1 := Received(term.log, Stderr);
      stdout.Flush();
      assert Received(term.log, Stderr) == err1;
      ghost var mid, out1 := term.log, Received(term.log, Stdout);
      stderr.WriteAll(SAVE_CURSOR + line);
      assert stderr.buf == SAVE_CURSOR + line;
      stderr.Flush();
      assert term.log == mid + [Chunk(Stderr, SAVE_CURSOR + line)];
      assert Received(term.log, Stdout) == out1;
      stderr.WriteAll(RESTORE_CURSOR + CLEAR_BELOW);
    }

    /** `finish`: flushes standard output, then standard error, which erases the progress
        line if one is on screen; each stream has then received exactly what was handed
        to it. */
    method Finish()
      requires Valid()
      modifies this, stdout, stderr, term
      ensures Valid() && !showing
      ensures term.log == old(term.log) + [Chunk(Stdout, old(stdout.buf)), Chunk(Stderr, Erase(old(showing)))]
      ensures stdout.buf == [] && stderr.buf == []
      ensures outSent == old(outSent) && errWritten == old(errWritten)
      ensures Received(term.log, Stdout) == outBase + outSent && Received(term.log, Stderr) == errBase + errWritten
    {
      stdout.Flush();
      stderr.Flush();
      showing := false;
    }
  }

  // ---------------------------------------------------------------------------------
  // Either printer (`RecordPrinter`)

  datatype Printer = Plain(plain: PlainRecordPrinter) | Progressive(progressive: ProgressiveRecordPrinter) {
    ghost function Footprint(): set<object> {
      match this
      case Plain(p) => {p, p.stdout, p.stderr, p.term}
      case Progressive(p) => {p, p.stdout, p.stderr, p.term, p.status}
    }

    function Term(): Terminal {
      match this
      case Plain(p) => p.term
      case Progressive(p) => p.term
    }

    ghost predicate Valid()
      reads Footprint()
    {
      match this
      case Plain(p) => p.Valid()
      case Progressive(p) => p.Valid()
    }

    /** What standard output is owed: everything sent to it */
    ghost function OutOwed(): Bytes
      reads Footprint()
    {
      match this
      case Plain(p) => p.outBase + p.outSent
      case Progressive(p) => p.outBase + p.outSent
    }

    ghost function OutSent(): Bytes
      reads Footprint()
    {
      match this
      case Plain(p) => p.outSent
      case Progressive(p) => p.outSent
    }

    /** `print`: the record's standard output part is owed to standard output, and an
        error description is flushed to standard error before `print` returns, behind the
        codes that erase a progress line if one was on screen: in chunk `at` of the log. */
    method Print(record: OutputRecord, more: nat) returns (ghost at: nat)
      requires Valid()
      modifies Footprint()
      ensures Valid()
      ensures OutSent() == old(OutSent()) + record.stdout && OutOwed() == old(OutOwed()) + record.stdout
      ensures old(Term().log) <= Term().log && |old(Term().log)| <= at
      ensures record.stderr != [] ==> at < |Term().log| && IsReport(Term().log[at], record.stderr)
      ensures Plain? ==> plain.errSent == old(plain.errSent) + record.stderr
      ensures Progressive? ==> progressive.status.processedNo == old(progressive.status.processedNo) + 1
    {
      match this
      case Plain(p) =>
        p.Print(record, more);
        at := |old(p.term.log)| + 1;
      case Progressive(p) =>
        p.Print(record, more);
        at := |old(p.term.log)|;
    }

    /** `finish`: each stream receives everything owed to it, and a progress line on
        screen is erased by the last flush. */
    method Finish()
      requires Valid()
      modifies Footprint()
      ensures Valid()
      ensures OutSent() == old(OutSent()) && Received(Term().log, Stdout) == OutOwed()
      ensures old(Term().log) <= Term().log
      ensures Plain? ==> plain.errSent == old(plain.errSent) && Received(Term().log, Stderr) == plain.errBase + plain.errSent
      ensures Progressive? ==>
        && progressive.status.processedNo == old(progressive.status.processedNo)
        && !progressive.showing
        && Received(Term().log, Stderr) == progressive.errBase + progressive.errWritten
        && (old(progressive.showing) ==> Term().log[|Term().log| - 1] == Chunk(Stderr, RESTORE_CURSOR + CLEAR_BELOW))
    {
      match this
      case Plain(p) => p.Finish();
      case Progressive(p) => p.Finish();
    }
  }
}
