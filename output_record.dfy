/** One record of the report: what goes to standard output and what goes to standard error */
module OutputRecord {
  import opened Base

  /** The stderr part is empty unless the stdout part reports an error. */
  datatype OutputRecord = OutputRecord(stdout: Bytes, stderr: Bytes)

  /** `OutputRecord::empty`: the record of a pair of files found the same */
  function Empty(): (r: OutputRecord)
    ensures |r.stdout| + |r.stderr| == 0
  {
    OutputRecord([], [])
  }
}
