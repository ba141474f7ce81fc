/** The outcome of comparing the two files found at one relative path */
module Verdict {
  import opened Base

  datatype Verdict = Same | Deleted | Added | Modified | Error(kind: ErrorKind)
}
