/** The two output streams of the process, observed together: a log of the chunks written
    to standard output and standard error, in the order they were written. */
module Terminal {
  import opened Base

  datatype Stream = Stdout | Stderr

  /** One `write_all` on a stream */
  datatype Chunk = Chunk(stream: Stream, bytes: Bytes)

  class Terminal {
    var log: seq<Chunk>

    constructor ()
      ensures log == []
    {
      log := [];
    }
  }

  /** Everything stream `s` has received: its chunks of `log`, in order */
  function Received(log: seq<Chunk>, s: Stream): (r: Bytes)
    ensures log == [] ==> r == []
  {
    if log == [] then []
    else
      var last := log[|log| - 1];
      Received(log[..|log| - 1], s) + (if last.stream == s then last.bytes else [])
  }

  /** A new chunk reaches its own stream and leaves the other one as it was. */
  lemma ReceivedAppend(log: seq<Chunk>, c: Chunk, s: Stream)
    ensures Received(log + [c], s) == Received(log, s) + (if c.stream == s then c.bytes else [])
  {
    assert (log + [c])[..|log|] == log;
  }
}
