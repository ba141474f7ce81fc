/** `ManualBufWriter`: a writer that keeps everything in memory until it is told to flush */
module ManualBufWriter {
  import opened Base
  import opened Terminal

  class ManualBufWriter {
    /** The wrapped writer: one stream of the terminal */
    const inner: Terminal
    const stream: Stream
    var buf: Bytes

    /** `new`. The capacity only pre-allocates the buffer and changes nothing observable. */
    constructor (inner: Terminal, stream: Stream, capacity: nat)
      ensures this.inner == inner && this.stream == stream && buf == []
    {
      this.inner, this.stream, buf := inner, stream, [];
    }

    /** `len`: how many bytes wait to be flushed */
    function Len(): (n: nat)
      reads this
      ensures n == |buf|
    {
      |buf|
    }

    /** `write_all`: buffers the bytes; nothing reaches the stream. */
    method WriteAll(data: Bytes)
      modifies this
      ensures buf == old(buf) + data
      ensures unchanged(inner)
    {
      buf := buf + data;
    }

    /** `write`: `write_all`, reporting the whole input as written */
    method Write(data: Bytes) returns (r: IoResult<nat>)
      modifies this
      ensures r == Ok(|data|) && buf == old(buf) + data
      ensures unchanged(inner)
    {
      WriteAll(data);
      r := Ok(|data|);
    }

    /** `flush`: hands the whole buffer to the stream in one write and empties it */
    method Flush()
      modifies this, inner
      ensures inner.log == old(inner.log) + [Chunk(stream, old(buf))] && buf == []
      ensures Received(inner.log, stream) == old(Received(inner.log, stream)) + old(buf)
      ensures forall s :: s != stream ==> Received(inner.log, s) == old(Received(inner.log, s))
    {
      ghost var before := inner.log;
      inner.log := inner.log + [Chunk(stream, buf)];
      buf := [];
      forall s ensures Received(inner.log, s) == Received(before, s) + (if s == stream then old(buf) else []) {
        ReceivedAppend(before, Chunk(stream, old(buf)), s);
      }
    }
  }

  /** The unit test: written bytes reach the stream only when flushed. */
  method Rudimentary() returns (beforeFlush: Bytes, afterFlush: Bytes)
    ensures beforeFlush == [] && afterFlush == Ascii("hello, friend")
  {
    var term := new Terminal();
    var writer := new ManualBufWriter(term, Stdout, 0);
    writer.WriteAll(Ascii("hello, friend"));
    beforeFlush := Received(term.log, Stdout);
    writer.Flush();
    afterFlush := Received(term.log, Stdout);
  }
}
