/** `ReadIntMitigator`: a reader wrapper that retries interrupted reads and keeps
    reading until the buffer is full or the file ends. */
module ReadIntMitigator {
  import opened Base
  import opened FileSystem

  /** `read`: fills `buf` from the front with the next bytes of the file. It ends with
      fewer bytes than `buf` holds only at end of file, retries `Interrupted` failures and
      passes on any other failure. Termination rests on the finiteness of the script: once
      it is used up, reads no longer fail or come up short. */
  method Read(reader: FileReader, buf: array<byte>) returns (r: IoResult<nat>)
    requires reader.Valid()
    modifies reader, buf
    ensures reader.Valid()
    ensures IsSuffix(reader.script, old(reader.script))
    ensures r.Ok? ==> r.value == Min(buf.Length, |reader.content| - old(reader.pos))
    ensures r.Ok? ==>
      && reader.pos == old(reader.pos) + r.value
      && buf[..r.value] == reader.content[old(reader.pos)..reader.pos]
      && buf[r.value..] == old(buf[r.value..])
    ensures r.Err? ==> r.error.kind != Interrupted && Fail(r.error) in old(reader.script)
    ensures NoHardFailure(old(reader.script)) ==> r.Ok?
  {
    var toRead := buf.Length;
    ghost var s0, p0, b0 := reader.script, reader.pos, buf[..];
    ghost var consumed, done := 0, 0;
    while 0 < toRead
      invariant reader.Valid() && 0 <= toRead <= buf.Length && done == buf.Length - toRead
      invariant consumed <= |s0| && reader.script == s0[consumed..]
      invariant reader.pos == p0 + done
      invariant buf[..done] == reader.content[p0..reader.pos] && buf[done..] == b0[done..]
      decreases |reader.script|, toRead
    {
      var offset := buf.Length - toRead;
      ghost var script := reader.script;
      var res := ReadAt(reader, buf, offset, p0, b0);
      if script != [] {
        consumed := consumed + 1;
      }
      match res
      case Ok(n) =>
        if n == 0 {
          break;
        }
        toRead, done := toRead - n, done + n;
      case Err(e) =>
        if e.kind != Interrupted {
          assert s0[consumed - 1] == script[0] == Fail(e);
          return Err(e);
        }
    }
    r := Ok(buf.Length - toRead);
  }

  /** One `read` into `buf[offset..]`, where the bytes before `offset` are the file's from
      `p0` on and the ones from `offset` on are still those of `b0` */
  method ReadAt(reader: FileReader, buf: array<byte>, offset: nat, ghost p0: nat, ghost b0: Bytes)
    returns (res: IoResult<nat>)
    requires reader.Valid() && offset <= buf.Length == |b0| && reader.pos == p0 + offset
    requires buf[..offset] == reader.content[p0..reader.pos] && buf[offset..] == b0[offset..]
    modifies reader, buf
    ensures reader.Valid()
    ensures reader.script == (if old(reader.script) == [] then [] else old(reader.script)[1..])
    ensures res.Err? ==>
      && old(reader.script) != [] && old(reader.script)[0] == Fail(res.error)
      && reader.pos == old(reader.pos) && buf[..] == old(buf[..])
    ensures res.Ok? ==>
      && res.value <= buf.Length - offset && reader.pos == old(reader.pos) + res.value
      && buf[..offset + res.value] == reader.content[p0..reader.pos]
      && buf[offset + res.value..] == b0[offset + res.value..]
      && (res.value == 0 ==> offset == buf.Length || reader.pos == |reader.content|)
  {
    ghost var before := buf[..];
    ghost var at := reader.pos;
    res := reader.Read(buf, offset);
    if res.Ok? {
      Extend(buf[..], reader.content, offset, res.value, p0, at);
      SuffixUnchanged(before, buf[..], offset, res.value, b0);
    }
  }

  lemma Extend(b: Bytes, c: Bytes, o: nat, n: nat, p0: nat, p: nat)
    requires p0 <= p && p + n <= |c| && o + n <= |b|
    requires b[..o] == c[p0..p] && b[o..o + n] == c[p..p + n]
    ensures b[..o + n] == c[p0..p + n]
  {
    assert b[..o + n] == b[..o] + b[o..o + n];
    assert c[p0..p + n] == c[p0..p] + c[p..p + n];
  }

  lemma SuffixUnchanged(before: Bytes, after: Bytes, o: nat, n: nat, orig: Bytes)
    requires |before| == |after| == |orig| && o + n <= |after|
    requires before[o..] == orig[o..] && after[o + n..] == before[o + n..]
    ensures after[o + n..] == orig[o + n..]
  {
    assert before[o + n..] == before[o..][n..];
    assert orig[o + n..] == orig[o..][n..];
  }

  /** The bytes 0, 1, …, n - 1 */
  function Counting(n: nat): (r: Bytes)
    requires n <= 256
    ensures |r| == n && forall i :: 0 <= i < n ==> r[i] as int == i
  {
    seq(n, i requires 0 <= i < n => i as byte)
  }

  function Repeat<T>(x: T, n: nat): (r: seq<T>)
    ensures |r| == n && forall i :: 0 <= i < n ==> r[i] == x
  {
    if n == 0 then [] else [x] + Repeat(x, n - 1)
  }

  /** The unit tests: a reader of the bytes 0..127 that is first interrupted `interrupts`
      times and then hands over at most `maxLen` bytes per read still fills a 128-byte
      buffer with exactly those bytes. */
  method InterruptingReaderFillsBuffer(interrupts: nat, maxLen: Cap) returns (readNo: nat, contents: Bytes)
    ensures readNo == 128 && contents == Counting(128)
  {
    var content := Counting(128);
    var script := Repeat(Fail(IoError(Interrupted, [])), interrupts) + Repeat(Deliver(maxLen), 128);
    var reader := new FileReader(content, script);
    var buf := new byte[128](_ => 0);
    var r := Read(reader, buf);
    assert NoHardFailure(script);
    readNo := r.value;
    contents := buf[..];
  }
}
