/** Vocabulary shared by every part of the model: bytes, the standard library's
    `Option`, `Result` and `Ordering`, iterator size hints, and I/O errors. */
module Base {

  newtype byte = x: int | 0 <= x < 256

  type Bytes = seq<byte>

  datatype Option<T> = None | Some(value: T)

  datatype Result<T, E> = Ok(value: T) | Err(error: E)

  /** `std::cmp::Ordering` */
  datatype Ordering = Less | Equal | Greater {
    /** `Ordering::reverse`: the answer of the comparison with its operands swapped */
    function Reverse(): (r: Ordering)
      ensures (r == Equal) <==> (this == Equal)
    {
      match this
      case Less => Greater
      case Equal => Equal
      case Greater => Less
    }
  }

  /** The three-way comparison of two integers (`Ord::cmp` on `usize`) */
  function CmpInt(a: int, b: int): (r: Ordering)
    ensures r == Less <==> a < b
    ensures r == Equal <==> a == b
    ensures r == Greater <==> a > b
  {
    if a < b then Less else if a == b then Equal else Greater
  }

  function Min(a: int, b: int): int { if a <= b then a else b }

  function Max(a: int, b: int): int { if a >= b then a else b }

  /** `(lower, upper)` as returned by `Iterator::size_hint` */
  datatype SizeHint = SizeHint(lower: nat, upper: Option<nat>)

  /** The contract of `size_hint`: the iterator yields between `lower` and `upper` more items. */
  ghost predicate Bounds(h: SizeHint, remaining: nat) {
    h.lower <= remaining && (h.upper.Some? ==> remaining <= h.upper.value)
  }

  /** `std::io::ErrorKind`, reduced to the kinds the program tells apart plus two others */
  datatype ErrorKind = NotFound | PermissionDenied | Interrupted | InvalidData | UnexpectedEof | Other

  /** `std::io::Error`: a kind and a description (the text of its `Display`) */
  datatype IoError = IoError(kind: ErrorKind, description: Bytes)

  type IoResult<T> = Result<T, IoError>

  ghost predicate IsAscii(s: string) {
    forall i :: 0 <= i < |s| ==> s[i] as int < 128
  }

  /** The bytes of an ASCII string literal (`b"..."` or `str::as_bytes` on ASCII text) */
  function Ascii(s: string): (r: Bytes)
    requires IsAscii(s)
    ensures |r| == |s|
    ensures forall i :: 0 <= i < |s| ==> r[i] as int == s[i] as int
  {
    seq(|s|, i requires 0 <= i < |s| => s[i] as int as byte)
  }

  /** The total length of a sequence of byte strings */
  function TotalLength(parts: seq<Bytes>): nat {
    if parts == [] then 0 else TotalLength(parts[..|parts| - 1]) + |parts[|parts| - 1]|
  }

  /** The concatenation of a sequence of byte strings (`<[Vec<u8>]>::concat`): as long as
      the parts together */
  function Concat(parts: seq<Bytes>): (r: Bytes)
    ensures |r| == TotalLength(parts)
  {
    if parts == [] then [] else Concat(parts[..|parts| - 1]) + parts[|parts| - 1]
  }

  /** Regrouping a concatenation, for loops that move an item from what is left to what is done */
  lemma AppendAssoc<T>(a: seq<T>, b: seq<T>, c: seq<T>)
    ensures (a + b) + c == a + (b + c)
  {
  }

  lemma ConcatAppend(parts: seq<Bytes>, last: Bytes)
    ensures Concat(parts + [last]) == Concat(parts) + last
  {
    assert (parts + [last])[..|parts|] == parts;
  }
}
