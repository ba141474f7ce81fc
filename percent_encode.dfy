/** How paths are turned into bytes for printing: their raw bytes, components joined by
    '/', and the UTF-8 percent-encoding with the `CONTROLS` set, which writes every C0
    control byte, DEL and every non-ASCII byte as '%' and two upper-case hex digits. */
module PercentEncode {
  import opened Base
  import opened Paths

  const SLASH: byte := 0x2F
  const PERCENT: byte := 0x25

  /** `as_os_str().as_bytes()` of a path given by its components */
  function PathBytes(p: Path): (r: Bytes)
    ensures |p| == 1 ==> r == p[0]
  {
    if p == [] then []
    else if |p| == 1 then p[0]
    else PathBytes(p[..|p| - 1]) + [SLASH] + p[|p| - 1]
  }

  /** The bytes that `CONTROLS` (plus the non-ASCII range) has encoded */
  predicate NeedsEncoding(b: byte) {
    b < 0x20 || b == 0x7F || b >= 0x80
  }

  /** A byte that is printed as it is: not a control byte, not DEL, ASCII */
  predicate Printable(b: byte) {
    0x20 <= b < 0x7F
  }

  function HexDigit(n: int): (r: byte)
    requires 0 <= n < 16
    ensures Printable(r) && r != PERCENT
  {
    if n < 10 then (0x30 + n) as byte else (0x41 + n - 10) as byte
  }

  predicate IsHexDigit(b: byte) {
    (0x30 <= b <= 0x39) || (0x41 <= b <= 0x46)
  }

  function HexValue(b: byte): (n: int)
    requires IsHexDigit(b)
    ensures 0 <= n < 16 && HexDigit(n) == b
  {
    if b <= 0x39 then b as int - 0x30 else b as int - 0x41 + 10
  }

  function EncodeByte(b: byte): Bytes {
    if NeedsEncoding(b) then [PERCENT, HexDigit(b as int / 16), HexDigit(b as int % 16)] else [b]
  }

  /** `utf8_percent_encode(_, CONTROLS)` on the bytes of a valid UTF-8 string */
  function Encode(s: Bytes): (r: Bytes)
    ensures |r| >= |s|
  {
    if s == [] then [] else EncodeByte(s[0]) + Encode(s[1..])
  }

  /** `utf8_percent_encode_path` */
  function EncodePath(p: Path): Bytes {
    Encode(PathBytes(p))
  }

  /** Every byte of the encoding is printable ASCII, so neither the '\n' that ends a
      record nor a NUL can occur in an encoded path. */
  lemma {:induction false} EncodePrintable(s: Bytes)
    ensures forall i :: 0 <= i < |Encode(s)| ==> Printable(Encode(s)[i])
  {
    if s != [] {
      EncodePrintable(s[1..]);
      var e := EncodeByte(s[0]);
      assert forall i :: 0 <= i < |e| ==> Printable(e[i]);
      assert Encode(s) == e + Encode(s[1..]);
    }
  }

  /** Bytes that need no encoding are left as they are. */
  lemma {:induction false} EncodeIdentity(s: Bytes)
    requires forall i :: 0 <= i < |s| ==> !NeedsEncoding(s[i])
    ensures Encode(s) == s
  {
    if s != [] {
      EncodeIdentity(s[1..]);
      assert s == [s[0]] + s[1..];
    }
  }

  /** The inverse of `Encode` on strings without '%': every "%XY" becomes the byte 0xXY. */
  function Decode(s: Bytes): Bytes {
    if s == [] then []
    else if |s| >= 3 && s[0] == PERCENT && IsHexDigit(s[1]) && IsHexDigit(s[2])
    then [(HexValue(s[1]) * 16 + HexValue(s[2])) as byte] + Decode(s[3..])
    else [s[0]] + Decode(s[1..])
  }

  /** A path without a '%' can be read back from its encoding. */
  lemma {:induction false} DecodeEncode(s: Bytes)
    requires forall i :: 0 <= i < |s| ==> s[i] != PERCENT
    ensures Decode(Encode(s)) == s
  {
    if s != [] {
      DecodeEncode(s[1..]);
      var rest := Encode(s[1..]);
      if NeedsEncoding(s[0]) {
        var hi, lo := HexDigit(s[0] as int / 16), HexDigit(s[0] as int % 16);
        assert Encode(s) == [PERCENT, hi, lo] + rest;
        assert Encode(s)[3..] == rest;
        assert HexValue(hi) == s[0] as int / 16 && HexValue(lo) == s[0] as int % 16;
      } else {
        assert Encode(s) == [s[0]] + rest;
        assert Encode(s)[1..] == rest;
      }
      assert s == [s[0]] + s[1..];
    }
  }

  /** With '%' left unencoded, the encoding is not injective: a path holding the byte 0x01
      prints exactly as one holding the three characters "%01". */
  lemma EncodeCollision()
    ensures Encode([0x01]) == Encode([PERCENT, 0x30, 0x31])
  {
    assert [PERCENT, 0x30, 0x31][1..] == [0x30, 0x31] && [0x30, 0x31 as byte][1..] == [0x31];
  }
}
