/** Bytes and the fixed-width integer fields of the two wire formats
    (Python `struct` codes `H` and `I` in network or little-endian order). */
module Bytes {

  type byte = b: int | 0 <= b < 256

  const U16: int := 0x1_0000
  const U32: int := 0x1_0000_0000

  /** `struct.pack(">H", v)`: two bytes, high byte first. */
  function BE16(v: int): (r: seq<byte>)
    requires 0 <= v < U16
    ensures |r| == 2
  {
    [v / 256, v % 256]
  }

  /** `struct.pack("<H", v)`: two bytes, low byte first. */
  function LE16(v: int): (r: seq<byte>)
    requires 0 <= v < U16
    ensures |r| == 2
  {
    [v % 256, v / 256]
  }

  /** `struct.pack(">I", v)`: four bytes, most significant first. */
  function BE32(v: int): (r: seq<byte>)
    requires 0 <= v < U32
    ensures |r| == 4
  {
    BE16(v / U16) + BE16(v % U16)
  }

  function ReadBE16(s: seq<byte>): int
    requires |s| == 2
  {
    (s[0] as int) * 256 + s[1] as int
  }

  function ReadLE16(s: seq<byte>): int
    requires |s| == 2
  {
    (s[1] as int) * 256 + s[0] as int
  }

  function ReadBE32(s: seq<byte>): int
    requires |s| == 4
  {
    ReadBE16(s[..2]) * U16 + ReadBE16(s[2..])
  }

  lemma BE16RoundTrip(v: int)
    requires 0 <= v < U16
    ensures ReadBE16(BE16(v)) == v
  {
  }

  lemma LE16RoundTrip(v: int)
    requires 0 <= v < U16
    ensures ReadLE16(LE16(v)) == v
  {
  }

  lemma BE32RoundTrip(v: int)
    requires 0 <= v < U32
    ensures ReadBE32(BE32(v)) == v
  {
    var s := BE32(v);
    assert s[..2] == BE16(v / U16);
    assert s[2..] == BE16(v % U16);
    BE16RoundTrip(v / U16);
    BE16RoundTrip(v % U16);
  }

  /** Reading two bytes back and re-encoding them gives the same bytes. */
  lemma ReadBE16Inverse(s: seq<byte>)
    requires |s| == 2
    ensures 0 <= ReadBE16(s) < U16 && BE16(ReadBE16(s)) == s
  {
  }

  lemma ReadLE16Inverse(s: seq<byte>)
    requires |s| == 2
    ensures 0 <= ReadLE16(s) < U16 && LE16(ReadLE16(s)) == s
  {
  }

  /** `bytes([0] * n)` */
  function Zeros(n: nat): (r: seq<byte>)
    ensures |r| == n && forall i :: 0 <= i < n ==> r[i] == 0
  {
    seq(n, _ => 0)
  }

  function MinN(a: int, b: int): int
  {
    if a <= b then a else b
  }

  /** Python slicing `s[lo:hi]` for non-negative bounds: both ends are
      clamped to the length, and a reversed range is empty. */
  function Slice<T>(s: seq<T>, lo: nat, hi: nat): (r: seq<T>)
    ensures lo <= hi <= |s| ==> r == s[lo..hi]
    ensures |r| == if lo < MinN(hi, |s|) then MinN(hi, |s|) - lo else 0
  {
    var a := MinN(lo, |s|);
    var b := MinN(hi, |s|);
    if a <= b then s[a..b] else []
  }

  /** The concatenation of a list of byte strings. */
  function Flatten(parts: seq<seq<byte>>): seq<byte>
  {
    if parts == [] then [] else Flatten(parts[..|parts| - 1]) + parts[|parts| - 1]
  }
}
