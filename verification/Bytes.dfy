/** Bytes, little-endian fields and 16-bit samples, as the codecs read and write them. */
module Bytes {
  type byte = x: int | 0 <= x < 256

  const TWO16 := 0x1_0000
  const TWO32 := 0x1_0000_0000

  /** Go's `uint32(x)`: the value modulo 2^32, also for a negative x. */
  function Wrap32(x: int): (r: int)
    ensures 0 <= r < TWO32
    ensures 0 <= x < TWO32 ==> r == x
  {
    x % TWO32
  }

  function LE16(v: int): (s: seq<byte>)
    requires 0 <= v < TWO16
    ensures |s| == 2
  {
    [v % 256, v / 256]
  }

  function LE32(v: int): (s: seq<byte>)
    requires 0 <= v < TWO32
    ensures |s| == 4
  {
    LE16(v % TWO16) + LE16(v / TWO16)
  }

  /** The 16-bit field at an offset. */
  function U16(s: seq<byte>, off: nat): (v: int)
    requires off + 2 <= |s|
    ensures 0 <= v < TWO16
  {
    var lo: int, hi: int := s[off], s[off + 1];
    lo + 256 * hi
  }

  /** The 32-bit field at an offset. */
  function U32(s: seq<byte>, off: nat): (v: int)
    requires off + 4 <= |s|
    ensures 0 <= v < TWO32
  {
    U16(s, off) + TWO16 * U16(s, off + 2)
  }

  /** The bytes x lie at an offset of s. */
  ghost predicate At(s: seq<byte>, off: nat, x: seq<byte>) {
    off + |x| <= |s| && forall i {:trigger x[i]} :: 0 <= i < |x| ==> s[off + i] == x[i]
  }

  lemma AtAppend(s: seq<byte>, off: nat, a: seq<byte>, b: seq<byte>)
    ensures At(s, off, a + b) <==> At(s, off, a) && At(s, off + |a|, b)
  {
    if At(s, off, a + b) {
      forall i | 0 <= i < |a| ensures s[off + i] == a[i] { assert (a + b)[i] == a[i]; }
      forall i | 0 <= i < |b| ensures s[off + |a| + i] == b[i] { assert (a + b)[|a| + i] == b[i]; }
    }
  }

  lemma AtSlice(s: seq<byte>, off: nat, x: seq<byte>)
    requires At(s, off, x)
    ensures s[off..off + |x|] == x
  {
  }

  lemma U16At(s: seq<byte>, off: nat, v: int)
    requires 0 <= v < TWO16 && At(s, off, LE16(v))
    ensures U16(s, off) == v
  {
    assert LE16(v)[0] == s[off] && LE16(v)[1] == s[off + 1];
  }

  lemma U32At(s: seq<byte>, off: nat, v: int)
    requires 0 <= v < TWO32 && At(s, off, LE32(v))
    ensures U32(s, off) == v
  {
    AtAppend(s, off, LE16(v % TWO16), LE16(v / TWO16));
    U16At(s, off, v % TWO16);
    U16At(s, off + 2, v / TWO16);
  }

  /** Go's `int16(u)` on an unsigned 16-bit value. */
  function Signed(u: int): (v: int)
    requires 0 <= u < TWO16
    ensures -32768 <= v < 32768
  {
    if u < 32768 then u else u - TWO16
  }

  /** Sample k of s16le PCM. */
  function Sample(pcm: seq<byte>, k: nat): (v: int)
    requires 2 * k + 2 <= |pcm|
    ensures -32768 <= v < 32768
  {
    Signed(U16(pcm, 2 * k))
  }

  /** Go's `uint16(v)`. */
  function Unsigned(v: int): (u: int)
    ensures 0 <= u < TWO16
  {
    v % TWO16
  }

  lemma SignedOfUnsigned(v: int)
    requires -32768 <= v < 32768
    ensures Signed(Unsigned(v)) == v
  {
  }

  /** Go's integer division by a positive divisor, which truncates toward zero. */
  function TruncDiv(a: int, b: int): int
    requires b > 0
  {
    if a >= 0 then a / b else -((-a) / b)
  }

  function Zeros(n: nat): (s: seq<byte>)
    ensures |s| == n && forall i :: 0 <= i < n ==> s[i] == 0
  {
    seq(n, _ => 0)
  }

  /** `binary.LittleEndian.PutUint16(a[off:], v)`. */
  method PutU16(a: array<byte>, off: nat, v: int)
    requires off + 2 <= a.Length && 0 <= v < TWO16
    modifies a
    ensures a[..] == old(a[..off]) + LE16(v) + old(a[off + 2..])
    ensures a[..off + 2] == old(a[..off]) + LE16(v)
    ensures forall i :: off + 2 <= i < a.Length ==> a[i] == old(a[i])
  {
    a[off], a[off + 1] := v % 256, v / 256;
  }

  /** `binary.LittleEndian.PutUint32(a[off:], v)`. */
  method PutU32(a: array<byte>, off: nat, v: int)
    requires off + 4 <= a.Length && 0 <= v < TWO32
    modifies a
    ensures a[..] == old(a[..off]) + LE32(v) + old(a[off + 4..])
    ensures a[..off + 4] == old(a[..off]) + LE32(v)
    ensures forall i :: off + 4 <= i < a.Length ==> a[i] == old(a[i])
  {
    PutU16(a, off, v % TWO16);
    PutU16(a, off + 2, v / TWO16);
  }

  /** `copy(a[off:], s)` where s fits. */
  method CopyInto(a: array<byte>, off: nat, s: seq<byte>)
    requires off + |s| <= a.Length
    modifies a
    ensures a[..] == old(a[..off]) + s + old(a[off + |s|..])
  {
    forall i | 0 <= i < |s| { a[off + i] := s[i]; }
  }
}
