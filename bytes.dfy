/** Raw memory as bytes. RrPixel32 and RrPixel16 words are read and written
    little-endian, the host byte order this model assumes throughout. */
module Bytes {

  /** The 16-bit word stored at bytes i, i+1. */
  function Load16(m: seq<bv8>, i: int): bv16
    requires 0 <= i && i + 2 <= |m|
  {
    (m[i] as bv16) | ((m[i + 1] as bv16) << 8)
  }

  /** The 32-bit word stored at bytes i .. i+3. */
  function Load32(m: seq<bv8>, i: int): bv32
    requires 0 <= i && i + 4 <= |m|
  {
    (m[i] as bv32) | ((m[i + 1] as bv32) << 8) | ((m[i + 2] as bv32) << 16) | ((m[i + 3] as bv32) << 24)
  }

  /** The 32-bit word stored at bytes i .. i+3 read most significant byte first. */
  function Load32BigEndian(m: seq<bv8>, i: int): bv32
    requires 0 <= i && i + 4 <= |m|
  {
    ((m[i] as bv32) << 24) | ((m[i + 1] as bv32) << 16) | ((m[i + 2] as bv32) << 8) | (m[i + 3] as bv32)
  }

  /** The two bytes that store v. */
  function Bytes16(v: bv16): (s: seq<bv8>)
    ensures |s| == 2 && Load16(s, 0) == v
  {
    [(v & 0xFF) as bv8, (v >> 8) as bv8]
  }

  /** The four bytes that store v. */
  function Bytes32(v: bv32): (s: seq<bv8>)
    ensures |s| == 4 && Load32(s, 0) == v
  {
    [(v & 0xFF) as bv8, ((v >> 8) & 0xFF) as bv8, ((v >> 16) & 0xFF) as bv8, (v >> 24) as bv8]
  }

  /** m with the bytes from i on replaced by v. */
  function Put(m: seq<bv8>, i: int, v: seq<bv8>): (r: seq<bv8>)
    requires 0 <= i && i + |v| <= |m|
    ensures |r| == |m|
    ensures r[i..i + |v|] == v
    ensures forall j :: 0 <= j < |m| && !(i <= j < i + |v|) ==> r[j] == m[j]
  {
    m[..i] + v + m[i + |v|..]
  }

  /** A 32-bit load only sees its own four bytes. */
  lemma LoadSlice32(m: seq<bv8>, i: int)
    requires 0 <= i && i + 4 <= |m|
    ensures Load32(m, i) == Load32(m[i..i + 4], 0)
  {
  }

  lemma LoadSlice16(m: seq<bv8>, i: int)
    requires 0 <= i && i + 2 <= |m|
    ensures Load16(m, i) == Load16(m[i..i + 2], 0)
  {
  }

  /** Truncation of a computed int to the stored width, as an assignment to
      a narrower C integer does. */
  function Low16(v: bv32): bv16
  {
    (v & 0xFFFF) as bv16
  }

  function Low8(v: bv32): bv8
  {
    (v & 0xFF) as bv8
  }
}
