/** Bytes, UTF-8 names and fixed-width little-endian integers: the vocabulary
    shared by the wire formats and the stores. */
module ByteStrings {

  newtype byte = x: int | 0 <= x < 256

  type Bytes = seq<byte>

  datatype Option<+T> = None | Some(value: T)

  datatype Result<+T, +E> = Ok(value: T) | Err(error: E)

  // ---- UTF-8 (RFC 3629, section 4) ----

  /** Continuation bytes run from 0x80 to 0xBF. */
  predicate Tail(b: byte) {
    0x80 <= b <= 0xBF
  }

  /** Length of the well-formed UTF-8 sequence that starts `b`, or 0. */
  function Utf8Step(b: Bytes): (n: nat)
    ensures n <= |b|
  {
    if |b| >= 1 && b[0] <= 0x7F then 1
    else if |b| >= 2 && 0xC2 <= b[0] <= 0xDF && Tail(b[1]) then 2
    else if |b| >= 3 && ThreeByteHead(b[0], b[1]) && Tail(b[2]) then 3
    else if |b| >= 4 && FourByteHead(b[0], b[1]) && Tail(b[2]) && Tail(b[3]) then 4
    else 0
  }

  predicate ThreeByteHead(b0: byte, b1: byte) {
    || (b0 == 0xE0 && 0xA0 <= b1 <= 0xBF)
    || ((0xE1 <= b0 <= 0xEC || b0 == 0xEE || b0 == 0xEF) && Tail(b1))
    || (b0 == 0xED && 0x80 <= b1 <= 0x9F)
  }

  predicate FourByteHead(b0: byte, b1: byte) {
    || (b0 == 0xF0 && 0x90 <= b1 <= 0xBF)
    || (0xF1 <= b0 <= 0xF3 && Tail(b1))
    || (b0 == 0xF4 && 0x80 <= b1 <= 0x8F)
  }

  /** Position `n` is where one sequence ends and the next may start. */
  predicate Boundary(b: Bytes, n: nat)
    requires n <= |b|
  {
    n == 0 || exists m :: 0 <= m < n && Boundary(b, m) && n == m + Utf8Step(b[m..])
  }

  /** A well-formed sequence starts at every boundary before the end. */
  predicate ValidUtf8(b: Bytes) {
    forall n {:trigger Boundary(b, n)} :: 0 <= n < |b| && Boundary(b, n) ==> Utf8Step(b[n..]) > 0
  }

  /** A Rust `&str`: its length in Rust is the number of these bytes. */
  type Name = b: Bytes | ValidUtf8(b) witness []

  lemma AsciiIsUtf8(b: Bytes)
    requires forall i :: 0 <= i < |b| ==> b[i] <= 0x7F
    ensures ValidUtf8(b)
  {
  }

  /** The bytes of an ASCII string; anything else becomes '?'. */
  function Ascii(s: string): (r: Name)
    ensures |r| == |s|
    ensures forall i :: 0 <= i < |s| && s[i] < 128 as char ==> r[i] as int == s[i] as int
  {
    var b: Bytes := seq(|s|, i requires 0 <= i < |s| => if s[i] < 128 as char then (s[i] as int) as byte else 63);
    AsciiIsUtf8(b);
    b
  }

  // ---- fixed-width little-endian integers ----

  function Pow256(width: nat): (p: nat)
    ensures p > 0
  {
    if width == 0 then 1 else 256 * Pow256(width - 1)
  }

  function LittleEndian(n: nat, width: nat): (r: Bytes)
    ensures |r| == width
  {
    if width == 0 then [] else [(n % 256) as byte] + LittleEndian(n / 256, width - 1)
  }

  function FromLittleEndian(b: Bytes): (n: nat)
    ensures n < Pow256(|b|)
  {
    if b == [] then 0 else b[0] as int + 256 * FromLittleEndian(b[1..])
  }

  lemma {:induction false} LittleEndianRoundTrip(n: nat, width: nat)
    requires n < Pow256(width)
    ensures FromLittleEndian(LittleEndian(n, width)) == n
  {
    if width > 0 {
      LittleEndianRoundTrip(n / 256, width - 1);
      assert LittleEndian(n, width)[1..] == LittleEndian(n / 256, width - 1);
    }
  }

  /** The lowest byte comes first. */
  lemma FourBytes(b: Bytes)
    requires |b| == 4
    ensures FromLittleEndian(b) ==
            b[0] as int + 0x100 * b[1] as int + 0x1_0000 * b[2] as int + 0x100_0000 * b[3] as int
  {
    var b1, b2, b3 := b[1..], b[2..], b[3..];
    assert b1[1..] == b2 && b2[1..] == b3 && b3[1..] == [];
    assert FromLittleEndian(b3) == b[3] as int;
    assert FromLittleEndian(b2) == b[2] as int + 0x100 * b[3] as int;
    assert FromLittleEndian(b1) == b[1] as int + 0x100 * FromLittleEndian(b2);
  }

  lemma EightBytes(b: Bytes)
    requires |b| == 8
    ensures FromLittleEndian(b) ==
            b[0] as int + 0x100 * b[1] as int + 0x1_0000 * b[2] as int + 0x100_0000 * b[3] as int
            + 0x1_0000_0000 * (b[4] as int + 0x100 * b[5] as int + 0x1_0000 * b[6] as int + 0x100_0000 * b[7] as int)
  {
    var b1, b2, b3, b4 := b[1..], b[2..], b[3..], b[4..];
    assert b1[1..] == b2 && b2[1..] == b3 && b3[1..] == b4;
    FourBytes(b4);
    assert FromLittleEndian(b3) == b[3] as int + 0x100 * FromLittleEndian(b4);
    assert FromLittleEndian(b2) == b[2] as int + 0x100 * FromLittleEndian(b3);
    assert FromLittleEndian(b1) == b[1] as int + 0x100 * FromLittleEndian(b2);
  }

  lemma {:induction false} SplitAt<T>(a: seq<T>, b: seq<T>, c: seq<T>)
    ensures (a + b + c)[|a|..] == b + c && (a + b + c)[..|a|] == a
    ensures (a + b + c)[|a| + |b|..] == c && (a + b + c)[|a|..|a| + |b|] == b
  {
  }
}
