/** Numbers as key names: decimal identifiers and fixed-width hexadecimal
    timestamps. */
module Numerals {
  import opened Basics
  import opened ByteStrings

  type U32 = n: nat | n < U32_LIMIT
  type U64 = n: nat | n < U64_LIMIT

  // ---- decimal ----

  function Decimal(n: nat): (d: Bytes)
    ensures |d| > 0 && forall i :: 0 <= i < |d| ==> 48 <= d[i] <= 57
  {
    if n < 10 then [(48 + n) as byte] else Decimal(n / 10) + [(48 + n % 10) as byte]
  }

  function FromDecimal(d: Bytes): int {
    if d == [] then 0 else 10 * FromDecimal(d[..|d| - 1]) + (d[|d| - 1] as int - 48)
  }

  lemma {:induction false} DecimalRoundTrip(n: nat)
    ensures FromDecimal(Decimal(n)) == n
  {
    if n >= 10 {
      DecimalRoundTrip(n / 10);
      assert Decimal(n)[..|Decimal(n)| - 1] == Decimal(n / 10);
    }
  }

  /** Highest digit first, and no leading zero. */
  lemma {:induction false} DecimalReads(n: nat)
    ensures FromDecimal(Decimal(n)) == n && (Decimal(n)[0] == 48 <==> n == 0)
    ensures n < 10 ==> Decimal(n) == [(48 + n) as byte]
    ensures n >= 10 ==> Decimal(n)[|Decimal(n)| - 1] as int == 48 + n % 10
                        && FromDecimal(Decimal(n)[..|Decimal(n)| - 1]) == n / 10
  {
    DecimalRoundTrip(n);
    if n >= 10 {
      DecimalReads(n / 10);
      assert Decimal(n)[..|Decimal(n)| - 1] == Decimal(n / 10);
    }
  }

  function Pow10(n: nat): nat {
    if n == 0 then 1 else 10 * Pow10(n - 1)
  }

  lemma {:induction false} DecimalShort(n: nat, width: nat)
    requires width > 0 && n < Pow10(width)
    ensures |Decimal(n)| <= width
  {
    if n >= 10 {
      assert n / 10 < Pow10(width - 1);
      DecimalShort(n / 10, width - 1);
    }
  }

  lemma DecimalU32(n: U32)
    ensures |Decimal(n)| <= 10
  {
    assert Pow10(4) == 10_000 && Pow10(7) == 1000 * Pow10(4) && Pow10(10) == 1000 * Pow10(7);
    DecimalShort(n, 10);
  }

  lemma DecimalIsUtf8(n: nat)
    ensures ValidUtf8(Decimal(n))
  {
    AsciiIsUtf8(Decimal(n));
  }

  function DecimalName(n: nat): Name {
    DecimalIsUtf8(n);
    Decimal(n)
  }

  /** Two identifiers around a dot. */
  function DottedName(a: nat, b: nat): (name: Name)
    ensures name == Decimal(a) + [46] + Decimal(b)
  {
    AsciiIsUtf8(Decimal(a) + [46] + Decimal(b));
    Decimal(a) + [46] + Decimal(b)
  }

  lemma DottedReads(a: nat, b: nat)
    ensures DottedName(a, b) == DecimalName(a) + Ascii(".") + DecimalName(b)
  {
    assert Ascii(".") == [46];
  }

  lemma DecimalInjective(a: nat, b: nat)
    requires Decimal(a) == Decimal(b)
    ensures a == b
  {
    DecimalRoundTrip(a);
    DecimalRoundTrip(b);
  }

  lemma DotPlace(a: nat, b: nat)
    ensures var name, n := DottedName(a, b), |Decimal(a)|;
            n < |name| && name[n] == 46 && (forall i :: 0 <= i < n ==> name[i] != 46)
            && name[..n] == Decimal(a) && name[n + 1..] == Decimal(b)
  {
  }

  /** No digit is a dot, so the pair can be read back. */
  lemma DottedInjective(a: nat, b: nat, a': nat, b': nat)
    requires DottedName(a, b) == DottedName(a', b')
    ensures a == a' && b == b'
  {
    DotPlace(a, b);
    DotPlace(a', b');
    assert |Decimal(a)| == |Decimal(a')|;
    DecimalInjective(a, a');
    DecimalInjective(b, b');
  }

  // ---- hexadecimal ----

  function HexByte(d: nat): (b: byte)
    requires d < 16
  {
    (if d < 10 then 48 + d else 87 + d) as byte
  }

  function HexValue(b: byte): Option<nat> {
    if 48 <= b <= 57 then Some(b as int - 48)
    else if 97 <= b <= 102 then Some(b as int - 87)
    else if 65 <= b <= 70 then Some(b as int - 55)
    else None
  }

  function Hex(n: nat, width: nat): (h: Bytes)
    ensures |h| == width && forall i :: 0 <= i < |h| ==> h[i] <= 0x7F && HexValue(h[i]).Some?
  {
    if width == 0 then [] else Hex(n / 16, width - 1) + [HexByte(n % 16)]
  }

  function U64Digits(): nat {
    16
  }

  /** Sixteen lower-case digits, zero-padded. */
  function MessageKey(ts: U64): (key: Name)
    ensures |key| == 16
  {
    AsciiIsUtf8(Hex(ts, U64Digits()));
    Hex(ts, U64Digits())
  }

  function HexDigits(s: Bytes): Option<nat> {
    if s == [] then Some(0)
    else
      var high, low := HexDigits(s[..|s| - 1]), HexValue(s[|s| - 1]);
      if high.Some? && low.Some? then Some(16 * high.value + low.value) else None
  }

  /** Reading a u64 in base 16 as Rust's `from_str_radix` does: either case, an
      optional plus sign, no empty digit string, no overflow. */
  function ParseHex(s: Bytes): Option<U64> {
    var digits := if s != [] && s[0] == 43 then s[1..] else s;
    if digits == [] then None
    else
      var n := HexDigits(digits);
      if n.Some? && n.value < U64_LIMIT then Some(n.value) else None
  }

  function Pow16(n: nat): (p: nat)
    ensures p > 0
  {
    if n == 0 then 1 else 16 * Pow16(n - 1)
  }

  lemma {:induction false} HexReadsBack(n: nat, width: nat)
    requires n < Pow16(width)
    ensures HexDigits(Hex(n, width)) == Some(n)
  {
    if width > 0 {
      HexReadsBack(n / 16, width - 1);
      assert Hex(n, width)[..width - 1] == Hex(n / 16, width - 1);
    }
  }

  lemma U64IsPow16()
    ensures Pow16(16) == U64_LIMIT
  {
    assert Pow16(4) == 65536 && Pow16(8) == 65536 * Pow16(4) && Pow16(12) == 65536 * Pow16(8)
        && Pow16(16) == 65536 * Pow16(12);
  }

  /** Every timestamp's key parses back to it. */
  lemma MessageKeyRoundTrip(ts: U64)
    ensures ParseHex(MessageKey(ts)) == Some(ts)
  {
    hide Hex, HexDigits, Pow16;
    U64IsPow16();
    HexReadsBack(ts, U64Digits());
    assert HexValue(MessageKey(ts)[0]).Some?;
  }

  /** What each digit is worth: sixteen times less than the one before it. */
  function Worth(key: Bytes): int {
    if key == [] then 0
    else 16 * Worth(key[..|key| - 1])
         + (var b := key[|key| - 1] as int; if 48 <= b <= 57 then b - 48 else b - 87)
  }

  lemma {:induction false} HexWorth(n: nat, width: nat)
    requires n < Pow16(width)
    ensures Worth(Hex(n, width)) == n
    ensures forall i :: 0 <= i < width ==> 48 <= Hex(n, width)[i] <= 57 || 97 <= Hex(n, width)[i] <= 102
  {
    if width > 0 {
      HexWorth(n / 16, width - 1);
      assert Hex(n, width)[..width - 1] == Hex(n / 16, width - 1);
    }
  }

  /** A key is sixteen digits, '0' to '9' and 'a' to 'f', the highest first. */
  lemma KeyDigits(ts: U64)
    ensures |MessageKey(ts)| == 16 && Worth(MessageKey(ts)) == ts
    ensures forall i :: 0 <= i < 16 ==> 48 <= MessageKey(ts)[i] <= 57 || 97 <= MessageKey(ts)[i] <= 102
  {
    U64IsPow16();
    HexWorth(ts, U64Digits());
  }

  /** Byte-wise order of names. */
  predicate LexLess(a: Bytes, b: Bytes) {
    b != [] && (a == [] || a[0] < b[0] || (a[0] == b[0] && LexLess(a[1..], b[1..])))
  }

  lemma {:induction false} LexAppend(a: Bytes, b: Bytes, x: byte, y: byte)
    requires |a| == |b|
    ensures LexLess(a + [x], b + [y]) <==> LexLess(a, b) || (a == b && x < y)
  {
    if a != [] {
      LexAppend(a[1..], b[1..], x, y);
      assert (a + [x])[1..] == a[1..] + [x] && (b + [y])[1..] == b[1..] + [y];
      assert a == b <==> a[0] == b[0] && a[1..] == b[1..] by {
        assert a == [a[0]] + a[1..] && b == [b[0]] + b[1..];
      }
    }
  }

  lemma SplitOrder(a: nat, b: nat)
    ensures a < b <==> a / 16 < b / 16 || (a / 16 == b / 16 && HexByte(a % 16) < HexByte(b % 16))
  {
  }

  lemma {:induction false} HexOrder(a: nat, b: nat, width: nat)
    requires a < Pow16(width) && b < Pow16(width)
    ensures LexLess(Hex(a, width), Hex(b, width)) <==> a < b
  {
    if width > 0 {
      var ha, hb := Hex(a / 16, width - 1), Hex(b / 16, width - 1);
      HexOrder(a / 16, b / 16, width - 1);
      LexAppend(ha, hb, HexByte(a % 16), HexByte(b % 16));
      assert ha == hb <==> a / 16 == b / 16 by {
        HexReadsBack(a / 16, width - 1);
        HexReadsBack(b / 16, width - 1);
      }
      SplitOrder(a, b);
    }
  }

  /** Key order is arrival order. */
  lemma KeyOrderIsNumeric(a: U64, b: U64)
    ensures LexLess(MessageKey(a), MessageKey(b)) <==> a < b
  {
    U64IsPow16();
    HexOrder(a, b, U64Digits());
  }
}
