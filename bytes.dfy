/**
 * Byte-level primitives shared by the AMD exporter, the engine's loaders and
 * the two standard-file-header parsers: bytes, little-endian unsigned
 * integers, IEEE-754 single-precision floats kept as bit patterns, and the
 * UTF-8 encoding of strings.
 *
 * Every writer of the AMD format uses native byte order on a little-endian
 * machine, and every reader reinterprets raw bytes on the same machine, so all
 * multi-byte quantities here are little-endian.
 */
module Bytes {

  type Byte = x: int | 0 <= x < 0x100
  type U16 = x: int | 0 <= x < 0x1_0000
  type U32 = x: int | 0 <= x < 0x1_0000_0000

  const U16_MAX: int := 0xFFFF
  const U32_MODULUS: int := 0x1_0000_0000

  // ---------------------------------------------------------------------------
  // Little-endian unsigned integers
  // ---------------------------------------------------------------------------

  function LE16(x: U16): (b: seq<Byte>)
    ensures |b| == 2
    ensures FromLE16(b) == x
  {
    [x % 0x100, x / 0x100]
  }

  function FromLE16(b: seq<Byte>): (x: U16)
    requires |b| == 2
  {
    b[0] as int + 0x100 * b[1] as int
  }

  function LE32(x: U32): (b: seq<Byte>)
    ensures |b| == 4
    ensures FromLE32(b) == x
  {
    LE16(x % 0x1_0000) + LE16(x / 0x1_0000)
  }

  function FromLE32(b: seq<Byte>): (x: U32)
    requires |b| == 4
  {
    FromLE16(b[..2]) as int + 0x1_0000 * FromLE16(b[2..]) as int
  }

  /** Every two bytes are the encoding of the integer they decode to. */
  lemma LE16OfFromLE16(b: seq<Byte>)
    requires |b| == 2
    ensures LE16(FromLE16(b)) == b
  {
  }

  lemma LE32OfFromLE32(b: seq<Byte>)
    requires |b| == 4
    ensures LE32(FromLE32(b)) == b
  {
    var lo, hi := FromLE16(b[..2]), FromLE16(b[2..]);
    SplitHalves(lo, hi);
    LE16OfFromLE16(b[..2]);
    LE16OfFromLE16(b[2..]);
    assert b == b[..2] + b[2..];
  }

  lemma SplitHalves(lo: U16, hi: U16)
    ensures (lo + 0x1_0000 * hi) % 0x1_0000 == lo
    ensures (lo + 0x1_0000 * hi) / 0x1_0000 == hi
  {
  }

  /** Concatenation of the encodings of a sequence of 16-bit values. */
  function LE16s(xs: seq<U16>): (b: seq<Byte>)
    ensures |b| == 2 * |xs|
  {
    if xs == [] then [] else LE16(xs[0]) + LE16s(xs[1..])
  }

  /** n consecutive little-endian 16-bit values. */
  function FromLE16s(b: seq<Byte>, n: nat): (xs: seq<U16>)
    requires |b| >= 2 * n
    ensures |xs| == n
  {
    if n == 0 then [] else [FromLE16(b[..2])] + FromLE16s(b[2..], n - 1)
  }

  lemma {:induction false} FromLE16sOfLE16s(xs: seq<U16>, rest: seq<Byte>)
    ensures FromLE16s(LE16s(xs) + rest, |xs|) == xs
  {
    if xs != [] {
      var b := LE16s(xs) + rest;
      assert b[..2] == LE16(xs[0]);
      assert b[2..] == LE16s(xs[1..]) + rest;
      FromLE16sOfLE16s(xs[1..], rest);
    }
  }

  lemma {:induction false} LE16sAppend(xs: seq<U16>, ys: seq<U16>)
    ensures LE16s(xs + ys) == LE16s(xs) + LE16s(ys)
  {
    if xs != [] {
      assert (xs + ys)[1..] == xs[1..] + ys;
      LE16sAppend(xs[1..], ys);
    } else {
      assert xs + ys == ys;
    }
  }

  // ---------------------------------------------------------------------------
  // IEEE-754 binary32 values, kept as their bit pattern
  // ---------------------------------------------------------------------------

  /** A 32-bit float.  Its 4 bytes on disk are LE32(bits). */
  datatype F32 = F32(bits: U32)

  const ZERO: F32 := F32(0)
  const ONE: F32 := F32(0x3F80_0000)

  const SIGN_BIT: int := 0x8000_0000

  predicate IsNaN(f: F32) {
    (f.bits / 0x80_0000) % 0x100 == 0xFF && f.bits % 0x80_0000 != 0
  }

  /** +0.0 or -0.0 */
  predicate IsZero(f: F32) {
    f.bits % SIGN_BIT == 0
  }

  /**
   * The integer whose order is the numeric order of non-NaN floats: the
   * magnitude, negated when the sign bit is set.  Both zeros map to 0.
   */
  function OrderKey(f: F32): int {
    if f.bits < SIGN_BIT then f.bits else -(f.bits - SIGN_BIT)
  }

  /** The `==` of C and Python on floats. */
  predicate FEq(a: F32, b: F32) {
    !IsNaN(a) && !IsNaN(b) && (a == b || (IsZero(a) && IsZero(b)))
  }

  /** The `<` of C and Python on floats. */
  predicate FLt(a: F32, b: F32) {
    !IsNaN(a) && !IsNaN(b) && OrderKey(a) < OrderKey(b)
  }

  /** Float equality is equality of the order key, for non-NaN values. */
  lemma FEqIsKeyEquality(a: F32, b: F32)
    ensures FEq(a, b) <==> !IsNaN(a) && !IsNaN(b) && OrderKey(a) == OrderKey(b)
  {
    if !IsNaN(a) && !IsNaN(b) && OrderKey(a) == OrderKey(b) && a != b {
      assert a.bits % SIGN_BIT == a.bits - (if a.bits < SIGN_BIT then 0 else SIGN_BIT);
      assert b.bits % SIGN_BIT == b.bits - (if b.bits < SIGN_BIT then 0 else SIGN_BIT);
    }
  }

  /** For non-NaN floats exactly one of <, == and > holds. */
  lemma FloatTrichotomy(a: F32, b: F32)
    requires !IsNaN(a) && !IsNaN(b)
    ensures FLt(a, b) || FEq(a, b) || FLt(b, a)
    ensures !(FLt(a, b) && FEq(a, b)) && !(FLt(a, b) && FLt(b, a))
  {
    FEqIsKeyEquality(a, b);
  }

  function EncodeF32(f: F32): (b: seq<Byte>)
    ensures |b| == 4
    ensures F32(FromLE32(b)) == f
  {
    LE32(f.bits)
  }

  function EncodeF32s(fs: seq<F32>): (b: seq<Byte>)
    ensures |b| == 4 * |fs|
  {
    if fs == [] then [] else EncodeF32(fs[0]) + EncodeF32s(fs[1..])
  }

  function DecodeF32s(b: seq<Byte>, n: nat): (fs: seq<F32>)
    requires |b| >= 4 * n
    ensures |fs| == n
  {
    if n == 0 then [] else [F32(FromLE32(b[..4]))] + DecodeF32s(b[4..], n - 1)
  }

  lemma {:induction false} EncodeF32sAppend(xs: seq<F32>, ys: seq<F32>)
    ensures EncodeF32s(xs + ys) == EncodeF32s(xs) + EncodeF32s(ys)
  {
    if xs != [] {
      assert (xs + ys)[1..] == xs[1..] + ys;
      EncodeF32sAppend(xs[1..], ys);
    } else {
      assert xs + ys == ys;
    }
  }

  lemma {:induction false} DecodeEncodeF32s(fs: seq<F32>, rest: seq<Byte>)
    ensures DecodeF32s(EncodeF32s(fs) + rest, |fs|) == fs
  {
    if fs != [] {
      var b := EncodeF32s(fs) + rest;
      assert b[..4] == EncodeF32(fs[0]);
      assert b[4..] == EncodeF32s(fs[1..]) + rest;
      DecodeEncodeF32s(fs[1..], rest);
    }
  }

  // ---------------------------------------------------------------------------
  // Text
  // ---------------------------------------------------------------------------

  predicate IsAscii(s: string) {
    forall i :: 0 <= i < |s| ==> s[i] as int < 0x80
  }

  /** The UTF-8 encoding of one Unicode scalar value. */
  function Utf8Char(c: char): (b: seq<Byte>)
    ensures 1 <= |b| <= 4
    ensures |b| == 1 <==> c as int < 0x80
  {
    var cp := c as int;
    if cp < 0x80 then [cp]
    else if cp < 0x800 then [0xC0 + cp / 0x40, 0x80 + cp % 0x40]
    else if cp < 0x1_0000 then [0xE0 + cp / 0x1000, 0x80 + (cp / 0x40) % 0x40, 0x80 + cp % 0x40]
    else [0xF0 + cp / 0x4_0000, 0x80 + (cp / 0x1000) % 0x40, 0x80 + (cp / 0x40) % 0x40, 0x80 + cp % 0x40]
  }

  /** Python's `bytes(s, "utf-8")`. */
  function Utf8(s: string): (b: seq<Byte>)
    ensures |b| >= |s|
  {
    if s == [] then [] else Utf8Char(s[0]) + Utf8(s[1..])
  }

  /** A string takes one byte per character in UTF-8 exactly when it is ASCII. */
  lemma {:induction false} Utf8LengthIsCharCount(s: string)
    ensures |Utf8(s)| == |s| <==> IsAscii(s)
  {
    if s != [] {
      Utf8LengthIsCharCount(s[1..]);
      assert IsAscii(s) <==> s[0] as int < 0x80 && IsAscii(s[1..]) by {
        if IsAscii(s) {
          forall i | 0 <= i < |s[1..]| ensures s[1..][i] as int < 0x80 {
            assert s[1..][i] == s[i + 1];
          }
        }
      }
    }
  }

  /** The characters of a C string held in bytes: everything before the first NUL. */
  function CString(b: seq<Byte>): (s: string)
    ensures |s| <= |b|
    ensures forall i :: 0 <= i < |s| ==> s[i] as int == b[i] && b[i] != 0
    ensures |s| < |b| ==> b[|s|] == 0
  {
    if b == [] || b[0] == 0 then [] else [b[0] as char] + CString(b[1..])
  }

  /** Bytes of an ASCII string. */
  function AsciiBytes(s: string): (b: seq<Byte>)
    requires IsAscii(s)
    ensures |b| == |s|
    ensures forall i :: 0 <= i < |s| ==> b[i] == s[i] as int
  {
    if s == [] then [] else [s[0] as int] + AsciiBytes(s[1..])
  }
}
