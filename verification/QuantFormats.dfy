/** The quantised block formats as random access: what element i of a block is. */
module QuantFormats {
  import opened TransformerMath

  type Raw = seq<bv8>

  /** The number a half-precision bit pattern (low byte, high byte) stands for. */
  type Half = (bv8, bv8) -> real

  function Real(b: bv8): real {
    b as int as real
  }

  /** A byte read as a signed number. */
  function Signed8(b: bv8): int {
    if b < 0x80 then b as int else b as int - 256
  }

  function Low(b: bv8): bv8 { b & 0xF }
  function High(b: bv8): bv8 { b >> 4 }

  /** The pair of bits k, from the low end. */
  function Pair(b: bv8, k: nat): bv8
    requires k < 4
  {
    if k == 0 then b & 3 else if k == 1 then (b >> 2) & 3 else if k == 2 then (b >> 4) & 3 else (b >> 6) & 3
  }

  /** The byte with bit k alone. */
  function Bit(k: nat): bv8
    requires k < 8
  {
    if k == 0 then 1 else Bit(k - 1) << 1
  }

  // ---------------------------------------------------------------------------------------------
  // Q4_K: 256 elements in 144 bytes
  // ---------------------------------------------------------------------------------------------

  /** The 6-bit scale and the 6-bit minimum of group j, out of twelve packed bytes. */
  function ScaleMin(raw: Raw, at: nat, j: nat): (bv8, bv8)
    requires at + 12 <= |raw| && j < 8
  {
    if j < 4 then (LowSix(raw[at + j]), LowSix(raw[at + j + 4]))
    else (WithTop(Low(raw[at + j + 4]), raw[at + j - 4]), WithTop(High(raw[at + j + 4]), raw[at + j]))
  }

  function LowSix(b: bv8): bv8 { b & 63 }

  /** Four low bits, and the top two bits of another byte above them. */
  function WithTop(low: bv8, b: bv8): bv8 { low | ((b >> 6) << 4) }

  /** Group i / 32 has its own scale and minimum; 64 elements share 32 bytes, low nibbles first. */
  function Q4K(h: Half, raw: Raw, at: nat, i: nat): real
    requires at + 144 <= |raw| && i < 256
  {
    var (sc, m) := ScaleMin(raw, at + 4, i / 32);
    var b := raw[at + 16 + i / 64 * 32 + i % 32];
    var q := if i % 64 < 32 then Low(b) else High(b);
    Times(Times(h(raw[at], raw[at + 1]), Real(sc)), Real(q)) - Times(h(raw[at + 2], raw[at + 3]), Real(m))
  }

  // ---------------------------------------------------------------------------------------------
  // Q3_K: 256 elements in 110 bytes
  // ---------------------------------------------------------------------------------------------

  /** The 6-bit scale k, out of twelve packed bytes. */
  function Scale3(raw: Raw, at: nat, k: nat): bv8
    requires at + 12 <= |raw| && k < 16
  {
    WithPair(if k < 8 then Low(raw[at + k]) else High(raw[at + k - 8]), Pair(raw[at + 8 + k % 4], k / 4))
  }

  /** Four low bits, and two more above them. */
  function WithPair(low: bv8, pair: bv8): bv8 { low | (pair << 4) }

  /** A pair of bits, less four where the mask bit is clear. */
  function ThreeBits(pair: bv8, mask: bv8, m: bv8): int {
    pair as int - if mask & m != 0 then 0 else 4
  }

  /** Two low bits and a mask bit that subtracts four where it is clear; scale i / 16. */
  function Q3K(h: Half, raw: Raw, at: nat, i: nat): real
    requires at + 110 <= |raw| && i < 256
  {
    var half, pair, l := i / 128, i % 128 / 32, i % 32;
    var q := ThreeBits(Pair(raw[at + 32 + half * 32 + l], pair), raw[at + l], Bit(half * 4 + pair));
    var scale := Signed8(Scale3(raw, at + 96, i / 16)) - 32;
    Times(Times(h(raw[at + 108], raw[at + 109]), scale as real), q as real)
  }

  // ---------------------------------------------------------------------------------------------
  // Q6_K: 256 elements in 210 bytes
  // ---------------------------------------------------------------------------------------------

  /** Four low bits and two high bits, less 32; signed scale i / 16. */
  function Q6K(h: Half, raw: Raw, at: nat, i: nat): real
    requires at + 210 <= |raw| && i < 256
  {
    var half, quarter, l := i / 128, i % 128 / 32, i % 32;
    var b := raw[at + half * 64 + quarter % 2 * 32 + l];
    var low := if quarter < 2 then Low(b) else High(b);
    var q := WithPair(low, Pair(raw[at + 128 + half * 32 + l], quarter)) as int - 32;
    Times(Times(h(raw[at + 208], raw[at + 209]), Signed8(raw[at + 192 + i / 16]) as real), q as real)
  }

  // ---------------------------------------------------------------------------------------------
  // Q5_0: 32 elements in 22 bytes
  // ---------------------------------------------------------------------------------------------

  /** Four bytes as a little-endian word. */
  function Word(a: bv8, b: bv8, c: bv8, d: bv8): bv32 {
    (a as bv32) | ((b as bv32) << 8) | ((c as bv32) << 16) | ((d as bv32) << 24)
  }

  /** A bit number as a shift amount. */
  function BitIndex(i: nat): (s: bv6)
    requires i < 32
    ensures s < 32
  {
    if i == 0 then 0 else if i == 1 then 1 else if i == 2 then 2 else if i == 3 then 3 else if i == 4 then 4
    else if i == 5 then 5 else if i == 6 then 6 else if i == 7 then 7 else if i == 8 then 8
    else if i == 9 then 9 else if i == 10 then 10 else if i == 11 then 11 else if i == 12 then 12
    else if i == 13 then 13 else if i == 14 then 14 else if i == 15 then 15 else if i == 16 then 16
    else if i == 17 then 17 else if i == 18 then 18 else if i == 19 then 19 else if i == 20 then 20
    else if i == 21 then 21 else if i == 22 then 22 else if i == 23 then 23 else if i == 24 then 24
    else if i == 25 then 25 else if i == 26 then 26 else if i == 27 then 27 else if i == 28 then 28
    else if i == 29 then 29 else if i == 30 then 30 else 31
  }

  predicate BitOf(w: bv32, s: bv6)
    requires s < 32
  {
    (w >> s) & 1 == 1
  }

  /** Four low bits, and bit i of a 32-bit field as the fifth, less 16. */
  function Q50(h: Half, raw: Raw, at: nat, i: nat): real
    requires at + 22 <= |raw| && i < 32
  {
    var b := raw[at + 6 + i % 16];
    var low := if i < 16 then Low(b) else High(b);
    var fifth := BitOf(Word(raw[at + 2], raw[at + 3], raw[at + 4], raw[at + 5]), BitIndex(i));
    Times((FiveBits(low, fifth) as int - 16) as real, h(raw[at], raw[at + 1]))
  }

  function FiveBits(low: bv8, fifth: bool): bv8 {
    low | if fifth then 0x10 else 0
  }

  // ---------------------------------------------------------------------------------------------
  // Q5_1: 32 elements in 24 bytes
  // ---------------------------------------------------------------------------------------------

  /** Five bits as in Q5_0, read from two bytes further on, and a minimum added. */
  function Q51(h: Half, raw: Raw, at: nat, i: nat): real
    requires at + 24 <= |raw| && i < 32
  {
    var b := raw[at + 8 + i % 16];
    var low := if i < 16 then Low(b) else High(b);
    var fifth := BitOf(Word(raw[at + 4], raw[at + 5], raw[at + 6], raw[at + 7]), BitIndex(i));
    Times(FiveBits(low, fifth) as int as real, h(raw[at], raw[at + 1])) + h(raw[at + 2], raw[at + 3])
  }

  // ---------------------------------------------------------------------------------------------
  // Q8_0: 32 elements in 34 bytes
  // ---------------------------------------------------------------------------------------------

  function Q80(h: Half, raw: Raw, at: nat, i: nat): real
    requires at + 34 <= |raw| && i < 32
  {
    Times(h(raw[at], raw[at + 1]), Signed8(raw[at + 2 + i]) as real)
  }
}
