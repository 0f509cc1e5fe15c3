/** Writing the quantised block formats, and that random access gives back what was written. */
module QuantPacking {
  import opened TransformerMath
  import opened QuantFormats

  // ---------------------------------------------------------------------------------------------
  // Scales and minimums
  // ---------------------------------------------------------------------------------------------

  predicate Six(b: bv8) { b < 64 }

  /** Six bits, and the two high bits of six others on top. */
  function SixAndTop(a: bv8, b: bv8): bv8 { a | ((b >> 4) << 6) }

  function Nibbles(a: bv8, b: bv8): bv8 { Low(a) | (Low(b) << 4) }

  /** Eight scales and eight minimums of six bits in twelve bytes. */
  function PackScaleMin(sc: Raw, mn: Raw): (p: Raw)
    requires |sc| == |mn| == 8
    ensures |p| == 12
  {
    seq(12, n requires 0 <= n < 12 && |sc| == |mn| == 8 =>
      if n < 4 then SixAndTop(sc[n], sc[n + 4])
      else if n < 8 then SixAndTop(mn[n - 4], mn[n])
      else Nibbles(sc[n - 4], mn[n - 4]))
  }

  lemma SixBitsBack(a: bv8, b: bv8, low: bv8)
    requires Six(a) && Six(b) && low == Low(b)
    ensures LowSix(SixAndTop(a, b)) == a && WithTop(low, SixAndTop(a, b)) == b
  {
  }

  lemma NibblesBack(a: bv8, b: bv8)
    ensures Low(Nibbles(a, b)) == Low(a) && High(Nibbles(a, b)) == Low(b)
  {
  }

  /** Unpacking group j gives back its scale and its minimum. */
  lemma ScaleMinUnpacks(sc: Raw, mn: Raw, j: nat)
    requires |sc| == |mn| == 8 && j < 8
    requires forall k :: 0 <= k < 8 ==> Six(sc[k]) && Six(mn[k])
    ensures ScaleMin(PackScaleMin(sc, mn), 0, j) == (sc[j], mn[j])
  {
    hide Low, High, Six, LowSix, WithTop, SixAndTop, Nibbles;
    var k := j % 4;
    SixBitsBack(sc[k], sc[k + 4], Low(sc[k + 4]));
    SixBitsBack(mn[k], mn[k + 4], Low(mn[k + 4]));
    NibblesBack(sc[k + 4], mn[k + 4]);
    var p := PackScaleMin(sc, mn);
    assert p[k] == SixAndTop(sc[k], sc[k + 4]) && p[k + 4] == SixAndTop(mn[k], mn[k + 4]);
    assert p[k + 8] == Nibbles(sc[k + 4], mn[k + 4]);
  }

  /** Sixteen scales of six bits in twelve bytes. */
  function PackScales(s: Raw): (p: Raw)
    requires |s| == 16
    ensures |p| == 12
  {
    seq(12, n requires 0 <= n < 12 && |s| == 16 =>
      if n < 8 then Nibbles(s[n], s[n + 8]) else HighPairs(s[n - 8], s[n - 4], s[n], s[n + 4]))
  }

  function HighPairs(a: bv8, b: bv8, c: bv8, d: bv8): bv8 {
    (a >> 4) | ((b >> 4) << 2) | ((c >> 4) << 4) | ((d >> 4) << 6)
  }

  lemma PairsBack(a: bv8, b: bv8, c: bv8, d: bv8)
    requires Six(a) && Six(b) && Six(c) && Six(d)
    ensures WithPair(Low(a), Pair(HighPairs(a, b, c, d), 0)) == a
    ensures WithPair(Low(b), Pair(HighPairs(a, b, c, d), 1)) == b
    ensures WithPair(Low(c), Pair(HighPairs(a, b, c, d), 2)) == c
    ensures WithPair(Low(d), Pair(HighPairs(a, b, c, d), 3)) == d
  {
  }

  /** Unpacking scale k gives it back. */
  lemma ScalesUnpack(s: Raw, k: nat)
    requires |s| == 16 && k < 16 && forall j :: 0 <= j < 16 ==> Six(s[j])
    ensures Scale3(PackScales(s), 0, k) == s[k]
  {
    hide Low, High, Six, Pair, HighPairs, Nibbles, WithPair, PackScales;
    var c, n, r := k % 4, k % 8, k / 4;
    var p, top := PackScales(s), HighPairs(s[c], s[c + 4], s[c + 8], s[c + 12]);
    PackedScales(s, n, c);
    PairsBack(s[c], s[c + 4], s[c + 8], s[c + 12]);
    NibblesBack(s[n], s[n + 8]);
    assert k == r * 4 + c && s[k] == [s[c], s[c + 4], s[c + 8], s[c + 12]][r];
    assert Scale3(p, 0, k) == WithPair(Low(s[k]), Pair(top, r)) by {
      assert p[8 + k % 4] == top && p[n] == Nibbles(s[n], s[n + 8]);
    }
  }

  lemma PackedScales(s: Raw, n: nat, c: nat)
    requires |s| == 16 && n < 8 && c < 4
    ensures PackScales(s)[n] == Nibbles(s[n], s[n + 8])
    ensures PackScales(s)[8 + c] == HighPairs(s[c], s[c + 4], s[c + 8], s[c + 12])
  {
    hide Nibbles, HighPairs;
  }

  /** The packed scales sit anywhere in a block. */
  lemma ScaleMinAnywhere(raw: Raw, at: nat, j: nat)
    requires at + 12 <= |raw| && j < 8
    ensures ScaleMin(raw, at, j) == ScaleMin(raw[at..at + 12], 0, j)
  {
    hide Low, High, LowSix, WithTop;
  }

  lemma Scale3Anywhere(raw: Raw, at: nat, k: nat)
    requires at + 12 <= |raw| && k < 16
    ensures Scale3(raw, at, k) == Scale3(raw[at..at + 12], 0, k)
  {
    hide Low, High, WithPair, Pair;
  }

  predicate Masked(b: bv8, m: bv8) { b & m != 0 }

  predicate HasBit(b: bv8, k: nat)
    requires k < 8
  {
    Masked(b, Bit(k))
  }

  predicate AllBelow(s: Raw, bound: bv8) {
    forall i :: 0 <= i < |s| ==> s[i] < bound
  }

  // ---------------------------------------------------------------------------------------------
  // Q4_K
  // ---------------------------------------------------------------------------------------------

  /** 256 nibbles: of every 64, the first 32 in the low halves and the others in the high halves of 32 bytes. */
  function PackNibbles(q: Raw): (p: Raw)
    requires |q| == 256
    ensures |p| == 128
  {
    seq(128, n requires 0 <= n < 128 && |q| == 256 => Nibbles(q[n / 32 * 64 + n % 32], q[n / 32 * 64 + 32 + n % 32]))
  }

  function PackQ4K(d: Raw, dmin: Raw, sc: Raw, mn: Raw, q: Raw): (raw: Raw)
    requires |d| == |dmin| == 2 && |sc| == |mn| == 8 && |q| == 256
    ensures |raw| == 144
  {
    d + dmin + PackScaleMin(sc, mn) + PackNibbles(q)
  }

  lemma NibbleBack(q: Raw, i: nat)
    requires |q| == 256 && i < 256 && AllBelow(q, 16)
    ensures var b := PackNibbles(q)[i / 64 * 32 + i % 32];
      (if i % 64 < 32 then Low(b) else High(b)) == q[i]
  {
    hide Low, High, Nibbles;
    var n := i / 64 * 32 + i % 32;
    assert n / 32 == i / 64 && n % 32 == i % 32;
    var x, y := q[n / 32 * 64 + n % 32], q[n / 32 * 64 + 32 + n % 32];
    NibblesBack(x, y);
    LowOfNibble(x);
    LowOfNibble(y);
  }

  lemma LowOfNibble(b: bv8)
    requires b < 16
    ensures Low(b) == b
  {
  }

  /** A block of quants, scales and minimums decodes to scale times quant less minimum, group by group. */
  lemma Q4KComesBack(h: Half, d: Raw, dmin: Raw, sc: Raw, mn: Raw, q: Raw, i: nat)
    requires |d| == |dmin| == 2 && |sc| == |mn| == 8 && |q| == 256 && i < 256
    requires AllBelow(sc, 64) && AllBelow(mn, 64) && AllBelow(q, 16)
    ensures Q4K(h, PackQ4K(d, dmin, sc, mn, q), 0, i)
         == Times(Times(h(d[0], d[1]), sc[i / 32] as int as real), q[i] as int as real)
            - Times(h(dmin[0], dmin[1]), mn[i / 32] as int as real)
  {
    hide Low, High, ScaleMin, PackScaleMin, PackNibbles, Times;
    var raw, n := PackQ4K(d, dmin, sc, mn, q), i / 64 * 32 + i % 32;
    assert raw[4..16] == PackScaleMin(sc, mn);
    ScaleMinAnywhere(raw, 4, i / 32);
    ScaleMinUnpacks(sc, mn, i / 32);
    assert raw[16 + n] == PackNibbles(q)[n];
    NibbleBack(q, i);
  }

  // ---------------------------------------------------------------------------------------------
  // Q6_K
  // ---------------------------------------------------------------------------------------------

  function PackLows(q: Raw): (p: Raw)
    requires |q| == 256
    ensures |p| == 128
  {
    seq(128, n requires 0 <= n < 128 && |q| == 256 => Nibbles(q[n / 64 * 128 + n % 64], q[n / 64 * 128 + 64 + n % 64]))
  }

  function PackHighs(q: Raw): (p: Raw)
    requires |q| == 256
    ensures |p| == 64
  {
    seq(64, n requires 0 <= n < 64 && |q| == 256 =>
      var i := n / 32 * 128 + n % 32; HighPairs(q[i], q[i + 32], q[i + 64], q[i + 96]))
  }

  function PackQ6K(d: Raw, sc: Raw, q: Raw): (raw: Raw)
    requires |d| == 2 && |sc| == 16 && |q| == 256
    ensures |raw| == 210
  {
    PackLows(q) + PackHighs(q) + sc + d
  }

  lemma PackedLow(q: Raw, half: nat, r: nat)
    requires |q| == 256 && half < 2 && r < 64
    ensures PackLows(q)[half * 64 + r] == Nibbles(q[half * 128 + r], q[half * 128 + 64 + r])
  {
    hide Nibbles;
    assert (half * 64 + r) / 64 == half && (half * 64 + r) % 64 == r;
  }

  lemma PackedHigh(q: Raw, half: nat, l: nat)
    requires |q| == 256 && half < 2 && l < 32
    ensures var i := half * 128 + l; PackHighs(q)[half * 32 + l] == HighPairs(q[i], q[i + 32], q[i + 64], q[i + 96])
  {
    hide HighPairs;
    assert (half * 32 + l) / 32 == half && (half * 32 + l) % 32 == l;
  }

  /** The four low bits and the two high bits of a quant. */
  lemma SixBitsTogether(q: Raw, half: nat, quarter: nat, l: nat)
    requires |q| == 256 && half < 2 && quarter < 4 && l < 32 && AllBelow(q, 64)
    ensures var b := PackLows(q)[half * 64 + quarter % 2 * 32 + l];
      WithPair(if quarter < 2 then Low(b) else High(b), Pair(PackHighs(q)[half * 32 + l], quarter))
        == q[half * 128 + quarter * 32 + l]
  {
    hide Low, High, Pair, WithPair, HighPairs, Nibbles, PackLows, PackHighs;
    var r, i := quarter % 2 * 32 + l, half * 128 + l;
    PackedLow(q, half, r);
    PackedHigh(q, half, l);
    PairsBack(q[i], q[i + 32], q[i + 64], q[i + 96]);
    NibblesBack(q[half * 128 + r], q[half * 128 + 64 + r]);
  }

  /** A block of 6-bit quants and signed scales decodes to scale times quant, less 32. */
  lemma Q6KComesBack(h: Half, d: Raw, sc: Raw, q: Raw, i: nat)
    requires |d| == 2 && |sc| == 16 && |q| == 256 && i < 256 && AllBelow(q, 64)
    ensures Q6K(h, PackQ6K(d, sc, q), 0, i)
         == Times(Times(h(d[0], d[1]), Signed8(sc[i / 16]) as real), (q[i] as int - 32) as real)
  {
    hide Low, High, Pair, WithPair, PackLows, PackHighs, Times, Signed8;
    var raw, half, quarter, l := PackQ6K(d, sc, q), i / 128, i % 128 / 32, i % 32;
    assert i == half * 128 + quarter * 32 + l;
    SixBitsTogether(q, half, quarter, l);
    assert raw[half * 64 + quarter % 2 * 32 + l] == PackLows(q)[half * 64 + quarter % 2 * 32 + l];
    assert raw[128 + half * 32 + l] == PackHighs(q)[half * 32 + l];
  }

  // ---------------------------------------------------------------------------------------------
  // Q3_K
  // ---------------------------------------------------------------------------------------------

  /** Bit k of the result is set where the third bit of the k-th quant is. */
  function ThirdBits(a: bv8, b: bv8, c: bv8, d: bv8, e: bv8, f: bv8, g: bv8, h: bv8): bv8 {
    (a >> 2) | ((b >> 2) << 1) | ((c >> 2) << 2) | ((d >> 2) << 3) |
    ((e >> 2) << 4) | ((f >> 2) << 5) | ((g >> 2) << 6) | ((h >> 2) << 7)
  }

  function LowPairs(a: bv8, b: bv8, c: bv8, d: bv8): bv8 {
    (a & 3) | ((b & 3) << 2) | ((c & 3) << 4) | ((d & 3) << 6)
  }

  function PackMask(q: Raw): (p: Raw)
    requires |q| == 256
    ensures |p| == 32
  {
    seq(32, l requires 0 <= l < 32 && |q| == 256 =>
      ThirdBits(q[l], q[l + 32], q[l + 64], q[l + 96], q[l + 128], q[l + 160], q[l + 192], q[l + 224]))
  }

  function PackPairs(q: Raw): (p: Raw)
    requires |q| == 256
    ensures |p| == 64
  {
    seq(64, n requires 0 <= n < 64 && |q| == 256 =>
      var i := n / 32 * 128 + n % 32; LowPairs(q[i], q[i + 32], q[i + 64], q[i + 96]))
  }

  function PackQ3K(d: Raw, s: Raw, q: Raw): (raw: Raw)
    requires |d| == 2 && |s| == 16 && |q| == 256
    ensures |raw| == 110
  {
    PackMask(q) + PackPairs(q) + PackScales(s) + d
  }

  lemma LowPairsBack(a: bv8, b: bv8, c: bv8, d: bv8)
    ensures Pair(LowPairs(a, b, c, d), 0) == a & 3 && Pair(LowPairs(a, b, c, d), 1) == b & 3
    ensures Pair(LowPairs(a, b, c, d), 2) == c & 3 && Pair(LowPairs(a, b, c, d), 3) == d & 3
  {
  }

  predicate Third(b: bv8) { b & 4 != 0 }

  lemma Bits()
    ensures Bit(0) == 1 && Bit(1) == 2 && Bit(2) == 4 && Bit(3) == 8
    ensures Bit(4) == 16 && Bit(5) == 32 && Bit(6) == 64 && Bit(7) == 128
  {
    assert Bit(3) == Bit(2) << 1 && Bit(4) == Bit(3) << 1 && Bit(5) == Bit(4) << 1 && Bit(6) == Bit(5) << 1;
  }

  lemma ThirdBitsBack(a: bv8, b: bv8, c: bv8, d: bv8, e: bv8, f: bv8, g: bv8, h: bv8)
    requires a < 8 && b < 8 && c < 8 && d < 8 && e < 8 && f < 8 && g < 8 && h < 8
    ensures var m := ThirdBits(a, b, c, d, e, f, g, h);
      && (Masked(m, 1) <==> Third(a)) && (Masked(m, 2) <==> Third(b))
      && (Masked(m, 4) <==> Third(c)) && (Masked(m, 8) <==> Third(d))
      && (Masked(m, 16) <==> Third(e)) && (Masked(m, 32) <==> Third(f))
      && (Masked(m, 64) <==> Third(g)) && (Masked(m, 128) <==> Third(h))
  {
  }

  /** Two low bits with a third one that adds four are the quant less four. */
  lemma ThreeBitsTogether(b: bv8, mask: bv8, m: bv8)
    requires b < 8 && (Masked(mask, m) <==> Third(b))
    ensures ThreeBits(b & 3, mask, m) == b as int - 4
  {
    assert Third(b) ==> (b & 3) + 4 == b;
    assert !Third(b) ==> b & 3 == b;
  }

  lemma PackedMask(q: Raw, l: nat)
    requires |q| == 256 && l < 32
    ensures PackMask(q)[l]
      == ThirdBits(q[l], q[l + 32], q[l + 64], q[l + 96], q[l + 128], q[l + 160], q[l + 192], q[l + 224])
  {
    hide ThirdBits;
  }

  lemma MaskBack(q: Raw, k: nat, l: nat)
    requires |q| == 256 && k < 8 && l < 32 && AllBelow(q, 8)
    ensures HasBit(PackMask(q)[l], k) <==> Third(q[k * 32 + l])
  {
    assert q[l] < 8 && q[l + 32] < 8 && q[l + 64] < 8 && q[l + 96] < 8;
    assert q[l + 128] < 8 && q[l + 160] < 8 && q[l + 192] < 8 && q[l + 224] < 8;
    hide Bit, ThirdBits, Third, Masked, PackMask, AllBelow;
    Bits();
    PackedMask(q, l);
    ThirdBitsBack(q[l], q[l + 32], q[l + 64], q[l + 96], q[l + 128], q[l + 160], q[l + 192], q[l + 224]);
    if k == 0 {
    } else if k == 1 {
    } else if k == 2 {
    } else if k == 3 {
    } else if k == 4 {
    } else if k == 5 {
    } else if k == 6 {
    }
  }

  lemma PairBack(q: Raw, half: nat, pair: nat, l: nat)
    requires |q| == 256 && half < 2 && pair < 4 && l < 32
    ensures Pair(PackPairs(q)[half * 32 + l], pair) == q[half * 128 + pair * 32 + l] & 3
  {
    hide Pair, LowPairs;
    var n, i := half * 32 + l, half * 128 + l;
    assert n / 32 == half && n % 32 == l;
    LowPairsBack(q[i], q[i + 32], q[i + 64], q[i + 96]);
  }

  /** A block of 3-bit quants and 6-bit scales decodes to (scale less 32) times (quant less 4). */
  lemma Q3KComesBack(h: Half, d: Raw, s: Raw, q: Raw, i: nat)
    requires |d| == 2 && |s| == 16 && |q| == 256 && i < 256 && AllBelow(s, 64) && AllBelow(q, 8)
    ensures Q3K(h, PackQ3K(d, s, q), 0, i)
         == Times(Times(h(d[0], d[1]), (s[i / 16] as int - 32) as real), (q[i] as int - 4) as real)
  {
    hide Pair, ThreeBits, Bit, Scale3, PackMask, PackPairs, PackScales, Times, Third, Masked;
    var raw, half, pair, l := PackQ3K(d, s, q), i / 128, i % 128 / 32, i % 32;
    assert i == half * 128 + pair * 32 + l && (half * 4 + pair) * 32 + l == i;
    assert raw[96..108] == PackScales(s);
    Scale3Anywhere(raw, 96, i / 16);
    ScalesUnpack(s, i / 16);
    assert raw[l] == PackMask(q)[l] && raw[32 + half * 32 + l] == PackPairs(q)[half * 32 + l];
    MaskBack(q, half * 4 + pair, l);
    PairBack(q, half, pair, l);
    ThreeBitsTogether(q[i], raw[l], Bit(half * 4 + pair));
  }

  // ---------------------------------------------------------------------------------------------
  // Q5_0
  // ---------------------------------------------------------------------------------------------

  /** Bit k of the result is set where the fifth bit of the k-th quant is. */
  function FifthBits(a: bv8, b: bv8, c: bv8, d: bv8, e: bv8, f: bv8, g: bv8, h: bv8): bv8 {
    (a >> 4) | ((b >> 4) << 1) | ((c >> 4) << 2) | ((d >> 4) << 3) |
    ((e >> 4) << 4) | ((f >> 4) << 5) | ((g >> 4) << 6) | ((h >> 4) << 7)
  }

  function PackFifths(q: Raw): (p: Raw)
    requires |q| == 32
    ensures |p| == 4
  {
    seq(4, n requires 0 <= n < 4 && |q| == 32 =>
      FifthBits(q[8 * n], q[8 * n + 1], q[8 * n + 2], q[8 * n + 3],
                q[8 * n + 4], q[8 * n + 5], q[8 * n + 6], q[8 * n + 7]))
  }

  function PackHalves(q: Raw): (p: Raw)
    requires |q| == 32
    ensures |p| == 16
  {
    seq(16, j requires 0 <= j < 16 && |q| == 32 => Nibbles(q[j], q[j + 16]))
  }

  function PackQ50(d: Raw, q: Raw): (raw: Raw)
    requires |d| == 2 && |q| == 32
    ensures |raw| == 22
  {
    d + PackFifths(q) + PackHalves(q)
  }

  predicate Fifth(b: bv8) { b & 16 != 0 }

  lemma FifthBitsBack(a: bv8, b: bv8, c: bv8, d: bv8, e: bv8, f: bv8, g: bv8, h: bv8)
    requires a < 32 && b < 32 && c < 32 && d < 32 && e < 32 && f < 32 && g < 32 && h < 32
    ensures var m := FifthBits(a, b, c, d, e, f, g, h);
      && (Masked(m, 1) <==> Fifth(a)) && (Masked(m, 2) <==> Fifth(b))
      && (Masked(m, 4) <==> Fifth(c)) && (Masked(m, 8) <==> Fifth(d))
      && (Masked(m, 16) <==> Fifth(e)) && (Masked(m, 32) <==> Fifth(f))
      && (Masked(m, 64) <==> Fifth(g)) && (Masked(m, 128) <==> Fifth(h))
  {
  }

  /** Bit 8 n + k of a word is bit k of byte n. */
  lemma BitOfWord(a: bv8, b: bv8, c: bv8, d: bv8, n: nat, k: nat)
    requires n < 4 && k < 8
    ensures BitOf(Word(a, b, c, d), BitIndex(8 * n + k)) <==> HasBit([a, b, c, d][n], k)
  {
    IndexOfByte(n, k);
    hide BitOf, Word, BitIndex, HasBit, BitAt;
    BitOfByte(a, b, c, d, BitIndex(k));
    BitAtIs([a, b, c, d][n], k);
  }

  predicate BitAt(b: bv8, s: bv6)
    requires s < 8
  {
    (b >> s) & 1 == 1
  }

  lemma BitAtIs(b: bv8, k: nat)
    requires k < 8
    ensures BitIndex(k) < 8 && (BitAt(b, BitIndex(k)) <==> HasBit(b, k))
  {
    Bits();
    hide Bit;
    if k == 0 {
    } else if k == 1 {
    } else if k == 2 {
    } else if k == 3 {
    } else if k == 4 {
    } else if k == 5 {
    } else if k == 6 {
    }
  }

  lemma IndexOfByte(n: nat, k: nat)
    requires n < 4 && k < 8
    ensures BitIndex(k) < 8
    ensures BitIndex(8 * n + k) == BitIndex(k) + if n == 0 then 0 else if n == 1 then 8 else if n == 2 then 16 else 24
  {
    if n == 0 {
    } else if n == 1 {
    } else if n == 2 {
    }
  }

  lemma BitOfByte(a: bv8, b: bv8, c: bv8, d: bv8, s: bv6)
    requires s < 8
    ensures var w := Word(a, b, c, d);
      && (BitOf(w, s) <==> BitAt(a, s)) && (BitOf(w, s + 8) <==> BitAt(b, s))
      && (BitOf(w, s + 16) <==> BitAt(c, s)) && (BitOf(w, s + 24) <==> BitAt(d, s))
  {
  }

  lemma PackedFifths(q: Raw, n: nat)
    requires |q| == 32 && n < 4
    ensures PackFifths(q)[n]
      == FifthBits(q[8 * n], q[8 * n + 1], q[8 * n + 2], q[8 * n + 3],
                   q[8 * n + 4], q[8 * n + 5], q[8 * n + 6], q[8 * n + 7])
  {
    hide FifthBits;
  }

  lemma FifthOfByte(q: Raw, n: nat, k: nat)
    requires |q| == 32 && n < 4 && k < 8 && AllBelow(q, 32)
    ensures HasBit(PackFifths(q)[n], k) <==> Fifth(q[8 * n + k])
  {
    hide Bit, FifthBits, Fifth, Masked, PackFifths;
    Bits();
    PackedFifths(q, n);
    FifthBitsBack(q[8 * n], q[8 * n + 1], q[8 * n + 2], q[8 * n + 3],
                  q[8 * n + 4], q[8 * n + 5], q[8 * n + 6], q[8 * n + 7]);
    if k == 0 {
    } else if k == 1 {
    } else if k == 2 {
    } else if k == 3 {
    } else if k == 4 {
    } else if k == 5 {
    } else if k == 6 {
    }
  }

  lemma FifthBack(q: Raw, i: nat)
    requires |q| == 32 && i < 32 && AllBelow(q, 32)
    ensures var p := PackFifths(q);
      BitOf(Word(p[0], p[1], p[2], p[3]), BitIndex(i)) <==> Fifth(q[i])
  {
    hide BitOf, Word, BitIndex, HasBit, Fifth, PackFifths;
    var p, n, k := PackFifths(q), i / 8, i % 8;
    FifthOfByte(q, n, k);
    BitOfWord(p[0], p[1], p[2], p[3], n, k);
    assert p[n] == [p[0], p[1], p[2], p[3]][n] && i == 8 * n + k;
  }

  lemma FiveBitsTogether(b: bv8, low: bv8)
    requires b < 32 && low == Low(b)
    ensures FiveBits(low, Fifth(b)) == b
  {
  }

  lemma HalfBack(q: Raw, i: nat)
    requires |q| == 32 && i < 32
    ensures (if i < 16 then Low(PackHalves(q)[i % 16]) else High(PackHalves(q)[i % 16])) == Low(q[i])
  {
    hide Low, High, Nibbles;
    NibblesBack(q[i % 16], q[i % 16 + 16]);
  }

  /** A block of 5-bit quants decodes to scale times quant, less 16. */
  lemma Q50ComesBack(h: Half, d: Raw, q: Raw, i: nat)
    requires |d| == 2 && |q| == 32 && i < 32 && AllBelow(q, 32)
    ensures Q50(h, PackQ50(d, q), 0, i) == Times((q[i] as int - 16) as real, h(d[0], d[1]))
  {
    hide Low, High, FiveBits, BitOf, Word, BitIndex, PackFifths, PackHalves, Times, Fifth;
    var raw, p := PackQ50(d, q), PackFifths(q);
    assert raw[2] == p[0] && raw[3] == p[1] && raw[4] == p[2] && raw[5] == p[3];
    assert raw[6 + i % 16] == PackHalves(q)[i % 16];
    FifthBack(q, i);
    HalfBack(q, i);
    FiveBitsTogether(q[i], Low(q[i]));
  }

  // ---------------------------------------------------------------------------------------------
  // Q5_1 and Q8_0
  // ---------------------------------------------------------------------------------------------

  function PackQ51(d: Raw, m: Raw, q: Raw): (raw: Raw)
    requires |d| == |m| == 2 && |q| == 32
    ensures |raw| == 24
  {
    d + m + PackFifths(q) + PackHalves(q)
  }

  /** The same, with a minimum added and nothing subtracted. */
  lemma Q51ComesBack(h: Half, d: Raw, m: Raw, q: Raw, i: nat)
    requires |d| == |m| == 2 && |q| == 32 && i < 32 && AllBelow(q, 32)
    ensures Q51(h, PackQ51(d, m, q), 0, i) == Times(q[i] as int as real, h(d[0], d[1])) + h(m[0], m[1])
  {
    hide Low, High, FiveBits, BitOf, Word, BitIndex, PackFifths, PackHalves, Times, Fifth;
    var raw, p := PackQ51(d, m, q), PackFifths(q);
    assert raw[4] == p[0] && raw[5] == p[1] && raw[6] == p[2] && raw[7] == p[3];
    assert raw[8 + i % 16] == PackHalves(q)[i % 16];
    FifthBack(q, i);
    HalfBack(q, i);
    FiveBitsTogether(q[i], Low(q[i]));
  }

  /** A signed number as a byte. */
  function SignedByte(x: int): bv8
    requires -128 <= x < 128
  {
    (if x < 0 then x + 256 else x) as bv8
  }

  function PackQ80(d: Raw, q: seq<int>): (raw: Raw)
    requires |d| == 2 && |q| == 32 && forall i :: 0 <= i < 32 ==> -128 <= q[i] < 128
    ensures |raw| == 34
  {
    d + seq(32, i requires 0 <= i < 32 && |q| == 32 && -128 <= q[i] < 128 => SignedByte(q[i]))
  }

  lemma SignedBack(x: int)
    requires -128 <= x < 128
    ensures Signed8(SignedByte(x)) == x
  {
  }

  /** A block of signed bytes decodes to scale times byte. */
  lemma Q80ComesBack(h: Half, d: Raw, q: seq<int>, i: nat)
    requires |d| == 2 && |q| == 32 && i < 32 && forall j :: 0 <= j < 32 ==> -128 <= q[j] < 128
    ensures Q80(h, PackQ80(d, q), 0, i) == Times(h(d[0], d[1]), q[i] as real)
  {
    hide Times, SignedByte, Signed8;
    SignedBack(q[i]);
  }
}
