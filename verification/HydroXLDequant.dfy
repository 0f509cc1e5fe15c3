/** The block decoders: walks over packed bytes, against the random access of QuantFormats. */
module HydroXLDequant {
  import opened TransformerMath
  import opened QuantFormats

  /** Everything outside a window is as it was. */
  twostate predicate OnlyWindow(dst: array<real>, off: nat, n: nat)
    reads dst
  {
    forall j :: 0 <= j < dst.Length && !(off <= j < off + n) ==> dst[j] == old(dst[j])
  }

  /** One store of a decoder, recorded. */
  method Store(dst: array<real>, p: nat, x: real, ghost before: seq<nat>) returns (ghost written: seq<nat>)
    requires p < dst.Length
    modifies dst
    ensures dst[p] == x && forall j :: 0 <= j < dst.Length && j != p ==> dst[j] == old(dst[j])
    ensures written == before + [p]
  {
    dst[p] := x;
    written := before + [p];
  }

  /** The stores so far went to the places off, off + 1, off + 2, ... in this order. */
  ghost predicate InOrder(written: seq<nat>, off: nat, n: nat) {
    |written| == n && forall k :: 0 <= k < n ==> written[k] == off + k
  }

  // ---------------------------------------------------------------------------------------------
  // Q4_K
  // ---------------------------------------------------------------------------------------------

  /** Element l of the low or the high half of the 64 elements that start at j. */
  lemma Q4KIn64(h: Half, raw: Raw, at: nat, j: nat, l: nat, high: bool)
    requires at + 144 <= |raw| && j <= 192 && j % 64 == 0 && l < 32
    ensures var b, group := raw[at + 16 + j / 2 + l], j / 32 + if high then 1 else 0;
      Q4K(h, raw, at, j + (if high then 32 else 0) + l)
        == Times(Times(h(raw[at], raw[at + 1]), Real(ScaleMin(raw, at + 4, group).0)),
                 Real(if high then High(b) else Low(b)))
           - Times(h(raw[at + 2], raw[at + 3]), Real(ScaleMin(raw, at + 4, group).1))
  {
    hide Times, Real, ScaleMin, Low, High;
    var i := j + (if high then 32 else 0) + l;
    assert i / 32 == j / 32 + (if high then 1 else 0) && i % 32 == l && i / 64 * 32 == j / 2;
    assert i % 64 == (if high then 32 else 0) + l;
  }

  method DequantQ4KBlock(h: Half, raw: Raw, at: nat, dst: array<real>, off: nat) returns (ghost written: seq<nat>)
    requires at + 144 <= |raw| && off + 256 <= dst.Length
    modifies dst
    ensures InOrder(written, off, 256)
    ensures forall i :: 0 <= i < 256 ==> dst[off + i] == Q4K(h, raw, at, i)
    ensures OnlyWindow(dst, off, 256)
  {
    hide Q4K, Times, Real, ScaleMin, Low, High;
    var d, min := h(raw[at], raw[at + 1]), h(raw[at + 2], raw[at + 3]);
    var p, q, group, j := off, at + 16, 0, 0;
    written := [];
    while j < 256
      invariant InOrder(written, off, j)
      invariant 0 <= j <= 256 && j % 64 == 0 && p == off + j && q == at + 16 + j / 2 && group == j / 32
      invariant forall i :: 0 <= i < j ==> dst[off + i] == Q4K(h, raw, at, i)
      invariant OnlyWindow(dst, off, 256)
    {
      var (sc1, min1) := ScaleMin(raw, at + 4, group);
      var (sc2, min2) := ScaleMin(raw, at + 4, group + 1);
      var d1, m1 := Times(d, Real(sc1)), Times(min, Real(min1));
      var d2, m2 := Times(d, Real(sc2)), Times(min, Real(min2));
      var l := 0;
      while l < 32
        invariant 0 <= l <= 32 && p == off + j + l && InOrder(written, off, j + l)
        invariant forall i :: 0 <= i < j + l ==> dst[off + i] == Q4K(h, raw, at, i)
        invariant OnlyWindow(dst, off, 256)
      {
        Q4KIn64(h, raw, at, j, l, false);
        written := Store(dst, p, Times(d1, Real(Low(raw[q + l]))) - m1, written);
        p := p + 1;
        l := l + 1;
      }
      l := 0;
      while l < 32
        invariant 0 <= l <= 32 && p == off + j + 32 + l && InOrder(written, off, j + 32 + l)
        invariant forall i :: 0 <= i < j + 32 + l ==> dst[off + i] == Q4K(h, raw, at, i)
        invariant OnlyWindow(dst, off, 256)
      {
        Q4KIn64(h, raw, at, j, l, true);
        written := Store(dst, p, Times(d2, Real(High(raw[q + l]))) - m2, written);
        p := p + 1;
        l := l + 1;
      }
      q := q + 32;
      group := group + 2;
      j := j + 64;
    }
  }

  // ---------------------------------------------------------------------------------------------
  // Q3_K
  // ---------------------------------------------------------------------------------------------

  const MASK1: bv32 := 0x0303_0303
  const MASK2: bv32 := 0x0f0f_0f0f

  /** Where byte k of a word starts. */
  function Lane(k: nat): (s: bv6)
    requires k < 4
    ensures IsLane(s)
  {
    if k == 0 then 0 else if k == 1 then 8 else if k == 2 then 16 else 24
  }

  predicate IsLane(s: bv6) {
    s == 0 || s == 8 || s == 16 || s == 24
  }

  /** The byte of a word that starts at bit s. */
  function ByteAt(w: bv32, s: bv6): bv8
    requires IsLane(s)
  {
    ((w >> s) & 0xff) as bv8
  }

  /** A word shifted right by n pairs of bits. */
  function Right(w: bv32, n: nat): bv32
    requires n < 4
  {
    if n == 0 then w else if n == 1 then w >> 2 else if n == 2 then w >> 4 else w >> 6
  }

  function LowLanes(a: bv32, pairs: bv32): bv32 { (a & MASK2) | ((pairs & MASK1) << 4) }

  function HighLanes(a: bv32, pairs: bv32): bv32 { ((a >> 4) & MASK2) | ((pairs & MASK1) << 4) }

  /** The masks keep the lanes of a word apart. */
  lemma LanesApart(a: bv32, pairs: bv32, s: bv6)
    requires IsLane(s)
    ensures ByteAt(LowLanes(a, pairs), s) == WithPair(Low(ByteAt(a, s)), Pair(ByteAt(pairs, s), 0))
    ensures ByteAt(HighLanes(a, pairs), s) == WithPair(Low(ByteAt(Right(a, 2), s)), Pair(ByteAt(pairs, s), 0))
  {
  }

  function Picked(a: bv8, b: bv8, c: bv8, d: bv8, s: bv6): bv8 {
    if s == 0 then a else if s == 8 then b else if s == 16 then c else d
  }

  /** Shifting a word shifts each byte, up to what comes in from the next one. */
  lemma NibblesOfWord(a: bv8, b: bv8, c: bv8, d: bv8, s: bv6)
    requires IsLane(s)
    ensures Low(ByteAt(Word(a, b, c, d), s)) == Low(Picked(a, b, c, d, s))
    ensures Low(ByteAt(Right(Word(a, b, c, d), 2), s)) == High(Picked(a, b, c, d, s))
  {
  }

  lemma PairsOfWord(a: bv8, b: bv8, c: bv8, d: bv8, s: bv6, n: nat)
    requires IsLane(s) && n < 4
    ensures Pair(ByteAt(Right(Word(a, b, c, d), n), s), 0) == Pair(Picked(a, b, c, d, s), n)
  {
    if s == 0 {
    } else if s == 8 {
    } else if s == 16 {
    }
  }

  lemma PickedLane(a: bv8, b: bv8, c: bv8, d: bv8, k: nat)
    requires k < 4
    ensures Picked(a, b, c, d, Lane(k)) == [a, b, c, d][k]
  {
  }

  /** Four packed bytes as a word. */
  function ScaleWord(raw: Raw, at: nat, n: nat): bv32
    requires at + 12 <= |raw| && n < 3
  {
    Word(raw[at + 4 * n], raw[at + 4 * n + 1], raw[at + 4 * n + 2], raw[at + 4 * n + 3])
  }

  /** The words of sixteen unpacked scales, four in each, out of three packed words. */
  function Unpacked(raw: Raw, at: nat, n: nat): bv32
    requires at + 12 <= |raw| && n < 4
  {
    var pairs := Right(ScaleWord(raw, at, 2), n);
    if n < 2 then LowLanes(ScaleWord(raw, at, n), pairs) else HighLanes(ScaleWord(raw, at, n - 2), pairs)
  }

  /** A scale word's byte k, for each way it is used. */
  lemma ScaleWordBytes(raw: Raw, at: nat, m: nat, k: nat, n: nat)
    requires at + 12 <= |raw| && m < 3 && k < 4 && n < 4
    ensures var w, x := ScaleWord(raw, at, m), raw[at + 4 * m + k];
      && Low(ByteAt(w, Lane(k))) == Low(x) && Low(ByteAt(Right(w, 2), Lane(k))) == High(x)
      && Pair(ByteAt(Right(w, n), Lane(k)), 0) == Pair(x, n)
  {
    hide ByteAt, Right, Word, Picked, Low, High, Pair;
    var a, b, c, d := raw[at + 4 * m], raw[at + 4 * m + 1], raw[at + 4 * m + 2], raw[at + 4 * m + 3];
    NibblesOfWord(a, b, c, d, Lane(k));
    PairsOfWord(a, b, c, d, Lane(k), n);
    PickedLane(a, b, c, d, k);
  }

  /** Unpacking four scales at a time in a word is unpacking each on its own. */
  lemma UnpackedIsBytewise(raw: Raw, at: nat, n: nat, k: nat)
    requires at + 12 <= |raw| && n < 4 && k < 4
    ensures ByteAt(Unpacked(raw, at, n), Lane(k)) == Scale3(raw, at, 4 * n + k)
  {
    hide ByteAt, LowLanes, HighLanes, ScaleWord, WithPair, Right, Low, High, Pair, Lane;
    var m := n % 2;
    ScaleWordBytes(raw, at, m, k, 0);
    ScaleWordBytes(raw, at, 2, k, n);
    LanesApart(ScaleWord(raw, at, m), Right(ScaleWord(raw, at, 2), n), Lane(k));
  }

  /** The pair of bits a shift brings down. */
  method TakePair(b: bv8, shift: nat) returns (pair: bv8)
    requires shift == 0 || shift == 2 || shift == 4 || shift == 6
    ensures pair == Pair(b, shift / 2)
  {
    pair := (b >> shift) & 3;
    ShiftIsPair(b, shift);
  }

  lemma ShiftIsPair(b: bv8, shift: nat)
    requires shift == 0 || shift == 2 || shift == 4 || shift == 6
    ensures (b >> shift) & 3 == Pair(b, shift / 2)
  {
    if shift == 0 {
    } else if shift == 2 {
    } else if shift == 4 {
    }
  }

  lemma Split(half: nat, quarter: nat, l: nat)
    requires half < 2 && quarter < 4 && l < 32
    ensures var i := half * 128 + quarter * 32 + l; i / 128 == half && i % 128 / 32 == quarter && i % 32 == l
  {
  }

  lemma Q3KIn32(h: Half, raw: Raw, at: nat, half: nat, pair: nat, l: nat, i: nat)
    requires at + 110 <= |raw| && half < 2 && pair < 4 && l < 32 && i == half * 128 + pair * 32 + l
    ensures i < 256
    ensures Q3K(h, raw, at, i)
      == Times(Times(h(raw[at + 108], raw[at + 109]), (Signed8(Scale3(raw, at + 96, i / 16)) - 32) as real),
               ThreeBits(Pair(raw[at + 32 + half * 32 + l], pair), raw[at + l], Bit(half * 4 + pair)) as real)
  {
    hide Times, Pair, Bit, Signed8, Scale3, ThreeBits;
    Split(half, pair, l);
  }

  /** Sixteen elements of one scale. */
  method RunQ3K(h: Half, raw: Raw, at: nat, dst: array<real>, off: nat, half: nat, pair: nat, lane: nat, dl: real,
                m: bv8,
                shift: nat, ghost before: seq<nat>)
    returns (ghost written: seq<nat>)
    requires InOrder(before, off, half * 128 + pair * 32 + lane)
    requires at + 110 <= |raw| && off + 256 <= dst.Length && half < 2 && pair < 4 && (lane == 0 || lane == 16)
    requires m == Bit(half * 4 + pair) && shift == 2 * pair
    requires dl == Times(h(raw[at + 108], raw[at + 109]),
                         (Signed8(Scale3(raw, at + 96, half * 8 + pair * 2 + lane / 16)) - 32) as real)
    modifies dst
    ensures InOrder(written, off, half * 128 + pair * 32 + lane + 16)
    ensures forall i :: half * 128 + pair * 32 + lane <= i < half * 128 + pair * 32 + lane + 16 ==>
      dst[off + i] == Q3K(h, raw, at, i)
    ensures OnlyWindow(dst, off + half * 128 + pair * 32 + lane, 16)
  {
    hide Q3K, Times, Bit, Signed8, Scale3, Pair, ThreeBits;
    var first := half * 128 + pair * 32 + lane;
    var q, l := at + 32 + half * 32, 0;
    written := before;
    while l < 16
      invariant 0 <= l <= 16 && InOrder(written, off, first + l)
      invariant forall i :: first <= i < first + l ==> dst[off + i] == Q3K(h, raw, at, i)
      invariant OnlyWindow(dst, off + first, 16)
    {
      Q3KIn32(h, raw, at, half, pair, lane + l, first + l);
      var pairBits := TakePair(raw[q + lane + l], shift);
      assert (first + l) / 16 == half * 8 + pair * 2 + lane / 16;
      written := Store(dst, off + first + l, Times(dl, ThreeBits(pairBits, raw[at + lane + l], m) as real), written);
      l := l + 1;
    }
  }

  method DequantQ3KBlock(h: Half, raw: Raw, at: nat, dst: array<real>, off: nat) returns (ghost written: seq<nat>)
    requires at + 110 <= |raw| && off + 256 <= dst.Length
    modifies dst
    ensures InOrder(written, off, 256)
    ensures forall i :: 0 <= i < 256 ==> dst[off + i] == Q3K(h, raw, at, i)
    ensures OnlyWindow(dst, off, 256)
  {
    hide Q3K, Times, Signed8, Scale3, Unpacked, ByteAt, Lane;
    var dAll := h(raw[at + 108], raw[at + 109]);
    var aux := seq(4, n requires 0 <= n < 4 && at + 110 <= |raw| => Unpacked(raw, at + 96, n));
    var group, half := 0, 0;
    var m: bv8 := 1;
    written := [];
    while half < 2
      invariant InOrder(written, off, half * 128)
      invariant 0 <= half <= 2 && group == half * 8 && (half < 2 ==> m == Bit(half * 4))
      invariant forall i :: 0 <= i < half * 128 ==> dst[off + i] == Q3K(h, raw, at, i)
      invariant OnlyWindow(dst, off, 256)
    {
      var shift, pair := 0, 0;
      while pair < 4
        invariant InOrder(written, off, half * 128 + pair * 32)
        invariant 0 <= pair <= 4 && shift == 2 * pair && group == half * 8 + pair * 2
        invariant half * 4 + pair < 8 ==> m == Bit(half * 4 + pair)
        invariant forall i :: 0 <= i < half * 128 + pair * 32 ==> dst[off + i] == Q3K(h, raw, at, i)
        invariant OnlyWindow(dst, off, 256)
      {
        UnpackedIsBytewise(raw, at + 96, group / 4, group % 4);
        var dl := Times(dAll, (Signed8(ByteAt(aux[group / 4], Lane(group % 4))) - 32) as real);
        written := RunQ3K(h, raw, at, dst, off, half, pair, 0, dl, m, shift, written);
        group := group + 1;
        UnpackedIsBytewise(raw, at + 96, group / 4, group % 4);
        dl := Times(dAll, (Signed8(ByteAt(aux[group / 4], Lane(group % 4))) - 32) as real);
        written := RunQ3K(h, raw, at, dst, off, half, pair, 16, dl, m, shift, written);
        group := group + 1;
        shift := shift + 2;
        m := m << 1;
        pair := pair + 1;
      }
      half := half + 1;
    }
  }

  // ---------------------------------------------------------------------------------------------
  // Q6_K
  // ---------------------------------------------------------------------------------------------

  lemma Q6KIn32(h: Half, raw: Raw, at: nat, half: nat, quarter: nat, l: nat)
    requires at + 210 <= |raw| && half < 2 && quarter < 4 && l < 32
    ensures var b := raw[at + half * 64 + quarter % 2 * 32 + l];
      var low := if quarter < 2 then Low(b) else High(b);
      Q6K(h, raw, at, half * 128 + quarter * 32 + l)
        == Times(Times(h(raw[at + 208], raw[at + 209]),
                       Signed8(raw[at + 192 + half * 8 + quarter * 2 + l / 16]) as real),
                 (WithPair(low, Pair(raw[at + 128 + half * 32 + l], quarter)) as int - 32) as real)
  {
    hide Times, Pair, Signed8, WithPair, Low, High;
    var i := half * 128 + quarter * 32 + l;
    assert i / 128 == half && i % 128 / 32 == quarter && i % 32 == l && i / 16 == half * 8 + quarter * 2 + l / 16;
  }

  /** In each half of a block the k-th store goes to place k / 4 of quarter k % 4. */
  function Place6(k: nat): nat {
    k / 128 * 128 + k % 4 * 32 + k % 128 / 4
  }

  /** The first n stores of a block went where they should. */
  ghost predicate InQuarters(written: seq<nat>, off: nat, n: nat) {
    |written| == n && forall k :: 0 <= k < n ==> written[k] == off + Place6(k)
  }

  lemma Place6At(half: nat, l: nat, q: nat)
    requires half < 2 && l < 32 && q < 4
    ensures Place6(half * 128 + l * 4 + q) == half * 128 + q * 32 + l
  {
    var k := l * 4 + q;
    assert k % 4 == q && k / 4 == l;
    if half == 0 {
      assert Place6(k) == q * 32 + l;
    } else {
      assert (128 + k) % 4 == q && (128 + k) % 128 == k;
    }
  }

  lemma NextQuarters(written: seq<nat>, off: nat, half: nat, l: nat)
    requires half < 2 && l < 32 && InQuarters(written, off, half * 128 + l * 4)
    ensures var at := off + half * 128 + l;
      InQuarters(written + [at, at + 32, at + 64, at + 96], off, half * 128 + (l + 1) * 4)
  {
    Place6At(half, l, 0);
    Place6At(half, l, 1);
    Place6At(half, l, 2);
    Place6At(half, l, 3);
    hide Place6;
  }

  method DequantQ6KBlock(h: Half, raw: Raw, at: nat, dst: array<real>, off: nat) returns (ghost written: seq<nat>)
    requires at + 210 <= |raw| && off + 256 <= dst.Length
    modifies dst
    ensures InQuarters(written, off, 256)
    ensures forall i :: 0 <= i < 256 ==> dst[off + i] == Q6K(h, raw, at, i)
    ensures OnlyWindow(dst, off, 256)
  {
    hide Q6K, Times, Signed8, WithPair, Pair, Low, High, InQuarters;
    var d := h(raw[at + 208], raw[at + 209]);
    var p, ql, qh, sc, half := off, at, at + 128, at + 192, 0;
    written := [];
    assert InQuarters(written, off, 0) by {
      NothingStored(off);
    }
    while half < 2
      invariant InQuarters(written, off, half * 128)
      invariant 0 <= half <= 2 && p == off + half * 128 && ql == at + half * 64
      invariant qh == at + 128 + half * 32 && sc == at + 192 + half * 8
      invariant forall i :: 0 <= i < half * 128 ==> dst[off + i] == Q6K(h, raw, at, i)
      invariant OnlyWindow(dst, off, 256)
    {
      written := HalfQ6K(h, raw, at, dst, off, half, d, p, ql, qh, sc, written);
      p := p + 128;
      ql := ql + 64;
      qh := qh + 32;
      sc := sc + 8;
      half := half + 1;
    }
  }

  /** 128 elements, four of them in each round. */
  method HalfQ6K(h: Half, raw: Raw, at: nat, dst: array<real>, off: nat, half: nat, d: real, p: nat, ql: nat, qh: nat,
                 sc: nat,
                 ghost before: seq<nat>)
    returns (ghost written: seq<nat>)
    requires InQuarters(before, off, half * 128)
    requires at + 210 <= |raw| && off + 256 <= dst.Length && half < 2
    requires d == h(raw[at + 208], raw[at + 209]) && p == off + half * 128 && ql == at + half * 64
    requires qh == at + 128 + half * 32 && sc == at + 192 + half * 8
    modifies dst
    ensures InQuarters(written, off, half * 128 + 128)
    ensures forall i :: half * 128 <= i < half * 128 + 128 ==> dst[off + i] == Q6K(h, raw, at, i)
    ensures OnlyWindow(dst, p, 128)
  {
    hide Q6K, InQuarters;
    var l := 0;
    written := before;
    while l < 32
      invariant 0 <= l <= 32 && InQuarters(written, off, half * 128 + l * 4)
      invariant forall i :: half * 128 <= i < half * 128 + 128 && i % 32 < l ==> dst[off + i] == Q6K(h, raw, at, i)
      invariant OnlyWindow(dst, p, 128)
    {
      NextQuarters(written, off, half, l);
      written := RoundQ6K(h, raw, at, dst, off, half, d, p, ql, qh, sc, l, written);
      l := l + 1;
    }
  }

  /** The elements whose place in their group of 32 is l. */
  method RoundQ6K(h: Half, raw: Raw, at: nat, dst: array<real>, off: nat, half: nat, d: real, p: nat, ql: nat, qh: nat,
                  sc: nat,
                  l: nat, ghost before: seq<nat>)
    returns (ghost written: seq<nat>)
    requires at + 210 <= |raw| && off + 256 <= dst.Length && half < 2 && l < 32
    requires d == h(raw[at + 208], raw[at + 209]) && p == off + half * 128 && ql == at + half * 64
    requires qh == at + 128 + half * 32 && sc == at + 192 + half * 8
    modifies dst
    ensures written == before + [p + l, p + l + 32, p + l + 64, p + l + 96]
    ensures forall i :: half * 128 <= i < half * 128 + 128 && i % 32 == l ==> dst[off + i] == Q6K(h, raw, at, i)
    ensures forall j :: 0 <= j < dst.Length && !(p <= j < p + 128 && (j - p) % 32 == l) ==> dst[j] == old(dst[j])
  {
    hide Q6K, Times, Signed8, WithPair, Pair, Low, High;
    var group := l / 16;
    var q1 := WithPair(Low(raw[ql + l]), Pair(raw[qh + l], 0)) as int - 32;
    var q2 := WithPair(Low(raw[ql + l + 32]), Pair(raw[qh + l], 1)) as int - 32;
    var q3 := WithPair(High(raw[ql + l]), Pair(raw[qh + l], 2)) as int - 32;
    var q4 := WithPair(High(raw[ql + l + 32]), Pair(raw[qh + l], 3)) as int - 32;
    Q6KIn32(h, raw, at, half, 0, l);
    Q6KIn32(h, raw, at, half, 1, l);
    Q6KIn32(h, raw, at, half, 2, l);
    Q6KIn32(h, raw, at, half, 3, l);
    written := Store(dst, p + l, Times(Times(d, Signed8(raw[sc + group]) as real), q1 as real), before);
    written := Store(dst, p + l + 32, Times(Times(d, Signed8(raw[sc + group + 2]) as real), q2 as real), written);
    written := Store(dst, p + l + 64, Times(Times(d, Signed8(raw[sc + group + 4]) as real), q3 as real), written);
    written := Store(dst, p + l + 96, Times(Times(d, Signed8(raw[sc + group + 6]) as real), q4 as real), written);
  }

  lemma NothingStored(off: nat)
    ensures InQuarters([], off, 0)
  {
  }

  // ---------------------------------------------------------------------------------------------
  // Q5_0
  // ---------------------------------------------------------------------------------------------

  lemma BitIndexes(j: nat)
    requires j < 16
    ensures BitIndex(j) < 16 && BitIndex(j + 16) == BitIndex(j) + 16
  {
  }

  /** A fifth bit, moved from where it is stored to where it belongs. */
  lemma FifthBits(qh: bv32, j: bv6)
    requires j < 16
    ensures (qh >> j << 4) & 0x10 == if BitOf(qh, j) then 0x10 else 0
    ensures (qh >> (j + 12)) & 0x10 == if BitOf(qh, j + 16) then 0x10 else 0
  {
  }

  /** The fifth bits of element j and of element j + 16. */
  method TakeFifths(qh: bv32, j: nat) returns (xh0: bv8, xh1: bv8)
    requires j < 16
    ensures xh0 == if BitOf(qh, BitIndex(j)) then 0x10 else 0
    ensures xh1 == if BitOf(qh, BitIndex(j + 16)) then 0x10 else 0
  {
    hide BitIndex;
    BitIndexes(j);
    FifthBits(qh, BitIndex(j));
    xh0 := ((qh >> BitIndex(j) << 4) & 0x10) as bv8;
    xh1 := ((qh >> (BitIndex(j) + 12)) & 0x10) as bv8;
  }

  /** Low and high nibbles in turn. */
  function Place5(k: nat): nat {
    k % 2 * 16 + k / 2
  }

  method DequantQ50Block(h: Half, raw: Raw, at: nat, dst: array<real>, off: nat) returns (ghost written: seq<nat>)
    requires at + 22 <= |raw| && off + 32 <= dst.Length
    modifies dst
    ensures |written| == 32 && forall k :: 0 <= k < 32 ==> written[k] == off + Place5(k)
    ensures forall i :: 0 <= i < 32 ==> dst[off + i] == Q50(h, raw, at, i)
    ensures OnlyWindow(dst, off, 32)
  {
    hide Q50, Times, Word, BitIndex, BitOf, FiveBits, Low, High;
    var d, qs := h(raw[at], raw[at + 1]), at + 6;
    var qh := Word(raw[at + 2], raw[at + 3], raw[at + 4], raw[at + 5]);
    var j := 0;
    written := [];
    while j < 16
      invariant 0 <= j <= 16 && |written| == 2 * j && forall k :: 0 <= k < 2 * j ==> written[k] == off + Place5(k)
      invariant forall i :: 0 <= i < j || 16 <= i < 16 + j ==> dst[off + i] == Q50(h, raw, at, i)
      invariant OnlyWindow(dst, off, 32)
    {
      var xh0, xh1 := TakeFifths(qh, j);
      var x0, x1 := TakeQuants(raw[qs + j], xh0, xh1, BitOf(qh, BitIndex(j)), BitOf(qh, BitIndex(j + 16)));
      Q50Pair(h, raw, at, j);
      written := Store(dst, off + j, Times((x0 - 16) as real, d), written);
      written := Store(dst, off + j + 16, Times((x1 - 16) as real, d), written);
      j := j + 1;
    }
  }

  method TakeQuants(b: bv8, xh0: bv8, xh1: bv8, ghost fifth0: bool, ghost fifth1: bool) returns (x0: int, x1: int)
    requires xh0 == (if fifth0 then 0x10 else 0) && xh1 == (if fifth1 then 0x10 else 0)
    ensures x0 == FiveBits(Low(b), fifth0) as int && x1 == FiveBits(High(b), fifth1) as int
  {
    x0 := ((b & 0x0F) | xh0) as int;
    x1 := ((b >> 4) | xh1) as int;
  }

  lemma Q50Pair(h: Half, raw: Raw, at: nat, j: nat)
    requires at + 22 <= |raw| && j < 16
    ensures var qh, b := Word(raw[at + 2], raw[at + 3], raw[at + 4], raw[at + 5]), raw[at + 6 + j];
      && Q50(h, raw, at, j)
           == Times((FiveBits(Low(b), BitOf(qh, BitIndex(j))) as int - 16) as real, h(raw[at], raw[at + 1]))
      && Q50(h, raw, at, j + 16)
           == Times((FiveBits(High(b), BitOf(qh, BitIndex(j + 16))) as int - 16) as real, h(raw[at], raw[at + 1]))
  {
    hide Times, Word, BitIndex, BitOf, FiveBits, Low, High;
    assert (j + 16) % 16 == j;
  }

  // ---------------------------------------------------------------------------------------------
  // Q5_1
  // ---------------------------------------------------------------------------------------------

  method DequantQ51Block(h: Half, raw: Raw, at: nat, dst: array<real>, off: nat) returns (ghost written: seq<nat>)
    requires at + 24 <= |raw| && off + 32 <= dst.Length
    modifies dst
    ensures |written| == 32 && forall k :: 0 <= k < 32 ==> written[k] == off + Place5(k)
    ensures forall i :: 0 <= i < 32 ==> dst[off + i] == Q51(h, raw, at, i)
    ensures OnlyWindow(dst, off, 32)
  {
    hide Q51, Times, Word, BitIndex, BitOf, FiveBits, Low, High;
    var d, m, qs := h(raw[at], raw[at + 1]), h(raw[at + 2], raw[at + 3]), at + 8;
    var qh := Word(raw[at + 4], raw[at + 5], raw[at + 6], raw[at + 7]);
    var j := 0;
    written := [];
    while j < 16
      invariant 0 <= j <= 16 && |written| == 2 * j && forall k :: 0 <= k < 2 * j ==> written[k] == off + Place5(k)
      invariant forall i :: 0 <= i < j || 16 <= i < 16 + j ==> dst[off + i] == Q51(h, raw, at, i)
      invariant OnlyWindow(dst, off, 32)
    {
      var xh0, xh1 := TakeFifths(qh, j);
      var x0, x1 := TakeQuants(raw[qs + j], xh0, xh1, BitOf(qh, BitIndex(j)), BitOf(qh, BitIndex(j + 16)));
      Q51Pair(h, raw, at, j);
      written := Store(dst, off + j, Times(x0 as real, d) + m, written);
      written := Store(dst, off + j + 16, Times(x1 as real, d) + m, written);
      j := j + 1;
    }
  }

  lemma Q51Pair(h: Half, raw: Raw, at: nat, j: nat)
    requires at + 24 <= |raw| && j < 16
    ensures var qh, b := Word(raw[at + 4], raw[at + 5], raw[at + 6], raw[at + 7]), raw[at + 8 + j];
      var d, m := h(raw[at], raw[at + 1]), h(raw[at + 2], raw[at + 3]);
      && Q51(h, raw, at, j) == Times(FiveBits(Low(b), BitOf(qh, BitIndex(j))) as int as real, d) + m
      && Q51(h, raw, at, j + 16) == Times(FiveBits(High(b), BitOf(qh, BitIndex(j + 16))) as int as real, d) + m
  {
    hide Times, Word, BitIndex, BitOf, FiveBits, Low, High;
    assert (j + 16) % 16 == j;
  }

  // ---------------------------------------------------------------------------------------------
  // Q8_0
  // ---------------------------------------------------------------------------------------------

  method DequantQ80Block(h: Half, raw: Raw, at: nat, dst: array<real>, off: nat) returns (ghost written: seq<nat>)
    requires at + 34 <= |raw| && off + 32 <= dst.Length
    modifies dst
    ensures InOrder(written, off, 32)
    ensures forall i :: 0 <= i < 32 ==> dst[off + i] == Q80(h, raw, at, i)
    ensures OnlyWindow(dst, off, 32)
  {
    hide Times, Signed8;
    var d := h(raw[at], raw[at + 1]);
    var i := 0;
    written := [];
    while i < 32
      invariant 0 <= i <= 32 && InOrder(written, off, i)
      invariant forall k :: 0 <= k < i ==> dst[off + k] == Q80(h, raw, at, k)
      invariant OnlyWindow(dst, off, 32)
    {
      written := Store(dst, off + i, Times(d, Signed8(raw[at + 2 + i]) as real), written);
      i := i + 1;
    }
  }
}
