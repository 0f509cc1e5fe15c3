/** The key/value cache: allocation, writes, reset. */
module HydroXLKVCaches {
  import opened Arithmetic
  import opened ModelTypes
  import opened TransformerMath
  import opened KvLayout
  import opened Incremental

  /** Elements of one layer as 64-bit arithmetic computes them. */
  function LayerFloats(d: Dims): nat {
    d.LayerSize() % TWO_64
  }

  function EmptyLayers(layers: nat, floats: nat): (e: seq<Vec>)
    ensures |e| == layers && Sized(e, floats)
  {
    seq(layers, _ => Zeros(floats))
  }

  /** Bytes of the whole cache as 64-bit arithmetic computes them. */
  function CacheBytes(layers: U32, d: Dims): nat {
    layers * 2 * LayerFloats(d) * 4 % TWO_64
  }

  const LIMIT := 0x1_0000_0000

  predicate Allocatable(layers: U32, d: Dims) {
    layers > 0 && d.Positive() && CacheBytes(layers, d) <= LIMIT
  }

  /** The largest cache of one position that is allowed: 4 GiB of keys and values together. */
  lemma FourGibibytes(n: nat)
    requires 0 < n < TWO_32
    ensures Allocatable(1, Dims(1, 1, n)) <==> n <= 0x2000_0000
  {
    assert Dims(1, 1, n).LayerSize() == n;
  }

  /** Bytes that the cache really takes. */
  function TrueBytes(layers: U32, d: Dims): nat {
    8 * layers * d.LayerSize()
  }

  /**
   * The limit of 4 GiB is meant for the bytes that a cache takes; the check sees them wrapped. So it
   * decides as meant exactly where they do not wrap, or wrap to something over the limit.
   */
  lemma AllocatableIff(layers: U32, d: Dims)
    requires layers > 0 && d.Positive()
    ensures (Allocatable(layers, d) <==> TrueBytes(layers, d) <= LIMIT) <==>
      TrueBytes(layers, d) < TWO_64 || TrueBytes(layers, d) % TWO_64 > LIMIT
  {
    CacheBytesWrap(layers, d);
  }

  lemma CacheBytesWrap(layers: U32, d: Dims)
    ensures CacheBytes(layers, d) == TrueBytes(layers, d) % TWO_64
  {
    var size := d.LayerSize();
    var q, r := size / TWO_64, size % TWO_64;
    assert 8 * layers * size == 8 * layers * q * TWO_64 + 8 * layers * r by {
      assert size == q * TWO_64 + r;
    }
    ModShift(8 * layers * r, 8 * layers * q, TWO_64);
    assert layers * 2 * r * 4 == 8 * layers * r;
  }

  /** Where it wraps, a cache far over the limit passes the check. */
  lemma OversizeWraps()
    ensures var d := Dims(0x1_0000, 0x100_0000, 0x100_0000);
      TrueBytes(1, d) == 8 * TWO_64 && Allocatable(1, d)
  {
  }

  /** Shapes are given by 32-bit numbers. */
  predicate Narrow(d: Dims) {
    d.kvHeads < TWO_32 && d.maxSeq < TWO_32 && d.headDim < TWO_32
  }

  /** Where the writer puts a position, as 64-bit arithmetic computes it. */
  function Offset(d: Dims, pos: nat): U64 {
    d.WriteAt(pos) % TWO_64
  }

  /** The bounds check of a write; its sum wraps at 64 bits. */
  predicate Passes(d: Dims, pos: nat) {
    Add64(Offset(d, pos), d.KvDim()) <= LayerFloats(d)
  }

  /** A copy of one position stays inside the array of its layer. */
  predicate Inside(d: Dims, pos: nat) {
    Offset(d, pos) + d.KvDim() <= LayerFloats(d)
  }

  /** The bounds check keeps the copy inside exactly where its sum does not wrap, or wraps to something too large. */
  lemma CheckIsSafeIff(d: Dims, pos: nat)
    requires Narrow(d)
    ensures (Passes(d, pos) ==> Inside(d, pos)) <==>
      Offset(d, pos) + d.KvDim() < TWO_64 || Offset(d, pos) + d.KvDim() - TWO_64 > LayerFloats(d)
    ensures d.LayerSize() < TWO_64 && pos < d.maxSeq ==> Passes(d, pos) && Inside(d, pos)
  {
    ProductBelow(d.kvHeads, d.headDim);
    if d.LayerSize() < TWO_64 && pos < d.maxSeq {
      OffsetExact(d, pos);
    }
    hide Dims.KvDim, Dims.WriteAt, Dims.LayerSize;
    var sum := Offset(d, pos) + d.KvDim();
    if sum >= TWO_64 {
      assert sum % TWO_64 == sum - TWO_64;
    }
  }

  lemma ProductBelow(a: nat, b: nat)
    requires a < TWO_32 && b < TWO_32
    ensures a * b < TWO_64
  {
    MulMonotone(a, TWO_32, b);
    MulMonotone(b, TWO_32, TWO_32);
  }

  /** A shape that can be allocated and a position whose copy passes the check and leaves the array, which is empty. */
  lemma CheckIsOverrun()
    ensures var d, pos := Dims(0x10_0000, 0x100_0000, 0x10_0000), 0xff_ffff;
      && Narrow(d) && Allocatable(1, d) && pos < d.maxSeq && LayerFloats(d) == 0
      && Passes(d, pos) && !Inside(d, pos)
  {
  }

  /** A wrapping sum alone does no harm: here it wraps, and the copy is refused. */
  lemma WrappedSumIsRefused()
    ensures var d, pos := Dims(3072, 0x8000_0000, 0x80_0000), 1431655765;
      && Narrow(d) && Allocatable(1, d) && pos < d.maxSeq
      && Offset(d, pos) + d.KvDim() >= TWO_64 && !Passes(d, pos)
  {
  }

  /**
   * Where the layer size of a cache wraps, the reader's second head starts 2^32 elements or more into the
   * layer. That lies behind the layer, unless the cache takes 2^64 bytes or more for all that.
   */
  lemma WrappedIsReadOutside(layers: U32, d: Dims, t: nat)
    requires Narrow(d) && Allocatable(layers, d) && d.LayerSize() >= TWO_64
    ensures d.kvHeads > 1 && d.ReadAt(1, t) >= TWO_32
    ensures 8 * layers * LayerFloats(d) < TWO_64 ==> LayerFloats(d) < d.ReadAt(1, t)
  {
    assert d.LayerSize() == d.kvHeads * (d.maxSeq * d.headDim);
    ProductBelow(d.maxSeq, d.headDim);
    if d.maxSeq * d.headDim < TWO_32 {
      ProductBelow(d.kvHeads, d.maxSeq * d.headDim);
      assert false;
    }
    if 8 * layers * LayerFloats(d) < TWO_64 {
      ArrayWithinLimit(layers, d);
    }
  }

  /** A cache that can be allocated and takes less than 2^64 bytes takes no more than the limit. */
  lemma ArrayWithinLimit(layers: U32, d: Dims)
    requires Allocatable(layers, d) && 8 * layers * LayerFloats(d) < TWO_64
    ensures 8 * LayerFloats(d) <= LIMIT
  {
    hide LayerFloats;
    var n := LayerFloats(d);
    assert layers * 2 * n * 4 == 8 * layers * n;
    MulMonotone(1, layers, n);
    assert 8 * layers * n == 8 * (layers * n);
  }

  /** A shape that can be allocated and wraps, with an array so large that the second head begins inside it. */
  lemma WrappedIsReadInside()
    ensures var d := Dims(18, 0x8000_0000, 0x2000_0000);
      && Narrow(d) && Allocatable(1, d) && d.LayerSize() >= TWO_64
      && d.ReadAt(1, 0) + d.headDim <= LayerFloats(d) == 0x2000_0000_0000_0000
  {
  }

  class HydroXLKVCache {
    var nLayers: U32
    var nKvHeads: U32
    var maxSeqLen: U32
    var headDim: U32
    var seqLen: nat
    var hasMemory: bool
    var kData: seq<Vec>
    var vData: seq<Vec>

    function Shape(): Dims
      reads this
    {
      Dims(nKvHeads, maxSeqLen, headDim)
    }

    function Contents(): Cache
      reads this
    {
      Cache(kData, vData)
    }

    /** The layer size did not wrap, so that the arrays are as long as the layout says. */
    predicate Exact()
      reads this
    {
      Shape().LayerSize() < TWO_64
    }

    ghost predicate Valid()
      reads this
    {
      && seqLen <= maxSeqLen
      && (hasMemory ==>
            && Allocatable(nLayers, Shape())
            && |kData| == |vData| == nLayers
            && Sized(kData, LayerFloats(Shape())) && Sized(vData, LayerFloats(Shape())))
    }

    constructor ()
      ensures Valid() && !hasMemory
    {
      nLayers, nKvHeads, maxSeqLen, headDim, seqLen := 0, 0, 0, 0, 0;
      hasMemory := false;
      kData, vData := [], [];
    }

    /** Running out of memory is not part of the model. */
    method Allocate(layers: U32, kvHeads: U32, maxSeq: U32, dim: U32) returns (ok: bool)
      requires Valid()
      modifies this
      ensures Valid()
      ensures ok <==> Allocatable(layers, Dims(kvHeads, maxSeq, dim))
      ensures ok ==> hasMemory && nLayers == layers && Shape() == Dims(kvHeads, maxSeq, dim) && seqLen == 0
      ensures ok ==> kData == vData == EmptyLayers(layers, LayerFloats(Shape()))
      ensures !ok ==> unchanged(this)
    {
      if layers == 0 || kvHeads == 0 || maxSeq == 0 || dim == 0 {
        return false;
      }
      var perLayer := kvHeads * maxSeq * dim % TWO_64;
      var totalBytes := layers * 2 * perLayer * 4 % TWO_64;
      if totalBytes > LIMIT {
        return false;
      }
      nLayers, nKvHeads, maxSeqLen, headDim, seqLen := layers, kvHeads, maxSeq, dim, 0;
      kData := EmptyLayers(layers, perLayer);
      vData := EmptyLayers(layers, perLayer);
      hasMemory := true;
      return true;
    }

    /** Forget every position; the shape stays. */
    method Reset()
      requires Valid()
      modifies this`seqLen, this`kData, this`vData
      ensures Valid() && seqLen == 0
      ensures hasMemory ==> kData == vData == EmptyLayers(nLayers, LayerFloats(Shape()))
    {
      seqLen := 0;
      kData := Zeroed(kData);
      vData := Zeroed(vData);
    }

    /**
     * Store the key and value of one position in one layer, and touch nothing else. In an exact cache
     * there is always room; in one whose layer size wrapped it takes the bounds check, which must not let
     * the copy leave the array.
     */
    method WriteKV(layer: nat, pos: nat, k: array<real>, v: array<real>) returns (ok: bool)
      requires Valid() && k.Length == v.Length == Shape().KvDim()
      requires hasMemory && layer < nLayers && pos < maxSeqLen && Passes(Shape(), pos) ==> Inside(Shape(), pos)
      modifies this`kData, this`vData
      ensures Valid()
      ensures ok <==> hasMemory && layer < nLayers && pos < maxSeqLen && Passes(Shape(), pos)
      ensures ok ==> kData == old(kData)[layer := Spliced(old(kData[layer]), Offset(Shape(), pos), k[..])]
      ensures ok ==> vData == old(vData)[layer := Spliced(old(vData[layer]), Offset(Shape(), pos), v[..])]
      ensures !ok ==> unchanged(this)
      ensures Exact() ==> (ok <==> hasMemory && layer < nLayers && pos < maxSeqLen)
      ensures Exact() && ok ==> Flat(old(kData[layer]), Shape()) && Flat(old(vData[layer]), Shape())
      ensures Exact() && ok ==> kData == old(kData)[layer := Write(old(kData[layer]), Shape(), pos, k[..])]
      ensures Exact() && ok ==> vData == old(vData)[layer := Write(old(vData[layer]), Shape(), pos, v[..])]
    {
      if !hasMemory || layer >= nLayers || pos >= maxSeqLen {
        return false;
      }
      hide Write, Dims.KvDim, Dims.LayerSize, Dims.WriteAt;
      var vecLen, offset := Shape().KvDim(), Offset(Shape(), pos);
      CheckIsSafeIff(Shape(), pos);
      if Add64(offset, vecLen) > |kData[layer]| {
        return false;
      }
      if Exact() {
        OffsetExact(Shape(), pos);
        WriteIs(kData[layer], Shape(), pos, k[..]);
        WriteIs(vData[layer], Shape(), pos, v[..]);
      }
      kData := kData[layer := kData[layer][..offset] + k[..] + kData[layer][offset + vecLen..]];
      vData := vData[layer := vData[layer][..offset] + v[..] + vData[layer][offset + vecLen..]];
      return true;
    }

    method AdvanceSeq() returns (ok: bool)
      requires Valid()
      modifies this`seqLen
      ensures Valid()
      ensures ok <==> hasMemory && old(seqLen) < maxSeqLen
      ensures seqLen == if ok then old(seqLen) + 1 else old(seqLen)
    {
      if !hasMemory || seqLen >= maxSeqLen {
        return false;
      }
      seqLen := seqLen + 1;
      return true;
    }
  }

  /** Every layer filled with zeros. */
  function Zeroed(data: seq<Vec>): (z: seq<Vec>)
    ensures |z| == |data|
    ensures forall n :: Sized(data, n) ==> Sized(z, n) && z == EmptyLayers(|data|, n)
  {
    seq(|data|, l requires 0 <= l < |data| => Zeros(|data[l]|))
  }

  lemma OffsetExact(d: Dims, pos: nat)
    requires pos < d.maxSeq
    ensures d.LayerSize() < TWO_64 ==> d.WriteAt(pos) % TWO_64 == d.WriteAt(pos)
    ensures d.LayerSize() < TWO_64 ==> d.WriteAt(pos) + d.KvDim() <= d.LayerSize() % TWO_64
  {
    WriteFits(d, pos);
  }

  lemma WriteIs(flat: Vec, d: Dims, pos: nat, v: Vec)
    requires Flat(flat, d) && pos < d.maxSeq && |v| == d.KvDim()
    ensures d.WriteAt(pos) + |v| <= |flat|
    ensures Write(flat, d, pos, v) == Spliced(flat, d.WriteAt(pos), v)
  {
    WriteFits(d, pos);
  }
}
