/** One incremental step of the transformer, layer by layer over scratch buffers and the cache. */
module HydroXLForwardPasses {
  import opened Arithmetic
  import opened ModelTypes
  import opened TransformerMath
  import opened Decoding
  import opened KvLayout
  import opened Incremental
  import opened DecodingAgreement
  import opened HydroXLOps
  import opened CausalAttention
  import opened HydroXLKVCaches

  /** The scratch vectors of a forward pass. */
  class Scratch {
    const hidden: array<real>
    const normed: array<real>
    const qBuf: array<real>
    const kBuf: array<real>
    const vBuf: array<real>
    const attnOut: array<real>
    const projOut: array<real>
    const gateBuf: array<real>
    const upBuf: array<real>
    const ffnBuf: array<real>
    const ffnOut: array<real>
    const scores: array<real>

    ghost function Buffers(): set<object> {
      {hidden, normed, qBuf, kBuf, vBuf, attnOut, projOut, gateBuf, upBuf, ffnBuf, ffnOut, scores}
    }

    /** No two buffers overlap. */
    ghost predicate Apart() {
      && hidden !in {normed, qBuf, kBuf, vBuf, attnOut, projOut, gateBuf, upBuf, ffnBuf, ffnOut, scores}
      && normed !in {qBuf, kBuf, vBuf, attnOut, projOut, gateBuf, upBuf, ffnBuf, ffnOut, scores}
      && qBuf !in {kBuf, vBuf, attnOut, projOut, gateBuf, upBuf, ffnBuf, ffnOut, scores}
      && kBuf !in {vBuf, attnOut, projOut, gateBuf, upBuf, ffnBuf, ffnOut, scores}
      && vBuf !in {attnOut, projOut, gateBuf, upBuf, ffnBuf, ffnOut, scores}
      && attnOut !in {projOut, gateBuf, upBuf, ffnBuf, ffnOut, scores}
      && projOut !in {gateBuf, upBuf, ffnBuf, ffnOut, scores}
      && gateBuf !in {upBuf, ffnBuf, ffnOut, scores}
      && upBuf !in {ffnBuf, ffnOut, scores}
      && ffnBuf !in {ffnOut, scores}
      && ffnOut != scores
    }

    predicate Fits(hp: HParams, maxSeq: nat) {
      && hidden.Length == normed.Length == projOut.Length == ffnOut.Length == hp.embd
      && qBuf.Length == attnOut.Length == hp.QDim()
      && kBuf.Length == vBuf.Length == hp.KvDim()
      && gateBuf.Length == upBuf.Length == ffnBuf.Length == hp.ff
      && scores.Length == maxSeq
    }

    constructor (hp: HParams, maxSeq: nat)
      ensures Apart() && Fits(hp, maxSeq) && fresh(Buffers())
    {
      hidden, normed := new real[hp.embd], new real[hp.embd];
      qBuf, kBuf, vBuf := new real[hp.QDim()], new real[hp.KvDim()], new real[hp.KvDim()];
      attnOut, projOut := new real[hp.QDim()], new real[hp.embd];
      gateBuf, upBuf, ffnBuf := new real[hp.ff], new real[hp.ff], new real[hp.ff];
      ffnOut, scores := new real[hp.embd], new real[maxSeq];
    }

    /** Normalise and project to query, key and value, with biases and rotation. */
    method Project(f: Maths, hp: HParams, w: LayerWeights, pos: nat, maxSeq: nat)
      requires Apart() && Fits(hp, maxSeq) && hp.Positive() && w.Shaped(hp)
      modifies normed, qBuf, kBuf, vBuf
      ensures qBuf[..] == QueryOf(f, hp, w, hidden[..], pos)
      ensures kBuf[..] == KeyOf(f, hp, w, hidden[..], pos)
      ensures vBuf[..] == ValueOf(f, hp, w, hidden[..])
    {
      hide RmsNorm, MatVec, AddBias, RotateHeads;
      var ok := RmsNormInto(f, hidden, w.attnNorm, normed, hp.eps);
      PositiveDims(hp);
      ok := MatVecInto(w.attnQ, normed, qBuf);
      ok := MatVecInto(w.attnK, normed, kBuf);
      ok := MatVecInto(w.attnV, normed, vBuf);
      AddBiasInto(qBuf, w.qBias);
      AddBiasInto(kBuf, w.kBias);
      AddBiasInto(vBuf, w.vBias);
      ok := RopeApply(f, qBuf, hp.heads, kBuf, hp.kvHeads, hp.headDim, pos, hp.ropeBase);
    }

    /** Project what attention returned and add it to the hidden vector. */
    method AddAttention(hp: HParams, w: LayerWeights, maxSeq: nat)
      requires Apart() && Fits(hp, maxSeq) && hp.Positive() && w.Shaped(hp)
      modifies projOut, hidden
      ensures hidden[..] == Add(old(hidden[..]), MatVec(w.attnOut, attnOut[..], hp.embd))
    {
      hide MatVec, Add;
      PositiveDims(hp);
      var ok := MatVecInto(w.attnOut, attnOut, projOut);
      ResidualAdd(hidden, projOut);
    }

    method AddFeedForward(f: Maths, hp: HParams, w: LayerWeights, maxSeq: nat)
      requires Apart() && Fits(hp, maxSeq) && hp.Positive() && w.Shaped(hp)
      modifies normed, gateBuf, upBuf, ffnBuf, ffnOut, hidden
      ensures hidden[..] == FeedForward(f, hp, w, old(hidden[..]))
    {
      hide RmsNorm, MatVec, Swiglu, Add;
      var ok := RmsNormInto(f, hidden, w.ffnNorm, normed, hp.eps);
      ok := MatVecInto(w.gate, normed, gateBuf);
      ok := MatVecInto(w.up, normed, upBuf);
      SwigluInto(f, gateBuf, upBuf, ffnBuf);
      ok := MatVecInto(w.down, ffnBuf, ffnOut);
      ResidualAdd(hidden, ffnOut);
    }
  }

  class HydroXLForwardPass {
    /** The loaded model, or none while nothing is attached. */
    var model: Option<Model>
    var cache: HydroXLKVCache?
    var scratch: Scratch?

    ghost predicate Valid()
      reads this, scratch, cache
    {
      && (scratch != null ==> scratch.Apart())
      && (model.Some? ==> model.value.Shaped())
      && (cache != null ==> cache.Valid())
      && (model.Some? && cache != null && cache.hasMemory ==> Matches(model.value, cache))
    }

    constructor ()
      ensures Valid() && model.None? && cache == null && scratch == null
    {
      model, cache, scratch := None, null, null;
    }

    method Attach(m: Option<Model>, c: HydroXLKVCache?)
      requires Valid()
      requires m.Some? ==> m.value.Shaped()
      requires c != null ==> c.Valid()
      requires m.Some? && c != null && c.hasMemory ==> Matches(m.value, c)
      modifies this`model, this`cache
      ensures Valid() && model == m && cache == c
    {
      model, cache := m, c;
    }

    /** When a step succeeds. */
    ghost predicate Accepts(token: nat, pos: nat)
      reads this, cache
    {
      && model.Some? && cache != null && cache.hasMemory
      && token < model.value.hp.vocab && pos < cache.maxSeqLen && Attendable(model.value.hp) && cache.Exact()
    }

    /** Size the scratch vectors; what they held before does not matter. */
    method Prepare(hp: HParams, maxSeq: nat) returns (s: Scratch)
      requires scratch != null ==> scratch.Apart()
      modifies this`scratch
      ensures s == scratch && s.Apart() && s.Fits(hp, maxSeq)
      ensures s == old(scratch) || (fresh(s) && fresh(s.Buffers()))
    {
      if scratch == null || !scratch.Fits(hp, maxSeq) {
        scratch := new Scratch(hp, maxSeq);
      }
      return scratch;
    }

    /**
     * One token at one position: the logits behind it, and the cache one position longer. A step that
     * would touch memory outside its vectors or the cache's arrays is excluded.
     */
    method Forward(f: Maths, token: nat, pos: nat) returns (ok: bool, logits: Vec)
      requires Valid()
      requires model.Some? && cache != null && cache.hasMemory
               && token < model.value.hp.vocab && pos < cache.maxSeqLen ==>
        StaysInside(model.value, cache, pos)
      modifies this`scratch, if scratch == null then {} else scratch.Buffers(), cache
      ensures Valid() && model == old(model) && cache == old(cache)
      ensures scratch == old(scratch) || (fresh(scratch) && fresh(scratch.Buffers()))
      ensures cache != null ==> cache.hasMemory == old(cache.hasMemory) && cache.Shape() == old(cache.Shape())
      ensures ok <==> old(Accepts(token, pos))
      ensures ok ==> (Ready(model.value) && old(cache.Contents()).Fits(model.value, cache.Shape()))
      ensures ok ==> logits == StepLogits(f, model.value, cache.Shape(), old(cache.Contents()), token, pos)
      ensures ok ==> cache.Contents() == StepCache(f, model.value, cache.Shape(), old(cache.Contents()), token, pos)
      ensures model.Some? && cache != null && (token >= model.value.hp.vocab || pos >= cache.maxSeqLen) ==>
        cache.Contents() == old(cache.Contents())
      ensures !ok && model.Some? && cache != null && cache.hasMemory
              && token < model.value.hp.vocab && pos < cache.maxSeqLen ==>
        StrayWrite(f, model.value, cache.Shape(), old(cache.Contents()), cache.Contents(), token, pos)
    {
      hide Attendable, StepLogits, StepCache, StrayWrite, EmptyLayers, CacheBytes, Scratch.Apart, Model.Shaped,
        Dims.LayerSize;
      logits := [];
      if model.None? || cache == null || !cache.hasMemory {
        return false, [];
      }
      var s := Prepare(model.value.hp, cache.maxSeqLen);
      ok, logits := RunStep(f, model.value, s, cache, token, pos);
    }
  }

  lemma ContentsFit(m: Model, cache: HydroXLKVCache)
    requires m.Shaped() && cache.Valid() && cache.hasMemory && Matches(m, cache) && cache.Exact()
    ensures cache.Contents().Fits(m, cache.Shape())
  {
  }

  method RunStep(f: Maths, m: Model, s: Scratch, cache: HydroXLKVCache, token: nat, pos: nat) returns (ok: bool,
                 logits: Vec)
    requires m.Shaped() && cache.Valid() && cache.hasMemory && Matches(m, cache)
    requires s.Apart() && s.Fits(m.hp, cache.maxSeqLen)
    requires token < m.hp.vocab && pos < cache.maxSeqLen ==> StaysInside(m, cache, pos)
    modifies s.Buffers(), cache`kData, cache`vData
    ensures cache.Valid()
    ensures ok <==> token < m.hp.vocab && pos < cache.maxSeqLen && Attendable(m.hp) && cache.Exact()
    ensures ok ==> Ready(m) && old(cache.Contents()).Fits(m, cache.Shape())
    ensures ok ==> logits == StepLogits(f, m, cache.Shape(), old(cache.Contents()), token, pos)
    ensures ok ==> cache.Contents() == StepCache(f, m, cache.Shape(), old(cache.Contents()), token, pos)
    ensures token >= m.hp.vocab || pos >= cache.maxSeqLen ==> cache.Contents() == old(cache.Contents())
    ensures !ok && token < m.hp.vocab && pos < cache.maxSeqLen ==>
      StrayWrite(f, m, cache.Shape(), old(cache.Contents()), cache.Contents(), token, pos)
  {
    hide FirstLayers, Logits, Attendable, StaysInside, StrayWrite;
    if cache.Exact() {
      ContentsFit(m, cache);
    }
    ok := EmbedLookup(m.embedding, token, m.hp.vocab, s.hidden);
    if !ok {
      return false, [];
    }
    ok := RunLayers(f, m, s, cache, token, pos);
    if !ok {
      return false, [];
    }
    logits := Finish(f, m, s, cache.maxSeqLen);
  }

  /** A cache with the key and value of one position of layer l stored where the writer puts them. */
  ghost predicate Strayed(f: Maths, m: Model, d: Dims, before: Cache, after: Cache, x: Vec, pos: nat, l: nat)
    requires m.Shaped() && |x| == m.hp.embd && l < m.hp.layers
  {
    && |before.k| == |before.v| == m.hp.layers
    && Offset(d, pos) + m.hp.KvDim() <= |before.k[l]| == |before.v[l]|
    && after.k == before.k[l := Spliced(before.k[l], Offset(d, pos), KeyOf(f, m.hp, m.layers[l], x, pos))]
    && after.v == before.v[l := Spliced(before.v[l], Offset(d, pos), ValueOf(f, m.hp, m.layers[l], x))]
  }

  /**
   * What a step leaves behind that fails although token and position are fine: the first layer's key and
   * value, or nothing where the write was refused.
   */
  ghost predicate StrayWrite(f: Maths, m: Model, d: Dims, before: Cache, after: Cache, token: nat, pos: nat)
    requires m.Shaped() && token < m.hp.vocab
  {
    if Passes(d, pos) then Strayed(f, m, d, before, after, Embedding(m, token), pos, 0) else after == before
  }

  /** Every layer in turn, on the hidden vector and the cache. */
  method RunLayers(f: Maths, m: Model, s: Scratch, cache: HydroXLKVCache, token: nat, pos: nat) returns (ok: bool)
    requires m.Shaped() && cache.Valid() && cache.hasMemory && Matches(m, cache)
    requires cache.Exact() ==> cache.Contents().Fits(m, cache.Shape())
    requires s.Apart() && s.Fits(m.hp, cache.maxSeqLen) && token < m.hp.vocab && s.hidden[..] == Embedding(m, token)
    requires pos < cache.maxSeqLen ==> StaysInside(m, cache, pos)
    modifies s.Buffers(), cache`kData, cache`vData
    ensures cache.Valid()
    ensures ok <==> Attendable(m.hp) && pos < cache.maxSeqLen && cache.Exact()
    ensures ok ==>
      FirstLayers(f, m, cache.Shape(), old(cache.Contents()), Embedding(m, token), pos, m.hp.layers).cache
      == cache.Contents()
    ensures ok ==>
      s.hidden[..] == FirstLayers(f, m, cache.Shape(), old(cache.Contents()), Embedding(m, token), pos, m.hp.layers).x
    ensures pos >= cache.maxSeqLen ==> cache.Contents() == old(cache.Contents())
    ensures !ok && pos < cache.maxSeqLen ==>
      StrayWrite(f, m, cache.Shape(), old(cache.Contents()), cache.Contents(), token, pos)
  {
    hide NextLayer, Embedding, Strayed, Attendable, StaysInside, Passes, BuffersExact;
    ghost var d, c0, x0 := cache.Shape(), cache.Contents(), Embedding(m, token);
    if pos < cache.maxSeqLen {
      StaysInsideBuffers(m, cache, pos);
    }
    var l := 0;
    while l < m.hp.layers
      invariant 0 <= l <= m.hp.layers && cache.Valid() && cache.Shape() == d
      invariant cache.Exact() ==> cache.Contents().Fits(m, d)
      invariant l > 0 ==> Attendable(m.hp) && pos < d.maxSeq && cache.Exact()
      invariant l == 0 ==> cache.Contents() == c0 && s.hidden[..] == x0
      invariant Attendable(m.hp) && pos < d.maxSeq && cache.Exact() ==>
        Step(s.hidden[..], cache.Contents()) == FirstLayers(f, m, d, c0, x0, pos, l)
      invariant pos < d.maxSeq ==> StaysInside(m, cache, pos)
    {
      ok := RunLayer(f, m, s, cache, pos, l);
      if !ok {
        return false;
      }
      l := l + 1;
      ExactStaysInside(m, cache, pos);
    }
    return true;
  }

  lemma ExactStaysInside(m: Model, cache: HydroXLKVCache, pos: nat)
    requires cache.Exact() && BuffersExact(m.hp)
    ensures StaysInside(m, cache, pos)
  {
  }

  /** Compute the query, and store the key and value of the position. */
  method StoreLayer(f: Maths, m: Model, s: Scratch, cache: HydroXLKVCache, pos: nat, l: nat) returns (ok: bool)
    requires m.Shaped() && cache.Valid() && cache.hasMemory && Matches(m, cache)
    requires cache.Exact() ==> cache.Contents().Fits(m, cache.Shape())
    requires s.Apart() && s.Fits(m.hp, cache.maxSeqLen) && l < m.hp.layers
    requires pos < cache.maxSeqLen ==> StaysInside(m, cache, pos)
    modifies s.normed, s.qBuf, s.kBuf, s.vBuf, cache`kData, cache`vData
    ensures cache.Valid() && (cache.Exact() ==> cache.Contents().Fits(m, cache.Shape()))
    ensures ok <==> pos < cache.maxSeqLen && Passes(cache.Shape(), pos)
    ensures cache.Exact() && pos < cache.maxSeqLen ==> ok
    ensures s.qBuf[..] == QueryOf(f, m.hp, m.layers[l], s.hidden[..], pos)
    ensures !ok ==> cache.Contents() == old(cache.Contents())
    ensures ok ==> Strayed(f, m, cache.Shape(), old(cache.Contents()), cache.Contents(), s.hidden[..], pos, l)
    ensures ok && cache.Exact() ==>
      cache.Contents() == Written(f, m, cache.Shape(), Step(s.hidden[..], old(cache.Contents())), pos, l)
  {
    assert cache.Shape().KvDim() == m.hp.KvDim();
    hide QueryOf, KeyOf, ValueOf, Write, Spliced, CacheBytes, Dims.LayerSize, Dims.WriteAt, Dims.KvDim,
      HParams.KvDim, HParams.QDim;
    s.Project(f, m.hp, m.layers[l], pos, cache.maxSeqLen);
    if pos < cache.maxSeqLen {
      CheckIsSafeIff(cache.Shape(), pos);
    }
    ok := cache.WriteKV(l, pos, s.kBuf, s.vBuf);
  }

  method RunLayer(f: Maths, m: Model, s: Scratch, cache: HydroXLKVCache, pos: nat, l: nat) returns (ok: bool)
    requires m.Shaped() && cache.Valid() && cache.hasMemory && Matches(m, cache)
    requires cache.Exact() ==> cache.Contents().Fits(m, cache.Shape())
    requires s.Apart() && s.Fits(m.hp, cache.maxSeqLen) && l < m.hp.layers
    requires pos < cache.maxSeqLen ==> StaysInside(m, cache, pos)
    modifies s.Buffers(), cache`kData, cache`vData
    ensures cache.Valid() && (cache.Exact() ==> cache.Contents().Fits(m, cache.Shape()))
    ensures ok <==> Attendable(m.hp) && pos < cache.maxSeqLen && cache.Exact()
    ensures ok ==> var next := NextLayer(f, m, cache.Shape(), Step(old(s.hidden[..]), old(cache.Contents())), pos, l);
                   s.hidden[..] == next.x && cache.Contents() == next.cache
    ensures pos >= cache.maxSeqLen ==> cache.Contents() == old(cache.Contents())
    ensures !ok && pos < cache.maxSeqLen ==>
      if Passes(cache.Shape(), pos)
      then Strayed(f, m, cache.Shape(), old(cache.Contents()), cache.Contents(), old(s.hidden[..]), pos, l)
      else cache.Contents() == old(cache.Contents())
  {
    hide QueryOf, KeyOf, ValueOf, Write, SeenRows, Attend, FeedForward, MatVec, Add, EmptyLayers, CacheBytes, Written,
      LayerFloats, Dims.LayerSize, Spliced, Allocatable, Strayed, Passes, Inside;
    var w, hp, d := m.layers[l], m.hp, cache.Shape();
    ok := StoreLayer(f, m, s, cache, pos, l);
    if !ok {
      return false;
    }
    var scale := f.div(1.0, f.sqrt(hp.headDim as real));
    ok := CausalAttentionInto(f, s.qBuf, cache.kData[l], cache.vData[l], s.attnOut, pos + 1, hp.heads, d,
                              scale, s.scores);
    if !ok {
      return false;
    }
    s.AddAttention(hp, w, cache.maxSeqLen);
    s.AddFeedForward(f, hp, w, cache.maxSeqLen);
  }

  /** Final normalisation and the language-model head. */
  method Finish(f: Maths, m: Model, s: Scratch, maxSeq: nat) returns (logits: Vec)
    requires m.Shaped() && s.Apart() && s.Fits(m.hp, maxSeq)
    modifies s.normed
    ensures logits == Logits(f, m, s.hidden[..])
  {
    hide RmsNorm, MatVec;
    var out := new real[m.hp.vocab];
    var ok := RmsNormInto(f, s.hidden, m.outputNorm, s.normed, m.hp.eps);
    ok := MatVecInto(m.lmHead, s.normed, out);
    logits := out[..];
  }

  /** The source sizes its vectors in 32 bits. */
  predicate BuffersExact(hp: HParams) {
    hp.QDim() < TWO_32 && hp.KvDim() < TWO_32
  }

  /** With 32-bit sizes that loading accepts and groups that attention accepts, no vector's size wraps. */
  lemma BuffersAreExact(hp: HParams)
    requires hp.Divided() && Attendable(hp) && hp.embd < TWO_32
    ensures BuffersExact(hp)
  {
    assert hp.embd == hp.embd / hp.heads * hp.heads + hp.embd % hp.heads;
    var size := hp.heads / hp.kvHeads;
    assert hp.heads == size * hp.kvHeads;
    MulMonotone(1, size, hp.kvHeads);
    MulMonotone(hp.kvHeads, hp.heads, hp.headDim);
  }

  /**
   * A step touches nothing outside its vectors and the arrays of the cache. In a cache whose layer size
   * wrapped, the write has to be refused or to fit, and attention has to be refused before it reads.
   */
  predicate StaysInside(m: Model, cache: HydroXLKVCache, pos: nat)
    reads cache
  {
    && BuffersExact(m.hp)
    && (cache.Exact() || !Passes(cache.Shape(), pos) || (Inside(cache.Shape(), pos) && !Attendable(m.hp)))
  }

  /** The cache was allocated from the model's own sizes. */
  predicate Matches(m: Model, cache: HydroXLKVCache)
    reads cache
  {
    cache.nLayers == m.hp.layers && cache.nKvHeads == m.hp.kvHeads && cache.headDim == m.hp.headDim
  }

  lemma PositiveDims(hp: HParams)
    requires hp.Positive()
    ensures hp.QDim() > 0 && hp.KvDim() > 0
  {
    MulMonotone(1, hp.heads, hp.headDim);
    MulMonotone(1, hp.kvHeads, hp.headDim);
  }

  /** After a reset the cache is the empty one. */
  lemma ResetIsEmpty(m: Model, cache: HydroXLKVCache)
    requires m.Shaped() && cache.Valid() && cache.hasMemory && Matches(m, cache) && cache.Exact()
    requires cache.kData == cache.vData == EmptyLayers(cache.nLayers, LayerFloats(cache.Shape()))
    ensures cache.Contents() == EmptyCache(m, cache.Shape())
  {
  }

  /** The cache and the logits behind these tokens. */
  ghost predicate Fed(f: Maths, m: Model, d: Dims, c: Cache, logits: Vec, tokens: seq<nat>) {
    && d.Positive() && d.kvHeads == m.hp.kvHeads && d.headDim == m.hp.headDim
    && if tokens == [] then c == EmptyCache(m, d)
       else Decodable(m, d, tokens) && c == CacheAfter(f, m, d, tokens) && logits == LogitsAfter(f, m, d, tokens)
  }

  lemma FedOneMore(f: Maths, m: Model, d: Dims, c: Cache, logits: Vec, tokens: seq<nat>, pos: nat)
    requires pos < |tokens| && pos < d.maxSeq && Ready(m) && Known(m, tokens[..pos]) && tokens[pos] < m.hp.vocab
    requires Fed(f, m, d, c, logits, tokens[..pos])
    ensures c.Fits(m, d) && Known(m, tokens[..pos + 1])
    ensures Fed(f, m, d, StepCache(f, m, d, c, tokens[pos], pos),
                StepLogits(f, m, d, c, tokens[pos], pos), tokens[..pos + 1])
  {
    hide StepLogits, StepCache, EmptyCache;
    var next := tokens[..pos + 1];
    assert next[..pos] == tokens[..pos] && |next| - 1 == pos && next[pos] == tokens[pos];
    assert c == CacheAfter(f, m, d, tokens[..pos]);
    assert CacheAfter(f, m, d, next) == StepCache(f, m, d, c, tokens[pos], pos);
    assert LogitsAfter(f, m, d, next) == StepLogits(f, m, d, c, tokens[pos], pos);
  }

  /** A token the model does not know, or a position the cache does not have, ends the feeding. */
  predicate Feedable(m: Model, d: Dims, tokens: seq<nat>) {
    tokens == [] || (|tokens| <= d.maxSeq && Known(m, tokens) && Attendable(m.hp))
  }

  lemma FeedableStep(m: Model, d: Dims, tokens: seq<nat>, pos: nat)
    requires pos < |tokens| && Feedable(m, d, tokens[..pos])
    ensures Feedable(m, d, tokens[..pos + 1]) <==> tokens[pos] < m.hp.vocab && pos < d.maxSeq && Attendable(m.hp)
    ensures !Feedable(m, d, tokens[..pos + 1]) ==> !Feedable(m, d, tokens)
  {
    hide Attendable;
    assert tokens[..pos + 1][pos] == tokens[pos];
  }

  predicate ExactDims(d: Dims) {
    d.LayerSize() < TWO_64
  }

  /** The pass is attached to this model and a cache of this shape. */
  ghost predicate Holding(pass: HydroXLForwardPass, m: Model, cache: HydroXLKVCache, d: Dims)
    reads pass, pass.scratch, pass.cache
  {
    pass.Valid() && pass.model == Some(m) && pass.cache == cache && pass.cache.hasMemory && pass.cache.Shape() == d
  }

  /** One more token, at the position behind those fed so far. */
  method FeedOne(f: Maths, pass: HydroXLForwardPass, tokens: seq<nat>, pos: nat, ghost before: Vec,
                 ghost m: Model, ghost cache: HydroXLKVCache, ghost d: Dims)
    returns (ok: bool, logits: Vec)
    requires Holding(pass, m, cache, d) && pos < |tokens| && Feedable(m, d, tokens[..pos])
    requires ExactDims(d) ==> Fed(f, m, d, cache.Contents(), before, tokens[..pos])
    requires tokens[pos] < m.hp.vocab && pos < d.maxSeq ==> StaysInside(m, cache, pos)
    modifies pass`scratch, if pass.scratch == null then {} else pass.scratch.Buffers(), cache
    ensures Holding(pass, m, cache, d)
    ensures pass.scratch == old(pass.scratch) || (fresh(pass.scratch) && fresh(pass.scratch.Buffers()))
    ensures ok <==> Feedable(m, d, tokens[..pos + 1]) && ExactDims(d)
    ensures ok ==> Fed(f, m, d, cache.Contents(), logits, tokens[..pos + 1])
    ensures !ok ==> !Feedable(m, d, tokens) || !ExactDims(d)
    ensures ok ==> tokens[pos] < m.hp.vocab && pos < d.maxSeq
  {
    hide StaysInside, StepLogits, StepCache, Attendable, Fed, Feedable, CacheBytes, Model.Shaped, Cache.Fits;
    FeedableStep(m, d, tokens, pos);
    ghost var c := cache.Contents();
    ok, logits := pass.Forward(f, tokens[pos], pos);
    if ok {
      FedReady(m, d, tokens, pos);
      FedOneMore(f, m, d, c, before, tokens, pos);
    }
  }

  lemma FedReady(m: Model, d: Dims, tokens: seq<nat>, pos: nat)
    requires pos < |tokens| && Feedable(m, d, tokens[..pos])
    ensures Known(m, tokens[..pos])
  {
  }

  /** Forward at positions 0, 1, 2, ..., from an empty cache, until the flag read before a token is up. */
  method FeedAll(f: Maths, pass: HydroXLForwardPass, tokens: seq<nat>, cancel: nat -> bool, ghost m: Model,
                 ghost cache: HydroXLKVCache, ghost d: Dims)
    returns (ok: bool, logits: Vec)
    requires Holding(pass, m, cache, d) && (ExactDims(d) ==> Fed(f, m, d, cache.Contents(), [], []))
    requires tokens != [] && !cancel(0) && tokens[0] < m.hp.vocab && 0 < d.maxSeq ==> StaysInside(m, cache, 0)
    modifies pass`scratch, if pass.scratch == null then {} else pass.scratch.Buffers(), cache
    ensures Holding(pass, m, cache, d)
    ensures ok <==> Feedable(m, d, tokens) && (tokens == [] || ExactDims(d))
                    && forall i :: 0 <= i < |tokens| ==> !cancel(i)
    ensures ok && ExactDims(d) ==> Fed(f, m, d, cache.Contents(), logits, tokens)
  {
    hide Holding, Fed, Feedable, StaysInside, ExactDims, BuffersExact;
    logits := [];
    var pos := 0;
    assert tokens[..0] == [] && Feedable(m, d, []) by {
      NothingFeedable(m, d);
    }
    while pos < |tokens|
      invariant 0 <= pos <= |tokens| && Holding(pass, m, cache, d) && Feedable(m, d, tokens[..pos])
      invariant pass.scratch == old(pass.scratch) || (fresh(pass.scratch) && fresh(pass.scratch.Buffers()))
      invariant ExactDims(d) ==> Fed(f, m, d, cache.Contents(), logits, tokens[..pos])
      invariant pos > 0 ==> ExactDims(d) && BuffersExact(m.hp)
      invariant pos == 0 && tokens != [] && !cancel(0) && tokens[0] < m.hp.vocab && 0 < d.maxSeq ==>
        StaysInside(m, cache, 0)
      invariant forall i :: 0 <= i < pos ==> !cancel(i)
    {
      if cancel(pos) {
        return false, [];
      }
      if pos > 0 {
        HeldIsExact(pass, m, cache, d, pos);
      } else if tokens[0] < m.hp.vocab && 0 < d.maxSeq {
        StaysInsideBuffers(m, cache, 0);
      }
      ok, logits := FeedOne(f, pass, tokens, pos, logits, m, cache, d);
      if !ok {
        return false, [];
      }
      pos := pos + 1;
    }
    assert tokens[..pos] == tokens;
    return true, logits;
  }

  lemma HeldIsExact(pass: HydroXLForwardPass, m: Model, cache: HydroXLKVCache, d: Dims, pos: nat)
    requires Holding(pass, m, cache, d) && ExactDims(d) && BuffersExact(m.hp)
    ensures StaysInside(m, cache, pos)
  {
  }

  lemma StaysInsideBuffers(m: Model, cache: HydroXLKVCache, pos: nat)
    requires StaysInside(m, cache, pos)
    ensures BuffersExact(m.hp)
  {
  }

  lemma NothingFeedable(m: Model, d: Dims)
    ensures Feedable(m, d, [])
  {
  }

  /**
   * The engine's prefill: reset, then feed the prompt at positions 0, 1, 2, ..., where `cancel` is what
   * the flag reads before each token. The logits are those of the prompt computed from scratch whenever
   * the cache's layouts agree.
   */
  method Prefill(f: Maths, pass: HydroXLForwardPass, tokens: seq<nat>, limit: nat,
                 cancel: nat -> bool) returns (ok: bool, logits: Vec)
    requires pass.Valid() && pass.model.Some? && pass.cache != null && pass.cache.hasMemory
    requires limit <= pass.cache.maxSeqLen
    requires 0 < |tokens| <= limit && !cancel(0) && tokens[0] < pass.model.value.hp.vocab ==>
      StaysInside(pass.model.value, pass.cache, 0)
    modifies pass`scratch, if pass.scratch == null then {} else pass.scratch.Buffers(), pass.cache
    ensures pass.Valid() && pass.model == old(pass.model) && pass.cache == old(pass.cache)
    ensures ok <==> 0 < |tokens| <= limit && Known(pass.model.value, tokens) && Attendable(pass.model.value.hp)
                    && pass.cache.Exact() && forall i :: 0 <= i < |tokens| ==> !cancel(i)
    ensures ok ==> Decodable(pass.model.value, pass.cache.Shape(), tokens)
    ensures ok ==> logits == LogitsAfter(f, pass.model.value, pass.cache.Shape(), tokens)
    ensures ok && Agrees(pass.cache.Shape()) ==> logits == FromScratch(f, pass.model.value, tokens)
  {
    if |tokens| > limit {
      return false, [];
    }
    ghost var m, d := pass.model.value, pass.cache.Shape();
    pass.cache.Reset();
    if ExactDims(d) {
      ResetIsEmpty(m, pass.cache);
    }
    hide StepLogits, StepCache, FromScratch, EmptyCache, LogitsAfter, CacheAfter, Attendable;
    ok, logits := FeedAll(f, pass, tokens, cancel, m, pass.cache, d);
    if !ok || tokens == [] {
      return false, [];
    }
    if Agrees(d) {
      IncrementalIsFromScratch(f, m, d, tokens);
    }
  }
}
