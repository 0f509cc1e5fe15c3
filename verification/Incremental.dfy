/** One step of decoding over the cache, and why it comes to the same as starting from scratch. */
module Incremental {
  import opened TransformerMath
  import opened Decoding
  import opened KvLayout

  /** The flat key and value arrays, one for each layer. */
  datatype Cache = Cache(k: seq<Vec>, v: seq<Vec>)
  {
    predicate Fits(m: Model, d: Dims) {
      && d.Positive() && d.kvHeads == m.hp.kvHeads && d.headDim == m.hp.headDim
      && |k| == |v| == m.hp.layers
      && forall l :: 0 <= l < |k| ==> Flat(k[l], d) && Flat(v[l], d)
    }
  }

  function SeenRows(flat: Vec, d: Dims, n: nat): (rows: seq<Row>)
    requires Flat(flat, d) && n <= d.maxSeq
    ensures |rows| == n && Rows(rows, d.kvHeads, d.headDim)
  {
    seq(n, t requires 0 <= t < n && Flat(flat, d) && n <= d.maxSeq => Seen(flat, d, t))
  }

  /** The hidden vector behind the first l layers, and the cache they leave. */
  datatype Step = Step(x: Vec, cache: Cache)

  function FirstLayers(f: Maths, m: Model, d: Dims, cache: Cache, x: Vec, pos: nat, l: nat): (s: Step)
    requires Ready(m) && cache.Fits(m, d) && |x| == m.hp.embd && pos < d.maxSeq && l <= m.hp.layers
    ensures |s.x| == m.hp.embd && s.cache.Fits(m, d)
    decreases l
  {
    if l == 0 then Step(x, cache)
    else NextLayer(f, m, d, FirstLayers(f, m, d, cache, x, pos, l - 1), pos, l - 1)
  }

  /** The cache once layer l has stored the key and value of the position. */
  function Written(f: Maths, m: Model, d: Dims, s: Step, pos: nat, l: nat): (c: Cache)
    requires m.Shaped() && s.cache.Fits(m, d) && |s.x| == m.hp.embd && pos < d.maxSeq && l < m.hp.layers
    ensures c.Fits(m, d)
  {
    var k := Write(s.cache.k[l], d, pos, KeyOf(f, m.hp, m.layers[l], s.x, pos));
    var v := Write(s.cache.v[l], d, pos, ValueOf(f, m.hp, m.layers[l], s.x));
    Cache(s.cache.k[l := k], s.cache.v[l := v])
  }

  /** Layer l: write its key and value, then attend over what the cache holds up to the position. */
  function NextLayer(f: Maths, m: Model, d: Dims, s: Step, pos: nat, l: nat): (s': Step)
    requires Ready(m) && s.cache.Fits(m, d) && |s.x| == m.hp.embd && pos < d.maxSeq && l < m.hp.layers
    ensures |s'.x| == m.hp.embd && s'.cache.Fits(m, d)
  {
    var c := Written(f, m, d, s, pos, l);
    Step(Block(f, m.hp, m.layers[l], s.x, pos, SeenRows(c.k[l], d, pos + 1), SeenRows(c.v[l], d, pos + 1)), c)
  }

  // ---------------------------------------------------------------------------------------------
  // The cache holds the keys and values of the prefix
  // ---------------------------------------------------------------------------------------------

  /** Layer l of the cache holds the keys and values of these hidden vectors. */
  ghost predicate LayerHolds(f: Maths, hp: HParams, w: LayerWeights, d: Dims, k: Vec, v: Vec, xs: seq<Vec>)
    requires hp.Positive() && w.Shaped(hp) && Sized(xs, hp.embd) && Flat(k, d) && Flat(v, d)
  {
    && |xs| <= d.maxSeq
    && (forall t :: 0 <= t < |xs| ==> Stored(k, d, t) == KeyOf(f, hp, w, xs[t], t))
    && (forall t :: 0 <= t < |xs| ==> Stored(v, d, t) == ValueOf(f, hp, w, xs[t]))
  }

  ghost predicate Holds(f: Maths, m: Model, d: Dims, cache: Cache, tokens: seq<nat>)
    requires Ready(m) && cache.Fits(m, d) && Known(m, tokens)
  {
    forall l :: 0 <= l < m.hp.layers ==>
      LayerHolds(f, m.hp, m.layers[l], d, cache.k[l], cache.v[l], Pass(f, m, tokens, l))
  }

  predicate Agrees(d: Dims) {
    d.kvHeads == 1 || d.maxSeq == 1
  }

  /** Writing the next position extends what a layer holds by one vector. */
  lemma WriteExtends(f: Maths, hp: HParams, w: LayerWeights, d: Dims, k: Vec, v: Vec, xs: seq<Vec>, x: Vec)
    requires hp.Positive() && w.Shaped(hp) && Sized(xs, hp.embd) && Flat(k, d) && Flat(v, d) && |x| == hp.embd
    requires d.kvHeads == hp.kvHeads && d.headDim == hp.headDim && |xs| < d.maxSeq
    requires LayerHolds(f, hp, w, d, k, v, xs)
    ensures LayerHolds(f, hp, w, d, Write(k, d, |xs|, KeyOf(f, hp, w, x, |xs|)),
                       Write(v, d, |xs|, ValueOf(f, hp, w, x)), xs + [x])
  {
    hide Write, Stored, KeyOf, ValueOf;
    var k', v' := Write(k, d, |xs|, KeyOf(f, hp, w, x, |xs|)), Write(v, d, |xs|, ValueOf(f, hp, w, x));
    forall t: nat | t <= |xs|
      ensures Stored(k', d, t) == KeyOf(f, hp, w, (xs + [x])[t], t)
      ensures Stored(v', d, t) == ValueOf(f, hp, w, (xs + [x])[t])
    {
      StoredWrite(k, d, |xs|, KeyOf(f, hp, w, x, |xs|), t);
      StoredWrite(v, d, |xs|, ValueOf(f, hp, w, x), t);
    }
  }

  /** What a layer holds is what attention sees. */
  lemma HeldIsSeen(f: Maths, hp: HParams, w: LayerWeights, d: Dims, k: Vec, v: Vec, xs: seq<Vec>)
    requires hp.Positive() && w.Shaped(hp) && Sized(xs, hp.embd) && Flat(k, d) && Flat(v, d)
    requires d.kvHeads == hp.kvHeads && d.headDim == hp.headDim && Agrees(d)
    requires LayerHolds(f, hp, w, d, k, v, xs)
    ensures SeenRows(k, d, |xs|) == KeyRows(f, hp, w, xs) && SeenRows(v, d, |xs|) == ValueRows(f, hp, w, xs)
  {
    hide Seen, Stored, KeyOf, ValueOf, Heads;
    forall t: nat | t < |xs|
      ensures SeenRows(k, d, |xs|)[t] == KeyRows(f, hp, w, xs)[t]
      ensures SeenRows(v, d, |xs|)[t] == ValueRows(f, hp, w, xs)[t]
    {
      SeenIsStored(k, d, t);
      SeenIsStored(v, d, t);
    }
  }

  /** One layer of a step computes the last position of that layer over the whole prefix. */
  lemma NextLayerIsLast(f: Maths, m: Model, d: Dims, s: Step, xs: seq<Vec>, l: nat)
    requires Ready(m) && s.cache.Fits(m, d) && Sized(xs, m.hp.embd) && l < m.hp.layers && Agrees(d)
    requires |xs| < d.maxSeq && |s.x| == m.hp.embd
    requires LayerHolds(f, m.hp, m.layers[l], d, s.cache.k[l], s.cache.v[l], xs)
    ensures var s', all := NextLayer(f, m, d, s, |xs|, l), xs + [s.x];
      && s'.x == LayerAt(f, m.hp, m.layers[l], all, |xs|)
      && LayerHolds(f, m.hp, m.layers[l], d, s'.cache.k[l], s'.cache.v[l], all)
  {
    hide Write, LayerHolds, SeenRows, KeyRows, ValueRows, Block, KeyOf, ValueOf;
    var w, all := m.layers[l], xs + [s.x];
    WriteExtends(f, m.hp, w, d, s.cache.k[l], s.cache.v[l], xs, s.x);
    var s' := NextLayer(f, m, d, s, |xs|, l);
    HeldIsSeen(f, m.hp, w, d, s'.cache.k[l], s'.cache.v[l], all);
    assert all[..|xs| + 1] == all;
  }

  /** A pass over one more token: the old positions as before, and one new hidden vector. */
  lemma PassExtends(f: Maths, m: Model, tokens: seq<nat>, token: nat, l: nat)
    requires Ready(m) && Known(m, tokens) && token < m.hp.vocab && l <= m.hp.layers
    ensures var xs := Pass(f, m, tokens + [token], l);
      xs == Pass(f, m, tokens, l) + [xs[|tokens|]]
  {
    hide Pass;
    PassIsCausal(f, m, tokens + [token], |tokens|, l);
    assert (tokens + [token])[..|tokens|] == tokens;
  }

  /** A layer touches only its own part of the cache. */
  lemma NextLayerFrame(f: Maths, m: Model, d: Dims, s: Step, pos: nat, l: nat, j: nat)
    requires Ready(m) && s.cache.Fits(m, d) && |s.x| == m.hp.embd && pos < d.maxSeq && l < m.hp.layers
    requires j < m.hp.layers && j != l
    ensures var s' := NextLayer(f, m, d, s, pos, l);
      s'.cache.k[j] == s.cache.k[j] && s'.cache.v[j] == s.cache.v[j]
  {
    hide Write, SeenRows, Block, KeyOf, ValueOf;
  }

  /** After l layers: their part of the cache holds the longer prefix, the rest is as it was. */
  ghost predicate Through(f: Maths, m: Model, d: Dims, cache: Cache, tokens: seq<nat>, s: Step, l: nat)
    requires Ready(m) && cache.Fits(m, d) && s.cache.Fits(m, d) && Known(m, tokens) && l <= m.hp.layers && tokens != []
  {
    && s.x == Pass(f, m, tokens, l)[|tokens| - 1]
    && (forall j :: 0 <= j < l ==>
          LayerHolds(f, m.hp, m.layers[j], d, s.cache.k[j], s.cache.v[j], Pass(f, m, tokens, j)))
    && (forall j :: l <= j < m.hp.layers ==> s.cache.k[j] == cache.k[j] && s.cache.v[j] == cache.v[j])
  }

  lemma NextLayerThrough(f: Maths, m: Model, d: Dims, cache: Cache, tokens: seq<nat>, token: nat, s: Step, l: nat)
    requires Ready(m) && cache.Fits(m, d) && Agrees(d) && Known(m, tokens) && token < m.hp.vocab && l < m.hp.layers
    requires |tokens| < d.maxSeq && s.cache.Fits(m, d)
    requires Holds(f, m, d, cache, tokens)
    requires Through(f, m, d, cache, tokens + [token], s, l)
    ensures Through(f, m, d, cache, tokens + [token], NextLayer(f, m, d, s, |tokens|, l), l + 1)
  {
    hide LayerHolds, LayerAt, NextLayer, Pass, Agrees;
    var ts, xs := tokens + [token], Pass(f, m, tokens, l);
    PassExtends(f, m, tokens, token, l);
    NextLayerIsLast(f, m, d, s, xs, l);
    PassNext(f, m, ts, l);
    var s' := NextLayer(f, m, d, s, |tokens|, l);
    forall j | 0 <= j < m.hp.layers && j != l ensures s'.cache.k[j] == s.cache.k[j] && s'.cache.v[j] == s.cache.v[j] {
      NextLayerFrame(f, m, d, s, |tokens|, l, j);
    }
  }

  lemma PassNext(f: Maths, m: Model, tokens: seq<nat>, l: nat)
    requires Ready(m) && Known(m, tokens) && l < m.hp.layers && tokens != []
    ensures Pass(f, m, tokens, l + 1)[|tokens| - 1] ==
      LayerAt(f, m.hp, m.layers[l], Pass(f, m, tokens, l), |tokens| - 1)
  {
    hide LayerAt;
  }

  lemma {:induction false} FirstLayersArePass(f: Maths, m: Model, d: Dims, cache: Cache, tokens: seq<nat>, token: nat,
                                              l: nat)
    requires Ready(m) && cache.Fits(m, d) && Agrees(d) && Known(m, tokens) && token < m.hp.vocab && l <= m.hp.layers
    requires |tokens| < d.maxSeq && Holds(f, m, d, cache, tokens)
    ensures Through(f, m, d, cache, tokens + [token], FirstLayers(f, m, d, cache, Embedding(m, token), |tokens|, l), l)
    decreases l
  {
    hide LayerHolds, Embedding, NextLayer, Agrees, Through, Pass, Holds;
    if l == 0 {
      NothingThrough(f, m, d, cache, tokens, token);
    } else {
      FirstLayersArePass(f, m, d, cache, tokens, token, l - 1);
      NextLayerThrough(f, m, d, cache, tokens, token,
        FirstLayers(f, m, d, cache, Embedding(m, token), |tokens|, l - 1), l - 1);
    }
  }

  lemma NothingThrough(f: Maths, m: Model, d: Dims, cache: Cache, tokens: seq<nat>, token: nat)
    requires Ready(m) && cache.Fits(m, d) && Known(m, tokens) && token < m.hp.vocab
    ensures Through(f, m, d, cache, tokens + [token], Step(Embedding(m, token), cache), 0)
  {
    hide LayerHolds, Embedding;
  }

  /** The logits of one step, and the cache behind it. */
  function StepLogits(f: Maths, m: Model, d: Dims, cache: Cache, token: nat, pos: nat): (y: Vec)
    requires Ready(m) && cache.Fits(m, d) && token < m.hp.vocab && pos < d.maxSeq
    ensures |y| == m.hp.vocab
  {
    Logits(f, m, FirstLayers(f, m, d, cache, Embedding(m, token), pos, m.hp.layers).x)
  }

  function StepCache(f: Maths, m: Model, d: Dims, cache: Cache, token: nat, pos: nat): (c: Cache)
    requires Ready(m) && cache.Fits(m, d) && token < m.hp.vocab && pos < d.maxSeq
    ensures c.Fits(m, d)
  {
    FirstLayers(f, m, d, cache, Embedding(m, token), pos, m.hp.layers).cache
  }

  /**
   * The main result: when the layouts agree, a step over a cache that holds the prefix gives the logits
   * of the longer prefix computed from scratch, and leaves a cache that holds the longer prefix.
   */
  lemma StepIsFromScratch(f: Maths, m: Model, d: Dims, cache: Cache, tokens: seq<nat>, token: nat)
    requires Ready(m) && cache.Fits(m, d) && Agrees(d) && Known(m, tokens) && token < m.hp.vocab
    requires |tokens| < d.maxSeq && Holds(f, m, d, cache, tokens)
    ensures StepLogits(f, m, d, cache, token, |tokens|) == FromScratch(f, m, tokens + [token])
    ensures Holds(f, m, d, StepCache(f, m, d, cache, token, |tokens|), tokens + [token])
  {
    hide LayerHolds, FirstLayers, Pass, Logits, Embedding;
    FirstLayersArePass(f, m, d, cache, tokens, token, m.hp.layers);
  }

  /** An empty prefix is held by any cache. */
  lemma NothingHeld(f: Maths, m: Model, d: Dims, cache: Cache)
    requires Ready(m) && cache.Fits(m, d)
    ensures Holds(f, m, d, cache, [])
  {
  }
}
