/** A transformer read as a function of the whole prefix, and as steps over a cache of keys and values. */
module Decoding {
  import opened Arithmetic
  import opened TransformerMath

  datatype HParams = HParams(
    layers: nat,
    embd: nat,
    heads: nat,
    kvHeads: nat,
    headDim: nat,
    ff: nat,
    vocab: nat,
    ropeBase: real,
    eps: real)
  {
    /** What loading checks, and what allocating the cache checks on top. */
    predicate Positive() {
      layers > 0 && embd > 0 && heads > 0 && kvHeads > 0 && headDim > 0 && ff > 0 && vocab > 0
    }

    /** Loading divides the embedding among the query heads. */
    predicate Divided() {
      heads > 0 && headDim == embd / heads
    }

    function KvDim(): nat { kvHeads * headDim }
    function QDim(): nat { heads * headDim }
  }

  datatype LayerWeights = LayerWeights(
    attnNorm: Vec,
    attnQ: Vec,
    attnK: Vec,
    attnV: Vec,
    qBias: Vec,
    kBias: Vec,
    vBias: Vec,
    attnOut: Vec,
    ffnNorm: Vec,
    gate: Vec,
    up: Vec,
    down: Vec)
  {
    /** Loading rejects tensors of any other size; the biases are optional. */
    predicate Shaped(hp: HParams) {
      && |attnNorm| == |ffnNorm| == hp.embd
      && |attnQ| == hp.QDim() * hp.embd
      && |attnK| == |attnV| == hp.KvDim() * hp.embd
      && (qBias == [] || |qBias| == hp.QDim())
      && (kBias == [] || |kBias| == hp.KvDim())
      && (vBias == [] || |vBias| == hp.KvDim())
      && |attnOut| == hp.embd * hp.QDim()
      && |gate| == |up| == hp.ff * hp.embd
      && |down| == hp.embd * hp.ff
    }
  }

  datatype Model = Model(hp: HParams, embedding: Vec, layers: seq<LayerWeights>, outputNorm: Vec, lmHead: Vec)
  {
    predicate Shaped() {
      && hp.Positive() && hp.Divided()
      && |embedding| == |lmHead| == hp.vocab * hp.embd
      && |outputNorm| == hp.embd
      && |layers| == hp.layers
      && forall l :: 0 <= l < |layers| ==> layers[l].Shaped(hp)
    }
  }

  // ---------------------------------------------------------------------------------------------
  // One layer at one position
  // ---------------------------------------------------------------------------------------------

  function KeyOf(f: Maths, hp: HParams, w: LayerWeights, x: Vec, pos: nat): (k: Vec)
    requires hp.Positive() && w.Shaped(hp) && |x| == hp.embd
    ensures |k| == hp.KvDim()
  {
    var normed := RmsNorm(f, x, w.attnNorm, hp.eps);
    Rope(f, AddBias(MatVec(w.attnK, normed, hp.KvDim()), w.kBias), hp.kvHeads, hp.headDim, pos, hp.ropeBase)
  }

  function ValueOf(f: Maths, hp: HParams, w: LayerWeights, x: Vec): (v: Vec)
    requires hp.Positive() && w.Shaped(hp) && |x| == hp.embd
    ensures |v| == hp.KvDim()
  {
    AddBias(MatVec(w.attnV, RmsNorm(f, x, w.attnNorm, hp.eps), hp.KvDim()), w.vBias)
  }

  function QueryOf(f: Maths, hp: HParams, w: LayerWeights, x: Vec, pos: nat): (q: Vec)
    requires hp.Positive() && w.Shaped(hp) && |x| == hp.embd
    ensures |q| == hp.QDim()
  {
    var normed := RmsNorm(f, x, w.attnNorm, hp.eps);
    Rope(f, AddBias(MatVec(w.attnQ, normed, hp.QDim()), w.qBias), hp.heads, hp.headDim, pos, hp.ropeBase)
  }

  function AttentionScale(f: Maths, hp: HParams): real {
    f.div(1.0, f.sqrt(hp.headDim as real))
  }

  /** Projection, residual, normalised feed-forward, residual. */
  function AfterAttention(f: Maths, hp: HParams, w: LayerWeights, x: Vec, attended: Vec): (y: Vec)
    requires hp.Positive() && w.Shaped(hp) && |x| == hp.embd && |attended| == hp.QDim()
    ensures |y| == hp.embd
  {
    FeedForward(f, hp, w, Add(x, MatVec(w.attnOut, attended, hp.embd)))
  }

  function FeedForward(f: Maths, hp: HParams, w: LayerWeights, x: Vec): (y: Vec)
    requires hp.Positive() && w.Shaped(hp) && |x| == hp.embd
    ensures |y| == hp.embd
  {
    var normed := RmsNorm(f, x, w.ffnNorm, hp.eps);
    var inner := Swiglu(f, MatVec(w.gate, normed, hp.ff), MatVec(w.up, normed, hp.ff));
    Add(x, MatVec(w.down, inner, hp.embd))
  }

  predicate Attendable(hp: HParams) {
    hp.Positive() && hp.heads % hp.kvHeads == 0
  }

  /** One layer, given the keys and values attention sees. */
  function Block(f: Maths, hp: HParams, w: LayerWeights, x: Vec, pos: nat, keys: seq<Row>, values: seq<Row>): (y: Vec)
    requires Attendable(hp) && w.Shaped(hp) && |x| == hp.embd
    requires keys != [] && |keys| == |values|
    requires Rows(keys, hp.kvHeads, hp.headDim) && Rows(values, hp.kvHeads, hp.headDim)
    ensures |y| == hp.embd
  {
    var q := QueryOf(f, hp, w, x, pos);
    AfterAttention(f, hp, w, x,
      Attend(f, q, keys, values, hp.heads, hp.heads, hp.kvHeads, hp.headDim, AttentionScale(f, hp)))
  }

  function Embedding(m: Model, token: nat): (x: Vec)
    requires m.Shaped() && token < m.hp.vocab
    ensures |x| == m.hp.embd
  {
    RowFits(token, m.hp.vocab, m.hp.embd);
    m.embedding[token * m.hp.embd..token * m.hp.embd + m.hp.embd]
  }

  function Logits(f: Maths, m: Model, x: Vec): (y: Vec)
    requires m.Shaped() && |x| == m.hp.embd
    ensures |y| == m.hp.vocab
  {
    MatVec(m.lmHead, RmsNorm(f, x, m.outputNorm, m.hp.eps), m.hp.vocab)
  }

  // ---------------------------------------------------------------------------------------------
  // From scratch: every layer over every position of the prefix
  // ---------------------------------------------------------------------------------------------

  function KeyRows(f: Maths, hp: HParams, w: LayerWeights, xs: seq<Vec>): (rows: seq<Row>)
    requires hp.Positive() && w.Shaped(hp) && Sized(xs, hp.embd)
    ensures |rows| == |xs| && Rows(rows, hp.kvHeads, hp.headDim)
  {
    seq(|xs|, t requires 0 <= t < |xs| && hp.Positive() && w.Shaped(hp) && Sized(xs, hp.embd)
              => Heads(KeyOf(f, hp, w, xs[t], t), hp.kvHeads, hp.headDim))
  }

  function ValueRows(f: Maths, hp: HParams, w: LayerWeights, xs: seq<Vec>): (rows: seq<Row>)
    requires hp.Positive() && w.Shaped(hp) && Sized(xs, hp.embd)
    ensures |rows| == |xs| && Rows(rows, hp.kvHeads, hp.headDim)
  {
    seq(|xs|, t requires 0 <= t < |xs| && hp.Positive() && w.Shaped(hp) && Sized(xs, hp.embd)
              => Heads(ValueOf(f, hp, w, xs[t]), hp.kvHeads, hp.headDim))
  }

  /** Position t of a layer: it attends to itself and what is before it, never to what follows. */
  function LayerAt(f: Maths, hp: HParams, w: LayerWeights, xs: seq<Vec>, t: nat): (y: Vec)
    requires Attendable(hp) && w.Shaped(hp) && Sized(xs, hp.embd) && t < |xs|
    ensures |y| == hp.embd
  {
    Block(f, hp, w, xs[t], t, KeyRows(f, hp, w, xs[..t + 1]), ValueRows(f, hp, w, xs[..t + 1]))
  }

  function Layer(f: Maths, hp: HParams, w: LayerWeights, xs: seq<Vec>): (ys: seq<Vec>)
    requires Attendable(hp) && w.Shaped(hp) && Sized(xs, hp.embd)
    ensures |ys| == |xs| && Sized(ys, hp.embd)
  {
    seq(|xs|, t requires 0 <= t < |xs| && Attendable(hp) && w.Shaped(hp) && Sized(xs, hp.embd)
              => LayerAt(f, hp, w, xs, t))
  }

  predicate Known(m: Model, tokens: seq<nat>) {
    forall i :: 0 <= i < |tokens| ==> tokens[i] < m.hp.vocab
  }

  predicate Ready(m: Model) {
    m.Shaped() && Attendable(m.hp)
  }

  /** The hidden vectors of all positions in front of layer l. */
  function Pass(f: Maths, m: Model, tokens: seq<nat>, l: nat): (xs: seq<Vec>)
    requires Ready(m) && Known(m, tokens) && l <= m.hp.layers
    ensures |xs| == |tokens| && Sized(xs, m.hp.embd)
    decreases l
  {
    if l == 0 then
      seq(|tokens|, t requires 0 <= t < |tokens| && Ready(m) && Known(m, tokens) => Embedding(m, tokens[t]))
    else Layer(f, m.hp, m.layers[l - 1], Pass(f, m, tokens, l - 1))
  }

  /** The logits behind the last token, with the whole prefix computed anew. */
  function FromScratch(f: Maths, m: Model, tokens: seq<nat>): (y: Vec)
    requires Ready(m) && Known(m, tokens) && tokens != []
    ensures |y| == m.hp.vocab
  {
    Logits(f, m, Pass(f, m, tokens, m.hp.layers)[|tokens| - 1])
  }

  /** A layer is causal: what it computes for a prefix does not depend on what follows. */
  lemma LayerIsCausal(f: Maths, hp: HParams, w: LayerWeights, xs: seq<Vec>, n: nat)
    requires Attendable(hp) && w.Shaped(hp) && Sized(xs, hp.embd) && n <= |xs|
    ensures Layer(f, hp, w, xs[..n]) == Layer(f, hp, w, xs)[..n]
  {
    hide KeyRows, ValueRows, Block;
    forall t: nat | t < n ensures LayerAt(f, hp, w, xs[..n], t) == LayerAt(f, hp, w, xs, t) {
      assert xs[..n][..t + 1] == xs[..t + 1];
    }
  }

  lemma {:induction false} PassIsCausal(f: Maths, m: Model, tokens: seq<nat>, n: nat, l: nat)
    requires Ready(m) && Known(m, tokens) && l <= m.hp.layers && n <= |tokens|
    ensures Pass(f, m, tokens[..n], l) == Pass(f, m, tokens, l)[..n]
    decreases l
  {
    hide Embedding, Layer;
    if l > 0 {
      PassIsCausal(f, m, tokens, n, l - 1);
      LayerIsCausal(f, m.hp, m.layers[l - 1], Pass(f, m, tokens, l - 1), n);
    }
  }
}
