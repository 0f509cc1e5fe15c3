/** For which cache shapes decoding token by token equals computing every prefix from scratch. */
module DecodingAgreement {
  import opened Arithmetic
  import opened TransformerMath
  import opened TransformerLaws
  import opened Decoding
  import opened KvLayout
  import opened Incremental

  function EmptyCache(m: Model, d: Dims): (c: Cache)
    requires d.Positive() && d.kvHeads == m.hp.kvHeads && d.headDim == m.hp.headDim
    ensures c.Fits(m, d)
  {
    var zeros := seq(m.hp.layers, _ => Zeros(d.LayerSize()));
    Cache(zeros, zeros)
  }

  predicate Decodable(m: Model, d: Dims, tokens: seq<nat>) {
    && Ready(m) && Known(m, tokens) && |tokens| <= d.maxSeq
    && d.Positive() && d.kvHeads == m.hp.kvHeads && d.headDim == m.hp.headDim
  }

  /** The cache after a reset and these tokens at positions 0, 1, 2, ... */
  function CacheAfter(f: Maths, m: Model, d: Dims, tokens: seq<nat>): (c: Cache)
    requires Decodable(m, d, tokens)
    ensures c.Fits(m, d)
  {
    if tokens == [] then EmptyCache(m, d)
    else
      var n := |tokens| - 1;
      StepCache(f, m, d, CacheAfter(f, m, d, tokens[..n]), tokens[n], n)
  }

  /** The logits of the last of these steps. */
  function LogitsAfter(f: Maths, m: Model, d: Dims, tokens: seq<nat>): (y: Vec)
    requires Decodable(m, d, tokens) && tokens != []
  {
    var n := |tokens| - 1;
    StepLogits(f, m, d, CacheAfter(f, m, d, tokens[..n]), tokens[n], n)
  }

  lemma {:induction false} CacheAfterHolds(f: Maths, m: Model, d: Dims, tokens: seq<nat>)
    requires Decodable(m, d, tokens) && Agrees(d)
    ensures Holds(f, m, d, CacheAfter(f, m, d, tokens), tokens)
  {
    hide Holds, StepCache, StepLogits, FromScratch, Agrees;
    if tokens == [] {
      NothingHeld(f, m, d, EmptyCache(m, d));
    } else {
      var n := |tokens| - 1;
      CacheAfterHolds(f, m, d, tokens[..n]);
      StepIsFromScratch(f, m, d, CacheAfter(f, m, d, tokens[..n]), tokens[..n], tokens[n]);
      assert tokens[..n] + [tokens[n]] == tokens;
    }
  }

  /** Decoding token by token refines computing the whole prefix. */
  lemma IncrementalIsFromScratch(f: Maths, m: Model, d: Dims, tokens: seq<nat>)
    requires Decodable(m, d, tokens) && tokens != [] && Agrees(d)
    ensures LogitsAfter(f, m, d, tokens) == FromScratch(f, m, tokens)
  {
    hide Holds, StepCache, StepLogits, FromScratch, Agrees, CacheAfter;
    var n := |tokens| - 1;
    CacheAfterHolds(f, m, d, tokens[..n]);
    StepIsFromScratch(f, m, d, CacheAfter(f, m, d, tokens[..n]), tokens[..n], tokens[n]);
    assert tokens[..n] + [tokens[n]] == tokens;
  }

  // ---------------------------------------------------------------------------------------------
  // A model that tells the layouts apart
  // ---------------------------------------------------------------------------------------------

  /** As many query heads as key/value heads share the embedding. */
  function WitnessParams(d: Dims): HParams {
    HParams(1, d.KvDim(), d.kvHeads, d.kvHeads, d.headDim, 1, 1, 1.0, 1.0)
  }

  /**
   * One layer and one token. All projections are zero, so that the values are their bias, ones in the
   * second head; the output projection adds the first element of the second head to the first element
   * of the embedding.
   */
  function WitnessWeights(d: Dims): (w: LayerWeights)
    ensures w.Shaped(WitnessParams(d))
  {
    var e := d.KvDim();
    LayerWeights(Zeros(e), Zeros(e * e), Zeros(e * e), Zeros(e * e), [], [], SecondHead(d),
                 Spike(e * e, d.headDim, 1.0), Zeros(e), Zeros(e), Zeros(e), Zeros(e))
  }

  function Witness(d: Dims): (m: Model)
    requires d.Positive()
    ensures Ready(m) && m.hp.kvHeads == d.kvHeads && m.hp.headDim == d.headDim && m.hp.embd == d.KvDim()
  {
    var e := d.KvDim();
    MulMonotone(1, d.kvHeads, d.headDim);
    DivisionIsUnique(e, d.headDim, 0, d.kvHeads);
    Model(WitnessParams(d), Spike(e, 0, 1.0), [WitnessWeights(d)], Spike(e, 0, 1.0), Spike(e, 0, 1.0))
  }

  /** The softmax of a single score is one. */
  lemma SoftmaxOfOne(f: Maths, s: Vec)
    requires Genuine(f) && |s| == 1
    ensures Softmax(f, s) == [1.0]
  {
    var e := Exps(f, s, MaxOf(s));
    assert e == [e[0]] && e[..0] == [];
    assert Sum(e) == e[0] > 0.0;
    Quotient(e[0]);
    assert Scaled(e, e[0]) == [1.0];
  }

  /** With one position, and a query head for each key/value head, attention returns the values it sees. */
  lemma AttendHeadOfOne(f: Maths, q: Vec, key: Row, value: Row, h: nat, heads: nat, headDim: nat, scale: real)
    requires Genuine(f) && h < heads && |q| == heads * headDim
    requires |key| == |value| == heads && Sized(key, headDim) && Sized(value, headDim)
    ensures AttendHead(f, q, [key], [value], h, heads, heads, headDim, scale) == value[h]
  {
    hide Genuine;
    assert heads / heads == 1 && Group(h, heads, heads) == h;
    RowFits(h, heads, headDim);
    var scores := Scores(q, h * headDim, [key], h, headDim, scale);
    SoftmaxOfOne(f, scores);
    forall d: nat | d < headDim ensures Mix([1.0], [value], h, d) == value[h][d] {
      assert [value][..0] == [] && [1.0][..0] == [];
    }
  }

  lemma {:induction false} AttendOfOne(f: Maths, q: Vec, key: Row, value: Row, n: nat, heads: nat, headDim: nat,
                                       scale: real, h: nat, i: nat)
    requires Genuine(f) && h < n <= heads && i < headDim && |q| == heads * headDim
    requires |key| == |value| == heads && Sized(key, headDim) && Sized(value, headDim)
    ensures h * headDim + i < n * headDim
    ensures Attend(f, q, [key], [value], n, heads, heads, headDim, scale)[h * headDim + i] == value[h][i]
    decreases n
  {
    hide AttendHead, Genuine;
    RowFits(h, n, headDim);
    RowFits(n - 1, n, headDim);
    if h == n - 1 {
      AttendHeadOfOne(f, q, key, value, h, heads, headDim, scale);
    } else {
      AttendOfOne(f, q, key, value, n - 1, heads, headDim, scale, h, i);
    }
  }

  /** The witness adds what attention sees in the second head to the first element of the embedding. */
  lemma WitnessReads(f: Maths, d: Dims, key: Row, value: Row)
    requires Genuine(f) && d.Positive() && d.kvHeads > 1
    requires |key| == |value| == d.kvHeads && Sized(key, d.headDim) && Sized(value, d.headDim)
    ensures Block(f, Witness(d).hp, WitnessWeights(d), Spike(d.KvDim(), 0, 1.0), 0, [key], [value])
         == Spike(d.KvDim(), 0, 1.0 + value[1][0])
  {
    hide Attend, QueryOf, AfterAttention, AttentionScale, WitnessWeights, Genuine;
    var m, w, x := Witness(d), WitnessWeights(d), Spike(d.KvDim(), 0, 1.0);
    RowFits(1, d.kvHeads, d.headDim);
    var q := QueryOf(f, m.hp, w, x, 0);
    var scale := AttentionScale(f, m.hp);
    AttendOfOne(f, q, key, value, d.kvHeads, d.kvHeads, d.headDim, scale, 1, 0);
    var attended := Attend(f, q, [key], [value], d.kvHeads, d.kvHeads, d.kvHeads, d.headDim, scale);
    WitnessAfterAttention(f, d, attended);
  }

  lemma WitnessAfterAttention(f: Maths, d: Dims, attended: Vec)
    requires d.Positive() && |attended| == d.KvDim() && d.headDim < d.KvDim()
    ensures AfterAttention(f, Witness(d).hp, WitnessWeights(d), Spike(d.KvDim(), 0, 1.0), attended)
         == Spike(d.KvDim(), 0, 1.0 + attended[d.headDim])
  {
    hide FeedForward, Dims.KvDim;
    var e, w := d.KvDim(), WitnessWeights(d);
    WitnessProjects(d, attended);
    var x := Spike(e, 0, 1.0 + attended[d.headDim]);
    assert Add(Spike(e, 0, 1.0), MatVec(w.attnOut, attended, e)) == x;
    WitnessFeedForward(f, d, x);
  }

  lemma WitnessProjects(d: Dims, attended: Vec)
    requires d.Positive() && |attended| == d.KvDim() && d.headDim < d.KvDim()
    ensures MatVec(WitnessWeights(d).attnOut, attended, d.KvDim()) == Spike(d.KvDim(), 0, attended[d.headDim])
  {
    hide Dims.KvDim;
    var e, a := d.KvDim(), WitnessWeights(d).attnOut;
    forall m: nat | m < e
      ensures RowDot(a, attended, m, e) == if m == 0 then attended[d.headDim] else 0.0
    {
      RowFits(m, e, e);
      DotSpike(a, d.headDim, 1.0, m * e, attended, e);
      if m > 0 {
        MulMonotone(1, m, e);
      }
    }
  }

  /** A down projection of zero leaves the residual as it is. */
  lemma WitnessFeedForward(f: Maths, d: Dims, x: Vec)
    requires d.Positive() && |x| == d.KvDim()
    ensures FeedForward(f, Witness(d).hp, WitnessWeights(d), x) == x
  {
    WitnessIsWide(d);
    hide RmsNorm, Swiglu, MatVec, Dims.KvDim;
    var hp, w := WitnessParams(d), WitnessWeights(d);
    var normed := RmsNorm(f, x, w.ffnNorm, hp.eps);
    var inner := Swiglu(f, MatVec(w.gate, normed, 1), MatVec(w.up, normed, 1));
    MatVecZeros(inner, |x|);
    assert Add(x, Zeros(|x|)) == x;
  }

  /** The mean square of a spike, and the eps on top. */
  function SpikeSquare(a: real, e: nat): real
    requires e > 0
  {
    a * a / e as real + 1.0
  }

  lemma SpikeRoot(f: Maths, a: real, e: nat)
    requires Genuine(f) && e > 0
    ensures var square := SpikeSquare(a, e); f.sqrt(square) > 0.0 && f.sqrt(square) * f.sqrt(square) == square
    ensures InverseRms(f, Spike(e, 0, a), 1.0) == 1.0 / f.sqrt(SpikeSquare(a, e))
  {
    var x := Spike(e, 0, a);
    DotSpike(x, 0, a, 0, x, e);
    SquareIsPositive(a, e);
    assert Dot(x, 0, x, 0, e) == a * a;
    assert InverseRms(f, x, 1.0) == f.div(1.0, f.sqrt(SpikeSquare(a, e)));
  }

  lemma SquareIsPositive(a: real, e: nat)
    requires e > 0
    ensures SpikeSquare(a, e) > 0.0
  {
    assert a * a >= 0.0;
  }

  /** The logit is the first element, divided by a root mean square that depends on it. */
  lemma WitnessLogit(f: Maths, d: Dims, a: real)
    requires Genuine(f) && d.Positive()
    ensures d.KvDim() > 0
    ensures var y := Logits(f, Witness(d), Spike(d.KvDim(), 0, a));
      |y| == 1 && y[0] * y[0] * SpikeSquare(a, d.KvDim()) == a * a
  {
    WitnessIsWide(d);
    hide Dims.KvDim, Genuine, InverseRms, SpikeSquare;
    var e, m := d.KvDim(), Witness(d);
    SpikeRoot(f, a, e);
    var normed := RmsNorm(f, Spike(e, 0, a), m.outputNorm, 1.0);
    DotSpike(m.lmHead, 0, 1.0, 0, normed, e);
    RootUndone(Logits(f, m, Spike(e, 0, a))[0], a, f.sqrt(SpikeSquare(a, e)));
  }

  lemma WitnessIsWide(d: Dims)
    requires d.Positive()
    ensures d.KvDim() > 0
  {
    MulMonotone(1, d.kvHeads, d.headDim);
  }

  lemma RootUndone(y: real, a: real, root: real)
    requires root > 0.0 && y == a * (1.0 / root)
    ensures y * y * (root * root) == a * a
  {
    assert y * root == a * (1.0 / root * root) == a;
    Regroup(y, root, a);
  }

  lemma Regroup(y: real, root: real, a: real)
    requires y * root == a
    ensures y * y * (root * root) == a * a
  {
    assert y * y * (root * root) == (y * root) * (y * root);
  }

  /** Two values of the first element give two logits. */
  lemma LogitsDiffer(y: real, z: real, e: nat)
    requires e > 0
    requires y * y * SpikeSquare(2.0, e) == 2.0 * 2.0 && z * z * SpikeSquare(1.0, e) == 1.0 * 1.0
    ensures y != z
  {
    var r, s, t := 1.0 / e as real, y * y, z * z;
    assert SpikeSquare(2.0, e) == 4.0 * r + 1.0 && SpikeSquare(1.0, e) == r + 1.0;
    assert s * (4.0 * r + 1.0) == 4.0 * (s * r) + s;
    assert t * (r + 1.0) == t * r + t;
    assert s != 0.0;
  }

  lemma WitnessValue(f: Maths, d: Dims, x: Vec)
    requires d.Positive() && |x| == d.KvDim()
    ensures ValueOf(f, Witness(d).hp, WitnessWeights(d), x) == SecondHead(d)
  {
    WitnessIsWide(d);
    hide RmsNorm, MatVec, Dims.KvDim;
    var w := WitnessWeights(d);
    MatVecZeros(RmsNorm(f, x, w.attnNorm, 1.0), |x|);
    assert Add(Zeros(|x|), SecondHead(d)) == SecondHead(d);
  }

  lemma WitnessFromScratch(f: Maths, d: Dims)
    requires Genuine(f) && d.Positive() && d.kvHeads > 1
    ensures FromScratch(f, Witness(d), [0]) == Logits(f, Witness(d), Spike(d.KvDim(), 0, 2.0))
  {
    hide Block, KeyOf, ValueOf, Logits, Genuine, WitnessWeights;
    var m, w, x := Witness(d), WitnessWeights(d), Spike(d.KvDim(), 0, 1.0);
    assert Embedding(m, 0) == x;
    var xs := [x];
    assert Pass(f, m, [0], 0) == xs && xs[..1] == xs;
    WitnessValue(f, d, x);
    var key := Heads(KeyOf(f, m.hp, w, x, 0), d.kvHeads, d.headDim);
    var value := Heads(SecondHead(d), d.kvHeads, d.headDim);
    assert KeyRows(f, m.hp, w, xs) == [key] && ValueRows(f, m.hp, w, xs) == [value];
    WitnessReads(f, d, key, value);
    RowFits(1, d.kvHeads, d.headDim);
    assert value[1][0] == SecondHead(d)[d.headDim] == 1.0;
    assert Pass(f, m, [0], 1) == [Spike(d.KvDim(), 0, 2.0)];
  }

  lemma WitnessIncremental(f: Maths, d: Dims)
    requires Genuine(f) && d.Positive() && d.kvHeads > 1 && d.maxSeq > 1
    ensures Decodable(Witness(d), d, [0])
    ensures LogitsAfter(f, Witness(d), d, [0]) == Logits(f, Witness(d), Spike(d.KvDim(), 0, 1.0))
  {
    hide Block, KeyOf, ValueOf, Logits, Write, Seen, Genuine, WitnessWeights;
    var m, w, x := Witness(d), WitnessWeights(d), Spike(d.KvDim(), 0, 1.0);
    assert Embedding(m, 0) == x;
    assert [0][..0] == [];
    var zeros := Zeros(d.LayerSize());
    var k := Write(zeros, d, 0, KeyOf(f, m.hp, w, x, 0));
    var v := Write(zeros, d, 0, SecondHead(d));
    WitnessValue(f, d, x);
    assert SeenRows(k, d, 1) == [Seen(k, d, 0)] && SeenRows(v, d, 1) == [Seen(v, d, 0)];
    WitnessReads(f, d, Seen(k, d, 0), Seen(v, d, 0));
    SecondHeadIsLost(d);
    assert FirstLayers(f, m, d, EmptyCache(m, d), x, 0, 1).x == Spike(d.KvDim(), 0, 1.0 + Seen(v, d, 0)[1][0]);
  }

  /** One token is enough to tell the two apart, on a model that can be loaded wherever its size fits. */
  lemma WitnessDisagrees(f: Maths, d: Dims)
    requires Genuine(f) && d.Positive() && d.kvHeads > 1 && d.maxSeq > 1
    ensures Decodable(Witness(d), d, [0]) && Witness(d).hp.embd == d.KvDim()
    ensures LogitsAfter(f, Witness(d), d, [0]) != FromScratch(f, Witness(d), [0])
  {
    hide LogitsAfter, FromScratch, Logits, Genuine, Witness;
    WitnessFromScratch(f, d);
    WitnessIncremental(f, d);
    WitnessLogit(f, d, 2.0);
    WitnessLogit(f, d, 1.0);
    LogitsDiffer(FromScratch(f, Witness(d), [0])[0], LogitsAfter(f, Witness(d), d, [0])[0], d.KvDim());
  }

  /**
   * Token by token equals from scratch, for every model of a cache shape and every token list, exactly
   * when that shape has one key/value head or one position. This holds for any elementary functions
   * that divide, take roots and exponentiate as those of the reals do.
   */
  lemma AgreesIff(f: Maths, d: Dims)
    requires Genuine(f) && d.Positive()
    ensures (forall m, tokens {:trigger LogitsAfter(f, m, d, tokens)} ::
               Decodable(m, d, tokens) && tokens != [] ==> LogitsAfter(f, m, d, tokens) == FromScratch(f, m, tokens))
       <==> d.kvHeads == 1 || d.maxSeq == 1
  {
    hide LogitsAfter, FromScratch, Genuine;
    if Agrees(d) {
      forall m, tokens | Decodable(m, d, tokens) && tokens != []
        ensures LogitsAfter(f, m, d, tokens) == FromScratch(f, m, tokens)
      {
        IncrementalIsFromScratch(f, m, d, tokens);
      }
    } else {
      WitnessDisagrees(f, d);
    }
  }
}
