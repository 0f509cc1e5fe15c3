/** What the transformer's operators mean, each told by an equation that is not its definition. */
module TransformerLaws {
  import opened Arithmetic
  import opened TransformerMath
  import opened RotaryLaws
  import opened KvLayout
  import opened Decoding

  // ---------------------------------------------------------------------------------------------
  // Products
  // ---------------------------------------------------------------------------------------------

  /** a at index i, zero elsewhere. */
  function Spike(n: nat, i: nat, a: real): (v: Vec)
    ensures |v| == n
  {
    seq(n, j => if j == i then a else 0.0)
  }

  lemma {:induction false} DotSpike(v: Vec, i: nat, a: real, at: nat, x: Vec, n: nat)
    requires v == Spike(|v|, i, a) && at + n <= |v| && n <= |x|
    ensures Dot(v, at, x, 0, n) == if at <= i < at + n then a * x[i - at] else 0.0
  {
    if n > 0 {
      DotSpike(v, i, a, at, x, n - 1);
    }
  }

  lemma {:induction false} DotZeros(n: nat, at: nat, x: Vec, k: nat)
    requires at + k <= n && k <= |x|
    ensures Dot(Zeros(n), at, x, 0, k) == 0.0
  {
    if k > 0 {
      DotZeros(n, at, x, k - 1);
    }
  }

  lemma MatVecZeros(x: Vec, rows: nat)
    ensures MatVec(Zeros(rows * |x|), x, rows) == Zeros(rows)
  {
    forall m: nat | m < rows
      ensures RowDot(Zeros(rows * |x|), x, m, rows) == 0.0
    {
      RowFits(m, rows, |x|);
      DotZeros(rows * |x|, m * |x|, x, |x|);
    }
  }

  /** A matrix maps axis i to its column i. */
  lemma ColumnOfAxis(a: Vec, n: nat, rows: nat, m: nat, i: nat)
    requires |a| == rows * n && m < rows && i < n
    ensures m * n + i < |a| && MatVec(a, Spike(n, i, 1.0), rows)[m] == a[m * n + i]
  {
    RowFits(m, rows, n);
    DotAxis(a, m * n, n, i, n);
  }

  lemma {:induction false} DotAxis(a: Vec, at: nat, n: nat, i: nat, k: nat)
    requires at + n <= |a| && i < n && k <= n
    ensures Dot(a, at, Spike(n, i, 1.0), 0, k) == if i < k then a[at + i] else 0.0
  {
    if k > 0 {
      DotAxis(a, at, n, i, k - 1);
    }
  }

  /** A matrix maps a sum to the sum, and a multiple to the multiple. */
  lemma MatVecIsLinear(a: Vec, x: Vec, y: Vec, c: real, rows: nat)
    requires |x| == |y| && |a| == rows * |x|
    ensures MatVec(a, Add(x, y), rows) == Add(MatVec(a, x, rows), MatVec(a, y, rows))
    ensures MatVec(a, Multiple(x, c), rows) == Multiple(MatVec(a, x, rows), c)
  {
    forall m: nat | m < rows
      ensures MatVec(a, Add(x, y), rows)[m] == MatVec(a, x, rows)[m] + MatVec(a, y, rows)[m]
      ensures MatVec(a, Multiple(x, c), rows)[m] == Times(MatVec(a, x, rows)[m], c)
    {
      RowFits(m, rows, |x|);
      DotIsLinear(a, m * |x|, x, y, c, |x|);
    }
  }

  function Multiple(x: Vec, c: real): (y: Vec)
    ensures |y| == |x|
  {
    seq(|x|, i requires 0 <= i < |x| => Times(x[i], c))
  }

  lemma {:induction false} DotIsLinear(a: Vec, at: nat, x: Vec, y: Vec, c: real, n: nat)
    requires |x| == |y| && n <= |x| && at + n <= |a|
    ensures Dot(a, at, Add(x, y), 0, n) == Dot(a, at, x, 0, n) + Dot(a, at, y, 0, n)
    ensures Dot(a, at, Multiple(x, c), 0, n) == Times(Dot(a, at, x, 0, n), c)
  {
    if n > 0 {
      DotIsLinear(a, at, x, y, c, n - 1);
    }
  }

  // ---------------------------------------------------------------------------------------------
  // Normalising
  // ---------------------------------------------------------------------------------------------

  function Ones(n: nat): (v: Vec)
    ensures |v| == n
  {
    seq(n, _ => 1.0)
  }

  function MeanSquare(x: Vec): real
    requires x != []
  {
    Dot(x, 0, x, 0, |x|) / |x| as real
  }

  /** The scale is the positive number whose square times mean square plus eps is one. */
  lemma InverseRmsInverts(f: Maths, x: Vec, eps: real)
    requires Genuine(f) && x != [] && MeanSquare(x) + eps > 0.0
    ensures var inv := InverseRms(f, x, eps);
      inv > 0.0 && inv * inv * (MeanSquare(x) + eps) == 1.0
  {
    var ms := MeanSquare(x) + eps;
    var root := f.sqrt(ms);
    ReciprocalSquare(root, ms);
    assert f.div(1.0, root) == 1.0 / root;
  }

  lemma ReciprocalSquare(root: real, square: real)
    requires root > 0.0 && root * root == square
    ensures 1.0 / root > 0.0 && 1.0 / root * (1.0 / root) * square == 1.0
  {
    var inv := 1.0 / root;
    assert inv * root == 1.0;
    assert inv * inv * (root * root) == inv * root * (inv * root);
  }

  /** The norm is a multiple of the vector, but for the weights. */
  lemma NormedIsMultiple(f: Maths, x: Vec, weight: Vec, eps: real)
    requires x != [] && |weight| == |x|
    ensures RmsNorm(f, x, Ones(|x|), eps) == Multiple(x, InverseRms(f, x, eps))
    ensures forall i :: 0 <= i < |x| ==>
      RmsNorm(f, x, weight, eps)[i] == Times(RmsNorm(f, x, Ones(|x|), eps)[i], weight[i])
  {
    var inv := InverseRms(f, x, eps);
    hide InverseRms;
    forall i: nat | i < |x|
      ensures RmsNorm(f, x, Ones(|x|), eps)[i] == Times(x[i], inv)
      ensures RmsNorm(f, x, weight, eps)[i] == Times(Times(x[i], inv), weight[i])
    {
      assert x[i] * inv * 1.0 == Times(x[i], inv);
    }
  }

  /** Without weights the mean square becomes one, but for eps; weights then scale each element. */
  lemma NormalisedMeanSquare(f: Maths, x: Vec, weight: Vec, eps: real)
    requires Genuine(f) && x != [] && |weight| == |x| && MeanSquare(x) + eps > 0.0
    ensures MeanSquare(RmsNorm(f, x, Ones(|x|), eps)) * (MeanSquare(x) + eps) == MeanSquare(x)
    ensures forall i :: 0 <= i < |x| ==>
      RmsNorm(f, x, weight, eps)[i] == Times(RmsNorm(f, x, Ones(|x|), eps)[i], weight[i])
  {
    var inv := InverseRms(f, x, eps);
    InverseRmsInverts(f, x, eps);
    NormedIsMultiple(f, x, weight, eps);
    hide InverseRms, RmsNorm, Genuine, Multiple;
    MeanOfMultiple(x, inv);
    hide MeanSquare;
    Reorder(inv * inv, MeanSquare(x), MeanSquare(x) + eps);
  }

  lemma MeanOfMultiple(x: Vec, c: real)
    requires x != []
    ensures MeanSquare(Multiple(x, c)) == c * c * MeanSquare(x)
  {
    hide Multiple, Dot;
    DotOfMultiple(x, c, |x|);
    ScaledMean(Dot(x, 0, x, 0, |x|), c * c, |x| as real);
  }

  lemma Reorder(a: real, b: real, c: real)
    requires a * c == 1.0
    ensures a * b * c == b
  {
    assert a * b * c == a * c * b;
  }

  lemma ScaledMean(sum: real, c: real, n: real)
    requires n > 0.0
    ensures c * sum / n == c * (sum / n)
  {
  }

  lemma {:induction false} DotOfMultiple(x: Vec, c: real, n: nat)
    requires n <= |x|
    ensures Dot(Multiple(x, c), 0, Multiple(x, c), 0, n) == c * c * Dot(x, 0, x, 0, n)
  {
    if n > 0 {
      DotOfMultiple(x, c, n - 1);
      var a, sum := x[n - 1], Dot(x, 0, x, 0, n - 1);
      assert a * c * (a * c) == c * c * (a * a);
      assert c * c * (sum + a * a) == c * c * sum + c * c * (a * a);
    }
  }

  // ---------------------------------------------------------------------------------------------
  // Gates, scale and softmax
  // ---------------------------------------------------------------------------------------------

  /** silu(g) is g divided by 1 + exp(-g). */
  lemma SiluTimesGate(f: Maths, gate: Vec, up: Vec, i: nat)
    requires Genuine(f) && |gate| == |up| && i < |gate|
    ensures Times(Silu(f, gate[i]), 1.0 + f.exp(-gate[i])) == gate[i]
    ensures Times(Swiglu(f, gate, up)[i], 1.0 + f.exp(-gate[i])) == Times(gate[i], up[i])
  {
    var d := 1.0 + f.exp(-gate[i]);
    assert d > 1.0;
    assert f.div(gate[i], d) == gate[i] / d;
    var s := Silu(f, gate[i]);
    assert s * d == gate[i];
    assert s * up[i] * d == s * d * up[i];
  }

  /** Scores are divided by the root of the head size. */
  lemma ScaleIsRoot(f: Maths, hp: HParams)
    requires Genuine(f) && hp.headDim > 0
    ensures var scale := AttentionScale(f, hp);
      scale > 0.0 && scale * scale * hp.headDim as real == 1.0
  {
    var n := hp.headDim as real;
    ReciprocalSquare(f.sqrt(n), n);
    assert f.div(1.0, f.sqrt(n)) == 1.0 / f.sqrt(n);
  }

  /** Sums become products. */
  ghost predicate Exponential(f: Maths) {
    forall a, b :: f.exp(a + b) == Times(f.exp(a), f.exp(b))
  }

  function Share(x: real, sum: real): real
    requires sum > 0.0
  {
    x / sum
  }

  lemma ScaledAt(e: Vec, sum: real, i: nat)
    requires sum > 0.0 && i < |e|
    ensures Scaled(e, sum)[i] == Share(e[i], sum)
  {
  }

  lemma ExpsPositive(f: Maths, s: Vec, m: real)
    requires s != [] && forall x :: f.exp(x) > 0.0
    ensures Sum(Exps(f, s, m)) > 0.0
  {
    SumPositive(Exps(f, s, m));
  }

  lemma SoftmaxAt(f: Maths, s: Vec, i: nat)
    requires i < |s| && forall x :: f.exp(x) > 0.0
    ensures var sum := Sum(Exps(f, s, MaxOf(s)));
      sum > 0.0 && Softmax(f, s)[i] == Share(f.exp(s[i] - MaxOf(s)), sum)
  {
    hide Sum, MaxOf, Scaled, Share;
    ExpsPositive(f, s, MaxOf(s));
    var e := Exps(f, s, MaxOf(s));
    ScaledAt(e, Sum(e), i);
  }

  lemma Shifted(f: Maths, x: real, m: real)
    requires Exponential(f)
    ensures f.exp(x) == Times(f.exp(x - m), f.exp(m))
  {
    assert x == x - m + m;
  }

  /** Softmax weights are to one another as the exponentials of the scores. */
  lemma SoftmaxRatios(f: Maths, s: Vec, i: nat, j: nat)
    requires Exponential(f) && (forall x :: f.exp(x) > 0.0) && i < |s| && j < |s|
    ensures Times(Softmax(f, s)[i], f.exp(s[j])) == Times(Softmax(f, s)[j], f.exp(s[i]))
  {
    hide Exponential, Softmax, Exps, Sum, MaxOf, Times, Share;
    var m := MaxOf(s);
    SoftmaxAt(f, s, i);
    SoftmaxAt(f, s, j);
    Shifted(f, s[i], m);
    Shifted(f, s[j], m);
    CrossRatio(f.exp(s[i] - m), f.exp(s[j] - m), f.exp(m), Sum(Exps(f, s, m)));
  }

  lemma CrossRatio(a: real, b: real, c: real, sum: real)
    requires sum > 0.0
    ensures Times(Share(a, sum), Times(b, c)) == Times(Share(b, sum), Times(a, c))
  {
    var a', b' := a / sum, b / sum;
    assert a == a' * sum && b == b' * sum;
    assert a' * (b' * sum * c) == b' * (a' * sum * c);
  }

  // ---------------------------------------------------------------------------------------------
  // Attention
  // ---------------------------------------------------------------------------------------------

  /** Consecutive query heads share a key/value head. */
  lemma GroupIsInterval(h: nat, heads: nat, kvHeads: nat, g: nat)
    requires h < heads && kvHeads > 0 && heads % kvHeads == 0
    ensures var size := heads / kvHeads;
      Group(h, heads, kvHeads) == g <==> g * size <= h < g * size + size
  {
    GroupFits(h, heads, kvHeads);
    var size := heads / kvHeads;
    if g * size <= h < g * size + size {
      DivisionIsUnique(h, g, h - g * size, size);
    }
  }

  /** The score at a position is the dot product of the query head and the group's key, scaled. */
  lemma ScoreAt(q: Vec, h: nat, heads: nat, keys: seq<Row>, g: nat, headDim: nat, scale: real, t: nat)
    requires h < heads && |q| == heads * headDim && t < |keys|
    requires forall i :: 0 <= i < |keys| ==> g < |keys[i]| && |keys[i][g]| == headDim
    ensures h * headDim + headDim <= |q|
    ensures Scores(q, h * headDim, keys, g, headDim, scale)[t]
         == Times(Dot(Head(q, h, heads, headDim), 0, keys[t][g], 0, headDim), scale)
  {
    RowFits(h, heads, headDim);
    hide Scores, Dot, Times;
    ScoreIs(q, h * headDim, keys, g, headDim, scale, t);
    DotFrom(q, h * headDim, keys[t][g], headDim);
  }

  lemma {:induction false} ScoreIs(q: Vec, at: nat, keys: seq<Row>, g: nat, headDim: nat, scale: real, t: nat)
    requires at + headDim <= |q| && t < |keys|
    requires forall i :: 0 <= i < |keys| ==> g < |keys[i]| && |keys[i][g]| == headDim
    ensures Scores(q, at, keys, g, headDim, scale)[t] == Times(Dot(q, at, keys[t][g], 0, headDim), scale)
  {
    hide Dot, Times;
    var n := |keys| - 1;
    if t < n {
      ScoreIs(q, at, keys[..n], g, headDim, scale, t);
    }
  }

  /** A head that sees the same vector everywhere in its group's values returns it, whatever the keys. */
  lemma AttentionAverages(f: Maths, q: Vec, keys: seq<Row>, values: seq<Row>, h: nat, heads: nat, kvHeads: nat,
                          headDim: nat, scale: real, g: nat, v: Vec)
    requires Genuine(f) && h < heads && kvHeads > 0 && heads % kvHeads == 0 && |q| == heads * headDim
    requires keys != [] && |keys| == |values| && Rows(keys, kvHeads, headDim) && Rows(values, kvHeads, headDim)
    requires g < kvHeads && g * (heads / kvHeads) <= h < g * (heads / kvHeads) + heads / kvHeads
    requires forall t :: 0 <= t < |values| ==> values[t][g] == v
    ensures AttendHead(f, q, keys, values, h, heads, kvHeads, headDim, scale) == v
  {
    GroupIsInterval(h, heads, kvHeads, g);
    RowFits(h, heads, headDim);
    var scores := Scores(q, h * headDim, keys, g, headDim, scale);
    SoftmaxIsAverage(f, scores);
    hide Group, Softmax, Scores, Genuine;
    MixedOfSame(Softmax(f, scores), values, g, headDim, v);
  }

  lemma MixedOfSame(weights: Vec, values: seq<Row>, g: nat, headDim: nat, v: Vec)
    requires |weights| == |values| > 0 && Sum(weights) == 1.0
    requires forall t :: 0 <= t < |values| ==> g < |values[t]| && |values[t][g]| == headDim && values[t][g] == v
    ensures Mixed(weights, values, g, headDim) == v
  {
    assert v == values[0][g];
    forall d: nat | d < headDim ensures Mix(weights, values, g, d) == v[d] {
      MixOfSame(weights, values, g, d, v[d]);
    }
  }

  /** Weights that sum to one and are to one another as the exponentials of the scaled dot products. */
  ghost predicate Weighs(f: Maths, weights: Vec, q: Vec, keys: seq<Row>, g: nat, scale: real)
    requires forall t :: 0 <= t < |keys| ==> g < |keys[t]| && |keys[t][g]| == |q|
  {
    && |weights| == |keys| && Sum(weights) == 1.0
    && forall i, j :: 0 <= i < |keys| && 0 <= j < |keys| ==>
         Times(weights[i], f.exp(Times(Dot(q, 0, keys[j][g], 0, |q|), scale)))
           == Times(weights[j], f.exp(Times(Dot(q, 0, keys[i][g], 0, |q|), scale)))
  }

  function HeadWeights(f: Maths, q: Vec, keys: seq<Row>, h: nat, heads: nat, kvHeads: nat, headDim: nat,
                       scale: real): Vec
    requires h < heads && kvHeads > 0 && heads % kvHeads == 0 && |q| == heads * headDim
    requires keys != [] && Rows(keys, kvHeads, headDim)
  {
    RowFits(h, heads, headDim);
    Softmax(f, Scores(q, h * headDim, keys, Group(h, heads, kvHeads), headDim, scale))
  }

  /** What one query head computes is the sum of its group's values under such weights. */
  lemma HeadWeighs(f: Maths, q: Vec, keys: seq<Row>, values: seq<Row>, h: nat, heads: nat, kvHeads: nat,
                   headDim: nat, scale: real, g: nat)
    requires Exponential(f) && forall x :: f.exp(x) > 0.0
    requires h < heads && kvHeads > 0 && heads % kvHeads == 0 && |q| == heads * headDim
    requires keys != [] && |keys| == |values| && Rows(keys, kvHeads, headDim) && Rows(values, kvHeads, headDim)
    requires g < kvHeads && g * (heads / kvHeads) <= h < g * (heads / kvHeads) + heads / kvHeads
    ensures var weights := HeadWeights(f, q, keys, h, heads, kvHeads, headDim, scale);
      && Weighs(f, weights, Head(q, h, heads, headDim), keys, g, scale)
      && AttendHead(f, q, keys, values, h, heads, kvHeads, headDim, scale) == Mixed(weights, values, g, headDim)
  {
    GroupIsInterval(h, heads, kvHeads, g);
    RowFits(h, heads, headDim);
    var scores := Scores(q, h * headDim, keys, g, headDim, scale);
    SoftmaxIsAverage(f, scores);
    var weights := Softmax(f, scores);
    hide Group, Softmax, Scores, Head, Exponential, Times, Dot, Sum;
    forall i, j | 0 <= i < |keys| && 0 <= j < |keys|
      ensures var x := Head(q, h, heads, headDim);
        Times(weights[i], f.exp(Times(Dot(x, 0, keys[j][g], 0, headDim), scale)))
          == Times(weights[j], f.exp(Times(Dot(x, 0, keys[i][g], 0, headDim), scale)))
    {
      ScoreAt(q, h, heads, keys, g, headDim, scale, i);
      ScoreAt(q, h, heads, keys, g, headDim, scale, j);
      SoftmaxRatios(f, scores, i, j);
    }
  }

  lemma {:induction false} HeadAttends(f: Maths, q: Vec, keys: seq<Row>, values: seq<Row>, n: nat, h: nat, heads: nat,
                                       kvHeads: nat, headDim: nat, scale: real)
    requires h < n <= heads && kvHeads > 0 && heads % kvHeads == 0 && |q| == heads * headDim
    requires keys != [] && |keys| == |values| && Rows(keys, kvHeads, headDim) && Rows(values, kvHeads, headDim)
    ensures Head(Attend(f, q, keys, values, n, heads, kvHeads, headDim, scale), h, n, headDim)
         == AttendHead(f, q, keys, values, h, heads, kvHeads, headDim, scale)
    decreases n
  {
    hide AttendHead;
    RowFits(h, n, headDim);
    RowFits(n - 1, n, headDim);
    if h < n - 1 {
      RowFits(h, n - 1, headDim);
      HeadAttends(f, q, keys, values, n - 1, h, heads, kvHeads, headDim, scale);
    }
  }

  lemma {:induction false} MixOfSame(weights: Vec, values: seq<Row>, g: nat, d: nat, x: real)
    requires |weights| == |values| && forall t :: 0 <= t < |values| ==> g < |values[t]| && d < |values[t][g]|
    requires forall t :: 0 <= t < |values| ==> values[t][g][d] == x
    ensures Mix(weights, values, g, d) == Times(Sum(weights), x)
  {
    if values != [] {
      var n := |values| - 1;
      MixOfSame(weights[..n], values[..n], g, d, x);
    }
  }

  /** All weight on one position returns its vector. */
  lemma {:induction false} MixOfOne(values: seq<Row>, g: nat, d: nat, t: nat, n: nat)
    requires n <= |values| && forall t :: 0 <= t < |values| ==> g < |values[t]| && d < |values[t][g]|
    ensures Mix(Spike(n, t, 1.0), values[..n], g, d) == if t < n then values[t][g][d] else 0.0
  {
    if n > 0 {
      MixOfOne(values, g, d, t, n - 1);
      assert values[..n][..n - 1] == values[..n - 1] && Spike(n, t, 1.0)[..n - 1] == Spike(n - 1, t, 1.0);
    }
  }

  // ---------------------------------------------------------------------------------------------
  // One layer
  // ---------------------------------------------------------------------------------------------

  /** Head h of what attention gives: the values of its group, weighed by the query head and the group's keys. */
  ghost predicate HeadOf(f: Maths, hp: HParams, q: Vec, keys: seq<Row>, values: seq<Row>, h: nat, g: nat,
                         attended: Vec, weights: Vec, scale: real)
    requires h < hp.heads && g < hp.kvHeads && |q| == |attended| == hp.heads * hp.headDim && |keys| == |values|
    requires Rows(keys, hp.kvHeads, hp.headDim) && Rows(values, hp.kvHeads, hp.headDim)
  {
    && Weighs(f, weights, Head(q, h, hp.heads, hp.headDim), keys, g, scale)
    && Head(attended, h, hp.heads, hp.headDim) == Mixed(weights, values, g, hp.headDim)
  }

  /** Query head h shares key/value head g: equal groups, one after the other. */
  predicate Shares(hp: HParams, h: nat, g: nat) {
    h < hp.heads && g < hp.kvHeads
    && g * (hp.heads / hp.kvHeads) <= h < g * (hp.heads / hp.kvHeads) + hp.heads / hp.kvHeads
  }

  /**
   * One layer, without its operators: each head mixes the values of its group by weights that go with the
   * dot products over the root of the head size; then comes what follows attention.
   */
  lemma BlockAttends(f: Maths, hp: HParams, w: LayerWeights, x: Vec, pos: nat, keys: seq<Row>, values: seq<Row>)
    returns (attended: Vec, weights: seq<Vec>, scale: real)
    requires Genuine(f) && Exponential(f)
    requires Attendable(hp) && w.Shaped(hp) && |x| == hp.embd && keys != [] && |keys| == |values|
    requires Rows(keys, hp.kvHeads, hp.headDim) && Rows(values, hp.kvHeads, hp.headDim)
    ensures scale > 0.0 && scale * scale * hp.headDim as real == 1.0 && |weights| == hp.heads
    ensures |attended| == hp.QDim() && Block(f, hp, w, x, pos, keys, values) == AfterAttention(f, hp, w, x, attended)
    ensures forall h: nat, g: nat :: Shares(hp, h, g) ==>
      HeadOf(f, hp, QueryOf(f, hp, w, x, pos), keys, values, h, g, attended, weights[h], scale)
  {
    hide QueryOf, AfterAttention, Attend, AttendHead, Exponential, Weighs, AttentionScale, Mixed, HeadWeights;
    var q := QueryOf(f, hp, w, x, pos);
    scale := AttentionScale(f, hp);
    ScaleIsRoot(f, hp);
    attended := Attend(f, q, keys, values, hp.heads, hp.heads, hp.kvHeads, hp.headDim, scale);
    weights := seq(hp.heads, h requires 0 <= h < hp.heads =>
      HeadWeights(f, q, keys, h, hp.heads, hp.kvHeads, hp.headDim, scale));
    forall h: nat, g: nat | Shares(hp, h, g)
      ensures HeadOf(f, hp, q, keys, values, h, g, attended, weights[h], scale)
    {
      HeadAttends(f, q, keys, values, hp.heads, h, hp.heads, hp.kvHeads, hp.headDim, scale);
      HeadWeighs(f, q, keys, values, h, hp.heads, hp.kvHeads, hp.headDim, scale, g);
    }
  }

  /** Projections of nothing leave the biases, each its own, unturned at position 0. */
  lemma BiasesAreAdded(f: Maths, hp: HParams, w: LayerWeights, x: Vec)
    requires Rotary(f, hp.ropeBase) && hp.Positive() && w.Shaped(hp) && |x| == hp.embd
    requires w.attnQ == Zeros(hp.QDim() * hp.embd)
    requires w.attnK == w.attnV == Zeros(hp.KvDim() * hp.embd)
    requires w.qBias != [] && w.kBias != [] && w.vBias != []
    ensures QueryOf(f, hp, w, x, 0) == w.qBias && KeyOf(f, hp, w, x, 0) == w.kBias && ValueOf(f, hp, w, x) == w.vBias
  {
    hide Rotary, RmsNorm, MatVec, Rope;
    var normed := RmsNorm(f, x, w.attnNorm, hp.eps);
    MatVecZeros(normed, hp.QDim());
    MatVecZeros(normed, hp.KvDim());
    NothingAdded(w.qBias);
    NothingAdded(w.kBias);
    NothingAdded(w.vBias);
    RopeAtStart(f, w.qBias, hp.heads, hp.headDim, hp.ropeBase);
    RopeAtStart(f, w.kBias, hp.kvHeads, hp.headDim, hp.ropeBase);
  }

  lemma NothingAdded(bias: Vec)
    ensures AddBias(Zeros(|bias|), bias) == bias
  {
  }

  /** Without biases and at position 0, query, key and value are the products with their own weights. */
  lemma ProjectionsAreOwn(f: Maths, hp: HParams, w: LayerWeights, x: Vec)
    requires Rotary(f, hp.ropeBase) && hp.Positive() && w.Shaped(hp) && |x| == hp.embd
    requires w.qBias == w.kBias == w.vBias == []
    ensures var normed := RmsNorm(f, x, w.attnNorm, hp.eps);
      && QueryOf(f, hp, w, x, 0) == MatVec(w.attnQ, normed, hp.QDim())
      && KeyOf(f, hp, w, x, 0) == MatVec(w.attnK, normed, hp.KvDim())
      && ValueOf(f, hp, w, x) == MatVec(w.attnV, normed, hp.KvDim())
  {
    hide Rotary, RmsNorm, MatVec, Rope;
    var normed := RmsNorm(f, x, w.attnNorm, hp.eps);
    RopeAtStart(f, MatVec(w.attnQ, normed, hp.QDim()), hp.heads, hp.headDim, hp.ropeBase);
    RopeAtStart(f, MatVec(w.attnK, normed, hp.KvDim()), hp.kvHeads, hp.headDim, hp.ropeBase);
  }

  /** In one dimension: what feeding forward adds, times what divides the gate, is down * gate * up. */
  lemma GateAndUp(f: Maths, hp: HParams, w: LayerWeights, x: Vec)
    requires Genuine(f) && hp.Positive() && w.Shaped(hp) && hp.embd == hp.ff == |x| == 1
    ensures var n := RmsNorm(f, x, w.ffnNorm, hp.eps)[0];
      var gate, up := Times(w.gate[0], n), Times(w.up[0], n);
      Times(FeedForward(f, hp, w, x)[0] - x[0], 1.0 + f.exp(-gate)) == Times(w.down[0], Times(gate, up))
  {
    hide RmsNorm, MatVec, Swiglu, Silu, Genuine, Times;
    var normed := RmsNorm(f, x, w.ffnNorm, hp.eps);
    OneByOne(w.gate, normed);
    OneByOne(w.up, normed);
    var gate, up := MatVec(w.gate, normed, 1), MatVec(w.up, normed, 1);
    var inner := Swiglu(f, gate, up);
    OneByOne(w.down, inner);
    SiluTimesGate(f, gate, up, 0);
    Regrouped(x[0], w.down[0], inner[0], 1.0 + f.exp(-gate[0]));
    assert FeedForward(f, hp, w, x)[0] == x[0] + Times(w.down[0], inner[0]);
  }

  lemma Regrouped(x: real, a: real, b: real, d: real)
    ensures Times(x + Times(a, b) - x, d) == Times(a, Times(b, d))
  {
    assert a * b * d == a * (b * d);
  }

  lemma OneByOne(a: Vec, x: Vec)
    requires |a| == |x| == 1
    ensures MatVec(a, x, 1) == [Times(a[0], x[0])]
  {
    assert RowDot(a, x, 0, 1) == a[0] * x[0] by {
      assert Dot(a, 0, x, 0, 0) == 0.0;
    }
  }

  /** Both residuals carry the vector through a layer whose projections are zero. */
  lemma ResidualsCarry(f: Maths, hp: HParams, w: LayerWeights, x: Vec, attended: Vec)
    requires hp.Positive() && w.Shaped(hp) && |x| == hp.embd && |attended| == hp.QDim()
    requires w.attnOut == Zeros(hp.embd * hp.QDim()) && w.down == Zeros(hp.embd * hp.ff)
    ensures AfterAttention(f, hp, w, x, attended) == x
  {
    hide RmsNorm, Swiglu, MatVec, Silu;
    MatVecZeros(attended, hp.embd);
    assert Add(x, Zeros(hp.embd)) == x;
    var normed := RmsNorm(f, x, w.ffnNorm, hp.eps);
    MatVecZeros(Swiglu(f, MatVec(w.gate, normed, hp.ff), MatVec(w.up, normed, hp.ff)), hp.embd);
  }
}
