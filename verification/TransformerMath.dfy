/**
 * The operators of the transformer, as functions on vectors of real numbers. Rounding is left aside;
 * the elementary functions are parameters, about which nothing is assumed unless a lemma says so.
 */
module TransformerMath {
  import opened Arithmetic

  type Vec = seq<real>

  /** Elementary functions; `div` stands for division, also where the divisor may be zero. */
  datatype Maths = Maths(
    sqrt: real -> real,
    exp: real -> real,
    cos: real -> real,
    sin: real -> real,
    pow: (real, real) -> real,
    div: (real, real) -> real)

  /** What the functions have in common with those of the reals. */
  ghost predicate Genuine(f: Maths) {
    && (forall x, y :: y != 0.0 ==> f.div(x, y) == x / y)
    && (forall x :: x > 0.0 ==> f.sqrt(x) > 0.0 && f.sqrt(x) * f.sqrt(x) == x)
    && (forall x :: f.exp(x) > 0.0)
  }

  predicate Sized(xs: seq<Vec>, n: nat) {
    forall i :: 0 <= i < |xs| ==> |xs[i]| == n
  }

  // ---------------------------------------------------------------------------------------------
  // Rows of a flat matrix
  // ---------------------------------------------------------------------------------------------

  function Dot(a: Vec, i: nat, b: Vec, j: nat, n: nat): real
    requires i + n <= |a| && j + n <= |b|
  {
    if n == 0 then 0.0 else Dot(a, i, b, j, n - 1) + a[i + n - 1] * b[j + n - 1]
  }

  /** A dot product only looks at its two windows. */
  lemma {:induction false} DotWindow(a: Vec, i: nat, b: Vec, j: nat, b': Vec, j': nat, n: nat)
    requires i + n <= |a| && j + n <= |b| && j' + n <= |b'|
    requires b[j..j + n] == b'[j'..j' + n]
    ensures Dot(a, i, b, j, n) == Dot(a, i, b', j', n)
  {
    if n > 0 {
      assert b[j + n - 1] == b[j..j + n][n - 1] == b'[j' + n - 1];
      assert b[j..j + n - 1] == b[j..j + n][..n - 1];
      assert b'[j'..j' + n - 1] == b'[j'..j' + n][..n - 1];
      DotWindow(a, i, b, j, b', j', n - 1);
    }
  }

  function RowDot(a: Vec, x: Vec, m: nat, rows: nat): real
    requires m < rows && |a| == rows * |x|
  {
    RowFits(m, rows, |x|);
    Dot(a, m * |x|, x, 0, |x|)
  }

  function MatVec(a: Vec, x: Vec, rows: nat): (y: Vec)
    requires |a| == rows * |x|
    ensures |y| == rows
  {
    seq(rows, m requires 0 <= m < rows && |a| == rows * |x| => RowDot(a, x, m, rows))
  }

  // ---------------------------------------------------------------------------------------------
  // Pointwise operators
  // ---------------------------------------------------------------------------------------------

  function Add(a: Vec, b: Vec): (y: Vec)
    requires |a| == |b|
    ensures |y| == |a|
  {
    seq(|a|, i requires 0 <= i < |a| && |a| == |b| => a[i] + b[i])
  }

  /** Biases are optional. */
  function AddBias(a: Vec, bias: Vec): (y: Vec)
    requires bias == [] || |bias| == |a|
    ensures |y| == |a|
  {
    if bias == [] then a else Add(a, bias)
  }

  function InverseRms(f: Maths, x: Vec, eps: real): real
    requires x != []
  {
    f.div(1.0, f.sqrt(Dot(x, 0, x, 0, |x|) / |x| as real + eps))
  }

  function RmsNorm(f: Maths, x: Vec, weight: Vec, eps: real): (y: Vec)
    requires x != [] && |weight| == |x|
    ensures |y| == |x|
  {
    var inv := InverseRms(f, x, eps);
    seq(|x|, i requires 0 <= i < |x| && |weight| == |x| => x[i] * inv * weight[i])
  }

  function Silu(f: Maths, g: real): real {
    f.div(g, 1.0 + f.exp(-g))
  }

  function Swiglu(f: Maths, gate: Vec, up: Vec): (y: Vec)
    requires |gate| == |up|
    ensures |y| == |gate|
  {
    seq(|gate|, i requires 0 <= i < |gate| && |gate| == |up| => Silu(f, gate[i]) * up[i])
  }

  // ---------------------------------------------------------------------------------------------
  // Rotary position encoding
  // ---------------------------------------------------------------------------------------------

  /** The angle of pair i at a position. */
  function Angle(f: Maths, i: nat, headDim: nat, pos: nat, base: real): real
    requires headDim > 0
  {
    pos as real * f.div(1.0, f.pow(base, (2 * i) as real / headDim as real))
  }

  /** The plane rotation of (x, y) by an angle. */
  function TurnedX(f: Maths, x: real, y: real, angle: real): real {
    x * f.cos(angle) - y * f.sin(angle)
  }

  function TurnedY(f: Maths, x: real, y: real, angle: real): real {
    x * f.sin(angle) + y * f.cos(angle)
  }

  /** Element d of one rotated head: elements i and i + half turn together. */
  function Rotated(f: Maths, v: Vec, d: nat, pos: nat, base: real): real
    requires d < |v| && |v| % 2 == 0
  {
    var half := |v| / 2;
    if d < half then TurnedX(f, v[d], v[d + half], Angle(f, d, |v|, pos, base))
    else TurnedY(f, v[d - half], v[d], Angle(f, d - half, |v|, pos, base))
  }

  function RotateHead(f: Maths, v: Vec, pos: nat, base: real): (y: Vec)
    requires |v| % 2 == 0
    ensures |y| == |v|
  {
    seq(|v|, d requires 0 <= d < |v| && |v| % 2 == 0 => Rotated(f, v, d, pos, base))
  }

  /** Every head rotated on its own. */
  function RotateHeads(f: Maths, v: Vec, heads: nat, headDim: nat, pos: nat, base: real): (y: Vec)
    requires |v| == heads * headDim && headDim % 2 == 0
    ensures |y| == |v|
  {
    if heads == 0 then []
    else
      RowFits(heads - 1, heads, headDim);
      var cut := (heads - 1) * headDim;
      RotateHeads(f, v[..cut], heads - 1, headDim, pos, base) + RotateHead(f, v[cut..], pos, base)
  }

  /** With an odd head size nothing is rotated. */
  function Rope(f: Maths, v: Vec, heads: nat, headDim: nat, pos: nat, base: real): (y: Vec)
    requires |v| == heads * headDim
    ensures |y| == |v|
  {
    if headDim % 2 == 0 then RotateHeads(f, v, heads, headDim, pos, base) else v
  }

  // ---------------------------------------------------------------------------------------------
  // Softmax
  // ---------------------------------------------------------------------------------------------

  function MaxOf(s: Vec): (m: real)
    requires s != []
    ensures m in s && forall i :: 0 <= i < |s| ==> s[i] <= m
  {
    if |s| == 1 then s[0]
    else
      var m := MaxOf(s[..|s| - 1]);
      if m < s[|s| - 1] then s[|s| - 1] else m
  }

  function Sum(s: Vec): real {
    if s == [] then 0.0 else Sum(s[..|s| - 1]) + s[|s| - 1]
  }

  function Exps(f: Maths, s: Vec, m: real): (y: Vec)
    ensures |y| == |s|
  {
    seq(|s|, i requires 0 <= i < |s| => f.exp(s[i] - m))
  }

  function Scaled(s: Vec, sum: real): (y: Vec)
    requires sum > 0.0
    ensures |y| == |s|
  {
    seq(|s|, i requires 0 <= i < |s| && sum > 0.0 => s[i] / sum)
  }

  function Softmax(f: Maths, s: Vec): (y: Vec)
    requires s != []
    ensures |y| == |s|
  {
    var e := Exps(f, s, MaxOf(s));
    if Sum(e) > 0.0 then Scaled(e, Sum(e)) else e
  }

  /** Softmax weights sum to one, and none is negative, wherever exp is positive. */
  lemma {:induction false} SoftmaxIsAverage(f: Maths, s: Vec)
    requires s != [] && forall x :: f.exp(x) > 0.0
    ensures Sum(Softmax(f, s)) == 1.0
    ensures forall i :: 0 <= i < |s| ==> Softmax(f, s)[i] > 0.0
  {
    var e := Exps(f, s, MaxOf(s));
    SumPositive(e);
    SumScaled(e, Sum(e));
    Quotient(Sum(e));
  }

  lemma Quotient(x: real)
    requires x > 0.0
    ensures x / x == 1.0
  {
  }

  lemma {:induction false} SumPositive(s: Vec)
    requires s != [] && forall i :: 0 <= i < |s| ==> s[i] > 0.0
    ensures Sum(s) > 0.0
  {
    if |s| > 1 {
      SumPositive(s[..|s| - 1]);
    } else {
      assert s[..0] == [];
    }
  }

  lemma {:induction false} SumScaled(s: Vec, sum: real)
    requires sum > 0.0
    ensures Sum(Scaled(s, sum)) == Sum(s) / sum
  {
    if s != [] {
      SumScaled(s[..|s| - 1], sum);
      assert Scaled(s, sum)[..|s| - 1] == Scaled(s[..|s| - 1], sum);
    }
  }

  // ---------------------------------------------------------------------------------------------
  // Attention
  // ---------------------------------------------------------------------------------------------

  /** What attention reads at one position: one vector for each key/value head. */
  type Row = seq<Vec>

  predicate Rows(rows: seq<Row>, heads: nat, headDim: nat) {
    forall t :: 0 <= t < |rows| ==> |rows[t]| == heads && Sized(rows[t], headDim)
  }

  /** A vector cut into heads. */
  function Heads(v: Vec, heads: nat, headDim: nat): (row: Row)
    requires |v| == heads * headDim
    ensures |row| == heads && Sized(row, headDim)
  {
    seq(heads, h requires 0 <= h < heads && |v| == heads * headDim => Head(v, h, heads, headDim))
  }

  function Head(v: Vec, h: nat, heads: nat, headDim: nat): (x: Vec)
    requires h < heads && |v| == heads * headDim
    ensures |x| == headDim
  {
    RowFits(h, heads, headDim);
    v[h * headDim..h * headDim + headDim]
  }

  /** Query heads share a key/value head in equal groups. */
  function Group(h: nat, heads: nat, kvHeads: nat): (g: nat)
    requires h < heads && kvHeads > 0 && heads % kvHeads == 0
    ensures g < kvHeads
  {
    GroupFits(h, heads, kvHeads);
    h / (heads / kvHeads)
  }

  lemma GroupFits(h: nat, heads: nat, kvHeads: nat)
    requires h < heads && kvHeads > 0 && heads % kvHeads == 0
    ensures heads / kvHeads > 0 && h / (heads / kvHeads) < kvHeads
  {
    var size := heads / kvHeads;
    assert heads == size * kvHeads;
    if size == 0 {
      assert false;
    }
    var g := h / size;
    assert g * size <= h;
    if g >= kvHeads {
      MulMonotone(kvHeads, g, size);
      assert false;
    }
  }

  function Times(x: real, y: real): real {
    x * y
  }

  /** Scores of one query head against every position. */
  function Scores(q: Vec, at: nat, keys: seq<Row>, g: nat, headDim: nat, scale: real): (s: Vec)
    requires at + headDim <= |q| && forall t :: 0 <= t < |keys| ==> g < |keys[t]| && |keys[t][g]| == headDim
    ensures |s| == |keys|
  {
    if keys == [] then []
    else
      var n := |keys| - 1;
      Scores(q, at, keys[..n], g, headDim, scale) + [Times(Dot(q, at, keys[n][g], 0, headDim), scale)]
  }

  /** Element d of the weighted sum of the values. */
  function Mix(weights: Vec, values: seq<Row>, g: nat, d: nat): real
    requires |weights| == |values| && forall t :: 0 <= t < |values| ==> g < |values[t]| && d < |values[t][g]|
  {
    if values == [] then 0.0
    else
      var n := |values| - 1;
      Mix(weights[..n], values[..n], g, d) + Times(weights[n], values[n][g][d])
  }

  function Mixed(weights: Vec, values: seq<Row>, g: nat, headDim: nat): (y: Vec)
    requires |weights| == |values| && forall t :: 0 <= t < |values| ==> g < |values[t]| && |values[t][g]| == headDim
    ensures |y| == headDim
  {
    seq(headDim, d requires 0 <= d < headDim && |weights| == |values|
                   && (forall t :: 0 <= t < |values| ==> g < |values[t]| && |values[t][g]| == headDim)
                 => Mix(weights, values, g, d))
  }

  function AttendHead(f: Maths, q: Vec, keys: seq<Row>, values: seq<Row>, h: nat, heads: nat, kvHeads: nat,
                      headDim: nat, scale: real): (y: Vec)
    requires h < heads && kvHeads > 0 && heads % kvHeads == 0 && |q| == heads * headDim
    requires keys != [] && |keys| == |values| && Rows(keys, kvHeads, headDim) && Rows(values, kvHeads, headDim)
    ensures |y| == headDim
  {
    RowFits(h, heads, headDim);
    var g := Group(h, heads, kvHeads);
    Mixed(Softmax(f, Scores(q, h * headDim, keys, g, headDim, scale)), values, g, headDim)
  }

  /** The first n heads of grouped-query attention. */
  function Attend(f: Maths, q: Vec, keys: seq<Row>, values: seq<Row>, n: nat, heads: nat, kvHeads: nat,
                  headDim: nat, scale: real): (y: Vec)
    requires n <= heads && kvHeads > 0 && heads % kvHeads == 0 && |q| == heads * headDim
    requires keys != [] && |keys| == |values| && Rows(keys, kvHeads, headDim) && Rows(values, kvHeads, headDim)
    ensures |y| == n * headDim
    decreases n
  {
    if n == 0 then []
    else
      RowFits(n - 1, heads, headDim);
      Attend(f, q, keys, values, n - 1, heads, kvHeads, headDim, scale)
        + AttendHead(f, q, keys, values, n - 1, heads, kvHeads, headDim, scale)
  }
}
